/** `scan-target.ts`: the tests on an address's text agree with CIDR blocks of its numeric value. */
module ScanTarget {
  import opened Options
  import opened Decimal

  // ---------------------------------------------------------------- IPv4

  function Split(s: string, separator: char): (parts: seq<string>)
    ensures parts != []
    decreases |s|
  {
    if s == "" then [""]
    else
      var rest := Split(s[1..], separator);
      if s[0] == separator then [""] + rest else [[s[0]] + rest[0]] + rest[1..]
  }

  /** `Number(part)` on a string of digits; anything else is not an octet. */
  function NumberOf(part: string): Option<nat> {
    if AllDigits(part) then Some(Value(part)) else None
  }

  predicate IsOctet(part: string) {
    NumberOf(part).Some? && NumberOf(part).value <= 255
  }

  predicate PublicOctets(a: nat, b: nat) {
    !(a == 0) &&
    !(a == 10) &&
    !(a == 127) &&
    !(a == 169 && b == 254) &&
    !(a == 172 && 16 <= b <= 31) &&
    !(a == 192 && b == 168) &&
    !(a == 192 && b == 0) &&
    !(a == 100 && 64 <= b <= 127) &&
    !(a == 198 && (b == 18 || b == 19)) &&
    !(a == 198 && b == 51) &&
    !(a == 203 && b == 0) &&
    !(224 <= a)
  }

  predicate IsPublicIPv4(address: string) {
    var parts := Split(address, '.');
    |parts| == 4 && (forall i | 0 <= i < 4 :: IsOctet(parts[i]))
        && PublicOctets(NumberOf(parts[0]).value, NumberOf(parts[1]).value)
  }

  function Quad(a: nat, b: nat, c: nat, d: nat): string {
    Digits(a) + "." + Digits(b) + "." + Digits(c) + "." + Digits(d)
  }

  function QuadValue(a: nat, b: nat, c: nat, d: nat): nat {
    a * 0x100_0000 + b * 0x1_0000 + c * 0x100 + d
  }

  /** `value` lies in the block of `size` addresses (a power of two) that starts at `base`. */
  predicate InBlock(value: nat, base: nat, size: nat)
    requires size > 0
  {
    value / size == base / size
  }

  predicate InRefusedBlocks(v: nat) {
    InBlock(v, 0x0000_0000, 0x100_0000) ||  // 0.0.0.0/8
    InBlock(v, 0x0A00_0000, 0x100_0000) ||  // 10.0.0.0/8
    InBlock(v, 0x7F00_0000, 0x100_0000) ||  // 127.0.0.0/8
    InBlock(v, 0xA9FE_0000, 0x1_0000) ||    // 169.254.0.0/16
    InBlock(v, 0xAC10_0000, 0x10_0000) ||   // 172.16.0.0/12
    InBlock(v, 0xC0A8_0000, 0x1_0000) ||    // 192.168.0.0/16
    InBlock(v, 0xC000_0000, 0x1_0000) ||    // 192.0.0.0/16
    InBlock(v, 0x6440_0000, 0x40_0000) ||   // 100.64.0.0/10
    InBlock(v, 0xC612_0000, 0x2_0000) ||    // 198.18.0.0/15
    InBlock(v, 0xC633_0000, 0x1_0000) ||    // 198.51.0.0/16
    InBlock(v, 0xCB00_0000, 0x1_0000) ||    // 203.0.0.0/16
    InBlock(v, 0xE000_0000, 0x2000_0000)    // 224.0.0.0/3
  }

  /** The blocks that section 2.2.2 of RFC 6890 does not mark as global. */
  predicate InReservedBlocks(v: nat) {
    InBlock(v, 0x0000_0000, 0x100_0000) ||  // "This host on this network"
    InBlock(v, 0x0A00_0000, 0x100_0000) ||  // Private-Use
    InBlock(v, 0x6440_0000, 0x40_0000) ||   // Shared Address Space
    InBlock(v, 0x7F00_0000, 0x100_0000) ||  // Loopback
    InBlock(v, 0xA9FE_0000, 0x1_0000) ||    // Link Local
    InBlock(v, 0xAC10_0000, 0x10_0000) ||   // Private-Use
    InBlock(v, 0xC000_0000, 0x100) ||       // IETF Protocol Assignments
    InBlock(v, 0xC000_0200, 0x100) ||       // TEST-NET-1
    InBlock(v, 0xC0A8_0000, 0x1_0000) ||    // Private-Use
    InBlock(v, 0xC612_0000, 0x2_0000) ||    // Benchmarking
    InBlock(v, 0xC633_6400, 0x100) ||       // TEST-NET-2
    InBlock(v, 0xCB00_7100, 0x100) ||       // TEST-NET-3
    InBlock(v, 0xF000_0000, 0x1000_0000) || // Reserved
    v == 0xFFFF_FFFF                        // Limited Broadcast
  }

  lemma {:induction false} SplitAtFirst(head: string, tail: string, separator: char)
    requires separator !in head
    ensures Split(head + [separator] + tail, separator) == [head] + Split(tail, separator)
  {
    var s := head + [separator] + tail;
    if head == "" {
      assert s[1..] == tail;
    } else {
      assert s[1..] == head[1..] + [separator] + tail;
      SplitAtFirst(head[1..], tail, separator);
      assert head == [head[0]] + head[1..];
    }
  }

  lemma {:induction false} SplitNone(s: string, separator: char)
    requires separator !in s
    ensures Split(s, separator) == [s]
  {
    if s != "" {
      SplitNone(s[1..], separator);
      assert s == [s[0]] + s[1..];
    }
  }

  lemma {:induction false} SplitCount(s: string, separator: char)
    ensures |Split(s, separator)| <= |s| + 1
  {
    if s != "" { SplitCount(s[1..], separator); }
  }

  lemma NoDotInDigits(n: nat)
    ensures '.' !in Digits(n)
  {
    assert !IsDigit('.');
  }

  lemma QuadSplits(a: nat, b: nat, c: nat, d: nat)
    ensures Split(Quad(a, b, c, d), '.') == [Digits(a), Digits(b), Digits(c), Digits(d)]
  {
    NoDotInDigits(a); NoDotInDigits(b); NoDotInDigits(c); NoDotInDigits(d);
    hide Digits, Split;
    var cd := Digits(c) + "." + Digits(d);
    var bcd := Digits(b) + "." + cd;
    assert Quad(a, b, c, d) == Digits(a) + "." + bcd;
    SplitAtFirst(Digits(a), bcd, '.');
    SplitAtFirst(Digits(b), cd, '.');
    SplitAtFirst(Digits(c), Digits(d), '.');
    SplitNone(Digits(d), '.');
  }

  lemma OctetsAreBlocks(a: nat, b: nat, c: nat, d: nat)
    requires a < 256 && b < 256 && c < 256 && d < 256
    ensures PublicOctets(a, b) <==> !InRefusedBlocks(QuadValue(a, b, c, d))
  {
    var v := QuadValue(a, b, c, d);
    assert v / 0x100_0000 == a;
    assert v / 0x1_0000 == a * 0x100 + b;
    assert v / 0x10_0000 == a * 0x10 + b / 0x10;
    assert v / 0x40_0000 == a * 4 + b / 0x40;
    assert v / 0x2_0000 == a * 0x80 + b / 2;
    assert v / 0x2000_0000 == a / 0x20;
  }

  lemma QuadFits(a: nat, b: nat, c: nat, d: nat)
    requires a < 256 && b < 256 && c < 256 && d < 256
    ensures QuadValue(a, b, c, d) < 0x1_0000_0000
  {}

  lemma ReservedIsRefused(v: nat)
    requires v < 0x1_0000_0000 && InReservedBlocks(v)
    ensures InRefusedBlocks(v)
  {}

  // ---------------------------------------------------------------- IPv6

  function LowerChar(c: char): char {
    if 'A' <= c <= 'Z' then (c as int + 32) as char else c
  }

  function ToLower(s: string): string {
    seq(|s|, i requires 0 <= i < |s| => LowerChar(s[i]))
  }

  /** `address.toLowerCase().split('%')[0]`. */
  function Normalised(address: string): string {
    Split(ToLower(address), '%')[0]
  }

  /** The link-local, unique-local and multicast tests. */
  predicate RefusedByPrefix(addr: string) {
    "fe8" <= addr || "fe9" <= addr || "fea" <= addr || "feb" <= addr || "fc" <= addr || "fd" <= addr || "ff" <= addr
  }

  predicate IsDottedDigits(s: string) {
    var parts := Split(s, '.');
    |parts| == 4 && forall i | 0 <= i < 4 :: parts[i] != "" && AllDigits(parts[i])
  }

  /** The capture of the expression for IPv4-mapped and IPv4-compatible text. */
  function MappedIPv4(addr: string): Option<string> {
    if !("::" <= addr) then None
    else
      var tail := if "::ffff:" <= addr then addr[7..] else addr[2..];
      if IsDottedDigits(tail) then Some(tail) else None
  }

  predicate IsPublicIPv6(address: string) {
    var addr := Normalised(address);
    addr != "::" && addr != "::1" && !RefusedByPrefix(addr) &&
    match MappedIPv4(addr)
    case Some(quad) => IsPublicIPv4(quad)
    case None => true
  }

  datatype Family = NotAnAddress | V4 | V6

  /** `isPublicAddress`, given what `isIP` says of the text. */
  predicate IsPublicAddress(address: string, family: Family) {
    match family
    case V4 => IsPublicIPv4(address)
    case V6 => IsPublicIPv6(address)
    case NotAnAddress => false
  }

  // ---------------------------------------------------------------- IPv4 theorem

  /**
    Printing an address, splitting it and testing its octets refuses it iff its value lies in one of the
    twelve blocks.
  */
  lemma IPv4TestsAreBlocks(a: nat, b: nat, c: nat, d: nat)
    requires a < 256 && b < 256 && c < 256 && d < 256
    ensures IsPublicAddress(Quad(a, b, c, d), V4) <==> !InRefusedBlocks(QuadValue(a, b, c, d))
    ensures InReservedBlocks(QuadValue(a, b, c, d)) ==> !IsPublicAddress(Quad(a, b, c, d), V4)
    ensures !IsPublicAddress(Quad(a, b, c, d), NotAnAddress)
  {
    hide Digits, Split, Value, Quad, QuadValue, InRefusedBlocks, InReservedBlocks;
    QuadSplits(a, b, c, d);
    ValueOfDigits(a); ValueOfDigits(b); ValueOfDigits(c); ValueOfDigits(d);
    OctetsAreBlocks(a, b, c, d);
    if InReservedBlocks(QuadValue(a, b, c, d)) { QuadFits(a, b, c, d); ReservedIsRefused(QuadValue(a, b, c, d)); }
  }

  // ---------------------------------------------------------------- canonical text

  function HexChar(d: nat): char
    requires d < 16
  {
    if d < 10 then ('0' as int + d) as char else ('a' as int + d - 10) as char
  }

  function Hex(n: nat): (s: string)
    ensures s != ""
  {
    if n < 16 then [HexChar(n)] else Hex(n / 16) + [HexChar(n % 16)]
  }

  predicate IsGroups(g: seq<nat>) {
    |g| == 8 && forall i | 0 <= i < 8 :: g[i] < 0x1_0000
  }

  function Joined(g: seq<nat>): string {
    if g == [] then "" else if |g| == 1 then Hex(g[0]) else Hex(g[0]) + ":" + Joined(g[1..])
  }

  /** How many groups are zero from the i-th on. */
  function ZerosAt(g: seq<nat>, i: nat): (n: nat)
    requires i <= |g|
    ensures i + n <= |g| && forall k | i <= k < i + n :: g[k] == 0
    decreases |g| - i
  {
    if i == |g| || g[i] != 0 then 0 else 1 + ZerosAt(g, i + 1)
  }

  /** The first of the longest runs of zeros that start at `i` or later. */
  function LongestRun(g: seq<nat>, i: nat): (r: (nat, nat))
    requires i <= |g|
    ensures i <= r.0 && r.0 + r.1 <= |g| && forall k | r.0 <= k < r.0 + r.1 :: g[k] == 0
    decreases |g| - i
  {
    if i == |g| then (i, 0)
    else
      var here := ZerosAt(g, i);
      var later := LongestRun(g, i + 1);
      if later.1 <= here then (i, here) else later
  }

  /**
    Section 4 of RFC 5952: lower case, no leading zeros, "::" for the first longest run of two or more
    zero groups.
  */
  function Canonical(g: seq<nat>): string {
    var (start, length) := LongestRun(g, 0);
    if length < 2 then Joined(g) else Joined(g[..start]) + "::" + Joined(g[start + length..])
  }

  predicate ZeroRun(g: seq<nat>, i: nat, n: nat) {
    i + n <= |g| && forall k | i <= k < i + n :: g[k] == 0
  }

  lemma {:induction false} ZerosAtIsLongest(g: seq<nat>, i: nat, n: nat)
    requires i <= |g|
    ensures ZeroRun(g, i, n) ==> n <= ZerosAt(g, i)
    decreases |g| - i
  {
    if i < |g| && n > 0 { ZerosAtIsLongest(g, i + 1, n - 1); }
  }

  lemma {:induction false} LongestFrom(g: seq<nat>, from: nat, i: nat, n: nat)
    requires from <= i <= |g| && ZeroRun(g, i, n)
    ensures var (start, length) := LongestRun(g, from); n <= length && (n == length && i < |g| ==> start <= i)
    decreases |g| - from
  {
    if from < |g| {
      ZerosAtIsLongest(g, from, n);
      if from < i { LongestFrom(g, from + 1, i, n); }
    }
  }

  ghost predicate FirstLongestZeros(g: seq<nat>, start: nat, length: nat) {
    && start < |g|
    && ZeroRun(g, start, length)
    && forall i: nat, n: nat | i < |g| && ZeroRun(g, i, n) :: n <= length && (n == length ==> start <= i)
  }

  lemma LongestIs(g: seq<nat>, start: nat, length: nat)
    requires FirstLongestZeros(g, start, length)
    ensures LongestRun(g, 0).1 == length && (length > 0 ==> LongestRun(g, 0).0 == start)
  {
    var r := LongestRun(g, 0);
    LongestFrom(g, 0, start, length);
    hide LongestRun;
    assert ZeroRun(g, r.0, r.1);
    if length > 0 { assert r.0 < |g|; }
  }

  /** What is compressed: the first of the longest runs of zero groups, when it has at least two. */
  lemma CanonicalCompresses(g: seq<nat>, start: nat, length: nat)
    requires FirstLongestZeros(g, start, length)
    ensures start + length <= |g|
    ensures length < 2 ==> Canonical(g) == Joined(g)
    ensures length >= 2 ==> Canonical(g) == Joined(g[..start]) + "::" + Joined(g[start + length..])
  {
    hide Canonical, Joined, LongestRun;
    LongestIs(g, start, length);
    CanonicalOfRun(g);
  }

  lemma CanonicalOfRun(g: seq<nat>)
    ensures var r := LongestRun(g, 0);
            Canonical(g) == if r.1 < 2 then Joined(g) else Joined(g[..r.0]) + "::" + Joined(g[r.0 + r.1..])
  {
    hide LongestRun, Joined;
  }

  function AddressValue(g: seq<nat>): nat
    requires IsGroups(g)
  {
    g[0] * 0x1_0000_0000_0000_0000_0000_0000_0000 + g[1] * 0x1_0000_0000_0000_0000_0000_0000
        + g[2] * 0x1_0000_0000_0000_0000_0000
    + g[3] * 0x1_0000_0000_0000_0000 + g[4] * 0x1_0000_0000_0000 + g[5] * 0x1_0000_0000 + g[6] * 0x1_0000 + g[7]
  }

  /** fe80::/10, fc00::/7 and ff00::/8 (sections 2.5.6 and 2.7 of RFC 4291, section 3.1 of RFC 4193). */
  predicate InLocalBlocks(v: nat) {
    InBlock(v, 0xfe80_0000_0000_0000_0000_0000_0000_0000, 0x40_0000_0000_0000_0000_0000_0000_0000) ||
    InBlock(v, 0xfc00_0000_0000_0000_0000_0000_0000_0000, 0x200_0000_0000_0000_0000_0000_0000_0000) ||
    InBlock(v, 0xff00_0000_0000_0000_0000_0000_0000_0000, 0x100_0000_0000_0000_0000_0000_0000_0000)
  }

  /** First groups whose shorter print starts like that of a refused block. */
  predicate PrintsLikeLocal(first: nat) {
    0xfe8 <= first <= 0xfeb || first == 0xfc || first == 0xfd || first == 0xff
    || 0xfc0 <= first <= 0xfdf || 0xff0 <= first <= 0xfff
  }

  /** The same three blocks, by the first group alone. */
  predicate InLocalRange(first: nat) {
    first / 0x40 == 0x3fa || first / 0x200 == 0x7e || first / 0x100 == 0xff
  }

  lemma BlocksOfFirstGroup(g: seq<nat>)
    requires IsGroups(g)
    ensures InLocalBlocks(AddressValue(g)) <==> InLocalRange(g[0])
  {
    var v := AddressValue(g);
    assert v / 0x40_0000_0000_0000_0000_0000_0000_0000 == g[0] / 0x40;
    assert v / 0x200_0000_0000_0000_0000_0000_0000_0000 == g[0] / 0x200;
    assert v / 0x100_0000_0000_0000_0000_0000_0000_0000 == g[0] / 0x100;
  }

  lemma HexShape(n: nat)
    requires n < 0x1_0000
    ensures n < 0x10 ==> Hex(n) == [HexChar(n)]
    ensures 0x10 <= n < 0x100 ==> Hex(n) == [HexChar(n / 0x10), HexChar(n % 0x10)]
    ensures 0x100 <= n < 0x1000 ==> Hex(n) == [HexChar(n / 0x100), HexChar(n / 0x10 % 0x10), HexChar(n % 0x10)]
    ensures 0x1000 <= n ==>
              Hex(n) == [HexChar(n / 0x1000), HexChar(n / 0x100 % 0x10), HexChar(n / 0x10 % 0x10), HexChar(n % 0x10)]
  {
    assert n / 0x10 / 0x10 == n / 0x100 && n / 0x100 / 0x10 == n / 0x1000;
    if 0x10 <= n { assert Hex(n) == Hex(n / 0x10) + [HexChar(n % 0x10)]; }
    if 0x100 <= n { assert Hex(n / 0x10) == Hex(n / 0x100) + [HexChar(n / 0x10 % 0x10)]; }
    if 0x1000 <= n { assert Hex(n / 0x100) == Hex(n / 0x1000) + [HexChar(n / 0x100 % 0x10)]; }
  }

  /**
    Canonical text starts with its first group and a colon, or, where zeros come first, with a zero or a
    colon.
  */
  lemma CanonicalStart(g: seq<nat>)
    requires IsGroups(g)
    ensures g[0] != 0 ==> Hex(g[0]) + ":" <= Canonical(g)
    ensures g[0] == 0 ==> Canonical(g) != "" && (Canonical(g)[0] == '0' || Canonical(g)[0] == ':')
  {
    var (start, length) := LongestRun(g, 0);
    if length >= 2 {
      assert g[0] != 0 ==> start > 0;
      if start == 1 { assert g[..1] == [g[0]]; }
    }
  }

  lemma StartsWith(prefix: string, addr: string)
    ensures prefix <= addr <==> |prefix| <= |addr| && forall i | 0 <= i < |prefix| :: addr[i] == prefix[i]
  {}

  lemma PrefixChars(addr: string)
    ensures RefusedByPrefix(addr) <==>
            |addr| >= 2 && addr[0] == 'f' &&
            (addr[1] == 'c' || addr[1] == 'd' || addr[1] == 'f' ||
             (addr[1] == 'e' && |addr| >= 3 && (addr[2] == '8' || addr[2] == '9' || addr[2] == 'a' || addr[2] == 'b')))
  {
    StartsWith("fe8", addr); StartsWith("fe9", addr); StartsWith("fea", addr); StartsWith("feb", addr);
    StartsWith("fc", addr); StartsWith("fd", addr); StartsWith("ff", addr);
  }

  lemma HexCharIs(d: nat)
    requires d < 16
    ensures HexChar(d) != ':' && (HexChar(d) == '8' <==> d == 8) && (HexChar(d) == '9' <==> d == 9)
    ensures (HexChar(d) == 'a' <==> d == 10) && (HexChar(d) == 'b' <==> d == 11) && (HexChar(d) == 'c' <==> d == 12)
    ensures (HexChar(d) == 'd' <==> d == 13) && (HexChar(d) == 'e' <==> d == 14) && (HexChar(d) == 'f' <==> d == 15)
  {}

  /** The refused prefixes, as conditions on the leading hexadecimal digits. */
  predicate LocalDigits(d0: nat, d1: nat) {
    d0 == 15 && (d1 == 12 || d1 == 13 || d1 == 15)
  }

  predicate LinkLocalDigits(d0: nat, d1: nat, d2: nat) {
    d0 == 15 && d1 == 14 && 8 <= d2 <= 11
  }

  lemma TwoDigits(first: nat)
    requires 0x10 <= first < 0x100
    ensures LocalDigits(first / 0x10, first % 0x10) <==> InLocalRange(first) || PrintsLikeLocal(first)
  {}

  lemma ThreeDigits(first: nat)
    requires 0x100 <= first < 0x1000
    ensures LocalDigits(first / 0x100, first / 0x10 % 0x10)
            || LinkLocalDigits(first / 0x100, first / 0x10 % 0x10, first % 0x10)
            <==> InLocalRange(first) || PrintsLikeLocal(first)
  {}

  lemma FourDigits(first: nat)
    requires 0x1000 <= first < 0x1_0000
    ensures LocalDigits(first / 0x1000, first / 0x100 % 0x10)
            || LinkLocalDigits(first / 0x1000, first / 0x100 % 0x10, first / 0x10 % 0x10)
            <==> InLocalRange(first) || PrintsLikeLocal(first)
  {
    var d0, d1, d2, d3 := first / 0x1000, first / 0x100 % 0x10, first / 0x10 % 0x10, first % 0x10;
    FourDigitValue(first, d0, d1, d2, d3);
    BlocksOfDigits(first, d0, d1, d2, d3);
  }

  lemma FourDigitValue(first: nat, d0: nat, d1: nat, d2: nat, d3: nat)
    requires d0 == first / 0x1000 && d1 == first / 0x100 % 0x10 && d2 == first / 0x10 % 0x10 && d3 == first % 0x10
    ensures first == 0x1000 * d0 + 0x100 * d1 + 0x10 * d2 + d3
  {
    assert first / 0x10 / 0x10 == first / 0x100 && first / 0x100 / 0x10 == first / 0x1000;
  }

  lemma BlocksOfDigits(first: nat, d0: nat, d1: nat, d2: nat, d3: nat)
    requires d0 < 16 && d1 < 16 && d2 < 16 && d3 < 16 && first == 0x1000 * d0 + 0x100 * d1 + 0x10 * d2 + d3
    ensures InLocalRange(first) <==> LocalDigits(d0, d1) || LinkLocalDigits(d0, d1, d2)
  {
    assert first / 0x100 == 0x10 * d0 + d1;
    assert first / 0x200 == 8 * d0 + d1 / 2;
    assert first / 0x40 == 0x40 * d0 + 4 * d1 + d2 / 4;
  }

  lemma DigitsRefused(addr: string, d0: nat, d1: nat, d2: nat)
    requires d0 < 16 && d1 < 16 && d2 < 16
    requires |addr| >= 3 && addr[0] == HexChar(d0) && addr[1] == HexChar(d1)
              && (addr[2] == ':' || addr[2] == HexChar(d2))
    ensures RefusedByPrefix(addr) <==> LocalDigits(d0, d1) || (addr[2] == HexChar(d2) && LinkLocalDigits(d0, d1, d2))
  {
    hide RefusedByPrefix, HexChar;
    PrefixChars(addr);
    HexCharIs(d0); HexCharIs(d1); HexCharIs(d2);
  }

  lemma PrefixOfFirstGroup(first: nat, addr: string)
    requires first < 0x1_0000 && Hex(first) + ":" <= addr
    ensures RefusedByPrefix(addr) <==> InLocalRange(first) || PrintsLikeLocal(first)
  {
    hide RefusedByPrefix, HexChar, Hex, LocalDigits, LinkLocalDigits;
    HexShape(first);
    var head := Hex(first) + ":";
    assert forall i | 0 <= i < |head| :: addr[i] == head[i];
    if first < 0x10 {
      PrefixChars(addr);
      assert addr[1] == head[1] == ':';
    } else if first < 0x100 {
      assert addr[0] == HexChar(first / 0x10) && addr[1] == HexChar(first % 0x10) && addr[2] == head[2] == ':';
      DigitsRefused(addr, first / 0x10, first % 0x10, 0);
      HexCharIs(0);
      TwoDigits(first);
    } else if first < 0x1000 {
      DigitsRefused(addr, first / 0x100, first / 0x10 % 0x10, first % 0x10);
      ThreeDigits(first);
    } else {
      DigitsRefused(addr, first / 0x1000, first / 0x100 % 0x10, first / 0x10 % 0x10);
      FourDigits(first);
    }
  }

  /**
    The prefix tests on canonical text are the three blocks exactly when the first group does not
    print, in fewer than four digits, like the start of one of them.
  */
  lemma PrefixTestsExactly(g: seq<nat>)
    requires IsGroups(g)
    ensures RefusedByPrefix(Canonical(g)) <==> InLocalBlocks(AddressValue(g)) || PrintsLikeLocal(g[0])
    ensures (RefusedByPrefix(Canonical(g)) <==> InLocalBlocks(AddressValue(g))) <==> !PrintsLikeLocal(g[0])
  {
    CanonicalStart(g);
    BlocksOfFirstGroup(g);
    if g[0] != 0 {
      PrefixOfFirstGroup(g[0], Canonical(g));
    } else {
      PrefixChars(Canonical(g));
    }
  }

  // ---------------------------------------------------------------- mapped text

  lemma {:induction false} ToLowerKeeps(s: string)
    requires forall c <- s :: !('A' <= c <= 'Z')
    ensures ToLower(s) == s
  {
    assert forall i | 0 <= i < |s| :: s[i] in s;
  }

  lemma NormalisedKeeps(s: string)
    requires forall c <- s :: !('A' <= c <= 'Z') && c != '%'
    ensures Normalised(s) == s
  {
    ToLowerKeeps(s);
    SplitNone(s, '%');
  }

  lemma {:induction false} ValidOctets(a: nat, b: nat, c: nat, d: nat)
    ensures IsDottedDigits(Quad(a, b, c, d))
    ensures forall x <- Quad(a, b, c, d) :: x == '.' || IsDigit(x)
  {
    QuadSplits(a, b, c, d);
  }

  /**
    IPv4-mapped and IPv4-compatible text in dotted form (section 2.5.5 of RFC 4291) gets the verdict
    of the address inside.
  */
  lemma MappedTextGetsInnerVerdict(a: nat, b: nat, c: nat, d: nat)
    ensures IsPublicAddress("::ffff:" + Quad(a, b, c, d), V6) <==> IsPublicAddress(Quad(a, b, c, d), V4)
    ensures IsPublicAddress("::" + Quad(a, b, c, d), V6) <==> IsPublicAddress(Quad(a, b, c, d), V4)
  {
    var quad := Quad(a, b, c, d);
    ValidOctets(a, b, c, d);
    MappedText("::ffff:", quad);
    MappedText("::", quad);
  }

  lemma MappedText(prefix: string, quad: string)
    requires prefix == "::" || prefix == "::ffff:"
    requires IsDottedDigits(quad) && forall x <- quad :: x == '.' || IsDigit(x)
    ensures IsPublicIPv6(prefix + quad) <==> IsPublicIPv4(quad)
  {
    var addr := prefix + quad;
    assert forall x <- addr :: x == ':' || x == 'f' || x == '.' || IsDigit(x);
    NormalisedKeeps(addr);
    PrefixChars(addr);
    assert addr[0] == ':' && addr[1] == ':';
    DottedIsLong(quad);
    StartsWith("::", addr);
    StartsWith("::ffff:", addr);
    if prefix == "::" {
      assert quad[0] in quad && addr[2] == quad[0] != 'f';
      assert addr[2..] == quad;
    } else {
      assert addr[7..] == quad;
    }
    assert MappedIPv4(addr) == Some(quad);
  }

  lemma DottedIsLong(quad: string)
    requires IsDottedDigits(quad)
    ensures |quad| > 1
  {
    SplitCount(quad, '.');
  }

  // ---------------------------------------------------------------- the whole IPv6 verdict

  predicate IsHexDigit(c: char) {
    '0' <= c <= '9' || 'a' <= c <= 'f'
  }

  lemma {:induction false} HexIsHex(n: nat)
    ensures forall c <- Hex(n) :: IsHexDigit(c)
  {
    if n >= 16 { HexIsHex(n / 16); }
  }

  lemma {:induction false} JoinedIsHex(g: seq<nat>)
    ensures forall c <- Joined(g) :: c == ':' || IsHexDigit(c)
    ensures |Joined(g)| >= 2 * |g| - 1
    ensures g != [] ==> Joined(g) != "" && Joined(g)[0] != ':'
  {
    if g != [] {
      HexIsHex(g[0]);
      assert Hex(g[0])[0] in Hex(g[0]);
      JoinedIsHex(g[1..]);
    }
  }

  lemma CanonicalIsHex(g: seq<nat>)
    ensures forall c <- Canonical(g) :: c == ':' || IsHexDigit(c)
  {
    var (start, length) := LongestRun(g, 0);
    hide LongestRun, IsHexDigit, Joined;
    if length < 2 {
      JoinedIsHex(g);
    } else {
      var head, tail := g[..start], g[start + length..];
      assert Canonical(g) == Joined(head) + "::" + Joined(tail);
      hide Canonical;
      JoinedIsHex(head);
      JoinedIsHex(tail);
    }
  }

  /** Canonical text has no dotted part, so its verdict never looks inside. */
  lemma CanonicalIsNotMapped(g: seq<nat>)
    ensures MappedIPv4(Canonical(g)) == None
  {
    CanonicalIsHex(g);
    var addr := Canonical(g);
    if "::" <= addr {
      var tail := if "::ffff:" <= addr then addr[7..] else addr[2..];
      assert forall c <- tail :: c in addr;
      SplitNone(tail, '.');
    }
  }

  lemma {:induction false} ZerosReach(g: seq<nat>, i: nat, end: nat)
    requires i <= end <= |g| && forall k | i <= k < end :: g[k] == 0
    ensures end - i <= ZerosAt(g, i)
    decreases |g| - i
  {
    if i < end { ZerosReach(g, i + 1, end); }
  }

  lemma RunFromStart(g: seq<nat>, n: nat)
    requires |g| == 8 && 7 <= n <= 8 && (forall k | 0 <= k < n :: g[k] == 0) && (n == 7 ==> g[7] != 0)
    ensures LongestRun(g, 0) == (0, n)
  {
    ZerosReach(g, 0, n);
    var later := LongestRun(g, 1);
    assert 1 <= later.0 && later.0 + later.1 <= 8;
    assert ZerosAt(g, 0) == n;
  }

  lemma TextHead(g: seq<nat>)
    requires IsGroups(g)
    ensures var (start, length) := LongestRun(g, 0);
            start > 0 || length < 2 ==> Canonical(g) != "" && Canonical(g)[0] != ':'
  {
    var (start, length) := LongestRun(g, 0);
    hide LongestRun, Joined, IsHexDigit;
    if length < 2 {
      JoinedIsHex(g);
    } else if start > 0 {
      JoinedIsHex(g[..start]);
    }
  }

  lemma ShortTextStartsWithZeros(g: seq<nat>)
    requires IsGroups(g) && "::" <= Canonical(g) && |Canonical(g)| <= 3
    ensures var (start, length) := LongestRun(g, 0);
            start == 0 && length >= 7 && Joined(g[length..]) == Canonical(g)[2..]
  {
    var (start, length) := LongestRun(g, 0);
    TextHead(g);
    assert Canonical(g)[0] == "::"[0];
    hide LongestRun, Joined, IsHexDigit;
    JoinedIsHex(g[length..]);
    assert g[..0] == [] && Joined([]) == "";
  }

  lemma LowValues(g: seq<nat>)
    requires IsGroups(g)
    ensures AddressValue(g) == 0 <==> forall k | 0 <= k < 8 :: g[k] == 0
    ensures AddressValue(g) == 1 <==> g[7] == 1 && forall k | 0 <= k < 7 :: g[k] == 0
  {}

  lemma UnspecifiedText(g: seq<nat>)
    requires IsGroups(g)
    ensures Canonical(g) == "::" <==> AddressValue(g) == 0
  {
    LowValues(g);
    hide AddressValue;
    if Canonical(g) == "::" {
      ShortTextStartsWithZeros(g);
      var (start, length) := LongestRun(g, 0);
      JoinedIsHex(g[length..]);
      assert length == 8;
    }
    if AddressValue(g) == 0 {
      RunFromStart(g, 8);
      assert g[..0] == [] && g[8..] == [];
    }
  }

  lemma HexOne(n: nat)
    requires n < 0x1_0000
    ensures Hex(n) == "1" <==> n == 1
  {
    HexShape(n);
  }

  lemma LoopbackText(g: seq<nat>)
    requires IsGroups(g)
    ensures Canonical(g) == "::1" <==> AddressValue(g) == 1
  {
    HexOne(g[7]);
    LowValues(g);
    hide AddressValue, Hex, LongestRun;
    if Canonical(g) == "::1" {
      ShortTextStartsWithZeros(g);
      var (start, length) := LongestRun(g, 0);
      JoinedIsHex(g[length..]);
      assert Joined(g[length..]) == "1" && g[length..] != [];
      assert length == 7 && g[7..] == [g[7]];
    }
    if AddressValue(g) == 1 {
      RunFromStart(g, 7);
      assert g[..0] == [] && g[7..] == [g[7]];
    }
  }

  /**
    The whole verdict on every canonical text, in either case and with any zone: refused are the
    unspecified and the loopback address, the three local blocks, and first groups that print like them.
  */
  lemma IPv6TestsAreBlocks(address: string, g: seq<nat>)
    requires IsGroups(g) && Normalised(address) == Canonical(g)
    ensures IsPublicAddress(address, V6) <==>
            AddressValue(g) != 0 && AddressValue(g) != 1 && !InLocalBlocks(AddressValue(g)) && !PrintsLikeLocal(g[0])
    ensures 0x1000 <= g[0] ==> (IsPublicAddress(address, V6) <==> !InLocalBlocks(AddressValue(g)))
  {
    UnspecifiedText(g);
    LoopbackText(g);
    CanonicalIsNotMapped(g);
    PrefixTestsExactly(g);
    FirstGroupIsLarge(g);
    hide Canonical, AddressValue, InLocalBlocks, RefusedByPrefix, MappedIPv4;
  }

  lemma FirstGroupIsLarge(g: seq<nat>)
    requires IsGroups(g)
    ensures 0x1000 <= g[0] ==> AddressValue(g) > 1 && !PrintsLikeLocal(g[0])
  {}

  /** The address that embeds a.b.c.d after five or six zero groups. */
  function Embedding(sixth: nat, a: nat, b: nat, c: nat, d: nat): seq<nat> {
    [0, 0, 0, 0, 0, sixth, a * 0x100 + b, c * 0x100 + d]
  }

  /**
    In canonical text, which is all hexadecimal, the embedded address is not looked at: mapped text is
    always accepted and compatible text unless it is "::" or "::1". So the verdict is that of the
    address inside exactly when that one is public, or, for compatible text, is 0.0.0.0 or 0.0.0.1.
  */
  lemma HexTextIgnoresTheInner(a: nat, b: nat, c: nat, d: nat)
    requires a < 256 && b < 256 && c < 256 && d < 256
    ensures var inner := IsPublicAddress(Quad(a, b, c, d), V4);
            var v := QuadValue(a, b, c, d);
            && IsPublicAddress(Canonical(Embedding(0xffff, a, b, c, d)), V6)
            && (IsPublicAddress(Canonical(Embedding(0, a, b, c, d)), V6) <==> v > 1)
            && (inner <==> !InRefusedBlocks(v))
            && ((IsPublicAddress(Canonical(Embedding(0xffff, a, b, c, d)), V6) <==> inner) <==> !InRefusedBlocks(v))
            && ((IsPublicAddress(Canonical(Embedding(0, a, b, c, d)), V6) <==> inner) <==>
                !InRefusedBlocks(v) || v <= 1)
  {
    var mapped, compatible := Embedding(0xffff, a, b, c, d), Embedding(0, a, b, c, d);
    IPv4TestsAreBlocks(a, b, c, d);
    EmbeddedValues(a, b, c, d);
    CanonicalKeeps(mapped);
    CanonicalKeeps(compatible);
    IPv6TestsAreBlocks(Canonical(mapped), mapped);
    IPv6TestsAreBlocks(Canonical(compatible), compatible);
    LowestAreRefused(QuadValue(a, b, c, d));
    hide IsPublicAddress, Canonical, InRefusedBlocks, Quad, QuadValue;
  }

  lemma CanonicalKeeps(g: seq<nat>)
    ensures Normalised(Canonical(g)) == Canonical(g)
  {
    CanonicalIsHex(g);
    NormalisedKeeps(Canonical(g));
  }

  lemma LowestAreRefused(v: nat)
    ensures v <= 1 ==> InRefusedBlocks(v)
  {}

  lemma EmbeddedValues(a: nat, b: nat, c: nat, d: nat)
    requires a < 256 && b < 256 && c < 256 && d < 256
    ensures var mapped, compatible := Embedding(0xffff, a, b, c, d), Embedding(0, a, b, c, d);
            && IsGroups(mapped) && IsGroups(compatible)
            && AddressValue(mapped) == 0xffff_0000_0000 + QuadValue(a, b, c, d)
            && AddressValue(compatible) == QuadValue(a, b, c, d)
            && !InLocalBlocks(AddressValue(mapped)) && !InLocalBlocks(AddressValue(compatible))
            && !PrintsLikeLocal(0)
  {
    var mapped, compatible := Embedding(0xffff, a, b, c, d), Embedding(0, a, b, c, d);
    BlocksOfFirstGroup(mapped);
    BlocksOfFirstGroup(compatible);
    hide InLocalBlocks;
  }

  // ---------------------------------------------------------------- any case and any zone

  /** `raised` is the text with some of its letters in upper case. */
  predicate Raised(raised: string, text: string) {
    |raised| == |text| &&
    forall i | 0 <= i < |text| ::
      raised[i] == text[i] || ('a' <= text[i] <= 'z' && raised[i] == (text[i] as int - 32) as char)
  }

  lemma RaisedLowers(raised: string, text: string)
    requires Raised(raised, text) && forall c <- text :: !('A' <= c <= 'Z')
    ensures ToLower(raised) == text
  {
    forall i | 0 <= i < |text| ensures LowerChar(raised[i]) == text[i] { assert text[i] in text; }
  }

  lemma ZoneIsDropped(text: string, zone: string, raised: string)
    requires Raised(raised, text) && forall c <- text :: !('A' <= c <= 'Z') && c != '%'
    ensures Normalised(raised) == text && Normalised(raised + "%" + zone) == text
  {
    RaisedLowers(raised, text);
    SplitNone(text, '%');
    assert ToLower(raised + "%" + zone) == text + ['%'] + ToLower(zone) by {
      assert ToLower(raised + "%" + zone) == ToLower(raised) + ToLower("%") + ToLower(zone);
    }
    SplitAtFirst(text, ToLower(zone), '%');
  }

  /** The verdict on canonical text with letters raised at will, alone or with a zone after it. */
  lemma AnyCaseAnyZone(g: seq<nat>, raised: string, zone: string)
    requires IsGroups(g) && Raised(raised, Canonical(g))
    ensures var public := AddressValue(g) != 0 && AddressValue(g) != 1
                          && !InLocalBlocks(AddressValue(g)) && !PrintsLikeLocal(g[0]);
            && (IsPublicAddress(raised, V6) <==> public)
            && (IsPublicAddress(raised + "%" + zone, V6) <==> public)
  {
    CanonicalIsHex(g);
    ZoneIsDropped(Canonical(g), zone, raised);
    hide Canonical, AddressValue, InLocalBlocks, Normalised;
    IPv6TestsAreBlocks(raised, g);
    IPv6TestsAreBlocks(raised + "%" + zone, g);
  }

  // ---------------------------------------------------------------- splitting and what counts as mapped

  function JoinWith(parts: seq<string>, separator: char): string {
    if parts == [] then ""
    else if |parts| == 1 then parts[0]
    else parts[0] + [separator] + JoinWith(parts[1..], separator)
  }

  /** Splitting is the one way to cut a text at every separator. */
  lemma {:induction false} SplitUndoesJoin(parts: seq<string>, separator: char)
    requires parts != [] && forall part <- parts :: separator !in part
    ensures Split(JoinWith(parts, separator), separator) == parts
  {
    if |parts| == 1 {
      SplitNone(parts[0], separator);
    } else {
      SplitUndoesJoin(parts[1..], separator);
      SplitAtFirst(parts[0], JoinWith(parts[1..], separator), separator);
      assert parts == [parts[0]] + parts[1..];
    }
  }

  lemma {:induction false} JoinUndoesSplit(s: string, separator: char)
    ensures JoinWith(Split(s, separator), separator) == s
    ensures forall part <- Split(s, separator) :: separator !in part
  {
    if s != "" {
      var rest := Split(s[1..], separator);
      JoinUndoesSplit(s[1..], separator);
      assert s == [s[0]] + s[1..];
      if s[0] == separator {
        assert ([""] + rest)[1..] == rest;
      } else {
        assert ([[s[0]] + rest[0]] + rest[1..])[1..] == rest[1..];
      }
    }
  }

  function Dotted(a: string, b: string, c: string, d: string): string {
    a + "." + b + "." + c + "." + d
  }

  predicate IsNumber(s: string) {
    s != "" && forall i | 0 <= i < |s| :: '0' <= s[i] <= '9'
  }

  /** Four runs of digits with dots between them, and nothing else. */
  lemma DottedDigitsAre(s: string)
    ensures IsDottedDigits(s) <==>
            exists a, b, c, d :: s == Dotted(a, b, c, d) && IsNumber(a) && IsNumber(b) && IsNumber(c) && IsNumber(d)
  {
    if IsDottedDigits(s) {
      var p := Split(s, '.');
      JoinUndoesSplit(s, '.');
      assert s == Dotted(p[0], p[1], p[2], p[3]) by {
        assert p[1..][1..][1..] == [p[3]];
        assert JoinWith(p[1..][1..], '.') == p[2] + "." + p[3];
        assert JoinWith(p[1..], '.') == p[1] + "." + (p[2] + "." + p[3]);
      }
      NumbersAreDigits(p[0]); NumbersAreDigits(p[1]); NumbersAreDigits(p[2]); NumbersAreDigits(p[3]);
    }
    if a, b, c, d :| s == Dotted(a, b, c, d) && IsNumber(a) && IsNumber(b) && IsNumber(c) && IsNumber(d) {
      NumbersSplit(a, b, c, d);
    }
  }

  lemma NumbersAreDigits(s: string)
    ensures IsNumber(s) <==> s != "" && AllDigits(s)
    ensures IsNumber(s) ==> '.' !in s
  {
    if IsNumber(s) { assert forall c <- s :: IsDigit(c); }
    if AllDigits(s) { assert forall i | 0 <= i < |s| :: IsDigit(s[i]); }
  }

  lemma NumbersSplit(a: string, b: string, c: string, d: string)
    requires IsNumber(a) && IsNumber(b) && IsNumber(c) && IsNumber(d)
    ensures IsDottedDigits(Dotted(a, b, c, d))
  {
    NumbersAreDigits(a); NumbersAreDigits(b); NumbersAreDigits(c); NumbersAreDigits(d);
    hide IsNumber, AllDigits, Split;
    assert Dotted(a, b, c, d) == a + ['.'] + (b + ['.'] + (c + ['.'] + d));
    SplitAtFirst(a, b + ['.'] + (c + ['.'] + d), '.');
    SplitAtFirst(b, c + ['.'] + d, '.');
    SplitAtFirst(c, d, '.');
    SplitNone(d, '.');
  }

  lemma DottedStartsWithDigit(s: string)
    requires IsDottedDigits(s)
    ensures s != "" && s[0] != 'f'
  {
    DottedDigitsAre(s);
    var a, b, c, d :| s == Dotted(a, b, c, d) && IsNumber(a) && IsNumber(b) && IsNumber(c) && IsNumber(d);
    assert s[0] == a[0];
  }

  /** Mapped is exactly "::" or "::ffff:" followed by four runs of digits; every other text is judged as IPv6. */
  lemma MappedExactly(addr: string, quad: string)
    ensures MappedIPv4(addr) == Some(quad) <==>
            IsDottedDigits(quad) && (addr == "::" + quad || addr == "::ffff:" + quad)
  {
    if MappedIPv4(addr) == Some(quad) {
      if "::ffff:" <= addr { assert addr == addr[..7] + addr[7..]; } else { assert addr == addr[..2] + addr[2..]; }
    }
    if IsDottedDigits(quad) {
      DottedStartsWithDigit(quad);
      if addr == "::ffff:" + quad {
        assert addr[7..] == quad;
      } else if addr == "::" + quad {
        assert addr[2] == quad[0] && addr[2..] == quad;
      }
    }
  }

  /** An octet over 255 refuses the address, whatever the others are. */
  lemma LargeOctetsAreRefused(a: nat, b: nat, c: nat, d: nat)
    requires a > 255 || b > 255 || c > 255 || d > 255
    ensures !IsPublicAddress(Quad(a, b, c, d), V4)
    ensures !IsPublicAddress("::ffff:" + Quad(a, b, c, d), V6) && !IsPublicAddress("::" + Quad(a, b, c, d), V6)
  {
    QuadSplits(a, b, c, d);
    ValueOfDigits(a); ValueOfDigits(b); ValueOfDigits(c); ValueOfDigits(d);
    hide Split, Digits, Value, Quad, PublicOctets;
    var parts := Split(Quad(a, b, c, d), '.');
    assert !IsOctet(parts[0]) || !IsOctet(parts[1]) || !IsOctet(parts[2]) || !IsOctet(parts[3]);
    MappedTextGetsInnerVerdict(a, b, c, d);
  }

  /** Anything but four parts is refused. */
  lemma OtherCountsAreRefused(parts: seq<string>)
    requires parts != [] && |parts| != 4 && forall part <- parts :: '.' !in part
    ensures !IsPublicAddress(JoinWith(parts, '.'), V4)
  {
    SplitUndoesJoin(parts, '.');
  }
}
