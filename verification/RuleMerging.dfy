/** `mergeByName` and `signalKey`: one rule per technology, holding what every raw rule of that name held. */
module RuleMerging {
  import opened Options
  import opened Signals
  import Decimal

  // ---------------------------------------------------------------- signalKey

  function ChannelName(c: Channel): string {
    match c
    case Html => "html"
    case AssetUrl => "assetUrl"
    case Request => "request"
    case ScriptSrc => "scriptSrc"
    case InlineScript => "inlineScript"
    case InlineStyle => "inlineStyle"
    case Global => "global"
    case Header => "header"
    case Css => "css"
    case Js => "js"
    case Meta => "meta"
    case MetaGenerator => "metaGenerator"
    case BodyClass => "bodyClass"
    case FormAction => "formAction"
    case Iframe => "iframe"
    case Cookie => "cookie"
    case Manifest => "manifest"
    case ServiceWorker => "serviceWorker"
    case Robots => "robots"
    case Dns => "dns"
    case Url => "url"
  }

  function SignalKey(s: Signal): string {
    ChannelName(s.channel) + "|" + OrEmpty(s.header) + "|" + Printed(s.pattern) + "|" + Decimal.Digits(s.confidence)
  }

  predicate NoBar(s: string) {
    '|' !in s
  }

  lemma {:induction false} FirstBar(a: string, x: string, b: string, y: string)
    requires NoBar(a) && NoBar(b) && a + "|" + x == b + "|" + y
    ensures a == b && x == y
  {
    if a == "" || b == "" {
      assert (a + "|" + x)[0] == (b + "|" + y)[0];
      assert a == "" && b == "";
      assert x == (a + "|" + x)[1..] == (b + "|" + y)[1..] == y;
    } else {
      assert a[0] == (a + "|" + x)[0] == (b + "|" + y)[0] == b[0];
      assert (a + "|" + x)[1..] == a[1..] + "|" + x;
      assert (b + "|" + y)[1..] == b[1..] + "|" + y;
      FirstBar(a[1..], x, b[1..], y);
      assert a == [a[0]] + a[1..] && b == [b[0]] + b[1..];
    }
  }

  lemma {:induction false} LastBar(x: string, c: string, y: string, d: string)
    requires NoBar(c) && NoBar(d) && x + "|" + c == y + "|" + d
    ensures x == y && c == d
  {
    var left, right := x + "|" + c, y + "|" + d;
    if c == "" || d == "" {
      assert left[|left| - 1] == right[|right| - 1];
      assert c == "" && d == "";
      assert x == left[..|left| - 1] == right[..|right| - 1] == y;
    } else {
      assert c[|c| - 1] == left[|left| - 1] == right[|right| - 1] == d[|d| - 1];
      assert left[..|left| - 1] == x + "|" + c[..|c| - 1];
      assert right[..|right| - 1] == y + "|" + d[..|d| - 1];
      LastBar(x, c[..|c| - 1], y, d[..|d| - 1]);
      assert c == c[..|c| - 1] + [c[|c| - 1]] && d == d[..|d| - 1] + [d[|d| - 1]];
    }
  }

  /** A key splits in one way when only its third part may hold a bar. */
  lemma KeySplitsOnce(a: string, h: string, p: string, n: string, a': string, h': string, p': string, n': string)
    requires NoBar(a) && NoBar(h) && NoBar(n) && NoBar(a') && NoBar(h') && NoBar(n')
    requires a + "|" + h + "|" + p + "|" + n == a' + "|" + h' + "|" + p' + "|" + n'
    ensures a == a' && h == h' && p == p' && n == n'
  {
    LastBar(a + "|" + h + "|" + p, n, a' + "|" + h' + "|" + p', n');
    assert a + "|" + h + "|" + p == a + "|" + (h + "|" + p);
    assert a' + "|" + h' + "|" + p' == a' + "|" + (h' + "|" + p');
    FirstBar(a, h + "|" + p, a', h' + "|" + p');
    FirstBar(h, p, h', p');
  }

  lemma ChannelNamesDistinct(c: Channel, d: Channel)
    requires ChannelName(c) == ChannelName(d)
    ensures c == d
  {
    var head := ChannelName(c);
    assert |head| == |ChannelName(d)|;
    assert forall i | 0 <= i < |head| :: head[i] == ChannelName(d)[i];
  }

  /** The rule author's side of `signalKey`: no bar in header names, and a printed form names one pattern. */
  predicate Printable(s: Signal, t: Signal) {
    NoBar(OrEmpty(s.header)) && NoBar(OrEmpty(t.header))
        && (Printed(s.pattern) == Printed(t.pattern) ==> s.pattern == t.pattern)
  }

  lemma NoBarInKeyParts(c: Channel, n: nat)
    ensures NoBar(ChannelName(c)) && NoBar(Decimal.Digits(n))
  {
    assert !Decimal.IsDigit('|');
  }

  /** Equal keys name the same channel, header, pattern and confidence. */
  lemma KeyDeterminesSignal(s: Signal, t: Signal)
    requires Printable(s, t) && SignalKey(s) == SignalKey(t)
    ensures s.channel == t.channel && OrEmpty(s.header) == OrEmpty(t.header)
    ensures s.pattern == t.pattern && s.confidence == t.confidence
  {
    NoBarInKeyParts(s.channel, s.confidence);
    NoBarInKeyParts(t.channel, t.confidence);
    assert SignalKey(s) == SignalKey(t);
    hide ChannelName, Decimal.Digits, SignalKey;
    KeySplitsOnce(ChannelName(s.channel), OrEmpty(s.header), Printed(s.pattern), Decimal.Digits(s.confidence),
                  ChannelName(t.channel), OrEmpty(t.header), Printed(t.pattern), Decimal.Digits(t.confidence));
    ChannelNamesDistinct(s.channel, t.channel);
    Decimal.DigitsInjective(s.confidence, t.confidence);
  }

  /** And the key looks at nothing else: signals that agree in these four have one key. */
  lemma KeyIgnoresTheRest(s: Signal, t: Signal)
    requires s.channel == t.channel && s.pattern == t.pattern && s.confidence == t.confidence
    requires s.header == t.header || (s.header in {None, Some("")} && t.header in {None, Some("")})
    ensures SignalKey(s) == SignalKey(t)
  {}

  lemma EqualKeysMatchAlike(s: Signal, t: Signal, c: Capture, regex: Regex)
    requires Printable(s, t) && SignalKey(s) == SignalKey(t)
    ensures Matches(s, c, regex) <==> Matches(t, c, regex)
    ensures s.confidence == t.confidence
  {
    KeyDeterminesSignal(s, t);
    assert Haystacks(s, c) == Haystacks(t, c);
  }

  // ---------------------------------------------------------------- mergeByName

  /** The insertion-ordered `Map<string, Rule>`. */
  datatype Merged = Merged(order: seq<string>, at: map<string, Rule>)

  predicate HasKey(signals: seq<Signal>, key: string) {
    exists s <- signals :: SignalKey(s) == key
  }

  /** The signals of `extra` whose key is new, appended one by one. */
  function AddSignals(signals: seq<Signal>, extra: seq<Signal>, n: nat): seq<Signal>
    requires n <= |extra|
  {
    if n == 0 then signals
    else
      var before := AddSignals(signals, extra, n - 1);
      if HasKey(before, SignalKey(extra[n - 1])) then before else before + [extra[n - 1]]
  }

  /** `[...new Set(names)]`. */
  function Distinct(names: seq<string>): (r: seq<string>)
    ensures forall x :: x in r <==> x in names
    ensures forall i, j | 0 <= i < j < |r| :: r[i] != r[j]
  {
    if names == [] then []
    else
      var before := Distinct(names[..|names| - 1]);
      assert names == names[..|names| - 1] + [names[|names| - 1]];
      if names[|names| - 1] in before then before else before + [names[|names| - 1]]
  }

  function MergeOne(m: Merged, r: Rule): Merged {
    if r.name !in m.at then
      Merged(m.order + [r.name], m.at[r.name := r.(implies := Some(OrNone(r.implies)))])
    else
      var e := m.at[r.name];
      m.(at := m.at[r.name := e.(signals := AddSignals(e.signals, r.signals, |r.signals|),
                                 implies := Some(Distinct(OrNone(e.implies) + OrNone(r.implies))))])
  }

  function MergeUpTo(rules: seq<Rule>, n: nat): Merged
    requires n <= |rules|
  {
    if n == 0 then Merged([], map[]) else MergeOne(MergeUpTo(rules, n - 1), rules[n - 1])
  }

  ghost predicate WellOrdered(m: Merged) {
    (forall i | 0 <= i < |m.order| :: m.order[i] in m.at && m.at[m.order[i]].name == m.order[i]) &&
    (forall i, j | 0 <= i < j < |m.order| :: m.order[i] != m.order[j]) &&
    (forall n <- m.at :: n in m.order)
  }

  lemma MergeOneIsOrdered(m: Merged, r: Rule)
    requires WellOrdered(m)
    ensures WellOrdered(MergeOne(m, r))
  {
    hide SignalKey, AddSignals, Distinct;
    var m' := MergeOne(m, r);
    assert forall i | 0 <= i < |m.order| :: m'.order[i] == m.order[i];
    assert r.name in m.at || r.name == m'.order[|m.order|];
  }

  lemma {:induction false} MergeIsOrdered(rules: seq<Rule>, n: nat)
    requires n <= |rules|
    ensures WellOrdered(MergeUpTo(rules, n))
  {
    hide MergeOne;
    if n > 0 {
      hide WellOrdered;
      MergeIsOrdered(rules, n - 1);
      MergeOneIsOrdered(MergeUpTo(rules, n - 1), rules[n - 1]);
    }
  }

  function Listed(m: Merged): seq<Rule>
    requires forall n <- m.order :: n in m.at
  {
    seq(|m.order|, i requires 0 <= i < |m.order| => m.at[m.order[i]])
  }

  function MergeByName(rules: seq<Rule>): seq<Rule> {
    MergeIsOrdered(rules, |rules|);
    Listed(MergeUpTo(rules, |rules|))
  }

  /** `mergeByName` as it runs, on its map. */
  method Merge(rules: seq<Rule>) returns (merged: seq<Rule>)
    ensures merged == MergeByName(rules)
  {
    var m := Merged([], map[]);
    for i := 0 to |rules|
      invariant m == MergeUpTo(rules, i)
    {
      var rule := rules[i];
      if rule.name !in m.at {
        m := Merged(m.order + [rule.name], m.at[rule.name := rule.(implies := Some(OrNone(rule.implies)))]);
      } else {
        var existing := m.at[rule.name];
        var signals := PushUnseen(existing.signals, rule.signals);
        var implies := Distinct(OrNone(existing.implies) + OrNone(rule.implies));
        m := m.(at := m.at[rule.name := existing.(signals := signals, implies := Some(implies))]);
      }
    }
    MergeIsOrdered(rules, |rules|);
    merged := Listed(m);
  }

  lemma PushedKeys(signals: seq<Signal>, last: Signal)
    ensures forall key :: HasKey(signals + [last], key) <==> HasKey(signals, key) || key == SignalKey(last)
  {
    hide SignalKey;
    forall key ensures HasKey(signals + [last], key) <==> HasKey(signals, key) || key == SignalKey(last) {
      assert last in signals + [last];
      if HasKey(signals, key) {
        var s :| s in signals && SignalKey(s) == key;
        assert s in signals + [last];
      }
    }
  }

  /** `part` stands in `whole` in this order. */
  predicate Subsequence(part: seq<Signal>, whole: seq<Signal>)
    decreases |whole|
  {
    part == [] ||
    (whole != [] && (if part[0] == whole[0] then Subsequence(part[1..], whole[1..]) else Subsequence(part, whole[1..])))
  }

  lemma {:induction false} SubsequenceGrows(part: seq<Signal>, whole: seq<Signal>, last: Signal)
    requires Subsequence(part, whole)
    ensures Subsequence(part + [last], whole + [last]) && Subsequence(part, whole + [last])
    decreases |whole|
  {
    if whole == [] {
      assert part == [] && ([] + [last])[1..] == [];
    } else {
      assert (whole + [last])[1..] == whole[1..] + [last];
      if part == [] {
        SubsequenceGrows([], whole[1..], last);
        assert [] + [last] == [last] && [last][1..] == [];
      } else {
        assert (part + [last])[1..] == part[1..] + [last];
        if part[0] == whole[0] {
          SubsequenceGrows(part[1..], whole[1..], last);
        } else {
          SubsequenceGrows(part, whole[1..], last);
        }
      }
    }
  }

  lemma {:induction false} AddedInOrder(signals: seq<Signal>, extra: seq<Signal>, n: nat)
    requires n <= |extra|
    ensures signals <= AddSignals(signals, extra, n)
    ensures Subsequence(AddSignals(signals, extra, n)[|signals|..], extra[..n])
  {
    hide SignalKey, HasKey;
    if n > 0 {
      AddedInOrder(signals, extra, n - 1);
      var before := AddSignals(signals, extra, n - 1);
      var last := extra[n - 1];
      SubsequenceGrows(before[|signals|..], extra[..n - 1], last);
      assert extra[..n] == extra[..n - 1] + [last];
      assert (before + [last])[|signals|..] == before[|signals|..] + [last];
    }
  }

  lemma {:induction false} AddedKeysDiffer(signals: seq<Signal>, extra: seq<Signal>, n: nat)
    requires n <= |extra|
    ensures var r := AddSignals(signals, extra, n);
            forall i, j | 0 <= j < i < |r| && |signals| <= i :: SignalKey(r[j]) != SignalKey(r[i])
  {
    hide SignalKey;
    if n > 0 {
      AddedKeysDiffer(signals, extra, n - 1);
      AddedKeepOld(signals, extra, n - 1);
      var before := AddSignals(signals, extra, n - 1);
      if !HasKey(before, SignalKey(extra[n - 1])) {
        assert forall j | 0 <= j < |before| :: before[j] in before;
      }
    }
  }

  /** The inner loop: `existing.signals` grows by the signals whose key is not in `seen`. */
  method PushUnseen(existing: seq<Signal>, extra: seq<Signal>) returns (signals: seq<Signal>)
    ensures signals == AddSignals(existing, extra, |extra|)
    ensures existing <= signals && Subsequence(signals[|existing|..], extra)
    ensures forall i, j | 0 <= j < i < |signals| && |existing| <= i :: SignalKey(signals[j]) != SignalKey(signals[i])
    ensures forall s <- extra :: exists t <- signals :: SignalKey(t) == SignalKey(s)
  {
    hide SignalKey;
    signals := existing;
    var seen := set s <- signals :: SignalKey(s);
    for j := 0 to |extra|
      invariant signals == AddSignals(existing, extra, j)
      invariant forall k :: k in seen <==> HasKey(signals, k)
    {
      var signal := extra[j];
      if SignalKey(signal) !in seen {
        PushedKeys(signals, signal);
        signals := signals + [signal];
        seen := seen + {SignalKey(signal)};
      }
    }
    AddedKeepOld(existing, extra, |extra|);
    AddedInOrder(existing, extra, |extra|);
    assert extra[..|extra|] == extra;
    AddedKeysDiffer(existing, extra, |extra|);
    forall s | s in extra ensures exists t <- signals :: SignalKey(t) == SignalKey(s) {
      ExtraKeysKept(existing, extra, s);
    }
  }

  // ---------------------------------------------------------------- what merging keeps

  /** A property of signals that the key determines, among the signals of these rules. */
  ghost predicate KeyDecides(rules: seq<Rule>, p: Signal -> bool) {
    forall q, r, s, t :: q in rules && r in rules && s in q.signals && t in r.signals && SignalKey(s) == SignalKey(t)
                         ==> p(s) == p(t)
  }

  ghost predicate Any(signals: seq<Signal>, p: Signal -> bool) {
    exists s <- signals :: p(s)
  }

  lemma {:induction false} AddedComeFrom(signals: seq<Signal>, extra: seq<Signal>, n: nat, s: Signal)
    requires n <= |extra| && s in AddSignals(signals, extra, n)
    ensures s in signals || s in extra
  {
    hide SignalKey, HasKey;
    if n > 0 && s in AddSignals(signals, extra, n - 1) { AddedComeFrom(signals, extra, n - 1, s); }
  }

  lemma {:induction false} AddedKeepOld(signals: seq<Signal>, extra: seq<Signal>, n: nat)
    requires n <= |extra|
    ensures signals <= AddSignals(signals, extra, n)
  {
    hide SignalKey, HasKey;
    if n > 0 { AddedKeepOld(signals, extra, n - 1); }
  }

  lemma {:induction false} AddedKeepNew(signals: seq<Signal>, extra: seq<Signal>, n: nat, i: nat, key: string)
    requires i < n <= |extra| && key == SignalKey(extra[i])
    ensures HasKey(AddSignals(signals, extra, n), key)
  {
    hide SignalKey, HasKey;
    var before := AddSignals(signals, extra, n - 1);
    var last := extra[n - 1];
    if i < n - 1 { AddedKeepNew(signals, extra, n - 1, i, key); }
    if HasKey(before, SignalKey(last)) {
      assert AddSignals(signals, extra, n) == before;
    } else {
      assert AddSignals(signals, extra, n) == before + [last];
      PushedKeys(before, last);
    }
  }

  /** Nothing is invented: a merged signal belongs to a raw rule of the name. */
  lemma {:induction false} MergedComeFrom(rules: seq<Rule>, n: nat, name: string, s: Signal)
    requires n <= |rules| && name in MergeUpTo(rules, n).at && s in MergeUpTo(rules, n).at[name].signals
    ensures exists i | 0 <= i < n :: rules[i].name == name && s in rules[i].signals
  {
    hide SignalKey, AddSignals;
    var m := MergeUpTo(rules, n - 1);
    var r := rules[n - 1];
    if name in m.at && s in m.at[name].signals {
      MergedComeFrom(rules, n - 1, name, s);
    } else if name in m.at {
      AddedComeFrom(m.at[name].signals, r.signals, |r.signals|, s);
      assert rules[n - 1].name == name && s in rules[n - 1].signals;
    } else {
      assert rules[n - 1].name == name && s in rules[n - 1].signals;
    }
  }

  /** Nothing is lost: a raw signal's key survives under its rule's name. */
  lemma {:induction false} RawKeysKept(rules: seq<Rule>, n: nat, i: nat, s: Signal)
    requires i < n <= |rules| && s in rules[i].signals
    ensures var m := MergeUpTo(rules, n); rules[i].name in m.at && HasKey(m.at[rules[i].name].signals, SignalKey(s))
  {
    hide SignalKey, AddSignals, HasKey;
    var m := MergeUpTo(rules, n - 1);
    var r := rules[n - 1];
    if i == n - 1 {
      if r.name in m.at { ExtraKeysKept(m.at[r.name].signals, r.signals, s); } else { OwnKeyKept(r.signals, s); }
    } else {
      RawKeysKept(rules, n - 1, i, s);
      if r.name == rules[i].name { OldKeysKept(m.at[r.name].signals, r.signals, SignalKey(s)); }
    }
  }

  lemma OwnKeyKept(signals: seq<Signal>, s: Signal)
    requires s in signals
    ensures HasKey(signals, SignalKey(s))
  {
    hide SignalKey;
  }

  lemma ExtraKeysKept(signals: seq<Signal>, extra: seq<Signal>, s: Signal)
    requires s in extra
    ensures HasKey(AddSignals(signals, extra, |extra|), SignalKey(s))
  {
    hide SignalKey, AddSignals, HasKey;
    var j :| 0 <= j < |extra| && extra[j] == s;
    AddedKeepNew(signals, extra, |extra|, j, SignalKey(s));
  }

  lemma OldKeysKept(signals: seq<Signal>, extra: seq<Signal>, key: string)
    requires HasKey(signals, key)
    ensures HasKey(AddSignals(signals, extra, |extra|), key)
  {
    hide SignalKey, AddSignals;
    AddedKeepOld(signals, extra, |extra|);
    var t :| t in signals && SignalKey(t) == key;
    assert t in AddSignals(signals, extra, |extra|);
  }

  /** Some raw signal of the name has the property. */
  ghost predicate AnyRaw(rules: seq<Rule>, name: string, p: Signal -> bool) {
    exists r <- rules :: r.name == name && Any(r.signals, p)
  }

  ghost predicate AnyMerged(rules: seq<Rule>, name: string, p: Signal -> bool) {
    var m := MergeUpTo(rules, |rules|);
    name in m.at && Any(m.at[name].signals, p)
  }

  lemma KeyCarries(rules: seq<Rule>, q: Rule, r: Rule, s: Signal, t: Signal, p: Signal -> bool)
    requires KeyDecides(rules, p) && q in rules && r in rules && s in q.signals && t in r.signals
    requires SignalKey(s) == SignalKey(t) && p(s)
    ensures p(t)
  {
    hide SignalKey;
  }

  lemma RawSurvives(rules: seq<Rule>, name: string, p: Signal -> bool)
    requires KeyDecides(rules, p) && AnyRaw(rules, name, p)
    ensures AnyMerged(rules, name, p)
  {
    hide SignalKey, MergeUpTo, KeyDecides;
    var r :| r in rules && r.name == name && Any(r.signals, p);
    var s :| s in r.signals && p(s);
    var i :| 0 <= i < |rules| && rules[i] == r;
    RawKeysKept(rules, |rules|, i, s);
    var t :| t in MergeUpTo(rules, |rules|).at[name].signals && SignalKey(t) == SignalKey(s);
    MergedComeFrom(rules, |rules|, name, t);
    var j :| 0 <= j < |rules| && rules[j].name == name && t in rules[j].signals;
    KeyCarries(rules, r, rules[j], s, t, p);
  }

  lemma MergedIsRaw(rules: seq<Rule>, name: string, p: Signal -> bool)
    requires AnyMerged(rules, name, p)
    ensures AnyRaw(rules, name, p)
  {
    hide SignalKey, MergeUpTo;
    var t :| t in MergeUpTo(rules, |rules|).at[name].signals && p(t);
    MergedComeFrom(rules, |rules|, name, t);
    var j :| 0 <= j < |rules| && rules[j].name == name && t in rules[j].signals;
    assert rules[j] in rules && Any(rules[j].signals, p);
  }

  /** So what the key decides holds of some merged signal iff it holds of some raw signal of the name. */
  lemma MergeKeepsAny(rules: seq<Rule>, name: string, p: Signal -> bool)
    requires KeyDecides(rules, p)
    ensures AnyRaw(rules, name, p) <==> AnyMerged(rules, name, p)
  {
    hide AnyRaw, AnyMerged, KeyDecides;
    if AnyRaw(rules, name, p) { RawSurvives(rules, name, p); }
    if AnyMerged(rules, name, p) { MergedIsRaw(rules, name, p); }
  }

  lemma MergeOneImplies(m: Merged, r: Rule, name: string, implied: string)
    ensures var m' := MergeOne(m, r);
            name in m'.at && implied in OrNone(m'.at[name].implies) <==>
            (name in m.at && implied in OrNone(m.at[name].implies)) || (r.name == name && implied in OrNone(r.implies))
  {
    hide SignalKey, AddSignals;
  }

  lemma {:induction false} MergeKeepsImplies(rules: seq<Rule>, n: nat, name: string, implied: string)
    requires n <= |rules|
    ensures (exists i | 0 <= i < n :: rules[i].name == name && implied in OrNone(rules[i].implies)) <==>
            name in MergeUpTo(rules, n).at && implied in OrNone(MergeUpTo(rules, n).at[name].implies)
  {
    hide SignalKey, AddSignals, Distinct;
    if n > 0 {
      MergeKeepsImplies(rules, n - 1, name, implied);
      MergeOneImplies(MergeUpTo(rules, n - 1), rules[n - 1], name, implied);
      hide MergeOne;
    }
  }

  function Names(rules: seq<Rule>): seq<string> {
    seq(|rules|, i requires 0 <= i < |rules| => rules[i].name)
  }

  /** Names come in order of first occurrence, each once. */
  lemma {:induction false} MergeKeepsNames(rules: seq<Rule>, n: nat)
    requires n <= |rules|
    ensures MergeUpTo(rules, n).order == Distinct(Names(rules)[..n])
  {
    hide SignalKey, AddSignals;
    if n > 0 {
      MergeKeepsNames(rules, n - 1);
      MergeIsOrdered(rules, n - 1);
      var m := MergeUpTo(rules, n - 1);
      assert Names(rules)[..n][..n - 1] == Names(rules)[..n - 1];
      assert rules[n - 1].name in m.order <==> rules[n - 1].name in m.at;
    }
  }

  /** A merged rule has the category of the first raw rule of its name. */
  lemma {:induction false} MergeKeepsCategory(rules: seq<Rule>, n: nat, i: nat)
    requires i < n <= |rules| && forall j | 0 <= j < i :: rules[j].name != rules[i].name
    ensures rules[i].name in MergeUpTo(rules, n).at
    ensures MergeUpTo(rules, n).at[rules[i].name].category == rules[i].category
  {
    hide SignalKey, AddSignals, Distinct;
    if i < n - 1 {
      MergeKeepsCategory(rules, n - 1, i);
    } else {
      NotYetMerged(rules, n - 1, rules[i].name);
    }
  }

  lemma {:induction false} NotYetMerged(rules: seq<Rule>, n: nat, name: string)
    requires n <= |rules| && forall j | 0 <= j < n :: rules[j].name != name
    ensures name !in MergeUpTo(rules, n).at
  {
    hide SignalKey, AddSignals, Distinct;
    if n > 0 { NotYetMerged(rules, n - 1, name); }
  }

  /** A rule merged from several says each of its implications once. */
  lemma {:induction false} MergedImplyOnce(rules: seq<Rule>, n: nat, i: nat, j: nat)
    requires i < j < n <= |rules| && rules[i].name == rules[j].name
    ensures var m := MergeUpTo(rules, n);
            rules[j].name in m.at &&
            forall k, l | 0 <= k < l < |OrNone(m.at[rules[j].name].implies)| ::
              OrNone(m.at[rules[j].name].implies)[k] != OrNone(m.at[rules[j].name].implies)[l]
  {
    hide SignalKey, AddSignals, Distinct;
    if j < n - 1 {
      MergedImplyOnce(rules, n - 1, i, j);
    } else {
      AlreadyMerged(rules, n - 1, i);
    }
  }

  lemma {:induction false} AlreadyMerged(rules: seq<Rule>, n: nat, i: nat)
    requires i < n <= |rules|
    ensures rules[i].name in MergeUpTo(rules, n).at
  {
    hide SignalKey, AddSignals, Distinct;
    if i < n - 1 { AlreadyMerged(rules, n - 1, i); }
  }

  ghost predicate UniqueNames(rules: seq<Rule>) {
    forall i, j | 0 <= i < j < |rules| :: rules[i].name != rules[j].name
  }

  lemma ListedRules(rules: seq<Rule>)
    ensures var m := MergeUpTo(rules, |rules|);
            && UniqueNames(MergeByName(rules)) && Names(MergeByName(rules)) == m.order
            && (forall name <- m.at :: m.at[name] in MergeByName(rules) && m.at[name].name == name)
            && (forall r <- MergeByName(rules) :: r.name in m.at && r == m.at[r.name])
  {
    hide SignalKey, MergeUpTo;
    var m := MergeUpTo(rules, |rules|);
    MergeIsOrdered(rules, |rules|);
    forall name | name in m.at ensures m.at[name] in MergeByName(rules) && m.at[name].name == name {
      var i :| 0 <= i < |m.order| && m.order[i] == name;
      assert MergeByName(rules)[i] == m.at[name];
    }
  }

  ghost predicate AllPrintable(rules: seq<Rule>) {
    forall q, r, s, t :: q in rules && r in rules && s in q.signals && t in r.signals ==> Printable(s, t)
  }

  lemma SupportIsDecided(rules: seq<Rule>, c: Capture, regex: Regex, confidence: nat, p: Signal -> bool)
    requires AllPrintable(rules) && forall s :: p(s) <==> Matches(s, c, regex) && s.confidence == confidence
    ensures KeyDecides(rules, p)
  {
    hide SignalKey, Matches, Printable;
    forall q, r, s, t | q in rules && r in rules && s in q.signals && t in r.signals && SignalKey(s) == SignalKey(t)
      ensures p(s) == p(t)
    {
      EqualKeysMatchAlike(s, t, c, regex);
    }
  }

  predicate SomeSupports(rules: seq<Rule>, c: Capture, regex: Regex, name: string, confidence: nat) {
    exists r <- rules :: r.name == name && Supports(r, c, regex, confidence)
  }

  predicate SomeImplies(rules: seq<Rule>, name: string, implied: string) {
    exists r <- rules :: r.name == name && implied in OrNone(r.implies)
  }

  /** A merged rule has a matching signal of a confidence exactly when some raw rule of its name has. */
  lemma MergeKeepsSupport(rules: seq<Rule>, c: Capture, regex: Regex, name: string, confidence: nat)
    requires AllPrintable(rules)
    ensures SomeSupports(rules, c, regex, name, confidence) <==>
              SomeSupports(MergeByName(rules), c, regex, name, confidence)
  {
    hide Matches, MergeUpTo, MergeByName, AllPrintable;
    var p := (s: Signal) => Matches(s, c, regex) && s.confidence == confidence;
    assert forall r: Rule :: Any(r.signals, p) <==> Supports(r, c, regex, confidence);
    SupportIsDecided(rules, c, regex, confidence, p);
    hide KeyDecides, Any, Supports;
    MergeKeepsAny(rules, name, p);
    ListedRules(rules);
  }

  /**
    Merging loses nothing: names become unique in order of first occurrence; for every capture, a
    merged rule has a matching signal of a confidence exactly when some raw rule of its name has;
    and it implies exactly what they imply.
  */
  lemma MergePreservesMeaning(rules: seq<Rule>, c: Capture, regex: Regex, name: string, confidence: nat,
      implied: string)
    requires AllPrintable(rules)
    ensures UniqueNames(MergeByName(rules)) && Names(MergeByName(rules)) == Distinct(Names(rules))
    ensures SomeSupports(rules, c, regex, name, confidence) <==>
              SomeSupports(MergeByName(rules), c, regex, name, confidence)
    ensures SomeImplies(rules, name, implied) <==> SomeImplies(MergeByName(rules), name, implied)
  {
    hide MergeUpTo, MergeByName, SomeSupports, AllPrintable, Distinct;
    ListedRules(rules);
    MergeKeepsNames(rules, |rules|);
    assert Names(rules)[..|rules|] == Names(rules);
    MergeKeepsImplies(rules, |rules|, name, implied);
    MergeKeepsSupport(rules, c, regex, name, confidence);
  }

  predicate FiresAt(rules: seq<Rule>, c: Capture, regex: Regex, name: string, confidence: nat) {
    exists r <- rules :: r.name == name && RunRule(r, c, regex).Some?
        && RunRule(r, c, regex).value.confidence == confidence
  }

  lemma BestSupport(r: Rule, c: Capture, regex: Regex, confidence: nat)
    requires Supports(r, c, regex, confidence)
    ensures RunRule(r, c, regex).Some? && confidence <= RunRule(r, c, regex).value.confidence
  {
    RunRuleMeans(r, c, regex);
  }

  /** A name fires after merging iff one of its raw rules does, and then at the best of their confidences. */
  lemma MergedFiresAtTheBest(rules: seq<Rule>, c: Capture, regex: Regex, name: string, confidence: nat)
    requires AllPrintable(rules)
    ensures FiresAt(MergeByName(rules), c, regex, name, confidence) <==>
            FiresAt(rules, c, regex, name, confidence)
            && forall k: nat :: FiresAt(rules, c, regex, name, k) ==> k <= confidence
  {
    var merged := MergeByName(rules);
    if FiresAt(merged, c, regex, name, confidence) {
      var r :| r in merged && r.name == name && RunRule(r, c, regex).Some?
          && RunRule(r, c, regex).value.confidence == confidence;
      MergedIsBest(rules, c, regex, r);
    }
    if FiresAt(rules, c, regex, name, confidence)
       && forall k: nat :: FiresAt(rules, c, regex, name, k) ==> k <= confidence
    {
      var q :| q in rules && q.name == name && RunRule(q, c, regex).Some?
          && RunRule(q, c, regex).value.confidence == confidence;
      RunRuleMeans(q, c, regex);
      MergeKeepsSupport(rules, c, regex, name, confidence);
      var r :| r in merged && r.name == name && Supports(r, c, regex, confidence);
      BestSupport(r, c, regex, confidence);
      MergedIsBest(rules, c, regex, r);
    }
  }

  lemma MergedIsBest(rules: seq<Rule>, c: Capture, regex: Regex, r: Rule)
    requires AllPrintable(rules) && r in MergeByName(rules) && RunRule(r, c, regex).Some?
    ensures FiresAt(rules, c, regex, r.name, RunRule(r, c, regex).value.confidence)
    ensures forall k: nat :: FiresAt(rules, c, regex, r.name, k) ==> k <= RunRule(r, c, regex).value.confidence
  {
    var best := RunRule(r, c, regex).value.confidence;
    ListedRules(rules);
    forall k: nat | FiresAt(rules, c, regex, r.name, k) ensures k <= best {
      var q :| q in rules && q.name == r.name && RunRule(q, c, regex).Some?
          && RunRule(q, c, regex).value.confidence == k;
      RunRuleMeans(q, c, regex);
      MergeKeepsSupport(rules, c, regex, r.name, k);
      var r' :| r' in MergeByName(rules) && r'.name == r.name && Supports(r', c, regex, k);
      assert r' == r;
      BestSupport(r, c, regex, k);
    }
    RunRuleMeans(r, c, regex);
    MergeKeepsSupport(rules, c, regex, r.name, best);
    var q :| q in rules && q.name == r.name && Supports(q, c, regex, best);
    BestSupport(q, c, regex, best);
    assert FiresAt(rules, c, regex, r.name, RunRule(q, c, regex).value.confidence);
  }

  lemma {:induction false} UniqueIsCopied(rules: seq<Rule>, n: nat, i: nat)
    requires i < n <= |rules| && UniqueNames(rules)
    ensures rules[i].name in MergeUpTo(rules, n).at
    ensures MergeUpTo(rules, n).at[rules[i].name] == rules[i].(implies := Some(OrNone(rules[i].implies)))
  {
    hide SignalKey, AddSignals;
    if i < n - 1 {
      UniqueIsCopied(rules, n - 1, i);
    } else {
      MergeKeepsNames(rules, n - 1);
      MergeIsOrdered(rules, n - 1);
      assert rules[i].name !in Names(rules)[..n - 1];
    }
  }

  lemma {:induction false} DistinctOfUnique(names: seq<string>)
    requires forall i, j | 0 <= i < j < |names| :: names[i] != names[j]
    ensures Distinct(names) == names
  {
    if names != [] {
      DistinctOfUnique(names[..|names| - 1]);
      assert names == names[..|names| - 1] + [names[|names| - 1]];
    }
  }

  lemma {:induction false} MergedHaveImplies(rules: seq<Rule>, n: nat)
    requires n <= |rules|
    ensures forall name <- MergeUpTo(rules, n).at :: MergeUpTo(rules, n).at[name].implies.Some?
  {
    if n > 0 { MergedHaveImplies(rules, n - 1); }
  }

  lemma MergeOfUnique(rules: seq<Rule>)
    requires UniqueNames(rules) && forall r <- rules :: r.implies.Some?
    ensures MergeByName(rules) == rules
  {
    var m := MergeUpTo(rules, |rules|);
    ListedRules(rules);
    MergeKeepsNames(rules, |rules|);
    assert Names(rules)[..|rules|] == Names(rules);
    DistinctOfUnique(Names(rules));
    assert m.order == Names(rules) == Names(MergeByName(rules));
    forall i | 0 <= i < |rules| ensures MergeByName(rules)[i] == rules[i] {
      UniqueIsCopied(rules, |rules|, i);
      assert MergeByName(rules)[i].name == Names(rules)[i];
    }
  }

  lemma MergeIsIdempotent(rules: seq<Rule>)
    ensures MergeByName(MergeByName(rules)) == MergeByName(rules)
  {
    ListedRules(rules);
    MergedHaveImplies(rules, |rules|);
    MergeOfUnique(MergeByName(rules));
  }
}
