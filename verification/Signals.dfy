/** Signals and rules: what `testSignal` and `runRule` conclude from one scan's artefacts. */
module Signals {
  import opened Options

  datatype Channel =
    | Html | AssetUrl | Request | ScriptSrc | InlineScript | InlineStyle | Global | Header | Css | Js | Meta
    | MetaGenerator | BodyClass | FormAction | Iframe | Cookie | Manifest | ServiceWorker | Robots | Dns | Url

  /** A substring, or a regular expression named by its printed form. */
  datatype Match = Text(text: string) | Pattern(printed: string)

  datatype Signal = Signal(
    channel: Channel,
    pattern: Match,
    header: Option<string>,
    confidence: nat,
    evidence: string,
    versionFrom: bool)

  datatype Rule = Rule(name: string, category: string, signals: seq<Signal>, implies: Option<seq<string>>)

  /** The captured artefacts together with what was derived from the document. */
  datatype Capture = Capture(
    html: string, css: string, js: string, finalUrl: string,
    headers: map<string, string>,
    assetUrls: seq<string>, requestUrls: seq<string>, globals: seq<string>, cookies: seq<string>,
    manifest: Option<string>, serviceWorkers: Option<seq<string>>, robots: Option<string>, dns: Option<seq<string>>,
    generator: string, meta: string, bodyClass: string, inlineScript: string, inlineStyle: string,
    scriptSrcs: seq<string>, formActions: seq<string>, iframeSrcs: seq<string>)

  /** Regular-expression search: the first capture group of a match, when there is a match. */
  type Regex = (string, string) -> Option<Option<string>>

  datatype Hit = Hit(confidence: nat, evidence: string, version: Option<string>)

  datatype Detection = Detection(
    name: string, category: string, version: Option<string>, confidence: nat, evidence: seq<string>)

  function Printed(m: Match): string {
    match m
    case Text(t) => t
    case Pattern(p) => p
  }

  predicate OccursAt(haystack: string, needle: string, i: nat) {
    i + |needle| <= |haystack| && haystack[i..i + |needle|] == needle
  }

  predicate Contains(haystack: string, needle: string) {
    exists i | 0 <= i <= |haystack| :: OccursAt(haystack, needle, i)
  }

  function OrEmpty(s: Option<string>): string {
    match s
    case Some(text) => text
    case None => ""
  }

  function OrNone(s: Option<seq<string>>): seq<string> {
    match s
    case Some(items) => items
    case None => []
  }

  /** `signal.header ? input.headers[signal.header] : undefined`, as zero or one haystack. */
  function HeaderText(header: Option<string>, c: Capture): seq<string> {
    var name := OrEmpty(header);
    if name != "" && name in c.headers then [c.headers[name]] else []
  }

  /** The texts a signal searches; `global` and textual `cookie` signals search none. */
  function Haystacks(s: Signal, c: Capture): seq<string> {
    match s.channel
    case Html => [c.html]
    case Css => [c.css]
    case Js => [c.js]
    case MetaGenerator => [c.generator]
    case Meta => [c.meta]
    case BodyClass => [c.bodyClass]
    case InlineScript => [c.inlineScript]
    case InlineStyle => [c.inlineStyle]
    case ScriptSrc => c.scriptSrcs
    case FormAction => c.formActions
    case Iframe => c.iframeSrcs
    case AssetUrl => c.assetUrls
    case Request => c.requestUrls
    case Url => [c.finalUrl]
    case Manifest => [OrEmpty(c.manifest)]
    case ServiceWorker => OrNone(c.serviceWorkers)
    case Robots => [OrEmpty(c.robots)]
    case Dns => OrNone(c.dns)
    case Global => []
    case Cookie => if s.pattern.Text? then [] else c.cookies
    case Header => HeaderText(s.header, c)
  }

  predicate NamedExactly(s: Signal, c: Capture) {
    (s.channel == Global && Printed(s.pattern) in c.globals) ||
    (s.channel == Cookie && s.pattern.Text? && s.pattern.text in c.cookies)
  }

  predicate Finds(m: Match, haystack: string, regex: Regex) {
    haystack != "" &&
    match m
    case Text(t) => Contains(haystack, t)
    case Pattern(p) => regex(p, haystack).Some?
  }

  /**
    What it means for a signal to match: an exact name, or some non-empty haystack that holds the
    pattern.
  */
  predicate Matches(s: Signal, c: Capture, regex: Regex) {
    NamedExactly(s, c) || exists h <- Haystacks(s, c) :: Finds(s.pattern, h, regex)
  }

  function HitIn(s: Signal, haystack: string, regex: Regex): Hit
    requires Finds(s.pattern, haystack, regex)
  {
    Hit(s.confidence, s.evidence,
        if s.pattern.Pattern? && s.versionFrom then regex(s.pattern.printed, haystack).value else None)
  }

  /** The hit in the first haystack that has one. */
  function FirstHit(s: Signal, haystacks: seq<string>, regex: Regex): (hit: Option<Hit>)
    ensures hit.Some? <==> exists h <- haystacks :: Finds(s.pattern, h, regex)
    ensures hit.Some? ==> hit.value.confidence == s.confidence && hit.value.evidence == s.evidence
  {
    if haystacks == [] then None
    else if Finds(s.pattern, haystacks[0], regex) then Some(HitIn(s, haystacks[0], regex))
    else
      assert haystacks == [haystacks[0]] + haystacks[1..];
      FirstHit(s, haystacks[1..], regex)
  }

  function TestSignal(s: Signal, c: Capture, regex: Regex): (hit: Option<Hit>)
    ensures hit.Some? <==> Matches(s, c, regex)
    ensures hit.Some? ==> hit.value.confidence == s.confidence && hit.value.evidence == s.evidence
  {
    if NamedExactly(s, c) then Some(Hit(s.confidence, s.evidence, None))
    else FirstHit(s, Haystacks(s, c), regex)
  }

  /**
    `testSignal` as it runs: name channels answer at once, the others collect haystacks and scan them in
    order.
  */
  method SearchSignal(s: Signal, c: Capture, regex: Regex) returns (hit: Option<Hit>)
    ensures hit == TestSignal(s, c, regex)
  {
    if s.channel == Global {
      return if Printed(s.pattern) in c.globals then Some(Hit(s.confidence, s.evidence, None)) else None;
    }
    if s.channel == Cookie && s.pattern.Text? {
      return if s.pattern.text in c.cookies then Some(Hit(s.confidence, s.evidence, None)) else None;
    }
    var haystacks := Haystacks(s, c);
    hit := Scan(s, haystacks, regex);
  }

  // ---------------------------------------------------------------- what a match is, channel by channel

  function Around(before: string, middle: string, after: string): string {
    before + middle + after
  }

  /** A non-empty text that has the substring in its middle, or in which the expression matches. */
  lemma FindsMeans(m: Match, text: string, regex: Regex)
    ensures m.Text? ==> (Finds(m, text, regex) <==>
                         text != "" && exists before, after :: text == Around(before, m.text, after))
    ensures m.Pattern? ==> (Finds(m, text, regex) <==> text != "" && regex(m.printed, text).Some?)
  {
    if m.Text? && Finds(m, text, regex) {
      var i :| 0 <= i <= |text| && OccursAt(text, m.text, i);
      assert text == Around(text[..i], m.text, text[i + |m.text|..]);
    }
    if m.Text? {
      if before, after :| text == Around(before, m.text, after) {
        assert OccursAt(text, m.text, |before|);
      }
    }
  }

  predicate FindsAny(m: Match, texts: seq<string>, regex: Regex) {
    exists t <- texts :: Finds(m, t, regex)
  }

  /** Which captured artefact decides each channel. */
  lemma ChannelSearches(s: Signal, c: Capture, regex: Regex)
    ensures Matches(s, c, regex) <==>
            match s.channel
            case Html => Finds(s.pattern, c.html, regex)
            case Css => Finds(s.pattern, c.css, regex)
            case Js => Finds(s.pattern, c.js, regex)
            case MetaGenerator => Finds(s.pattern, c.generator, regex)
            case Meta => Finds(s.pattern, c.meta, regex)
            case BodyClass => Finds(s.pattern, c.bodyClass, regex)
            case InlineScript => Finds(s.pattern, c.inlineScript, regex)
            case InlineStyle => Finds(s.pattern, c.inlineStyle, regex)
            case ScriptSrc => FindsAny(s.pattern, c.scriptSrcs, regex)
            case FormAction => FindsAny(s.pattern, c.formActions, regex)
            case Iframe => FindsAny(s.pattern, c.iframeSrcs, regex)
            case AssetUrl => FindsAny(s.pattern, c.assetUrls, regex)
            case Request => FindsAny(s.pattern, c.requestUrls, regex)
            case Url => Finds(s.pattern, c.finalUrl, regex)
            case Manifest => c.manifest.Some? && Finds(s.pattern, c.manifest.value, regex)
            case ServiceWorker => c.serviceWorkers.Some? && FindsAny(s.pattern, c.serviceWorkers.value, regex)
            case Robots => c.robots.Some? && Finds(s.pattern, c.robots.value, regex)
            case Dns => c.dns.Some? && FindsAny(s.pattern, c.dns.value, regex)
            case Global => (match s.pattern case Text(t) => t case Pattern(p) => p) in c.globals
            case Cookie => (match s.pattern
                            case Text(t) => t in c.cookies
                            case Pattern(_) => FindsAny(s.pattern, c.cookies, regex))
            case Header => s.header.Some? && s.header.value != "" && s.header.value in c.headers
                           && Finds(s.pattern, c.headers[s.header.value], regex)
  {
    forall text ensures FindsAny(s.pattern, [text], regex) <==> Finds(s.pattern, text, regex) {
      assert text in [text];
    }
    assert !Finds(s.pattern, "", regex) && !FindsAny(s.pattern, [], regex);
    assert Matches(s, c, regex) <==> NamedExactly(s, c) || FindsAny(s.pattern, Haystacks(s, c), regex);
    hide Finds, FindsAny, Matches;
  }

  /**
    A hit reports a version exactly from an expression that is marked for it and was searched in a text:
    what it captured in the first text that it matches.
  */
  lemma HitVersion(s: Signal, c: Capture, regex: Regex)
    requires TestSignal(s, c, regex).Some?
    ensures var version := TestSignal(s, c, regex).value.version;
            && (!s.versionFrom || s.pattern.Text? || s.channel == Global ==> version == None)
            && (s.versionFrom && s.pattern.Pattern? && s.channel != Global ==>
                  exists i | 0 <= i < |Haystacks(s, c)| ::
                    && Finds(s.pattern, Haystacks(s, c)[i], regex)
                    && version == regex(s.pattern.printed, Haystacks(s, c)[i]).value
                    && forall j | 0 <= j < i :: !Finds(s.pattern, Haystacks(s, c)[j], regex))
  {
    if !NamedExactly(s, c) { var i := FirstHitVersion(s, Haystacks(s, c), regex); }
  }

  lemma {:induction false} FirstHitVersion(s: Signal, haystacks: seq<string>, regex: Regex) returns (i: nat)
    requires FirstHit(s, haystacks, regex).Some?
    ensures i < |haystacks| && Finds(s.pattern, haystacks[i], regex)
    ensures forall j | 0 <= j < i :: !Finds(s.pattern, haystacks[j], regex)
    ensures FirstHit(s, haystacks, regex).value.version ==
            if s.versionFrom && s.pattern.Pattern? then regex(s.pattern.printed, haystacks[i]).value else None
  {
    hide Finds;
    if Finds(s.pattern, haystacks[0], regex) {
      i := 0;
    } else {
      i := FirstHitVersion(s, haystacks[1..], regex);
      i := i + 1;
    }
  }

  method Scan(s: Signal, haystacks: seq<string>, regex: Regex) returns (hit: Option<Hit>)
    ensures hit == FirstHit(s, haystacks, regex)
  {
    for i := 0 to |haystacks|
      invariant FirstHit(s, haystacks, regex) == FirstHit(s, haystacks[i..], regex)
    {
      var haystack := haystacks[i];
      assert haystacks[i..][0] == haystack && haystacks[i..][1..] == haystacks[i + 1..];
      if haystack == "" { continue; }
      if s.pattern.Text? {
        if Contains(haystack, s.pattern.text) { return Some(Hit(s.confidence, s.evidence, None)); }
        continue;
      }
      var m := regex(s.pattern.printed, haystack);
      if m.Some? { return Some(Hit(s.confidence, s.evidence, if s.versionFrom then m.value else None)); }
    }
    return None;
  }

  // ---------------------------------------------------------------- runRule

  /** The hits of a rule's signals, in signal order. */
  function Hits(signals: seq<Signal>, c: Capture, regex: Regex): seq<Hit> {
    if signals == [] then []
    else
      var hit := TestSignal(signals[0], c, regex);
      (if hit.Some? then [hit.value] else []) + Hits(signals[1..], c, regex)
  }

  /** Stable insertion: behind strictly better hits, ahead of the equal ones that came later. */
  function Insert(h: Hit, sorted: seq<Hit>): seq<Hit> {
    if sorted == [] || sorted[0].confidence <= h.confidence then [h] + sorted
    else [sorted[0]] + Insert(h, sorted[1..])
  }

  /** `hits.sort((a, b) => b.confidence - a.confidence)`. */
  function SortHits(hits: seq<Hit>): seq<Hit> {
    if hits == [] then [] else Insert(hits[0], SortHits(hits[1..]))
  }

  function AtLevel(hits: seq<Hit>, level: nat): seq<Hit> {
    if hits == [] then []
    else (if hits[0].confidence == level then [hits[0]] else []) + AtLevel(hits[1..], level)
  }

  predicate Descending(hits: seq<Hit>) {
    forall i, j | 0 <= i < j < |hits| :: hits[j].confidence <= hits[i].confidence
  }

  lemma {:induction false} InsertKeepsAll(h: Hit, sorted: seq<Hit>)
    ensures multiset(Insert(h, sorted)) == multiset(sorted) + multiset{h}
  {
    if sorted == [] || sorted[0].confidence <= h.confidence {
    } else {
      assert sorted == [sorted[0]] + sorted[1..];
      InsertKeepsAll(h, sorted[1..]);
    }
  }

  lemma InsertedAtMost(h: Hit, sorted: seq<Hit>, level: nat)
    requires h.confidence <= level && forall x <- sorted :: x.confidence <= level
    ensures forall x <- Insert(h, sorted) :: x.confidence <= level
  {
    InsertKeepsAll(h, sorted);
    forall x | x in Insert(h, sorted) ensures x.confidence <= level {
      assert x in multiset(Insert(h, sorted));
    }
  }

  lemma HeadIsHighest(head: Hit, rest: seq<Hit>)
    requires Descending(rest) && forall x <- rest :: x.confidence <= head.confidence
    ensures Descending([head] + rest)
  {}

  lemma {:induction false} InsertKeepsOrder(h: Hit, sorted: seq<Hit>)
    requires Descending(sorted)
    ensures Descending(Insert(h, sorted))
  {
    if sorted == [] || sorted[0].confidence <= h.confidence {
      HeadIsHighest(h, sorted);
    } else {
      InsertKeepsOrder(h, sorted[1..]);
      InsertedAtMost(h, sorted[1..], sorted[0].confidence);
      HeadIsHighest(sorted[0], Insert(h, sorted[1..]));
    }
  }

  lemma {:induction false} InsertIsStable(h: Hit, sorted: seq<Hit>, level: nat)
    ensures AtLevel(Insert(h, sorted), level) == AtLevel([h] + sorted, level)
  {
    assert ([h] + sorted)[1..] == sorted;
    if sorted != [] && h.confidence < sorted[0].confidence {
      InsertIsStable(h, sorted[1..], level);
      assert ([h] + sorted[1..])[1..] == sorted[1..];
      assert Insert(h, sorted)[1..] == Insert(h, sorted[1..]);
    }
  }

  /** The sort puts higher confidence first and keeps the signal order among equals. */
  lemma {:induction false} SortIsStable(hits: seq<Hit>, level: nat)
    ensures Descending(SortHits(hits))
    ensures AtLevel(SortHits(hits), level) == AtLevel(hits, level)
    ensures multiset(SortHits(hits)) == multiset(hits)
  {
    if hits != [] {
      SortIsStable(hits[1..], level);
      InsertIsStable(hits[0], SortHits(hits[1..]), level);
      InsertKeepsOrder(hits[0], SortHits(hits[1..]));
      InsertKeepsAll(hits[0], SortHits(hits[1..]));
      assert hits == [hits[0]] + hits[1..];
      assert ([hits[0]] + SortHits(hits[1..]))[1..] == SortHits(hits[1..]);
    }
  }

  /** `h.version` is neither undefined nor empty. */
  predicate Versioned(h: Hit) {
    h.version.Some? && h.version.value != ""
  }

  /** `hits.find(h => h.version)`. */
  function FirstVersioned(hits: seq<Hit>): (r: Option<Hit>)
    ensures r.Some? ==> r.value in hits && Versioned(r.value)
  {
    if hits == [] then None
    else if Versioned(hits[0]) then Some(hits[0])
    else FirstVersioned(hits[1..])
  }

  function FirstVersion(hits: seq<Hit>): Option<string> {
    match FirstVersioned(hits)
    case None => None
    case Some(h) => h.version
  }

  lemma {:induction false} InsertedVersion(h: Hit, sorted: seq<Hit>)
    requires Descending(sorted)
    ensures FirstVersioned(Insert(h, sorted)) ==
            var w := FirstVersioned(sorted);
            if Versioned(h) && (w.None? || w.value.confidence <= h.confidence) then Some(h) else w
  {
    if sorted == [] || sorted[0].confidence <= h.confidence {
      assert ([h] + sorted)[1..] == sorted;
    } else {
      InsertedVersion(h, sorted[1..]);
      assert Insert(h, sorted)[1..] == Insert(h, sorted[1..]);
    }
  }

  /** `[...new Set(hits.map(h => h.evidence))]`. */
  function Sentences(hits: seq<Hit>): (r: seq<string>)
    ensures forall e :: e in r <==> exists h <- hits :: h.evidence == e
    ensures forall i, j | 0 <= i < j < |r| :: r[i] != r[j]
    ensures hits != [] ==> r != [] && r[0] == hits[0].evidence
  {
    if hits == [] then []
    else
      var before := Sentences(hits[..|hits| - 1]);
      var last := hits[|hits| - 1];
      assert hits == hits[..|hits| - 1] + [last];
      if last.evidence in before then before else before + [last.evidence]
  }

  /** Where a sentence is first said. */
  function FirstSaid(hits: seq<Hit>, e: string): nat {
    if hits == [] || hits[0].evidence == e then 0 else 1 + FirstSaid(hits[1..], e)
  }

  lemma {:induction false} FirstSaidOn(hits: seq<Hit>, last: Hit, e: string)
    requires exists h <- hits :: h.evidence == e
    ensures FirstSaid(hits + [last], e) == FirstSaid(hits, e) < |hits|
  {
    assert hits == [hits[0]] + hits[1..];
    if hits[0].evidence != e {
      assert (hits + [last])[1..] == hits[1..] + [last];
      FirstSaidOn(hits[1..], last, e);
    }
  }

  lemma {:induction false} FirstSaidLast(hits: seq<Hit>, last: Hit)
    requires forall h <- hits :: h.evidence != last.evidence
    ensures FirstSaid(hits + [last], last.evidence) == |hits|
  {
    if hits != [] {
      assert hits == [hits[0]] + hits[1..];
      assert (hits + [last])[1..] == hits[1..] + [last];
      FirstSaidLast(hits[1..], last);
    }
  }

  /** Sentences stand in the order in which they are first said, each once. */
  lemma {:induction false} SentencesInOrder(hits: seq<Hit>)
    ensures var r := Sentences(hits);
            forall i, j | 0 <= i < j < |r| :: FirstSaid(hits, r[i]) < FirstSaid(hits, r[j])
  {
    if hits != [] {
      var before, last := hits[..|hits| - 1], hits[|hits| - 1];
      var r := Sentences(hits);
      SentencesInOrder(before);
      assert hits == before + [last];
      forall i, j | 0 <= i < j < |r| ensures FirstSaid(hits, r[i]) < FirstSaid(hits, r[j]) {
        assert r[i] in Sentences(before);
        FirstSaidOn(before, last, r[i]);
        if r[j] in Sentences(before) {
          FirstSaidOn(before, last, r[j]);
          assert r[j] == Sentences(before)[j];
        } else {
          FirstSaidLast(before, last);
        }
      }
    }
  }

  function RunRule(r: Rule, c: Capture, regex: Regex): Option<Detection> {
    var hits := SortHits(Hits(r.signals, c, regex));
    if hits == [] then None
    else Some(Detection(r.name, r.category, FirstVersion(hits), hits[0].confidence, Sentences(hits)))
  }

  /** Some matching signal of the rule has this confidence. */
  predicate Supports(r: Rule, c: Capture, regex: Regex, confidence: nat) {
    exists s <- r.signals :: Matches(s, c, regex) && s.confidence == confidence
  }

  /** The signal matches and captures a version. */
  predicate Captures(s: Signal, c: Capture, regex: Regex) {
    var hit := TestSignal(s, c, regex);
    hit.Some? && hit.value.version.Some? && hit.value.version.value != ""
  }

  /** The strongest capturing signal, the earliest of them when several are as strong. */
  predicate DecidesVersion(signals: seq<Signal>, c: Capture, regex: Regex, i: nat) {
    i < |signals| && Captures(signals[i], c, regex) &&
    forall j | 0 <= j < |signals| && Captures(signals[j], c, regex) ::
      signals[j].confidence < signals[i].confidence || (signals[j].confidence == signals[i].confidence && i <= j)
  }

  lemma FirstDecides(signals: seq<Signal>, c: Capture, regex: Regex)
    requires signals != [] && Captures(signals[0], c, regex)
    requires forall s <- signals[1..] :: Captures(s, c, regex) ==> s.confidence <= signals[0].confidence
    ensures DecidesVersion(signals, c, regex, 0)
  {
    hide Captures;
    forall j | 0 < j < |signals| && Captures(signals[j], c, regex)
      ensures signals[j].confidence <= signals[0].confidence
    {
      assert signals[j] == signals[1..][j - 1];
    }
  }

  lemma LaterDecides(signals: seq<Signal>, c: Capture, regex: Regex, k: nat)
    requires signals != [] && DecidesVersion(signals[1..], c, regex, k)
    requires Captures(signals[0], c, regex) ==> signals[0].confidence < signals[k + 1].confidence
    ensures DecidesVersion(signals, c, regex, k + 1)
  {
    hide Captures;
    forall j | 0 < j < |signals| && Captures(signals[j], c, regex)
      ensures signals[j].confidence < signals[k + 1].confidence
              || (signals[j].confidence == signals[k + 1].confidence && k + 1 <= j)
    {
      assert signals[j] == signals[1..][j - 1];
    }
  }

  lemma SortedFrom(signals: seq<Signal>, c: Capture, regex: Regex)
    requires signals != []
    ensures var hit := TestSignal(signals[0], c, regex);
            var sorted := SortHits(Hits(signals[1..], c, regex));
            SortHits(Hits(signals, c, regex)) == if hit.Some? then Insert(hit.value, sorted) else sorted
    ensures Descending(SortHits(Hits(signals[1..], c, regex)))
  {
    var hit := TestSignal(signals[0], c, regex);
    var rest := Hits(signals[1..], c, regex);
    SortIsStable(rest, 0);
    HitsFrom(signals, c, regex);
    hide TestSignal, Hits, Insert, Descending;
    if hit.Some? { assert ([hit.value] + rest)[1..] == rest; }
  }

  lemma HitsFrom(signals: seq<Signal>, c: Capture, regex: Regex)
    requires signals != []
    ensures var hit := TestSignal(signals[0], c, regex);
            var rest := Hits(signals[1..], c, regex);
            Hits(signals, c, regex) == if hit.Some? then [hit.value] + rest else rest
  {
    hide TestSignal;
    assert [] + Hits(signals[1..], c, regex) == Hits(signals[1..], c, regex);
  }

  lemma {:induction false} VersionIsDecided(signals: seq<Signal>, c: Capture, regex: Regex) returns (i: nat)
    ensures var w := FirstVersioned(SortHits(Hits(signals, c, regex)));
            if w.None? then forall s <- signals :: !Captures(s, c, regex)
            else DecidesVersion(signals, c, regex, i) && w == TestSignal(signals[i], c, regex)
  {
    i := 0;
    if signals != [] {
      var k := VersionIsDecided(signals[1..], c, regex);
      var hit := TestSignal(signals[0], c, regex);
      var sorted := SortHits(Hits(signals[1..], c, regex));
      var w := FirstVersioned(sorted);
      assert signals == [signals[0]] + signals[1..];
      SortedFrom(signals, c, regex);
      if hit.Some? { InsertedVersion(hit.value, sorted); }
      hide TestSignal, FirstVersioned, SortHits, Hits, Insert, DecidesVersion;
      if Captures(signals[0], c, regex) && (w.None? || w.value.confidence <= signals[0].confidence) {
        if w.Some? { DecidedIsStrongest(signals[1..], c, regex, k); }
        FirstDecides(signals, c, regex);
      } else if w.Some? {
        i := k + 1;
        LaterDecides(signals, c, regex, k);
      }
    }
  }

  lemma DecidedIsStrongest(signals: seq<Signal>, c: Capture, regex: Regex, k: nat)
    requires DecidesVersion(signals, c, regex, k)
    ensures forall s <- signals :: Captures(s, c, regex) ==> s.confidence <= signals[k].confidence
  {
    hide Captures;
  }

  lemma {:induction false} HitsAreMatches(signals: seq<Signal>, c: Capture, regex: Regex, h: Hit)
    ensures h in Hits(signals, c, regex) ==>
              exists s <- signals :: Matches(s, c, regex) && h.confidence == s.confidence && h.evidence == s.evidence
  {
    if signals != [] {
      assert signals == [signals[0]] + signals[1..];
      HitsAreMatches(signals[1..], c, regex, h);
    }
  }

  lemma {:induction false} MatchesAreHits(signals: seq<Signal>, c: Capture, regex: Regex, s: Signal)
    requires s in signals && Matches(s, c, regex)
    ensures exists h <- Hits(signals, c, regex) :: h.confidence == s.confidence && h.evidence == s.evidence
  {
    assert signals == [signals[0]] + signals[1..];
    if s == signals[0] {
      assert TestSignal(s, c, regex).value in Hits(signals, c, regex);
    } else {
      MatchesAreHits(signals[1..], c, regex, s);
    }
  }

  /**
    A rule fires when some signal matches, with the confidence of its strongest matching signal, the
    evidence of all matching signals and no other, and the version of the strongest one that captured any.
  */
  lemma RunRuleMeans(r: Rule, c: Capture, regex: Regex)
    ensures RunRule(r, c, regex).Some? <==> exists s <- r.signals :: Matches(s, c, regex)
    ensures RunRule(r, c, regex).Some? ==>
              var d := RunRule(r, c, regex).value;
              && d.name == r.name && d.category == r.category
              && Supports(r, c, regex, d.confidence)
              && (forall s <- r.signals :: Matches(s, c, regex) ==>
                  s.confidence <= d.confidence && s.evidence in d.evidence)
              && (forall e <- d.evidence :: exists s <- r.signals :: Matches(s, c, regex) && s.evidence == e)
              && (forall i, j | 0 <= i < j < |d.evidence| :: d.evidence[i] != d.evidence[j])
              && (exists s <- r.signals ::
                    Matches(s, c, regex) && s.confidence == d.confidence && s.evidence == d.evidence[0])
              && (d.version.None? ==> forall s <- r.signals :: !Captures(s, c, regex))
              && (d.version.Some? ==> d.version.value != "")
              && (d.version.Some? ==> exists i: nat :: DecidesVersion(r.signals, c, regex, i)
                                                       && d.version == TestSignal(r.signals[i], c, regex).value.version)
  {
    hide TestSignal, Matches, Captures, SortHits, Hits, DecidesVersion, FirstVersioned;
    var hits := Hits(r.signals, c, regex);
    SortIsStable(hits, 0);
    var i := VersionIsDecided(r.signals, c, regex);
    var sorted := SortHits(hits);
    assert forall h :: h in sorted <==> h in multiset(sorted);
    assert forall h :: h in hits <==> h in multiset(hits);
    forall h | h in sorted
      ensures exists s <- r.signals :: Matches(s, c, regex) && h.confidence == s.confidence && h.evidence == s.evidence
    {
      HitsAreMatches(r.signals, c, regex, h);
    }
    forall s | s in r.signals && Matches(s, c, regex)
      ensures sorted != [] && s.confidence <= sorted[0].confidence && s.evidence in Sentences(sorted)
    {
      MatchesAreHits(r.signals, c, regex, s);
      var h :| h in hits && h.confidence == s.confidence && h.evidence == s.evidence;
      assert h in sorted;
    }
    if sorted != [] { assert sorted[0] in sorted; }
  }
}
