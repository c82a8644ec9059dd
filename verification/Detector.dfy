/**
  `detect`: direct detections, two in-place implication passes over an insertion-ordered map,
  and the final sort.
*/
module Detector {
  import opened Options
  import opened Signals

  /** The `Map<string, Detection>`: values by name, names in insertion order. */
  datatype Found = Found(order: seq<string>, at: map<string, Detection>)

  const PASSES: nat := 2
  const INFERRED: nat := 70
  const IMPLIED_BY := "Implied by"

  function ImpliedBy(name: string): string {
    IMPLIED_BY + " " + name
  }

  predicate IsImplication(sentence: string) {
    IMPLIED_BY <= sentence
  }

  function Put(f: Found, d: Detection): Found {
    Found(if d.name in f.at then f.order else f.order + [d.name], f.at[d.name := d])
  }

  /** The detections whose own signals match, after the first `n` rules. */
  function Direct(rules: seq<Rule>, c: Capture, regex: Regex, n: nat): Found
    requires n <= |rules|
  {
    if n == 0 then Found([], map[])
    else
      var before := Direct(rules, c, regex, n - 1);
      match RunRule(rules[n - 1], c, regex)
      case None => before
      case Some(d) => Put(before, d)
  }

  function CategoryOf(rules: seq<Rule>, name: string): string {
    if rules == [] then "other"
    else if rules[0].name == name then rules[0].category
    else CategoryOf(rules[1..], name)
  }

  function Inferred(rules: seq<Rule>, source: string, name: string): Detection {
    Detection(name, CategoryOf(rules, name), None, INFERRED, [ImpliedBy(source)])
  }

  /** One turn of the innermost loop: note the implication on an existing entry, or create the entry. */
  function Imply(f: Found, rules: seq<Rule>, source: string, name: string): Found {
    if name in f.at then
      var e := f.at[name];
      if exists x <- e.evidence :: IsImplication(x) then f
      else f.(at := f.at[name := e.(evidence := e.evidence + [ImpliedBy(source)])])
    else
      Found(f.order + [name], f.at[name := Inferred(rules, source, name)])
  }

  function ImplyNames(f: Found, rules: seq<Rule>, source: string, names: seq<string>, n: nat): Found
    requires n <= |names|
  {
    if n == 0 then f else Imply(ImplyNames(f, rules, source, names, n - 1), rules, source, names[n - 1])
  }

  /** What one rule contributes to a pass. */
  function ImplyRule(f: Found, rules: seq<Rule>, r: Rule): Found {
    if r.implies.None? || r.name !in f.at then f
    else ImplyNames(f, rules, r.name, r.implies.value, |r.implies.value|)
  }

  function Pass(f: Found, rules: seq<Rule>, n: nat): Found
    requires n <= |rules|
  {
    if n == 0 then f else ImplyRule(Pass(f, rules, n - 1), rules, rules[n - 1])
  }

  function Passes(f: Found, rules: seq<Rule>, times: nat): Found {
    if times == 0 then f else Pass(Passes(f, rules, times - 1), rules, |rules|)
  }

  // ---------------------------------------------------------------- the sort

  /** `localeCompare(a, b) < 0`. */
  type Less = (string, string) -> bool

  predicate Before(a: Detection, b: Detection, less: Less) {
    b.confidence < a.confidence || (a.confidence == b.confidence && less(a.name, b.name))
  }

  function InsertDetection(d: Detection, sorted: seq<Detection>, less: Less): seq<Detection> {
    if sorted == [] || !Before(sorted[0], d, less) then [d] + sorted
    else [sorted[0]] + InsertDetection(d, sorted[1..], less)
  }

  function SortDetections(ds: seq<Detection>, less: Less): seq<Detection> {
    if ds == [] then [] else InsertDetection(ds[0], SortDetections(ds[1..], less), less)
  }

  lemma {:induction false} InsertedAtMost(d: Detection, sorted: seq<Detection>, less: Less, level: nat)
    requires d.confidence <= level && forall x <- sorted :: x.confidence <= level
    ensures forall x <- InsertDetection(d, sorted, less) :: x.confidence <= level
  {
    if sorted != [] && Before(sorted[0], d, less) { InsertedAtMost(d, sorted[1..], less, level); }
  }

  predicate ByConfidence(ds: seq<Detection>) {
    forall i, j | 0 <= i < j < |ds| :: ds[j].confidence <= ds[i].confidence
  }

  lemma HeadIsSurest(d: Detection, rest: seq<Detection>)
    requires ByConfidence(rest) && forall x <- rest :: x.confidence <= d.confidence
    ensures ByConfidence([d] + rest)
  {}

  lemma {:induction false} InsertedByConfidence(d: Detection, sorted: seq<Detection>, less: Less)
    requires ByConfidence(sorted)
    ensures ByConfidence(InsertDetection(d, sorted, less))
  {
    if sorted == [] || !Before(sorted[0], d, less) {
      HeadIsSurest(d, sorted);
    } else {
      InsertedByConfidence(d, sorted[1..], less);
      InsertedAtMost(d, sorted[1..], less, sorted[0].confidence);
      HeadIsSurest(sorted[0], InsertDetection(d, sorted[1..], less));
    }
  }

  /** Whatever the comparison of names, a more confident detection comes first. */
  lemma {:induction false} SortedByConfidence(ds: seq<Detection>, less: Less)
    ensures ByConfidence(SortDetections(ds, less))
  {
    if ds != [] {
      SortedByConfidence(ds[1..], less);
      InsertedByConfidence(ds[0], SortDetections(ds[1..], less), less);
    }
  }

  predicate Listable(f: Found) {
    forall n <- f.order :: n in f.at
  }

  function Values(f: Found): seq<Detection>
    requires Listable(f)
  {
    seq(|f.order|, i requires 0 <= i < |f.order| => f.at[f.order[i]])
  }

  /** The map's names are its order, each once, and entries carry their own name. */
  ghost predicate Ordered(f: Found) {
    Listable(f) &&
    (forall n <- f.at :: n in f.order && f.at[n].name == n) &&
    (forall i, j | 0 <= i < j < |f.order| :: f.order[i] != f.order[j])
  }

  lemma PutKeepsOrdered(f: Found, d: Detection)
    requires Ordered(f)
    ensures Ordered(Put(f, d))
  {
    var f' := Put(f, d);
    if d.name !in f.at { assert f'.order[|f.order|] == d.name; }
  }

  lemma {:induction false} DirectIsOrdered(rules: seq<Rule>, c: Capture, regex: Regex, n: nat)
    requires n <= |rules|
    ensures Ordered(Direct(rules, c, regex, n))
  {
    hide RunRule;
    if n > 0 {
      hide Ordered;
      DirectIsOrdered(rules, c, regex, n - 1);
      match RunRule(rules[n - 1], c, regex)
      case None =>
      case Some(d) => PutKeepsOrdered(Direct(rules, c, regex, n - 1), d);
    }
  }

  lemma ImplyKeepsOrdered(f: Found, rules: seq<Rule>, source: string, name: string)
    requires Ordered(f)
    ensures Ordered(Imply(f, rules, source, name))
  {
    var f' := Imply(f, rules, source, name);
    if name !in f.at {
      assert f' == Put(f, Inferred(rules, source, name));
      PutKeepsOrdered(f, Inferred(rules, source, name));
    }
  }

  lemma {:induction false} ImplyNamesKeepsOrdered(f: Found, rules: seq<Rule>, source: string, names: seq<string>,
      n: nat)
    requires n <= |names| && Ordered(f)
    ensures Ordered(ImplyNames(f, rules, source, names, n))
  {
    if n > 0 {
      ImplyNamesKeepsOrdered(f, rules, source, names, n - 1);
      ImplyKeepsOrdered(ImplyNames(f, rules, source, names, n - 1), rules, source, names[n - 1]);
    }
  }

  lemma {:induction false} PassKeepsOrdered(f: Found, rules: seq<Rule>, n: nat)
    requires n <= |rules| && Ordered(f)
    ensures Ordered(Pass(f, rules, n))
  {
    if n > 0 {
      PassKeepsOrdered(f, rules, n - 1);
      var g := Pass(f, rules, n - 1);
      var r := rules[n - 1];
      if r.implies.Some? { ImplyNamesKeepsOrdered(g, rules, r.name, r.implies.value, |r.implies.value|); }
    }
  }

  lemma {:induction false} PassesKeepOrdered(f: Found, rules: seq<Rule>, times: nat)
    requires Ordered(f)
    ensures Ordered(Passes(f, rules, times))
  {
    if times > 0 {
      PassesKeepOrdered(f, rules, times - 1);
      PassKeepsOrdered(Passes(f, rules, times - 1), rules, |rules|);
    }
  }

  /** The map when the loops are done. */
  function Conclude(rules: seq<Rule>, c: Capture, regex: Regex): (f: Found)
    ensures Ordered(f)
  {
    DirectIsOrdered(rules, c, regex, |rules|);
    PassesKeepOrdered(Direct(rules, c, regex, |rules|), rules, PASSES);
    Passes(Direct(rules, c, regex, |rules|), rules, PASSES)
  }

  function Detect(rules: seq<Rule>, c: Capture, regex: Regex, less: Less): seq<Detection> {
    SortDetections(Values(Conclude(rules, c, regex)), less)
  }

  /** `detect` as it runs, on one mutable map. */
  method RunDetect(rules: seq<Rule>, c: Capture, regex: Regex, less: Less) returns (result: seq<Detection>)
    ensures result == Detect(rules, c, regex, less)
    ensures forall i, j | 0 <= i < j < |result| :: result[j].confidence <= result[i].confidence
  {
    hide RunRule, CategoryOf, SortDetections, IsImplication, ImpliedBy;
    var found := Found([], map[]);
    for i := 0 to |rules|
      invariant found == Direct(rules, c, regex, i)
    {
      var detection := RunRule(rules[i], c, regex);
      if detection.Some? { found := Put(found, detection.value); }
    }
    ghost var direct := found;
    for pass := 0 to PASSES
      invariant found == Passes(direct, rules, pass)
    {
      ghost var start := found;
      for i := 0 to |rules|
        invariant found == Pass(start, rules, i)
      {
        var rule := rules[i];
        if rule.implies.None? || rule.name !in found.at { continue; }
        ghost var entry := found;
        for j := 0 to |rule.implies.value|
          invariant found == ImplyNames(entry, rules, rule.name, rule.implies.value, j)
        {
          var impliedName := rule.implies.value[j];
          if impliedName in found.at {
            var existing := found.at[impliedName];
            if !exists e <- existing.evidence :: IsImplication(e) {
              existing := existing.(evidence := existing.evidence + [ImpliedBy(rule.name)]);
              found := found.(at := found.at[impliedName := existing]);
            }
            continue;
          }
          var category := CategoryOf(rules, impliedName);
          var inferred := Detection(impliedName, category, None, INFERRED, [ImpliedBy(rule.name)]);
          found := Found(found.order + [impliedName], found.at[impliedName := inferred]);
        }
      }
    }
    assert found == Conclude(rules, c, regex);
    SortedByConfidence(Values(found), less);
    result := SortDetections(Values(found), less);
    assert ByConfidence(result);
  }
}
