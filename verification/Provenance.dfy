/** Where detections come from: direct findings are kept, inferred ones trace back to a direct one. */
module Provenance {
  import opened Options
  import opened Signals
  import opened Detector
  import opened ImpliedNames

  /** What a detection says besides its evidence. */
  function Bare(d: Detection): Detection {
    d.(evidence := [])
  }

  predicate Noted(was: seq<string>, is': seq<string>, source: string) {
    is' == was + [ImpliedBy(source)] && !exists e <- was :: IsImplication(e)
  }

  /** A direct finding keeps everything; at most one note of an implication is appended to its evidence. */
  ghost predicate Kept(f: Found, rules: seq<Rule>, d: Detection) {
    d.name in f.at && Bare(f.at[d.name]) == Bare(d) &&
    (f.at[d.name].evidence == d.evidence ||
     exists source <- f.at :: ImpliesName(rules, source, d.name) && Noted(d.evidence, f.at[d.name].evidence, source))
  }

  predicate InferredFrom(f: Found, rules: seq<Rule>, name: string, source: string) {
    name in f.at && source in f.at && ImpliesName(rules, source, name) && f.at[name] == Inferred(rules, source, name)
  }

  ghost predicate AllKept(f: Found, direct: Found, rules: seq<Rule>) {
    forall n <- direct.at :: Kept(f, rules, direct.at[n])
  }

  /** The i-th entry was inferred from an earlier one. */
  ghost predicate HasSource(f: Found, rules: seq<Rule>, i: nat) {
    i < |f.order| && exists j | 0 <= j < i :: InferredFrom(f, rules, f.order[i], f.order[j])
  }

  ghost predicate LaterInferred(f: Found, direct: Found, rules: seq<Rule>) {
    direct.order <= f.order &&
    forall i | |direct.order| <= i < |f.order| :: HasSource(f, rules, i)
  }

  ghost predicate Sourced(f: Found, direct: Found, rules: seq<Rule>) {
    Ordered(f) && AllKept(f, direct, rules) && LaterInferred(f, direct, rules)
  }

  lemma ImplicationSentence(source: string)
    ensures IsImplication(ImpliedBy(source))
  {}

  /** Entries that stay as they are stay kept. */
  lemma KeptLater(f: Found, f': Found, rules: seq<Rule>, d: Detection)
    requires Kept(f, rules, d) && f.at.Keys <= f'.at.Keys && f'.at[d.name] == f.at[d.name]
    ensures Kept(f', rules, d)
  {
    if f.at[d.name].evidence != d.evidence {
      var s :| s in f.at && ImpliesName(rules, s, d.name) && Noted(d.evidence, f.at[d.name].evidence, s);
      assert s in f'.at;
    }
  }

  lemma NotedHasImplication(was: seq<string>, is': seq<string>, source: string)
    requires Noted(was, is', source)
    ensures exists e <- is' :: IsImplication(e)
  {
    ImplicationSentence(source);
    assert is'[|was|] == ImpliedBy(source);
  }

  lemma InferredHasImplication(f: Found, rules: seq<Rule>, name: string, source: string)
    requires InferredFrom(f, rules, name, source)
    ensures exists e <- f.at[name].evidence :: IsImplication(e)
  {
    ImplicationSentence(source);
    assert f.at[name].evidence[0] == ImpliedBy(source);
  }

  /** An entry that carries no implication yet is a direct one, as it was found. */
  lemma UnnotedIsDirect(f: Found, direct: Found, rules: seq<Rule>, name: string)
    requires Ordered(direct) && Sourced(f, direct, rules)
    requires name in f.at && !exists x <- f.at[name].evidence :: IsImplication(x)
    ensures name in direct.at && f.at[name].evidence == direct.at[name].evidence
  {
    hide IsImplication, ImpliedBy, InferredFrom, Noted, ImpliesName;
    var i :| 0 <= i < |f.order| && f.order[i] == name;
    if |direct.order| <= i {
      assert HasSource(f, rules, i);
      var j :| 0 <= j < i && InferredFrom(f, rules, f.order[i], f.order[j]);
      InferredHasImplication(f, rules, name, f.order[j]);
    } else {
      assert name == direct.order[i] && direct.at[name].name == name && Kept(f, rules, direct.at[name]);
      if f.at[name].evidence != direct.at[name].evidence {
        var s :| s in f.at && Noted(direct.at[name].evidence, f.at[name].evidence, s);
        NotedHasImplication(direct.at[name].evidence, f.at[name].evidence, s);
      }
    }
  }

  lemma InferredLater(f: Found, f': Found, rules: seq<Rule>, name: string, source: string)
    requires InferredFrom(f, rules, name, source) && f.at.Keys <= f'.at.Keys && f'.at[name] == f.at[name]
    ensures InferredFrom(f', rules, name, source)
  {}

  /** Later entries keep their sources when the map only gains names and leaves them as they are. */
  lemma LaterStaysInferred(f: Found, f': Found, direct: Found, rules: seq<Rule>)
    requires LaterInferred(f, direct, rules) && f.at.Keys <= f'.at.Keys && f.order <= f'.order
    requires forall n <- f.order :: n in f.at
    requires forall i | |direct.order| <= i < |f.order| :: f'.at[f.order[i]] == f.at[f.order[i]]
    requires forall i | |f.order| <= i < |f'.order| :: HasSource(f', rules, i)
    ensures LaterInferred(f', direct, rules)
  {
    hide Inferred, ImpliesName;
    forall i | |direct.order| <= i < |f'.order| ensures HasSource(f', rules, i) {
      if i < |f.order| {
        assert HasSource(f, rules, i);
        var j :| 0 <= j < i && InferredFrom(f, rules, f.order[i], f.order[j]);
        InferredLater(f, f', rules, f.order[i], f.order[j]);
        assert f'.order[i] == f.order[i] && f'.order[j] == f.order[j];
        assert InferredFrom(f', rules, f'.order[i], f'.order[j]);
      }
    }
  }

  lemma NoteKeepsSourced(f: Found, direct: Found, rules: seq<Rule>, source: string, name: string)
    requires Ordered(direct) && Sourced(f, direct, rules) && source in f.at && ImpliesName(rules, source, name)
    requires name in f.at && !exists x <- f.at[name].evidence :: IsImplication(x)
    ensures Sourced(Imply(f, rules, source, name), direct, rules)
  {
    var f' := Imply(f, rules, source, name);
    ImplyKeepsOrdered(f, rules, source, name);
    UnnotedIsDirect(f, direct, rules, name);
    var e := f.at[name];
    assert f' == f.(at := f.at[name := e.(evidence := e.evidence + [ImpliedBy(source)])]);
    assert Noted(direct.at[name].evidence, f'.at[name].evidence, source);
    hide InferredFrom, Imply, Noted, ImpliedBy, ImpliesName;
    forall n <- direct.at ensures Kept(f', rules, direct.at[n]) {
      assert Kept(f, rules, direct.at[n]) && direct.at[n].name == n;
      if n != name { KeptLater(f, f', rules, direct.at[n]); }
    }
    var k :| 0 <= k < |direct.order| && direct.order[k] == name;
    assert f.order[k] == name;
    LaterStaysInferred(f, f', direct, rules);
  }

  lemma CreateKeepsSourced(f: Found, direct: Found, rules: seq<Rule>, source: string, name: string)
    requires Ordered(direct) && Sourced(f, direct, rules) && source in f.at && ImpliesName(rules, source, name)
    requires name !in f.at
    ensures Sourced(Imply(f, rules, source, name), direct, rules)
  {
    var f' := Imply(f, rules, source, name);
    ImplyKeepsOrdered(f, rules, source, name);
    assert f' == Found(f.order + [name], f.at[name := Inferred(rules, source, name)]);
    assert InferredFrom(f', rules, name, source);
    hide InferredFrom, Imply, Noted, ImpliesName, Inferred;
    forall n <- direct.at ensures Kept(f', rules, direct.at[n]) {
      assert Kept(f, rules, direct.at[n]) && direct.at[n].name == n;
      KeptLater(f, f', rules, direct.at[n]);
    }
    var j :| 0 <= j < |f.order| && f.order[j] == source;
    assert InferredFrom(f', rules, f'.order[|f.order|], f'.order[j]);
    LaterStaysInferred(f, f', direct, rules);
  }

  lemma ImplyKeepsSourced(f: Found, direct: Found, rules: seq<Rule>, source: string, name: string)
    requires Ordered(direct) && Sourced(f, direct, rules) && source in f.at && ImpliesName(rules, source, name)
    ensures Sourced(Imply(f, rules, source, name), direct, rules) && source in Imply(f, rules, source, name).at
  {
    hide Sourced, Ordered, ImpliedBy, Inferred, ImpliesName;
    if name !in f.at {
      CreateKeepsSourced(f, direct, rules, source, name);
    } else if !exists x <- f.at[name].evidence :: IsImplication(x) {
      NoteKeepsSourced(f, direct, rules, source, name);
    }
  }

  lemma {:induction false} ImplyNamesKeepsSourced(
    f: Found, direct: Found, rules: seq<Rule>, source: string, names: seq<string>, n: nat)
    requires n <= |names| && Ordered(direct) && Sourced(f, direct, rules) && source in f.at
    requires forall x <- names :: ImpliesName(rules, source, x)
    ensures Sourced(ImplyNames(f, rules, source, names, n), direct, rules)
    ensures source in ImplyNames(f, rules, source, names, n).at
  {
    hide Sourced, Ordered, Imply, ImpliesName;
    if n > 0 {
      ImplyNamesKeepsSourced(f, direct, rules, source, names, n - 1);
      ImplyKeepsSourced(ImplyNames(f, rules, source, names, n - 1), direct, rules, source, names[n - 1]);
    }
  }

  lemma {:induction false} PassKeepsSourced(f: Found, direct: Found, rules: seq<Rule>, n: nat)
    requires n <= |rules| && Ordered(direct) && Sourced(f, direct, rules)
    ensures Sourced(Pass(f, rules, n), direct, rules)
  {
    if n > 0 {
      PassKeepsSourced(f, direct, rules, n - 1);
      var g := Pass(f, rules, n - 1);
      var r := rules[n - 1];
      if r.implies.Some? && r.name in g.at {
        assert forall x <- r.implies.value :: ImpliesName(rules, r.name, x);
        ImplyNamesKeepsSourced(g, direct, rules, r.name, r.implies.value, |r.implies.value|);
      }
    }
  }

  lemma {:induction false} PassesKeepSourced(direct: Found, rules: seq<Rule>, times: nat)
    requires Ordered(direct)
    ensures Sourced(Passes(direct, rules, times), direct, rules)
  {
    if times > 0 {
      PassesKeepSourced(direct, rules, times - 1);
      PassKeepsSourced(Passes(direct, rules, times - 1), direct, rules, |rules|);
    }
  }

  // ---------------------------------------------------------------- the theorems

  function DirectFindings(rules: seq<Rule>, c: Capture, regex: Regex): Found {
    Direct(rules, c, regex, |rules|)
  }

  lemma ConcludeIsSourced(rules: seq<Rule>, c: Capture, regex: Regex)
    ensures Ordered(DirectFindings(rules, c, regex))
    ensures Sourced(Conclude(rules, c, regex), DirectFindings(rules, c, regex), rules)
  {
    DirectIsOrdered(rules, c, regex, |rules|);
    PassesKeepSourced(DirectFindings(rules, c, regex), rules, PASSES);
  }

  /**
    The passes never change what a direct detection says, and append at most one sentence, which names a
    detected source.
  */
  lemma DirectEvidenceWins(rules: seq<Rule>, c: Capture, regex: Regex, name: string)
    requires name in DirectFindings(rules, c, regex).at
    ensures var d := DirectFindings(rules, c, regex).at[name];
            Kept(Conclude(rules, c, regex), rules, d) && d.name == name
  {
    ConcludeIsSourced(rules, c, regex);
  }

  lemma SourceIn(rules: seq<Rule>, c: Capture, regex: Regex, name: string) returns (source: string)
    requires name in Conclude(rules, c, regex).at && name !in DirectFindings(rules, c, regex).at
    ensures InferredFrom(Conclude(rules, c, regex), rules, name, source)
  {
    ConcludeIsSourced(rules, c, regex);
    hide Conclude, DirectFindings;
    var f := Conclude(rules, c, regex);
    var i :| 0 <= i < |f.order| && f.order[i] == name;
    assert HasSource(f, rules, i);
    var j :| 0 <= j < i && InferredFrom(f, rules, f.order[i], f.order[j]);
    source := f.order[j];
  }

  /**
    An inferred detection has confidence 70 and one sentence, "Implied by X", where X is detected and
    its rule implies the name.
  */
  lemma InferredHasOneSource(rules: seq<Rule>, c: Capture, regex: Regex, name: string) returns (source: string)
    requires name in Conclude(rules, c, regex).at && name !in DirectFindings(rules, c, regex).at
    ensures InferredFrom(Conclude(rules, c, regex), rules, name, source)
    ensures Conclude(rules, c, regex).at[name].evidence == [ImpliedBy(source)]
    ensures Conclude(rules, c, regex).at[name].evidence == ["Implied by " + source]
    ensures Conclude(rules, c, regex).at[name].confidence == 70 && Conclude(rules, c, regex).at[name].version == None
    ensures (forall i | 0 <= i < |rules| && IsFirst(rules, i, name) ::
               Conclude(rules, c, regex).at[name].category == rules[i].category)
            && ((forall r <- rules :: r.name != name) ==> Conclude(rules, c, regex).at[name].category == "other")
    ensures forall other :: Conclude(rules, c, regex).at[name].evidence == [ImpliedBy(other)] ==> other == source
  {
    source := SourceIn(rules, c, regex, name);
    var f := Conclude(rules, c, regex);
    hide Conclude, DirectFindings;
    forall other | f.at[name].evidence == [ImpliedBy(other)] ensures other == source {
      SourceOfSentence(other);
      SourceOfSentence(source);
    }
    assert ImpliedBy(source) == "Implied by " + source;
    CategoryIsFirst(rules, name);
  }

  predicate IsFirst(rules: seq<Rule>, i: nat, name: string) {
    i < |rules| && rules[i].name == name && forall j | 0 <= j < i :: rules[j].name != name
  }

  /** `RULES.find(...)?.category ?? 'other'`. */
  lemma {:induction false} CategoryIsFirst(rules: seq<Rule>, name: string)
    ensures forall i | 0 <= i < |rules| && IsFirst(rules, i, name) :: CategoryOf(rules, name) == rules[i].category
    ensures (forall r <- rules :: r.name != name) ==> CategoryOf(rules, name) == "other"
  {
    if rules != [] {
      CategoryIsFirst(rules[1..], name);
      assert rules == [rules[0]] + rules[1..];
      if rules[0].name != name {
        forall i | 0 <= i < |rules| && IsFirst(rules, i, name) ensures CategoryOf(rules, name) == rules[i].category {
          assert IsFirst(rules[1..], i - 1, name);
        }
      }
    }
  }

  // ---------------------------------------------------------------- notes on what is implied

  /** Its evidence says that something implies it. */
  predicate HasNote(f: Found, name: string) {
    name in f.at && exists e <- f.at[name].evidence :: "Implied by" <= e
  }

  lemma ImplyNotes(f: Found, rules: seq<Rule>, source: string, name: string)
    ensures HasNote(Imply(f, rules, source, name), name)
    ensures forall m :: HasNote(f, m) ==> HasNote(Imply(f, rules, source, name), m)
  {
    var f' := Imply(f, rules, source, name);
    ImplicationSentence(source);
    assert ImpliedBy(source) in f'.at[name].evidence || f' == f;
    forall m | HasNote(f, m) ensures HasNote(f', m) {
      var e :| e in f.at[m].evidence && "Implied by" <= e;
      assert e in f'.at[m].evidence;
    }
  }

  lemma {:induction false} ImplyNamesNotes(f: Found, rules: seq<Rule>, source: string, names: seq<string>, n: nat)
    requires n <= |names|
    ensures forall x <- names[..n] :: HasNote(ImplyNames(f, rules, source, names, n), x)
    ensures forall m :: HasNote(f, m) ==> HasNote(ImplyNames(f, rules, source, names, n), m)
  {
    hide HasNote, Imply;
    if n > 0 {
      ImplyNamesNotes(f, rules, source, names, n - 1);
      ImplyNotes(ImplyNames(f, rules, source, names, n - 1), rules, source, names[n - 1]);
      assert names[..n] == names[..n - 1] + [names[n - 1]];
    }
  }

  lemma {:induction false} PassNotes(f: Found, rules: seq<Rule>, n: nat)
    requires n <= |rules|
    ensures f.at.Keys <= Pass(f, rules, n).at.Keys
    ensures forall m :: HasNote(f, m) ==> HasNote(Pass(f, rules, n), m)
    ensures forall i | 0 <= i < n && rules[i].name in f.at && rules[i].implies.Some? ::
              forall x <- rules[i].implies.value :: HasNote(Pass(f, rules, n), x)
  {
    hide HasNote, ImplyNames;
    if n > 0 {
      PassNotes(f, rules, n - 1);
      var g := Pass(f, rules, n - 1);
      var r := rules[n - 1];
      ImplyRuleFinds(g, rules, r);
      if r.implies.Some? {
        ImplyNamesNotes(g, rules, r.name, r.implies.value, |r.implies.value|);
        assert r.implies.value[..|r.implies.value|] == r.implies.value;
      }
    }
  }

  /**
    Whatever a technology found by the first pass implies carries a note of it at the end, whether it was
    detected directly or only inferred.
  */
  lemma ImpliedIsNoted(rules: seq<Rule>, c: Capture, regex: Regex, source: string, name: string)
    requires source in Reach(rules, DirectNames(rules, c, regex), 1) && ImpliesName(rules, source, name)
    ensures HasNote(Conclude(rules, c, regex), name)
  {
    hide HasNote;
    var direct := DirectFindings(rules, c, regex);
    DirectFinds(rules, c, regex);
    PassesReachAtLeast(direct, rules, 1);
    var f := Passes(direct, rules, 1);
    assert Passes(direct, rules, 2) == Pass(f, rules, |rules|);
    PassNotes(f, rules, |rules|);
    var r :| r in rules && r.name == source && r.implies.Some? && name in r.implies.value;
    var i :| 0 <= i < |rules| && rules[i] == r;
  }

  /** Rules of one name: the last that fires is what is found directly. */
  lemma {:induction false} LastFiringRuleWins(rules: seq<Rule>, c: Capture, regex: Regex, n: nat, name: string)
    returns (i: nat)
    requires n <= |rules| && name in Direct(rules, c, regex, n).at
    ensures i < n && rules[i].name == name && Fires(rules[i], c, regex)
    ensures Direct(rules, c, regex, n).at[name] == RunRule(rules[i], c, regex).value
    ensures forall j | i < j < n && rules[j].name == name :: !Fires(rules[j], c, regex)
  {
    hide RunRule;
    var last := rules[n - 1];
    assert RunRule(last, c, regex).Some? ==> RunRule(last, c, regex).value.name == last.name by {
      RunRuleMeans(last, c, regex);
    }
    if Fires(last, c, regex) && last.name == name {
      i := n - 1;
    } else {
      i := LastFiringRuleWins(rules, c, regex, n - 1, name);
    }
  }

  /** The name an "Implied by X" sentence gives. */
  function SourceOf(sentence: string): string {
    if |sentence| <= |IMPLIED_BY| then "" else sentence[|IMPLIED_BY| + 1..]
  }

  lemma SourceOfSentence(source: string)
    ensures SourceOf(ImpliedBy(source)) == source
  {}

  /** Following the sentences from `name`, a direct detection is met within `steps` links. */
  predicate TracesBack(f: Found, direct: Found, name: string, steps: nat)
    decreases steps
  {
    name in f.at &&
    (name in direct.at || (steps > 0 && |f.at[name].evidence| == 1
                           && TracesBack(f, direct, SourceOf(f.at[name].evidence[0]), steps - 1)))
  }

  lemma {:induction false} MoreSteps(f: Found, direct: Found, name: string, steps: nat, more: nat)
    requires TracesBack(f, direct, name, steps) && steps <= more
    ensures TracesBack(f, direct, name, more)
    decreases steps
  {
    if name !in direct.at { MoreSteps(f, direct, SourceOf(f.at[name].evidence[0]), steps - 1, more - 1); }
  }

  lemma {:induction false} TraceFromIndex(f: Found, direct: Found, rules: seq<Rule>, i: nat)
    requires Ordered(direct) && Sourced(f, direct, rules) && i < |f.order|
    ensures TracesBack(f, direct, f.order[i], i)
  {
    if i < |direct.order| {
      assert f.order[i] == direct.order[i];
    } else {
      assert HasSource(f, rules, i);
      var j :| 0 <= j < i && InferredFrom(f, rules, f.order[i], f.order[j]);
      TraceFromIndex(f, direct, rules, j);
      MoreSteps(f, direct, f.order[j], j, i - 1);
      SourceOfSentence(f.order[j]);
      hide ImpliedBy, SourceOf, Ordered, Sourced;
      assert f.at[f.order[i]].evidence[0] == ImpliedBy(f.order[j]);
    }
  }

  /** Provenance is well founded: even with cyclic `implies`, every detection traces back to a direct one. */
  lemma ProvenanceIsWellFounded(rules: seq<Rule>, c: Capture, regex: Regex, name: string)
    requires name in Conclude(rules, c, regex).at
    ensures TracesBack(Conclude(rules, c, regex), DirectFindings(rules, c, regex), name,
              |Conclude(rules, c, regex).order|)
  {
    ConcludeIsSourced(rules, c, regex);
    var f, direct := Conclude(rules, c, regex), DirectFindings(rules, c, regex);
    var i :| 0 <= i < |f.order| && f.order[i] == name;
    TraceFromIndex(f, direct, rules, i);
    MoreSteps(f, direct, name, i, |f.order|);
  }
}
