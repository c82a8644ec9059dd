/** Which names the implication passes find: n in-place passes against n-step and full reachability. */
module ImpliedNames {
  import opened Options
  import opened Signals
  import opened Detector

  predicate ImpliesName(rules: seq<Rule>, source: string, name: string) {
    exists r <- rules :: r.name == source && r.implies.Some? && name in r.implies.value
  }

  /** One step of implication on a set of names. */
  function Reached(rules: seq<Rule>, names: set<string>): set<string> {
    names + set r, n | r in rules && r.name in names && r.implies.Some? && n in r.implies.value :: n
  }

  function Reach(rules: seq<Rule>, names: set<string>, steps: nat): set<string> {
    if steps == 0 then names else Reached(rules, Reach(rules, names, steps - 1))
  }

  ghost predicate Reachable(rules: seq<Rule>, names: set<string>, name: string) {
    exists steps: nat :: name in Reach(rules, names, steps)
  }

  lemma {:induction false} ImplyNamesFinds(f: Found, rules: seq<Rule>, source: string, names: seq<string>, n: nat)
    requires n <= |names|
    ensures ImplyNames(f, rules, source, names, n).at.Keys == f.at.Keys + set x | x in names[..n]
  {
    if n > 0 {
      ImplyNamesFinds(f, rules, source, names, n - 1);
      assert names[..n] == names[..n - 1] + [names[n - 1]];
    }
  }

  lemma ImplyRuleFinds(f: Found, rules: seq<Rule>, r: Rule)
    ensures ImplyRule(f, rules, r).at.Keys ==
            f.at.Keys + set n | r.implies.Some? && r.name in f.at && n in OrNone(r.implies) :: n
  {
    if r.implies.Some? && r.name in f.at {
      ImplyNamesFinds(f, rules, r.name, r.implies.value, |r.implies.value|);
      assert r.implies.value[..|r.implies.value|] == r.implies.value;
    }
  }

  lemma {:induction false} PassFindsAtLeast(f: Found, rules: seq<Rule>, from: nat, n: nat)
    requires from <= n <= |rules|
    ensures Pass(f, rules, from).at.Keys <= Pass(f, rules, n).at.Keys
    ensures forall i | from <= i < n ::
              rules[i].name in Pass(f, rules, from).at && rules[i].implies.Some? ==>
                forall x <- rules[i].implies.value :: x in Pass(f, rules, n).at
    decreases n
  {
    if from < n {
      PassFindsAtLeast(f, rules, from, n - 1);
      ImplyRuleFinds(Pass(f, rules, n - 1), rules, rules[n - 1]);
    }
  }

  lemma {:induction false} PassesReachAtLeast(f: Found, rules: seq<Rule>, times: nat)
    ensures Reach(rules, f.at.Keys, times) <= Passes(f, rules, times).at.Keys
  {
    if times > 0 {
      PassesReachAtLeast(f, rules, times - 1);
      var g := Passes(f, rules, times - 1);
      PassFindsAtLeast(g, rules, 0, |rules|);
      forall n | n in Reach(rules, f.at.Keys, times) ensures n in Pass(g, rules, |rules|).at {
        if n !in Reach(rules, f.at.Keys, times - 1) {
          var r :| r in rules && r.name in Reach(rules, f.at.Keys, times - 1) && r.implies.Some?
              && n in r.implies.value;
          var i :| 0 <= i < |rules| && rules[i] == r;
        }
      }
    }
  }

  lemma ReachableStep(rules: seq<Rule>, names: set<string>, source: string, name: string)
    requires Reachable(rules, names, source) && ImpliesName(rules, source, name)
    ensures Reachable(rules, names, name)
  {
    var steps: nat :| source in Reach(rules, names, steps);
    assert name in Reach(rules, names, steps + 1);
  }

  lemma {:induction false} PassFindsReachable(f: Found, rules: seq<Rule>, n: nat, names: set<string>)
    requires n <= |rules| && forall x <- f.at :: Reachable(rules, names, x)
    ensures forall x <- Pass(f, rules, n).at :: Reachable(rules, names, x)
  {
    if n > 0 {
      PassFindsReachable(f, rules, n - 1, names);
      var g := Pass(f, rules, n - 1);
      var r := rules[n - 1];
      ImplyRuleFinds(g, rules, r);
      forall x | x in Pass(f, rules, n).at ensures Reachable(rules, names, x) {
        if x !in g.at {
          assert ImpliesName(rules, r.name, x);
          ReachableStep(rules, names, r.name, x);
        }
      }
    }
  }

  /** n passes find at least what n steps reach, and nothing that is not reachable. */
  lemma {:induction false} PassesBetween(f: Found, rules: seq<Rule>, times: nat)
    ensures Reach(rules, f.at.Keys, times) <= Passes(f, rules, times).at.Keys
    ensures forall x <- Passes(f, rules, times).at :: Reachable(rules, f.at.Keys, x)
  {
    PassesReachAtLeast(f, rules, times);
    if times == 0 {
      forall x | x in f.at ensures Reachable(rules, f.at.Keys, x) { assert x in Reach(rules, f.at.Keys, 0); }
    } else {
      PassesBetween(f, rules, times - 1);
      PassFindsReachable(Passes(f, rules, times - 1), rules, |rules|, f.at.Keys);
    }
  }

  /** Chains of implications add nothing after `steps` steps. */
  predicate ChainsEndBy(rules: seq<Rule>, names: set<string>, steps: nat) {
    Reached(rules, Reach(rules, names, steps)) == Reach(rules, names, steps)
  }

  lemma {:induction false} ChainsEnd(rules: seq<Rule>, names: set<string>, steps: nat, more: nat)
    requires ChainsEndBy(rules, names, steps)
    ensures Reach(rules, names, steps + more) == Reach(rules, names, steps)
  {
    hide Reached;
    if more > 0 {
      ChainsEnd(rules, names, steps, more - 1);
      assert Reach(rules, names, steps + more) == Reached(rules, Reach(rules, names, steps + more - 1));
    }
  }

  lemma {:induction false} ReachGrows(rules: seq<Rule>, names: set<string>, steps: nat, more: nat)
    ensures Reach(rules, names, steps) <= Reach(rules, names, steps + more)
  {
    if more > 0 { ReachGrows(rules, names, steps, more - 1); }
  }

  lemma ReachableWithin(rules: seq<Rule>, names: set<string>, steps: nat, x: string)
    requires ChainsEndBy(rules, names, steps) && Reachable(rules, names, x)
    ensures x in Reach(rules, names, steps)
  {
    var k: nat :| x in Reach(rules, names, k);
    if k <= steps { ReachGrows(rules, names, k, steps - k); } else { ChainsEnd(rules, names, steps, k - steps); }
  }

  lemma LongerChain(rules: seq<Rule>, names: set<string>, steps: nat) returns (x: string)
    requires !ChainsEndBy(rules, names, steps)
    ensures Reachable(rules, names, x) && x !in Reach(rules, names, steps)
  {
    x :| x in Reached(rules, Reach(rules, names, steps)) && x !in Reach(rules, names, steps);
    assert x in Reach(rules, names, steps + 1);
  }

  // ---------------------------------------------------------------- detect

  predicate Fires(r: Rule, c: Capture, regex: Regex) {
    RunRule(r, c, regex).Some?
  }

  function DirectNames(rules: seq<Rule>, c: Capture, regex: Regex): set<string> {
    set r | r in rules && Fires(r, c, regex) :: r.name
  }

  lemma {:induction false} DirectHas(rules: seq<Rule>, c: Capture, regex: Regex, n: nat, name: string)
    requires n <= |rules|
    ensures name in Direct(rules, c, regex, n).at <==>
              exists i | 0 <= i < n :: Fires(rules[i], c, regex) && rules[i].name == name
  {
    hide RunRule;
    if n > 0 {
      var r := rules[n - 1];
      DirectHas(rules, c, regex, n - 1, name);
      assert RunRule(r, c, regex).Some? ==> RunRule(r, c, regex).value.name == r.name by { RunRuleMeans(r, c, regex); }
      var before := Direct(rules, c, regex, n - 1);
      assert name in Direct(rules, c, regex, n).at <==> name in before.at || (Fires(r, c, regex) && r.name == name);
    }
  }

  lemma DirectFinds(rules: seq<Rule>, c: Capture, regex: Regex)
    ensures Direct(rules, c, regex, |rules|).at.Keys == DirectNames(rules, c, regex)
  {
    forall name ensures name in Direct(rules, c, regex, |rules|).at <==> name in DirectNames(rules, c, regex) {
      DirectHas(rules, c, regex, |rules|, name);
      hide Direct;
      hide RunRule;
    }
  }

  /** The detected names lie between two-step and full reachability from the directly detected ones. */
  lemma DetectedNames(rules: seq<Rule>, c: Capture, regex: Regex)
    ensures Reach(rules, DirectNames(rules, c, regex), PASSES) <= Conclude(rules, c, regex).at.Keys
    ensures forall x <- Conclude(rules, c, regex).at :: Reachable(rules, DirectNames(rules, c, regex), x)
  {
    DirectFinds(rules, c, regex);
    PassesBetween(Direct(rules, c, regex, |rules|), rules, PASSES);
  }

  /** With chains of length at most two, the two passes find exactly the transitive closure. */
  lemma TwoPassesAreEnough(rules: seq<Rule>, c: Capture, regex: Regex)
    requires ChainsEndBy(rules, DirectNames(rules, c, regex), 2)
    ensures forall x :: x in Conclude(rules, c, regex).at <==> Reachable(rules, DirectNames(rules, c, regex), x)
    ensures Conclude(rules, c, regex).at.Keys == Reach(rules, DirectNames(rules, c, regex), 2)
  {
    var names := DirectNames(rules, c, regex);
    DetectedNames(rules, c, regex);
    forall x | Reachable(rules, names, x) ensures x in Reach(rules, names, 2) { ReachableWithin(rules, names, 2, x); }
  }

  // ---------------------------------------------------------------- the worst order

  function Only(rules: seq<Rule>, names: set<string>): (r: seq<Rule>)
    ensures forall x :: x in r <==> x in rules && x.name in names
  {
    if rules == [] then []
    else
      assert rules == [rules[0]] + rules[1..];
      (if rules[0].name in names then [rules[0]] else []) + Only(rules[1..], names)
  }

  function Without(rules: seq<Rule>, names: set<string>): (r: seq<Rule>)
    ensures forall x :: x in r <==> x in rules && x.name !in names
  {
    if rules == [] then []
    else
      assert rules == [rules[0]] + rules[1..];
      (if rules[0].name in names then [] else [rules[0]]) + Without(rules[1..], names)
  }

  lemma {:induction false} SplitIsPermutation(rules: seq<Rule>, names: set<string>)
    ensures multiset(Without(rules, names) + Only(rules, names)) == multiset(rules)
  {
    if rules != [] {
      SplitIsPermutation(rules[1..], names);
      assert rules == [rules[0]] + rules[1..];
    }
  }

  lemma {:induction false} SkippedRules(f: Found, rules: seq<Rule>, n: nat)
    requires n <= |rules| && forall i | 0 <= i < n :: rules[i].name !in f.at
    ensures Pass(f, rules, n) == f
  {
    if n > 0 { SkippedRules(f, rules, n - 1); }
  }

  lemma {:induction false} PassWithin(f: Found, rules: seq<Rule>, from: nat, n: nat, sources: set<string>)
    requires from <= n <= |rules|
    requires forall i | from <= i < n :: rules[i].name in sources
    requires Pass(f, rules, from).at.Keys <= Reached(rules, sources)
    ensures Pass(f, rules, n).at.Keys <= Reached(rules, sources)
    decreases n
  {
    if from < n {
      PassWithin(f, rules, from, n - 1, sources);
      ImplyRuleFinds(Pass(f, rules, n - 1), rules, rules[n - 1]);
    }
  }

  /** The order that visits far names first. */
  function FarFirst(rules: seq<Rule>, near: set<string>, nearer: set<string>): seq<Rule> {
    Without(rules, near) + (Without(Only(rules, near), nearer) + Only(Only(rules, near), nearer))
  }

  lemma ReachedIgnoresOrder(rules: seq<Rule>, rules': seq<Rule>, names: set<string>)
    requires multiset(rules) == multiset(rules')
    ensures Reached(rules, names) == Reached(rules', names)
  {
    assert forall r :: r in rules <==> r in multiset(rules);
    assert forall r :: r in rules' <==> r in multiset(rules');
  }

  lemma {:induction false} SameStepsSameReach(rules: seq<Rule>, rules': seq<Rule>, names: set<string>, steps: nat)
    requires forall from: set<string> :: Reached(rules, from) == Reached(rules', from)
    ensures Reach(rules, names, steps) == Reach(rules', names, steps)
  {
    hide Reached;
    if steps > 0 { SameStepsSameReach(rules, rules', names, steps - 1); }
  }

  lemma ReachIgnoresOrder(rules: seq<Rule>, rules': seq<Rule>, names: set<string>, steps: nat)
    requires multiset(rules) == multiset(rules')
    ensures Reach(rules, names, steps) == Reach(rules', names, steps)
  {
    hide Reached, Reach;
    forall from: set<string> ensures Reached(rules, from) == Reached(rules', from) {
      ReachedIgnoresOrder(rules, rules', from);
    }
    SameStepsSameReach(rules, rules', names, steps);
  }

  /** In that order two passes reach two steps and no further. */
  lemma FarFirstReachesTwoSteps(f: Found, rules: seq<Rule>, ordered: seq<Rule>)
    requires ordered == FarFirst(rules, Reach(rules, f.at.Keys, 1), f.at.Keys)
    ensures multiset(ordered) == multiset(rules)
    ensures Passes(f, ordered, 2).at.Keys <= Reach(rules, f.at.Keys, 2)
  {
    var near := Reach(rules, f.at.Keys, 1);
    FarFirstIsPermutation(rules, near, f.at.Keys);
    ReachIgnoresOrder(rules, ordered, f.at.Keys, 1);
    ReachIgnoresOrder(rules, ordered, f.at.Keys, 2);
    var far, mid := FarFirstSplits(rules, near, f.at.Keys);
    assert f.at.Keys == Reach(rules, f.at.Keys, 0) <= near;
    TwoPassesFromSplit(f, ordered, far, mid, near);
    assert Reached(ordered, near) == Reach(ordered, f.at.Keys, 2);
  }

  lemma FarFirstIsPermutation(rules: seq<Rule>, near: set<string>, nearer: set<string>)
    ensures multiset(FarFirst(rules, near, nearer)) == multiset(rules)
  {
    SplitIsPermutation(rules, near);
    SplitIsPermutation(Only(rules, near), nearer);
  }

  lemma FarFirstSplits(rules: seq<Rule>, near: set<string>, nearer: set<string>) returns (far: nat, mid: nat)
    ensures var ordered := FarFirst(rules, near, nearer);
            && far <= mid <= |ordered|
            && (forall i | 0 <= i < far :: ordered[i].name !in near)
            && (forall i | far <= i < |ordered| :: ordered[i].name in near)
            && (forall i | far <= i < mid :: ordered[i].name !in nearer)
            && (forall i | mid <= i < |ordered| :: ordered[i].name in nearer)
  {
    var a, b, c := Without(rules, near), Without(Only(rules, near), nearer), Only(Only(rules, near), nearer);
    far, mid := |a|, |a| + |b|;
    var ordered := FarFirst(rules, near, nearer);
    forall i | 0 <= i < |ordered|
      ensures i < far ==> ordered[i] in a
      ensures far <= i < mid ==> ordered[i] in b
      ensures mid <= i ==> ordered[i] in c
    {
    }
  }

  lemma TwoPassesFromSplit(f: Found, ordered: seq<Rule>, far: nat, mid: nat, near: set<string>)
    requires far <= mid <= |ordered| && near == Reached(ordered, f.at.Keys)
    requires forall i | 0 <= i < far :: ordered[i].name !in near
    requires forall i | far <= i < |ordered| :: ordered[i].name in near
    requires forall i | far <= i < mid :: ordered[i].name !in f.at
    requires forall i | mid <= i < |ordered| :: ordered[i].name in f.at
    ensures Passes(f, ordered, 2).at.Keys <= Reached(ordered, near)
  {
    SkippedRules(f, ordered, mid);
    PassWithin(f, ordered, mid, |ordered|, f.at.Keys);
    var g := Pass(f, ordered, |ordered|);
    assert g == Passes(f, ordered, 1) by { assert Passes(f, ordered, 0) == f; }
    SkippedRules(g, ordered, far);
    PassWithin(g, ordered, far, |ordered|, near);
  }

  // ---------------------------------------------------------------- the best order

  /** The order that visits the given names first. */
  function NearFirst(rules: seq<Rule>, near: set<string>): seq<Rule> {
    Only(rules, near) + Without(rules, near)
  }

  lemma NearFirstIsPermutation(rules: seq<Rule>, near: set<string>)
    ensures multiset(NearFirst(rules, near)) == multiset(rules)
  {
    SplitIsPermutation(rules, near);
  }

  /** What a rule implies is found in one pass over an order that visits it once its name is known. */
  lemma NearFirstFinds(f: Found, ordered: seq<Rule>, k: nat, i: nat, x: string)
    requires k <= |ordered| && i < |ordered| && ordered[i].implies.Some? && x in ordered[i].implies.value
    requires ordered[i].name in if i < k then f.at else Pass(f, ordered, k).at
    ensures x in Pass(f, ordered, |ordered|).at && (i < k ==> x in Pass(f, ordered, k).at)
  {
    PassFindsAtLeast(f, ordered, 0, k);
    PassFindsAtLeast(f, ordered, k, |ordered|);
  }

  lemma NearFirstIndex(rules: seq<Rule>, near: set<string>, r: Rule) returns (i: nat)
    requires r in rules
    ensures i < |NearFirst(rules, near)| && NearFirst(rules, near)[i] == r
    ensures i < |Only(rules, near)| <==> r.name in near
  {
    var a, b := Only(rules, near), Without(rules, near);
    if r.name in near {
      i :| 0 <= i < |a| && a[i] == r;
    } else {
      var j: nat :| j < |b| && b[j] == r;
      i := |a| + j;
    }
  }

  lemma FoundSoFar(f: Found, ordered: seq<Rule>, k: nat)
    requires k <= |ordered|
    ensures f.at.Keys <= Pass(f, ordered, k).at.Keys <= Pass(f, ordered, |ordered|).at.Keys
  {
    PassFindsAtLeast(f, ordered, 0, k);
    PassFindsAtLeast(f, ordered, k, |ordered|);
  }

  lemma FirstStepFound(f: Found, rules: seq<Rule>, x: string)
    requires x in Reached(rules, f.at.Keys)
    ensures |Only(rules, f.at.Keys)| <= |NearFirst(rules, f.at.Keys)|
    ensures x in Pass(f, NearFirst(rules, f.at.Keys), |Only(rules, f.at.Keys)|).at
  {
    var ordered, k := NearFirst(rules, f.at.Keys), |Only(rules, f.at.Keys)|;
    FoundSoFar(f, ordered, k);
    if x !in f.at {
      var r :| r in rules && r.name in f.at && r.implies.Some? && x in r.implies.value;
      var i := NearFirstIndex(rules, f.at.Keys, r);
      hide NearFirst, Only, Pass;
      NearFirstFinds(f, ordered, k, i, x);
    }
  }

  lemma SecondStepFound(f: Found, rules: seq<Rule>, x: string)
    requires x in Reached(rules, Reached(rules, f.at.Keys))
    ensures x in Pass(f, NearFirst(rules, f.at.Keys), |NearFirst(rules, f.at.Keys)|).at
  {
    var near := Reached(rules, f.at.Keys);
    var ordered, k := NearFirst(rules, f.at.Keys), |Only(rules, f.at.Keys)|;
    FoundSoFar(f, ordered, k);
    if x in near {
      FirstStepFound(f, rules, x);
    } else {
      var r :| r in rules && r.name in near && r.implies.Some? && x in r.implies.value;
      var i := NearFirstIndex(rules, f.at.Keys, r);
      FirstStepFound(f, rules, r.name);
      hide NearFirst, Only, Pass, Reached;
      NearFirstFinds(f, ordered, k, i, x);
    }
  }

  /** In that order one pass reaches two steps, so two passes reach three. */
  lemma NearFirstReachesThreeSteps(f: Found, rules: seq<Rule>)
    ensures Reach(rules, f.at.Keys, 3) <= Passes(f, NearFirst(rules, f.at.Keys), 2).at.Keys
  {
    var ordered := NearFirst(rules, f.at.Keys);
    var g := Pass(f, ordered, |ordered|);
    var two := Reached(rules, Reached(rules, f.at.Keys));
    assert Reach(rules, f.at.Keys, 3) == Reached(rules, two) by {
      assert Reach(rules, f.at.Keys, 0) == f.at.Keys;
      assert Reach(rules, f.at.Keys, 1) == Reached(rules, f.at.Keys);
    }
    assert Passes(f, ordered, 2) == Pass(g, ordered, |ordered|) by { assert Passes(f, ordered, 0) == f; }
    forall x | x in two ensures x in g.at { SecondStepFound(f, rules, x); }
    PassFindsAtLeast(g, ordered, 0, |ordered|);
    assert Pass(g, ordered, 0) == g;
    hide Pass, Passes, Reach;
    forall x | x in Reached(rules, two) ensures x in Pass(g, ordered, |ordered|).at {
      if x !in two {
        var r :| r in rules && r.name in two && r.implies.Some? && x in r.implies.value;
        var i := NearFirstIndex(rules, f.at.Keys, r);
      }
    }
  }

  lemma BestOrderFinds(rules: seq<Rule>, c: Capture, regex: Regex)
    ensures var names := DirectNames(rules, c, regex);
            var best := NearFirst(rules, names);
            multiset(best) == multiset(rules) && Reach(rules, names, 3) <= Conclude(best, c, regex).at.Keys
  {
    var names := DirectNames(rules, c, regex);
    var best := NearFirst(rules, names);
    NearFirstIsPermutation(rules, names);
    DirectNamesIgnoreOrder(rules, best, c, regex);
    DirectFinds(best, c, regex);
    NearFirstReachesThreeSteps(Direct(best, c, regex, |best|), rules);
  }

  lemma DirectNamesIgnoreOrder(rules: seq<Rule>, rules': seq<Rule>, c: Capture, regex: Regex)
    requires multiset(rules) == multiset(rules')
    ensures DirectNames(rules, c, regex) == DirectNames(rules', c, regex)
  {
    assert forall r :: r in rules <==> r in multiset(rules);
    assert forall r :: r in rules' <==> r in multiset(rules');
  }

  /**
    `detect` finds the whole closure in whatever order the rules are listed if and only if no chain is
    longer than two.
  */
  lemma TwoPassesExactCondition(rules: seq<Rule>, c: Capture, regex: Regex)
    ensures (forall listed: seq<Rule> | multiset(listed) == multiset(rules) ::
               forall x | Reachable(rules, DirectNames(rules, c, regex), x) :: x in Conclude(listed, c, regex).at)
            <==> ChainsEndBy(rules, DirectNames(rules, c, regex), 2)
  {
    var names := DirectNames(rules, c, regex);
    if ChainsEndBy(rules, names, 2) {
      forall listed: seq<Rule>, x | multiset(listed) == multiset(rules) && Reachable(rules, names, x)
        ensures x in Conclude(listed, c, regex).at
      {
        ReachableWithin(rules, names, 2, x);
        DirectNamesIgnoreOrder(rules, listed, c, regex);
        ReachIgnoresOrder(rules, listed, names, 2);
        DetectedNames(listed, c, regex);
      }
    } else {
      var x := LongerChain(rules, names, 2);
      WorstOrderMisses(rules, c, regex);
      var worst := FarFirst(rules, Reach(rules, names, 1), names);
      assert multiset(worst) == multiset(rules) && x !in Conclude(worst, c, regex).at;
    }
  }

  lemma WorstOrderMisses(rules: seq<Rule>, c: Capture, regex: Regex)
    ensures var names := DirectNames(rules, c, regex);
            var worst := FarFirst(rules, Reach(rules, names, 1), names);
            multiset(worst) == multiset(rules) && Conclude(worst, c, regex).at.Keys <= Reach(rules, names, 2)
  {
    var names := DirectNames(rules, c, regex);
    var worst := FarFirst(rules, Reach(rules, names, 1), names);
    FarFirstIsPermutation(rules, Reach(rules, names, 1), names);
    DirectNamesIgnoreOrder(rules, worst, c, regex);
    DirectFinds(worst, c, regex);
    FarFirstReachesTwoSteps(Direct(worst, c, regex, |worst|), rules, worst);
  }
}
