/** The order in which rules are listed does not matter for what `detect` reports. */
module DetectionOrder {
  import opened Options
  import opened Signals
  import opened Detector
  import opened ImpliedNames
  import opened Provenance
  import opened RuleMerging

  // ---------------------------------------------------------------- the map

  lemma {:induction false} DirectEntry(rules: seq<Rule>, c: Capture, regex: Regex, n: nat, i: nat)
    requires i < n <= |rules| && UniqueNames(rules) && Fires(rules[i], c, regex)
    ensures rules[i].name in Direct(rules, c, regex, n).at
    ensures Direct(rules, c, regex, n).at[rules[i].name] == RunRule(rules[i], c, regex).value
  {
    hide RunRule;
    var last := rules[n - 1];
    var before := Direct(rules, c, regex, n - 1);
    assert RunRule(last, c, regex).Some? ==>
        RunRule(last, c, regex).value.name == last.name by { RunRuleMeans(last, c, regex); }
    if i < n - 1 {
      DirectEntry(rules, c, regex, n - 1, i);
      assert last.name != rules[i].name;
      assert rules[i].name in before.at;
    } else {
      assert Direct(rules, c, regex, n) == Put(before, RunRule(last, c, regex).value);
    }
  }

  /** A direct finding is what the one rule of its name reports. */
  lemma DirectFinding(rules: seq<Rule>, c: Capture, regex: Regex, r: Rule)
    requires UniqueNames(rules) && r in rules && Fires(r, c, regex)
    ensures r.name in DirectFindings(rules, c, regex).at
    ensures DirectFindings(rules, c, regex).at[r.name] == RunRule(r, c, regex).value
  {
    var i :| 0 <= i < |rules| && rules[i] == r;
    DirectEntry(rules, c, regex, |rules|, i);
  }

  lemma {:induction false} CategoryOfRule(rules: seq<Rule>, r: Rule)
    requires UniqueNames(rules) && r in rules
    ensures CategoryOf(rules, r.name) == r.category
  {
    assert rules == [rules[0]] + rules[1..];
    if rules[0] != r {
      var i :| 0 < i < |rules| && rules[i] == r;
      CategoryOfRule(rules[1..], r);
    }
  }

  lemma {:induction false} CategoryOfNone(rules: seq<Rule>, name: string)
    requires forall r <- rules :: r.name != name
    ensures CategoryOf(rules, name) == "other"
  {
    if rules != [] {
      assert rules == [rules[0]] + rules[1..];
      CategoryOfNone(rules[1..], name);
    }
  }

  ghost predicate SameRules(rules: seq<Rule>, rules': seq<Rule>) {
    multiset(rules) == multiset(rules') && UniqueNames(rules) && UniqueNames(rules')
  }

  lemma SameMembers(rules: seq<Rule>, rules': seq<Rule>)
    requires multiset(rules) == multiset(rules')
    ensures forall r :: r in rules <==> r in rules'
  {
    assert forall r :: r in rules <==> r in multiset(rules);
    assert forall r :: r in rules' <==> r in multiset(rules');
  }

  lemma CategoryIgnoresOrder(rules: seq<Rule>, rules': seq<Rule>, name: string)
    requires SameRules(rules, rules')
    ensures CategoryOf(rules, name) == CategoryOf(rules', name)
  {
    SameMembers(rules, rules');
    if r :| r in rules && r.name == name {
      CategoryOfRule(rules, r);
      CategoryOfRule(rules', r);
    } else {
      CategoryOfNone(rules, name);
      CategoryOfNone(rules', name);
    }
  }

  lemma DirectIgnoresOrder(rules: seq<Rule>, rules': seq<Rule>, c: Capture, regex: Regex)
    requires SameRules(rules, rules')
    ensures DirectFindings(rules, c, regex).at == DirectFindings(rules', c, regex).at
  {
    var f, f' := DirectFindings(rules, c, regex), DirectFindings(rules', c, regex);
    SameMembers(rules, rules');
    DirectNamesIgnoreOrder(rules, rules', c, regex);
    DirectFinds(rules, c, regex);
    DirectFinds(rules', c, regex);
    assert f.at.Keys == f'.at.Keys;
    forall n | n in f.at ensures f.at[n] == f'.at[n] {
      assert n in DirectNames(rules, c, regex);
      var r :| r in rules && Fires(r, c, regex) && r.name == n;
      DirectFinding(rules, c, regex, r);
      DirectFinding(rules', c, regex, r);
    }
  }

  /** The concluded maps agree in everything but evidence. */
  lemma ConcludeIgnoresOrder(rules: seq<Rule>, rules': seq<Rule>, c: Capture, regex: Regex)
    requires SameRules(rules, rules') && ChainsEndBy(rules, DirectNames(rules, c, regex), 2)
    ensures Conclude(rules, c, regex).at.Keys == Conclude(rules', c, regex).at.Keys
    ensures forall n <- Conclude(rules, c, regex).at ::
              Bare(Conclude(rules, c, regex).at[n]) == Bare(Conclude(rules', c, regex).at[n])
  {
    var f, f' := Conclude(rules, c, regex), Conclude(rules', c, regex);
    var names := DirectNames(rules, c, regex);
    DirectNamesIgnoreOrder(rules, rules', c, regex);
    ReachIgnoresOrder(rules, rules', names, 2);
    ReachIgnoresOrder(rules, rules', names, 3);
    assert Reach(rules', names, 3) == Reached(rules', Reach(rules', names, 2));
    assert Reach(rules, names, 3) == Reached(rules, Reach(rules, names, 2));
    TwoPassesAreEnough(rules, c, regex);
    TwoPassesAreEnough(rules', c, regex);
    DirectIgnoresOrder(rules, rules', c, regex);
    hide Conclude, DirectFindings, ImpliedBy;
    forall n | n in f.at ensures Bare(f.at[n]) == Bare(f'.at[n]) {
      if n in DirectFindings(rules, c, regex).at {
        DirectEvidenceWins(rules, c, regex, n);
        DirectEvidenceWins(rules', c, regex, n);
      } else {
        var s := InferredHasOneSource(rules, c, regex, n);
        var s' := InferredHasOneSource(rules', c, regex, n);
        CategoryIgnoresOrder(rules, rules', n);
      }
    }
  }

  // ---------------------------------------------------------------- the sort

  /** Locale comparison as a strict total order on names. */
  ghost predicate StrictTotal(less: Less) {
    (forall a, b :: less(a, b) ==> !less(b, a)) &&
    (forall a, b, c :: less(a, b) && less(b, c) ==> less(a, c)) &&
    (forall a, b :: a != b ==> less(a, b) || less(b, a))
  }

  ghost predicate StrictlySorted(ds: seq<Detection>, less: Less) {
    forall i, j | 0 <= i < j < |ds| :: Before(ds[i], ds[j], less)
  }

  ghost predicate DistinctNames(ds: seq<Detection>) {
    forall i, j | 0 <= i < j < |ds| :: ds[i].name != ds[j].name
  }

  lemma {:induction false} InsertKeepsMembers(d: Detection, sorted: seq<Detection>, less: Less)
    ensures forall x :: x in InsertDetection(d, sorted, less) <==> x == d || x in sorted
  {
    if sorted != [] && Before(sorted[0], d, less) {
      InsertKeepsMembers(d, sorted[1..], less);
      assert sorted == [sorted[0]] + sorted[1..];
    }
  }

  lemma {:induction false} InsertSorts(d: Detection, sorted: seq<Detection>, less: Less)
    requires StrictTotal(less) && StrictlySorted(sorted, less) && forall x <- sorted :: x.name != d.name
    ensures StrictlySorted(InsertDetection(d, sorted, less), less)
  {
    if sorted == [] {
    } else if Before(sorted[0], d, less) {
      InsertSorts(d, sorted[1..], less);
      InsertKeepsMembers(d, sorted[1..], less);
      var rest := InsertDetection(d, sorted[1..], less);
      forall x | x in rest ensures Before(sorted[0], x, less) {}
    } else {
      forall x | x in sorted ensures Before(d, x, less) {
        assert Before(d, sorted[0], less);
      }
    }
  }

  lemma {:induction false} SortIsStrict(ds: seq<Detection>, less: Less)
    requires StrictTotal(less) && DistinctNames(ds)
    ensures StrictlySorted(SortDetections(ds, less), less)
    ensures forall x :: x in SortDetections(ds, less) <==> x in ds
  {
    if ds != [] {
      SortIsStrict(ds[1..], less);
      assert ds == [ds[0]] + ds[1..];
      InsertSorts(ds[0], SortDetections(ds[1..], less), less);
      InsertKeepsMembers(ds[0], SortDetections(ds[1..], less), less);
    }
  }

  function BareAll(ds: seq<Detection>): seq<Detection> {
    seq(|ds|, i requires 0 <= i < |ds| => Bare(ds[i]))
  }

  lemma {:induction false} SortedIsUnique(a: seq<Detection>, b: seq<Detection>, less: Less)
    requires StrictTotal(less) && StrictlySorted(a, less) && StrictlySorted(b, less)
    requires forall x :: x in a <==> x in b
    ensures a == b
  {
    assert b != [] ==> b[0] in b;
    if a != [] {
      assert a[0] in b && b != [];
      assert b[0] in a;
      assert a[0] == b[0];
      forall x ensures x in a[1..] <==> x in b[1..] {
        assert x in a[1..] ==> x in a && x != a[0];
        assert x in b[1..] ==> x in b && x != b[0];
        assert x in a && x != a[0] ==> x in a[1..];
        assert x in b && x != b[0] ==> x in b[1..];
      }
      SortedIsUnique(a[1..], b[1..], less);
      assert a == [a[0]] + a[1..] && b == [b[0]] + b[1..];
    }
  }

  /** The report lists exactly the detections, each once: the most confident first, and by name among equals. */
  lemma DetectSorted(rules: seq<Rule>, c: Capture, regex: Regex, less: Less)
    requires StrictTotal(less)
    ensures StrictlySorted(Detect(rules, c, regex, less), less)
    ensures var ds := Detect(rules, c, regex, less);
            forall i, j | 0 <= i < j < |ds| ::
              && ds[j].confidence <= ds[i].confidence
              && ds[i].name != ds[j].name
              && (ds[i].confidence == ds[j].confidence ==> less(ds[i].name, ds[j].name))
    ensures forall d :: d in Detect(rules, c, regex, less) <==>
                        d.name in Conclude(rules, c, regex).at && Conclude(rules, c, regex).at[d.name] == d
  {
    var f := Conclude(rules, c, regex);
    var values := Values(f);
    hide Conclude;
    forall i, j | 0 <= i < j < |values| ensures values[i].name != values[j].name {
      assert values[i].name == f.order[i] && values[j].name == f.order[j];
    }
    SortIsStrict(values, less);
    forall d ensures d in values <==> d.name in f.at && f.at[d.name] == d {
      if d.name in f.at && f.at[d.name] == d {
        var i :| 0 <= i < |f.order| && f.order[i] == d.name;
        assert values[i] == d;
      }
    }
  }

  /**
    Permuting uniquely named rules leaves names, categories, versions, confidences and their order as
    they are.
  */
  lemma OrderDoesNotMatter(rules: seq<Rule>, rules': seq<Rule>, c: Capture, regex: Regex, less: Less)
    requires SameRules(rules, rules') && ChainsEndBy(rules, DirectNames(rules, c, regex), 2) && StrictTotal(less)
    ensures BareAll(Detect(rules, c, regex, less)) == BareAll(Detect(rules', c, regex, less))
  {
    hide Detect, Conclude, StrictlySorted, Before, BareAll, Bare, DirectNames, ChainsEndBy, RunRule;
    var f, f' := Conclude(rules, c, regex), Conclude(rules', c, regex);
    var a, b := Detect(rules, c, regex, less), Detect(rules', c, regex, less);
    DetectSorted(rules, c, regex, less);
    DetectSorted(rules', c, regex, less);
    ConcludeIgnoresOrder(rules, rules', c, regex);
    SubsetBare(a, b, f, f');
    SubsetBare(b, a, f', f);
    BareStaysSorted(a, less);
    BareStaysSorted(b, less);
    SortedIsUnique(BareAll(a), BareAll(b), less);
  }

  lemma BareStaysSorted(ds: seq<Detection>, less: Less)
    requires StrictlySorted(ds, less)
    ensures StrictlySorted(BareAll(ds), less)
  {}

  lemma SubsetBare(a: seq<Detection>, b: seq<Detection>, f: Found, f': Found)
    requires forall d :: d in a <==> d.name in f.at && f.at[d.name] == d
    requires forall d :: d in b <==> d.name in f'.at && f'.at[d.name] == d
    requires forall n <- f.at :: n in f'.at && f'.at[n].name == n && Bare(f.at[n]) == Bare(f'.at[n])
    ensures forall x <- BareAll(a) :: x in BareAll(b)
  {
    forall x | x in BareAll(a) ensures x in BareAll(b) {
      var i :| 0 <= i < |a| && x == Bare(a[i]);
      assert a[i] in a;
      var d := f'.at[a[i].name];
      assert d in b;
      var j :| 0 <= j < |b| && b[j] == d;
      assert BareAll(b)[j] == Bare(d);
    }
  }

  // ---------------------------------------------------------------- when order matters

  lemma CountTwice(s: seq<Rule>, i: nat, j: nat)
    requires i < j < |s| && s[i] == s[j]
    ensures multiset(s)[s[i]] >= 2
  {
    assert s == s[..j] + [s[j]] + s[j + 1..];
    assert s[..j][i] == s[i] && s[i] in multiset(s[..j]);
  }

  lemma CountOnce(s: seq<Rule>, r: Rule)
    requires UniqueNames(s)
    ensures multiset(s)[r] <= 1
  {
    if r in s {
      var p :| 0 <= p < |s| && s[p] == r;
      assert s == s[..p] + [s[p]] + s[p + 1..];
      assert r !in s[..p] && r !in s[p + 1..];
      assert r !in multiset(s[..p]) && r !in multiset(s[p + 1..]);
    }
  }

  lemma PermutationKeepsUnique(rules: seq<Rule>, listed: seq<Rule>)
    requires UniqueNames(rules) && multiset(listed) == multiset(rules)
    ensures UniqueNames(listed)
  {
    SameMembers(rules, listed);
    forall i, j | 0 <= i < j < |listed| ensures listed[i].name != listed[j].name {
      if listed[i] == listed[j] {
        CountTwice(listed, i, j);
        CountOnce(rules, listed[i]);
      } else {
        assert listed[i] in rules && listed[j] in rules;
      }
    }
  }

  lemma ChainsIgnoreOrder(rules: seq<Rule>, listed: seq<Rule>, c: Capture, regex: Regex)
    requires multiset(listed) == multiset(rules)
    ensures ChainsEndBy(listed, DirectNames(listed, c, regex), 2) <==>
            ChainsEndBy(rules, DirectNames(rules, c, regex), 2)
  {
    DirectNamesIgnoreOrder(rules, listed, c, regex);
    ReachIgnoresOrder(rules, listed, DirectNames(rules, c, regex), 2);
    ReachedIgnoresOrder(rules, listed, Reach(rules, DirectNames(rules, c, regex), 2));
  }

  /** Every listing of these rules gives the same report, evidence aside. */
  ghost predicate OrderIrrelevant(rules: seq<Rule>, c: Capture, regex: Regex, less: Less) {
    forall a: seq<Rule>, b: seq<Rule> | multiset(a) == multiset(rules) && multiset(b) == multiset(rules) ::
      BareAll(Detect(a, c, regex, less)) == BareAll(Detect(b, c, regex, less))
  }

  lemma ReportNames(rules: seq<Rule>, c: Capture, regex: Regex, less: Less, x: string)
    requires StrictTotal(less)
    ensures x in Conclude(rules, c, regex).at <==> exists d <- BareAll(Detect(rules, c, regex, less)) :: d.name == x
  {
    hide Detect, StrictlySorted, StrictTotal, BareAll;
    DetectSorted(rules, c, regex, less);
    var f := Conclude(rules, c, regex);
    var ds := Detect(rules, c, regex, less);
    BareNames(ds, x);
    if x in f.at { assert f.at[x].name == x; }
    hide Conclude;
    assert x in f.at <==> exists d <- ds :: d.name == x by {
      if x in f.at { assert f.at[x] in ds; }
    }
  }

  lemma BareNames(ds: seq<Detection>, x: string)
    ensures (exists d <- ds :: d.name == x) <==> exists d <- BareAll(ds) :: d.name == x
  {
    if d :| d in ds && d.name == x {
      var i :| 0 <= i < |ds| && ds[i] == d;
      assert BareAll(ds)[i] in BareAll(ds);
    }
    if d :| d in BareAll(ds) && d.name == x {
      var i :| 0 <= i < |ds| && BareAll(ds)[i] == d;
      assert ds[i] in ds;
    }
  }

  /** For uniquely named rules the order they are listed in is irrelevant if and only if no chain is longer than two. */
  lemma OrderMattersExactly(rules: seq<Rule>, c: Capture, regex: Regex, less: Less)
    requires UniqueNames(rules) && StrictTotal(less)
    ensures OrderIrrelevant(rules, c, regex, less) <==> ChainsEndBy(rules, DirectNames(rules, c, regex), 2)
  {
    var names := DirectNames(rules, c, regex);
    hide Detect, StrictTotal, BareAll, UniqueNames, Conclude, DirectNames;
    if ChainsEndBy(rules, names, 2) {
      forall a: seq<Rule>, b: seq<Rule> | multiset(a) == multiset(rules) && multiset(b) == multiset(rules)
        ensures BareAll(Detect(a, c, regex, less)) == BareAll(Detect(b, c, regex, less))
      {
        PermutationKeepsUnique(rules, a);
        PermutationKeepsUnique(rules, b);
        ChainsIgnoreOrder(rules, a, c, regex);
        OrderDoesNotMatter(a, b, c, regex, less);
      }
    } else {
      LongChainShows(rules, c, regex, less);
    }
  }

  lemma LongChainShows(rules: seq<Rule>, c: Capture, regex: Regex, less: Less)
    requires StrictTotal(less) && !ChainsEndBy(rules, DirectNames(rules, c, regex), 2)
    ensures !OrderIrrelevant(rules, c, regex, less)
  {
    var names := DirectNames(rules, c, regex);
    hide Detect, StrictTotal, BareAll, Conclude, DirectNames, NearFirst, FarFirst;
    var x :| x in Reached(rules, Reach(rules, names, 2)) && x !in Reach(rules, names, 2);
    assert x in Reach(rules, names, 3) by { assert Reach(rules, names, 3) == Reached(rules, Reach(rules, names, 2)); }
    BestOrderFinds(rules, c, regex);
    WorstOrderMisses(rules, c, regex);
    var best, worst := NearFirst(rules, names), FarFirst(rules, Reach(rules, names, 1), names);
    ReportNames(best, c, regex, less, x);
    ReportNames(worst, c, regex, less, x);
    assert BareAll(Detect(best, c, regex, less)) != BareAll(Detect(worst, c, regex, less));
  }
}
