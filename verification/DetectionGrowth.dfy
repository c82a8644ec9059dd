/** More evidence never hurts: enlarging what a scan captured keeps every detection. */
module DetectionGrowth {
  import opened Options
  import opened Signals
  import opened Detector
  import opened ImpliedNames
  import opened Provenance
  import opened RuleMerging
  import DetectionOrder

  predicate Within(a: seq<string>, b: seq<string>) {
    forall x <- a :: x in b
  }

  /** The same document, with more URLs, cookies, globals, workers, DNS answers or headers. */
  predicate Extends(c: Capture, c': Capture) {
    c'.(headers := c.headers, assetUrls := c.assetUrls, requestUrls := c.requestUrls, globals := c.globals,
        cookies := c.cookies, serviceWorkers := c.serviceWorkers, dns := c.dns) == c &&
    (forall h <- c.headers :: h in c'.headers && c'.headers[h] == c.headers[h]) &&
    Within(c.assetUrls, c'.assetUrls) && Within(c.requestUrls, c'.requestUrls) &&
    Within(c.globals, c'.globals) && Within(c.cookies, c'.cookies) &&
    Within(OrNone(c.serviceWorkers), OrNone(c'.serviceWorkers)) && Within(OrNone(c.dns), OrNone(c'.dns))
  }

  lemma HaystacksGrow(s: Signal, c: Capture, c': Capture)
    requires Extends(c, c')
    ensures Within(Haystacks(s, c), Haystacks(s, c'))
  {}

  lemma MatchesGrow(s: Signal, c: Capture, c': Capture, regex: Regex)
    requires Extends(c, c') && Matches(s, c, regex)
    ensures Matches(s, c', regex)
  {
    HaystacksGrow(s, c, c');
    hide Haystacks;
  }

  lemma RuleGrows(r: Rule, c: Capture, c': Capture, regex: Regex)
    requires Extends(c, c') && Fires(r, c, regex)
    ensures Fires(r, c', regex) && RunRule(r, c, regex).value.confidence <= RunRule(r, c', regex).value.confidence
  {
    RunRuleMeans(r, c, regex);
    RunRuleMeans(r, c', regex);
    hide RunRule, Extends;
    var s :| s in r.signals && Matches(s, c, regex) && s.confidence == RunRule(r, c, regex).value.confidence;
    MatchesGrow(s, c, c', regex);
  }

  lemma {:induction false} PassGrows(f: Found, f': Found, rules: seq<Rule>, n: nat)
    requires n <= |rules| && f.at.Keys <= f'.at.Keys
    ensures Pass(f, rules, n).at.Keys <= Pass(f', rules, n).at.Keys
  {
    if n > 0 {
      PassGrows(f, f', rules, n - 1);
      ImplyRuleFinds(Pass(f, rules, n - 1), rules, rules[n - 1]);
      ImplyRuleFinds(Pass(f', rules, n - 1), rules, rules[n - 1]);
    }
  }

  lemma {:induction false} PassesGrow(f: Found, f': Found, rules: seq<Rule>, times: nat)
    requires f.at.Keys <= f'.at.Keys
    ensures Passes(f, rules, times).at.Keys <= Passes(f', rules, times).at.Keys
  {
    if times > 0 {
      PassesGrow(f, f', rules, times - 1);
      PassGrows(Passes(f, rules, times - 1), Passes(f', rules, times - 1), rules, |rules|);
    }
  }

  /** No detected name disappears. */
  lemma NamesGrow(rules: seq<Rule>, c: Capture, c': Capture, regex: Regex)
    requires Extends(c, c')
    ensures Conclude(rules, c, regex).at.Keys <= Conclude(rules, c', regex).at.Keys
  {
    DirectFinds(rules, c, regex);
    DirectFinds(rules, c', regex);
    forall n | n in DirectNames(rules, c, regex) ensures n in DirectNames(rules, c', regex) {
      var r :| r in rules && Fires(r, c, regex) && r.name == n;
      RuleGrows(r, c, c', regex);
    }
    PassesGrow(Direct(rules, c, regex, |rules|), Direct(rules, c', regex, |rules|), rules, PASSES);
  }

  /** A directly detected technology stays directly detected and never loses confidence. */
  lemma DirectConfidenceGrows(rules: seq<Rule>, c: Capture, c': Capture, regex: Regex, name: string)
    requires Extends(c, c') && UniqueNames(rules) && name in DirectFindings(rules, c, regex).at
    ensures name in DirectFindings(rules, c', regex).at
    ensures name in Conclude(rules, c, regex).at && name in Conclude(rules, c', regex).at
    ensures Conclude(rules, c, regex).at[name].confidence <= Conclude(rules, c', regex).at[name].confidence
  {
    DirectFinds(rules, c, regex);
    assert name in DirectNames(rules, c, regex);
    var r :| r in rules && Fires(r, c, regex) && r.name == name;
    RuleGrows(r, c, c', regex);
    DetectionOrder.DirectFinding(rules, c, regex, r);
    DetectionOrder.DirectFinding(rules, c', regex, r);
    hide RunRule, Conclude, DirectFindings;
    DirectEvidenceWins(rules, c, regex, name);
    DirectEvidenceWins(rules, c', regex, name);
  }
}
