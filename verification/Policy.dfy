/** Release policies (internal/gatemole/policy.go): a recursive condition
    language, first-stop rule evaluation with a sticky block, and the floor
    under every policy. */
module Policy {
  import opened Text
  import opened Contracts

  datatype Condition = Condition(
    fact: string,
    riskAtLeast: string,
    riskBelow: string,
    all: seq<Condition>,
    any: seq<Condition>,
    negated: Option<Condition>)

  datatype Rule = Rule(
    id: string,
    when: Condition,
    decision: string,
    reasons: seq<string>,
    reasonSource: string,
    stop: bool)

  /** The facts a policy can see. */
  datatype Input = Input(
    risk: string,
    canaryEnabled: bool,
    signedEvidenceRequired: bool,
    hasInvalidSpecOrManifest: bool,
    hasInvalidEvidence: bool,
    hasMissingObligations: bool,
    hasBlockingFindings: bool,
    blockingClaims: seq<string>)

  datatype Result = Result(decision: string, rulesFired: seq<string>)

  predicate Fact(name: string, input: Input) {
    match name
    case "always" => true
    case "has_invalid_spec_or_manifest" => input.hasInvalidSpecOrManifest
    case "has_blocking_findings" => input.hasBlockingFindings
    case "no_policy_blockers" => !input.hasInvalidSpecOrManifest && !input.hasBlockingFindings
    case "canary_enabled" => input.canaryEnabled
    case "signed_evidence_required" => input.signedEvidenceRequired
    case "has_invalid_evidence" => input.hasInvalidEvidence
    case "has_missing_obligations" => input.hasMissingObligations
    case _ => false
  }

  /** policyConditionMatches */
  predicate Matches(c: Condition, input: Input) {
    && (c.fact != "" ==> Fact(c.fact, input))
    && (c.riskAtLeast != "" ==> Rank(input.risk) >= Rank(c.riskAtLeast))
    && (c.riskBelow != "" ==> Rank(input.risk) < Rank(c.riskBelow))
    && (forall i :: 0 <= i < |c.all| ==> Matches(c.all[i], input))
    && (c.any != [] ==> exists i :: 0 <= i < |c.any| && Matches(c.any[i], input))
    && (c.negated.Some? ==> !Matches(c.negated.value, input))
  }

  predicate ValidDecision(decision: string) {
    decision in ["block", "human_escalation", "canary", "auto_merge"]
  }

  /** What LoadReleasePolicy guarantees of every policy it returns. */
  predicate ValidRules(rules: seq<Rule>) {
    rules != [] && forall i :: 0 <= i < |rules| ==> ValidDecision(rules[i].decision)
  }

  /** A block rule fires when it matches and no earlier matching rule stops. */
  predicate ReachedBlock(rules: seq<Rule>, input: Input, i: nat)
    requires i < |rules|
  {
    && Matches(rules[i].when, input) && rules[i].decision == "block"
    && forall j :: 0 <= j < i && Matches(rules[j].when, input) ==> !rules[j].stop
  }

  /** The rule a non-blocking evaluation ends with. */
  predicate LastWord(rules: seq<Rule>, input: Input, i: nat)
    requires i < |rules|
  {
    && Matches(rules[i].when, input)
    && (forall j :: 0 <= j < i && Matches(rules[j].when, input) ==> !rules[j].stop)
    && (rules[i].stop || forall j :: i < j < |rules| ==> !Matches(rules[j].when, input))
  }

  predicate Decides(rules: seq<Rule>, input: Input, decision: string) {
    exists i: nat :: i < |rules| && LastWord(rules, input, i) && decision == rules[i].decision
  }

  /** The rules that fire from i on: matching ones, up to the first that stops;
      once blocked, other decisions are passed over and do not stop. */
  function FiredFrom(rules: seq<Rule>, input: Input, i: nat, blocked: bool): seq<string>
    requires i <= |rules|
    decreases |rules| - i
  {
    if i == |rules| then []
    else
      var rule := rules[i];
      if !Matches(rule.when, input) || (blocked && rule.decision != "block") then
        FiredFrom(rules, input, i + 1, blocked)
      else [rule.id] + if rule.stop then [] else FiredFrom(rules, input, i + 1, rule.decision == "block")
  }

  predicate BlockReached(rules: seq<Rule>, input: Input) {
    exists i: nat :: i < |rules| && ReachedBlock(rules, input, i)
  }

  /** EvaluateReleasePolicy. It blocks exactly when a block rule is reached or
      no rule matches; otherwise the last rule reached decides. */
  method EvaluateReleasePolicy(rules: seq<Rule>, input: Input) returns (result: Result)
    requires ValidRules(rules)
    ensures result.decision == "block" <==>
              BlockReached(rules, input) || forall i :: 0 <= i < |rules| ==> !Matches(rules[i].when, input)
    ensures result.decision != "block" ==> Decides(rules, input, result.decision)
    ensures ValidDecision(result.decision)
    ensures result.rulesFired == if FiredFrom(rules, input, 0, false) == [] then ["policy_no_match"]
                                 else FiredFrom(rules, input, 0, false)
  {
    hide Matches, ValidDecision;
    var decision, fired := "", [];
    ghost var last := 0;
    for i := 0 to |rules|
      invariant forall j :: 0 <= j < i && Matches(rules[j].when, input) ==>
                  !rules[j].stop || (rules[j].decision != "block" && decision == "block")
      invariant decision == "" <==> forall j :: 0 <= j < i ==> !Matches(rules[j].when, input)
      invariant decision == "block" <==> exists j: nat :: j < i && ReachedBlock(rules, input, j)
      invariant decision != "" && decision != "block" ==>
                  && last < i && Matches(rules[last].when, input) && rules[last].decision == decision
                  && forall j :: last < j < i ==> !Matches(rules[j].when, input)
      invariant decision != "block" ==>
                  forall j :: 0 <= j < i && Matches(rules[j].when, input) ==> rules[j].decision != "block"
      invariant fired + FiredFrom(rules, input, i, decision == "block") == FiredFrom(rules, input, 0, false)
      invariant if decision == "" then fired == [] else fired != [] && ValidDecision(decision)
    {
      assert ValidDecision(rules[i].decision);
      ValidIsNamed(rules[i].decision);
      if !Matches(rules[i].when, input) { continue; }
      if decision == "block" && rules[i].decision != "block" { continue; }
      if rules[i].decision == "block" && decision != "block" {
        assert ReachedBlock(rules, input, i);
      }
      decision := rules[i].decision;
      last := i;
      fired := fired + [rules[i].id];
      if rules[i].stop {
        StoppedAt(rules, input, i, decision);
        return Result(decision, fired);
      }
    }
    if decision == "" {
      decision := "block";
      fired := fired + ["policy_no_match"];
      assert ValidDecision("block") by { BlockIsValid(); }
    }
    return Result(decision, fired);
  }

  /** The rule that fires first is the first that matches; none fires exactly when
      none matches. */
  lemma {:induction false} FirstFires(rules: seq<Rule>, input: Input, i: nat)
    requires i <= |rules|
    ensures FiredFrom(rules, input, i, false) == [] <==> forall j :: i <= j < |rules| ==> !Matches(rules[j].when, input)
    ensures forall k :: i <= k < |rules| && Matches(rules[k].when, input)
                        && (forall j :: i <= j < k ==> !Matches(rules[j].when, input)) ==>
              FiredFrom(rules, input, i, false)[0] == rules[k].id
    decreases |rules| - i
  {
    hide Matches;
    if i < |rules| && !Matches(rules[i].when, input) { FirstFires(rules, input, i + 1); }
  }

  lemma BlockIsValid()
    ensures ValidDecision("block")
  {
  }

  lemma ValidIsNamed(decision: string)
    requires ValidDecision(decision)
    ensures decision != ""
  {
  }

  lemma StoppedAt(rules: seq<Rule>, input: Input, i: nat, decision: string)
    requires i < |rules| && Matches(rules[i].when, input) && rules[i].stop && decision == rules[i].decision
    requires decision == "block" ==> BlockReached(rules, input)
    requires decision != "block" ==>
               forall j :: 0 <= j < i && Matches(rules[j].when, input) ==> !rules[j].stop && rules[j].decision != "block"
    ensures decision == "block" <==> BlockReached(rules, input)
    ensures decision != "block" ==> LastWord(rules, input, i)
  {
    hide Matches;
  }

  /** enforcePolicyFloor */
  method EnforcePolicyFloor(input: Input, result: Result) returns (final: Result)
    ensures final.decision == if input.hasInvalidSpecOrManifest || input.hasBlockingFindings then "block"
                              else result.decision
    ensures final != result ==> final.rulesFired == result.rulesFired + ["policy_floor_block"]
    ensures final != result <==>
              (input.hasInvalidSpecOrManifest || input.hasBlockingFindings) && result.decision != "block"
  {
    if !input.hasInvalidSpecOrManifest && !input.hasBlockingFindings { return result; }
    if result.decision == "block" { return result; }
    return Result("block", result.rulesFired + ["policy_floor_block"]);
  }

  // ---- the built-in policy ------------------------------------------------------------

  function Plain(fact: string): Condition { Condition(fact, "", "", [], [], None) }

  function DefaultReleasePolicy(): seq<Rule> {
    var clear, canary := Plain("no_policy_blockers"), Plain("canary_enabled");
    var high, below := Condition("", "high", "", [], [], None), Condition("", "", "high", [], [], None);
    var noCanary := Condition("", "", "", [], [], Some(canary));
    [ Rule("block_invalid_spec_or_manifest", Plain("has_invalid_spec_or_manifest"), "block",
           ["invalid specs or manifest"], "", true),
      Rule("block_verifier_findings", Plain("has_blocking_findings"), "block",
           [], "blocking_finding_claims", true),
      Rule("high_risk_canary", Condition("", "", "", [clear, high, canary], [], None), "canary",
           ["high-risk change has passing evidence and canary enabled"], "", true),
      Rule("high_risk_without_canary", Condition("", "", "", [clear, high, noCanary], [], None), "human_escalation",
           ["high-risk change passed checks but has no canary"], "", true),
      Rule("low_medium_auto_merge", Condition("", "", "", [clear, below], [], None), "auto_merge",
           ["low/medium risk change passed required evidence"], "", true) ]
  }

  /** Exactly one built-in rule matches first, so the built-in policy is a table. */
  function DefaultTable(input: Input): string {
    if input.hasInvalidSpecOrManifest || input.hasBlockingFindings then "block"
    else if input.risk != "high" && input.risk != "critical" then "auto_merge"
    else if input.canaryEnabled then "canary" else "human_escalation"
  }

  /** The order of the four risks, name by name. */
  lemma RiskOrder(input: Input, c: Condition)
    requires c.fact == "" && c.all == [] && c.any == [] && c.negated.None? && ValidRisk(input.risk)
    requires c.riskAtLeast in ["", "low", "medium", "high", "critical"]
    requires c.riskBelow in ["", "low", "medium", "high", "critical"]
    ensures Matches(c, input) <==>
            && (c.riskAtLeast == "medium" ==> input.risk in ["medium", "high", "critical"])
            && (c.riskAtLeast == "high" ==> input.risk in ["high", "critical"])
            && (c.riskAtLeast == "critical" ==> input.risk == "critical")
            && c.riskBelow != "low"
            && (c.riskBelow == "medium" ==> input.risk == "low")
            && (c.riskBelow == "high" ==> input.risk in ["low", "medium"])
            && (c.riskBelow == "critical" ==> input.risk in ["low", "medium", "high"])
  {
  }

  /** Every named fact reads its own field, and an unknown one never holds. */
  lemma FactMatches(input: Input, fact: string)
    ensures var holds := Matches(Plain(fact), input);
            && (fact in ["", "always"] ==> holds)
            && (fact == "has_invalid_spec_or_manifest" ==> holds == input.hasInvalidSpecOrManifest)
            && (fact == "has_blocking_findings" ==> holds == input.hasBlockingFindings)
            && (fact == "no_policy_blockers" ==> holds == !(input.hasInvalidSpecOrManifest || input.hasBlockingFindings))
            && (fact == "canary_enabled" ==> holds == input.canaryEnabled)
            && (fact == "signed_evidence_required" ==> holds == input.signedEvidenceRequired)
            && (fact == "has_invalid_evidence" ==> holds == input.hasInvalidEvidence)
            && (fact == "has_missing_obligations" ==> holds == input.hasMissingObligations)
            && (holds ==> fact in ["", "always", "has_invalid_spec_or_manifest", "has_blocking_findings", "no_policy_blockers",
                                   "canary_enabled", "signed_evidence_required", "has_invalid_evidence",
                                   "has_missing_obligations"])
  {
  }

  /** A condition is the conjunction of its own part, its All, its Any and its Not. */
  lemma Connectives(input: Input, c: Condition)
    ensures Matches(c, input) <==>
            && Matches(Condition(c.fact, c.riskAtLeast, c.riskBelow, [], [], None), input)
            && (forall part <- c.all :: Matches(part, input))
            && (c.any == [] || exists part <- c.any :: Matches(part, input))
            && (c.negated == None || !Matches(c.negated.value, input))
  {
    hide Fact, Rank;
    if forall part <- c.all :: Matches(part, input) {
      assert forall i :: 0 <= i < |c.all| ==> c.all[i] in c.all;
    }
    if i :| 0 <= i < |c.any| && Matches(c.any[i], input) { assert c.any[i] in c.any; }
  }

  lemma RiskMatches(input: Input, high: Condition, below: Condition)
    requires high == Condition("", "high", "", [], [], None) && below == Condition("", "", "high", [], [], None)
    ensures Matches(high, input) == (input.risk == "high" || input.risk == "critical")
    ensures Matches(below, input) == !Matches(high, input)
  {
  }

  lemma LeafMatches(input: Input, fact: string)
    requires fact != ""
    ensures Matches(Plain(fact), input) == Fact(fact, input)
  {
  }

  lemma AllOfThree(input: Input, a: Condition, b: Condition, c: Condition)
    ensures Matches(Condition("", "", "", [a, b, c], [], None), input)
        <==> Matches(a, input) && Matches(b, input) && Matches(c, input)
  {
    var all := [a, b, c];
    assert all[0] == a && all[1] == b && all[2] == c;
  }

  lemma AllOfTwo(input: Input, a: Condition, b: Condition)
    ensures Matches(Condition("", "", "", [a, b], [], None), input) <==> Matches(a, input) && Matches(b, input)
  {
    var all := [a, b];
    assert all[0] == a && all[1] == b;
  }

  lemma DefaultRuleMatches(input: Input)
    ensures var rules := DefaultReleasePolicy();
            && Matches(rules[0].when, input) == input.hasInvalidSpecOrManifest
            && Matches(rules[1].when, input) == input.hasBlockingFindings
            && Matches(rules[2].when, input) == (DefaultTable(input) == "canary")
            && Matches(rules[3].when, input) == (DefaultTable(input) == "human_escalation")
            && Matches(rules[4].when, input) == (DefaultTable(input) == "auto_merge")
  {
    var clear, canary := Plain("no_policy_blockers"), Plain("canary_enabled");
    var high, below := Condition("", "high", "", [], [], None), Condition("", "", "high", [], [], None);
    var noCanary := Condition("", "", "", [], [], Some(canary));
    LeafMatches(input, "has_invalid_spec_or_manifest");
    LeafMatches(input, "has_blocking_findings");
    LeafMatches(input, "no_policy_blockers");
    LeafMatches(input, "canary_enabled");
    RiskMatches(input, high, below);
    assert Matches(noCanary, input) == !Matches(canary, input);
    AllOfThree(input, clear, high, canary);
    AllOfThree(input, clear, high, noCanary);
    AllOfTwo(input, clear, below);
  }

  method EvaluateDefault(input: Input) returns (result: Result)
    ensures result.decision == DefaultTable(input)
  {
    hide Matches, Rank, ValidDecision;
    DefaultRuleMatches(input);
    var rules := DefaultReleasePolicy();
    DefaultIsValid();
    result := EvaluateReleasePolicy(rules, input);
    if input.hasInvalidSpecOrManifest {
      assert ReachedBlock(rules, input, 0);
    } else if input.hasBlockingFindings {
      assert ReachedBlock(rules, input, 1);
    } else {
      assert forall i: nat :: i < |rules| ==> !ReachedBlock(rules, input, i);
      assert Matches(rules[2].when, input) || Matches(rules[3].when, input) || Matches(rules[4].when, input);
    }
  }

  lemma DefaultIsValid()
    ensures ValidRules(DefaultReleasePolicy())
  {
    var rules := DefaultReleasePolicy();
    forall i | 0 <= i < |rules| ensures ValidDecision(rules[i].decision) {}
  }
}
