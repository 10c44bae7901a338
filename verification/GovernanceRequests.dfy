/** What requesting more permissions can do to a decision: never without a policy, and with
    one exactly when the extra permissions move the risk across an approval rule. */
module GovernanceRequests {

  import opened Wrappers
  import opened Governance

  predicate Within(ps: seq<Permission>, qs: seq<Permission>) { forall p :: p in ps ==> p in qs }

  function Flag(q: Request): bool { Rule(q).Some? && Rule(q).value.approvalRequired }

  /** The risk of a request, read off the first risk rule that matches, or off the scopes. */
  ghost predicate RiskIs(q: Request, r: Risk) {
    || (q.policy.Some? && exists i :: FirstRiskMatch(q.policy.value.risks, q.targetType, q.target, Combined(q), i)
                                      && q.policy.value.risks[i].risk == r)
    || ((q.policy.Some? ==> forall j :: 0 <= j < |q.policy.value.risks| ==>
                              !RiskRuleMatches(q.policy.value.risks[j], q.targetType, q.target, Combined(q)))
        && r == ScopeRisk(Combined(q), Flag(q), if q.policy.Some? then q.policy.value.defaultRisk else Low))
  }

  /** At this risk the first approval rule that matches, or else the target's own rule, asks. */
  ghost predicate Asks(policy: Policy, targetType: TargetType, target: string, risk: Risk, flag: bool) {
    || (exists i :: FirstMatch(policy.approvals, targetType, target, risk, i) && policy.approvals[i].require)
    || ((forall j :: 0 <= j < |policy.approvals| ==> !ApprovalRuleMatches(policy.approvals[j], targetType, target, risk)) && flag)
  }

  lemma {:induction false} SomeFirstRisk(rules: seq<RiskRule>, targetType: TargetType, target: string, ps: seq<Permission>)
    ensures (exists i :: FirstRiskMatch(rules, targetType, target, ps, i))
            || forall j :: 0 <= j < |rules| ==> !RiskRuleMatches(rules[j], targetType, target, ps)
  {
    hide RiskRuleMatches;
    if rules != [] {
      if RiskRuleMatches(rules[0], targetType, target, ps) {
        assert FirstRiskMatch(rules, targetType, target, ps, 0);
      } else {
        SomeFirstRisk(rules[1..], targetType, target, ps);
        if i :| FirstRiskMatch(rules[1..], targetType, target, ps, i) {
          assert FirstRiskMatch(rules, targetType, target, ps, i + 1);
        } else {
          assert forall j :: 0 < j < |rules| ==> rules[j] == rules[1..][j - 1];
        }
      }
    }
  }

  lemma RiskIsExactly(q: Request, r: Risk)
    ensures RiskIs(q, r) <==> RiskOf(q) == r
  {
    hide ScopeRisk;
    hide RiskRuleMatches;
    hide Combined;
    if q.policy.Some? {
      var rules, ps := q.policy.value.risks, Combined(q);
      SomeFirstRisk(rules, q.targetType, q.target, ps);
      forall i
        ensures FirstRiskMatch(rules, q.targetType, q.target, ps, i) ==> FirstRisk(rules, q.targetType, q.target, ps) == Some(rules[i].risk)
      {
        FirstRiskExactly(rules, q.targetType, q.target, ps, i);
      }
      FirstRiskExactly(rules, q.targetType, q.target, ps, 0);
    }
  }

  lemma AsksExactly(policy: Policy, targetType: TargetType, target: string, risk: Risk, flag: bool)
    ensures Asks(policy, targetType, target, risk, flag) <==> Required(Some(policy), targetType, target, risk, Some(flag))
  {
    hide ApprovalRuleMatches;
    FirstApprovalExactly(policy.approvals, targetType, target, risk);
    forall i
      ensures FirstMatch(policy.approvals, targetType, target, risk, i) ==>
                (Required(Some(policy), targetType, target, risk, Some(flag)) <==> policy.approvals[i].require)
    {
      ApprovalPrecedence(Some(policy), targetType, target, risk, Some(flag), i);
    }
  }

  // ---------------------------------------------------------------- what more permissions change

  lemma CombinedExactly(q: Request)
    ensures forall p :: p in Combined(q) <==> p in q.declared || p in q.requested
  {
  }

  /** The grant does not depend on what is requested. */
  lemma GrantExactly(q: Request)
    ensures forall p :: p in Granted(q) <==> if Rule(q).Some? && !q.fromDeclared then p in Rule(q).value.permissions else p in q.declared
  {
  }

  lemma MissingExactly(q: Request)
    ensures Missing(q) <==> exists p :: (p in q.declared || p in q.requested) && p !in Granted(q)
  {
    CombinedExactly(q);
    hide Combined;
    hide Granted;
  }

  lemma MissingStays(q: Request, more: seq<Permission>)
    requires Within(q.requested, more) && Missing(q)
    ensures Missing(q.(requested := more))
  {
    var q' := q.(requested := more);
    MissingExactly(q);
    MissingExactly(q');
    GrantExactly(q);
    GrantExactly(q');
    hide Missing;
    hide Granted;
    var p :| (p in q.declared || p in q.requested) && p !in Granted(q);
    assert (p in q'.declared || p in q'.requested) && p !in Granted(q');
  }

  lemma OnlyAskToAllow(q: Request, more: seq<Permission>)
    requires Within(q.requested, more)
    ensures var q' := q.(requested := more);
            Severity(Evaluate(q')) < Severity(Evaluate(q))
            <==> q.permit.None? && !Missing(q') && NeedsApproval(q) && !NeedsApproval(q')
  {
    if Missing(q) { MissingStays(q, more); }
    hide Missing;
    hide NeedsApproval;
    hide Valid;
  }

  lemma DenyStays(q: Request, more: seq<Permission>)
    requires Within(q.requested, more)
    ensures Evaluate(q) == Deny ==> Evaluate(q.(requested := more)) == Deny
    ensures Evaluate(q) == Allow ==> Severity(Evaluate(q)) <= Severity(Evaluate(q.(requested := more)))
  {
    if Missing(q) { MissingStays(q, more); }
    hide Missing;
    hide NeedsApproval;
  }

  lemma SameAny(ps: seq<Permission>, qs: seq<Permission>, scopes: seq<Permission>)
    requires Within(ps, qs) && Within(qs, ps)
    ensures Any(ps, scopes) <==> Any(qs, scopes)
  {
    if Any(ps, scopes) { var p :| p in ps && p in scopes; assert p in qs && p in scopes; }
    if Any(qs, scopes) { var p :| p in qs && p in scopes; assert p in ps && p in scopes; }
  }

  lemma {:induction false} SameFirstRisk(rules: seq<RiskRule>, targetType: TargetType, target: string, ps: seq<Permission>, qs: seq<Permission>)
    requires Within(ps, qs) && Within(qs, ps)
    ensures FirstRisk(rules, targetType, target, ps) == FirstRisk(rules, targetType, target, qs)
  {
    hide Any;
    hide Within;
    if rules != [] {
      SameAny(ps, qs, rules[0].scopes);
      SameFirstRisk(rules[1..], targetType, target, ps, qs);
    }
  }

  /** Risk depends on which permissions there are and not on their order. */
  lemma SameClassify(policy: Option<Policy>, targetType: TargetType, target: string, ps: seq<Permission>, qs: seq<Permission>, flag: bool)
    requires Within(ps, qs) && Within(qs, ps)
    ensures Classify(policy, targetType, target, ps, flag) == Classify(policy, targetType, target, qs, flag)
  {
    if policy.Some? { SameFirstRisk(policy.value.risks, targetType, target, ps, qs); }
    hide FirstRisk;
    SameAny(ps, qs, [Admin, Delete]);
    SameAny(ps, qs, [Execute, Network]);
    SameAny(ps, qs, [Write, Modify]);
    hide Any;
  }

  /** Where the grant is what is declared, more of what is granted changes nothing. */
  lemma DeclaredGrantChangesNothing(q: Request, more: seq<Permission>)
    requires Within(q.requested, more) && (Rule(q).None? || q.fromDeclared) && !Missing(q.(requested := more))
    ensures NeedsApproval(q) <==> NeedsApproval(q.(requested := more))
  {
    var q' := q.(requested := more);
    MissingExactly(q');
    GrantExactly(q');
    CombinedExactly(q);
    CombinedExactly(q');
    hide Missing;
    hide Granted;
    hide Combined;
    assert Within(Combined(q), Combined(q')) && Within(Combined(q'), Combined(q));
    SameClassify(q.policy, q.targetType, q.target, Combined(q), Combined(q'), Flag(q));
    hide Classify;
    hide Required;
    hide RuleFor;
    assert RiskOf(q) == RiskOf(q');
  }

  lemma NeedsExactly(q: Request)
    requires q.policy.Some? && Rule(q).Some?
    ensures NeedsApproval(q) <==> Required(q.policy, q.targetType, q.target, RiskOf(q), Some(Flag(q)))
  {
    hide Required;
    hide RiskOf;
  }

  /** Requesting more moves the decision toward ALLOW if and only if there is no permit, a
      rule of the policy grants everything declared and requested, and the approval rules ask
      at the risk of the smaller request and not at the risk of the larger one; the risk of
      each is its first matching risk rule's, or that of its scopes. */
  lemma HelpsExactly(q: Request, more: seq<Permission>)
    requires Within(q.requested, more)
    ensures var q' := q.(requested := more);
            Severity(Evaluate(q')) < Severity(Evaluate(q))
            <==> && q.permit.None? && q.policy.Some? && Rule(q).Some? && !q.fromDeclared
                 && Within(q.declared, Rule(q).value.permissions) && Within(more, Rule(q).value.permissions)
                 && exists r, r' :: RiskIs(q, r) && RiskIs(q', r')
                      && Asks(q.policy.value, q.targetType, q.target, r, Flag(q))
                      && !Asks(q.policy.value, q.targetType, q.target, r', Flag(q))
    ensures var q' := q.(requested := more);
            && (Severity(Evaluate(q')) < Severity(Evaluate(q)) <==> Evaluate(q) == AskUser && Evaluate(q') == Allow)
            && (Evaluate(q) == Deny ==> Evaluate(q') == Deny)
  {
    var q' := q.(requested := more);
    hide Asks;
    hide RiskIs;
    hide Missing;
    hide NeedsApproval;
    hide RiskOf;
    hide Granted;
    hide Evaluate;
    hide Required;
    OnlyAskToAllow(q, more);
    DenyStays(q, more);
    MissingExactly(q');
    GrantExactly(q');
    hide RuleFor;
    if !Missing(q') && (Rule(q).None? || q.fromDeclared) { DeclaredGrantChangesNothing(q, more); }
    forall r
      ensures (RiskIs(q, r) <==> RiskOf(q) == r) && (RiskIs(q', r) <==> RiskOf(q') == r)
    {
      RiskIsExactly(q, r);
      RiskIsExactly(q', r);
    }
    NoPolicyNoRule(q);
    if q.policy.Some? && Rule(q).Some? {
      NeedsExactly(q);
      NeedsExactly(q');
      AsksExactly(q.policy.value, q.targetType, q.target, RiskOf(q), Flag(q));
      AsksExactly(q.policy.value, q.targetType, q.target, RiskOf(q'), Flag(q));
    }
  }

  lemma NoPolicyNoRule(q: Request)
    ensures q.policy.None? ==> Rule(q).None?
  {
  }

  // ---------------------------------------------------------------- policies that never reward asking for more

  predicate RiskConcerns(rule: RiskRule, targetType: TargetType, target: string) {
    Concerns(rule.target, rule.targetType, targetType, target)
  }

  predicate ApprovalConcerns(rule: ApprovalRule, targetType: TargetType, target: string) {
    Concerns(rule.target, rule.targetType, targetType, target)
  }

  /** No approval rule for the target looks at the risk. */
  predicate NoThreshold(policy: Policy, targetType: TargetType, target: string) {
    forall i :: 0 <= i < |policy.approvals| && ApprovalConcerns(policy.approvals[i], targetType, target) ==>
      policy.approvals[i].riskAtLeast.None?
  }

  /** Approval rules for the target that look at the risk only ever ask. */
  predicate OnlyTightens(policy: Policy, targetType: TargetType, target: string) {
    forall i :: 0 <= i < |policy.approvals| && ApprovalConcerns(policy.approvals[i], targetType, target) ==>
      policy.approvals[i].riskAtLeast.Some? ==> policy.approvals[i].require
  }

  /** No risk rule for the target looks at scopes, and when the scopes decide the default is
      no higher than what writing counts as. */
  predicate RiskGrows(policy: Policy, targetType: TargetType, target: string, flag: bool) {
    && (forall i :: 0 <= i < |policy.risks| && RiskConcerns(policy.risks[i], targetType, target) ==> policy.risks[i].scopes == [])
    && ((exists i :: 0 <= i < |policy.risks| && RiskConcerns(policy.risks[i], targetType, target))
        || flag || Rank(policy.defaultRisk) <= Rank(Medium))
  }

  /** Conditions that can be read off the policy, the absence of one included. */
  predicate NeverRewards(policy: Option<Policy>, targetType: TargetType, target: string, fromDeclared: bool) {
    var rule := RuleFor(policy, targetType, target);
    policy.None? || rule.None? || fromDeclared
    || NoThreshold(policy.value, targetType, target)
    || (OnlyTightens(policy.value, targetType, target)
        && RiskGrows(policy.value, targetType, target, rule.value.approvalRequired))
  }

  lemma {:induction false} SameApproval(rules: seq<ApprovalRule>, targetType: TargetType, target: string, r: Risk, r': Risk)
    requires forall i :: 0 <= i < |rules| && ApprovalConcerns(rules[i], targetType, target) ==> rules[i].riskAtLeast.None?
    ensures FirstApproval(rules, targetType, target, r) == FirstApproval(rules, targetType, target, r')
  {
    hide Concerns;
    if rules != [] {
      assert forall i :: 0 < i < |rules| ==> rules[i] == rules[1..][i - 1];
      SameApproval(rules[1..], targetType, target, r, r');
    }
  }

  /** The decision of the approval rules, `flag` when none matches. */
  function Decided(rules: seq<ApprovalRule>, targetType: TargetType, target: string, risk: Risk, flag: bool): bool {
    var a := FirstApproval(rules, targetType, target, risk);
    if a.Some? then a.value else flag
  }

  lemma {:induction false} HigherRiskTightens(rules: seq<ApprovalRule>, targetType: TargetType, target: string, r: Risk, r': Risk, flag: bool)
    requires forall i :: 0 <= i < |rules| && ApprovalConcerns(rules[i], targetType, target) ==>
               rules[i].riskAtLeast.Some? ==> rules[i].require
    requires Rank(r) <= Rank(r') && Decided(rules, targetType, target, r, flag)
    ensures Decided(rules, targetType, target, r', flag)
  {
    hide Concerns;
    hide Rank;
    if rules != [] {
      assert forall i :: 0 < i < |rules| ==> rules[i] == rules[1..][i - 1];
      var rule := rules[0];
      if !ApprovalRuleMatches(rule, targetType, target, r) {
        HigherRiskTightens(rules[1..], targetType, target, r, r', flag);
      }
    }
  }

  lemma AnyMonotone(ps: seq<Permission>, more: seq<Permission>, qs: seq<Permission>)
    requires Within(ps, more)
    ensures Any(ps, qs) ==> Any(more, qs)
  {
    if Any(ps, qs) {
      var p :| p in ps && p in qs;
      assert p in more && p in qs;
    }
  }

  lemma ScopeRiskGrows(ps: seq<Permission>, more: seq<Permission>, flag: bool, fallback: Risk)
    requires Within(ps, more) && (flag || Rank(fallback) <= Rank(Medium))
    ensures Rank(ScopeRisk(ps, flag, fallback)) <= Rank(ScopeRisk(more, flag, fallback))
  {
    AnyMonotone(ps, more, [Admin, Delete]);
    AnyMonotone(ps, more, [Execute, Network]);
    AnyMonotone(ps, more, [Write, Modify]);
    hide Any;
  }

  lemma {:induction false} UnscopedRisk(rules: seq<RiskRule>, targetType: TargetType, target: string, ps: seq<Permission>, qs: seq<Permission>)
    requires forall i :: 0 <= i < |rules| && RiskConcerns(rules[i], targetType, target) ==> rules[i].scopes == []
    ensures FirstRisk(rules, targetType, target, ps) == FirstRisk(rules, targetType, target, qs)
    ensures FirstRisk(rules, targetType, target, ps).Some? <==> exists i :: 0 <= i < |rules| && RiskConcerns(rules[i], targetType, target)
  {
    hide Concerns;
    hide Any;
    if rules != [] {
      assert forall i :: 0 < i < |rules| ==> rules[i] == rules[1..][i - 1];
      UnscopedRisk(rules[1..], targetType, target, ps, qs);
      if FirstRisk(rules[1..], targetType, target, ps).Some? {
        var i :| 0 <= i < |rules[1..]| && RiskConcerns(rules[1..][i], targetType, target);
        assert RiskConcerns(rules[i + 1], targetType, target);
      }
    }
  }

  lemma RiskOnlyGrows(policy: Policy, targetType: TargetType, target: string, ps: seq<Permission>, more: seq<Permission>, flag: bool)
    requires Within(ps, more) && RiskGrows(policy, targetType, target, flag)
    ensures Rank(Classify(Some(policy), targetType, target, ps, flag)) <= Rank(Classify(Some(policy), targetType, target, more, flag))
  {
    UnscopedRisk(policy.risks, targetType, target, ps, more);
    hide FirstRisk;
    hide Concerns;
    hide ScopeRisk;
    if FirstRisk(policy.risks, targetType, target, ps).None? { ScopeRiskGrows(ps, more, flag, policy.defaultRisk); }
  }

  predicate NeedFor(policy: Policy, targetType: TargetType, target: string, ps: seq<Permission>, flag: bool) {
    Required(Some(policy), targetType, target, Classify(Some(policy), targetType, target, ps, flag), Some(flag))
  }

  /** For a safe policy the need for approval only grows with the permissions. */
  lemma NeedOnlyGrows(policy: Policy, targetType: TargetType, target: string, ps: seq<Permission>, more: seq<Permission>, flag: bool)
    requires Within(ps, more)
    requires NoThreshold(policy, targetType, target)
             || (OnlyTightens(policy, targetType, target) && RiskGrows(policy, targetType, target, flag))
    requires NeedFor(policy, targetType, target, ps, flag)
    ensures NeedFor(policy, targetType, target, more, flag)
  {
    var r, r' := Classify(Some(policy), targetType, target, ps, flag), Classify(Some(policy), targetType, target, more, flag);
    hide Classify;
    hide FirstApproval;
    hide Concerns;
    if NoThreshold(policy, targetType, target) {
      SameApproval(policy.approvals, targetType, target, r, r');
    } else {
      RiskOnlyGrows(policy, targetType, target, ps, more, flag);
      HigherRiskTightens(policy.approvals, targetType, target, r, r', flag);
    }
  }

  /** With no policy, with none of its rules for the target, or with one that meets the
      conditions, requesting more never moves the decision toward ALLOW. */
  lemma RequestingMoreNeverHelps(q: Request, more: seq<Permission>)
    requires Within(q.requested, more) && NeverRewards(q.policy, q.targetType, q.target, q.fromDeclared)
    ensures Severity(Evaluate(q)) <= Severity(Evaluate(q.(requested := more)))
    ensures Evaluate(q) == Deny ==> Evaluate(q.(requested := more)) == Deny
    ensures Evaluate(q) == AskUser ==> Evaluate(q.(requested := more)) != Allow
  {
    DenyStays(q, more);
    hide Evaluate;
    hide Missing;
    hide NeedsApproval;
    hide RuleFor;
    hide Required;
    hide Classify;
    hide NoThreshold;
    hide OnlyTightens;
    hide RiskGrows;
    hide Combined;
    var q' := q.(requested := more);
    OnlyAskToAllow(q, more);
    NoPolicyNoRule(q);
    if !Missing(q') && NeedsApproval(q) {
      if Rule(q).None? || q.fromDeclared {
        DeclaredGrantChangesNothing(q, more);
      } else {
        var policy := q.policy.value;
        NeedOf(q, policy);
        NeedOf(q', policy);
        CombinedExactly(q);
        CombinedExactly(q');
        assert Within(Combined(q), Combined(q'));
        assert Flag(q) == RuleFor(Some(policy), q.targetType, q.target).value.approvalRequired == Flag(q');
        NeedOnlyGrows(q.policy.value, q.targetType, q.target, Combined(q), Combined(q'), Flag(q));
      }
    }
  }

  // ---------------------------------------------------------------- exactly which policies

  /** Among the permissions the rule grants, the need for approval never goes away as
      permissions are added: a finite check on the policy. */
  ghost predicate NeedGrows(policy: Policy, targetType: TargetType, target: string) {
    var rule := RuleFor(Some(policy), targetType, target);
    rule.Some? ==>
      forall ps, more :: Within(ps, more) && Within(more, rule.value.permissions) ==>
        NeedFor(policy, targetType, target, ps, rule.value.approvalRequired)
        ==> NeedFor(policy, targetType, target, more, rule.value.approvalRequired)
  }

  ghost predicate NeverHelps(policy: Policy, targetType: TargetType, target: string) {
    forall q: Request, more: seq<Permission> ::
      q.policy == Some(policy) && q.targetType == targetType && q.target == target && Within(q.requested, more) ==>
        Severity(Evaluate(q)) <= Severity(Evaluate(q.(requested := more)))
  }

  /** For a policy and a target, requesting more never helps any request if and only if the
      need for approval grows with the granted permissions. */
  lemma NeverHelpsExactly(policy: Policy, targetType: TargetType, target: string)
    ensures NeverHelps(policy, targetType, target) <==> NeedGrows(policy, targetType, target)
  {
    hide Evaluate;
    hide NeedFor;
    hide RuleFor;
    if NeedGrows(policy, targetType, target) {
      forall q: Request, more: seq<Permission> | q.policy == Some(policy) && q.targetType == targetType && q.target == target && Within(q.requested, more)
        ensures Severity(Evaluate(q)) <= Severity(Evaluate(q.(requested := more)))
      {
        GrowingNeed(q, more, policy);
      }
    }
    var rule := RuleFor(Some(policy), targetType, target);
    if NeverHelps(policy, targetType, target) && rule.Some? {
      forall ps, more | Within(ps, more) && Within(more, rule.value.permissions)
        ensures NeedFor(policy, targetType, target, ps, rule.value.approvalRequired)
                ==> NeedFor(policy, targetType, target, more, rule.value.approvalRequired)
      {
        if NeedFor(policy, targetType, target, ps, rule.value.approvalRequired) {
          ShrinkingNeed(policy, targetType, target, ps, more);
        }
      }
    }
  }

  lemma NeedOf(q: Request, policy: Policy)
    requires q.policy == Some(policy) && Rule(q).Some?
    ensures NeedsApproval(q) <==> NeedFor(policy, q.targetType, q.target, Combined(q), Flag(q))
  {
    hide Required;
    hide Classify;
    hide Combined;
  }

  lemma GrowingNeed(q: Request, more: seq<Permission>, policy: Policy)
    requires q.policy == Some(policy) && NeedGrows(policy, q.targetType, q.target) && Within(q.requested, more)
    ensures Severity(Evaluate(q)) <= Severity(Evaluate(q.(requested := more)))
  {
    hide Evaluate;
    hide Missing;
    hide NeedsApproval;
    hide RuleFor;
    hide NeedFor;
    hide Combined;
    hide Granted;
    var q' := q.(requested := more);
    OnlyAskToAllow(q, more);
    if !Missing(q') && NeedsApproval(q) {
      if Rule(q).None? || q.fromDeclared {
        DeclaredGrantChangesNothing(q, more);
      } else {
        MissingExactly(q');
        GrantExactly(q');
        CombinedExactly(q);
        CombinedExactly(q');
        NeedOf(q, policy);
        NeedOf(q', policy);
        assert Within(Combined(q), Combined(q')) && Within(Combined(q'), Rule(q).value.permissions);
      }
    }
  }

  lemma ShrinkingNeed(policy: Policy, targetType: TargetType, target: string, ps: seq<Permission>, more: seq<Permission>)
    requires NeverHelps(policy, targetType, target)
    requires var rule := RuleFor(Some(policy), targetType, target);
             rule.Some? && Within(ps, more) && Within(more, rule.value.permissions)
             && NeedFor(policy, targetType, target, ps, rule.value.approvalRequired)
    ensures NeedFor(policy, targetType, target, more, RuleFor(Some(policy), targetType, target).value.approvalRequired)
  {
    hide Evaluate;
    hide Missing;
    hide NeedsApproval;
    hide RuleFor;
    hide NeedFor;
    hide Combined;
    hide Granted;
    var q := Request(targetType, target, [], ps, Some(policy), None, false, None);
    var q' := q.(requested := more);
    OnlyAskToAllow(q, more);
    MissingExactly(q');
    GrantExactly(q');
    CombinedExactly(q);
    CombinedExactly(q');
    NeedOf(q, policy);
    NeedOf(q', policy);
    SameNeed(policy, targetType, target, ps, Combined(q), Flag(q));
    SameNeed(policy, targetType, target, more, Combined(q'), Flag(q));
    assert Severity(Evaluate(q)) <= Severity(Evaluate(q'));
  }

  lemma SameNeed(policy: Policy, targetType: TargetType, target: string, ps: seq<Permission>, qs: seq<Permission>, flag: bool)
    requires Within(ps, qs) && Within(qs, ps)
    ensures NeedFor(policy, targetType, target, ps, flag) <==> NeedFor(policy, targetType, target, qs, flag)
  {
    SameClassify(Some(policy), targetType, target, ps, qs, flag);
    hide Classify;
    hide Required;
  }

  // ---------------------------------------------------------------- three ways it can help

  function Ask(requested: seq<Permission>, policy: Policy): Request {
    Request(Tool, "t", [], requested, Some(policy), None, false, None)
  }

  /** A tool rule that grants `granted` without approval. */
  function ToolPolicy(granted: seq<Permission>, defaultRisk: Risk, risks: seq<RiskRule>, approvals: seq<ApprovalRule>): Policy {
    Policy(defaultRisk, false, [], [], [PermissionRule("t", granted, false)], risks, approvals, [])
  }

  lemma AskDecides(requested: seq<Permission>, granted: seq<Permission>, d: Risk, risks: seq<RiskRule>, approvals: seq<ApprovalRule>)
    requires Within(requested, granted)
    ensures var policy := ToolPolicy(granted, d, risks, approvals);
            Evaluate(Ask(requested, policy)) == if NeedFor(policy, Tool, "t", requested, false) then AskUser else Allow
  {
    hide NeedFor;
    hide Missing;
    hide NeedsApproval;
    hide Combined;
    hide Granted;
    var policy := ToolPolicy(granted, d, risks, approvals);
    var q := Ask(requested, policy);
    assert Rule(q) == Some(PermissionRule("t", granted, false));
    MissingExactly(q);
    GrantExactly(q);
    CombinedExactly(q);
    NeedOf(q, policy);
    SameNeed(policy, Tool, "t", requested, Combined(q), false);
  }

  const HIGH_NEEDS_APPROVAL := [ApprovalRule("*", None, Some(High), true)]

  lemma HighOnly(policy: Policy, ps: seq<Permission>)
    requires policy.approvals == HIGH_NEEDS_APPROVAL
    ensures NeedFor(policy, Tool, "t", ps, false) <==> AtLeast(Classify(Some(policy), Tool, "t", ps, false), High)
  {
    hide Classify;
    assert policy.approvals[1..] == [];
    assert FirstApproval([], Tool, "t", Classify(Some(policy), Tool, "t", ps, false)) == None;
  }

  lemma NoRiskRules(policy: Policy, ps: seq<Permission>)
    requires policy.risks == []
    ensures Classify(Some(policy), Tool, "t", ps, false)
            == if Admin in ps || Delete in ps then Critical
               else if Execute in ps || Network in ps then High
               else if Write in ps || Modify in ps then Medium else policy.defaultRisk
  {
    RiskPrecedence(Some(policy), Tool, "t", ps, false, 0);
    hide Classify;
  }

  lemma OneScopedRule(policy: Policy, ps: seq<Permission>)
    requires policy.risks == [RiskRule("*", None, Low, [Read])]
    ensures Read in ps ==> Classify(Some(policy), Tool, "t", ps, false) == Low
    ensures Read !in ps && Execute in ps && Admin !in ps && Delete !in ps ==> Classify(Some(policy), Tool, "t", ps, false) == High
  {
    assert RiskRuleMatches(policy.risks[0], Tool, "t", ps) <==> Read in ps by {
      if Read in ps { assert Read in [Read]; }
    }
    RiskPrecedence(Some(policy), Tool, "t", ps, false, 0);
    hide Classify;
    hide RiskRuleMatches;
  }

  /** A scoped risk rule for the extra permission comes first and calls the whole low. */
  lemma ScopedRiskRuleHelps()
    ensures var policy := ToolPolicy([Execute, Read], Low, [RiskRule("*", None, Low, [Read])], HIGH_NEEDS_APPROVAL);
            Evaluate(Ask([Execute], policy)) == AskUser && Evaluate(Ask([Execute, Read], policy)) == Allow
  {
    hide NeedFor;
    hide Evaluate;
    hide Classify;
    var risks := [RiskRule("*", None, Low, [Read])];
    var policy := ToolPolicy([Execute, Read], Low, risks, HIGH_NEEDS_APPROVAL);
    AskDecides([Execute], [Execute, Read], Low, risks, HIGH_NEEDS_APPROVAL);
    AskDecides([Execute, Read], [Execute, Read], Low, risks, HIGH_NEEDS_APPROVAL);
    HighOnly(policy, [Execute]);
    HighOnly(policy, [Execute, Read]);
    assert Execute in [Execute] && Read in [Execute, Read];
    OneScopedRule(policy, [Execute]);
    OneScopedRule(policy, [Execute, Read]);
  }

  const RISKY_IS_EXEMPT := [ApprovalRule("*", None, Some(High), false), ApprovalRule("*", None, None, true)]

  lemma RiskyExempt(policy: Policy, ps: seq<Permission>)
    requires policy.approvals == RISKY_IS_EXEMPT
    ensures NeedFor(policy, Tool, "t", ps, false) <==> !AtLeast(Classify(Some(policy), Tool, "t", ps, false), High)
  {
    hide Classify;
    var r := Classify(Some(policy), Tool, "t", ps, false);
    assert ApprovalRuleMatches(policy.approvals[0], Tool, "t", r) <==> AtLeast(r, High);
    assert ApprovalRuleMatches(policy.approvals[1], Tool, "t", r);
    if AtLeast(r, High) {
      assert FirstMatch(policy.approvals, Tool, "t", r, 0);
      ApprovalPrecedence(Some(policy), Tool, "t", r, Some(false), 0);
    } else {
      assert FirstMatch(policy.approvals, Tool, "t", r, 1);
      ApprovalPrecedence(Some(policy), Tool, "t", r, Some(false), 1);
    }
    hide Required;
  }

  /** An approval rule exempts what is risky enough. */
  lemma ExemptingRuleHelps()
    ensures var policy := ToolPolicy([Read, Execute], Low, [], RISKY_IS_EXEMPT);
            Evaluate(Ask([Read], policy)) == AskUser && Evaluate(Ask([Read, Execute], policy)) == Allow
  {
    hide NeedFor;
    hide Evaluate;
    hide Classify;
    var policy := ToolPolicy([Read, Execute], Low, [], RISKY_IS_EXEMPT);
    AskDecides([Read], [Read, Execute], Low, [], RISKY_IS_EXEMPT);
    AskDecides([Read, Execute], [Read, Execute], Low, [], RISKY_IS_EXEMPT);
    RiskyExempt(policy, [Read]);
    RiskyExempt(policy, [Read, Execute]);
    assert Execute in [Read, Execute];
    NoRiskRules(policy, [Read]);
    NoRiskRules(policy, [Read, Execute]);
  }

  /** A default risk above MEDIUM is higher than what writing counts as. */
  lemma HighDefaultHelps()
    ensures var policy := ToolPolicy([Read, Write], Critical, [], HIGH_NEEDS_APPROVAL);
            Evaluate(Ask([Read], policy)) == AskUser && Evaluate(Ask([Read, Write], policy)) == Allow
  {
    hide NeedFor;
    hide Evaluate;
    hide Classify;
    var policy := ToolPolicy([Read, Write], Critical, [], HIGH_NEEDS_APPROVAL);
    AskDecides([Read], [Read, Write], Critical, [], HIGH_NEEDS_APPROVAL);
    AskDecides([Read, Write], [Read, Write], Critical, [], HIGH_NEEDS_APPROVAL);
    HighOnly(policy, [Read]);
    HighOnly(policy, [Read, Write]);
    assert Write in [Read, Write];
    NoRiskRules(policy, [Read]);
    NoRiskRules(policy, [Read, Write]);
  }
}
