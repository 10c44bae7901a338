/** Governance decisions: first-match rules, risk ranks, approval and permits. */
module Governance {

  import opened Wrappers

  datatype TargetType = Tool | Provider | Capability | Action

  datatype Permission = Read | Write | Modify | Delete | Execute | Network | Admin

  datatype Risk = Low | Medium | High | Critical

  datatype Decision = Allow | AskUser | Deny

  datatype PermissionRule = PermissionRule(target: string, permissions: seq<Permission>, approvalRequired: bool)

  datatype RiskRule = RiskRule(target: string, targetType: Option<TargetType>, risk: Risk, scopes: seq<Permission>)

  datatype ApprovalRule = ApprovalRule(target: string, targetType: Option<TargetType>, riskAtLeast: Option<Risk>, require: bool)

  datatype RollbackRule = RollbackRule(target: string, targetType: Option<TargetType>, force: bool, when: string)

  datatype Policy = Policy(
    defaultRisk: Risk, defaultApproval: bool, capabilities: seq<PermissionRule>, providers: seq<PermissionRule>,
    tools: seq<PermissionRule>, risks: seq<RiskRule>, approvals: seq<ApprovalRule>, rollbacks: seq<RollbackRule>)

  /** A permit as the engine sees it: intact, expired, an ALLOW, and whom it is for. */
  datatype Permit = Permit(intact: bool, expired: bool, allows: bool, subject: string)

  /** The arguments of `evaluate`, with the policy already resolved. */
  datatype Request = Request(
    targetType: TargetType, target: string, declared: seq<Permission>, requested: seq<Permission>,
    policy: Option<Policy>, subject: Option<string>, fromDeclared: bool, permit: Option<Permit>)

  function Rank(r: Risk): nat { match r case Low => 0 case Medium => 1 case High => 2 case Critical => 3 }

  predicate AtLeast(r: Risk, threshold: Risk) { Rank(r) >= Rank(threshold) }

  function Severity(d: Decision): nat { match d case Allow => 0 case AskUser => 1 case Deny => 2 }

  // ---------------------------------------------------------------- rules

  function FirstRule(rules: seq<PermissionRule>, target: string): Option<PermissionRule> {
    if rules == [] then None else if rules[0].target == target then Some(rules[0]) else FirstRule(rules[1..], target)
  }

  /** `rule_for`: actions have no rules. */
  function RuleFor(policy: Option<Policy>, targetType: TargetType, target: string): Option<PermissionRule> {
    if policy.None? then None
    else
      match targetType
      case Tool => FirstRule(policy.value.tools, target)
      case Provider => FirstRule(policy.value.providers, target)
      case Capability => FirstRule(policy.value.capabilities, target)
      case Action => None
  }

  predicate Any(ps: seq<Permission>, qs: seq<Permission>) { exists p :: p in ps && p in qs }

  predicate Concerns(ruleTarget: string, ruleType: Option<TargetType>, targetType: TargetType, target: string) {
    (ruleTarget == "*" || ruleTarget == target) && (ruleType.Some? ==> ruleType.value == targetType)
  }

  predicate RiskRuleMatches(rule: RiskRule, targetType: TargetType, target: string, ps: seq<Permission>) {
    Concerns(rule.target, rule.targetType, targetType, target) && (rule.scopes != [] ==> Any(ps, rule.scopes))
  }

  function FirstRisk(rules: seq<RiskRule>, targetType: TargetType, target: string, ps: seq<Permission>): Option<Risk> {
    if rules == [] then None
    else if RiskRuleMatches(rules[0], targetType, target, ps) then Some(rules[0].risk)
    else FirstRisk(rules[1..], targetType, target, ps)
  }

  /** The risk that the permissions alone suggest. */
  function ScopeRisk(ps: seq<Permission>, approvalRequired: bool, fallback: Risk): Risk {
    if Any(ps, [Admin, Delete]) then Critical
    else if approvalRequired || Any(ps, [Execute, Network]) then High
    else if Any(ps, [Write, Modify]) then Medium else fallback
  }

  /** `classify`. */
  function Classify(policy: Option<Policy>, targetType: TargetType, target: string, ps: seq<Permission>, approvalRequired: bool): Risk {
    var byRule := if policy.Some? then FirstRisk(policy.value.risks, targetType, target, ps) else None;
    if byRule.Some? then byRule.value
    else ScopeRisk(ps, approvalRequired, if policy.Some? then policy.value.defaultRisk else Low)
  }

  predicate ApprovalRuleMatches(rule: ApprovalRule, targetType: TargetType, target: string, risk: Risk) {
    Concerns(rule.target, rule.targetType, targetType, target)
    && (rule.riskAtLeast.Some? ==> AtLeast(risk, rule.riskAtLeast.value))
  }

  function FirstApproval(rules: seq<ApprovalRule>, targetType: TargetType, target: string, risk: Risk): Option<bool> {
    if rules == [] then None
    else if ApprovalRuleMatches(rules[0], targetType, target, risk) then Some(rules[0].require)
    else FirstApproval(rules[1..], targetType, target, risk)
  }

  /** `required`: approval rules, then the target's own rule, then the risk, then the default. */
  predicate Required(policy: Option<Policy>, targetType: TargetType, target: string, risk: Risk, ruleApproval: Option<bool>) {
    var byRule := if policy.Some? then FirstApproval(policy.value.approvals, targetType, target, risk) else None;
    if byRule.Some? then byRule.value
    else if ruleApproval.Some? then ruleApproval.value
    else AtLeast(risk, High) || (policy.Some? && policy.value.defaultApproval)
  }

  // ---------------------------------------------------------------- evaluation

  /** `dict.fromkeys`: each value once, in order of first appearance. */
  function Dedupe(ps: seq<Permission>): (r: seq<Permission>)
    ensures forall p :: p in r <==> p in ps
    ensures forall i, j :: 0 <= i < j < |r| ==> r[i] != r[j]
  {
    if ps == [] then []
    else
      var init, last := Dedupe(ps[..|ps| - 1]), ps[|ps| - 1];
      assert ps == ps[..|ps| - 1] + [last];
      if last in init then init else init + [last]
  }

  function Rule(q: Request): Option<PermissionRule> { RuleFor(q.policy, q.targetType, q.target) }

  function Granted(q: Request): seq<Permission> {
    if Rule(q).Some? && !q.fromDeclared then Dedupe(Rule(q).value.permissions) else Dedupe(q.declared)
  }

  function Combined(q: Request): seq<Permission> { Dedupe(Dedupe(q.declared) + Dedupe(q.requested)) }

  /** Some declared or requested permission is not granted. */
  predicate Missing(q: Request) { exists p :: p in Combined(q) && p !in Granted(q) }

  function RiskOf(q: Request): Risk {
    Classify(q.policy, q.targetType, q.target, Combined(q), Rule(q).Some? && Rule(q).value.approvalRequired)
  }

  predicate NeedsApproval(q: Request) {
    Required(q.policy, q.targetType, q.target, RiskOf(q), if Rule(q).Some? then Some(Rule(q).value.approvalRequired) else None)
  }

  function Unaided(q: Request): Decision { if Missing(q) then Deny else if NeedsApproval(q) then AskUser else Allow }

  predicate Valid(permit: Permit, subject: Option<string>) {
    permit.intact && !permit.expired && permit.allows && (subject.Some? ==> permit.subject == subject.value)
  }

  /** `evaluate`. */
  function Evaluate(q: Request): Decision {
    var d := Unaided(q);
    if q.permit.None? then d
    else if !Valid(q.permit.value, q.subject) then Deny
    else if d == AskUser then Allow else d
  }

  // ---------------------------------------------------------------- what a decision means

  /** The `i`-th approval rule is the first that matches. */
  predicate FirstMatch(rules: seq<ApprovalRule>, targetType: TargetType, target: string, risk: Risk, i: int) {
    0 <= i < |rules| && ApprovalRuleMatches(rules[i], targetType, target, risk)
    && forall j :: 0 <= j < i ==> !ApprovalRuleMatches(rules[j], targetType, target, risk)
  }

  lemma {:induction false} FirstApprovalExactly(rules: seq<ApprovalRule>, targetType: TargetType, target: string, risk: Risk)
    ensures var r := FirstApproval(rules, targetType, target, risk);
            if r.Some? then exists i :: FirstMatch(rules, targetType, target, risk, i) && rules[i].require == r.value
            else forall i :: 0 <= i < |rules| ==> !ApprovalRuleMatches(rules[i], targetType, target, risk)
  {
    hide ApprovalRuleMatches;
    if rules != [] {
      if ApprovalRuleMatches(rules[0], targetType, target, risk) {
        assert FirstMatch(rules, targetType, target, risk, 0);
      } else {
        FirstApprovalExactly(rules[1..], targetType, target, risk);
        var r := FirstApproval(rules[1..], targetType, target, risk);
        if r.Some? {
          var i :| FirstMatch(rules[1..], targetType, target, risk, i) && rules[1..][i].require == r.value;
          assert FirstMatch(rules, targetType, target, risk, i + 1);
        } else {
          assert forall i :: 0 < i < |rules| ==> rules[i] == rules[1..][i - 1];
        }
      }
    }
  }

  /** Approval: the first matching approval rule decides; without one the target's own rule
      does; without that, high risk or the policy's default asks for it. */
  lemma ApprovalPrecedence(policy: Option<Policy>, targetType: TargetType, target: string, risk: Risk, ruleApproval: Option<bool>, i: int)
    ensures policy.Some? && FirstMatch(policy.value.approvals, targetType, target, risk, i) ==>
              (Required(policy, targetType, target, risk, ruleApproval) <==> policy.value.approvals[i].require)
    ensures policy.None? || (forall j :: 0 <= j < |policy.value.approvals| ==>
                               !ApprovalRuleMatches(policy.value.approvals[j], targetType, target, risk)) ==>
              (Required(policy, targetType, target, risk, ruleApproval)
               <==> ruleApproval == Some(true)
                    || (ruleApproval.None? && (risk.High? || risk.Critical? || (policy.Some? && policy.value.defaultApproval))))
  {
    hide ApprovalRuleMatches;
    if policy.Some? {
      var rules := policy.value.approvals;
      FirstApprovalExactly(rules, targetType, target, risk);
      if FirstMatch(rules, targetType, target, risk, i) {
        var r := FirstApproval(rules, targetType, target, risk);
        var k :| FirstMatch(rules, targetType, target, risk, k) && rules[k].require == r.value;
        assert k == i;
      }
    }
  }

  predicate FirstRiskMatch(rules: seq<RiskRule>, targetType: TargetType, target: string, ps: seq<Permission>, i: int) {
    0 <= i < |rules| && RiskRuleMatches(rules[i], targetType, target, ps)
    && forall j :: 0 <= j < i ==> !RiskRuleMatches(rules[j], targetType, target, ps)
  }

  lemma {:induction false} FirstRiskExactly(rules: seq<RiskRule>, targetType: TargetType, target: string, ps: seq<Permission>, i: int)
    ensures FirstRiskMatch(rules, targetType, target, ps, i) ==> FirstRisk(rules, targetType, target, ps) == Some(rules[i].risk)
    ensures (forall j :: 0 <= j < |rules| ==> !RiskRuleMatches(rules[j], targetType, target, ps)) ==>
              FirstRisk(rules, targetType, target, ps) == None
  {
    hide RiskRuleMatches;
    if rules != [] && !RiskRuleMatches(rules[0], targetType, target, ps) {
      FirstRiskExactly(rules[1..], targetType, target, ps, i - 1);
      if FirstRiskMatch(rules, targetType, target, ps, i) { assert FirstRiskMatch(rules[1..], targetType, target, ps, i - 1); }
    }
  }

  /** Risk: the first matching risk rule decides; without one, deleting or administering is
      critical, approval or executing or networking high, writing or modifying medium. */
  lemma RiskPrecedence(policy: Option<Policy>, targetType: TargetType, target: string, ps: seq<Permission>, approvalRequired: bool, i: int)
    ensures policy.Some? && FirstRiskMatch(policy.value.risks, targetType, target, ps, i) ==>
              Classify(policy, targetType, target, ps, approvalRequired) == policy.value.risks[i].risk
    ensures policy.None? || (forall j :: 0 <= j < |policy.value.risks| ==>
                               !RiskRuleMatches(policy.value.risks[j], targetType, target, ps)) ==>
              var r := Classify(policy, targetType, target, ps, approvalRequired);
              if Admin in ps || Delete in ps then r == Critical
              else if approvalRequired || Execute in ps || Network in ps then r == High
              else if Write in ps || Modify in ps then r == Medium
              else r == if policy.Some? then policy.value.defaultRisk else Low
  {
    if policy.Some? { FirstRiskExactly(policy.value.risks, targetType, target, ps, i); }
    hide RiskRuleMatches;
    AnyOf(ps, Admin, Delete);
    AnyOf(ps, Execute, Network);
    AnyOf(ps, Write, Modify);
    hide Any;
  }

  lemma AnyOf(ps: seq<Permission>, p: Permission, q: Permission)
    ensures Any(ps, [p, q]) <==> p in ps || q in ps
  {
    if p in ps { assert p in [p, q]; }
    if q in ps { assert q in [p, q]; }
  }

  /** Which rule is the target's own: the first for the target among the rules of its type, and
      none for an action. */
  lemma RuleExactly(policy: Policy, targetType: TargetType, target: string, i: int)
    ensures var rules := match targetType case Tool => policy.tools case Provider => policy.providers
                                          case Capability => policy.capabilities case Action => [];
            && (0 <= i < |rules| && rules[i].target == target && (forall j :: 0 <= j < i ==> rules[j].target != target) ==>
                  RuleFor(Some(policy), targetType, target) == Some(rules[i]))
            && ((forall j :: 0 <= j < |rules| ==> rules[j].target != target) ==> RuleFor(Some(policy), targetType, target) == None)
    ensures RuleFor(None, targetType, target) == None
  {
    FirstRuleExactly(policy.tools, target, i);
    FirstRuleExactly(policy.providers, target, i);
    FirstRuleExactly(policy.capabilities, target, i);
    hide FirstRule;
  }

  lemma {:induction false} FirstRuleExactly(rules: seq<PermissionRule>, target: string, i: int)
    ensures 0 <= i < |rules| && rules[i].target == target && (forall j :: 0 <= j < i ==> rules[j].target != target) ==>
              FirstRule(rules, target) == Some(rules[i])
    ensures (forall j :: 0 <= j < |rules| ==> rules[j].target != target) ==> FirstRule(rules, target) == None
  {
    if rules != [] && rules[0].target != target {
      FirstRuleExactly(rules[1..], target, i - 1);
      assert forall j :: 0 < j < |rules| ==> rules[j] == rules[1..][j - 1];
    }
  }

  /** DENY means that some declared or requested permission is not granted, by the target's rule
      or, without one and for capabilities, by the declaration, or that a permit is given that
      has a fault; ALLOW means neither, and that approval is not needed or the permit stands for
      it; otherwise the engine asks. */
  lemma DecisionExactly(q: Request)
    ensures var granted := if Rule(q).Some? && !q.fromDeclared then Rule(q).value.permissions else q.declared;
            var missing := exists p :: (p in q.declared || p in q.requested) && p !in granted;
            var faulty := q.permit.Some? &&
                          var t := q.permit.value;
                          !t.intact || t.expired || !t.allows || (q.subject.Some? && t.subject != q.subject.value);
            && (Evaluate(q) == Deny <==> missing || faulty)
            && (Evaluate(q) == Allow <==> !missing && !faulty && (NeedsApproval(q) ==> q.permit.Some?))
  {
    hide NeedsApproval;
    assert forall p :: p in Combined(q) <==> p in q.declared || p in q.requested;
  }

  /** With a permit the engine never asks. It allows exactly when the permit is intact, not
      expired, an ALLOW and for this subject if one is given, and the decision without it is not
      DENY: any one fault of the permit denies, and no permit rescues a DENY. */
  lemma PermitOnlyApproves(q: Request, permit: Permit)
    requires q.permit.None?
    ensures var d := Evaluate(q.(permit := Some(permit)));
            && d != AskUser
            && (d == Allow <==>
                  permit.intact && !permit.expired && permit.allows && (q.subject.None? || permit.subject == q.subject.value)
                  && Evaluate(q) != Deny)
  {
    hide Required;
    hide Classify;
  }

  // ---------------------------------------------------------------- which rules match

  /** At least as severe, the order being low, medium, high, critical. */
  predicate Reaches(risk: Risk, threshold: Risk) {
    threshold.Low? || risk.Critical? || risk == threshold || (threshold.Medium? && risk.High?)
  }

  /** An approval rule is for its target or "*", for its type or any, and from its threshold
      upward or at any risk. */
  lemma ApprovalMatchExactly(rule: ApprovalRule, targetType: TargetType, target: string, risk: Risk)
    ensures ApprovalRuleMatches(rule, targetType, target, risk) <==>
              && (rule.target == "*" || rule.target == target)
              && (rule.targetType.None? || rule.targetType == Some(targetType))
              && (rule.riskAtLeast.None? || Reaches(risk, rule.riskAtLeast.value))
  {
  }

  /** A risk rule is for its target or "*", for its type or any, and for any permissions or for
      those that share one with its scopes. */
  lemma RiskMatchExactly(rule: RiskRule, targetType: TargetType, target: string, ps: seq<Permission>)
    ensures RiskRuleMatches(rule, targetType, target, ps) <==>
              && (rule.target == "*" || rule.target == target)
              && (rule.targetType.None? || rule.targetType == Some(targetType))
              && (rule.scopes == [] || exists p :: p in ps && p in rule.scopes)
  {
  }
}
