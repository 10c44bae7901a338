/** The governance engine as it runs: every call decides, audits and counts. The clock, the
    record ids and the rendered audit details are parameters. */
module GovernanceEngineClass {

  import opened Wrappers
  import opened HashChain
  import opened GovernanceLogs
  import opened Governance
  import GovernanceRequests

  class Metrics {
    var evaluations: nat
    var allow: nat
    var askUser: nat
    var deny: nat
    var blocks: nat
    var violations: nat
    var rollbacks: nat

    constructor ()
      ensures evaluations == allow == askUser == deny == blocks == violations == rollbacks == 0
    {
      evaluations, allow, askUser, deny, blocks, violations, rollbacks := 0, 0, 0, 0, 0, 0, 0;
    }

    method RecordEvaluation(d: Decision)
      modifies this
      ensures evaluations == old(evaluations) + 1
      ensures allow == old(allow) + (if d.Allow? then 1 else 0)
      ensures askUser == old(askUser) + (if d.AskUser? then 1 else 0)
      ensures deny == old(deny) + (if d.Deny? then 1 else 0)
      ensures blocks == old(blocks) && violations == old(violations) && rollbacks == old(rollbacks)
    {
      evaluations := evaluations + 1;
      match d
      case Allow => allow := allow + 1;
      case Deny => deny := deny + 1;
      case AskUser => askUser := askUser + 1;
    }
  }

  function Word(d: Decision): string { match d case Allow => "allow" case AskUser => "ask_user" case Deny => "deny" }

  function TypeWord(t: TargetType): string {
    match t case Tool => "tool" case Provider => "provider" case Capability => "capability" case Action => "action"
  }

  /** The permit is intact, has not expired, is an ALLOW, and is for the subject, if there is
      one. */
  predicate Stands(q: Request)
    requires q.permit.Some?
  {
    var permit := q.permit.value;
    permit.intact && !permit.expired && permit.allows && (q.subject.None? || permit.subject == q.subject.value)
  }

  lemma PermitStands(q: Request)
    ensures q.permit.Some? ==>
              && Evaluate(q) != AskUser
              && (Evaluate(q) == Allow <==> Stands(q) && Evaluate(q.(permit := None)) != Deny)
  {
    if q.permit.Some? {
      var bare := q.(permit := None);
      PermitOnlyApproves(bare, q.permit.value);
      assert bare.(permit := q.permit) == q;
      hide Evaluate;
    }
  }

  /** One entry more on the trail, with the next number, and with these contents. */
  ghost predicate Added(
      before: seq<AuditEntry>, after: seq<AuditEntry>, at: string, category: string, targetType: TargetType, target: string,
      subject: string, result: string, details: string)
  {
    && |after| == |before| + 1 && after[..|before|] == before
    && var f := after[|before|].fields;
    && f.seqNo == |before| && f.recordedAt == at && f.category == category && f.subject == subject
    && f.result == result && f.details == details
    && f.action == (match targetType case Tool => "tool:" case Provider => "provider:" case Capability => "capability:"
                                     case Action => "action:") + target
  }

  lemma EntryAdded(
      before: seq<AuditEntry>, e: AuditEntry, at: string, category: string, targetType: TargetType, target: string,
      subject: string, result: string, details: string)
    requires e.fields == Audit(|before|, at, category, TypeWord(targetType) + ":" + target, subject, result, details)
    ensures Added(before, before + [e], at, category, targetType, target, subject, result, details)
  {
    var word := TypeWord(targetType) + ":";
    assert word == match targetType case Tool => "tool:" case Provider => "provider:" case Capability => "capability:"
                                    case Action => "action:";
  }

  lemma AddedOne(before: seq<AuditEntry>, after: seq<AuditEntry>)
    ensures forall at, category, targetType, target, subject, result, details ::
              Added(before, after, at, category, targetType, target, subject, result, details) ==> |after| == |before| + 1
  {
  }

  lemma Worded(d: Decision)
    ensures Word(d) == match d case Allow => "allow" case AskUser => "ask_user" case Deny => "deny"
  {
  }

  // ---------------------------------------------------------------- rollback

  predicate RollbackRuleMatches(rule: RollbackRule, targetType: TargetType, target: string, failed: bool, denied: bool) {
    Concerns(rule.target, rule.targetType, targetType, target)
    && (rule.when == "denial" ==> denied) && (rule.when == "failure" ==> failed)
  }

  /** A rollback rule is for its target or "*", its type or any, and for denials, for failures or,
      with any other word, for both. */
  lemma RollbackMatchExactly(rule: RollbackRule, targetType: TargetType, target: string, failed: bool, denied: bool)
    ensures RollbackRuleMatches(rule, targetType, target, failed, denied) <==>
              && (rule.target == "*" || rule.target == target)
              && (rule.targetType.None? || rule.targetType == Some(targetType))
              && if rule.when == "denial" then denied else if rule.when == "failure" then failed else true
  {
  }

  /** The `i`-th rollback rule is the first that matches. */
  ghost predicate FirstRollback(
      rules: seq<RollbackRule>, targetType: TargetType, target: string, failed: bool, denied: bool, i: int) {
    0 <= i < |rules| && RollbackRuleMatches(rules[i], targetType, target, failed, denied)
    && forall j :: 0 <= j < i ==> !RollbackRuleMatches(rules[j], targetType, target, failed, denied)
  }

  /** The loop over the rollback rules of `RollbackPolicy.should_rollback`, then its defaults. */
  method RollsBack(
      policy: Option<Policy>, targetType: TargetType, target: string, supported: bool, failed: bool, denied: bool, risk: Option<Risk>)
    returns (decided: bool)
    ensures policy.Some? ==> forall i :: FirstRollback(policy.value.rollbacks, targetType, target, failed, denied, i) ==>
              decided == policy.value.rollbacks[i].force
    ensures (policy.Some? ==> forall i :: 0 <= i < |policy.value.rollbacks| ==>
                !RollbackRuleMatches(policy.value.rollbacks[i], targetType, target, failed, denied)) ==>
              (decided <==> supported && (failed || (denied && (risk == Some(High) || risk == Some(Critical)))))
  {
    hide RollbackRuleMatches;
    if policy.Some? {
      var rules := policy.value.rollbacks;
      var i := 0;
      while i < |rules|
        invariant i <= |rules|
        invariant forall j :: 0 <= j < i ==> !RollbackRuleMatches(rules[j], targetType, target, failed, denied)
      {
        if RollbackRuleMatches(rules[i], targetType, target, failed, denied) { return rules[i].force; }
        i := i + 1;
      }
    }
    if !supported { return false; }
    if risk.Some? && AtLeast(risk.value, High) && (failed || denied) { return true; }
    return failed;
  }

  datatype Violation = PermissionDenied | CapabilityPermissionsMissing | ProviderBlocked

  class GovernanceEngine {
    const audit: GovernanceAuditLog
    const records: ExecutionRecordStore
    const metrics: Metrics
    /** How many blocked payloads have been made out. */
    ghost var payloads: nat

    /** Nothing is decided without an audit entry and nothing is counted twice. */
    ghost predicate Conserved()
      reads this, audit, records, metrics
    {
      |audit.entries| == metrics.evaluations + |records.records| + metrics.violations + payloads
      && metrics.evaluations == metrics.allow + metrics.askUser + metrics.deny
      && metrics.blocks <= metrics.evaluations
    }

    ghost predicate Valid()
      reads this, audit, records, metrics
    {
      audit.Valid() && records.Valid() && records.backing.None? && Verifies(records.h, records.records) && Conserved()
    }

    /** An engine with the default stores. */
    constructor (auditHash: Hash<Audit>, recordHash: Hash<Fields>)
      ensures Valid() && fresh(audit) && fresh(records) && fresh(metrics)
      ensures audit.entries == [] && records.records == []
    {
      audit := new GovernanceAuditLog(auditHash, []);
      records := new ExecutionRecordStore(recordHash, None);
      metrics := new Metrics();
      payloads := 0;
    }

    /** `evaluate`. */
    method Decide(q: Request, at: string, details: string) returns (d: Decision)
      requires Valid()
      modifies audit, metrics
      ensures Valid() && d == Evaluate(q)
      ensures q.permit.Some? ==> d != AskUser && (d == Allow <==> Stands(q) && Evaluate(q.(permit := None)) != Deny)
      ensures Added(old(audit.entries), audit.entries, at, "governance", q.targetType, q.target,
                    if q.subject.None? || q.subject.value == "" then q.target else q.subject.value,
                    match d case Allow => "allow" case AskUser => "ask_user" case Deny => "deny", details)
      ensures metrics.blocks == old(metrics.blocks) && metrics.evaluations == old(metrics.evaluations) + 1
      ensures metrics.allow == old(metrics.allow) + if d.Allow? then 1 else 0
    {
      hide Evaluate;
      hide Added;
      hide TypeWord;
      hide Word;
      hide Verifies;
      hide Numbered;
      d := Evaluate(q);
      PermitStands(q);
      hide Stands;
      Worded(d);
      var subject := if q.subject.Some? && q.subject.value != "" then q.subject.value else q.target;
      var entry := audit.Record(at, "governance", TypeWord(q.targetType) + ":" + q.target, subject, Word(d), details);
      EntryAdded(old(audit.entries), entry, at, "governance", q.targetType, q.target, subject, Word(d), details);
      metrics.RecordEvaluation(d);
    }

    /** `enforce_tool` and `enforce_provider`: anything but ALLOW is blocked. */
    method Enforce(q: Request, at: string, details: string) returns (r: Result<Decision, Violation>)
      requires Valid()
      modifies audit, metrics
      ensures Valid()
      ensures r.Ok? <==> Evaluate(q) == Allow
      ensures q.permit.Some? ==> (r.Ok? <==> Stands(q) && Evaluate(q.(permit := None)) != Deny)
      ensures metrics.blocks == old(metrics.blocks) + if r.Ok? then 0 else 1
      ensures |audit.entries| == |old(audit.entries)| + 1
      ensures r.Ok? ==> r.value == Allow
      ensures r.Err? ==> (r.error.ProviderBlocked? <==> q.targetType.Provider?) && !r.error.CapabilityPermissionsMissing?
    {
      hide Evaluate;
      hide Added;
      hide Verifies;
      hide Numbered;
      var d := Decide(q, at, details);
      AddedOne(old(audit.entries), audit.entries);
      if d == Allow { return Ok(d); }
      metrics.blocks := metrics.blocks + 1;
      return Err(if q.targetType.Provider? then ProviderBlocked else PermissionDenied);
    }

    /** `enforce_capability`: the tool's declared permissions must also cover the rule's. */
    method EnforceCapability(q: Request, at: string, details: string) returns (r: Result<Decision, Violation>)
      requires Valid() && q.targetType.Capability? && q.fromDeclared && q.requested == []
      modifies audit, metrics
      ensures Valid()
      ensures r.Ok? <==> Evaluate(q) == Allow && (Rule(q).Some? ==> GovernanceRequests.Within(Rule(q).value.permissions, q.declared))
      ensures metrics.blocks == old(metrics.blocks) + if r.Ok? then 0 else 1
      ensures |audit.entries| == |old(audit.entries)| + 1
      ensures r.Err? ==> (r.error.CapabilityPermissionsMissing? <==>
                            Rule(q).Some? && !GovernanceRequests.Within(Rule(q).value.permissions, q.declared))
                         && !r.error.ProviderBlocked?
    {
      hide Evaluate;
      hide Added;
      hide Verifies;
      hide Numbered;
      var d := Decide(q, at, details);
      AddedOne(old(audit.entries), audit.entries);
      var needed := if Rule(q).Some? then Dedupe(Rule(q).value.permissions) else [];
      var granted := Granted(q);
      var covered := forall p :: p in needed ==> p in granted;
      if needed != [] && !covered {
        metrics.blocks := metrics.blocks + 1;
        return Err(CapabilityPermissionsMissing);
      }
      assert Rule(q).Some? ==> (covered <==> GovernanceRequests.Within(Rule(q).value.permissions, q.declared));
      if d != Allow {
        metrics.blocks := metrics.blocks + 1;
        return Err(PermissionDenied);
      }
      return Ok(d);
    }

    /** `record_execution`: a record id that is already there raises before anything is audited. */
    method RecordExecution(fields: Fields, targetType: TargetType, subject: string, at: string, details: string)
      returns (r: Result<Record, string>)
      requires Valid()
      modifies audit, records
      ensures Valid()
      ensures r.Ok? ==> records.records == old(records.records) + [r.value] && r.value.fields == fields
      ensures r.Err? <==> Has(old(records.records), fields.recordId)
      ensures r.Err? ==> records.records == old(records.records) && audit.entries == old(audit.entries)
      ensures r.Ok? ==> Added(old(audit.entries), audit.entries, at, "execution", targetType, fields.target, subject, fields.status, details)
    {
      hide Verifies;
      hide Has;
      hide Numbered;
      hide Added;
      hide TypeWord;
      AppendVerifies(records.h, records.records, fields);
      r := records.Append(fields);
      assert records.records == if r.Ok? then old(records.records) + [r.value] else old(records.records);
      if r.Ok? {
        var entry := audit.Record(at, "execution", TypeWord(targetType) + ":" + fields.target, subject, fields.status, details);
        EntryAdded(old(audit.entries), entry, at, "execution", targetType, fields.target, subject, fields.status, details);
      }
    }

    /** `violation`. */
    method Violate(targetType: TargetType, target: string, at: string, details: string)
      requires Valid()
      modifies audit, metrics
      ensures Valid() && metrics.violations == old(metrics.violations) + 1
      ensures metrics.evaluations == old(metrics.evaluations) && metrics.blocks == old(metrics.blocks)
      ensures Added(old(audit.entries), audit.entries, at, "violation", targetType, target, target, "blocked", details)
    {
      hide Verifies;
      hide Numbered;
      hide Added;
      hide TypeWord;
      metrics.violations := metrics.violations + 1;
      var entry := audit.Record(at, "violation", TypeWord(targetType) + ":" + target, target, "blocked", details);
      EntryAdded(old(audit.entries), entry, at, "violation", targetType, target, target, "blocked", details);
    }

    /** `blocked_payload`: audited by the violation handler, which shares the engine's log. */
    method BlockedPayload(targetType: TargetType, target: string, at: string, details: string)
      requires Valid()
      modifies this`payloads, audit
      ensures Valid() && payloads == old(payloads) + 1
      ensures Added(old(audit.entries), audit.entries, at, "violation", targetType, target, target, "blocked", details)
    {
      hide Verifies;
      hide Numbered;
      hide Added;
      hide TypeWord;
      payloads := payloads + 1;
      var entry := audit.Record(at, "violation", TypeWord(targetType) + ":" + target, target, "blocked", details);
      EntryAdded(old(audit.entries), entry, at, "violation", targetType, target, target, "blocked", details);
    }

    /** `should_rollback`: the first rule for the target and the outcome decides; without one, a
        target that supports it is rolled back after any failure, and after a denial at high risk. */
    method ShouldRollback(
        policy: Option<Policy>, targetType: TargetType, target: string, supported: bool, failed: bool, denied: bool, risk: Option<Risk>)
      returns (decided: bool)
      requires Valid()
      modifies metrics
      ensures Valid()
      ensures policy.Some? ==> forall i :: FirstRollback(policy.value.rollbacks, targetType, target, failed, denied, i) ==>
                decided == policy.value.rollbacks[i].force
      ensures (policy.Some? ==> forall i :: 0 <= i < |policy.value.rollbacks| ==>
                  !RollbackRuleMatches(policy.value.rollbacks[i], targetType, target, failed, denied)) ==>
                (decided <==> supported && (failed || (denied && (risk == Some(High) || risk == Some(Critical)))))
      ensures metrics.rollbacks == old(metrics.rollbacks) + if decided then 1 else 0
      ensures metrics.evaluations == old(metrics.evaluations) && metrics.allow == old(metrics.allow)
              && metrics.askUser == old(metrics.askUser) && metrics.deny == old(metrics.deny)
              && metrics.blocks == old(metrics.blocks) && metrics.violations == old(metrics.violations)
    {
      decided := RollsBack(policy, targetType, target, supported, failed, denied, risk);
      if decided { metrics.rollbacks := metrics.rollbacks + 1; }
    }
  }
}
