/** Operator approval of a run: decided at most once, by a classifier that looks at
    the run and the clock; and the run lists a caller may see. */
module RunApproval {
  import opened Text
  import opened PolicyMatrix

  datatype Desktop = Desktop(tier: int, humanApprovalGranted: bool)

  datatype RunStatus = Failed | PolicyEvaluated | Other(name: string)

  /** `desktop` is the request's desktop block, when the payload has one. */
  datatype Run = Run(
    tenant: string, project: string, desktop: Option<Desktop>, policyDecision: string, grantPresent: bool,
    status: RunStatus, errorMessage: string, createdAt: Option<int>, expiresAt: Option<int>)

  datatype ApprovalStatus = Pending | Approved | Denied | Expired

  datatype Request = Request(decision: string, ttlSeconds: int, reason: string)

  datatype Answer =
    | NotFound | Forbidden | InvalidDecision | InvalidTTL | NotEligible | ApprovalExpired
    | AlreadyResolved(status: ApprovalStatus)
    | Repeated(status: ApprovalStatus)
    | Applied(status: ApprovalStatus, reason: string)

  const TIER_HIGH_RISK := 3
  const DEFAULT_TTL_SECONDS := 900
  const MAX_TTL_SECONDS := 86400

  /** The clock counts nanoseconds. */
  const SECOND := 1_000_000_000

  // ---------- who may see and decide what ----------

  datatype Caller = Caller(identity: Identity, tenantIds: seq<string>, projectIds: seq<string>)

  datatype Access = Access(enabled: bool, rules: seq<Rule>, caller: Option<Caller>)

  predicate InScope(tenant: string, project: string, caller: Option<Caller>) {
    caller.Some? ==>
      && (caller.value.tenantIds == [] || (Trim(tenant) != "" && Trim(tenant) in caller.value.tenantIds))
      && (caller.value.projectIds == [] || (Trim(project) != "" && Trim(project) in caller.value.projectIds))
  }

  method EnforceRunRecordScope(tenant: string, project: string, caller: Option<Caller>) returns (allowed: bool)
    ensures allowed == InScope(tenant, project, caller)
  {
    if caller.None? { return true; }
    var tenantId, projectId := Trim(tenant), Trim(project);
    if |caller.value.tenantIds| > 0 {
      if tenantId == "" { return false; }
      if tenantId !in caller.value.tenantIds { return false; }
    }
    if |caller.value.projectIds| > 0 {
      if projectId == "" { return false; }
      if projectId !in caller.value.projectIds { return false; }
    }
    return true;
  }

  predicate Authorized(access: Access, permission: string, tenant: string, project: string) {
    access.enabled ==>
      access.caller.Some? &&
      Decision(access.rules, Query(access.caller.value.identity, permission, tenant, project)) == Granted
  }

  predicate Permits(access: Access, permission: string, tenant: string, project: string) {
    InScope(tenant, project, access.caller) && Authorized(access, permission, tenant, project)
  }

  method CheckPermission(access: Access, permission: string, tenant: string, project: string)
    returns (allowed: bool)
    ensures allowed == Permits(access, permission, tenant, project)
  {
    allowed := EnforceRunRecordScope(tenant, project, access.caller);
    if !allowed { return; }
    var identity := if access.caller.Some? then Some(access.caller.value.identity) else None;
    var verdict := AuthorizeScoped(access.enabled, identity, access.rules, permission, tenant, project);
    return verdict == Granted;
  }

  datatype Summary = Summary(runId: string, tenant: string, project: string)

  function Visible(items: seq<Summary>, access: Access, permission: string): (out: seq<Summary>)
    ensures |out| <= |items|
  {
    if items == [] then []
    else
      var last := items[|items| - 1];
      Visible(items[..|items| - 1], access, permission) +
      (if Permits(access, permission, last.tenant, last.project) then [last] else [])
  }

  method FilterRunSummariesByAuthorization(items: seq<Summary>, access: Access, permission: string)
    returns (out: seq<Summary>, denied: nat)
    ensures out == Visible(items, access, permission)
    ensures |out| + denied == |items|
  {
    out, denied := [], 0;
    for i := 0 to |items|
      invariant out == Visible(items[..i], access, permission) && |out| + denied == i
    {
      assert items[..i + 1][..i] == items[..i];
      var allowed := CheckPermission(access, permission, items[i].tenant, items[i].project);
      if allowed { out := out + [items[i]]; } else { denied := denied + 1; }
    }
    assert items[..|items|] == items;
  }

  /** A deny added to a matrix only ever shortens a list: what is left is what
      the new matrix leaves of the old list. */
  lemma {:induction false} AddedDenyOnlyHides(
    items: seq<Summary>, access: Access, permission: string, before: seq<Rule>, deny: Rule, after: seq<Rule>)
    requires access.rules == before + after && before + after != []
    requires Lower(Trim(deny.effect)) == "deny"
    ensures
      var stricter := access.(rules := before + [deny] + after);
      Visible(items, stricter, permission) == Visible(Visible(items, access, permission), stricter, permission)
  {
    if items != [] {
      var stricter := access.(rules := before + [deny] + after);
      var last := items[|items| - 1];
      var kept := Visible(items[..|items| - 1], access, permission);
      AddedDenyOnlyHides(items[..|items| - 1], access, permission, before, deny, after);
      if access.caller.Some? {
        AddingRules(before, after, deny, Query(access.caller.value.identity, permission, last.tenant, last.project));
      }
      assert (kept + [last])[..|kept|] == kept;
      assert kept + [] == kept;
    }
  }

  // ---------- one decision ----------

  predicate Eligible(run: Run) { run.desktop.Some? && run.desktop.value.tier >= TIER_HIGH_RISK }

  predicate Lapsed(run: Run, now: int) { run.expiresAt.Some? && run.expiresAt.value < now }

  /** Where a run's approval stands; none when it needs no approval. */
  function Classify(run: Run, now: int): Option<ApprovalStatus> {
    if !Eligible(run) then None
    else if run.grantPresent then Some(Approved)
    else if Lower(Trim(run.policyDecision)) == "deny" then Some(Denied)
    else if Lapsed(run, now) then Some(Expired)
    else Some(Pending)
  }

  predicate Approves(req: Request) { Upper(Trim(req.decision)) == "APPROVE" }

  predicate WellFormed(req: Request) {
    (Approves(req) || Upper(Trim(req.decision)) == "DENY") && req.ttlSeconds <= MAX_TTL_SECONDS
  }

  function Target(req: Request): ApprovalStatus { if Approves(req) then Approved else Denied }

  function ReasonOf(req: Request): string {
    if Trim(req.reason) != "" then Trim(req.reason)
    else if Approves(req) then "approved by operator"
    else "denied by operator"
  }

  /** The run an applied decision leaves. */
  function Decided(run: Run, req: Request, now: int): Run
    requires run.desktop.Some?
  {
    if Approves(req) then
      var ttl := if req.ttlSeconds <= 0 then DEFAULT_TTL_SECONDS else req.ttlSeconds;
      run.(policyDecision := "ALLOW", grantPresent := true, errorMessage := "",
           status := if run.status.Failed? then PolicyEvaluated else run.status,
           expiresAt := if run.expiresAt.None? then Some(now + ttl * SECOND) else run.expiresAt,
           desktop := Some(run.desktop.value.(humanApprovalGranted := true)))
    else
      run.(policyDecision := "DENY", grantPresent := false, errorMessage := ReasonOf(req),
           status := Failed, expiresAt := Some(now),
           desktop := Some(run.desktop.value.(humanApprovalGranted := false)))
  }

  /** One call: which run, by whom, asking what, when. */
  datatype Call = Call(runId: string, access: Access, request: Request, now: int)

  const RUN_CREATE := "runtime.run.create"

  type Runs = map<string, Run>

  function Respond(runs: Runs, c: Call): Answer {
    if c.runId !in runs then NotFound
    else
      var run, req := runs[c.runId], c.request;
      if !Permits(c.access, RUN_CREATE, run.tenant, run.project) then Forbidden
      else if !Approves(req) && Upper(Trim(req.decision)) != "DENY" then InvalidDecision
      else if req.ttlSeconds > MAX_TTL_SECONDS then InvalidTTL
      else
        match Classify(run, c.now)
        case None => NotEligible
        case Some(Expired) => ApprovalExpired
        case Some(Pending) => Applied(Target(req), ReasonOf(req))
        case Some(status) => if status == Target(req) then Repeated(status) else AlreadyResolved(status)
  }

  function Step(runs: Runs, c: Call): Runs {
    if Respond(runs, c).Applied? then runs[c.runId := Decided(runs[c.runId], c.request, c.now)] else runs
  }

  method ClassifyApprovalStatus(run: Run, now: int) returns (status: Option<ApprovalStatus>)
    ensures status == Classify(run, now)
  {
    if run.desktop.None? { return None; }
    var tier := if run.desktop.value.tier <= 0 then 2 else run.desktop.value.tier;
    if tier < TIER_HIGH_RISK { return None; }
    if run.grantPresent { return Some(Approved); }
    if Lower(Trim(run.policyDecision)) == "deny" { return Some(Denied); }
    if run.expiresAt.Some? && run.expiresAt.value < now { return Some(Expired); }
    return Some(Pending);
  }

  /** The decided run, field by field. */
  method ApplyDecision(stored: Run, req: Request, ttlSeconds: int, now: int) returns (run: Run, reason: string)
    requires stored.desktop.Some? && WellFormed(req)
    requires ttlSeconds == if req.ttlSeconds <= 0 then DEFAULT_TTL_SECONDS else req.ttlSeconds
    ensures run == Decided(stored, req, now) && reason == ReasonOf(req)
  {
    run := stored;
    reason := Trim(req.reason);
    var desktop := run.desktop.value;
    if Approves(req) {
      run := run.(policyDecision := "ALLOW", grantPresent := true);
      if run.status == Failed { run := run.(status := PolicyEvaluated); }
      run := run.(errorMessage := "");
      if run.expiresAt.None? { run := run.(expiresAt := Some(now + ttlSeconds * SECOND)); }
      desktop := desktop.(humanApprovalGranted := true);
      if reason == "" { reason := "approved by operator"; }
    } else {
      run := run.(policyDecision := "DENY", grantPresent := false, status := Failed);
      desktop := desktop.(humanApprovalGranted := false);
      if reason == "" { reason := "denied by operator"; }
      run := run.(errorMessage := reason, expiresAt := Some(now));
    }
    run := run.(desktop := Some(desktop));
  }

  class RunStore {
    var runs: Runs

    constructor (runs: Runs)
      ensures this.runs == runs
    {
      this.runs := runs;
    }

    method HandleApprovalDecision(c: Call) returns (answer: Answer)
      modifies this
      ensures answer == Respond(old(runs), c)
      ensures runs == Step(old(runs), c)
    {
      if c.runId !in runs { return NotFound; }
      var run := runs[c.runId];
      var allowed := CheckPermission(c.access, RUN_CREATE, run.tenant, run.project);
      if !allowed { return Forbidden; }
      var decision := Upper(Trim(c.request.decision));
      if decision != "APPROVE" && decision != "DENY" { return InvalidDecision; }
      var ttlSeconds := c.request.ttlSeconds;
      if ttlSeconds <= 0 { ttlSeconds := DEFAULT_TTL_SECONDS; }
      if ttlSeconds > MAX_TTL_SECONDS { return InvalidTTL; }
      var current := ClassifyApprovalStatus(run, c.now);
      if current.None? { return NotEligible; }
      var target := if decision == "APPROVE" then Approved else Denied;
      if current.value == Expired { return ApprovalExpired; }
      if current.value == target { return Repeated(target); }
      if current.value == Approved || current.value == Denied { return AlreadyResolved(current.value); }
      var reason: string;
      run, reason := ApplyDecision(run, c.request, ttlSeconds, c.now);
      runs := runs[c.runId := run];
      return Applied(target, reason);
    }
  }

  // ---------- any sequence of decisions ----------

  function After(runs: Runs, calls: seq<Call>): Runs {
    if calls == [] then runs else Step(After(runs, calls[..|calls| - 1]), calls[|calls| - 1])
  }

  /** A call that the run, as first stored, would let decide it. */
  predicate CanDecide(runs: Runs, c: Call) {
    && c.runId in runs
    && Permits(c.access, RUN_CREATE, runs[c.runId].tenant, runs[c.runId].project)
    && WellFormed(c.request)
    && Eligible(runs[c.runId])
    && !runs[c.runId].grantPresent && Lower(Trim(runs[c.runId].policyDecision)) != "deny"
    && !Lapsed(runs[c.runId], c.now)
  }

  predicate NoneDecides(runs: Runs, calls: seq<Call>, id: string) {
    forall i :: 0 <= i < |calls| && calls[i].runId == id ==> !CanDecide(runs, calls[i])
  }

  predicate FirstToDecide(runs: Runs, calls: seq<Call>, i: nat) {
    i < |calls| && CanDecide(runs, calls[i]) && NoneDecides(runs, calls[..i], calls[i].runId)
  }

  lemma AppliedWhenItCan(runs: Runs, c: Call)
    ensures Respond(runs, c).Applied? <==> CanDecide(runs, c)
  {
  }

  lemma DecidedStands(run: Run, req: Request, at: int, now: int)
    requires Eligible(run) && WellFormed(req)
    ensures Classify(Decided(run, req, at), now) == Some(Target(req))
  {
    assert Trim("DENY") == "DENY" && Lower("DENY") == "deny";
  }

  lemma {:induction false} UnknownStaysUnknown(runs: Runs, calls: seq<Call>, id: string)
    ensures id in After(runs, calls) <==> id in runs
  {
    if calls != [] { UnknownStaysUnknown(runs, calls[..|calls| - 1], id); }
  }

  lemma {:induction false} AsStoredUntilDecided(runs: Runs, calls: seq<Call>, id: string)
    requires id in runs && NoneDecides(runs, calls, id)
    ensures id in After(runs, calls) && After(runs, calls)[id] == runs[id]
  {
    if calls != [] {
      var before, last := calls[..|calls| - 1], calls[|calls| - 1];
      AsStoredUntilDecided(runs, before, id);
      AppliedWhenItCan(After(runs, before), last);
    }
  }

  /** From the first call that could decide it, a run is what that call made it,
      whatever is asked of it later and whenever. */
  lemma {:induction false} AsFirstDecided(runs: Runs, calls: seq<Call>, i: nat)
    requires FirstToDecide(runs, calls, i)
    ensures
      var c := calls[i];
      c.runId in After(runs, calls) && After(runs, calls)[c.runId] == Decided(runs[c.runId], c.request, c.now)
  {
    var c, before, last := calls[i], calls[..|calls| - 1], calls[|calls| - 1];
    if i == |before| {
      assert before == calls[..i];
      AsStoredUntilDecided(runs, before, c.runId);
      FirstDecides(runs, After(runs, before), c);
    } else {
      assert before[..i] == calls[..i];
      AsFirstDecided(runs, before, i);
      LaterLeavesDecided(After(runs, before), runs[c.runId], c, last);
    }
  }

  lemma FirstDecides(runs: Runs, now: Runs, c: Call)
    requires CanDecide(runs, c) && c.runId in now && now[c.runId] == runs[c.runId]
    ensures Step(now, c) == now[c.runId := Decided(runs[c.runId], c.request, c.now)]
  {
    AppliedWhenItCan(now, c);
  }

  lemma LaterLeavesDecided(now: Runs, run: Run, c: Call, last: Call)
    requires Eligible(run) && WellFormed(c.request)
    requires c.runId in now && now[c.runId] == Decided(run, c.request, c.now)
    ensures c.runId in Step(now, last) && Step(now, last)[c.runId] == now[c.runId]
  {
    if last.runId == c.runId {
      DecidedStands(run, c.request, c.now, last.now);
      AppliedWhenItCan(now, last);
    }
  }

  lemma {:induction false} SomeoneIsFirst(runs: Runs, calls: seq<Call>, id: string) returns (i: nat)
    requires !NoneDecides(runs, calls, id)
    ensures FirstToDecide(runs, calls, i) && calls[i].runId == id
  {
    var before, last := calls[..|calls| - 1], calls[|calls| - 1];
    assert calls == before + [last];
    if NoneDecides(runs, before, id) {
      LastIsFirst(runs, before, last, id);
      i := |before|;
    } else {
      i := SomeoneIsFirst(runs, before, id);
      FirstStaysFirst(runs, before, last, i);
    }
  }

  lemma LastIsFirst(runs: Runs, before: seq<Call>, last: Call, id: string)
    requires NoneDecides(runs, before, id) && !NoneDecides(runs, before + [last], id)
    ensures last.runId == id && FirstToDecide(runs, before + [last], |before|)
  {
    assert (before + [last])[..|before|] == before;
  }

  lemma FirstStaysFirst(runs: Runs, before: seq<Call>, last: Call, i: nat)
    requires FirstToDecide(runs, before, i)
    ensures FirstToDecide(runs, before + [last], i)
  {
    assert (before + [last])[..i] == before[..i];
  }

  /** A run's decision is applied at most once, by the first call that can decide
      the run as it was first stored. */
  lemma AppliedOnceExactly(runs: Runs, calls: seq<Call>, c: Call)
    ensures Respond(After(runs, calls), c).Applied? <==>
            CanDecide(runs, c) && NoneDecides(runs, calls, c.runId)
  {
    UnknownStaysUnknown(runs, calls, c.runId);
    AppliedWhenItCan(After(runs, calls), c);
    if c.runId in runs {
      if NoneDecides(runs, calls, c.runId) {
        AsStoredUntilDecided(runs, calls, c.runId);
      } else {
        var i := SomeoneIsFirst(runs, calls, c.runId);
        AsFirstDecided(runs, calls, i);
        DecidedStands(runs[c.runId], calls[i].request, calls[i].now, c.now);
      }
    }
  }

  /** What a decided run says: the same outcome at every time. */
  predicate TellsOutcome(runs: Runs, c: Call, outcome: ApprovalStatus) {
    && c.runId in runs
    && Classify(runs[c.runId], c.now) == Some(outcome)
    && Step(runs, c) == runs
    && (Permits(c.access, RUN_CREATE, runs[c.runId].tenant, runs[c.runId].project) && WellFormed(c.request) ==>
        Respond(runs, c) == if Target(c.request) == outcome then Repeated(outcome) else AlreadyResolved(outcome))
  }

  lemma ResolvedTellsOutcome(runs: Runs, c: Call, outcome: ApprovalStatus)
    requires c.runId in runs && Classify(runs[c.runId], c.now) == Some(outcome)
    requires outcome == Approved || outcome == Denied
    ensures TellsOutcome(runs, c, outcome)
  {
  }

  /** The outcome is classified the same at every time, whatever the expiry says,
      and every later well-formed call is told of it. */
  lemma OutcomeStandsForever(runs: Runs, calls: seq<Call>, i: nat, later: Call)
    requires FirstToDecide(runs, calls, i) && later.runId == calls[i].runId
    ensures TellsOutcome(After(runs, calls), later, Target(calls[i].request))
  {
    AsFirstDecided(runs, calls, i);
    DecidedStands(runs[later.runId], calls[i].request, calls[i].now, later.now);
    ResolvedTellsOutcome(After(runs, calls), later, Target(calls[i].request));
  }

  /** Once a stored run has lapsed, no later call decides it. */
  lemma LapsedIsNeverDecided(runs: Runs, calls: seq<Call>, c: Call, since: int)
    requires c.runId in runs && Lapsed(runs[c.runId], since) && since <= c.now
    requires forall i :: 0 <= i < |calls| ==> since <= calls[i].now
    ensures !Respond(After(runs, calls), c).Applied?
    ensures c.runId in After(runs, calls) && After(runs, calls)[c.runId] == runs[c.runId]
  {
    AppliedOnceExactly(runs, calls, c);
    AsStoredUntilDecided(runs, calls, c.runId);
  }

  /** A run stored without an expiry never answers as expired, at any time and
      after any calls. */
  lemma NoExpiryNeverLapses(runs: Runs, calls: seq<Call>, c: Call)
    requires c.runId in runs && runs[c.runId].expiresAt.None?
    ensures Respond(After(runs, calls), c) != ApprovalExpired
  {
    if NoneDecides(runs, calls, c.runId) {
      AsStoredUntilDecided(runs, calls, c.runId);
      NotLapsed(After(runs, calls), c);
    } else {
      var i := SomeoneIsFirst(runs, calls, c.runId);
      OutcomeStandsForever(runs, calls, i, c);
      NotExpired(After(runs, calls), c, Target(calls[i].request));
    }
  }

  lemma NotLapsed(runs: Runs, c: Call)
    requires c.runId in runs && runs[c.runId].expiresAt.None?
    ensures Respond(runs, c) != ApprovalExpired
  {
    assert Classify(runs[c.runId], c.now) != Some(Expired);
  }

  lemma NotExpired(runs: Runs, c: Call, outcome: ApprovalStatus)
    requires TellsOutcome(runs, c, outcome) && outcome != Expired
    ensures Respond(runs, c) != ApprovalExpired
  {
  }

  /** The expiry that the approval listing shows: the stored one, or 900 seconds
      from the creation, or from now when there is no creation time. */
  function ShownExpiry(run: Run, now: int): int {
    if run.expiresAt.Some? then run.expiresAt.value
    else (if run.createdAt.Some? then run.createdAt.value else now) + DEFAULT_TTL_SECONDS * SECOND
  }

  predicate Undecided(run: Run) {
    Eligible(run) && !run.grantPresent && Lower(Trim(run.policyDecision)) != "deny"
  }

  /** A complete call on the run, past the expiry that is shown for it. */
  predicate AsksPastShown(runs: Runs, id: string, c: Call)
    requires id in runs
  {
    c.runId == id && WellFormed(c.request) && ShownExpiry(runs[id], c.now) < c.now &&
    Permits(c.access, RUN_CREATE, runs[id].tenant, runs[id].project)
  }

  /** An undecided run is refused at every time past the expiry shown for it
      exactly when an expiry is stored with it (or none is ever passed, because
      it has no creation time and the shown one moves with the clock). */
  lemma ShownExpiryHoldsExactly(runs: Runs, id: string)
    requires id in runs && Undecided(runs[id])
    ensures (forall c :: AsksPastShown(runs, id, c) ==> Respond(runs, c) == ApprovalExpired)
      <==> runs[id].expiresAt.Some? || runs[id].createdAt.None?
  {
    var run := runs[id];
    if run.expiresAt.None? && run.createdAt.Some? {
      var c := LateCall(runs, id);
      NotLapsed(runs, c);
    } else {
      forall c | AsksPastShown(runs, id, c) ensures Respond(runs, c) == ApprovalExpired {
        RefusedWhenLapsed(runs, c);
      }
    }
  }

  /** A complete call past the expiry shown for a run that has a creation time. */
  lemma LateCall(runs: Runs, id: string) returns (c: Call)
    requires id in runs && runs[id].createdAt.Some?
    ensures AsksPastShown(runs, id, c)
  {
    c := Call(id, Access(false, [], None), Request("DENY", 0, ""), 0);
    assert Upper(Trim("DENY")) == "DENY";
    c := c.(now := ShownExpiry(runs[id], 0) + 1);
  }

  lemma RefusedWhenLapsed(runs: Runs, c: Call)
    requires c.runId in runs && Undecided(runs[c.runId]) && Lapsed(runs[c.runId], c.now) && WellFormed(c.request)
    requires Permits(c.access, RUN_CREATE, runs[c.runId].tenant, runs[c.runId].project)
    ensures Respond(runs, c) == ApprovalExpired
  {
  }
}
