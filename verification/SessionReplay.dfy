/** The `session.status.changed` events of a feed, replayed from PENDING, against
    the stored session status. */
module SessionReplay {
  import opened Text
  import opened SessionModel
  import opened SessionInvariants

  /** One event read by a consumer that believes the status is `r`; `None` once
      an event does not start where the previous one ended. */
  function Follow(r: Option<Status>, e: Event): Option<Status> {
    if !e.kind.SessionStatusChanged? then r
    else if r.Some? && e.payload.previous == r then e.payload.status
    else None
  }

  function ReplayFrom(r: Option<Status>, events: seq<Event>): Option<Status>
    decreases |events|
  {
    if events == [] then r else ReplayFrom(Follow(r, events[0]), events[1..])
  }

  function Replay(feed: seq<Event>): Option<Status> { ReplayFrom(Some(Pending), feed) }

  predicate InSync(row: Row) { Replay(row.feed) == Some(row.session.status) }

  ghost predicate AllInSync(s: Store) { forall id :: id in s.rows ==> InSync(s.rows[id]) }

  lemma {:induction false} ReplayConcat(r: Option<Status>, a: seq<Event>, b: seq<Event>)
    ensures ReplayFrom(r, a + b) == ReplayFrom(ReplayFrom(r, a), b)
    decreases |a|
  {
    if a == [] {
      assert a + b == b;
    } else {
      assert (a + b)[1..] == a[1..] + b;
      ReplayConcat(Follow(r, a[0]), a[1..], b);
    }
  }

  predicate Quiet(events: seq<Event>) { forall e :: e in events ==> !e.kind.SessionStatusChanged? }

  lemma {:induction false} ReplayQuiet(r: Option<Status>, events: seq<Event>)
    requires Quiet(events)
    ensures ReplayFrom(r, events) == r
    decreases |events|
  {
    if events != [] {
      assert events[0] in events;
      ReplayQuiet(r, events[1..]);
    }
  }

  /** A broken chain stays broken. */
  lemma {:induction false} ReplayBroken(events: seq<Event>)
    ensures ReplayFrom(None, events) == None
    decreases |events|
  {
    if events != [] { ReplayBroken(events[1..]); }
  }

  lemma ReplayMove(before: Status, after: Status, now: Time)
    ensures ReplayFrom(Some(before), StatusEvents(before, after, now)) == Some(after)
  {
    if before != after {
      var e := StatusEvents(before, after, now);
      assert e[1..] == [];
      assert ReplayFrom(Some(before), e) == ReplayFrom(Follow(Some(before), e[0]), e[1..]);
    }
  }

  /** Events around one status move, none of them a status event. */
  lemma ReplayAround(before: Status, after: Status, pre: seq<Event>, post: seq<Event>, now: Time)
    requires Quiet(pre) && Quiet(post)
    ensures ReplayFrom(Some(before), pre + StatusEvents(before, after, now) + post) == Some(after)
  {
    var move := StatusEvents(before, after, now);
    ReplayConcat(Some(before), pre + move, post);
    ReplayConcat(Some(before), pre, move);
    ReplayQuiet(Some(before), pre);
    ReplayMove(before, after, now);
    ReplayQuiet(Some(after), post);
  }

  // ---------- the handlers ----------

  /** A worker event that the caller labelled `session.status.changed`. */
  predicate Labelled(row: Row, c: Command) {
    c.PostWorkerEvent? && c.admitted && c.kind == Some(SessionStatusChanged) &&
    FindWorker(row.workers, c.worker).Some?
  }

  /** Such an event does no harm only when it reports the session's own status
      as both the worker's old and its new one. */
  predicate Forges(row: Row, c: Command) {
    Labelled(row, c) &&
    !(c.status == Some(row.session.status) &&
      row.workers[FindWorker(row.workers, c.worker).value].status == row.session.status)
  }

  lemma CheckpointEvents(row: Row, c: Command, now: Time)
    requires c.CreateCheckpoint?
    ensures var e := CreateCheckpointEffect(row, c, now);
      ReplayFrom(Some(row.session.status), e.events) == Some(e.row.session.status)
  {
    var e := CreateCheckpointEffect(row, c, now);
    ReplayAround(row.session.status, e.row.session.status, [Plain(ApprovalRequested, now)], [], now);
    assert e.events != [] ==> e.events == e.events + [];
  }

  lemma DecisionEvents(row: Row, c: Command, now: Time)
    requires c.DecideCheckpoint?
    ensures var e := DecideCheckpointEffect(row, c, now);
      ReplayFrom(Some(row.session.status), e.events) == Some(e.row.session.status)
  {
    var e := DecideCheckpointEffect(row, c, now);
    if e.events != [] {
      var before, after := row.session.status, e.row.session.status;
      var post := if before != after && after.IsTerminal() then [Plain(TerminalEventForClose(after), now)] else [];
      assert Quiet(post);
      ReplayAround(before, after, [Plain(ApprovalStatusChanged, now)], post, now);
    }
  }

  lemma AttachEvents(row: Row, c: Command, now: Time)
    requires c.AttachWorker?
    ensures var e := AttachWorkerEffect(row, c, now);
      ReplayFrom(Some(row.session.status), e.events) == Some(e.row.session.status)
  {
    var e := AttachWorkerEffect(row, c, now);
    ReplayAround(row.session.status, e.row.session.status,
                 [Plain(WorkerAttached, now), Plain(WorkerStatusChanged, now)], [], now);
    assert e.events != [] ==> e.events == e.events + [];
  }

  lemma WorkerEventEvents(row: Row, task: Option<TaskStatus>, c: Command, now: Time)
    requires c.PostWorkerEvent?
    ensures var e := PostWorkerEventEffect(row, task, c, now);
      ReplayFrom(Some(row.session.status), e.events) == Some(e.row.session.status) <==> !Forges(row, c)
  {
    var e := PostWorkerEventEffect(row, task, c, now);
    if e.events != [] {
      var worker := row.workers[FindWorker(row.workers, c.worker).value];
      var kind := if c.kind.Some? then c.kind.value else WorkerStatusChanged;
      PostedEvents(worker, kind, c, row.session.status, now);
    }
  }

  lemma PostedEvents(worker: Worker, kind: EventKind, c: Command, before: Status, now: Time)
    requires c.PostWorkerEvent?
    ensures var after := SessionStatusForWorkerStatus(c.status, before);
      ReplayFrom(Some(before), WorkerEvents(worker, kind, c, now) + MoveEvents(before, after, now)) == Some(after)
      <==> kind != SessionStatusChanged || (c.status == Some(before) && worker.status == before)
  {
    var after := SessionStatusForWorkerStatus(c.status, before);
    var events := WorkerEvents(worker, kind, c, now);
    var post := if after != before && TerminalEventForWorker(after).Some?
                then [Plain(TerminalEventForWorker(after).value, now)] else [];
    assert Quiet(events[1..]) && Quiet(post);
    PostedSplits(events, StatusEvents(before, after, now), post);
    ReplayFirst(Some(before), events[0], events[1..] + StatusEvents(before, after, now) + post);
    ReplayAround(before, after, events[1..], post, now);
    var r := Follow(Some(before), events[0]);
    if r != Some(before) { ForgedRest(r, before, after, events[1..], post, now); }
  }

  lemma PostedSplits(events: seq<Event>, move: seq<Event>, post: seq<Event>)
    requires events != []
    ensures events + (move + post) == [events[0]] + (events[1..] + move + post)
  {
  }

  lemma ReplayFirst(r: Option<Status>, first: Event, rest: seq<Event>)
    ensures ReplayFrom(r, [first] + rest) == ReplayFrom(Follow(r, first), rest)
  {
    assert ([first] + rest)[1..] == rest;
  }

  /** After a forged event the rest of the request cannot bring the replay back
      to the stored status. */
  lemma ForgedRest(r: Option<Status>, before: Status, after: Status, pre: seq<Event>, post: seq<Event>, now: Time)
    requires Quiet(pre) && Quiet(post) && r != Some(before)
    requires r.Some? ==> after == SessionStatusForWorkerStatus(r, before)
    ensures ReplayFrom(r, pre + StatusEvents(before, after, now) + post) != Some(after)
  {
    var move := StatusEvents(before, after, now);
    ReplayConcat(r, pre + move, post);
    ReplayConcat(r, pre, move);
    ReplayQuiet(r, pre);
    if before == after {
      ReplayQuiet(r, post);
    } else {
      assert move[1..] == [] && ReplayFrom(r, move) == ReplayFrom(Follow(r, move[0]), []) == None;
      ReplayBroken(post);
    }
  }

  lemma ReplayTwoMoves(a: Status, b: Status, c: Status, work: seq<Event>, last: seq<Event>, now: Time)
    requires Quiet(work) && Quiet(last)
    ensures ReplayFrom(Some(a), StatusEvents(a, b, now) + work + StatusEvents(b, c, now) + last) == Some(c)
  {
    var first, second := StatusEvents(a, b, now), StatusEvents(b, c, now);
    ReplayAround(a, b, [], work, now);
    assert [] + first + work == first + work;
    ReplayAround(b, c, [], last, now);
    assert [] + second + last == second + last;
    ReplayConcat(Some(a), first + work, second + last);
    assert (first + work) + (second + last) == first + work + second + last;
  }

  lemma ReplayApproval(before: Status, running: Status, after: Status, x: Execution, decided: Event, now: Time)
    requires decided.kind.ProposalDecided?
    ensures ReplayFrom(Some(before), StatusEvents(before, running, now) + [Plain(ActionAuthorizedEvent, now)] +
              ExecutionEvents(x, now) + StatusEvents(running, after, now) + [decided]) == Some(after)
  {
    var first, work := StatusEvents(before, running, now), ExecutionEvents(x, now);
    var authorized := [Plain(ActionAuthorizedEvent, now)];
    assert Quiet(work) && Quiet(authorized + work);
    ReplayTwoMoves(before, running, after, authorized + work, [decided], now);
    assert first + (authorized + work) == first + authorized + work;
  }

  lemma ApproveEvents(row: Row, c: Command, p: Proposal, now: Time)
    requires c.DecideProposal?
    ensures var e := ApproveProposalEffect(row, c, p, now);
      ReplayFrom(Some(row.session.status), e.events) == Some(e.row.session.status)
  {
    var before := row.session.status;
    var running := if StartsOnProposal(before) then Running else before;
    var after := if c.execution.NotExecuted? then running else Ready;
    var decided := DecidedEvent(c.proposal, Approve, c.reason, ProposalActionId(row.id, c.proposal),
                                Some(ExecutedActionStatus(c.execution)), p.workerId, now);
    ReplayApproval(before, running, after, c.execution, decided, now);
  }

  lemma ProposalEvents(row: Row, c: Command, now: Time)
    requires c.DecideProposal?
    ensures var e := DecideProposalEffect(row, c, now);
      ReplayFrom(Some(row.session.status), e.events) == Some(e.row.session.status)
  {
    if c.decision != Some(Approve) {
      UnapprovedIsQuiet(row, c, now);
      ReplayQuiet(Some(row.session.status), DecideProposalEffect(row, c, now).events);
    } else {
      ProposalMoves(row, c, now);
      if DecideProposalEffect(row, c, now).events != [] {
        ApprovalIs(row, c, now);
        ApproveEvents(row, c, FindProposal(row.feed, c.proposal).value, now);
      }
    }
  }

  lemma UnapprovedIsQuiet(row: Row, c: Command, now: Time)
    requires c.DecideProposal? && c.decision != Some(Approve)
    ensures Quiet(DecideProposalEffect(row, c, now).events) && DecideProposalEffect(row, c, now).row == row
  {
  }

  lemma ToolActionEvents(row: Row, c: Command, now: Time)
    requires c.CreateToolAction?
    ensures var e := CreateToolActionEffect(row, c, now);
      ReplayFrom(Some(row.session.status), e.events) == Some(e.row.session.status)
  {
    var e := CreateToolActionEffect(row, c, now);
    if e.events != [] {
      ReplayAround(row.session.status, e.row.session.status, [e.events[0]], [], now);
      assert e.events == [e.events[0]] + StatusEvents(row.session.status, e.row.session.status, now) + [];
    }
  }

  lemma CloseEvents(row: Row, c: Command, now: Time)
    requires c.CloseSession?
    ensures var e := CloseSessionEffect(row, c, now);
      ReplayFrom(Some(row.session.status), e.events) == Some(e.row.session.status)
  {
    var e := CloseSessionEffect(row, c, now);
    if e.events != [] {
      var after := e.row.session.status;
      ReplayAround(row.session.status, after, [], [Plain(TerminalEventForClose(after), now)], now);
      assert e.events == [] + StatusEvents(row.session.status, after, now) + [Plain(TerminalEventForClose(after), now)];
    }
  }

  /** A handler keeps the replay equal to the stored status exactly when it is
      not a forged worker event. */
  lemma HandleKeepsSyncExactly(row: Row, task: Option<TaskStatus>, c: Command, now: Time)
    requires OnSession(c) && InSync(row)
    ensures InSync(Committed(Handle(row, task, c, now))) <==> !Forges(row, c)
  {
    var e := Handle(row, task, c, now);
    HandleFrame(row, task, c, now);
    ReplayConcat(Some(Pending), row.feed, e.events);
    match c
    case CreateCheckpoint(_, _, _, _, _, _) => CheckpointEvents(row, c, now);
    case DecideCheckpoint(_, _, _, _, _, _) => DecisionEvents(row, c, now);
    case AttachWorker(_, _, _, _) => AttachEvents(row, c, now);
    case PostWorkerEvent(_, _, _, _, _, _) => WorkerEventEvents(row, task, c, now);
    case DecideProposal(_, _, _, _, _, _) => ProposalEvents(row, c, now);
    case CreateToolAction(_, _, _, _, _, _) => ToolActionEvents(row, c, now);
    case CloseSession(_, _, _, _) => CloseEvents(row, c, now);
  }

  // ---------- runs ----------

  predicate ForgesIn(s: Store, r: Request) {
    OnSession(r.command) && r.command.session in s.rows && Forges(s.rows[r.command.session], r.command)
  }

  lemma StepKeepsSyncExactly(s: Store, r: Request)
    requires AllInSync(s) && Fresh(s, r)
    ensures AllInSync(Step(s, r)) <==> !ForgesIn(s, r)
  {
    var next := Step(s, r);
    if OnSession(r.command) && r.command.session in s.rows {
      var row := s.rows[r.command.session];
      HandleKeepsSyncExactly(
        row, TaskStatusOf(s, r.command.session), r.command, r.now);
      assert next.rows[r.command.session] == Committed(EffectOn(s, r));
    } else if r.command.CreateSession? && r.command.session in next.rows {
      ReplayQuiet(Some(Pending), next.rows[r.command.session].feed);
    }
  }

  /** No request of the run forges a status event in the store it meets. */
  predicate ForgesNowhere(s: Store, run: seq<Request>)
    decreases |run|
  {
    run == [] || (!ForgesIn(s, run[0]) && ForgesNowhere(Step(s, run[0]), run[1..]))
  }

  /** Feed and store agree after every request of the run. */
  ghost predicate InSyncThroughout(s: Store, run: seq<Request>)
    decreases |run|
  {
    AllInSync(s) && (run == [] || InSyncThroughout(Step(s, run[0]), run[1..]))
  }

  lemma {:induction false} InSyncThroughoutExactly(s: Store, run: seq<Request>)
    requires AllInSync(s) && FreshRun(s, run)
    ensures InSyncThroughout(s, run) <==> ForgesNowhere(s, run)
    decreases |run|
  {
    if run != [] {
      StepKeepsSyncExactly(s, run[0]);
      if !ForgesIn(s, run[0]) { InSyncThroughoutExactly(Step(s, run[0]), run[1..]); }
    }
  }

  /** From an empty store, replaying each feed gives the stored status in every
      store on the way exactly when no worker event was labelled as a status
      change with other statuses than the session's own. */
  lemma ReplayIsStateExactly(run: seq<Request>)
    requires FreshRun(EMPTY_STORE, run)
    ensures InSyncThroughout(EMPTY_STORE, run) <==> ForgesNowhere(EMPTY_STORE, run)
  {
    InSyncThroughoutExactly(EMPTY_STORE, run);
  }

  lemma {:induction false} InSyncAtTheEnd(s: Store, run: seq<Request>)
    requires AllInSync(s) && FreshRun(s, run) && ForgesNowhere(s, run)
    ensures AllInSync(Run(s, run))
    decreases |run|
  {
    if run != [] {
      StepKeepsSyncExactly(s, run[0]);
      InSyncAtTheEnd(Step(s, run[0]), run[1..]);
    }
  }
}
