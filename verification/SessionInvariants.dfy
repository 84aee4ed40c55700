/** What every request keeps, and so what every reachable store satisfies. */
module SessionInvariants {
  import opened Text
  import opened SessionModel

  predicate Undecided(c: Checkpoint) { c.status.CheckpointPending? || c.status.CheckpointExpired? }

  predicate Names(workers: seq<Worker>, id: string) { exists i :: 0 <= i < |workers| && workers[i].id == id }

  predicate OnProposals(e: Event) { e.kind.ProposalGenerated? || e.kind.ProposalDecided? }

  predicate ProposalFree(events: seq<Event>) { forall e :: e in events ==> !OnProposals(e) }

  ghost predicate SessionSound(row: Row) {
    && row.session.status.IsSessionStatus()
    && (row.session.status.AwaitingApproval? ==> exists id :: id in row.checkpoints && Undecided(row.checkpoints[id]))
    && (row.session.status.Ready? ==> Names(row.workers, row.session.selectedWorkerId))
    && (row.session.status.IsTerminal() ==> row.session.completedAt.Some?)
  }

  ghost predicate RowSound(row: Row) {
    && SessionSound(row)
    && (if row.workers == [] then row.session.selectedWorkerId == ""
        else row.session.selectedWorkerId != "" && Names(row.workers, row.session.selectedWorkerId))
    && (row.workers == [] ==> ProposalFree(row.feed))
    && (forall id :: id in row.checkpoints ==>
          !row.checkpoints[id].status.CheckpointCancelled? &&
          (row.checkpoints[id].reviewedAt.Some? <==> !Undecided(row.checkpoints[id])))
  }

  ghost predicate Sound(s: Store) {
    RowsSound(s) && LatestSound(s)
  }

  ghost predicate RowsSound(s: Store) {
    forall id :: id in s.rows ==>
      RowSound(s.rows[id]) && s.rows[id].id == id && id != "" && Trimmed(id) && s.rows[id].session.taskId in s.tasks
  }

  /** A task's latest session is one of its own. */
  ghost predicate LatestSound(s: Store) {
    forall t :: t in s.tasks && s.tasks[t].latestSessionId != "" ==>
      s.tasks[t].latestSessionId in s.rows && s.rows[s.tasks[t].latestSessionId].session.taskId == t
  }

  lemma {:induction false} FoundProposalHasEvent(p: Option<Proposal>, events: seq<Event>, target: string)
    requires p.None? && ReadProposal(p, events, target).Some?
    ensures !ProposalFree(events)
    decreases |events|
  {
    if events != [] && !OnProposals(events[0]) {
      FoundProposalHasEvent(p, events[1..], target);
    }
  }

  lemma CheckpointKeepsRow(row: Row, c: Command, now: Time)
    requires c.CreateCheckpoint? && RowSound(row)
    ensures RowSound(Committed(CreateCheckpointEffect(row, c, now)))
  {
    var e := CreateCheckpointEffect(row, c, now);
    if e.outcome == Created {
      assert ProposalFree(e.events);
      var waiting := row.(checkpoints := e.row.checkpoints);
      assert Undecided(waiting.checkpoints[c.checkpoint]);
      MovedRowSound(waiting, e.row.session, row.actions, e.events);
    } else {
      assert row.feed + [] == row.feed;
    }
  }

  /** A row whose checkpoint is overwritten by one that is not pending. */
  lemma ReviewKeepsRow(row: Row, key: string, checkpoint: Checkpoint)
    requires RowSound(row) && key in row.checkpoints && !checkpoint.status.CheckpointCancelled?
    requires checkpoint.reviewedAt.Some? <==> !Undecided(checkpoint)
    requires row.session.status.AwaitingApproval? ==> Undecided(checkpoint)
    ensures RowSound(row.(checkpoints := row.checkpoints[key := checkpoint]))
  {
    var next := row.(checkpoints := row.checkpoints[key := checkpoint]);
    assert Undecided(checkpoint) ==> key in next.checkpoints && Undecided(next.checkpoints[key]);
  }

  lemma FeedKeepsRow(row: Row, events: seq<Event>)
    requires RowSound(row) && ProposalFree(events)
    ensures RowSound(row.(feed := row.feed + events))
  {
  }

  lemma AppliedDecisionKeepsRow(row: Row, key: string, v: Verdict, reason: string, now: Time)
    requires RowSound(row) && key in row.checkpoints
    ensures RowSound(Committed(ApplyDecisionEffect(row, key, v, reason, now)))
  {
    var e := ApplyDecisionEffect(row, key, v, reason, now);
    var moved := row.(session := e.row.session);
    assert RowSound(moved);
    ReviewKeepsRow(moved, key, e.row.checkpoints[key]);
    assert ProposalFree(e.events);
    FeedKeepsRow(e.row, e.events);
  }

  lemma DecisionKeepsRow(row: Row, c: Command, now: Time)
    requires c.DecideCheckpoint? && RowSound(row)
    ensures RowSound(Committed(DecideCheckpointEffect(row, c, now)))
  {
    var e := DecideCheckpointEffect(row, c, now);
    if e.outcome.CheckpointAnswer? && e.outcome.applied {
      AppliedDecisionKeepsRow(row, c.checkpoint, c.decision.value, c.reason, now);
    } else {
      assert e.row.feed + [] == row.feed;
      if e.outcome.ApprovalExpired? {
        ReviewKeepsRow(row, c.checkpoint, row.checkpoints[c.checkpoint].(status := CheckpointExpired));
      }
    }
  }

  lemma AttachKeepsRow(row: Row, c: Command, now: Time)
    requires c.AttachWorker? && c.worker != "" && RowSound(row)
    ensures RowSound(Committed(AttachWorkerEffect(row, c, now)))
  {
    var next := Committed(AttachWorkerEffect(row, c, now));
    if c.admitted && c.valid {
      assert next.workers[|row.workers|].id == c.worker;
    }
  }

  /** Overwriting one worker's status leaves the named workers named. */
  lemma WorkersStayNamed(workers: seq<Worker>, next: seq<Worker>, id: string)
    requires |next| == |workers| && forall i :: 0 <= i < |workers| ==> next[i].id == workers[i].id
    ensures Names(next, id) == Names(workers, id)
  {
    if Names(workers, id) {
      var i :| 0 <= i < |workers| && workers[i].id == id;
      assert next[i].id == id;
    }
  }

  /** What a worker event may change. */
  predicate MovesWorker(e: Effect, row: Row) {
    var after := e.row.session;
    && e.row == row.(session := after, workers := e.row.workers)
    && |e.row.workers| == |row.workers|
    && (forall i :: 0 <= i < |row.workers| ==> e.row.workers[i].id == row.workers[i].id)
    && after.selectedWorkerId == row.session.selectedWorkerId && after.status.IsSessionStatus()
    && (after.status.AwaitingApproval? ==> row.session.status.AwaitingApproval?)
    && (after.status.IsTerminal() ==> after == row.session || after.completedAt.Some?)
    && (row.workers == [] ==> e.events == [] && after == row.session)
  }

  /** A worker's status moves a live session to a live or terminal status. */
  lemma WorkerMoves(row: Row, task: Option<TaskStatus>, c: Command, now: Time)
    requires c.PostWorkerEvent? && row.session.status.IsSessionStatus()
    ensures MovesWorker(PostWorkerEventEffect(row, task, c, now), row)
  {
    var index := FindWorker(row.workers, c.worker);
    if index.Some? {
      AppliedWorkerMoves(row, task, index.value, if c.kind.Some? then c.kind.value else WorkerStatusChanged, c, now);
    }
  }

  lemma AppliedWorkerMoves(
    row: Row, task: Option<TaskStatus>, index: nat, kind: EventKind, c: Command, now: Time)
    requires c.PostWorkerEvent? && index < |row.workers| && row.session.status.IsSessionStatus()
    ensures MovesWorker(WorkerEventEffect(row, task, index, kind, c, now), row)
  {
    WorkerStatusMoves(c.status, row.session.status);
    var e := WorkerEventEffect(row, task, index, kind, c, now);
    assert e.row == row.(session := e.row.session, workers := e.row.workers);
  }

  lemma WorkerStatusMoves(status: Option<Status>, before: Status)
    requires before.IsSessionStatus()
    ensures var after := SessionStatusForWorkerStatus(status, before);
      && after.IsSessionStatus()
      && (after.AwaitingApproval? ==> before.AwaitingApproval?)
      && (after.Pending? ==> before.Pending?)
  {
  }

  lemma WorkerEventKeepsRow(row: Row, task: Option<TaskStatus>, c: Command, now: Time)
    requires c.PostWorkerEvent? && RowSound(row)
    ensures RowSound(Committed(PostWorkerEventEffect(row, task, c, now)))
  {
    var e := PostWorkerEventEffect(row, task, c, now);
    WorkerMoves(row, task, c, now);
    if row.workers == [] {
      assert row.feed + [] == row.feed && e.row.workers == row.workers;
    } else {
      WorkersStayNamed(row.workers, e.row.workers, row.session.selectedWorkerId);
      WorkedRowSound(row.(workers := e.row.workers), e.row.session, row.actions, row.feed + e.events);
    }
  }

  /** On a session with a worker, any non-waiting status with its completion
      time will do. */
  lemma WorkedRowSound(row: Row, session: Session, actions: map<string, ToolAction>, feed: seq<Event>)
    requires RowSound(row) && row.workers != []
    requires session.selectedWorkerId == row.session.selectedWorkerId && session.status.IsSessionStatus()
    requires session.status.AwaitingApproval? ==> row.session.status.AwaitingApproval?
    requires session.status.IsTerminal() ==> session.completedAt.Some?
    ensures RowSound(row.(session := session, actions := actions, feed := feed))
  {
  }

  /** What a proposal decision does to the session. */
  lemma ProposalMoves(row: Row, c: Command, now: Time)
    requires c.DecideProposal?
    ensures var e := DecideProposalEffect(row, c, now);
      && e.row == row.(session := e.row.session, actions := e.row.actions)
      && e.row.session.taskId == row.session.taskId
      && (e.events == [] ==> e.row == row)
      && (e.events != [] ==> FindProposal(row.feed, c.proposal).Some?)
      && e.row.session.selectedWorkerId == row.session.selectedWorkerId
      && (e.row.session == row.session || e.row.session.status.Running? || e.row.session.status.Ready?)
  {
  }

  lemma DenialMoves(row: Row, c: Command, now: Time)
    requires c.DecideProposal? && c.decision == Some(Deny)
    ensures DecideProposalEffect(row, c, now).row == row
  {
  }

  lemma ApprovalIs(row: Row, c: Command, now: Time)
    requires c.DecideProposal? && c.decision != Some(Deny) && FindProposal(row.feed, c.proposal).Some?
    requires DecideProposalEffect(row, c, now).events != []
    ensures DecideProposalEffect(row, c, now)
         == ApproveProposalEffect(row, c, FindProposal(row.feed, c.proposal).value, now)
  {
  }

  lemma ProposalKeepsRow(row: Row, c: Command, now: Time)
    requires c.DecideProposal? && RowSound(row)
    ensures RowSound(Committed(DecideProposalEffect(row, c, now)))
  {
    var e := DecideProposalEffect(row, c, now);
    ProposalMoves(row, c, now);
    if e.events == [] {
      assert row.feed + [] == row.feed;
    } else {
      ProposalNeedsWorker(row, c.proposal);
      WorkedRowSound(row, e.row.session, e.row.actions, row.feed + e.events);
    }
  }

  lemma ProposalNeedsWorker(row: Row, proposal: string)
    requires RowSound(row) && FindProposal(row.feed, proposal).Some?
    ensures row.workers != []
  {
    FoundProposalHasEvent(None, Window(row.feed), Trim(proposal));
  }

  lemma ToolActionKeepsRow(row: Row, c: Command, now: Time)
    requires c.CreateToolAction? && RowSound(row)
    ensures RowSound(Committed(CreateToolActionEffect(row, c, now)))
  {
    var e := CreateToolActionEffect(row, c, now);
    if e.outcome == Created {
      ToolActionEventsFree(row, c, now);
      MovedRowSound(row, e.row.session, e.row.actions, e.events);
    } else {
      assert row.feed + [] == row.feed;
    }
  }

  /** A session that neither waits nor is READY needs only its completion time. */
  lemma MovedRowSound(row: Row, session: Session, actions: map<string, ToolAction>, events: seq<Event>)
    requires RowSound(row) && ProposalFree(events)
    requires session == row.session || SessionSound(row.(session := session))
    requires session.selectedWorkerId == row.session.selectedWorkerId
    ensures RowSound(row.(session := session, actions := actions, feed := row.feed + events))
  {
  }

  lemma CloseKeepsRow(row: Row, c: Command, now: Time)
    requires c.CloseSession? && RowSound(row)
    ensures RowSound(Committed(CloseSessionEffect(row, c, now)))
  {
    var e := CloseSessionEffect(row, c, now);
    if e.outcome == Created {
      CloseEventsFree(row, c, now);
      MovedRowSound(row, e.row.session, row.actions, e.events);
    } else {
      assert row.feed + [] == row.feed;
    }
  }

  lemma HandleKeepsRow(row: Row, task: Option<TaskStatus>, c: Command, now: Time)
    requires OnSession(c) && RowSound(row) && (c.AttachWorker? ==> c.worker != "")
    ensures RowSound(Committed(Handle(row, task, c, now)))
  {
    match c
    case CreateCheckpoint(_, _, _, _, _, _) => CheckpointKeepsRow(row, c, now);
    case DecideCheckpoint(_, _, _, _, _, _) => DecisionKeepsRow(row, c, now);
    case AttachWorker(_, _, _, _) => AttachKeepsRow(row, c, now);
    case PostWorkerEvent(_, _, _, _, _, _) => WorkerEventKeepsRow(row, task, c, now);
    case DecideProposal(_, _, _, _, _, _) => ProposalKeepsRow(row, c, now);
    case CreateToolAction(_, _, _, _, _, _) => ToolActionKeepsRow(row, c, now);
    case CloseSession(_, _, _, _) => CloseKeepsRow(row, c, now);
  }

  // ---------- the events of a handler ----------

  predicate Applied(o: Outcome) { o.ProposalAnswer? && o.applied }

  /** The events end with the decision event and have no other about proposals. */
  predicate EndsDeciding(events: seq<Event>, c: Command, verdict: Verdict, actionId: string)
    requires c.DecideProposal?
  {
    && events != [] && ProposalFree(events[..|events| - 1])
    && var decided := events[|events| - 1];
    && decided.kind == ProposalDecided && decided.payload.proposalId == Trim(c.proposal)
    && decided.payload.decision == Some(verdict) && decided.payload.actionId == actionId
  }

  lemma ApprovalEventShape(row: Row, c: Command, p: Proposal, now: Time)
    requires c.DecideProposal?
    ensures EndsDeciding(ApproveProposalEffect(row, c, p, now).events, c, Approve, ProposalActionId(row.id, c.proposal))
  {
    var e := ApproveProposalEffect(row, c, p, now);
    var before := row.session.status;
    var running := if StartsOnProposal(before) then Running else before;
    var after := if c.execution.NotExecuted? then running else Ready;
    var a := StatusEvents(before, running, now) + [Plain(ActionAuthorizedEvent, now)];
    var b := ExecutionEvents(c.execution, now);
    var work := a + b + StatusEvents(running, after, now);
    assert ProposalFree(a) && ProposalFree(b) && ProposalFree(StatusEvents(running, after, now));
    assert ProposalFree(a + b) && ProposalFree(work);
    assert e.events[..|e.events| - 1] == work;
  }

  /** A proposal decision logs nothing, or ends with the decision event. */
  lemma ProposalEventShape(row: Row, c: Command, now: Time)
    requires c.DecideProposal?
    ensures var e := DecideProposalEffect(row, c, now);
      if Applied(e.outcome) then
        && c.decision == Some(e.outcome.verdict)
        && e.outcome.actionId == (if e.outcome.verdict.Approve? then ProposalActionId(row.id, c.proposal) else "")
        && EndsDeciding(e.events, c, e.outcome.verdict, e.outcome.actionId)
      else e.events == []
  {
    var e := DecideProposalEffect(row, c, now);
    if Applied(e.outcome) {
      var p := FindProposal(row.feed, c.proposal).value;
      if c.decision == Some(Deny) {
        DenialEventShape(c, p.workerId, now);
      } else {
        ApprovalEventShape(row, c, p, now);
      }
    }
  }

  lemma DenialEventShape(c: Command, workerId: string, now: Time)
    requires c.DecideProposal?
    ensures EndsDeciding([DecidedEvent(c.proposal, Deny, c.reason, "", None, workerId, now)], c, Deny, "")
  {
  }

  /** A worker event starts with the caller's event; the rest is not about
      proposals. */
  lemma WorkerEventShape(row: Row, task: Option<TaskStatus>, c: Command, now: Time)
    requires c.PostWorkerEvent?
    ensures var e := PostWorkerEventEffect(row, task, c, now);
      if e.outcome == Created then
        && e.events != [] && ProposalFree(e.events[1..])
        && e.events[0].payload.proposalId == "" && e.events[0].payload.nestedProposalId == c.nestedProposalId
        && e.events[0].kind == (if c.kind.Some? then c.kind.value else WorkerStatusChanged)
      else e.events == []
    ensures c.admitted && FindWorker(row.workers, c.worker).Some? && (c.kind.Some? || c.status.Some?)
      <==> PostWorkerEventEffect(row, task, c, now).outcome == Created
  {
    var index := FindWorker(row.workers, c.worker);
    if index.Some? {
      var kind := if c.kind.Some? then c.kind.value else WorkerStatusChanged;
      PostedEventShape(row.workers[index.value], kind, c, row.session.status, now);
    }
  }

  lemma PostedEventShape(worker: Worker, kind: EventKind, c: Command, before: Status, now: Time)
    requires c.PostWorkerEvent?
    ensures var events := WorkerEvents(worker, kind, c, now)
              + MoveEvents(before, SessionStatusForWorkerStatus(c.status, before), now);
      && events != [] && ProposalFree(events[1..])
      && events[0].payload.proposalId == "" && events[0].payload.nestedProposalId == c.nestedProposalId
      && events[0].kind == kind
  {
    MoveEventsFree(before, SessionStatusForWorkerStatus(c.status, before), now);
    WorkerEventsFree(worker, kind, c, now);
    FirstStaysFirst(WorkerEvents(worker, kind, c, now),
                    MoveEvents(before, SessionStatusForWorkerStatus(c.status, before), now));
  }

  lemma FirstStaysFirst(a: seq<Event>, b: seq<Event>)
    requires a != [] && ProposalFree(a[1..]) && ProposalFree(b)
    ensures a + b != [] && (a + b)[0] == a[0] && ProposalFree((a + b)[1..])
  {
    assert (a + b)[1..] == a[1..] + b;
  }

  lemma WorkerEventsFree(worker: Worker, kind: EventKind, c: Command, now: Time)
    requires c.PostWorkerEvent?
    ensures WorkerEvents(worker, kind, c, now) != [] && ProposalFree(WorkerEvents(worker, kind, c, now)[1..])
  {
  }

  lemma MoveEventsFree(before: Status, after: Status, now: Time)
    ensures ProposalFree(MoveEvents(before, after, now))
  {
  }

  lemma DecisionEventsFree(row: Row, c: Command, now: Time)
    requires c.DecideCheckpoint?
    ensures ProposalFree(DecideCheckpointEffect(row, c, now).events)
  {
  }

  lemma ToolActionEventsFree(row: Row, c: Command, now: Time)
    requires c.CreateToolAction?
    ensures ProposalFree(CreateToolActionEffect(row, c, now).events)
  {
  }

  lemma CloseEventsFree(row: Row, c: Command, now: Time)
    requires c.CloseSession?
    ensures ProposalFree(CloseSessionEffect(row, c, now).events)
  {
  }

  lemma OtherEventsFree(row: Row, task: Option<TaskStatus>, c: Command, now: Time)
    requires OnSession(c) && !c.DecideProposal? && !c.PostWorkerEvent?
    ensures ProposalFree(Handle(row, task, c, now).events)
  {
    match c
    case CreateCheckpoint(_, _, _, _, _, _) => assert ProposalFree(CreateCheckpointEffect(row, c, now).events);
    case DecideCheckpoint(_, _, _, _, _, _) => DecisionEventsFree(row, c, now);
    case AttachWorker(_, _, _, _) => assert ProposalFree(AttachWorkerEffect(row, c, now).events);
    case CreateToolAction(_, _, _, _, _, _) => ToolActionEventsFree(row, c, now);
    case CloseSession(_, _, _, _) => CloseEventsFree(row, c, now);
  }

  predicate Framed(e: Effect, row: Row) {
    e.row.id == row.id && e.row.session.taskId == row.session.taskId && e.row.feed == row.feed
  }

  /** A handler leaves a row's ID and task alone and only adds to its feed. */
  lemma HandleFrame(row: Row, task: Option<TaskStatus>, c: Command, now: Time)
    requires OnSession(c)
    ensures Framed(Handle(row, task, c, now), row)
  {
    match c
    case PostWorkerEvent(_, _, _, _, _, _) => WorkerEventFrame(row, task, c, now);
    case DecideProposal(_, _, _, _, _, _) => ProposalMoves(row, c, now);
    case CreateCheckpoint(_, _, _, _, _, _) => assert Framed(CreateCheckpointEffect(row, c, now), row);
    case DecideCheckpoint(_, _, _, _, _, _) => assert Framed(DecideCheckpointEffect(row, c, now), row);
    case AttachWorker(_, _, _, _) => assert Framed(AttachWorkerEffect(row, c, now), row);
    case CreateToolAction(_, _, _, _, _, _) => assert Framed(CreateToolActionEffect(row, c, now), row);
    case CloseSession(_, _, _, _) => assert Framed(CloseSessionEffect(row, c, now), row);
  }

  lemma WorkerEventFrame(row: Row, task: Option<TaskStatus>, c: Command, now: Time)
    requires c.PostWorkerEvent?
    ensures Framed(PostWorkerEventEffect(row, task, c, now), row)
  {
  }

  /** A request leaves the other sessions alone. */
  lemma StepOnOther(s: Store, r: Request, session: string)
    requires session in s.rows && Fresh(s, r) && !(OnSession(r.command) && r.command.session == session)
    ensures session in Step(s, r).rows && Step(s, r).rows[session] == s.rows[session]
  {
  }

  /** Its own session becomes what its handler makes of it. */
  lemma StepOnOwn(s: Store, r: Request)
    requires OnSession(r.command) && r.command.session in s.rows
    ensures r.command.session in Step(s, r).rows
    ensures Step(s, r).rows[r.command.session] == Committed(EffectOn(s, r))
    ensures Answer(s, r) == EffectOn(s, r).outcome
  {
  }

  lemma CommitKeepsSound(s: Store, id: string, e: Effect)
    requires Sound(s) && id in s.rows && RowSound(Committed(e))
    requires e.row.id == id && e.row.session.taskId == s.rows[id].session.taskId
    ensures Sound(Commit(s, id, e))
  {
    CommitKeepsLatest(s, id, e);
  }

  lemma CommitKeepsLatest(s: Store, id: string, e: Effect)
    requires Sound(s) && id in s.rows
    requires e.row.id == id && e.row.session.taskId == s.rows[id].session.taskId
    ensures LatestSound(Commit(s, id, e))
  {
  }

  lemma StepKeepsSound(s: Store, r: Request)
    requires Sound(s) && Fresh(s, r)
    ensures Sound(Step(s, r))
  {
    if OnSession(r.command) && r.command.session in s.rows {
      HandleKeepsRow(s.rows[r.command.session], TaskStatusOf(s, r.command.session), r.command, r.now);
      HandleFrame(s.rows[r.command.session], TaskStatusOf(s, r.command.session), r.command, r.now);
      CommitKeepsSound(s, r.command.session, EffectOn(s, r));
    } else {
      OtherStepKeepsSound(s, r);
    }
  }

  lemma OtherStepKeepsSound(s: Store, r: Request)
    requires Sound(s) && Fresh(s, r) && !(OnSession(r.command) && r.command.session in s.rows)
    ensures Sound(Step(s, r))
  {
    if r.command.CreateSession? && r.command.task in s.tasks && r.command.admitted && r.command.legacyFits {
      NewRowIsSound(r.command.session, r.command.task, r.now);
      NewSessionKeepsSound(s, r.command.session, r.command.task, NewRow(r.command.session, r.command.task, r.now));
    }
  }

  lemma NewRowIsSound(session: string, task: string, now: Time)
    ensures RowSound(NewRow(session, task, now))
  {
  }

  lemma NewSessionKeepsSound(s: Store, session: string, task: string, row: Row)
    requires Sound(s) && session !in s.rows && task in s.tasks
    requires RowSound(row) && row.id == session && session != "" && Trimmed(session) && row.session.taskId == task
    ensures Sound(Store(s.tasks[task := Task(TaskInProgress, session)], s.rows[session := row]))
  {
  }

  // ---------- the task follows its session ----------

  /** The task status a session status stands for; a PENDING session already
      has its task in progress. */
  function Projected(status: Status): TaskStatus { TaskStatusForSessionStatus(status, TaskInProgress) }

  ghost predicate OnlySession(s: Store, task: string, session: string) {
    session in s.rows && s.rows[session].session.taskId == task &&
    forall id :: id in s.rows && s.rows[id].session.taskId == task ==> id == session
  }

  ghost predicate TasksFollow(s: Store) {
    forall t, id :: t in s.tasks && OnlySession(s, t, id) ==>
      s.tasks[t].status == Projected(s.rows[id].session.status)
  }

  /** The effect leaves the task at what its session's status stands for. */
  predicate TaskInStep(e: Effect, task: TaskStatus) {
    (if e.task.Some? then e.task.value else task) == Projected(e.row.session.status)
  }

  lemma EventKeepsTaskInStep(row: Row, task: TaskStatus, c: Command, now: Time)
    requires c.PostWorkerEvent? && row.session.status.IsSessionStatus() && task == Projected(row.session.status)
    ensures TaskInStep(PostWorkerEventEffect(row, Some(task), c, now), task)
  {
    var after := SessionStatusForWorkerStatus(c.status, row.session.status);
    WorkerStatusMoves(c.status, row.session.status);
    assert Projected(after) == TaskStatusForSessionStatus(after, task);
  }

  lemma ProposalKeepsTaskInStep(row: Row, task: TaskStatus, c: Command, now: Time)
    requires c.DecideProposal? && task == Projected(row.session.status)
    ensures TaskInStep(DecideProposalEffect(row, c, now), task)
  {
  }

  lemma DecisionKeepsTaskInStep(row: Row, task: TaskStatus, c: Command, now: Time)
    requires c.DecideCheckpoint? && row.session.status.IsSessionStatus() && task == Projected(row.session.status)
    ensures TaskInStep(DecideCheckpointEffect(row, c, now), task)
  {
  }

  lemma ToolActionKeepsTaskInStep(row: Row, task: TaskStatus, c: Command, now: Time)
    requires c.CreateToolAction? && row.session.status.IsSessionStatus() && task == Projected(row.session.status)
    ensures TaskInStep(CreateToolActionEffect(row, c, now), task)
  {
  }

  lemma HandleKeepsTaskInStep(row: Row, task: TaskStatus, c: Command, now: Time)
    requires OnSession(c) && row.session.status.IsSessionStatus() && task == Projected(row.session.status)
    ensures TaskInStep(Handle(row, Some(task), c, now), task)
  {
    match c
    case PostWorkerEvent(_, _, _, _, _, _) => EventKeepsTaskInStep(row, task, c, now);
    case DecideProposal(_, _, _, _, _, _) => ProposalKeepsTaskInStep(row, task, c, now);
    case CreateCheckpoint(_, _, _, _, _, _) => assert TaskInStep(CreateCheckpointEffect(row, c, now), task);
    case DecideCheckpoint(_, _, _, _, _, _) => DecisionKeepsTaskInStep(row, task, c, now);
    case AttachWorker(_, _, _, _) => assert TaskInStep(AttachWorkerEffect(row, c, now), task);
    case CreateToolAction(_, _, _, _, _, _) => ToolActionKeepsTaskInStep(row, task, c, now);
    case CloseSession(_, _, _, _) => assert TaskInStep(CloseSessionEffect(row, c, now), task);
  }

  lemma StepKeepsTasks(s: Store, r: Request)
    requires Sound(s) && TasksFollow(s) && Fresh(s, r)
    ensures TasksFollow(Step(s, r))
  {
    var next := Step(s, r);
    forall t, id | t in next.tasks && OnlySession(next, t, id)
      ensures next.tasks[t].status == Projected(next.rows[id].session.status)
    {
      if OnSession(r.command) && r.command.session in s.rows {
        StepOnSessionKeepsTask(s, r, t, id);
      } else if r.command.CreateSession? && next != s {
        assert r.command.session in next.rows;
        if id != r.command.session { CreationKeepsOthers(s, r, t, id); }
      } else {
        assert id in s.rows;
        assert OnlySession(s, t, id);
      }
    }
  }

  lemma CreationKeepsOthers(s: Store, r: Request, t: string, id: string)
    requires r.command.CreateSession? && r.command.session !in s.rows
    requires r.command.task in s.tasks && r.command.admitted && r.command.legacyFits
    requires OnlySession(Step(s, r), t, id) && id != r.command.session
    ensures t != r.command.task && OnlySession(s, t, id)
  {
    var next := Step(s, r);
    assert next.rows[r.command.session].session.taskId == r.command.task;
    forall other | other in s.rows && s.rows[other].session.taskId == t
      ensures other == id
    {
      assert next.rows[other] == s.rows[other];
    }
  }

  lemma StepOnSessionKeepsTask(s: Store, r: Request, t: string, id: string)
    requires Sound(s) && TasksFollow(s) && OnSession(r.command) && r.command.session in s.rows
    requires t in s.tasks && OnlySession(Step(s, r), t, id)
    ensures Step(s, r).tasks[t].status == Projected(Step(s, r).rows[id].session.status)
  {
    var sid := r.command.session;
    var row := s.rows[sid];
    var task := Some(s.tasks[row.session.taskId].status);
    HandleFrame(row, task, r.command, r.now);
    var next := Step(s, r);
    forall other | other in s.rows && s.rows[other].session.taskId == t
      ensures other == id
    {
      assert next.rows[other].session.taskId == t;
    }
    assert OnlySession(s, t, id);
    if sid == id {
      HandleKeepsTaskInStep(row, task.value, r.command, r.now);
    } else {
      assert row.session.taskId != t;
    }
  }

  /** Every store the requests can reach is sound, and a task with a single
      session carries the status that session stands for. */
  lemma {:induction false} ReachableIsSound(s: Store, run: seq<Request>)
    requires Sound(s) && TasksFollow(s) && FreshRun(s, run)
    ensures Sound(Run(s, run)) && TasksFollow(Run(s, run))
    decreases |run|
  {
    if run != [] {
      StepKeepsSound(s, run[0]);
      StepKeepsTasks(s, run[0]);
      ReachableIsSound(Step(s, run[0]), run[1..]);
    }
  }

  lemma RunsFromEmptyAreSound(run: seq<Request>)
    requires FreshRun(EMPTY_STORE, run)
    ensures Sound(Run(EMPTY_STORE, run)) && TasksFollow(Run(EMPTY_STORE, run))
  {
    ReachableIsSound(EMPTY_STORE, run);
  }

  // ---------- leaving a terminal status ----------

  /** An approval that a terminal session's handler would apply. */
  predicate AppliesApproval(row: Row, c: Command, now: Time) {
    c.DecideCheckpoint? && c.admitted && c.bindingAllows && c.decision == Some(Approve) &&
    c.checkpoint in row.checkpoints && row.checkpoints[c.checkpoint].status.CheckpointPending? &&
    now <= row.checkpoints[c.checkpoint].expiresAt
  }

  /** A terminal session is reopened by an applied APPROVE and by nothing else. */
  lemma TerminalReopensExactlyOnApproval(row: Row, task: Option<TaskStatus>, c: Command, now: Time)
    requires OnSession(c) && row.session.status.IsTerminal()
    ensures !Handle(row, task, c, now).row.session.status.IsTerminal() <==> AppliesApproval(row, c, now)
  {
  }

  predicate HasPending(row: Row) {
    exists id :: id in row.checkpoints && row.checkpoints[id].status.CheckpointPending?
  }

  /** The requests create no checkpoint on the session. */
  predicate NoNewCheckpoint(run: seq<Request>, session: string) {
    forall r :: r in run ==> !(r.command.CreateCheckpoint? && r.command.session == session)
  }

  predicate ClosedForGood(s: Store, session: string) {
    session in s.rows && s.rows[session].session.status.IsTerminal() && !HasPending(s.rows[session])
  }

  lemma StepKeepsClosed(s: Store, r: Request, session: string)
    requires ClosedForGood(s, session) && Fresh(s, r)
    requires !(r.command.CreateCheckpoint? && r.command.session == session)
    ensures ClosedForGood(Step(s, r), session)
  {
    if OnSession(r.command) && r.command.session == session {
      var row := s.rows[session];
      var e := EffectOn(s, r);
      TerminalReopensExactlyOnApproval(row, TaskStatusOf(s, session), r.command, r.now);
      forall id | id in e.row.checkpoints
        ensures !e.row.checkpoints[id].status.CheckpointPending?
      {
        assert id in row.checkpoints;
      }
    }
  }

  lemma {:induction false} ClosedStaysClosed(s: Store, run: seq<Request>, session: string)
    requires ClosedForGood(s, session) && FreshRun(s, run) && NoNewCheckpoint(run, session)
    ensures ClosedForGood(Run(s, run), session)
    decreases |run|
  {
    if run != [] {
      assert run[0] in run;
      StepKeepsClosed(s, run[0], session);
      forall r | r in run[1..] ensures r in run { }
      ClosedStaysClosed(Step(s, run[0]), run[1..], session);
    }
  }

  /** A checkpoint that can still be approved at time t. */
  predicate HasLive(row: Row, t: Time) {
    exists id :: id in row.checkpoints && row.checkpoints[id].status.CheckpointPending? &&
      t <= row.checkpoints[id].expiresAt
  }

  /** The clock of these requests has reached t. */
  predicate NotBefore(run: seq<Request>, t: Time) { forall r :: r in run ==> t <= r.now }

  predicate ClosedFrom(s: Store, session: string, t: Time) {
    session in s.rows && s.rows[session].session.status.IsTerminal() && !HasLive(s.rows[session], t)
  }

  lemma StepKeepsClosedFrom(s: Store, r: Request, session: string, t: Time)
    requires ClosedFrom(s, session, t) && Fresh(s, r) && t <= r.now
    requires !(r.command.CreateCheckpoint? && r.command.session == session)
    ensures ClosedFrom(Step(s, r), session, t)
  {
    if OnSession(r.command) && r.command.session == session {
      var row := s.rows[session];
      var e := EffectOn(s, r);
      TerminalReopensExactlyOnApproval(row, TaskStatusOf(s, session), r.command, r.now);
      forall id | id in e.row.checkpoints && e.row.checkpoints[id].status.CheckpointPending?
        ensures e.row.checkpoints[id].expiresAt < t
      {
        assert id in row.checkpoints && row.checkpoints[id] == e.row.checkpoints[id];
      }
    }
  }

  /** From a time at which no PENDING checkpoint of it can be approved any more, a
      terminal session stays terminal over every run that makes no new one. */
  lemma {:induction false} ClosedFromStaysClosed(s: Store, run: seq<Request>, session: string, t: Time)
    requires ClosedFrom(s, session, t) && FreshRun(s, run) && NoNewCheckpoint(run, session) && NotBefore(run, t)
    ensures ClosedFrom(Run(s, run), session, t)
    decreases |run|
  {
    if run != [] {
      assert run[0] in run;
      StepKeepsClosedFrom(s, run[0], session, t);
      forall r | r in run[1..] ensures r in run { }
      ClosedFromStaysClosed(Step(s, run[0]), run[1..], session, t);
    }
  }

  /** This run, from time t on and without a new checkpoint, makes the session live. */
  predicate Reopens(s: Store, run: seq<Request>, session: string, t: Time) {
    FreshRun(s, run) && NoNewCheckpoint(run, session) && NotBefore(run, t) &&
    session in Run(s, run).rows && !Run(s, run).rows[session].session.status.IsTerminal()
  }

  ghost predicate CanReopenFrom(s: Store, session: string, t: Time) { exists run :: Reopens(s, run, session, t) }

  /** Without a new checkpoint, a terminal session can come back to life from time t
      on exactly when one of its checkpoints is PENDING and not past its expiry. */
  lemma ReopensExactlyWithLiveCheckpoint(s: Store, session: string, t: Time)
    requires session in s.rows && s.rows[session].session.status.IsTerminal()
    ensures CanReopenFrom(s, session, t) <==> HasLive(s.rows[session], t)
  {
    var row := s.rows[session];
    if HasLive(row, t) {
      var id :| id in row.checkpoints && row.checkpoints[id].status.CheckpointPending? &&
        t <= row.checkpoints[id].expiresAt;
      var r := Request(DecideCheckpoint(session, id, Some(Approve), "", true, true), t);
      assert Run(s, [r]) == Run(Step(s, r), []) == Step(s, r);
      assert FreshRun(Step(s, r), []) && FreshRun(s, [r]);
      TerminalReopensExactlyOnApproval(row, TaskStatusOf(s, session), r.command, t);
      assert Reopens(s, [r], session, t);
    } else if CanReopenFrom(s, session, t) {
      var run :| Reopens(s, run, session, t);
      ClosedFromStaysClosed(s, run, session, t);
    }
  }

  // ---------- a checkpoint is decided once ----------

  predicate Resolved(s: Store, session: string, checkpoint: string) {
    session in s.rows && checkpoint in s.rows[session].checkpoints &&
    !s.rows[session].checkpoints[checkpoint].status.CheckpointPending?
  }

  predicate Decides(r: Request, session: string, checkpoint: string) {
    r.command.DecideCheckpoint? && r.command.session == session && r.command.checkpoint == checkpoint
  }

  /** How many of the requests are applied decisions on the checkpoint. */
  function AppliedDecisions(s: Store, run: seq<Request>, session: string, checkpoint: string): nat
    decreases |run|
  {
    if run == [] then 0
    else
      (if Decides(run[0], session, checkpoint) && Answer(s, run[0]).CheckpointAnswer? && Answer(s, run[0]).applied
       then 1 else 0)
      + AppliedDecisions(Step(s, run[0]), run[1..], session, checkpoint)
  }

  /** The row holds this very checkpoint. */
  predicate Holds(row: Row, checkpoint: string, c: Checkpoint) {
    checkpoint in row.checkpoints && row.checkpoints[checkpoint] == c
  }

  /** The command decides no such checkpoint and creates none under its ID. */
  predicate LeavesCheckpoint(c: Command, checkpoint: string) {
    (c.DecideCheckpoint? ==> c.checkpoint != checkpoint) && (c.CreateCheckpoint? ==> c.checkpoint != checkpoint)
  }

  /** A handler changes no checkpoint but the one its command is about. */
  lemma HandleLeavesCheckpoint(
    row: Row, task: Option<TaskStatus>, c: Command, now: Time, checkpoint: string, was: Checkpoint)
    requires OnSession(c) && LeavesCheckpoint(c, checkpoint) && Holds(row, checkpoint, was)
    ensures Holds(Handle(row, task, c, now).row, checkpoint, was)
  {
    match c
    case CreateCheckpoint(_, _, _, _, _, _) => assert Holds(CreateCheckpointEffect(row, c, now).row, checkpoint, was);
    case DecideCheckpoint(_, _, _, _, _, _) => assert Holds(DecideCheckpointEffect(row, c, now).row, checkpoint, was);
    case AttachWorker(_, _, _, _) => assert Holds(AttachWorkerEffect(row, c, now).row, checkpoint, was);
    case PostWorkerEvent(_, _, _, _, _, _) =>
      assert Holds(PostWorkerEventEffect(row, task, c, now).row, checkpoint, was);
    case DecideProposal(_, _, _, _, _, _) => ProposalMoves(row, c, now);
    case CreateToolAction(_, _, _, _, _, _) => assert Holds(CreateToolActionEffect(row, c, now).row, checkpoint, was);
    case CloseSession(_, _, _, _) => assert Holds(CloseSessionEffect(row, c, now).row, checkpoint, was);
  }

  /** Deciding a checkpoint that is not pending changes nothing and applies nothing. */
  lemma ResolvedIsNotDecided(row: Row, c: Command, now: Time, was: Checkpoint)
    requires c.DecideCheckpoint? && Holds(row, c.checkpoint, was) && !was.status.CheckpointPending?
    ensures var e := DecideCheckpointEffect(row, c, now);
      Holds(e.row, c.checkpoint, was) && (e.outcome.CheckpointAnswer? ==> !e.outcome.applied)
  {
  }

  lemma ResolvedStep(s: Store, r: Request, session: string, checkpoint: string)
    requires Resolved(s, session, checkpoint) && Fresh(s, r)
    ensures Resolved(Step(s, r), session, checkpoint)
    ensures Step(s, r).rows[session].checkpoints[checkpoint] == s.rows[session].checkpoints[checkpoint]
    ensures Decides(r, session, checkpoint) && Answer(s, r).CheckpointAnswer? ==> !Answer(s, r).applied
  {
    var row := s.rows[session];
    if !(OnSession(r.command) && r.command.session == session) {
      StepOnOther(s, r, session);
    } else if Decides(r, session, checkpoint) {
      StepOnOwn(s, r);
      ResolvedIsNotDecided(row, r.command, r.now, row.checkpoints[checkpoint]);
    } else {
      StepOnOwn(s, r);
      HandleLeavesCheckpoint(row, TaskStatusOf(s, session), r.command, r.now, checkpoint, row.checkpoints[checkpoint]);
    }
  }

  /** Once approved, denied or expired, a checkpoint keeps that record and no
      decision on it is applied, whatever the requests and their times. */
  lemma {:induction false} ResolvedForever(s: Store, run: seq<Request>, session: string, checkpoint: string)
    requires Resolved(s, session, checkpoint) && FreshRun(s, run)
    ensures Resolved(Run(s, run), session, checkpoint)
    ensures Run(s, run).rows[session].checkpoints[checkpoint] == s.rows[session].checkpoints[checkpoint]
    ensures AppliedDecisions(s, run, session, checkpoint) == 0
    decreases |run|
  {
    if run != [] {
      ResolvedStep(s, run[0], session, checkpoint);
      ResolvedForever(Step(s, run[0]), run[1..], session, checkpoint);
    }
  }

  lemma {:induction false} CheckpointDecidedOnce(s: Store, run: seq<Request>, session: string, checkpoint: string)
    requires FreshRun(s, run)
    ensures AppliedDecisions(s, run, session, checkpoint) <= 1
    decreases |run|
  {
    if run != [] {
      var next := Step(s, run[0]);
      if Decides(run[0], session, checkpoint) && Answer(s, run[0]).CheckpointAnswer? && Answer(s, run[0]).applied {
        assert Resolved(next, session, checkpoint);
        ResolvedForever(next, run[1..], session, checkpoint);
      } else {
        CheckpointDecidedOnce(next, run[1..], session, checkpoint);
      }
    }
  }

  // ---------- waiting for an approval ----------

  function LifetimeOf(ttl: int): int { if ttl <= 0 then DEFAULT_TTL_SECONDS else ttl }

  /** An attempt on the checkpoint that can change its record: admitted, with a
      verdict, and either allowed by the binding or past the expiry. */
  predicate CanChange(r: Request, session: string, checkpoint: string, expiresAt: Time) {
    Decides(r, session, checkpoint) && r.command.admitted && r.command.decision.Some? &&
    (r.command.bindingAllows || expiresAt < r.now)
  }

  predicate NoChange(run: seq<Request>, session: string, checkpoint: string, expiresAt: Time) {
    forall r :: r in run ==> !CanChange(r, session, checkpoint, expiresAt)
  }

  lemma CheckpointUntouched(s: Store, r: Request, session: string, checkpoint: string)
    requires Fresh(s, r) && session in s.rows && checkpoint in s.rows[session].checkpoints
    requires !CanChange(r, session, checkpoint, s.rows[session].checkpoints[checkpoint].expiresAt)
    ensures session in Step(s, r).rows && checkpoint in Step(s, r).rows[session].checkpoints
    ensures Step(s, r).rows[session].checkpoints[checkpoint] == s.rows[session].checkpoints[checkpoint]
  {
    var row := s.rows[session];
    if !(OnSession(r.command) && r.command.session == session) {
      StepOnOther(s, r, session);
    } else if Decides(r, session, checkpoint) {
      StepOnOwn(s, r);
      RefusedDecisionKeeps(row, r.command, r.now, row.checkpoints[checkpoint]);
    } else {
      StepOnOwn(s, r);
      HandleLeavesCheckpoint(row, TaskStatusOf(s, session), r.command, r.now, checkpoint, row.checkpoints[checkpoint]);
    }
  }

  lemma RefusedDecisionKeeps(row: Row, c: Command, now: Time, was: Checkpoint)
    requires c.DecideCheckpoint? && Holds(row, c.checkpoint, was)
    requires !(c.admitted && c.decision.Some? && (c.bindingAllows || was.expiresAt < now))
    ensures Holds(DecideCheckpointEffect(row, c, now).row, c.checkpoint, was)
  {
  }

  /** A checkpoint's record changes only by such attempts. */
  lemma {:induction false} UndecidedCheckpointStays(s: Store, run: seq<Request>, session: string, checkpoint: string)
    requires FreshRun(s, run) && session in s.rows && checkpoint in s.rows[session].checkpoints
    requires NoChange(run, session, checkpoint, s.rows[session].checkpoints[checkpoint].expiresAt)
    ensures session in Run(s, run).rows && checkpoint in Run(s, run).rows[session].checkpoints
    ensures Run(s, run).rows[session].checkpoints[checkpoint] == s.rows[session].checkpoints[checkpoint]
    decreases |run|
  {
    if run != [] {
      assert run[0] in run;
      CheckpointUntouched(s, run[0], session, checkpoint);
      forall r | r in run[1..] ensures r in run { }
      UndecidedCheckpointStays(Step(s, run[0]), run[1..], session, checkpoint);
    }
  }

  /** A complete decision: admitted, with a verdict, and allowed by the binding. */
  predicate Complete(c: Command) {
    c.DecideCheckpoint? && c.admitted && c.bindingAllows && c.decision.Some?
  }

  /** However the session moves meanwhile, and whatever attempts were refused or
      incomplete, a checkpoint's first complete decision is applied exactly while
      the lifetime it was created with lasts. */
  lemma CheckpointLivesExactly(s: Store, create: Request, run: seq<Request>, decide: Request)
    requires create.command.CreateCheckpoint? && Fresh(s, create) && Answer(s, create) == Created
    requires FreshRun(Step(s, create), run)
    requires NoChange(run, create.command.session, create.command.checkpoint,
                      create.now + LifetimeOf(create.command.ttl))
    requires Decides(decide, create.command.session, create.command.checkpoint) && Complete(decide.command)
    ensures Answer(Run(Step(s, create), run), decide)
      == if decide.now <= create.now + LifetimeOf(create.command.ttl)
         then CheckpointAnswer(true, CheckpointTarget(decide.command.decision.value)) else ApprovalExpired
  {
    var c, made := create.command, Step(s, create);
    assert made.rows[c.session].checkpoints[c.checkpoint]
        == Checkpoint(CheckpointPending, create.now + LifetimeOf(c.ttl), c.reason, None);
    UndecidedCheckpointStays(made, run, c.session, c.checkpoint);
    AnswerToPending(Run(made, run), decide);
  }

  lemma AnswerToPending(s: Store, decide: Request)
    requires Complete(decide.command) && decide.command.session in s.rows
    requires decide.command.checkpoint in s.rows[decide.command.session].checkpoints
    requires s.rows[decide.command.session].checkpoints[decide.command.checkpoint].status.CheckpointPending?
    ensures Answer(s, decide)
      == if decide.now <= s.rows[decide.command.session].checkpoints[decide.command.checkpoint].expiresAt
         then CheckpointAnswer(true, CheckpointTarget(decide.command.decision.value)) else ApprovalExpired
  {
  }

  /** Where an applied decision takes a session: a denial blocks it; an approval
      makes it READY exactly when it has a worker. */
  lemma AppliedDecisionMoves(row: Row, c: Command, now: Time)
    requires RowSound(row) && c.DecideCheckpoint?
    requires var e := DecideCheckpointEffect(row, c, now); e.outcome.CheckpointAnswer? && e.outcome.applied
    ensures var e := DecideCheckpointEffect(row, c, now);
      && (c.decision == Some(Deny) ==> e.row.session.status == Blocked && e.task == Some(TaskBlocked))
      && (c.decision == Some(Approve) ==>
          e.row.session.status == (if row.workers != [] then Ready else AwaitingWorker) &&
          e.task == Some(TaskInProgress))
  {
  }

  /** The requests that can take a session out of AWAITING_APPROVAL. */
  predicate EndsWaiting(row: Row, c: Command, now: Time)
    requires OnSession(c)
  {
    match c
    case DecideCheckpoint(_, key, _, _, _, _) =>
      Complete(c) && key in row.checkpoints && row.checkpoints[key].status.CheckpointPending? &&
      now <= row.checkpoints[key].expiresAt
    case PostWorkerEvent(_, worker, _, status, _, admitted) =>
      admitted && FindWorker(row.workers, worker).Some? && status.Some? &&
      (status.value.Blocked? || status.value.Completed? || status.value.Failed?)
    case DecideProposal(_, proposal, decision, _, _, admitted) =>
      admitted && decision == Some(Approve) && FindProposal(row.feed, proposal).Some? &&
      FindProposal(row.feed, proposal).value.decision.None?
    case CloseSession(_, status, _, admitted) => admitted && (status.None? || status.value.IsTerminal())
    case _ => false
  }

  /** A session stops waiting exactly on an applied checkpoint decision, a worker
      that ends it, an approved tool proposal or a close; none of these but the
      first looks at whether a checkpoint is still pending. */
  lemma LeavesApprovalExactly(row: Row, task: Option<TaskStatus>, c: Command, now: Time)
    requires OnSession(c) && row.session.status.AwaitingApproval?
    ensures !Handle(row, task, c, now).row.session.status.AwaitingApproval? <==> EndsWaiting(row, c, now)
  {
    match c
    case CreateCheckpoint(_, _, _, _, _, _) =>
      assert CreateCheckpointEffect(row, c, now).row.session.status.AwaitingApproval?;
    case DecideCheckpoint(_, _, _, _, _, _) => DecisionEndsWaiting(row, c, now);
    case PostWorkerEvent(_, _, _, _, _, _) => WorkerEndsWaiting(row, task, c, now);
    case DecideProposal(_, _, _, _, _, _) => ProposalEndsWaiting(row, c, now);
    case AttachWorker(_, _, _, _) => assert AttachWorkerEffect(row, c, now).row.session.status.AwaitingApproval?;
    case CreateToolAction(_, _, _, _, _, _) =>
      assert CreateToolActionEffect(row, c, now).row.session.status.AwaitingApproval?;
    case CloseSession(_, _, _, _) => CloseEndsWaiting(row, c, now);
  }

  lemma DecisionEndsWaiting(row: Row, c: Command, now: Time)
    requires c.DecideCheckpoint? && row.session.status.AwaitingApproval?
    ensures !DecideCheckpointEffect(row, c, now).row.session.status.AwaitingApproval? <==> EndsWaiting(row, c, now)
  {
  }

  lemma WorkerEndsWaiting(row: Row, task: Option<TaskStatus>, c: Command, now: Time)
    requires c.PostWorkerEvent? && row.session.status.AwaitingApproval?
    ensures !PostWorkerEventEffect(row, task, c, now).row.session.status.AwaitingApproval? <==> EndsWaiting(row, c, now)
  {
  }

  lemma ProposalEndsWaiting(row: Row, c: Command, now: Time)
    requires c.DecideProposal? && row.session.status.AwaitingApproval?
    ensures !DecideProposalEffect(row, c, now).row.session.status.AwaitingApproval? <==> EndsWaiting(row, c, now)
  {
    if c.decision == Some(Deny) {
      DenialMoves(row, c, now);
    } else {
      ProposalMoves(row, c, now);
      EventsWhenOpen(row, c, now);
      if DecideProposalEffect(row, c, now).events != [] {
        ApprovalIs(row, c, now);
        ApprovalEndsWaiting(row, c, FindProposal(row.feed, c.proposal).value, now);
      }
    }
  }

  /** A live session's decision logs something exactly when it is admitted, says
      something, and finds the proposal undecided. */
  lemma EventsWhenOpen(row: Row, c: Command, now: Time)
    requires c.DecideProposal? && !row.session.status.IsTerminal()
    ensures DecideProposalEffect(row, c, now).events != [] <==>
            c.admitted && c.decision.Some? && FindProposal(row.feed, c.proposal).Some? &&
            FindProposal(row.feed, c.proposal).value.decision.None?
  {
    var found := FindProposal(row.feed, c.proposal);
    if found.Some? { assert ApproveProposalEffect(row, c, found.value, now).events != []; }
  }

  lemma ApprovalEndsWaiting(row: Row, c: Command, p: Proposal, now: Time)
    requires c.DecideProposal? && row.session.status.AwaitingApproval?
    ensures !ApproveProposalEffect(row, c, p, now).row.session.status.AwaitingApproval?
  {
  }

  lemma CloseEndsWaiting(row: Row, c: Command, now: Time)
    requires c.CloseSession? && row.session.status.AwaitingApproval?
    ensures !CloseSessionEffect(row, c, now).row.session.status.AwaitingApproval? <==> EndsWaiting(row, c, now)
  {
  }

  /** Another checkpoint is pending. */
  predicate OtherPending(row: Row, checkpoint: string) {
    exists id :: id in row.checkpoints && id != checkpoint && row.checkpoints[id].status.CheckpointPending?
  }

  /** A request that ends the wait leaves a checkpoint pending exactly when one was
      pending before it, other than the one it decides. */
  lemma PendingSurvivesExactly(row: Row, task: Option<TaskStatus>, c: Command, now: Time)
    requires OnSession(c) && row.session.status.AwaitingApproval? && EndsWaiting(row, c, now)
    ensures HasPending(Handle(row, task, c, now).row)
      <==> if c.DecideCheckpoint? then OtherPending(row, c.checkpoint) else HasPending(row)
  {
    match c
    case DecideCheckpoint(_, key, _, _, _, _) =>
      var next := DecideCheckpointEffect(row, c, now).row;
      if OtherPending(row, key) {
        var id :| id in row.checkpoints && id != key && row.checkpoints[id].status.CheckpointPending?;
        assert id in next.checkpoints && next.checkpoints[id].status.CheckpointPending?;
      }
      assert forall id :: id in next.checkpoints && id != key ==> next.checkpoints[id] == row.checkpoints[id];
    case PostWorkerEvent(_, _, _, _, _, _) =>
      assert PostWorkerEventEffect(row, task, c, now).row.checkpoints == row.checkpoints;
    case DecideProposal(_, _, _, _, _, _) => ProposalMoves(row, c, now);
    case CloseSession(_, _, _, _) => assert CloseSessionEffect(row, c, now).row.checkpoints == row.checkpoints;
  }

  // ---------- workers past the listing ----------

  /** An admitted event is answered WorkerNotFound exactly when no worker with its
      ID is among the session's first 100. */
  lemma WorkerNotFoundExactly(s: Store, r: Request)
    requires r.command.PostWorkerEvent? && r.command.admitted && r.command.session in s.rows
    ensures Answer(s, r) == WorkerNotFound <==> Unlisted(s.rows[r.command.session].workers, r.command.worker, 0)
  {
  }

  /** Workers are only added, at the end. */
  lemma StepKeepsWorkers(s: Store, r: Request, session: string)
    requires Fresh(s, r) && session in s.rows
    ensures session in Step(s, r).rows
    ensures SameWorkers(s.rows[session].workers, Step(s, r).rows[session].workers)
  {
    if OnSession(r.command) && r.command.session == session {
      StepOnOwn(s, r);
      HandleKeepsWorkers(s.rows[session], TaskStatusOf(s, session), r.command, r.now);
    } else {
      StepOnOther(s, r, session);
    }
  }

  /** The earlier workers, by ID, come first among the later ones. */
  predicate SameWorkers(was: seq<Worker>, now: seq<Worker>) {
    |was| <= |now| && forall i :: 0 <= i < |was| ==> now[i].id == was[i].id
  }

  lemma HandleKeepsWorkers(row: Row, task: Option<TaskStatus>, c: Command, now: Time)
    requires OnSession(c)
    ensures SameWorkers(row.workers, Handle(row, task, c, now).row.workers)
  {
    match c
    case AttachWorker(_, _, _, _) => assert SameWorkers(row.workers, AttachWorkerEffect(row, c, now).row.workers);
    case PostWorkerEvent(_, _, _, _, _, _) => WorkerEventKeepsWorkers(row, task, c, now);
    case DecideProposal(_, _, _, _, _, _) => ProposalMoves(row, c, now);
    case _ => OthersKeepWorkers(row, task, c, now);
  }

  lemma WorkerEventKeepsWorkers(row: Row, task: Option<TaskStatus>, c: Command, now: Time)
    requires c.PostWorkerEvent?
    ensures SameWorkers(row.workers, PostWorkerEventEffect(row, task, c, now).row.workers)
  {
  }

  lemma OthersKeepWorkers(row: Row, task: Option<TaskStatus>, c: Command, now: Time)
    requires c.CreateCheckpoint? || c.DecideCheckpoint? || c.CreateToolAction? || c.CloseSession?
    ensures Handle(row, task, c, now).row.workers == row.workers
  {
    match c
    case CreateCheckpoint(_, _, _, _, _, _) => assert CreateCheckpointEffect(row, c, now).row.workers == row.workers;
    case DecideCheckpoint(_, _, _, _, _, _) => assert DecideCheckpointEffect(row, c, now).row.workers == row.workers;
    case CreateToolAction(_, _, _, _, _, _) => assert CreateToolActionEffect(row, c, now).row.workers == row.workers;
    case CloseSession(_, _, _, _) => assert CloseSessionEffect(row, c, now).row.workers == row.workers;
  }

  /** An attached worker that the first page leaves out never reports: once 100
      others were attached before it, every admitted event of its own, after any
      run, is answered WorkerNotFound and changes nothing. */
  lemma {:induction false} LateWorkerNeverReports(s: Store, run: seq<Request>, r: Request)
    requires FreshRun(s, run) && r.command.PostWorkerEvent? && r.command.admitted && r.command.session in s.rows
    requires |s.rows[r.command.session].workers| >= WORKER_LIST_LIMIT
    requires Unlisted(s.rows[r.command.session].workers, r.command.worker, 0)
    ensures Answer(Run(s, run), r) == WorkerNotFound && Step(Run(s, run), r).rows == Run(s, run).rows
    decreases |run|
  {
    if run == [] {
      var row := s.rows[r.command.session];
      assert row.feed + [] == row.feed;
    } else {
      StepKeepsWorkers(s, run[0], r.command.session);
      LateWorkerNeverReports(Step(s, run[0]), run[1..], r);
    }
  }

  // ---------- terminal events ----------

  /** A close and a worker event that bring a live session to the same terminal
      status log the same last event exactly when the status is not BLOCKED. */
  lemma TerminalEventsAgreeExactly(row: Row, task: Option<TaskStatus>, close: Command, post: Command, now: Time)
    requires close.CloseSession? && post.PostWorkerEvent? && !row.session.status.IsTerminal()
    requires var closed, posted := CloseSessionEffect(row, close, now), PostWorkerEventEffect(row, task, post, now);
      closed.events != [] && posted.events != [] &&
      closed.row.session.status == posted.row.session.status && closed.row.session.status.IsTerminal()
    ensures var closed, posted := CloseSessionEffect(row, close, now), PostWorkerEventEffect(row, task, post, now);
      closed.events[|closed.events| - 1] == posted.events[|posted.events| - 1]
      <==> !closed.row.session.status.Blocked?
  {
  }
}
