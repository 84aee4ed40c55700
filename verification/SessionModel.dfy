/** The governed-session runtime as values: what one request does to the stored
    task, session, workers, checkpoints, tool actions and session event feed.
    SessionRuntime.dfy holds the handlers that work on the store in place. */
module SessionModel {
  import opened Text

  type Time = int

  const DEFAULT_TTL_SECONDS: int := 900
  const MAX_TTL_SECONDS: int := 86400
  const WORKER_LIST_LIMIT: nat := 100
  const PROPOSAL_EVENT_LIMIT: nat := 1000

  /** One vocabulary for session and worker statuses: the two share the texts
      READY, RUNNING, BLOCKED, COMPLETED and FAILED, and a worker status may be
      any text at all. Decoding yields `OtherStatus` only for a text that no other
      constructor stands for. */
  datatype Status =
    | Pending | Ready | AwaitingWorker | Running | AwaitingApproval
    | Blocked | Completed | Failed | Cancelled
    | Attached | Waiting | Detached | OtherStatus(text: string)
  {
    predicate IsTerminal() { Completed? || Failed? || Cancelled? || Blocked? }

    predicate IsSessionStatus() {
      Pending? || Ready? || AwaitingWorker? || Running? || AwaitingApproval? || IsTerminal()
    }
  }

  datatype TaskStatus =
    TaskNew | TaskReady | TaskBlocked | TaskInProgress | TaskCompleted | TaskFailed | TaskCancelled

  datatype Verdict = Approve | Deny

  datatype CheckpointStatus =
    CheckpointPending | CheckpointApproved | CheckpointDenied | CheckpointExpired | CheckpointCancelled

  datatype ActionStatus =
    | Requested | Authorized | Started | ActionCompleted | PolicyBlocked
    | ActionFailed | ActionCancelled | OtherAction(text: string)

  /** Event types. Decoding yields `CustomEvent` only for a text that no other
      constructor stands for. */
  datatype EventKind =
    | SessionCreated | SessionStatusChanged
    | SessionCompleted | SessionFailed | SessionBlocked | SessionCancelled
    | ApprovalRequested | ApprovalStatusChanged
    | WorkerAttached | WorkerStatusChanged | WorkerProgress | EvidenceRecorded
    | ActionRequestedEvent | ActionAuthorizedEvent | ActionStartedEvent
    | ActionCompletedEvent | ActionBlockedEvent | ActionFailedEvent
    | ProposalGenerated | ProposalDecided
    | CustomEvent(name: string)

  /** The payload fields that some handler reads back. `nestedProposalId` is the
      proposalId inside the payload's own `payload` object. */
  datatype Payload = Payload(
    previous: Option<Status>, status: Option<Status>,
    proposalId: string, nestedProposalId: string, workerId: string,
    decision: Option<Verdict>, reason: string, actionId: string, actionStatus: Option<ActionStatus>)

  const NO_PAYLOAD := Payload(None, None, "", "", "", None, "", "", None)

  /** A session event; its sequence number is its position in the feed plus one. */
  datatype Event = Event(kind: EventKind, payload: Payload, at: Time)

  datatype Session = Session(
    taskId: string, status: Status, selectedWorkerId: string, completedAt: Option<Time>)

  datatype Worker = Worker(id: string, status: Status)

  datatype Checkpoint = Checkpoint(
    status: CheckpointStatus, expiresAt: Time, reason: string, reviewedAt: Option<Time>)

  /** `proposal` is the proposal ID in the request payload of an action that a
      proposal decision created. */
  datatype ToolAction = ToolAction(status: ActionStatus, workerId: string, proposal: Option<string>)

  /** One session with everything the store keeps under its ID. Workers are in
      order of creation. */
  datatype Row = Row(
    id: string, session: Session, workers: seq<Worker>,
    checkpoints: map<string, Checkpoint>, actions: map<string, ToolAction>, feed: seq<Event>)

  datatype Task = Task(status: TaskStatus, latestSessionId: string)

  datatype Store = Store(tasks: map<string, Task>, rows: map<string, Row>)

  const EMPTY_STORE := Store(map[], map[])

  /** What running an approved proposal did outside the runtime: nothing (any
      type but a terminal command), a command line that did not parse, or a
      command that ran. */
  datatype Execution = NotExecuted | Rejected | Executed(succeeded: bool, evidence: bool)

  /** Requests after decoding. `admitted` is the answer of the scope and policy
      checks; a `None` where a status or verdict is expected is a blank or, for
      verdicts, an unknown text. `legacyFits` is whether the legacy run that the
      request names, if it is stored, has the task's scope. IDs that the runtime
      generates are arguments. */
  datatype Command =
    | CreateTask(task: string, admitted: bool, valid: bool)
    | CreateSession(task: string, session: string, admitted: bool, legacyFits: bool)
    | CreateCheckpoint(session: string, checkpoint: string, ttl: int, reason: string, admitted: bool, valid: bool)
    | DecideCheckpoint(session: string, checkpoint: string, decision: Option<Verdict>, reason: string,
                       admitted: bool, bindingAllows: bool)
    | AttachWorker(session: string, worker: string, admitted: bool, valid: bool)
    | PostWorkerEvent(session: string, worker: string, kind: Option<EventKind>, status: Option<Status>,
                      nestedProposalId: string, admitted: bool)
    | DecideProposal(session: string, proposal: string, decision: Option<Verdict>, reason: string,
                     execution: Execution, admitted: bool)
    | CreateToolAction(session: string, action: string, worker: string, actionStatus: Option<ActionStatus>,
                       admitted: bool, valid: bool)
    | CloseSession(session: string, status: Option<Status>, reason: string, admitted: bool)

  datatype Request = Request(command: Command, now: Time)

  datatype Outcome =
    | NotFound | Refused | BadRequest | LegacyScopeMismatch | WorkerNotFound | SessionNotActive
    | ApprovalExpired | ApprovalAlreadyResolved(status: CheckpointStatus)
    | CheckpointAnswer(applied: bool, status: CheckpointStatus)
    | ProposalAnswer(applied: bool, verdict: Verdict, actionId: string)
    | Created

  // ---------- the small tables ----------

  function SessionStatusForWorkerStatus(status: Option<Status>, current: Status): Status {
    if status.None? || current.IsTerminal() then current
    else match status.value
      case Attached => if current.AwaitingApproval? then current else Ready
      case Ready => if current.AwaitingApproval? then current else Ready
      case Waiting => if current.AwaitingApproval? then current else AwaitingWorker
      case Detached => if current.AwaitingApproval? then current else AwaitingWorker
      case Running => if current.AwaitingApproval? then current else Running
      case Blocked => Blocked
      case Completed => Completed
      case Failed => Failed
      case _ => current
  }

  function TaskStatusForSessionStatus(status: Status, current: TaskStatus): TaskStatus {
    match status
    case Ready => TaskInProgress
    case AwaitingWorker => TaskInProgress
    case AwaitingApproval => TaskInProgress
    case Running => TaskInProgress
    case Completed => TaskCompleted
    case Failed => TaskFailed
    case Blocked => TaskBlocked
    case Cancelled => TaskCancelled
    case _ => current
  }

  /** The event a close or a denied approval logs for a terminal status: a
      blocked session is logged as failed. */
  function TerminalEventForClose(status: Status): EventKind {
    match status
    case Completed => SessionCompleted
    case Failed => SessionFailed
    case Blocked => SessionFailed
    case Cancelled => SessionCancelled
    case _ => SessionStatusChanged
  }

  /** The event a worker event logs for a terminal status. */
  function TerminalEventForWorker(status: Status): Option<EventKind> {
    match status
    case Completed => Some(SessionCompleted)
    case Failed => Some(SessionFailed)
    case Blocked => Some(SessionBlocked)
    case Cancelled => Some(SessionCancelled)
    case _ => None
  }

  function EventForAction(status: ActionStatus): EventKind {
    match status
    case Authorized => ActionAuthorizedEvent
    case Started => ActionStartedEvent
    case ActionCompleted => ActionCompletedEvent
    case PolicyBlocked => ActionBlockedEvent
    case ActionFailed => ActionFailedEvent
    case ActionCancelled => ActionFailedEvent
    case _ => ActionRequestedEvent
  }

  /** The letters and digits of a lower-cased ID, every other stretch as one
      dash, no dash at either end. */
  function SanitizeIdFragment(value: string): string {
    var text := TrimDashes(Dashed(Lower(Trim(value)), false));
    if text == "" then "unknown" else text
  }

  function Dashed(s: string, lastDash: bool): string {
    if s == "" then ""
    else if 'a' <= s[0] <= 'z' || '0' <= s[0] <= '9' then [s[0]] + Dashed(s[1..], false)
    else if lastDash then Dashed(s[1..], true)
    else "-" + Dashed(s[1..], true)
  }

  function TrimDashes(s: string): string {
    if s != "" && s[0] == '-' then TrimDashes(s[1..])
    else if s != "" && s[|s| - 1] == '-' then TrimDashes(s[..|s| - 1])
    else s
  }

  function ProposalActionId(session: string, proposal: string): string {
    session + "-tool-proposal-" + SanitizeIdFragment(proposal)
  }

  /** A payload text as it is read back. */
  function Normalized(s: string): string {
    if Trim(s) == "<nil>" then "" else Trim(s)
  }

  // ---------- the event feed ----------

  function StatusEvents(before: Status, after: Status, now: Time): seq<Event> {
    if before == after then []
    else [Event(SessionStatusChanged, NO_PAYLOAD.(previous := Some(before), status := Some(after)), now)]
  }

  function Plain(kind: EventKind, now: Time): Event { Event(kind, NO_PAYLOAD, now) }

  /** What the feed says about one proposal. */
  datatype Proposal = Proposal(
    decision: Option<Verdict>, reason: string, actionId: string,
    actionStatus: Option<ActionStatus>, workerId: string, reviewedAt: Time)

  function ReadProposalEvent(p: Option<Proposal>, e: Event, target: string): Option<Proposal> {
    var topId := Normalized(e.payload.proposalId);
    match e.kind
    case ProposalGenerated =>
      var candidate := if topId == "" then Normalized(e.payload.nestedProposalId) else topId;
      if candidate != target then p
      else Some(Proposal(None, "", "", None, Normalized(e.payload.workerId), 0))
    case ProposalDecided =>
      if topId != target then p
      else
        var known := if p.Some? then p.value else Proposal(None, "", "", None, "", 0);
        var status := if e.payload.actionStatus.Some? then e.payload.actionStatus else known.actionStatus;
        Some(Proposal(
          e.payload.decision, Normalized(e.payload.reason), Normalized(e.payload.actionId),
          if e.payload.decision == Some(Approve) && status.None? then Some(Authorized) else status,
          if known.workerId == "" then Normalized(e.payload.workerId) else known.workerId,
          e.at))
    case _ => p
  }

  function ReadProposal(p: Option<Proposal>, events: seq<Event>, target: string): Option<Proposal>
    decreases |events|
  {
    if events == [] then p
    else ReadProposal(ReadProposalEvent(p, events[0], target), events[1..], target)
  }

  /** The store's page of oldest events that a proposal decision looks at. */
  function Window(feed: seq<Event>): seq<Event> {
    if |feed| <= PROPOSAL_EVENT_LIMIT then feed else feed[..PROPOSAL_EVENT_LIMIT]
  }

  function FindProposal(feed: seq<Event>, proposal: string): Option<Proposal> {
    var target := Trim(proposal);
    if target == "" then None else ReadProposal(None, Window(feed), target)
  }

  /** No worker of the list's first page, from position i, has the ID. */
  predicate Unlisted(workers: seq<Worker>, id: string, i: nat) {
    forall j :: i <= j < |workers| && j < WORKER_LIST_LIMIT ==> workers[j].id != id
  }

  function FindWorker(workers: seq<Worker>, id: string): (r: Option<nat>)
    ensures r.Some? ==> r.value < |workers| && r.value < WORKER_LIST_LIMIT && workers[r.value].id == id
    ensures r.Some? ==> forall j :: 0 <= j < r.value ==> workers[j].id != id
    ensures r.None? <==> Unlisted(workers, id, 0)
  {
    FindWorkerFrom(workers, id, 0)
  }

  /** Workers are listed oldest first, at most one page of them. */
  function FindWorkerFrom(workers: seq<Worker>, id: string, i: nat): (r: Option<nat>)
    ensures r.Some? ==> i <= r.value < |workers| && r.value < WORKER_LIST_LIMIT && workers[r.value].id == id
    ensures r.Some? ==> forall j :: i <= j < r.value ==> workers[j].id != id
    ensures r.None? <==> Unlisted(workers, id, i)
    decreases |workers| - i
  {
    if i >= |workers| || i >= WORKER_LIST_LIMIT then None
    else if workers[i].id == id then Some(i)
    else FindWorkerFrom(workers, id, i + 1)
  }

  // ---------- the handlers of one session ----------

  /** What a handler leaves behind: the row before the new events are appended,
      those events, and the task status and latest-session mark it writes. */
  datatype Effect = Effect(
    row: Row, events: seq<Event>, task: Option<TaskStatus>, marksLatest: bool, outcome: Outcome)

  function Nothing(row: Row, outcome: Outcome): Effect {
    Effect(row, [], None, false, outcome)
  }

  function CreateCheckpointEffect(row: Row, c: Command, now: Time): Effect
    requires c.CreateCheckpoint?
  {
    var ttl := if c.ttl <= 0 then DEFAULT_TTL_SECONDS else c.ttl;
    if !c.admitted then Nothing(row, Refused)
    else if ttl > MAX_TTL_SECONDS || !c.valid then Nothing(row, BadRequest)
    else NewCheckpointEffect(row, c.checkpoint, ttl, c.reason, now)
  }

  /** A checkpoint that is created. */
  function NewCheckpointEffect(row: Row, key: string, ttl: int, reason: string, now: Time): Effect {
    var before := row.session.status;
    var after := if before.IsTerminal() then before else AwaitingApproval;
    Effect(
      row.(session := row.session.(status := after),
           checkpoints := row.checkpoints[key := Checkpoint(CheckpointPending, now + ttl, reason, None)]),
      [Plain(ApprovalRequested, now)] + StatusEvents(before, after, now),
      None, false, Created)
  }

  function CheckpointTarget(v: Verdict): CheckpointStatus {
    if v.Approve? then CheckpointApproved else CheckpointDenied
  }

  function DecidedSession(session: Session, v: Verdict, now: Time): Session {
    if v.Approve? then session.(status := if session.selectedWorkerId != "" then Ready else AwaitingWorker)
    else if session.status.Blocked? then session
    else session.(status := Blocked, completedAt := Some(now))
  }

  function DecideCheckpointEffect(row: Row, c: Command, now: Time): Effect
    requires c.DecideCheckpoint?
  {
    if c.checkpoint !in row.checkpoints then Nothing(row, NotFound)
    else if !c.admitted then Nothing(row, Refused)
    else if c.decision.None? then Nothing(row, BadRequest)
    else
      var checkpoint := row.checkpoints[c.checkpoint];
      var target := CheckpointTarget(c.decision.value);
      if checkpoint.status.CheckpointPending? && checkpoint.expiresAt < now then
        Nothing(row.(checkpoints := row.checkpoints[c.checkpoint := checkpoint.(status := CheckpointExpired)]),
                ApprovalExpired)
      else if checkpoint.status == target then Nothing(row, CheckpointAnswer(false, target))
      else if !checkpoint.status.CheckpointPending? then Nothing(row, ApprovalAlreadyResolved(checkpoint.status))
      else if !c.bindingAllows then Nothing(row, Refused)
      else ApplyDecisionEffect(row, c.checkpoint, c.decision.value, c.reason, now)
  }

  /** An approval decision that goes through. */
  function ApplyDecisionEffect(row: Row, key: string, v: Verdict, reason: string, now: Time): Effect
    requires key in row.checkpoints
  {
    var before := row.session.status;
    var session := DecidedSession(row.session, v, now);
    Effect(
      row.(session := session,
           checkpoints := row.checkpoints[
             key := Checkpoint(CheckpointTarget(v), row.checkpoints[key].expiresAt, reason, Some(now))]),
      [Plain(ApprovalStatusChanged, now)] + StatusEvents(before, session.status, now) +
        (if before != session.status && session.status.IsTerminal()
         then [Plain(TerminalEventForClose(session.status), now)] else []),
      Some(if v.Approve? then TaskInProgress else TaskBlocked), false, CheckpointAnswer(true, CheckpointTarget(v)))
  }

  function AttachWorkerEffect(row: Row, c: Command, now: Time): Effect
    requires c.AttachWorker?
  {
    if !c.admitted then Nothing(row, Refused)
    else if !c.valid then Nothing(row, BadRequest)
    else
      var before := row.session.status;
      var after := if before.Pending? || before.AwaitingWorker? then Ready else before;
      Effect(
        row.(workers := row.workers + [Worker(c.worker, Attached)],
             session := row.session.(status := after, selectedWorkerId := c.worker)),
        [Plain(WorkerAttached, now), Plain(WorkerStatusChanged, now)] + StatusEvents(before, after, now),
        None, false, Created)
  }

  function PostWorkerEventEffect(row: Row, task: Option<TaskStatus>, c: Command, now: Time): Effect
    requires c.PostWorkerEvent?
  {
    if !c.admitted then Nothing(row, Refused)
    else if FindWorker(row.workers, c.worker).None? then Nothing(row, WorkerNotFound)
    else if c.kind.None? && c.status.None? then Nothing(row, BadRequest)
    else
      WorkerEventEffect(row, task, FindWorker(row.workers, c.worker).value,
                        if c.kind.Some? then c.kind.value else WorkerStatusChanged, c, now)
  }

  /** The caller's event and, when it reports another worker status, that change. */
  function WorkerEvents(worker: Worker, kind: EventKind, c: Command, now: Time): seq<Event>
    requires c.PostWorkerEvent?
  {
    [Event(kind,
           NO_PAYLOAD.(previous := if c.status.Some? then Some(worker.status) else None, status := c.status,
                      workerId := c.worker, nestedProposalId := c.nestedProposalId),
           now)] +
    (if c.status.Some? && c.status.value != worker.status && kind != WorkerStatusChanged
     then [Plain(WorkerStatusChanged, now)] else [])
  }

  /** The session move that a worker status brings, with its terminal event. */
  function MoveEvents(before: Status, after: Status, now: Time): seq<Event> {
    StatusEvents(before, after, now) +
    (if after != before && TerminalEventForWorker(after).Some?
     then [Plain(TerminalEventForWorker(after).value, now)] else [])
  }

  /** A worker event that goes through. */
  function WorkerEventEffect(
    row: Row, task: Option<TaskStatus>, index: nat, kind: EventKind, c: Command, now: Time): Effect
    requires c.PostWorkerEvent? && index < |row.workers|
  {
    var worker := row.workers[index];
    var before := row.session.status;
    var after := SessionStatusForWorkerStatus(c.status, before);
    Effect(
      row.(workers := if c.status.Some? && c.status.value != worker.status
                      then row.workers[index := worker.(status := c.status.value)] else row.workers,
           session := if after == before then row.session
                      else row.session.(
                             status := after,
                             completedAt := if after.IsTerminal() then Some(now) else row.session.completedAt)),
      WorkerEvents(worker, kind, c, now) + MoveEvents(before, after, now),
      if after == before || task.None? then None else Some(TaskStatusForSessionStatus(after, task.value)),
      after != before, Created)
  }

  /** Whether approving a proposal moves a session of this status to RUNNING. */
  predicate StartsOnProposal(s: Status) { s.Pending? || s.Ready? || s.AwaitingWorker? || s.AwaitingApproval? }

  function ExecutedActionStatus(x: Execution): ActionStatus {
    if x.NotExecuted? then Authorized
    else if x.Executed? && x.succeeded then ActionCompleted
    else ActionFailed
  }

  function ExecutionEvents(x: Execution, now: Time): seq<Event> {
    match x
    case NotExecuted => []
    case Rejected => [Plain(ActionFailedEvent, now), Plain(WorkerProgress, now)]
    case Executed(ok, evidence) =>
      [Plain(ActionStartedEvent, now), Plain(WorkerProgress, now)] +
      (if evidence then [Plain(EvidenceRecorded, now)] else []) +
      [Plain(if ok then ActionCompletedEvent else ActionFailedEvent, now), Plain(WorkerProgress, now)]
  }

  function DecidedEvent(proposal: string, v: Verdict, reason: string, actionId: string,
                        actionStatus: Option<ActionStatus>, workerId: string, now: Time): Event
  {
    Event(ProposalDecided,
          Payload(None, None, Trim(proposal), "", workerId, Some(v), Trim(reason), actionId, actionStatus), now)
  }

  function DecideProposalEffect(row: Row, c: Command, now: Time): Effect
    requires c.DecideProposal?
  {
    if row.session.status.IsTerminal() then Nothing(row, SessionNotActive)
    else if !c.admitted then Nothing(row, Refused)
    else if c.decision.None? then Nothing(row, BadRequest)
    else if FindProposal(row.feed, c.proposal).None? then Nothing(row, NotFound)
    else
      var proposal := FindProposal(row.feed, c.proposal).value;
      if proposal.decision.Some? then
        Nothing(row, ProposalAnswer(false, proposal.decision.value, proposal.actionId))
      else if c.decision.value.Deny? then
        Effect(row, [DecidedEvent(c.proposal, Deny, c.reason, "", None, proposal.workerId, now)],
               None, false, ProposalAnswer(true, Deny, ""))
      else
        ApproveProposalEffect(row, c, proposal, now)
  }

  function ApproveProposalEffect(row: Row, c: Command, proposal: Proposal, now: Time): Effect
    requires c.DecideProposal?
  {
    var actionId := ProposalActionId(row.id, c.proposal);
    var before := row.session.status;
    var running := if StartsOnProposal(before) then Running else before;
    var after := if c.execution.NotExecuted? then running else Ready;
    var moved := StartsOnProposal(before) || after != running;
    Effect(
      row.(session := if moved then row.session.(status := after, completedAt := None) else row.session,
           actions := row.actions[
             actionId := ToolAction(ExecutedActionStatus(c.execution), proposal.workerId, Some(Trim(c.proposal)))]),
      StatusEvents(before, running, now) + [Plain(ActionAuthorizedEvent, now)] +
        ExecutionEvents(c.execution, now) + StatusEvents(running, after, now) +
        [DecidedEvent(c.proposal, Approve, c.reason, actionId,
                      Some(ExecutedActionStatus(c.execution)), proposal.workerId, now)],
      if moved then Some(TaskInProgress) else None, moved, ProposalAnswer(true, Approve, actionId))
  }

  /** Whether a tool action of this status moves a waiting session to RUNNING. */
  predicate StartsSession(status: ActionStatus) { status.Requested? || status.Authorized? || status.Started? }

  function CreateToolActionEffect(row: Row, c: Command, now: Time): Effect
    requires c.CreateToolAction?
  {
    if !c.admitted then Nothing(row, Refused)
    else if !c.valid then Nothing(row, BadRequest)
    else if c.worker != "" && FindWorker(row.workers, c.worker).None? then Nothing(row, WorkerNotFound)
    else
      var status := if c.actionStatus.Some? then c.actionStatus.value else Requested;
      NewToolActionEffect(row, c.action, c.worker, status, now)
  }

  /** A tool action that is created. */
  function NewToolActionEffect(row: Row, key: string, worker: string, status: ActionStatus, now: Time): Effect {
    var before := row.session.status;
    var after := if (before.Pending? || before.Ready? || before.AwaitingWorker?) && StartsSession(status)
                 then Running else before;
    Effect(
      row.(session := row.session.(status := after),
           actions := row.actions[key := ToolAction(status, worker, None)]),
      [Plain(EventForAction(status), now)] + StatusEvents(before, after, now),
      None, false, Created)
  }

  function CloseSessionEffect(row: Row, c: Command, now: Time): Effect
    requires c.CloseSession?
  {
    var target := if c.status.Some? then c.status.value else Completed;
    if !c.admitted then Nothing(row, Refused)
    else if !target.IsTerminal() then Nothing(row, BadRequest)
    else ClosedEffect(row, target, now)
  }

  /** A close that goes through. */
  function ClosedEffect(row: Row, target: Status, now: Time): Effect {
    Effect(
      row.(session := row.session.(status := target, completedAt := Some(now))),
      StatusEvents(row.session.status, target, now) + [Plain(TerminalEventForClose(target), now)],
      Some(TaskStatusForSessionStatus(target, TaskNew)), false, Created)
  }

  predicate OnSession(c: Command) { !c.CreateTask? && !c.CreateSession? }

  function Handle(row: Row, task: Option<TaskStatus>, c: Command, now: Time): Effect
    requires OnSession(c)
  {
    match c
    case CreateCheckpoint(_, _, _, _, _, _) => CreateCheckpointEffect(row, c, now)
    case DecideCheckpoint(_, _, _, _, _, _) => DecideCheckpointEffect(row, c, now)
    case AttachWorker(_, _, _, _) => AttachWorkerEffect(row, c, now)
    case PostWorkerEvent(_, _, _, _, _, _) => PostWorkerEventEffect(row, task, c, now)
    case DecideProposal(_, _, _, _, _, _) => DecideProposalEffect(row, c, now)
    case CreateToolAction(_, _, _, _, _, _) => CreateToolActionEffect(row, c, now)
    case CloseSession(_, _, _, _) => CloseSessionEffect(row, c, now)
  }

  // ---------- the whole store ----------

  function Committed(e: Effect): Row { e.row.(feed := e.row.feed + e.events) }

  function TaskAfter(t: Task, e: Effect, session: string): Task {
    Task(if e.task.Some? then e.task.value else t.status, if e.marksLatest then session else t.latestSessionId)
  }

  function Commit(s: Store, session: string, e: Effect): Store
    requires session in s.rows
  {
    var taskId := s.rows[session].session.taskId;
    Store(if taskId in s.tasks then s.tasks[taskId := TaskAfter(s.tasks[taskId], e, session)] else s.tasks,
          s.rows[session := Committed(e)])
  }

  function NewRow(session: string, task: string, now: Time): Row {
    Row(session, Session(task, Pending, "", None), [], map[], map[], [Plain(SessionCreated, now)])
  }

  function EffectOn(s: Store, r: Request): Effect
    requires OnSession(r.command) && r.command.session in s.rows
  {
    Handle(s.rows[r.command.session], TaskStatusOf(s, r.command.session), r.command, r.now)
  }

  function TaskStatusOf(s: Store, session: string): Option<TaskStatus>
    requires session in s.rows
  {
    var taskId := s.rows[session].session.taskId;
    if taskId in s.tasks then Some(s.tasks[taskId].status) else None
  }

  function Step(s: Store, r: Request): Store {
    match r.command
    case CreateTask(task, admitted, valid) =>
      if admitted && valid then s.(tasks := s.tasks[task := Task(TaskNew, "")]) else s
    case CreateSession(task, session, admitted, legacyFits) =>
      if task !in s.tasks || !admitted || !legacyFits then s
      else Store(s.tasks[task := Task(TaskInProgress, session)], s.rows[session := NewRow(session, task, r.now)])
    case _ =>
      if r.command.session in s.rows then Commit(s, r.command.session, EffectOn(s, r)) else s
  }

  function Answer(s: Store, r: Request): Outcome {
    match r.command
    case CreateTask(_, admitted, valid) => if !admitted then Refused else if !valid then BadRequest else Created
    case CreateSession(task, _, admitted, legacyFits) =>
      if task !in s.tasks then NotFound
      else if !admitted then Refused
      else if !legacyFits then LegacyScopeMismatch
      else Created
    case _ => if r.command.session in s.rows then EffectOn(s, r).outcome else NotFound
  }

  /** The IDs the runtime generates are new. */
  predicate Fresh(s: Store, r: Request) {
    match r.command
    case CreateTask(task, _, _) => task !in s.tasks
    case CreateSession(_, session, _, _) => session !in s.rows && session != "" && Trimmed(session)
    case CreateCheckpoint(session, checkpoint, _, _, _, _) =>
      session in s.rows ==> checkpoint !in s.rows[session].checkpoints
    case AttachWorker(_, worker, _, _) => worker != ""
    case CreateToolAction(session, action, _, _, _, _) => session in s.rows ==> action !in s.rows[session].actions
    case _ => true
  }

  predicate FreshRun(s: Store, run: seq<Request>)
    decreases |run|
  {
    run == [] || (Fresh(s, run[0]) && FreshRun(Step(s, run[0]), run[1..]))
  }

  function Run(s: Store, run: seq<Request>): Store
    decreases |run|
  {
    if run == [] then s else Run(Step(s, run[0]), run[1..])
  }
}
