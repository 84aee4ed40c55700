/** The handlers of the governed-session runtime, writing to the store record by
    record and appending to a session's event feed. Each is proved to do to the
    whole store what SessionModel.Step says. */
module SessionRuntime {
  import opened Text
  import opened SessionModel

  /** The listing of a session's workers, searched in order. */
  method FindSessionWorker(workers: seq<Worker>, id: string) returns (index: Option<nat>)
    ensures index == FindWorker(workers, id)
    ensures index.Some? ==>
      index.value < |workers| && index.value < WORKER_LIST_LIMIT && workers[index.value].id == id &&
      forall j :: 0 <= j < index.value ==> workers[j].id != id
    ensures index.None? ==> forall j :: 0 <= j < |workers| && j < WORKER_LIST_LIMIT ==> workers[j].id != id
  {
    var i := 0;
    while i < |workers| && i < WORKER_LIST_LIMIT
      invariant 0 <= i <= |workers|
      invariant FindWorker(workers, id) == FindWorkerFrom(workers, id, i)
    {
      if workers[i].id == id { return Some(i); }
      i := i + 1;
    }
    return None;
  }

  /** The events of the feed's window, folded into what they say of a proposal. */
  method FindSessionToolProposal(feed: seq<Event>, proposalId: string) returns (proposal: Option<Proposal>)
    ensures proposal == FindProposal(feed, proposalId)
  {
    proposal := None;
    var target := Trim(proposalId);
    if target == "" { return; }
    var events := if |feed| <= PROPOSAL_EVENT_LIMIT then feed else feed[..PROPOSAL_EVENT_LIMIT];
    var i := 0;
    while i < |events|
      invariant 0 <= i <= |events|
      invariant ReadProposal(None, events, target) == ReadProposal(proposal, events[i..], target)
    {
      assert events[i..][0] == events[i] && events[i..][1..] == events[i + 1..];
      proposal := ReadEvent(proposal, events[i], target);
      i := i + 1;
    }
  }

  /** What one event adds to what is known of the proposal. */
  method ReadEvent(before: Option<Proposal>, event: Event, target: string) returns (proposal: Option<Proposal>)
    ensures proposal == ReadProposalEvent(before, event, target)
  {
    proposal := before;
    var payload := event.payload;
    var topId := Normalized(payload.proposalId);
    match event.kind {
      case ProposalGenerated =>
        var candidate := topId;
        if candidate == "" { candidate := Normalized(payload.nestedProposalId); }
        if candidate == target {
          proposal := Some(Proposal(None, "", "", None, Normalized(payload.workerId), 0));
        }
      case ProposalDecided =>
        if topId == target {
          var known := if proposal.Some? then proposal.value else Proposal(None, "", "", None, "", 0);
          var actionStatus := known.actionStatus;
          if payload.actionStatus.Some? { actionStatus := payload.actionStatus; }
          if payload.decision == Some(Approve) && actionStatus.None? { actionStatus := Some(Authorized); }
          proposal := Some(Proposal(payload.decision, Normalized(payload.reason), Normalized(payload.actionId),
            actionStatus, if known.workerId == "" then Normalized(payload.workerId) else known.workerId, event.at));
        }
      case _ =>
    }
  }

  class Runtime {
    var tasks: map<string, Task>
    var rows: map<string, Row>

    function Contents(): Store
      reads this
    {
      Store(tasks, rows)
    }

    constructor ()
      ensures Contents() == EMPTY_STORE
    {
      tasks, rows := map[], map[];
    }

    // ---------- store writes ----------

    method UpsertTask(id: string, task: Task)
      modifies this
      ensures rows == old(rows) && tasks == old(tasks)[id := task]
    {
      tasks := tasks[id := task];
    }

    method UpsertSession(id: string, session: Session)
      requires id in rows
      modifies this
      ensures tasks == old(tasks) && Rewrites(old(rows), rows, id)
      ensures rows[id] == old(rows)[id].(session := session)
    {
      rows := rows[id := rows[id].(session := session)];
    }

    method UpsertCheckpoint(id: string, key: string, checkpoint: Checkpoint)
      requires id in rows
      modifies this
      ensures tasks == old(tasks) && Rewrites(old(rows), rows, id)
      ensures rows[id] == old(rows)[id].(checkpoints := old(rows)[id].checkpoints[key := checkpoint])
    {
      rows := rows[id := rows[id].(checkpoints := rows[id].checkpoints[key := checkpoint])];
    }

    method UpsertToolAction(id: string, key: string, action: ToolAction)
      requires id in rows
      modifies this
      ensures tasks == old(tasks) && Rewrites(old(rows), rows, id)
      ensures rows[id] == old(rows)[id].(actions := old(rows)[id].actions[key := action])
    {
      rows := rows[id := rows[id].(actions := rows[id].actions[key := action])];
    }

    method UpsertSessionWorkers(id: string, workers: seq<Worker>)
      requires id in rows
      modifies this
      ensures tasks == old(tasks) && Rewrites(old(rows), rows, id)
      ensures rows[id] == old(rows)[id].(workers := workers)
    {
      rows := rows[id := rows[id].(workers := workers)];
    }

    method AppendSessionEvent(id: string, event: Event)
      requires id in rows
      modifies this
      ensures tasks == old(tasks) && Rewrites(old(rows), rows, id)
      ensures rows[id] == old(rows)[id].(feed := old(rows)[id].feed + [event])
    {
      rows := rows[id := rows[id].(feed := rows[id].feed + [event])];
    }

    method AppendStatusChange(id: string, previous: Status, status: Status, now: Time)
      requires id in rows
      modifies this
      ensures tasks == old(tasks) && Rewrites(old(rows), rows, id)
      ensures rows[id] == old(rows)[id].(feed := old(rows)[id].feed + StatusEvents(previous, status, now))
    {
      if previous != status {
        AppendSessionEvent(
          id, Event(SessionStatusChanged, NO_PAYLOAD.(previous := Some(previous), status := Some(status)), now));
      } else {
        assert rows[id].feed + [] == rows[id].feed;
      }
    }

    method AppendWithStatusChange(id: string, event: Event, previous: Status, status: Status, now: Time)
      requires id in rows
      modifies this
      ensures tasks == old(tasks) && Rewrites(old(rows), rows, id)
      ensures rows[id] == old(rows)[id].(
        feed := old(rows)[id].feed + ([event] + StatusEvents(previous, status, now)))
    {
      AppendSessionEvent(id, event);
      AppendStatusChange(id, previous, status, now);
      assert rows[id].feed == old(rows)[id].feed + ([event] + StatusEvents(previous, status, now));
    }

    method AppendStatusChangeThen(id: string, previous: Status, status: Status, event: Event, now: Time)
      requires id in rows
      modifies this
      ensures tasks == old(tasks) && Rewrites(old(rows), rows, id)
      ensures rows[id] == old(rows)[id].(
        feed := old(rows)[id].feed + (StatusEvents(previous, status, now) + [event]))
    {
      AppendStatusChange(id, previous, status, now);
      AppendSessionEvent(id, event);
      assert rows[id].feed == old(rows)[id].feed + (StatusEvents(previous, status, now) + [event]);
    }

    // ---------- handlers ----------

    method HandleCreateTask(task: string, admitted: bool, valid: bool, now: Time) returns (outcome: Outcome)
      modifies this
      ensures var r := Request(CreateTask(task, admitted, valid), now);
        Contents() == Step(old(Contents()), r) && outcome == Answer(old(Contents()), r)
    {
      if !admitted { return Refused; }
      if !valid { return BadRequest; }
      UpsertTask(task, Task(TaskNew, ""));
      return Created;
    }

    method HandleCreateSession(task: string, session: string, admitted: bool, legacyFits: bool, now: Time)
      returns (outcome: Outcome)
      modifies this
      ensures var r := Request(CreateSession(task, session, admitted, legacyFits), now);
        Contents() == Step(old(Contents()), r) && outcome == Answer(old(Contents()), r)
    {
      if task !in tasks { return NotFound; }
      if !admitted { return Refused; }
      if !legacyFits { return LegacyScopeMismatch; }
      rows := rows[session := Row(session, Session(task, Pending, "", None), [], map[], map[], [])];
      UpsertTask(task, Task(TaskInProgress, session));
      AppendSessionEvent(session, Plain(SessionCreated, now));
      assert rows[session].feed == NewRow(session, task, now).feed;
      assert rows == old(rows)[session := NewRow(session, task, now)];
      return Created;
    }

    method HandleCreateCheckpoint(id: string, checkpoint: string, ttl: int, reason: string,
                                  admitted: bool, valid: bool, now: Time)
      returns (outcome: Outcome)
      modifies this
      ensures var r := Request(CreateCheckpoint(id, checkpoint, ttl, reason, admitted, valid), now);
        Contents() == Step(old(Contents()), r) && outcome == Answer(old(Contents()), r)
    {
      ghost var r := Request(CreateCheckpoint(id, checkpoint, ttl, reason, admitted, valid), now);
      if id !in rows { return NotFound; }
      Unchanged(Contents(), id);
      outcome := Created;
      if !admitted {
        outcome := Refused;
      } else {
        var ttlSeconds := ttl;
        if ttlSeconds <= 0 { ttlSeconds := DEFAULT_TTL_SECONDS; }
        if ttlSeconds > MAX_TTL_SECONDS || !valid {
          outcome := BadRequest;
        } else {
          StoreCheckpoint(id, checkpoint, ttlSeconds, reason, now);
        }
      }
      StepIs(old(Contents()), Contents(), r, outcome);
    }

    method StoreCheckpoint(id: string, key: string, ttl: int, reason: string, now: Time)
      requires id in rows
      modifies this
      ensures Contents() == Commit(old(Contents()), id, NewCheckpointEffect(old(rows)[id], key, ttl, reason, now))
    {
      var session := rows[id].session;
      UpsertCheckpoint(id, key, Checkpoint(CheckpointPending, now + ttl, reason, None));
      var previousStatus := session.status;
      if !session.status.IsTerminal() {
        session := session.(status := AwaitingApproval);
        UpsertSession(id, session);
      }
      AppendWithStatusChange(id, Plain(ApprovalRequested, now), previousStatus, session.status, now);
      Conclude(old(Contents()), Contents(), id, NewCheckpointEffect(old(rows)[id], key, ttl, reason, now));
    }

    method HandleApprovalDecision(id: string, key: string, decision: Option<Verdict>, reason: string,
                                  admitted: bool, bindingAllows: bool, now: Time)
      returns (outcome: Outcome)
      modifies this
      ensures var r := Request(DecideCheckpoint(id, key, decision, reason, admitted, bindingAllows), now);
        Contents() == Step(old(Contents()), r) && outcome == Answer(old(Contents()), r)
    {
      ghost var r := Request(DecideCheckpoint(id, key, decision, reason, admitted, bindingAllows), now);
      if id !in rows { return NotFound; }
      var session := rows[id].session;
      if key !in rows[id].checkpoints {
        outcome := NotFound;
      } else if !admitted {
        outcome := Refused;
      } else if decision.None? {
        outcome := BadRequest;
      } else {
        var checkpoint := rows[id].checkpoints[key];
        var target := if decision.value.Approve? then CheckpointApproved else CheckpointDenied;
        if checkpoint.status.CheckpointPending? && checkpoint.expiresAt < now {
          UpsertCheckpoint(id, key, checkpoint.(status := CheckpointExpired));
          outcome := ApprovalExpired;
        } else if checkpoint.status == target {
          outcome := CheckpointAnswer(false, target);
        } else if !checkpoint.status.CheckpointPending? {
          outcome := ApprovalAlreadyResolved(checkpoint.status);
        } else if !bindingAllows {
          outcome := Refused;
        } else {
          ApplyApprovalDecision(id, key, decision.value, reason, now);
          outcome := CheckpointAnswer(true, target);
        }
      }
      Conclude(old(Contents()), Contents(), id, EffectOn(old(Contents()), r));
    }

    /** An approval decision that goes through: first the records, then the feed. */
    method ApplyApprovalDecision(id: string, key: string, decision: Verdict, reason: string, now: Time)
      requires id in rows && key in rows[id].checkpoints
      modifies this
      ensures Contents() == Commit(old(Contents()), id, ApplyDecisionEffect(old(rows)[id], key, decision, reason, now))
    {
      var previousStatus := rows[id].session.status;
      StoreApprovalDecision(id, key, decision, reason, now);
      LogApprovalDecision(id, previousStatus, rows[id].session.status, now);
      Conclude(old(Contents()), Contents(), id, ApplyDecisionEffect(old(rows)[id], key, decision, reason, now));
    }

    method StoreApprovalDecision(id: string, key: string, decision: Verdict, reason: string, now: Time)
      requires id in rows && key in rows[id].checkpoints
      modifies this
      ensures Rewrites(old(rows), rows, id)
      ensures rows[id] == ApplyDecisionEffect(old(rows)[id], key, decision, reason, now).row
      ensures var t := old(rows)[id].session.taskId;
        tasks == if t in old(tasks)
                 then old(tasks)[
                        t := old(tasks)[t].(status := if decision.Approve? then TaskInProgress else TaskBlocked)]
                 else old(tasks)
    {
      var session, checkpoint := rows[id].session, rows[id].checkpoints[key];
      UpsertCheckpoint(id, key, checkpoint.(
        status := if decision.Approve? then CheckpointApproved else CheckpointDenied,
        reason := reason, reviewedAt := Some(now)));
      var previousStatus := session.status;
      if decision.Approve? {
        session := session.(status := if session.selectedWorkerId != "" then Ready else AwaitingWorker);
      } else {
        session := session.(status := Blocked, completedAt := Some(now));
      }
      if previousStatus != session.status { UpsertSession(id, session); }
      if session.taskId in tasks {
        var status := if decision.Approve? then TaskInProgress else TaskBlocked;
        UpsertTask(session.taskId, tasks[session.taskId].(status := status));
      }
    }

    method LogApprovalDecision(id: string, previous: Status, status: Status, now: Time)
      requires id in rows
      modifies this
      ensures tasks == old(tasks) && Rewrites(old(rows), rows, id)
      ensures rows[id] == old(rows)[id].(
        feed := old(rows)[id].feed + ([Plain(ApprovalStatusChanged, now)] + StatusEvents(previous, status, now) +
          (if previous != status && status.IsTerminal() then [Plain(TerminalEventForClose(status), now)] else [])))
    {
      AppendSessionEvent(id, Plain(ApprovalStatusChanged, now));
      AppendStatusChange(id, previous, status, now);
      if previous != status && status.IsTerminal() {
        AppendSessionEvent(id, Plain(TerminalEventForClose(status), now));
      }
      ghost var last :=
        if previous != status && status.IsTerminal() then [Plain(TerminalEventForClose(status), now)] else [];
      assert rows[id].feed == old(rows)[id].feed +
        ([Plain(ApprovalStatusChanged, now)] + StatusEvents(previous, status, now) + last);
    }

    method HandleAttachSessionWorker(id: string, worker: string, admitted: bool, valid: bool, now: Time)
      returns (outcome: Outcome)
      modifies this
      ensures var r := Request(AttachWorker(id, worker, admitted, valid), now);
        Contents() == Step(old(Contents()), r) && outcome == Answer(old(Contents()), r)
    {
      ghost var r := Request(AttachWorker(id, worker, admitted, valid), now);
      if id !in rows { return NotFound; }
      if !admitted {
        outcome := Refused;
      } else if !valid {
        outcome := BadRequest;
      } else {
        var session := rows[id].session;
        UpsertSessionWorkers(id, rows[id].workers + [Worker(worker, Attached)]);
        var previousStatus := session.status;
        session := session.(selectedWorkerId := worker);
        if session.status.Pending? || session.status.AwaitingWorker? { session := session.(status := Ready); }
        UpsertSession(id, session);
        LogWorkerAttached(id, previousStatus, session.status, now);
        outcome := Created;
      }
      Conclude(old(Contents()), Contents(), id, EffectOn(old(Contents()), r));
    }

    method LogWorkerAttached(id: string, previous: Status, status: Status, now: Time)
      requires id in rows
      modifies this
      ensures tasks == old(tasks) && Rewrites(old(rows), rows, id)
      ensures rows[id] == old(rows)[id].(
        feed := old(rows)[id].feed +
          ([Plain(WorkerAttached, now), Plain(WorkerStatusChanged, now)] + StatusEvents(previous, status, now)))
    {
      AppendSessionEvent(id, Plain(WorkerAttached, now));
      AppendWithStatusChange(id, Plain(WorkerStatusChanged, now), previous, status, now);
      assert rows[id].feed == old(rows)[id].feed +
        ([Plain(WorkerAttached, now), Plain(WorkerStatusChanged, now)] + StatusEvents(previous, status, now));
    }

    method HandleWorkerEvent(id: string, workerId: string, eventType: Option<EventKind>, status: Option<Status>,
                             nestedProposalId: string, admitted: bool, now: Time)
      returns (outcome: Outcome)
      modifies this
      ensures var r := Request(PostWorkerEvent(id, workerId, eventType, status, nestedProposalId, admitted), now);
        Contents() == Step(old(Contents()), r) && outcome == Answer(old(Contents()), r)
    {
      if id !in rows { return NotFound; }
      ghost var c := PostWorkerEvent(id, workerId, eventType, status, nestedProposalId, admitted);
      outcome := Created;
      if !admitted {
        outcome := Refused;
      } else {
        var index := FindSessionWorker(rows[id].workers, workerId);
        if index.None? {
          outcome := WorkerNotFound;
        } else if eventType.None? && status.None? {
          outcome := BadRequest;
        } else {
          var kind := if eventType.Some? then eventType.value else WorkerStatusChanged;
          ApplyWorkerEvent(id, index.value, workerId, kind, status, nestedProposalId, c, now);
          return;
        }
      }
      Conclude(old(Contents()), Contents(), id, EffectOn(old(Contents()), Request(c, now)));
    }

    method ApplyWorkerEvent(id: string, index: nat, workerId: string, kind: EventKind, status: Option<Status>,
                            nestedProposalId: string, ghost c: Command, now: Time)
      requires id in rows && index < |rows[id].workers|
      requires c.PostWorkerEvent? && c == PostWorkerEvent(id, workerId, c.kind, status, nestedProposalId, true)
      modifies this
      ensures Contents() ==
        Commit(old(Contents()), id,
               WorkerEventEffect(old(rows)[id], TaskStatusOf(old(Contents()), id), index, kind, c, now))
    {
      RecordWorkerEvent(id, index, workerId, kind, status, nestedProposalId, c, now);
      var previousSessionStatus := rows[id].session.status;
      var nextSessionStatus := SessionStatusForWorkerStatus(status, previousSessionStatus);
      if nextSessionStatus != previousSessionStatus {
        StoreWorkerMove(id, nextSessionStatus, now);
      }
      LogWorkerMove(id, previousSessionStatus, nextSessionStatus, now);
      ghost var row, task := old(rows)[id], TaskStatusOf(old(Contents()), id);
      WorkerEventRow(row, task, index, kind, c, now);
      WorkerEventTasks(old(tasks), tasks, row, index, kind, c, now);
      Conclude(old(Contents()), Contents(), id, WorkerEventEffect(row, task, index, kind, c, now));
    }

    method StoreWorkerMove(id: string, status: Status, now: Time)
      requires id in rows && status != rows[id].session.status
      modifies this
      ensures Rewrites(old(rows), rows, id)
      ensures var row := old(rows)[id];
        && rows[id] == row.(session := WorkerMovedSession(row.session, status, now))
        && var t := row.session.taskId;
        tasks == if t in old(tasks)
                 then old(tasks)[t := Task(TaskStatusForSessionStatus(status, old(tasks)[t].status), id)]
                 else old(tasks)
    {
      var session := rows[id].session;
      session := session.(status := status);
      if session.status.IsTerminal() { session := session.(completedAt := Some(now)); }
      UpsertSession(id, session);
      if session.taskId in tasks {
        UpsertTask(session.taskId, Task(TaskStatusForSessionStatus(session.status, tasks[session.taskId].status), id));
      }
    }

    method LogWorkerMove(id: string, previous: Status, status: Status, now: Time)
      requires id in rows
      modifies this
      ensures tasks == old(tasks) && Rewrites(old(rows), rows, id)
      ensures rows[id] == old(rows)[id].(feed := old(rows)[id].feed + MoveEvents(previous, status, now))
    {
      var terminal := TerminalEventForWorker(status);
      if status != previous && terminal.Some? {
        AppendStatusChangeThen(id, previous, status, Plain(terminal.value, now), now);
      } else {
        AppendStatusChange(id, previous, status, now);
        assert StatusEvents(previous, status, now) + [] == StatusEvents(previous, status, now);
      }
    }

    method RecordWorkerEvent(id: string, index: nat, workerId: string, kind: EventKind, status: Option<Status>,
                             nestedProposalId: string, ghost c: Command, now: Time)
      requires id in rows && index < |rows[id].workers|
      requires c.PostWorkerEvent? && c == PostWorkerEvent(id, workerId, c.kind, status, nestedProposalId, true)
      modifies this
      ensures tasks == old(tasks) && Rewrites(old(rows), rows, id)
      ensures var row := old(rows)[id];
        var worker := row.workers[index];
        rows[id] == row.(
          workers := RecordedWorkers(row.workers, index, status),
          feed := row.feed + WorkerEvents(worker, kind, c, now))
    {
      var worker := rows[id].workers[index];
      var previousWorkerStatus := worker.status;
      var statusChanged := status.Some? && status.value != worker.status;
      if statusChanged {
        UpsertSessionWorkers(id, rows[id].workers[index := worker.(status := status.value)]);
      }
      AppendSessionEvent(id, Event(kind,
        NO_PAYLOAD.(previous := if status.Some? then Some(previousWorkerStatus) else None, status := status,
                   workerId := workerId, nestedProposalId := nestedProposalId), now));
      if statusChanged && kind != WorkerStatusChanged {
        AppendSessionEvent(id, Plain(WorkerStatusChanged, now));
      }
      assert rows[id].feed == old(rows)[id].feed + WorkerEvents(worker, kind, c, now);
    }

    method HandleToolProposalDecision(id: string, proposalId: string, decision: Option<Verdict>, reason: string,
                                      execution: Execution, admitted: bool, now: Time)
      returns (outcome: Outcome)
      modifies this
      ensures var r := Request(DecideProposal(id, proposalId, decision, reason, execution, admitted), now);
        Contents() == Step(old(Contents()), r) && outcome == Answer(old(Contents()), r)
    {
      ghost var r := Request(DecideProposal(id, proposalId, decision, reason, execution, admitted), now);
      if id !in rows { return NotFound; }
      Unchanged(Contents(), id);
      var row := rows[id];
      if row.session.status.IsTerminal() {
        outcome := SessionNotActive;
      } else if !admitted {
        outcome := Refused;
      } else if decision.None? {
        outcome := BadRequest;
      } else {
        var proposal := FindSessionToolProposal(row.feed, proposalId);
        if proposal.None? {
          outcome := NotFound;
        } else if proposal.value.decision.Some? {
          outcome := ProposalAnswer(false, proposal.value.decision.value, proposal.value.actionId);
        } else {
          OpenDecisionIs(row, r.command, proposal.value, now);
          outcome := DecideOpenProposal(id, proposalId, proposal.value, decision.value, reason, execution, now);
        }
      }
      StepIs(old(Contents()), Contents(), r, outcome);
    }

    method DecideOpenProposal(id: string, proposalId: string, proposal: Proposal, decision: Verdict, reason: string,
                              execution: Execution, now: Time)
      returns (outcome: Outcome)
      requires id in rows
      modifies this
      ensures var c := DecideProposal(id, proposalId, Some(decision), reason, execution, true);
        var e := DecidedEffect(old(rows)[id], c, proposal, now);
        Contents() == Commit(old(Contents()), id, e) && outcome == e.outcome
    {
      if decision.Approve? {
        var toolActionId := ApproveToolProposal(id, proposalId, proposal, reason, execution, now);
        outcome := ProposalAnswer(true, Approve, toolActionId);
      } else {
        DenyToolProposal(id, proposalId, proposal, reason, now);
        outcome := ProposalAnswer(true, Deny, "");
      }
    }

    method DenyToolProposal(id: string, proposalId: string, proposal: Proposal, reason: string, now: Time)
      requires id in rows
      modifies this
      ensures Contents() == Commit(old(Contents()), id, DenialEffect(old(rows)[id], proposalId, proposal, reason, now))
    {
      AppendSessionEvent(id, DecidedEvent(proposalId, Deny, reason, "", None, proposal.workerId, now));
      Conclude(old(Contents()), Contents(), id, DenialEffect(old(rows)[id], proposalId, proposal, reason, now));
    }

    /** Promotes the proposal to a tool action, starts the session, runs the
        action and records the decision. */
    method ApproveToolProposal(id: string, proposalId: string, proposal: Proposal, reason: string,
                               execution: Execution, now: Time)
      returns (toolActionId: string)
      requires id in rows
      modifies this
      ensures toolActionId == ProposalActionId(old(rows)[id].id, proposalId)
      ensures Contents() == Commit(old(Contents()), id,
        ApproveProposalEffect(old(rows)[id], DecideProposal(id, proposalId, Some(Approve), reason, execution, true),
                              proposal, now))
    {
      toolActionId := ProposalActionId(rows[id].id, proposalId);
      StartApprovedProposal(id, toolActionId, proposalId, proposal, now);
      FinishApprovedProposal(id, toolActionId, proposalId, proposal, reason, execution, now);
      ghost var c := DecideProposal(id, proposalId, Some(Approve), reason, execution, true);
      ApprovedRow(old(rows)[id], c, proposal, now);
      ApprovedTasks(old(tasks), tasks, old(rows)[id], c, proposal, now);
      Conclude(old(Contents()), Contents(), id, ApproveProposalEffect(old(rows)[id], c, proposal, now));
    }

    method StartApprovedProposal(id: string, toolActionId: string, proposalId: string, proposal: Proposal, now: Time)
      requires id in rows
      modifies this
      ensures Rewrites(old(rows), rows, id)
      ensures rows[id] == StartedRow(old(rows)[id], toolActionId, proposalId, proposal, now)
      ensures tasks == TasksWhen(old(tasks), StartsOnProposal(old(rows)[id].session.status),
                                 old(rows)[id].session.taskId, id)
    {
      UpsertToolAction(id, toolActionId, ToolAction(Authorized, proposal.workerId, Some(Trim(proposalId))));
      var status := rows[id].session.status;
      if status.Pending? || status.Ready? || status.AwaitingWorker? || status.AwaitingApproval? {
        MoveSession(id, Running, now);
      } else {
        assert rows[id].feed + [] == rows[id].feed;
      }
      AppendSessionEvent(id, Plain(ActionAuthorizedEvent, now));
    }

    method FinishApprovedProposal(id: string, toolActionId: string, proposalId: string, proposal: Proposal,
                                  reason: string, execution: Execution, now: Time)
      requires id in rows && toolActionId in rows[id].actions
      requires rows[id].actions[toolActionId] == ToolAction(Authorized, proposal.workerId, Some(Trim(proposalId)))
      modifies this
      ensures Rewrites(old(rows), rows, id)
      ensures rows[id] == FinishedRow(old(rows)[id], toolActionId, proposalId, proposal, reason, execution, now)
      ensures tasks == TasksWhen(old(tasks), !execution.NotExecuted? && old(rows)[id].session.status != Ready,
                                 old(rows)[id].session.taskId, id)
    {
      var actionStatus := RunToolAction(id, toolActionId, proposal.workerId, Trim(proposalId), execution, now);
      if !execution.NotExecuted? && rows[id].session.status != Ready {
        MoveSession(id, Ready, now);
      } else {
        assert rows[id].feed + [] == rows[id].feed;
      }
      AppendSessionEvent(
        id, DecidedEvent(proposalId, Approve, reason, toolActionId, Some(actionStatus), proposal.workerId, now));
    }

    /** A move to a live status, with its task in progress. */
    method MoveSession(id: string, status: Status, now: Time)
      requires id in rows
      modifies this
      ensures Rewrites(old(rows), rows, id)
      ensures var row := old(rows)[id];
        && rows[id] == row.(session := row.session.(status := status, completedAt := None),
                            feed := row.feed + StatusEvents(row.session.status, status, now))
        && var t := row.session.taskId;
        tasks == if t in old(tasks) then old(tasks)[t := Task(TaskInProgress, id)] else old(tasks)
    {
      var session := rows[id].session;
      var previousStatus := session.status;
      session := session.(status := status, completedAt := None);
      UpsertSession(id, session);
      if session.taskId in tasks { UpsertTask(session.taskId, Task(TaskInProgress, id)); }
      AppendStatusChange(id, previousStatus, status, now);
    }

    /** What running the approved proposal leaves: the action's last status and
        its events. */
    method RunToolAction(id: string, toolActionId: string, workerId: string, proposal: string,
                         execution: Execution, now: Time)
      returns (actionStatus: ActionStatus)
      requires id in rows && toolActionId in rows[id].actions
      requires rows[id].actions[toolActionId] == ToolAction(Authorized, workerId, Some(proposal))
      modifies this
      ensures actionStatus == ExecutedActionStatus(execution)
      ensures tasks == old(tasks) && Rewrites(old(rows), rows, id)
      ensures var row := old(rows)[id];
        rows[id] == row.(
          actions := row.actions[toolActionId := ToolAction(actionStatus, workerId, Some(proposal))],
          feed := row.feed + ExecutionEvents(execution, now))
    {
      actionStatus := Authorized;
      if execution.Executed? {
        actionStatus := if execution.succeeded then ActionCompleted else ActionFailed;
        ExecuteToolAction(id, toolActionId, workerId, proposal, execution, now);
      } else if execution.Rejected? {
        actionStatus := ActionFailed;
        RejectToolAction(id, toolActionId, workerId, proposal, now);
      } else {
        assert rows[id].feed + [] == rows[id].feed;
        assert rows[id].actions[toolActionId := ToolAction(Authorized, workerId, Some(proposal))] == rows[id].actions;
      }
    }

    method ExecuteToolAction(id: string, toolActionId: string, workerId: string, proposal: string,
                             execution: Execution, now: Time)
      requires id in rows && execution.Executed?
      modifies this
      ensures tasks == old(tasks) && Rewrites(old(rows), rows, id)
      ensures var row := old(rows)[id];
        rows[id] == row.(
          actions := row.actions[toolActionId := ToolAction(ExecutedActionStatus(execution), workerId, Some(proposal))],
          feed := row.feed + ExecutionEvents(execution, now))
    {
      ghost var row := rows[id];
      var started := ToolAction(Started, workerId, Some(proposal));
      var status := if execution.succeeded then ActionCompleted else ActionFailed;
      var finished := ToolAction(status, workerId, Some(proposal));
      UpsertToolAction(id, toolActionId, started);
      LogStarted(id, now);
      UpsertToolAction(id, toolActionId, finished);
      LogExecution(id, execution.succeeded, execution.evidence, now);
      assert row.actions[toolActionId := started][toolActionId := finished] == row.actions[toolActionId := finished];
      ExecutionIsLogged(row.feed, execution, now);
    }

    method LogStarted(id: string, now: Time)
      requires id in rows
      modifies this
      ensures tasks == old(tasks) && Rewrites(old(rows), rows, id)
      ensures rows[id] == old(rows)[id].(
        feed := old(rows)[id].feed + [Plain(ActionStartedEvent, now), Plain(WorkerProgress, now)])
    {
      AppendSessionEvent(id, Plain(ActionStartedEvent, now));
      AppendSessionEvent(id, Plain(WorkerProgress, now));
      assert rows[id].feed == old(rows)[id].feed + [Plain(ActionStartedEvent, now), Plain(WorkerProgress, now)];
    }

    method RejectToolAction(id: string, toolActionId: string, workerId: string, proposal: string, now: Time)
      requires id in rows
      modifies this
      ensures tasks == old(tasks) && Rewrites(old(rows), rows, id)
      ensures var row := old(rows)[id];
        rows[id] == row.(
          actions := row.actions[toolActionId := ToolAction(ActionFailed, workerId, Some(proposal))],
          feed := row.feed + [Plain(ActionFailedEvent, now), Plain(WorkerProgress, now)])
    {
      UpsertToolAction(id, toolActionId, ToolAction(ActionFailed, workerId, Some(proposal)));
      AppendSessionEvent(id, Plain(ActionFailedEvent, now));
      AppendSessionEvent(id, Plain(WorkerProgress, now));
      assert rows[id].feed == old(rows)[id].feed + [Plain(ActionFailedEvent, now), Plain(WorkerProgress, now)];
    }

    method LogExecution(id: string, succeeded: bool, evidence: bool, now: Time)
      requires id in rows
      modifies this
      ensures tasks == old(tasks) && Rewrites(old(rows), rows, id)
      ensures rows[id] == old(rows)[id].(
        feed := old(rows)[id].feed + ((if evidence then [Plain(EvidenceRecorded, now)] else []) +
          [Plain(if succeeded then ActionCompletedEvent else ActionFailedEvent, now), Plain(WorkerProgress, now)]))
    {
      if evidence { AppendSessionEvent(id, Plain(EvidenceRecorded, now)); }
      AppendSessionEvent(id, Plain(if succeeded then ActionCompletedEvent else ActionFailedEvent, now));
      AppendSessionEvent(id, Plain(WorkerProgress, now));
      assert rows[id].feed == old(rows)[id].feed + ((if evidence then [Plain(EvidenceRecorded, now)] else []) +
        [Plain(if succeeded then ActionCompletedEvent else ActionFailedEvent, now), Plain(WorkerProgress, now)]);
    }

    method HandleCreateToolAction(id: string, key: string, workerId: string, requested: Option<ActionStatus>,
                                  admitted: bool, valid: bool, now: Time)
      returns (outcome: Outcome)
      modifies this
      ensures var r := Request(CreateToolAction(id, key, workerId, requested, admitted, valid), now);
        Contents() == Step(old(Contents()), r) && outcome == Answer(old(Contents()), r)
    {
      ghost var r := Request(CreateToolAction(id, key, workerId, requested, admitted, valid), now);
      if id !in rows { return NotFound; }
      Unchanged(Contents(), id);
      var index := FindSessionWorker(rows[id].workers, workerId);
      if !admitted {
        outcome := Refused;
      } else if !valid {
        outcome := BadRequest;
      } else if workerId != "" && index.None? {
        outcome := WorkerNotFound;
      } else {
        var status := Requested;
        if requested.Some? { status := requested.value; }
        StoreToolAction(id, key, workerId, status, now);
        outcome := Created;
      }
      StepIs(old(Contents()), Contents(), r, outcome);
    }

    method StoreToolAction(id: string, key: string, workerId: string, status: ActionStatus, now: Time)
      requires id in rows
      modifies this
      ensures Contents() == Commit(old(Contents()), id, NewToolActionEffect(old(rows)[id], key, workerId, status, now))
    {
      UpsertToolAction(id, key, ToolAction(status, workerId, None));
      var previousStatus := rows[id].session.status;
      StartForAction(id, status);
      AppendWithStatusChange(id, Plain(EventForAction(status), now), previousStatus, rows[id].session.status, now);
      Conclude(old(Contents()), Contents(), id, NewToolActionEffect(old(rows)[id], key, workerId, status, now));
    }

    /** A waiting session starts running for an action that is not yet over. */
    method StartForAction(id: string, status: ActionStatus)
      requires id in rows
      modifies this
      ensures tasks == old(tasks) && Rewrites(old(rows), rows, id)
      ensures var row := old(rows)[id];
        var waits := row.session.status.Pending? || row.session.status.Ready? || row.session.status.AwaitingWorker?;
        rows[id] == if waits && StartsSession(status) then row.(session := row.session.(status := Running)) else row
    {
      var session := rows[id].session;
      if session.status.Pending? || session.status.Ready? || session.status.AwaitingWorker? {
        if status.Requested? || status.Authorized? || status.Started? { session := session.(status := Running); }
        UpsertSession(id, session);
      }
    }

    method HandleCloseSession(id: string, requested: Option<Status>, reason: string, admitted: bool, now: Time)
      returns (outcome: Outcome)
      modifies this
      ensures var r := Request(CloseSession(id, requested, reason, admitted), now);
        Contents() == Step(old(Contents()), r) && outcome == Answer(old(Contents()), r)
    {
      ghost var r := Request(CloseSession(id, requested, reason, admitted), now);
      if id !in rows { return NotFound; }
      Unchanged(Contents(), id);
      var target := if requested.Some? then requested.value else Completed;
      if !admitted {
        outcome := Refused;
      } else if !(target.Completed? || target.Failed? || target.Cancelled? || target.Blocked?) {
        outcome := BadRequest;
      } else {
        StoreClose(id, target, now);
        outcome := Created;
      }
      StepIs(old(Contents()), Contents(), r, outcome);
    }

    method StoreClose(id: string, target: Status, now: Time)
      requires id in rows && target.IsTerminal()
      modifies this
      ensures Contents() == Commit(old(Contents()), id, ClosedEffect(old(rows)[id], target, now))
    {
      var session := rows[id].session;
      var previousStatus := session.status;
      session := session.(status := target, completedAt := Some(now));
      UpsertSession(id, session);
      if session.taskId in tasks {
        var task := tasks[session.taskId];
        match target {
          case Completed => task := task.(status := TaskCompleted);
          case Failed => task := task.(status := TaskFailed);
          case Cancelled => task := task.(status := TaskCancelled);
          case _ => task := task.(status := TaskBlocked);
        }
        UpsertTask(session.taskId, task);
      }
      AppendStatusChangeThen(id, previousStatus, target, Plain(TerminalEventForClose(target), now), now);
      Conclude(old(Contents()), Contents(), id, ClosedEffect(old(rows)[id], target, now));
    }
  }

  lemma ExecutionIsLogged(feed: seq<Event>, execution: Execution, now: Time)
    requires execution.Executed?
    ensures feed + [Plain(ActionStartedEvent, now), Plain(WorkerProgress, now)]
        + ((if execution.evidence then [Plain(EvidenceRecorded, now)] else []) +
           [Plain(if execution.succeeded then ActionCompletedEvent else ActionFailedEvent, now),
            Plain(WorkerProgress, now)])
      == feed + ExecutionEvents(execution, now)
  {
    var begin := [Plain(ActionStartedEvent, now), Plain(WorkerProgress, now)];
    var rest := (if execution.evidence then [Plain(EvidenceRecorded, now)] else []) +
      [Plain(if execution.succeeded then ActionCompletedEvent else ActionFailedEvent, now), Plain(WorkerProgress, now)];
    Regroup2(feed, begin, rest);
    assert begin + rest == ExecutionEvents(execution, now);
  }

  // ---------- from effects to steps ----------

  /** A refused request leaves the store as it was. */
  lemma Unchanged(s: Store, id: string)
    requires id in s.rows
    ensures forall outcome :: Commit(s, id, Nothing(s.rows[id], outcome)) == s
  {
    forall outcome ensures Commit(s, id, Nothing(s.rows[id], outcome)) == s {
      var e := Nothing(s.rows[id], outcome);
      assert Committed(e) == s.rows[id] by { assert s.rows[id].feed + [] == s.rows[id].feed; }
      assert s.rows[id := s.rows[id]] == s.rows;
      var t := s.rows[id].session.taskId;
      if t in s.tasks { assert s.tasks[t := TaskAfter(s.tasks[t], e, id)] == s.tasks; }
    }
  }

  /** What a handler committed is what its request does. */
  lemma StepIs(before: Store, after: Store, r: Request, outcome: Outcome)
    requires OnSession(r.command) && r.command.session in before.rows
    requires outcome == EffectOn(before, r).outcome
    requires after == Commit(before, r.command.session, EffectOn(before, r))
    ensures after == Step(before, r) && outcome == Answer(before, r)
  {
  }

  function DenialEffect(row: Row, proposalId: string, proposal: Proposal, reason: string, now: Time): Effect {
    Effect(row, [DecidedEvent(proposalId, Deny, reason, "", None, proposal.workerId, now)],
           None, false, ProposalAnswer(true, Deny, ""))
  }

  /** An applied decision on an open proposal. */
  function DecidedEffect(row: Row, c: Command, proposal: Proposal, now: Time): Effect
    requires c.DecideProposal? && c.decision.Some?
  {
    if c.decision.value.Approve? then ApproveProposalEffect(row, c, proposal, now)
    else DenialEffect(row, c.proposal, proposal, c.reason, now)
  }

  lemma OpenDecisionIs(row: Row, c: Command, proposal: Proposal, now: Time)
    requires c.DecideProposal? && !row.session.status.IsTerminal() && c.admitted && c.decision.Some?
    requires FindProposal(row.feed, c.proposal) == Some(proposal) && proposal.decision.None?
    ensures DecideProposalEffect(row, c, now) == DecidedEffect(row, c, proposal, now)
  {
  }

  /** Only the row of `id` may differ. */
  predicate Rewrites(before: map<string, Row>, after: map<string, Row>, id: string) {
    id in before && after.Keys == before.Keys &&
    forall other :: other in before && other != id ==> after[other] == before[other]
  }

  // ---------- the two halves of an approved proposal ----------

  function TasksWhen(tasks: map<string, Task>, moved: bool, task: string, session: string): map<string, Task> {
    if moved && task in tasks then tasks[task := Task(TaskInProgress, session)] else tasks
  }

  function MovedSession(session: Session, status: Status): Session {
    session.(status := status, completedAt := None)
  }

  function StartedRow(row: Row, actionId: string, proposalId: string, proposal: Proposal, now: Time): Row {
    var before := row.session.status;
    var starts := StartsOnProposal(before);
    row.(session := if starts then MovedSession(row.session, Running) else row.session,
         actions := row.actions[actionId := ToolAction(Authorized, proposal.workerId, Some(Trim(proposalId)))],
         feed := row.feed + StatusEvents(before, if starts then Running else before, now) +
           [Plain(ActionAuthorizedEvent, now)])
  }

  function FinishedRow(row: Row, actionId: string, proposalId: string, proposal: Proposal, reason: string,
                       execution: Execution, now: Time): Row
  {
    var running := row.session.status;
    var after := if execution.NotExecuted? then running else Ready;
    var status := ExecutedActionStatus(execution);
    row.(session := if after == running then row.session else MovedSession(row.session, Ready),
         actions := row.actions[actionId := ToolAction(status, proposal.workerId, Some(Trim(proposalId)))],
         feed := row.feed + ExecutionEvents(execution, now) + StatusEvents(running, after, now) +
           [DecidedEvent(proposalId, Approve, reason, actionId, Some(status), proposal.workerId, now)])
  }

  // ---------- the parts of a worker event ----------

  function RecordedWorkers(workers: seq<Worker>, index: nat, status: Option<Status>): seq<Worker>
    requires index < |workers|
  {
    if status.Some? && status.value != workers[index].status
    then workers[index := workers[index].(status := status.value)] else workers
  }

  function WorkerMovedSession(session: Session, after: Status, now: Time): Session {
    if after == session.status then session
    else session.(status := after, completedAt := if after.IsTerminal() then Some(now) else session.completedAt)
  }

  lemma WorkerEventRow(row: Row, task: Option<TaskStatus>, index: nat, kind: EventKind, c: Command, now: Time)
    requires c.PostWorkerEvent? && index < |row.workers|
    ensures var before := row.session.status;
      var after := SessionStatusForWorkerStatus(c.status, before);
      Committed(WorkerEventEffect(row, task, index, kind, c, now)) == row.(
        workers := RecordedWorkers(row.workers, index, c.status),
        session := WorkerMovedSession(row.session, after, now),
        feed := row.feed + WorkerEvents(row.workers[index], kind, c, now) + MoveEvents(before, after, now))
  {
    var before := row.session.status;
    var after := SessionStatusForWorkerStatus(c.status, before);
    Regroup2(row.feed, WorkerEvents(row.workers[index], kind, c, now), MoveEvents(before, after, now));
  }

  lemma WorkerEventTasks(before: map<string, Task>, after: map<string, Task>, row: Row, index: nat,
                         kind: EventKind, c: Command, now: Time)
    requires c.PostWorkerEvent? && index < |row.workers|
    requires var t, status := row.session.taskId, SessionStatusForWorkerStatus(c.status, row.session.status);
      after == if t in before && status != row.session.status
               then before[t := Task(TaskStatusForSessionStatus(status, before[t].status), c.session)] else before
    ensures var t := row.session.taskId;
      var task := if t in before then Some(before[t].status) else None;
      after == (if t in before
                then before[t := TaskAfter(before[t], WorkerEventEffect(row, task, index, kind, c, now), c.session)]
                else before)
  {
  }

  lemma ApprovedRow(row: Row, c: Command, proposal: Proposal, now: Time)
    requires c.DecideProposal?
    ensures var id := ProposalActionId(row.id, c.proposal);
      FinishedRow(StartedRow(row, id, c.proposal, proposal, now), id, c.proposal, proposal, c.reason, c.execution, now)
      == Committed(ApproveProposalEffect(row, c, proposal, now))
  {
    var id := ProposalActionId(row.id, c.proposal);
    var before := row.session.status;
    var running := if StartsOnProposal(before) then Running else before;
    var after := if c.execution.NotExecuted? then running else Ready;
    var status := ExecutedActionStatus(c.execution);
    Regroup(row.feed, StatusEvents(before, running, now), [Plain(ActionAuthorizedEvent, now)],
            ExecutionEvents(c.execution, now), StatusEvents(running, after, now),
            [DecidedEvent(c.proposal, Approve, c.reason, id, Some(status), proposal.workerId, now)]);
    var last := ToolAction(status, proposal.workerId, Some(Trim(c.proposal)));
    assert row.actions[id := ToolAction(Authorized, proposal.workerId, Some(Trim(c.proposal)))][id := last]
        == row.actions[id := last];
  }

  lemma ApprovedTasks(
    before: map<string, Task>, after: map<string, Task>, row: Row, c: Command, proposal: Proposal, now: Time)
    requires c.DecideProposal?
    requires var starts := StartsOnProposal(row.session.status);
      var running := if starts then Running else row.session.status;
      after == TasksWhen(TasksWhen(before, starts, row.session.taskId, c.session),
                         !c.execution.NotExecuted? && running != Ready, row.session.taskId, c.session)
    ensures var t := row.session.taskId;
      after == (if t in before
                then before[t := TaskAfter(before[t], ApproveProposalEffect(row, c, proposal, now), c.session)]
                else before)
  {
  }

  lemma Regroup<T>(feed: seq<T>, a: seq<T>, b: seq<T>, c: seq<T>, d: seq<T>, e: seq<T>)
    ensures feed + a + b + c + d + e == feed + (a + b + c + d + e)
  {
  }

  lemma Regroup2<T>(feed: seq<T>, a: seq<T>, b: seq<T>)
    ensures feed + a + b == feed + (a + b)
  {
  }

  /** Row, other rows and tasks as the effect says make the committed store. */
  lemma Conclude(before: Store, after: Store, id: string, e: Effect)
    requires Rewrites(before.rows, after.rows, id)
    requires after.rows[id] == Committed(e)
    requires var t := before.rows[id].session.taskId;
      after.tasks == (if t in before.tasks then before.tasks[t := TaskAfter(before.tasks[t], e, id)] else before.tasks)
    ensures after == Commit(before, id, e)
  {
    assert after.rows == before.rows[id := Committed(e)];
  }
}
