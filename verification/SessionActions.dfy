/** The tool actions that approved proposals lead to: one to a proposal, what it
    records after any run, and when another proposal's approval replaces it. */
module SessionActions {
  import opened Text
  import opened SessionModel
  import opened SessionInvariants
  import opened SessionProposals
  import opened ProposalIds

  /** Where an approved proposal leaves its session: running, or READY for the next
      when its command was carried out or rejected, with its task in progress. */
  lemma ApprovedProposalMoves(s: Store, r: Request)
    requires Sound(s) && TasksFollow(s) && Fresh(s, r)
    requires r.command.DecideProposal? && r.command.decision == Some(Approve)
    requires r.command.session in s.rows && Applied(Answer(s, r))
    ensures var session, next := r.command.session, Step(s, r);
      && session in next.rows
      && next.rows[session].session.status == (if r.command.execution.NotExecuted? then Running else Ready)
      && ProposalActionId(session, r.command.proposal) in next.rows[session].actions
      && next.rows[session].actions[ProposalActionId(session, r.command.proposal)].status
         == ExecutedActionStatus(r.command.execution)
      && (OnlySession(s, s.rows[session].session.taskId, session) ==>
          s.rows[session].session.taskId in next.tasks &&
          next.tasks[s.rows[session].session.taskId].status == TaskInProgress)
  {
    var session, next := r.command.session, Step(s, r);
    var row := s.rows[session];
    var taskId := row.session.taskId;
    ApprovalIs(row, r.command, r.now);
    assert RowSound(row);
    HandleKeepsTaskInStepIfOnly(s, r);
  }

  lemma HandleKeepsTaskInStepIfOnly(s: Store, r: Request)
    requires Sound(s) && TasksFollow(s) && Fresh(s, r)
    requires OnSession(r.command) && r.command.session in s.rows
    ensures var task := s.rows[r.command.session].session.taskId;
      task in Step(s, r).tasks &&
      (OnlySession(s, task, r.command.session) ==>
       Step(s, r).tasks[task].status == Projected(Step(s, r).rows[r.command.session].session.status))
  {
    var session := r.command.session;
    var task := s.rows[session].session.taskId;
    HandleFrame(s.rows[session], TaskStatusOf(s, session), r.command, r.now);
    if OnlySession(s, task, session) {
      HandleKeepsTaskInStep(s.rows[session], s.tasks[task].status, r.command, r.now);
    }
  }

  // ---------- tool actions of proposals ----------

  /** An action made for a proposal sits under that proposal's action ID and the
      feed holds the approval that made it; and every approval in the feed has an
      action under its ID, made for a proposal of the same sanitised ID. */
  predicate ActionsMatchApprovals(row: Row) { ActionsHaveApprovals(row) && ApprovalsHaveActions(row) }

  predicate ActionsHaveApprovals(row: Row) {
    forall id :: id in row.actions && row.actions[id].proposal.Some? ==>
      id == ProposalActionId(row.id, row.actions[id].proposal.value) &&
      ApprovedIn(row.feed, row.actions[id].proposal.value)
  }

  predicate IsApproval(e: Event) { e.kind.ProposalDecided? && e.payload.decision == Some(Approve) }

  predicate ApprovalsHaveActions(row: Row) {
    forall e :: e in row.feed && IsApproval(e) ==> HasAction(row, e.payload.proposalId, e.payload.actionId)
  }

  predicate HasAction(row: Row, proposal: string, action: string) {
    && action == ProposalActionId(row.id, proposal)
    && action in row.actions && row.actions[action].proposal.Some?
    && SanitizeIdFragment(row.actions[action].proposal.value) == SanitizeIdFragment(proposal)
  }

  lemma SameIdSameFragment(session: string, p: string, q: string)
    requires ProposalActionId(session, p) == ProposalActionId(session, q)
    ensures SanitizeIdFragment(p) == SanitizeIdFragment(q)
  {
    var stem := session + "-tool-proposal-";
    assert ProposalActionId(session, p)[|stem|..] == SanitizeIdFragment(p);
    assert ProposalActionId(session, q)[|stem|..] == SanitizeIdFragment(q);
  }

  lemma TrimmedTwice(s: string)
    ensures Trim(Trim(s)) == Trim(s)
    ensures SanitizeIdFragment(Trim(s)) == SanitizeIdFragment(s)
  {
  }

  lemma ApprovedInGrows(a: seq<Event>, b: seq<Event>)
    requires a <= b
    ensures forall t :: ApprovedIn(a, t) ==> ApprovedIn(b, t)
  {
  }

  lemma HandleKeepsActions(row: Row, task: Option<TaskStatus>, c: Command, now: Time)
    requires OnSession(c) && ActionsMatchApprovals(row)
    requires c.CreateToolAction? ==> c.action !in row.actions
    ensures ActionsMatchApprovals(Committed(Handle(row, task, c, now)))
  {
    if c.DecideProposal? {
      DecisionKeepsActions(row, c, now);
    } else {
      HandleFrame(row, task, c, now);
      HandleApprovesNothing(row, task, c, now);
      HandleAddsUnproposed(row, task, c, now);
      EffectKeepsActions(row, Handle(row, task, c, now));
    }
  }

  lemma EffectKeepsActions(row: Row, e: Effect)
    requires ActionsMatchApprovals(row) && Framed(e, row) && AddsUnproposed(row.actions, e.row.actions)
    requires forall a :: a in e.events ==> !IsApproval(a)
    ensures ActionsMatchApprovals(Committed(e))
  {
    MoreEventsKeepActions(row, e.row, e.events);
  }

  /** Actions are kept, and new ones are made for no proposal. */
  predicate AddsUnproposed(was: map<string, ToolAction>, now: map<string, ToolAction>) {
    && (forall id :: id in now && now[id].proposal.Some? ==> id in was && now[id] == was[id])
    && (forall id :: id in was ==> id in now && now[id] == was[id])
  }

  lemma HandleAddsUnproposed(row: Row, task: Option<TaskStatus>, c: Command, now: Time)
    requires OnSession(c) && !c.DecideProposal? && (c.CreateToolAction? ==> c.action !in row.actions)
    ensures AddsUnproposed(row.actions, Handle(row, task, c, now).row.actions)
  {
    if c.CreateToolAction? {
      assert AddsUnproposed(row.actions, CreateToolActionEffect(row, c, now).row.actions);
    } else {
      OthersKeepActions(row, task, c, now);
    }
  }

  lemma OthersKeepActions(row: Row, task: Option<TaskStatus>, c: Command, now: Time)
    requires OnSession(c) && !c.DecideProposal? && !c.CreateToolAction?
    ensures Handle(row, task, c, now).row.actions == row.actions
  {
    match c
    case PostWorkerEvent(_, _, _, _, _, _) =>
      assert PostWorkerEventEffect(row, task, c, now).row.actions == row.actions;
    case CreateCheckpoint(_, _, _, _, _, _) => assert CreateCheckpointEffect(row, c, now).row.actions == row.actions;
    case DecideCheckpoint(_, _, _, _, _, _) => assert DecideCheckpointEffect(row, c, now).row.actions == row.actions;
    case AttachWorker(_, _, _, _) => assert AttachWorkerEffect(row, c, now).row.actions == row.actions;
    case CloseSession(_, _, _, _) => assert CloseSessionEffect(row, c, now).row.actions == row.actions;
  }

  lemma MoreEventsKeepActions(row: Row, next: Row, events: seq<Event>)
    requires ActionsMatchApprovals(row) && next.id == row.id && next.feed == row.feed
    requires AddsUnproposed(row.actions, next.actions)
    requires forall e :: e in events ==> !IsApproval(e)
    ensures ActionsMatchApprovals(next.(feed := next.feed + events))
  {
    MoreEventsKeepFirst(row, next, events);
    MoreEventsKeepSecond(row, next, events);
  }

  lemma MoreEventsKeepFirst(row: Row, next: Row, events: seq<Event>)
    requires ActionsHaveApprovals(row) && next.id == row.id && next.feed == row.feed
    requires AddsUnproposed(row.actions, next.actions)
    ensures ActionsHaveApprovals(next.(feed := next.feed + events))
  {
    ApprovedInGrows(row.feed, row.feed + events);
  }

  lemma MoreEventsKeepSecond(row: Row, next: Row, events: seq<Event>)
    requires ApprovalsHaveActions(row) && next.id == row.id && next.feed == row.feed
    requires AddsUnproposed(row.actions, next.actions)
    requires forall e :: e in events ==> !IsApproval(e)
    ensures ApprovalsHaveActions(next.(feed := next.feed + events))
  {
    forall e | e in row.feed && IsApproval(e)
      ensures HasAction(next, e.payload.proposalId, e.payload.actionId)
    {
      assert HasAction(row, e.payload.proposalId, e.payload.actionId);
    }
  }

  lemma HandleApprovesNothing(row: Row, task: Option<TaskStatus>, c: Command, now: Time)
    requires OnSession(c) && !c.DecideProposal?
    ensures forall e :: e in Handle(row, task, c, now).events ==>
      !IsApproval(e)
  {
    var events := Handle(row, task, c, now).events;
    if c.PostWorkerEvent? {
      WorkerEventShape(row, task, c, now);
      if events != [] { assert events == [events[0]] + events[1..]; }
    } else {
      OtherEventsFree(row, task, c, now);
    }
  }

  lemma DecisionKeepsActions(row: Row, c: Command, now: Time)
    requires c.DecideProposal? && ActionsMatchApprovals(row)
    ensures ActionsMatchApprovals(Committed(DecideProposalEffect(row, c, now)))
  {
    var e := DecideProposalEffect(row, c, now);
    ProposalEventShape(row, c, now);
    ProposalMoves(row, c, now);
    if e.events == [] {
      assert row.feed + [] == row.feed;
    } else if c.decision == Some(Deny) {
      DecisionSpeaksForItself(e.events, c, Deny, "");
      DenialMoves(row, c, now);
      MoreEventsKeepActions(row, row, e.events);
    } else {
      var p := FindProposal(row.feed, c.proposal).value;
      ApproveKeepsActions(row, c, p, now);
      ApprovalIs(row, c, now);
    }
  }

  lemma ApproveKeepsActions(row: Row, c: Command, p: Proposal, now: Time)
    requires c.DecideProposal? && ActionsMatchApprovals(row)
    ensures ActionsMatchApprovals(Committed(ApproveProposalEffect(row, c, p, now)))
  {
    var e := ApproveProposalEffect(row, c, p, now);
    var id, target := ProposalActionId(row.id, c.proposal), Trim(c.proposal);
    var action := ToolAction(ExecutedActionStatus(c.execution), p.workerId, Some(target));
    TrimmedTwice(c.proposal);
    ApprovalEventShape(row, c, p, now);
    ApprovalKeepsActions(row, e.events, id, target, action);
    SameActions(row.(actions := row.actions[id := action], feed := row.feed + e.events), Committed(e));
  }

  lemma SameActions(a: Row, b: Row)
    requires a.id == b.id && a.actions == b.actions && a.feed == b.feed && ActionsMatchApprovals(a)
    ensures ActionsMatchApprovals(b)
  {
    forall e | e in b.feed && IsApproval(e)
      ensures HasAction(b, e.payload.proposalId, e.payload.actionId)
    {
      assert HasAction(a, e.payload.proposalId, e.payload.actionId);
    }
  }

  lemma ApprovalKeepsActions(row: Row, events: seq<Event>, id: string, target: string, action: ToolAction)
    requires ActionsMatchApprovals(row) && events != [] && ProposalFree(events[..|events| - 1])
    requires id == ProposalActionId(row.id, target) && action.proposal == Some(target)
    requires var decided := events[|events| - 1]; ApprovalEvent(decided, target) && decided.payload.actionId == id
    ensures ActionsMatchApprovals(row.(actions := row.actions[id := action], feed := row.feed + events))
  {
    ApprovalKeepsFirst(row, events, id, target, action);
    ApprovalKeepsSecond(row, events, id, target, action);
  }

  lemma ApprovalKeepsFirst(row: Row, events: seq<Event>, id: string, target: string, action: ToolAction)
    requires ActionsHaveApprovals(row) && events != [] && ApprovalEvent(events[|events| - 1], target)
    requires id == ProposalActionId(row.id, target) && action.proposal == Some(target)
    ensures ActionsHaveApprovals(row.(actions := row.actions[id := action], feed := row.feed + events))
  {
    ApprovedInGrows(row.feed, row.feed + events);
    assert events[|events| - 1] in row.feed + events;
    assert ApprovedIn(row.feed + events, target);
  }

  lemma ApprovalKeepsSecond(row: Row, events: seq<Event>, id: string, target: string, action: ToolAction)
    requires ApprovalsHaveActions(row) && events != [] && ProposalFree(events[..|events| - 1])
    requires id == ProposalActionId(row.id, target) && action.proposal == Some(target)
    requires var decided := events[|events| - 1]; ApprovalEvent(decided, target) && decided.payload.actionId == id
    ensures ApprovalsHaveActions(row.(actions := row.actions[id := action], feed := row.feed + events))
  {
    var next := row.(actions := row.actions[id := action], feed := row.feed + events);
    assert events == events[..|events| - 1] + [events[|events| - 1]];
    forall e | e in next.feed && IsApproval(e)
      ensures HasAction(next, e.payload.proposalId, e.payload.actionId)
    {
      if e in row.feed {
        assert HasAction(row, e.payload.proposalId, e.payload.actionId);
        if e.payload.actionId == id { SameIdSameFragment(row.id, e.payload.proposalId, target); }
      }
    }
  }

  lemma {:induction false} RunKeepsActions(s: Store, run: seq<Request>)
    requires FreshRun(s, run) && forall id :: id in s.rows ==> ActionsMatchApprovals(s.rows[id])
    ensures forall id :: id in Run(s, run).rows ==> ActionsMatchApprovals(Run(s, run).rows[id])
    decreases |run|
  {
    if run != [] {
      var r, next := run[0], Step(s, run[0]);
      if OnSession(r.command) && r.command.session in s.rows {
        var row := s.rows[r.command.session];
        HandleKeepsActions(
          row, TaskStatusOf(s, r.command.session), r.command, r.now);
        assert next.rows[r.command.session] == Committed(EffectOn(s, r));
      }
      RunKeepsActions(next, run[1..]);
    }
  }

  /** In every reachable store a proposal has at most one tool action. */
  lemma AtMostOneActionPerProposal(run: seq<Request>, session: string, a: string, b: string)
    requires FreshRun(EMPTY_STORE, run) && session in Run(EMPTY_STORE, run).rows
    ensures var actions := Run(EMPTY_STORE, run).rows[session].actions;
      a in actions && b in actions && actions[a].proposal.Some? && actions[a].proposal == actions[b].proposal ==> a == b
  {
    RunKeepsActions(EMPTY_STORE, run);
  }

  /** No decision on the proposal is applied by this request. */
  predicate LeavesUndecided(s: Store, r: Request, session: string, target: string) {
    !(DecidesIn(r, session, target) && Applied(Answer(s, r)))
  }

  predicate OnlyOld(now: map<string, ToolAction>, was: map<string, ToolAction>, target: string) {
    forall id :: id in now && now[id].proposal == Some(target) ==> id in was && was[id] == now[id]
  }

  lemma NoNewAction(s: Store, r: Request, session: string, target: string)
    requires Fresh(s, r) && session in s.rows && LeavesUndecided(s, r, session, target)
    ensures session in Step(s, r).rows && OnlyOld(Step(s, r).rows[session].actions, s.rows[session].actions, target)
  {
    if !(OnSession(r.command) && r.command.session == session) {
      StepOnOther(s, r, session);
    } else if r.command.DecideProposal? {
      StepOnOwn(s, r);
      ProposalWrites(s.rows[session], r.command, r.now);
    } else {
      StepOnOwn(s, r);
      HandleAddsUnproposed(s.rows[session], TaskStatusOf(s, session), r.command, r.now);
    }
  }

  /** What a proposal decision writes to the actions. */
  lemma ProposalWrites(row: Row, c: Command, now: Time)
    requires c.DecideProposal?
    ensures var e, id := DecideProposalEffect(row, c, now), ProposalActionId(row.id, c.proposal);
      if Applied(e.outcome) && e.outcome.verdict.Approve? then
        && e.row.actions.Keys == row.actions.Keys + {id} && Records(e.row.actions[id], c)
        && forall other :: other in row.actions && other != id ==> e.row.actions[other] == row.actions[other]
      else e.row.actions == row.actions
  {
    ProposalEventShape(row, c, now);
    ProposalMoves(row, c, now);
    var e := DecideProposalEffect(row, c, now);
    if c.decision == Some(Deny) {
      DenialMoves(row, c, now);
    } else if e.events != [] {
      ApprovalIs(row, c, now);
    }
  }

  lemma {:induction false} UndecidedGetsNoAction(s: Store, run: seq<Request>, session: string, target: string)
    requires FreshRun(s, run) && session in s.rows && AppliedProposals(s, run, session, target) == 0
    ensures session in Run(s, run).rows && OnlyOld(Run(s, run).rows[session].actions, s.rows[session].actions, target)
    decreases |run|
  {
    if run != [] {
      NoNewAction(s, run[0], session, target);
      UndecidedGetsNoAction(Step(s, run[0]), run[1..], session, target);
    }
  }

  /** After an applied DENY inside the window, no tool action is ever made for the
      proposal: any it has it had before. */
  lemma DeniedProposalGetsNoAction(s: Store, r: Request, run: seq<Request>)
    requires Sound(s) && r.command.DecideProposal? && r.command.decision == Some(Deny)
    requires r.command.session in s.rows && Applied(Answer(s, r)) && Fits(s.rows[r.command.session], r.command)
    requires FreshRun(Step(s, r), run)
    requires NeverRegenerated(Step(s, r), run, r.command.session, Trim(r.command.proposal))
    ensures r.command.session in Run(Step(s, r), run).rows
    ensures OnlyOld(Run(Step(s, r), run).rows[r.command.session].actions,
                    s.rows[r.command.session].actions, Trim(r.command.proposal))
  {
    var session, target := r.command.session, Trim(r.command.proposal);
    FittingDecisionIsFinal(s, r);
    UndecidedGetsNoAction(Step(s, r), run, session, target);
    DenialMoves(s.rows[session], r.command, r.now);
    assert Step(s, r).rows[session].actions == s.rows[session].actions;
  }

  // ---------- actions that proposals share ----------

  /** The action is the one that approving this proposal made. */
  predicate Records(action: ToolAction, c: Command) {
    c.DecideProposal? && action.proposal == Some(Trim(c.proposal)) &&
    action.status == ExecutedActionStatus(c.execution)
  }

  /** The request is an applied APPROVE whose action has this ID. */
  predicate ApprovesUnder(s: Store, r: Request, session: string, id: string) {
    r.command.DecideProposal? && r.command.session == session && session in s.rows &&
    Applied(Answer(s, r)) && Answer(s, r).verdict.Approve? &&
    ProposalActionId(s.rows[session].id, r.command.proposal) == id
  }

  lemma ActionStep(s: Store, r: Request, session: string, id: string)
    requires Fresh(s, r) && session in s.rows
    ensures session in Step(s, r).rows
    ensures var was, now := s.rows[session].actions, Step(s, r).rows[session].actions;
      if ApprovesUnder(s, r, session, id) then id in now && Records(now[id], r.command)
      else id in was ==> id in now && now[id] == was[id]
  {
    if !(OnSession(r.command) && r.command.session == session) {
      StepOnOther(s, r, session);
    } else if r.command.DecideProposal? {
      StepOnOwn(s, r);
      ProposalWrites(s.rows[session], r.command, r.now);
    } else {
      StepOnOwn(s, r);
      HandleAddsUnproposed(s.rows[session], TaskStatusOf(s, session), r.command, r.now);
    }
  }

  /** The last applied APPROVE of the run whose action has this ID. */
  function LastApproval(s: Store, run: seq<Request>, session: string, id: string, last: Command): Command
    decreases |run|
  {
    if run == [] then last
    else
      LastApproval(Step(s, run[0]), run[1..], session, id,
                   if ApprovesUnder(s, run[0], session, id) then run[0].command else last)
  }

  /** Over any run, an action records exactly the last approval under its ID. */
  lemma {:induction false} ActionRecordsLastApproval(
    s: Store, run: seq<Request>, session: string, id: string, last: Command)
    requires FreshRun(s, run) && session in s.rows && id in s.rows[session].actions
    requires Records(s.rows[session].actions[id], last)
    ensures session in Run(s, run).rows && id in Run(s, run).rows[session].actions
    ensures Records(Run(s, run).rows[session].actions[id], LastApproval(s, run, session, id, last))
    decreases |run|
  {
    if run != [] {
      ActionStep(s, run[0], session, id);
      ActionRecordsLastApproval(Step(s, run[0]), run[1..], session, id,
                                if ApprovesUnder(s, run[0], session, id) then run[0].command else last);
    }
  }

  /** An applied APPROVE of another proposal whose ID has the same words. */
  predicate Replaces(s: Store, r: Request, session: string, proposal: string) {
    r.command.DecideProposal? && r.command.session == session && session in s.rows &&
    Applied(Answer(s, r)) && Answer(s, r).verdict.Approve? &&
    Trim(r.command.proposal) != Trim(proposal) && NameWords(r.command.proposal) == NameWords(proposal)
  }

  predicate NeverReplaced(s: Store, run: seq<Request>, session: string, proposal: string)
    decreases |run|
  {
    run == [] ||
    (!Replaces(s, run[0], session, proposal) && NeverReplaced(Step(s, run[0]), run[1..], session, proposal))
  }

  /** Which approvals go under a proposal's action ID: its own, and those that
      replace it. */
  lemma UnderExactly(s: Store, r: Request, session: string, proposal: string)
    requires session in s.rows
    ensures ApprovesUnder(s, r, session, ProposalActionId(s.rows[session].id, proposal))
      <==> Replaces(s, r, session, proposal) ||
           (DecidesIn(r, session, Trim(proposal)) && Applied(Answer(s, r)) && Answer(s, r).verdict.Approve?)
  {
    if r.command.DecideProposal? {
      SharedActionExactly(s.rows[session].id, r.command.proposal, proposal);
      if Trim(r.command.proposal) == Trim(proposal) {
        TrimmedTwice(proposal);
        TrimmedTwice(r.command.proposal);
      }
    }
  }

  lemma {:induction false} LastApprovalIs(
    s: Store, run: seq<Request>, session: string, proposal: string, last: Command)
    requires FreshRun(s, run) && session in s.rows && last.DecideProposal?
    requires AppliedProposals(s, run, session, Trim(proposal)) == 0
    ensures var l := LastApproval(s, run, session, ProposalActionId(s.rows[session].id, proposal), last);
      && l.DecideProposal?
      && (Trim(l.proposal) == Trim(proposal) <==>
          Trim(last.proposal) == Trim(proposal) && NeverReplaced(s, run, session, proposal))
    decreases |run|
  {
    if run != [] {
      var id := ProposalActionId(s.rows[session].id, proposal);
      UnderExactly(s, run[0], session, proposal);
      StepFeedGrows(s, run[0], session);
      LastApprovalIs(Step(s, run[0]), run[1..], session, proposal,
                     if ApprovesUnder(s, run[0], session, id) then run[0].command else last);
    }
  }

  /** Straight after its own approval the action records the proposal. */
  lemma ApprovalIsRecorded(s: Store, r: Request)
    requires Sound(s) && Fresh(s, r) && r.command.DecideProposal? && r.command.decision == Some(Approve)
    requires r.command.session in s.rows && Applied(Answer(s, r))
    ensures var id, next := ProposalActionId(r.command.session, r.command.proposal), Step(s, r);
      && r.command.session in next.rows && next.rows[r.command.session].id == r.command.session
      && id in next.rows[r.command.session].actions && Records(next.rows[r.command.session].actions[id], r.command)
  {
    ProposalEventShape(s.rows[r.command.session], r.command, r.now);
    ActionStep(s, r, r.command.session, ProposalActionId(r.command.session, r.command.proposal));
    StepFeedGrows(s, r, r.command.session);
  }

  /** After an applied APPROVE inside the window, the action under the proposal's
      ID still records the proposal exactly while no other proposal whose ID has
      the same words is approved. */
  lemma ActionKeptExactly(s: Store, r: Request, run: seq<Request>)
    requires Sound(s) && r.command.DecideProposal? && r.command.decision == Some(Approve)
    requires r.command.session in s.rows && Applied(Answer(s, r)) && Fits(s.rows[r.command.session], r.command)
    requires FreshRun(Step(s, r), run)
    requires NeverRegenerated(Step(s, r), run, r.command.session, Trim(r.command.proposal))
    ensures var session, proposal, last := r.command.session, r.command.proposal, Run(Step(s, r), run);
      var id := ProposalActionId(session, proposal);
      && session in last.rows && id in last.rows[session].actions
      && (last.rows[session].actions[id].proposal == Some(Trim(proposal)) <==>
          NeverReplaced(Step(s, r), run, session, proposal))
  {
    var session, proposal := r.command.session, r.command.proposal;
    ApprovalIsRecorded(s, r);
    FittingDecisionIsFinal(s, r);
    ActionRecordsLastApproval(Step(s, r), run, session, ProposalActionId(session, proposal), r.command);
    LastApprovalIs(Step(s, r), run, session, proposal, r.command);
  }

  /** In a reachable row, a proposal whose action ID records another proposal has
      no action at all. */
  lemma ReplacedActionIsGone(run: seq<Request>, session: string, proposal: string)
    requires FreshRun(EMPTY_STORE, run) && session in Run(EMPTY_STORE, run).rows
    ensures var row := Run(EMPTY_STORE, run).rows[session];
      var id := ProposalActionId(row.id, proposal);
      (exists other :: other in row.actions && row.actions[other].proposal == Some(Trim(proposal))) <==>
      id in row.actions && row.actions[id].proposal == Some(Trim(proposal))
  {
    RunKeepsActions(EMPTY_STORE, run);
    TrimmedTwice(proposal);
  }
}
