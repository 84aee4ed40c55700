/** Tool proposals: the decision a feed records, when it is final, and which tool
    action it leads to. A proposal is named here by its trimmed ID. */
module SessionProposals {
  import opened Text
  import opened SessionModel
  import opened SessionInvariants

  // ---------- reading the feed ----------

  lemma {:induction false} ReadConcat(p: Option<Proposal>, a: seq<Event>, b: seq<Event>, target: string)
    ensures ReadProposal(p, a + b, target) == ReadProposal(ReadProposal(p, a, target), b, target)
    decreases |a|
  {
    if a == [] {
      assert a + b == b;
    } else {
      assert (a + b)[1..] == a[1..] + b;
      ReadConcat(ReadProposalEvent(p, a[0], target), a[1..], b, target);
    }
  }

  predicate Generates(e: Event, target: string) {
    e.kind.ProposalGenerated? &&
    (if Normalized(e.payload.proposalId) == "" then Normalized(e.payload.nestedProposalId)
     else Normalized(e.payload.proposalId)) == target
  }

  predicate DecidesOn(e: Event, target: string) {
    e.kind.ProposalDecided? && Normalized(e.payload.proposalId) == target
  }

  predicate SilentOn(events: seq<Event>, target: string) {
    forall e :: e in events ==> !Generates(e, target) && !DecidesOn(e, target)
  }

  lemma {:induction false} ReadSilent(p: Option<Proposal>, events: seq<Event>, target: string)
    requires SilentOn(events, target)
    ensures ReadProposal(p, events, target) == p
    decreases |events|
  {
    if events != [] {
      assert events[0] in events;
      ReadSilent(p, events[1..], target);
    }
  }

  function Seen(feed: seq<Event>, target: string): Option<Proposal> {
    ReadProposal(None, Window(feed), target)
  }

  /** A silent stretch anywhere, or any stretch past the window, goes unseen. */
  lemma SeenAfter(feed: seq<Event>, more: seq<Event>, target: string)
    requires SilentOn(more, target) || |feed| >= PROPOSAL_EVENT_LIMIT
    ensures Seen(feed + more, target) == Seen(feed, target)
  {
    if |feed| >= PROPOSAL_EVENT_LIMIT {
      assert Window(feed + more) == Window(feed);
    } else {
      var room := PROPOSAL_EVENT_LIMIT - |feed|;
      var part := if |more| <= room then more else more[..room];
      assert Window(feed + more) == feed + part;
      ReadConcat(None, feed, part, target);
      ReadSilent(Seen(feed, target), part, target);
    }
  }

  // ---------- settled proposals ----------

  predicate Settled(row: Row, target: string, p: Proposal) {
    target != "" && p.decision.Some? && Seen(row.feed, target) == Some(p)
  }

  /** A worker event that generates the proposal inside the window. */
  predicate Regenerates(row: Row, c: Command, target: string) {
    c.PostWorkerEvent? && c.admitted && FindWorker(row.workers, c.worker).Some? &&
    c.kind == Some(ProposalGenerated) && Normalized(c.nestedProposalId) == target &&
    |row.feed| < PROPOSAL_EVENT_LIMIT
  }

  predicate DecidesProposal(c: Command, target: string) {
    c.DecideProposal? && Trim(c.proposal) == target
  }

  lemma FreeIsSilent(events: seq<Event>, target: string)
    requires ProposalFree(events)
    ensures SilentOn(events, target)
  {
  }

  /** Events of any handler are silent on a proposal unless the request generates
      it or decides it. */
  lemma HandleSilent(row: Row, task: Option<TaskStatus>, c: Command, now: Time, target: string)
    requires OnSession(c) && target != "" && !DecidesProposal(c, target)
    requires !(c.PostWorkerEvent? && c.kind == Some(ProposalGenerated) && Normalized(c.nestedProposalId) == target)
    ensures SilentOn(Handle(row, task, c, now).events, target)
  {
    var events := Handle(row, task, c, now).events;
    if c.DecideProposal? {
      ProposalEventShape(row, c, now);
      if events != [] {
        FirstsAndLast(events, target);
      }
    } else if c.PostWorkerEvent? {
      WorkerEventShape(row, task, c, now);
      if events != [] {
        assert Normalized("") == "";
        FirstAndRest(events, target);
      }
    } else {
      OtherEventsFree(row, task, c, now);
      FreeIsSilent(events, target);
    }
  }

  lemma FirstsAndLast(events: seq<Event>, target: string)
    requires events != [] && ProposalFree(events[..|events| - 1])
    requires var last := events[|events| - 1]; !Generates(last, target) && !DecidesOn(last, target)
    ensures SilentOn(events, target)
  {
    assert events == events[..|events| - 1] + [events[|events| - 1]];
  }

  lemma FirstAndRest(events: seq<Event>, target: string)
    requires events != [] && ProposalFree(events[1..])
    requires !Generates(events[0], target) && !DecidesOn(events[0], target)
    ensures SilentOn(events, target)
  {
    assert events == [events[0]] + events[1..];
  }

  lemma SettledIsNotDecided(row: Row, c: Command, now: Time, target: string, p: Proposal)
    requires DecidesProposal(c, target) && Settled(row, target, p)
    ensures DecideProposalEffect(row, c, now).events == [] && DecideProposalEffect(row, c, now).row == row
  {
  }

  lemma HandleKeepsSettledExactly(
    row: Row, task: Option<TaskStatus>, c: Command, now: Time, target: string, p: Proposal)
    requires OnSession(c) && Settled(row, target, p)
    ensures Settled(Committed(Handle(row, task, c, now)), target, p) <==> !Regenerates(row, c, target)
  {
    var e := Handle(row, task, c, now);
    HandleFrame(row, task, c, now);
    if DecidesProposal(c, target) {
      SettledIsNotDecided(row, c, now, target, p);
      assert row.feed + [] == row.feed;
    } else if c.PostWorkerEvent? && c.kind == Some(ProposalGenerated) && Normalized(c.nestedProposalId) == target {
      if Regenerates(row, c, target) {
        RegenerationResets(row, task, c, now, target);
      } else if e.events == [] {
        assert row.feed + [] == row.feed;
      } else {
        SeenAfter(row.feed, e.events, target);
      }
    } else {
      HandleSilent(row, task, c, now, target);
      SeenAfter(row.feed, e.events, target);
    }
  }

  /** Generating a proposal again makes it undecided. */
  lemma RegenerationResets(row: Row, task: Option<TaskStatus>, c: Command, now: Time, target: string)
    requires target != "" && Regenerates(row, c, target)
    ensures var after := Seen(Committed(PostWorkerEventEffect(row, task, c, now)).feed, target);
      after.Some? && after.value.decision.None?
  {
    var e := PostWorkerEventEffect(row, task, c, now);
    WorkerEventShape(row, task, c, now);
    assert Normalized("") == "";
    GenerationSeen(row.feed, e.events, target);
  }

  lemma GenerationSeen(feed: seq<Event>, events: seq<Event>, target: string)
    requires |feed| < PROPOSAL_EVENT_LIMIT && events != []
    requires Generates(events[0], target) && ProposalFree(events[1..])
    ensures Seen(feed + events, target).Some? && Seen(feed + events, target).value.decision.None?
  {
    var first, rest := events[0], events[1..];
    var fed := feed + [first];
    assert feed + events == fed + rest;
    ReadConcat(None, feed, [first], target);
    assert [first][1..] == [];
    assert ReadProposal(Seen(feed, target), [first], target)
        == ReadProposal(ReadProposalEvent(Seen(feed, target), first, target), [first][1..], target);
    FreeIsSilent(rest, target);
    SeenAfter(fed, rest, target);
  }

  // ---------- what an applied decision leaves ----------

  predicate IdText(s: string) { forall i :: 0 <= i < |s| ==> 'a' <= s[i] <= 'z' || '0' <= s[i] <= '9' || s[i] == '-' }

  lemma {:induction false} DashedShape(s: string, lastDash: bool)
    ensures IdText(Dashed(s, lastDash))
    decreases |s|
  {
    if s != "" {
      DashedShape(s[1..], false);
      DashedShape(s[1..], true);
    }
  }

  lemma {:induction false} TrimDashesShape(s: string)
    requires IdText(s)
    ensures IdText(TrimDashes(s))
    decreases |s|
  {
    if s != "" && s[0] == '-' {
      TrimDashesShape(s[1..]);
    } else if s != "" && s[|s| - 1] == '-' {
      TrimDashesShape(s[..|s| - 1]);
    }
  }

  lemma SanitizedShape(value: string)
    ensures IdText(SanitizeIdFragment(value)) && SanitizeIdFragment(value) != ""
  {
    DashedShape(Lower(Trim(value)), false);
    TrimDashesShape(Dashed(Lower(Trim(value)), false));
  }

  lemma ActionIdReadsBack(session: string, proposal: string)
    requires session != "" && Trimmed(session)
    ensures Normalized(ProposalActionId(session, proposal)) == ProposalActionId(session, proposal)
  {
    SanitizedShape(proposal);
    var id := ProposalActionId(session, proposal);
    assert id[0] == session[0];
    assert id[|id| - 1] == SanitizeIdFragment(proposal)[|SanitizeIdFragment(proposal)| - 1];
    assert Trimmed(id) && |id| > |"<nil>"|;
  }

  /** How many events an applied decision appends. */
  function EventsOfDecision(status: Status, c: Command): nat
    requires c.DecideProposal?
  {
    if c.decision != Some(Approve) then 1
    else
      (if StartsOnProposal(status) then 3 else 2) +
      (match c.execution
       case NotExecuted => 0
       case Rejected => 3
       case Executed(_, evidence) => if evidence then 6 else 5)
  }

  /** The decision event of this request still falls inside the window. */
  predicate Fits(row: Row, c: Command)
    requires c.DecideProposal?
  {
    |row.feed| + EventsOfDecision(row.session.status, c) <= PROPOSAL_EVENT_LIMIT
  }

  /** The proposal ID a decision was found under is not the text `<nil>`. */
  lemma {:induction false} FoundTargetIsNormal(p: Option<Proposal>, events: seq<Event>, target: string)
    requires p.None? && ReadProposal(p, events, target).Some?
    ensures target != "<nil>"
    decreases |events|
  {
    if events != [] && ReadProposalEvent(p, events[0], target).None? {
      FoundTargetIsNormal(p, events[1..], target);
    }
  }

  lemma DecisionSeen(feed: seq<Event>, events: seq<Event>, target: string)
    requires events != [] && ProposalFree(events[..|events| - 1])
    requires DecidesOn(events[|events| - 1], target)
    requires Seen(feed, target).Some? && Seen(feed, target).value.decision.None?
    ensures var seen := Seen(feed + events, target);
      && seen.Some?
      && (if |feed| + |events| <= PROPOSAL_EVENT_LIMIT
          then seen.value.decision == events[|events| - 1].payload.decision
               && seen.value.actionId == Normalized(events[|events| - 1].payload.actionId)
          else seen.value.decision.None?)
  {
    var work, decided := events[..|events| - 1], events[|events| - 1];
    var fed := feed + work;
    assert feed + events == fed + [decided];
    FreeIsSilent(work, target);
    SeenAfter(feed, work, target);
    if |feed| + |events| <= PROPOSAL_EVENT_LIMIT {
      ReadConcat(None, fed, [decided], target);
      assert [decided][1..] == [];
      assert ReadProposal(Seen(fed, target), [decided], target)
          == ReadProposal(ReadProposalEvent(Seen(fed, target), decided, target), [decided][1..], target);
    } else {
      SeenAfter(fed, [decided], target);
    }
  }

  /** An applied decision settles the proposal when its event fits the window;
      when it does not, the window keeps showing the proposal undecided. */
  lemma AppliedDecisionIsSeenExactly(row: Row, c: Command, now: Time)
    requires c.DecideProposal? && row.id != "" && Trimmed(row.id)
    requires Applied(DecideProposalEffect(row, c, now).outcome)
    ensures var e := DecideProposalEffect(row, c, now);
      var seen := Seen(Committed(e).feed, Trim(c.proposal));
      && seen.Some?
      && (if Fits(row, c)
          then seen.value.decision == Some(c.decision.value) && seen.value.actionId == e.outcome.actionId
          else seen.value.decision.None?)
  {
    var e := DecideProposalEffect(row, c, now);
    ProposalEventShape(row, c, now);
    AppliedCount(row, c, now);
    ProposalMoves(row, c, now);
    AppliedWasOpen(row, c, now);
    ActionIdReadsBack(row.id, c.proposal);
    assert Normalized("") == "";
    DecisionSeen(row.feed, e.events, Trim(c.proposal));
  }

  /** A decision is applied only to a proposal the feed shows undecided. */
  lemma AppliedWasOpen(row: Row, c: Command, now: Time)
    requires c.DecideProposal? && Applied(DecideProposalEffect(row, c, now).outcome)
    ensures var target := Trim(c.proposal);
      && target != "" && Normalized(target) == target
      && Seen(row.feed, target).Some? && Seen(row.feed, target).value.decision.None?
  {
    FoundTargetIsNormal(None, Window(row.feed), Trim(c.proposal));
  }

  lemma AppliedCount(row: Row, c: Command, now: Time)
    requires c.DecideProposal? && Applied(DecideProposalEffect(row, c, now).outcome)
    ensures |DecideProposalEffect(row, c, now).events| == EventsOfDecision(row.session.status, c)
  {
    if c.decision == Some(Approve) {
      ApprovalIs(row, c, now);
      ApprovalCount(row, c, FindProposal(row.feed, c.proposal).value, now);
    }
  }

  lemma ApprovalCount(row: Row, c: Command, p: Proposal, now: Time)
    requires c.DecideProposal? && c.decision == Some(Approve)
    ensures |ApproveProposalEffect(row, c, p, now).events| == EventsOfDecision(row.session.status, c)
  {
  }

  // ---------- runs ----------

  lemma StepFeedGrows(s: Store, r: Request, session: string)
    requires session in s.rows && Fresh(s, r)
    ensures session in Step(s, r).rows && s.rows[session].feed <= Step(s, r).rows[session].feed
    ensures Step(s, r).rows[session].id == s.rows[session].id
  {
    if OnSession(r.command) && r.command.session == session {
      StepOnOwn(s, r);
      HandleFrame(s.rows[session], TaskStatusOf(s, session), r.command, r.now);
    } else {
      StepOnOther(s, r, session);
    }
  }

  /** A request appends its handler's events to its own session's feed. */
  lemma StepFeed(s: Store, r: Request, session: string)
    requires OnSession(r.command) && r.command.session == session && session in s.rows
    ensures Step(s, r).rows[session].feed == s.rows[session].feed + EffectOn(s, r).events
  {
    StepOnOwn(s, r);
    HandleFrame(s.rows[session], TaskStatusOf(s, session), r.command, r.now);
  }

  /** The feed is append-only. */
  lemma {:induction false} FeedGrows(s: Store, run: seq<Request>, session: string)
    requires session in s.rows && FreshRun(s, run)
    ensures session in Run(s, run).rows && s.rows[session].feed <= Run(s, run).rows[session].feed
    ensures Run(s, run).rows[session].id == s.rows[session].id
    decreases |run|
  {
    if run != [] {
      StepFeedGrows(s, run[0], session);
      FeedGrows(Step(s, run[0]), run[1..], session);
    }
  }

  predicate RegeneratesIn(s: Store, r: Request, session: string, target: string) {
    OnSession(r.command) && r.command.session == session && session in s.rows &&
    Regenerates(s.rows[session], r.command, target)
  }

  predicate NeverRegenerated(s: Store, run: seq<Request>, session: string, target: string)
    decreases |run|
  {
    run == [] ||
    (!RegeneratesIn(s, run[0], session, target) && NeverRegenerated(Step(s, run[0]), run[1..], session, target))
  }

  predicate DecidesIn(r: Request, session: string, target: string) {
    DecidesProposal(r.command, target) && r.command.session == session
  }

  /** How many of the requests are applied decisions on the proposal. */
  function AppliedProposals(s: Store, run: seq<Request>, session: string, target: string): nat
    decreases |run|
  {
    if run == [] then 0
    else (if DecidesIn(run[0], session, target) && Applied(Answer(s, run[0])) then 1 else 0)
         + AppliedProposals(Step(s, run[0]), run[1..], session, target)
  }

  predicate ApprovalEvent(e: Event, target: string) {
    e.kind.ProposalDecided? && e.payload.proposalId == target && e.payload.decision == Some(Approve)
  }

  predicate ApprovedIn(feed: seq<Event>, target: string) {
    exists e :: e in feed && ApprovalEvent(e, target)
  }

  lemma SettledStep(s: Store, r: Request, session: string, target: string, p: Proposal)
    requires Fresh(s, r) && session in s.rows && Settled(s.rows[session], target, p)
    requires !RegeneratesIn(s, r, session, target)
    ensures var next := Step(s, r);
      && session in next.rows && Settled(next.rows[session], target, p)
      && (ApprovedIn(next.rows[session].feed, target) ==> ApprovedIn(s.rows[session].feed, target))
    ensures DecidesIn(r, session, target) ==>
      (Answer(s, r).ProposalAnswer? ==> Answer(s, r) == ProposalAnswer(false, p.decision.value, p.actionId))
      && Step(s, r).rows[session] == s.rows[session]
  {
    if OnSession(r.command) && r.command.session == session {
      var row := s.rows[session];
      var task := TaskStatusOf(s, r.command.session);
      HandleKeepsSettledExactly(row, task, r.command, r.now, target, p);
      HandleFrame(row, task, r.command, r.now);
      var e := EffectOn(s, r);
      if DecidesProposal(r.command, target) {
        assert e.events == [] && row.feed + [] == row.feed;
      } else {
        NoApprovalOfOthers(row, task, r.command, r.now, target);
      }
    }
  }

  lemma NoApprovalOfOthers(row: Row, task: Option<TaskStatus>, c: Command, now: Time, target: string)
    requires OnSession(c) && target != "" && !DecidesProposal(c, target)
    ensures forall e :: e in Handle(row, task, c, now).events ==> !ApprovalEvent(e, target)
  {
    var e := Handle(row, task, c, now);
    if c.DecideProposal? {
      ProposalEventShape(row, c, now);
      if e.events != [] { DecisionSpeaksForItself(e.events, c, e.outcome.verdict, e.outcome.actionId); }
    } else if c.PostWorkerEvent? {
      WorkerEventShape(row, task, c, now);
      if e.events != [] { PostedSpeaksForNone(e.events); }
    } else {
      OtherEventsFree(row, task, c, now);
    }
  }

  /** A settled proposal that is not generated again stays settled over any run:
      no decision on it is applied, every answer repeats the recorded verdict and
      action ID, and no approval is added to the feed. */
  lemma {:induction false} SettledForever(s: Store, run: seq<Request>, session: string, target: string, p: Proposal)
    requires FreshRun(s, run) && session in s.rows && Settled(s.rows[session], target, p)
    requires NeverRegenerated(s, run, session, target)
    ensures var last := Run(s, run);
      && session in last.rows && Settled(last.rows[session], target, p)
      && (ApprovedIn(last.rows[session].feed, target) ==> ApprovedIn(s.rows[session].feed, target))
    ensures AppliedProposals(s, run, session, target) == 0
    ensures forall r :: DecidesIn(r, session, target) && Answer(Run(s, run), r).ProposalAnswer? ==>
      Answer(Run(s, run), r) == ProposalAnswer(false, p.decision.value, p.actionId)
    decreases |run|
  {
    if run != [] {
      SettledStep(s, run[0], session, target, p);
      SettledForever(Step(s, run[0]), run[1..], session, target, p);
    }
  }

  /** The window is full and shows the proposal undecided. */
  predicate Forgotten(row: Row, target: string) {
    target != "" && |row.feed| >= PROPOSAL_EVENT_LIMIT &&
    Seen(row.feed, target).Some? && Seen(row.feed, target).value.decision.None?
  }

  /** Nothing that follows shows in a full window. */
  lemma FullWindowStays(s: Store, r: Request, session: string, target: string)
    requires session in s.rows && Fresh(s, r) && |s.rows[session].feed| >= PROPOSAL_EVENT_LIMIT
    ensures session in Step(s, r).rows && |Step(s, r).rows[session].feed| >= PROPOSAL_EVENT_LIMIT
    ensures Seen(Step(s, r).rows[session].feed, target) == Seen(s.rows[session].feed, target)
  {
    StepFeedGrows(s, r, session);
    var feed, next := s.rows[session].feed, Step(s, r).rows[session].feed;
    assert next == feed + next[|feed|..];
    SeenAfter(feed, next[|feed|..], target);
  }

  lemma {:induction false} FullWindowForever(s: Store, run: seq<Request>, session: string, target: string)
    requires session in s.rows && FreshRun(s, run) && |s.rows[session].feed| >= PROPOSAL_EVENT_LIMIT
    ensures session in Run(s, run).rows && |Run(s, run).rows[session].feed| >= PROPOSAL_EVENT_LIMIT
    ensures Seen(Run(s, run).rows[session].feed, target) == Seen(s.rows[session].feed, target)
    decreases |run|
  {
    if run != [] {
      FullWindowStays(s, run[0], session, target);
      FullWindowForever(Step(s, run[0]), run[1..], session, target);
    }
  }

  /** A complete decision on a live session's forgotten proposal is applied. */
  lemma ForgottenAnswer(s: Store, r: Request, session: string, target: string)
    requires session in s.rows && Forgotten(s.rows[session], target) && DecidesIn(r, session, target)
    requires !s.rows[session].session.status.IsTerminal() && r.command.admitted && r.command.decision.Some?
    ensures Applied(Answer(s, r))
  {
    StepOnOwn(s, r);
  }

  lemma ForgottenForever(s: Store, run: seq<Request>, session: string, target: string)
    requires FreshRun(s, run) && session in s.rows && Forgotten(s.rows[session], target)
    ensures session in Run(s, run).rows && Forgotten(Run(s, run).rows[session], target)
    ensures !Run(s, run).rows[session].session.status.IsTerminal() ==>
      forall r :: DecidesIn(r, session, target) && r.command.admitted && r.command.decision.Some? ==>
        Applied(Answer(Run(s, run), r))
  {
    FullWindowForever(s, run, session, target);
    var last := Run(s, run);
    if !last.rows[session].session.status.IsTerminal() {
      forall r | DecidesIn(r, session, target) && r.command.admitted && r.command.decision.Some?
        ensures Applied(Answer(last, r))
      {
        ForgottenAnswer(last, r, session, target);
      }
    }
  }

  /** The window is full and does not show the proposal. */
  predicate Unseen(row: Row, target: string) {
    |row.feed| >= PROPOSAL_EVENT_LIMIT && Seen(row.feed, target).None?
  }

  lemma UnseenAnswer(s: Store, r: Request, session: string, target: string)
    requires session in s.rows && Unseen(s.rows[session], target) && DecidesIn(r, session, target)
    ensures !Answer(s, r).ProposalAnswer?
    ensures !s.rows[session].session.status.IsTerminal() && r.command.admitted && r.command.decision.Some? ==>
      Answer(s, r) == NotFound
  {
    StepOnOwn(s, r);
  }

  /** A proposal that a full window does not show can never be decided: after any
      run, a complete decision on it is answered as on an unknown proposal. */
  lemma UnseenForever(s: Store, run: seq<Request>, session: string, target: string)
    requires FreshRun(s, run) && session in s.rows && Unseen(s.rows[session], target)
    ensures session in Run(s, run).rows && Unseen(Run(s, run).rows[session], target)
    ensures AppliedProposals(s, run, session, target) == 0
    ensures forall r :: DecidesIn(r, session, target) ==>
      var o := Answer(Run(s, run), r);
      && !o.ProposalAnswer?
      && (!Run(s, run).rows[session].session.status.IsTerminal() && r.command.admitted && r.command.decision.Some? ==>
          o == NotFound)
  {
    FullWindowForever(s, run, session, target);
    UnseenIsNeverApplied(s, run, session, target);
    var last := Run(s, run);
    forall r | DecidesIn(r, session, target)
      ensures !Answer(last, r).ProposalAnswer?
      ensures !last.rows[session].session.status.IsTerminal() && r.command.admitted && r.command.decision.Some? ==>
        Answer(last, r) == NotFound
    {
      UnseenAnswer(last, r, session, target);
    }
  }

  lemma {:induction false} UnseenIsNeverApplied(s: Store, run: seq<Request>, session: string, target: string)
    requires FreshRun(s, run) && session in s.rows && Unseen(s.rows[session], target)
    ensures AppliedProposals(s, run, session, target) == 0
    decreases |run|
  {
    if run != [] {
      FullWindowStays(s, run[0], session, target);
      if DecidesIn(run[0], session, target) { UnseenAnswer(s, run[0], session, target); }
      UnseenIsNeverApplied(Step(s, run[0]), run[1..], session, target);
    }
  }

  ghost predicate FinalFor(s: Store, session: string, target: string) {
    forall run :: FreshRun(s, run) && NeverRegenerated(s, run, session, target) ==>
      AppliedProposals(s, run, session, target) == 0
  }

  /** The proposal as read carries the verdict and action ID of an answer. */
  predicate RecordsAnswer(p: Proposal, o: Outcome)
    requires Applied(o)
  {
    p.decision == Some(o.verdict) && p.actionId == o.actionId
  }

  lemma FittingDecisionIsFinal(s: Store, r: Request)
    requires Sound(s) && r.command.DecideProposal? && r.command.session in s.rows && Applied(Answer(s, r))
    requires Fits(s.rows[r.command.session], r.command)
    ensures r.command.session in Step(s, r).rows
    ensures exists p ::
              Settled(Step(s, r).rows[r.command.session], Trim(r.command.proposal), p) && RecordsAnswer(p, Answer(s, r))
    ensures FinalFor(Step(s, r), r.command.session, Trim(r.command.proposal))
  {
    var session, target := r.command.session, Trim(r.command.proposal);
    AppliedDecisionIsSeenExactly(s.rows[session], r.command, r.now);
    ProposalEventShape(s.rows[session], r.command, r.now);
    var next := Step(s, r);
    var p := Seen(next.rows[session].feed, target).value;
    assert Settled(next.rows[session], target, p);
    forall run | FreshRun(next, run) && NeverRegenerated(next, run, session, target)
      ensures AppliedProposals(next, run, session, target) == 0
    {
      SettledForever(next, run, session, target, p);
    }
  }

  /** Whatever runs after a decision inside the window, deciding the proposal
      again changes nothing in its session and any answer repeats the first. */
  lemma LaterAnswersRepeatTheFirst(s: Store, r: Request, run: seq<Request>, again: Request)
    requires Sound(s) && r.command.DecideProposal? && r.command.session in s.rows && Applied(Answer(s, r))
    requires Fits(s.rows[r.command.session], r.command)
    requires FreshRun(Step(s, r), run)
    requires NeverRegenerated(Step(s, r), run, r.command.session, Trim(r.command.proposal))
    requires DecidesIn(again, r.command.session, Trim(r.command.proposal))
    ensures var last := Run(Step(s, r), run);
      && r.command.session in last.rows
      && Step(last, again).rows[r.command.session] == last.rows[r.command.session]
      && (Answer(last, again).ProposalAnswer? ==>
            Answer(last, again) == ProposalAnswer(false, Answer(s, r).verdict, Answer(s, r).actionId))
  {
    var session, target := r.command.session, Trim(r.command.proposal);
    FittingDecisionIsFinal(s, r);
    var p :| Settled(Step(s, r).rows[session], target, p) && RecordsAnswer(p, Answer(s, r));
    SettledForever(Step(s, r), run, session, target, p);
    SettledStep(Run(Step(s, r), run), again, session, target, p);
  }

  lemma UnfittingDecisionIsForgotten(s: Store, r: Request)
    requires Sound(s) && r.command.DecideProposal? && r.command.session in s.rows && Applied(Answer(s, r))
    requires !Fits(s.rows[r.command.session], r.command)
    ensures r.command.session in Step(s, r).rows
    ensures Forgotten(Step(s, r).rows[r.command.session], Trim(r.command.proposal))
    ensures !Step(s, r).rows[r.command.session].session.status.IsTerminal()
  {
    var session := r.command.session;
    AppliedDecisionIsSeenExactly(s.rows[session], r.command, r.now);
    AppliedCount(s.rows[session], r.command, r.now);
    StepFeed(s, r, session);
    AppliedStaysLive(s.rows[session], r.command, r.now);
  }

  lemma AppliedStaysLive(row: Row, c: Command, now: Time)
    requires c.DecideProposal? && Applied(DecideProposalEffect(row, c, now).outcome)
    ensures !DecideProposalEffect(row, c, now).row.session.status.IsTerminal()
  {
    ProposalMoves(row, c, now);
  }

  lemma ForgottenIsNotFinal(s: Store, session: string, target: string)
    requires session in s.rows && Trimmed(target) && Forgotten(s.rows[session], target)
    requires !s.rows[session].session.status.IsTerminal()
    ensures !FinalFor(s, session, target)
  {
    var again := Request(DecideProposal(session, target, Some(Deny), "", NotExecuted, true), 0);
    assert FreshRun(s, []) && Run(s, []) == s;
    ForgottenForever(s, [], session, target);
    assert DecidesIn(again, session, target) && Applied(Answer(s, again));
    var run := [again];
    var next := Step(s, again);
    assert run[1..] == [];
    assert AppliedProposals(s, run, session, target) == 1 + AppliedProposals(next, [], session, target);
    assert FreshRun(next, []) && FreshRun(s, run);
    assert NeverRegenerated(next, [], session, target);
    assert NeverRegenerated(s, run, session, target);
  }

  /** An applied decision is final over every later run that does not generate
      the proposal again exactly when its event fits the first 1000 of the feed. */
  lemma DecisionIsFinalExactly(s: Store, r: Request)
    requires Sound(s) && r.command.DecideProposal? && r.command.session in s.rows && Applied(Answer(s, r))
    ensures FinalFor(Step(s, r), r.command.session, Trim(r.command.proposal))
      <==> Fits(s.rows[r.command.session], r.command)
  {
    if Fits(s.rows[r.command.session], r.command) {
      FittingDecisionIsFinal(s, r);
    } else {
      UnfittingDecisionIsForgotten(s, r);
      ForgottenIsNotFinal(Step(s, r), r.command.session, Trim(r.command.proposal));
    }
  }

  // ---------- generated once, decided once ----------

  function GeneratedCount(feed: seq<Event>, target: string): nat
    decreases |feed|
  {
    if feed == [] then 0
    else (if Generates(feed[0], target) then 1 else 0) + GeneratedCount(feed[1..], target)
  }

  lemma {:induction false} GeneratedCountConcat(a: seq<Event>, b: seq<Event>, target: string)
    ensures GeneratedCount(a + b, target) == GeneratedCount(a, target) + GeneratedCount(b, target)
    decreases |a|
  {
    if a == [] {
      assert a + b == b;
    } else {
      assert (a + b)[1..] == a[1..] + b;
      GeneratedCountConcat(a[1..], b, target);
    }
  }

  lemma GeneratedCountGrows(a: seq<Event>, b: seq<Event>, target: string)
    requires a <= b
    ensures GeneratedCount(a, target) <= GeneratedCount(b, target)
  {
    assert b == a + b[|a|..];
    GeneratedCountConcat(a, b[|a|..], target);
  }

  /** A decision event that names a proposal carries a verdict. */
  predicate DecisionsCarryVerdicts(feed: seq<Event>) {
    forall e :: e in feed && e.kind.ProposalDecided? && Normalized(e.payload.proposalId) != "" ==>
      e.payload.decision.Some?
  }

  lemma StepKeepsVerdicts(s: Store, r: Request, session: string)
    requires Fresh(s, r) && session in s.rows && DecisionsCarryVerdicts(s.rows[session].feed)
    ensures session in Step(s, r).rows && DecisionsCarryVerdicts(Step(s, r).rows[session].feed)
  {
    StepFeedGrows(s, r, session);
    if OnSession(r.command) && r.command.session == session {
      HandleVerdicts(s.rows[session], TaskStatusOf(s, session), r.command, r.now);
      StepFeed(s, r, session);
      VerdictsConcat(s.rows[session].feed, EffectOn(s, r).events);
    }
  }

  lemma VerdictsConcat(a: seq<Event>, b: seq<Event>)
    requires DecisionsCarryVerdicts(a) && DecisionsCarryVerdicts(b)
    ensures DecisionsCarryVerdicts(a + b)
  {
  }

  /** Events that end with a decision carry its verdict, and approve nothing else. */
  lemma DecisionSpeaksForItself(events: seq<Event>, c: Command, v: Verdict, actionId: string)
    requires c.DecideProposal? && EndsDeciding(events, c, v, actionId)
    ensures DecisionsCarryVerdicts(events)
    ensures forall e :: e in events && e.kind.ProposalDecided? ==>
      e.payload.decision == Some(v) && e.payload.proposalId == Trim(c.proposal)
  {
    assert events == events[..|events| - 1] + [events[|events| - 1]];
  }

  /** Events whose only one about proposals names none. */
  lemma PostedSpeaksForNone(events: seq<Event>)
    requires events != [] && ProposalFree(events[1..]) && events[0].payload.proposalId == ""
    ensures DecisionsCarryVerdicts(events)
    ensures forall e :: e in events && e.kind.ProposalDecided? ==> e.payload.proposalId == ""
  {
    assert Normalized("") == "";
    assert events == [events[0]] + events[1..];
  }

  lemma HandleVerdicts(row: Row, task: Option<TaskStatus>, c: Command, now: Time)
    requires OnSession(c)
    ensures DecisionsCarryVerdicts(Handle(row, task, c, now).events)
  {
    var e := Handle(row, task, c, now);
    if c.DecideProposal? {
      ProposalEventShape(row, c, now);
      if e.events != [] { DecisionSpeaksForItself(e.events, c, e.outcome.verdict, e.outcome.actionId); }
    } else if c.PostWorkerEvent? {
      WorkerEventShape(row, task, c, now);
      if e.events != [] { PostedSpeaksForNone(e.events); }
    } else {
      OtherEventsFree(row, task, c, now);
    }
  }

  lemma {:induction false} UndecidedWasGenerated(p: Option<Proposal>, events: seq<Event>, target: string)
    requires target != "" && DecisionsCarryVerdicts(events)
    requires p.Some? ==> p.value.decision.Some?
    requires ReadProposal(p, events, target).Some? && ReadProposal(p, events, target).value.decision.None?
    ensures GeneratedCount(events, target) >= 1
    decreases |events|
  {
    if events != [] && !Generates(events[0], target) {
      assert events[0] in events;
      UndecidedWasGenerated(ReadProposalEvent(p, events[0], target), events[1..], target);
    }
  }

  lemma RegenerationCounts(s: Store, r: Request, session: string, target: string)
    requires Fresh(s, r) && RegeneratesIn(s, r, session, target)
    ensures GeneratedCount(Step(s, r).rows[session].feed, target) > GeneratedCount(s.rows[session].feed, target)
  {
    var e := EffectOn(s, r);
    assert Normalized("") == "";
    assert Generates(e.events[0], target);
    GeneratedCountConcat(s.rows[session].feed, e.events, target);
  }

  lemma {:induction false} GeneratedOnceIsNeverRegenerated(s: Store, run: seq<Request>, session: string, target: string)
    requires FreshRun(s, run) && session in s.rows && GeneratedCount(s.rows[session].feed, target) >= 1
    requires session in Run(s, run).rows && GeneratedCount(Run(s, run).rows[session].feed, target) <= 1
    ensures NeverRegenerated(s, run, session, target)
    decreases |run|
  {
    if run != [] {
      var next := Step(s, run[0]);
      StepFeedGrows(s, run[0], session);
      FeedGrows(next, run[1..], session);
      GeneratedCountGrows(s.rows[session].feed, next.rows[session].feed, target);
      GeneratedCountGrows(next.rows[session].feed, Run(s, run).rows[session].feed, target);
      if RegeneratesIn(s, run[0], session, target) { RegenerationCounts(s, run[0], session, target); }
      GeneratedOnceIsNeverRegenerated(next, run[1..], session, target);
    }
  }

  /** Over any run that ends with at most 1000 events in the feed, a proposal
      generated at most once is decided at most once. */
  lemma {:induction false} DecidedAtMostOnce(s: Store, run: seq<Request>, session: string, target: string)
    requires Sound(s) && FreshRun(s, run) && target != ""
    requires session in s.rows && DecisionsCarryVerdicts(s.rows[session].feed)
    requires session in Run(s, run).rows && |Run(s, run).rows[session].feed| <= PROPOSAL_EVENT_LIMIT
    requires GeneratedCount(Run(s, run).rows[session].feed, target) <= 1
    ensures AppliedProposals(s, run, session, target) <= 1
    decreases |run|
  {
    if run != [] {
      var next := Step(s, run[0]);
      StepKeepsSound(s, run[0]);
      StepFeedGrows(s, run[0], session);
      StepKeepsVerdicts(s, run[0], session);
      if DecidesIn(run[0], session, target) && Applied(Answer(s, run[0])) {
        FirstDecisionIsLast(s, run, session, target);
      } else {
        DecidedAtMostOnce(next, run[1..], session, target);
      }
    }
  }

  lemma FirstDecisionIsLast(s: Store, run: seq<Request>, session: string, target: string)
    requires Sound(s) && FreshRun(s, run) && target != "" && run != []
    requires session in s.rows && DecisionsCarryVerdicts(s.rows[session].feed)
    requires session in Run(s, run).rows && |Run(s, run).rows[session].feed| <= PROPOSAL_EVENT_LIMIT
    requires GeneratedCount(Run(s, run).rows[session].feed, target) <= 1
    requires DecidesIn(run[0], session, target) && Applied(Answer(s, run[0]))
    ensures AppliedProposals(Step(s, run[0]), run[1..], session, target) == 0
  {
    var row, next := s.rows[session], Step(s, run[0]);
    StepFeedGrows(s, run[0], session);
    FeedGrows(next, run[1..], session);
    AppliedCount(row, run[0].command, run[0].now);
    StepFeed(s, run[0], session);
    assert Fits(row, run[0].command);
    AppliedWasUndecided(row, run[0].command, run[0].now);
    UndecidedWasGenerated(None, row.feed, target);
    GeneratedCountGrows(row.feed, next.rows[session].feed, target);
    GeneratedOnceIsNeverRegenerated(next, run[1..], session, target);
    FittingDecisionIsFinal(s, run[0]);
  }

  lemma AppliedWasUndecided(row: Row, c: Command, now: Time)
    requires c.DecideProposal? && Applied(DecideProposalEffect(row, c, now).outcome)
    requires |row.feed| <= PROPOSAL_EVENT_LIMIT
    ensures var p := ReadProposal(None, row.feed, Trim(c.proposal)); p.Some? && p.value.decision.None?
  {
  }
}
