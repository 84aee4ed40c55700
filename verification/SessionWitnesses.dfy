/** Reachable stores in which what one would expect of the runtime fails: each is
    built request by request from the empty store. */
module SessionWitnesses {
  import opened Text
  import opened SessionModel
  import opened SessionInvariants
  import opened SessionReplay
  import opened SessionProposals
  import opened SessionActions
  import opened ProposalIds

  // ---------- reaching a store ----------

  ghost predicate Reachable(s: Store) { exists run :: FreshRun(EMPTY_STORE, run) && Run(EMPTY_STORE, run) == s }

  lemma {:induction false} RunAppends(s: Store, run: seq<Request>, r: Request)
    requires FreshRun(s, run) && Fresh(Run(s, run), r)
    ensures FreshRun(s, run + [r]) && Run(s, run + [r]) == Step(Run(s, run), r)
    decreases |run|
  {
    if run == [] {
      assert run + [r] == [r] && [r][1..] == [];
      assert FreshRun(Step(s, r), []) && Run(Step(s, r), []) == Step(s, r);
    } else {
      assert (run + [r])[1..] == run[1..] + [r];
      RunAppends(Step(s, run[0]), run[1..], r);
    }
  }

  lemma ReachesNext(s: Store, r: Request) returns (next: Store)
    requires Reachable(s) && Fresh(s, r)
    ensures next == Step(s, r) && Reachable(next)
  {
    var run :| FreshRun(EMPTY_STORE, run) && Run(EMPTY_STORE, run) == s;
    RunAppends(EMPTY_STORE, run, r);
    next := Step(s, r);
  }

  lemma ReachableSound(s: Store)
    requires Reachable(s)
    ensures Sound(s)
  {
    var run :| FreshRun(EMPTY_STORE, run) && Run(EMPTY_STORE, run) == s;
    RunsFromEmptyAreSound(run);
  }

  function At(c: Command): Request { Request(c, 0) }

  /** The store with one task and one session in this row. */
  function Single(t: Task, row: Row): Store { Store(map["t" := t], map["s" := row]) }

  lemma SessionOpened() returns (s: Store)
    ensures Reachable(s) && s == Single(Task(TaskInProgress, "s"), NewRow("s", "t", 0))
  {
    assert FreshRun(EMPTY_STORE, []) && Run(EMPTY_STORE, []) == EMPTY_STORE;
    var a := ReachesNext(EMPTY_STORE, At(CreateTask("t", true, true)));
    assert Trimmed("s");
    s := ReachesNext(a, At(CreateSession("t", "s", true, true)));
  }

  function Attached(row: Row, worker: string): Row {
    Committed(AttachWorkerEffect(row, AttachWorker("s", worker, true, true), 0))
  }

  lemma WorkerAttached(s: Store, t: Task, row: Row, worker: string) returns (next: Store)
    requires Reachable(s) && s == Single(t, row) && row.session.taskId == "t" && worker != ""
    ensures Reachable(next) && next == Single(t, Attached(row, worker))
  {
    next := ReachesNext(s, At(AttachWorker("s", worker, true, true)));
    assert next.rows == map["s" := Attached(row, worker)];
    assert next.tasks == s.tasks["t" := t] == map["t" := t];
  }

  /** A session with one attached worker, READY. */
  lemma WorkerReady() returns (s: Store)
    ensures Reachable(s) && "s" in s.rows && "t" in s.tasks && s.rows["s"].session == Session("t", Ready, "w", None)
    ensures s.rows["s"].workers == [Worker("w", Status.Attached)] && s.rows["s"].id == "s"
    ensures s.rows["s"].checkpoints == map[] && s.rows["s"].actions == map[]
    ensures |s.rows["s"].feed| == 4 && ProposalFree(s.rows["s"].feed)
  {
    var a := SessionOpened();
    s := WorkerAttached(a, Task(TaskInProgress, "s"), NewRow("s", "t", 0), "w");
    assert s.rows["s"] == Attached(NewRow("s", "t", 0), "w");
    assert |StatusEvents(Pending, Ready, 0)| == 1;
  }

  // ---------- a forged status event ----------

  /** Some run from the empty store breaks the replay. */
  lemma SomeRunForges()
    ensures exists run :: FreshRun(EMPTY_STORE, run) && !InSyncThroughout(EMPTY_STORE, run)
  {
    var s := WorkerReady();
    var run :| FreshRun(EMPTY_STORE, run) && Run(EMPTY_STORE, run) == s;
    var forged := At(PostWorkerEvent("s", "w", Some(SessionStatusChanged), Some(Running), "", true));
    assert FindWorker(s.rows["s"].workers, "w") == Some(0);
    assert ForgesIn(s, forged);
    RunAppends(EMPTY_STORE, run, forged);
    ForgedLast(EMPTY_STORE, run, forged);
    ReplayIsStateExactly(run + [forged]);
  }

  lemma {:induction false} ForgedLast(s: Store, run: seq<Request>, r: Request)
    requires ForgesIn(Run(s, run), r)
    ensures !ForgesNowhere(s, run + [r])
    decreases |run|
  {
    if run == [] {
      assert run + [r] == [r];
    } else {
      assert (run + [r])[1..] == run[1..] + [r];
      ForgedLast(Step(s, run[0]), run[1..], r);
    }
  }

  // ---------- events that say nothing ----------

  const PAD := Event(CustomEvent("note"), NO_PAYLOAD.(workerId := "w"), 0)

  const NOTE := At(PostWorkerEvent("s", "w", Some(CustomEvent("note")), None, "", true))

  function Pads(n: nat): seq<Event> { if n == 0 then [] else Pads(n - 1) + [PAD] }

  /** A live session whose only worker is attached. */
  predicate Working(s: Store) {
    "s" in s.rows && s.rows["s"].workers == [Worker("w", Status.Attached)] && s.rows["s"].id == "s" &&
    s.rows["s"].session.status.Ready?
  }

  lemma NoteAdds(s: Store) returns (next: Store)
    requires Reachable(s) && Working(s)
    ensures Reachable(next) && next.rows == s.rows["s" := s.rows["s"].(feed := s.rows["s"].feed + [PAD])]
  {
    var row := s.rows["s"];
    assert FindWorker(row.workers, "w") == Some(0);
    next := ReachesNext(s, NOTE);
    var e := EffectOn(s, NOTE);
    assert e.row == row && e.events == [PAD] + MoveEvents(Ready, Ready, 0);
    assert [PAD] + [] == [PAD];
  }

  lemma {:induction false} NotesAdd(s: Store, n: nat) returns (next: Store)
    requires Reachable(s) && Working(s)
    ensures Reachable(next) && next.rows == s.rows["s" := s.rows["s"].(feed := s.rows["s"].feed + Pads(n))]
    decreases n
  {
    if n == 0 {
      next := s;
      assert s.rows["s"].feed + [] == s.rows["s"].feed;
    } else {
      var before := NotesAdd(s, n - 1);
      next := NoteAdds(before);
      assert (s.rows["s"].feed + Pads(n - 1)) + [PAD] == s.rows["s"].feed + Pads(n);
    }
  }

  lemma {:induction false} PadsSilent(n: nat, target: string)
    ensures SilentOn(Pads(n), target) && |Pads(n)| == n
  {
    if n > 0 { PadsSilent(n - 1, target); }
  }

  // ---------- a decision past the page ----------

  function Generate(proposal: string): Request {
    At(PostWorkerEvent("s", "w", Some(ProposalGenerated), None, proposal, true))
  }

  predicate Open(feed: seq<Event>, proposal: string) {
    Seen(feed, proposal).Some? && Seen(feed, proposal).value.decision.None?
  }

  /** The worker generates a proposal. */
  lemma ProposalMade(s: Store, proposal: string) returns (next: Store)
    requires Reachable(s) && Working(s) && |s.rows["s"].feed| < PROPOSAL_EVENT_LIMIT
    requires proposal != "" && Normalized(proposal) == proposal
    ensures Reachable(next) && Working(next) && |next.rows["s"].feed| == |s.rows["s"].feed| + 1
    ensures Open(next.rows["s"].feed, proposal)
    ensures forall other :: other != "" && other != proposal ==>
      Seen(next.rows["s"].feed, other) == Seen(s.rows["s"].feed, other)
  {
    var row, r := s.rows["s"], Generate(proposal);
    assert FindWorker(row.workers, "w") == Some(0);
    next := ReachesNext(s, r);
    var e := EffectOn(s, r);
    assert |e.events| == 1 && e.row == row;
    RegenerationResets(row, TaskStatusOf(s, "s"), r.command, 0, proposal);
    forall other | other != "" && other != proposal
      ensures Seen(next.rows["s"].feed, other) == Seen(row.feed, other)
    {
      HandleSilent(row, TaskStatusOf(s, "s"), r.command, 0, other);
      SeenAfter(row.feed, e.events, other);
    }
  }

  function Approval(proposal: string): Request {
    At(DecideProposal("s", proposal, Some(Approve), "", NotExecuted, true))
  }

  lemma ApprovalApplies(s: Store, proposal: string)
    requires "s" in s.rows && !s.rows["s"].session.status.IsTerminal()
    requires Trim(proposal) == proposal != "" && Open(s.rows["s"].feed, proposal)
    ensures Applied(Answer(s, Approval(proposal))) && Answer(s, Approval(proposal)).verdict.Approve?
  {
  }

  /** In some reachable store a decision is applied past the page, so that it is not
      final. */
  lemma SomeDecisionIsForgotten()
    ensures exists s: Store, r: Request ::
              Reachable(s) && r.command.DecideProposal? && r.command.session in s.rows && Applied(Answer(s, r)) &&
              !FinalFor(Step(s, r), r.command.session, Trim(r.command.proposal))
  {
    var a := WorkerReady();
    assert Trimmed("p") && Normalized("p") == "p";
    var b := ProposalMade(a, "p");
    var n := PROPOSAL_EVENT_LIMIT - |b.rows["s"].feed|;
    var s := NotesAdd(b, n);
    PadsSilent(n, "p");
    SeenAfter(b.rows["s"].feed, Pads(n), "p");
    ApprovalApplies(s, "p");
    ReachableSound(s);
    var r := Approval("p");
    assert |s.rows["s"].feed| == PROPOSAL_EVENT_LIMIT && !Fits(s.rows["s"], r.command);
    DecisionIsFinalExactly(s, r);
    assert Trim("p") == "p" && r.command.session == "s" && r.command.proposal == "p";
  }

  // ---------- an approved proposal without an action ----------

  lemma ProposalApproved(s: Store, proposal: string) returns (next: Store)
    requires Reachable(s) && "s" in s.rows && !s.rows["s"].session.status.IsTerminal()
    requires Trim(proposal) == proposal != "" && Open(s.rows["s"].feed, proposal)
    ensures Reachable(next) && "s" in next.rows && next.rows["s"].session.status.Running?
    ensures s.rows["s"].feed <= next.rows["s"].feed && ApprovedIn(next.rows["s"].feed, proposal)
    ensures ProposalActionId("s", proposal) in next.rows["s"].actions
    ensures next.rows["s"].actions[ProposalActionId("s", proposal)].proposal == Some(proposal)
    ensures forall other :: other != "" && other != proposal ==>
      Seen(next.rows["s"].feed, other) == Seen(s.rows["s"].feed, other)
  {
    var row, r := s.rows["s"], Approval(proposal);
    ReachableSound(s);
    ApprovalApplies(s, proposal);
    next := ReachesNext(s, r);
    ApprovalIsRecorded(s, r);
    ProposalEventShape(row, r.command, 0);
    var e := EffectOn(s, r);
    StepFeed(s, r, "s");
    assert ApprovalEvent(e.events[|e.events| - 1], proposal) && e.events[|e.events| - 1] in next.rows["s"].feed;
    ApprovalRuns(s, proposal);
    forall other | other != "" && other != proposal
      ensures Seen(next.rows["s"].feed, other) == Seen(row.feed, other)
    {
      HandleSilent(row, TaskStatusOf(s, "s"), r.command, 0, other);
      SeenAfter(row.feed, e.events, other);
    }
  }

  lemma ApprovalRuns(s: Store, proposal: string)
    requires Sound(s) && "s" in s.rows && Applied(Answer(s, Approval(proposal)))
    ensures Step(s, Approval(proposal)).rows["s"].session.status.Running?
  {
    ApprovalIs(s.rows["s"], Approval(proposal).command, 0);
    assert RowSound(s.rows["s"]);
  }

  predicate Named(proposal: string) {
    proposal != "" && Trim(proposal) == proposal && Normalized(proposal) == proposal
  }

  lemma ApprovedInTurn(p: string, q: string) returns (s: Store)
    requires Named(p) && Named(q) && p != q
    ensures Reachable(s) && "s" in s.rows && ApprovedIn(s.rows["s"].feed, p)
    ensures ProposalActionId("s", q) in s.rows["s"].actions
    ensures s.rows["s"].actions[ProposalActionId("s", q)].proposal == Some(q)
  {
    var a := WorkerReady();
    var b := ProposalMade(a, p);
    var c := ProposalMade(b, q);
    var d := ProposalApproved(c, p);
    s := ProposalApproved(d, q);
    ApprovedInGrows(d.rows["s"].feed, s.rows["s"].feed);
  }

  /** Approving a proposal and then another with the same words in its ID leaves the
      first approved and without a tool action. */
  lemma ReplacedProposalHasNoAction(p: string, q: string)
    requires Named(p) && Named(q) && p != q && NameWords(p) == NameWords(q)
    ensures exists s: Store ::
              Reachable(s) && "s" in s.rows && ApprovedIn(s.rows["s"].feed, p) &&
              forall id :: id in s.rows["s"].actions ==> s.rows["s"].actions[id].proposal != Some(p)
  {
    var s := ApprovedInTurn(p, q);
    SharedActionExactly("s", p, q);
    ReachableSound(s);
    var run :| FreshRun(EMPTY_STORE, run) && Run(EMPTY_STORE, run) == s;
    ReplacedActionIsGone(run, "s", p);
  }

  // ---------- a session that stopped waiting ----------

  function Checkpointed(row: Row, key: string): Row {
    Committed(CreateCheckpointEffect(row, CreateCheckpoint("s", key, 0, "", true, true), 0))
  }

  /** In some reachable store a session is READY while one of its checkpoints is
      still pending. */
  lemma SomeSessionStopsWaiting()
    ensures exists s: Store ::
              Reachable(s) && "s" in s.rows && s.rows["s"].session.status.Ready? && HasPending(s.rows["s"])
  {
    var a := WorkerReady();
    var b := ReachesNext(a, At(CreateCheckpoint("s", "c1", 0, "", true, true)));
    assert b.rows["s"] == Checkpointed(a.rows["s"], "c1");
    assert "c2" != "c1" && "c2" !in b.rows["s"].checkpoints;
    var c := ReachesNext(b, At(CreateCheckpoint("s", "c2", 0, "", true, true)));
    assert c.rows["s"] == Checkpointed(b.rows["s"], "c2");
    var decide := At(DecideCheckpoint("s", "c1", Some(Approve), "", true, true));
    var s := ReachesNext(c, decide);
    assert s.rows["s"] == Committed(DecideCheckpointEffect(c.rows["s"], decide.command, 0));
    assert "c2" in s.rows["s"].checkpoints && s.rows["s"].checkpoints["c2"].status.CheckpointPending?;
  }

  /** In some reachable store a session completed at time 0 can come back from any
      later time within its checkpoint's lifetime, and from no time past it. */
  lemma SomeClosedSessionCanReopen()
    ensures exists s: Store ::
              Reachable(s) && "s" in s.rows && s.rows["s"].session.status.Completed? &&
              forall t :: CanReopenFrom(s, "s", t) <==> t <= DEFAULT_TTL_SECONDS
  {
    var a := WorkerReady();
    var b := ReachesNext(a, At(CreateCheckpoint("s", "c1", 0, "", true, true)));
    assert b.rows["s"] == Checkpointed(a.rows["s"], "c1");
    var close := At(CloseSession("s", None, "", true));
    var s := ReachesNext(b, close);
    assert s.rows["s"] == Committed(CloseSessionEffect(b.rows["s"], close.command, 0));
    OnlyCheckpoint(s.rows["s"], "c1");
    forall t ensures CanReopenFrom(s, "s", t) <==> t <= DEFAULT_TTL_SECONDS {
      ReopensExactlyWithLiveCheckpoint(s, "s", t);
    }
  }

  lemma OnlyCheckpoint(row: Row, key: string)
    requires row.checkpoints == map[key := Checkpoint(CheckpointPending, DEFAULT_TTL_SECONDS, "", None)]
    ensures forall t :: HasLive(row, t) <==> t <= DEFAULT_TTL_SECONDS
  {
    assert key in row.checkpoints;
  }

  // ---------- a selected worker that cannot report ----------

  /** Worker names of different lengths. */
  function Name(n: nat): string { if n == 0 then "w" else Name(n - 1) + "w" }

  lemma {:induction false} NameLength(n: nat)
    ensures |Name(n)| == n + 1
  {
    if n > 0 { NameLength(n - 1); }
  }

  lemma {:induction false} WorkersAttached(n: nat) returns (s: Store)
    ensures Reachable(s) && "s" in s.rows && "t" in s.tasks && |s.rows["s"].workers| == n
    ensures forall i :: 0 <= i < n ==> s.rows["s"].workers[i].id == Name(i)
    ensures n > 0 ==> s.rows["s"].session.selectedWorkerId == Name(n - 1)
    decreases n
  {
    if n == 0 {
      s := SessionOpened();
    } else {
      var before := WorkersAttached(n - 1);
      NameLength(n - 1);
      var r := At(AttachWorker("s", Name(n - 1), true, true));
      s := ReachesNext(before, r);
      assert s.rows["s"] == Attached(before.rows["s"], Name(n - 1));
    }
  }

  /** In some reachable store the session's own selected worker cannot report,
      after any run. */
  lemma SomeSelectedWorkerNeverReports()
    ensures exists s: Store ::
              Reachable(s) && "s" in s.rows && s.rows["s"].session.selectedWorkerId != "" &&
              NeverReports(s, "s", s.rows["s"].session.selectedWorkerId)
  {
    var n := WORKER_LIST_LIMIT;
    var s := WorkersAttached(n + 1);
    var row := s.rows["s"];
    NameLength(n);
    forall j | 0 <= j < |row.workers| && j < n ensures row.workers[j].id != Name(n) { NameLength(j); }
    forall run: seq<Request>, r: Request | FreshRun(s, run) && EventOf(r, "s", Name(n))
      ensures Answer(Run(s, run), r) == WorkerNotFound
    {
      LateWorkerNeverReports(s, run, r);
    }
  }

  predicate EventOf(r: Request, session: string, worker: string) {
    r.command.PostWorkerEvent? && r.command.admitted && r.command.session == session && r.command.worker == worker
  }

  ghost predicate NeverReports(s: Store, session: string, worker: string) {
    forall run: seq<Request>, r: Request ::
      FreshRun(s, run) && EventOf(r, session, worker) ==> Answer(Run(s, run), r) == WorkerNotFound
  }
}
