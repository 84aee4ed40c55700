/** The follow protocol of the VS Code thread panel. Every start takes a new
    generation and runs one loop that alternates between awaiting the runtime and
    waiting on a timer; a stop only bumps the generation and clears the timer it
    knows of, so loops of older generations are still suspended somewhere. Loads,
    focus changes and decisions reach the protocol as starts, at any moment;
    PanelLoads.dfy says which of them a disposed panel still has ahead of it. */
module FollowLoop {
  import opened Text

  /** Where a loop is: awaiting the event stream, awaiting the timeline after new
      items, waiting for a timer, or returned. */
  datatype Phase = Streaming | LoadingTimeline | Waiting(timer: nat) | Returned

  datatype Loop = Loop(generation: nat, phase: Phase)

  /** What a loop sees when it looks at the selected session. */
  datatype Look = NoView | Finished | Open

  datatype Reply = NoItems | Items | Failure

  /** The panel's two fields, with the loops and timers of the event loop. */
  datatype Panel = Panel(
    generation: nat, handle: Option<nat>, loops: seq<Loop>, pending: set<nat>, nextTimer: nat)

  const NEW_PANEL := Panel(0, None, [], {}, 0)

  datatype Event =
    | Stop
    | Start(hasSession: bool, look: Look)
    | StreamReply(loop: nat, reply: Reply)
    | TimelineReply(loop: nat)
    | TimerFires(timer: nat, loop: nat, look: Look)

  function StopFollow(p: Panel): Panel {
    p.(generation := p.generation + 1, handle := None,
       pending := if p.handle.Some? then p.pending - {p.handle.value} else p.pending)
  }

  /** The loop body up to its first await. */
  function Entered(p: Panel, generation: nat, look: Look): Loop {
    Loop(generation, if generation == p.generation && look.Open? then Streaming else Returned)
  }

  /** The loop body after its last await. */
  function Resumed(p: Panel, i: nat): Panel
    requires i < |p.loops|
  {
    var g := p.loops[i].generation;
    if g != p.generation then p.(loops := p.loops[i := Loop(g, Returned)])
    else p.(handle := Some(p.nextTimer), pending := p.pending + {p.nextTimer}, nextTimer := p.nextTimer + 1,
            loops := p.loops[i := Loop(g, Waiting(p.nextTimer))])
  }

  /** Whether the event loop can deliver the event. */
  predicate Enabled(p: Panel, e: Event) {
    match e
    case Stop => true
    case Start(_, _) => true
    case StreamReply(i, _) => i < |p.loops| && p.loops[i].phase == Streaming
    case TimelineReply(i) => i < |p.loops| && p.loops[i].phase == LoadingTimeline
    case TimerFires(t, i, _) => t in p.pending && i < |p.loops| && p.loops[i].phase == Waiting(t)
  }

  function Step(p: Panel, e: Event): Panel
    requires Enabled(p, e)
  {
    match e
    case Stop => StopFollow(p)
    case Start(hasSession, look) =>
      var q := StopFollow(p);
      if !hasSession then q else q.(loops := q.loops + [Entered(q, q.generation, look)])
    case StreamReply(i, reply) =>
      if reply.Items? then p.(loops := p.loops[i := p.loops[i].(phase := LoadingTimeline)])
      else Resumed(p, i)
    case TimelineReply(i) => Resumed(p, i)
    case TimerFires(t, i, look) =>
      p.(pending := p.pending - {t}, loops := p.loops[i := Entered(p, p.loops[i].generation, look)])
  }

  predicate EnabledRun(p: Panel, run: seq<Event>)
    decreases |run|
  {
    run == [] || (Enabled(p, run[0]) && EnabledRun(Step(p, run[0]), run[1..]))
  }

  function Run(p: Panel, run: seq<Event>): Panel
    requires EnabledRun(p, run)
    decreases |run|
  {
    if run == [] then p else Run(Step(p, run[0]), run[1..])
  }

  // ---------- the panel's methods ----------

  class ThreadPanel {
    var followGeneration: nat
    var followHandle: Option<nat>
    var loops: seq<Loop>
    var timers: set<nat>
    var nextTimer: nat

    function Contents(): Panel
      reads this
    {
      Panel(followGeneration, followHandle, loops, timers, nextTimer)
    }

    constructor ()
      ensures Contents() == NEW_PANEL
    {
      followGeneration, followHandle, loops, timers, nextTimer := 0, None, [], {}, 0;
    }

    method StopFollow()
      modifies this
      ensures Contents() == Step(old(Contents()), Stop)
    {
      followGeneration := followGeneration + 1;
      if followHandle.Some? {
        timers := timers - {followHandle.value};
        followHandle := None;
      }
    }

    method StartFollow(hasSession: bool, look: Look)
      modifies this
      ensures Contents() == Step(old(Contents()), Start(hasSession, look))
    {
      StopFollow();
      if !hasSession { return; }
      var generation := followGeneration;
      var phase := Returned;
      if look.Open? { phase := Streaming; }
      loops := loops + [Loop(generation, phase)];
    }

    method SetTimer(i: nat)
      requires i < |loops| && loops[i].generation == followGeneration
      modifies this
      ensures Contents() == Resumed(old(Contents()), i)
    {
      var timer := nextTimer;
      nextTimer := nextTimer + 1;
      timers := timers + {timer};
      followHandle := Some(timer);
      loops := loops[i := loops[i].(phase := Waiting(timer))];
    }

    method OnStreamReply(i: nat, reply: Reply)
      requires Enabled(Contents(), StreamReply(i, reply))
      modifies this
      ensures Contents() == Step(old(Contents()), StreamReply(i, reply))
    {
      if reply.Items? {
        loops := loops[i := loops[i].(phase := LoadingTimeline)];
        return;
      }
      if loops[i].generation != followGeneration {
        loops := loops[i := loops[i].(phase := Returned)];
        return;
      }
      SetTimer(i);
    }

    method OnTimelineReply(i: nat)
      requires Enabled(Contents(), TimelineReply(i))
      modifies this
      ensures Contents() == Step(old(Contents()), TimelineReply(i))
    {
      if loops[i].generation != followGeneration {
        loops := loops[i := loops[i].(phase := Returned)];
        return;
      }
      SetTimer(i);
    }

    method OnTimer(timer: nat, i: nat, look: Look)
      requires Enabled(Contents(), TimerFires(timer, i, look))
      modifies this
      ensures Contents() == Step(old(Contents()), TimerFires(timer, i, look))
    {
      timers := timers - {timer};
      var phase := Streaming;
      if loops[i].generation != followGeneration || !look.Open? { phase := Returned; }
      loops := loops[i := loops[i].(phase := phase)];
    }
  }

  // ---------- the invariant ----------

  /** A loop that some reply or timer can still resume. */
  predicate Live(p: Panel, i: nat)
    requires i < |p.loops|
  {
    match p.loops[i].phase
    case Returned => false
    case Waiting(t) => t in p.pending
    case _ => true
  }

  predicate Current(p: Panel, i: nat)
    requires i < |p.loops|
  {
    p.loops[i].generation == p.generation
  }

  /** At most one live loop carries the current generation. */
  predicate OneCurrentLoop(p: Panel) {
    forall i, j ::
      0 <= i < |p.loops| && 0 <= j < |p.loops| && Current(p, i) && Live(p, i) && Current(p, j) && Live(p, j) ==> i == j
  }

  /** A pending timer is the handle the panel would clear, and it belongs to a
      loop of the current generation. */
  ghost predicate TimersKnown(p: Panel) {
    forall t :: t in p.pending ==> p.handle == Some(t) && WaitedOn(p, t)
  }

  predicate WaitedOn(p: Panel, t: nat) {
    exists i :: 0 <= i < |p.loops| && p.loops[i] == Loop(p.generation, Waiting(t))
  }

  /** No two loops wait on the same timer. */
  predicate OwnTimers(p: Panel) {
    forall i, j :: 0 <= i < j < |p.loops| && p.loops[i].phase.Waiting? ==> p.loops[i].phase != p.loops[j].phase
  }

  ghost predicate Sound(p: Panel) {
    && OneCurrentLoop(p)
    && TimersKnown(p)
    && OwnTimers(p)
    && (forall i :: 0 <= i < |p.loops| ==> p.loops[i].generation <= p.generation)
    && (forall i, j :: 0 <= i < j < |p.loops| ==> p.loops[i].generation < p.loops[j].generation)
    && (forall i :: 0 <= i < |p.loops| && p.loops[i].phase.Waiting? ==> p.loops[i].phase.timer < p.nextTimer)
    && (forall t :: t in p.pending ==> t < p.nextTimer)
  }

  lemma StopKeepsSound(p: Panel)
    requires Sound(p)
    ensures Sound(StopFollow(p)) && StopFollow(p).pending == {}
  {
    assert forall t :: t in p.pending ==> p.handle == Some(t);
  }

  lemma StartKeepsSound(p: Panel, look: Look)
    requires Sound(p) && p.pending == {} && forall i :: 0 <= i < |p.loops| ==> p.loops[i].generation < p.generation
    ensures Sound(p.(loops := p.loops + [Entered(p, p.generation, look)]))
  {
  }

  /** New items only move a loop from one await to the next. */
  lemma ItemsKeepSound(p: Panel, i: nat)
    requires Sound(p) && i < |p.loops| && p.loops[i].phase == Streaming
    ensures Sound(p.(loops := p.loops[i := p.loops[i].(phase := LoadingTimeline)]))
  {
    var q := p.(loops := p.loops[i := p.loops[i].(phase := LoadingTimeline)]);
    assert Live(p, i);
    forall j | 0 <= j < |p.loops| ensures Live(q, j) == Live(p, j) && Current(q, j) == Current(p, j) { }
    KeepsWaited(p, q);
  }

  /** Timers stay known while the loops waiting on them stay. */
  lemma KeepsWaited(p: Panel, q: Panel)
    requires TimersKnown(p) && q.generation == p.generation && q.pending == p.pending && |q.loops| == |p.loops|
    requires forall j :: 0 <= j < |p.loops| && p.loops[j].phase.Waiting? ==> q.loops[j] == p.loops[j]
    ensures forall t :: t in q.pending ==> WaitedOn(q, t)
  {
    forall t | t in q.pending
      ensures WaitedOn(q, t)
    {
      var j :| 0 <= j < |p.loops| && p.loops[j] == Loop(p.generation, Waiting(t));
      assert q.loops[j] == p.loops[j];
    }
  }

  lemma FiringKeepsSound(p: Panel, t: nat, i: nat, look: Look)
    requires Sound(p) && Enabled(p, TimerFires(t, i, look))
    ensures Sound(Step(p, TimerFires(t, i, look)))
  {
    var q := Step(p, TimerFires(t, i, look));
    assert forall u :: u in p.pending ==> p.handle == Some(u);
    assert q.pending == {};
    assert Live(p, i);
    forall j | 0 <= j < |p.loops| && j != i && Live(q, j) ensures Live(p, j) { }
  }

  lemma StepKeepsSound(p: Panel, e: Event)
    requires Sound(p) && Enabled(p, e)
    ensures Sound(Step(p, e))
  {
    match e
    case Stop => StopKeepsSound(p);
    case Start(_, look) =>
      StopKeepsSound(p);
      StartKeepsSound(StopFollow(p), look);
    case StreamReply(i, reply) =>
      if reply.Items? { ItemsKeepSound(p, i); } else { ResumeKeepsSound(p, i); }
    case TimelineReply(i) => ResumeKeepsSound(p, i);
    case TimerFires(t, i, look) => FiringKeepsSound(p, t, i, look);
  }

  /** A pending timer is the one that the current live loop waits on. */
  lemma PendingIsOwn(p: Panel, t: nat, i: nat)
    requires Sound(p) && t in p.pending && i < |p.loops| && Current(p, i) && Live(p, i)
    ensures p.loops[i] == Loop(p.generation, Waiting(t))
  {
    assert WaitedOn(p, t);
    var j :| 0 <= j < |p.loops| && p.loops[j] == Loop(p.generation, Waiting(t));
    assert Current(p, j) && Live(p, j);
  }

  /** While the current loop awaits a reply, no timer is pending. */
  lemma AwaitingMeansNoTimer(p: Panel, i: nat)
    requires Sound(p) && i < |p.loops| && Current(p, i)
    requires p.loops[i].phase == Streaming || p.loops[i].phase == LoadingTimeline
    ensures p.pending == {}
  {
    if p.pending != {} {
      var t :| t in p.pending;
      PendingIsOwn(p, t, i);
    }
  }

  lemma ResumeKeepsSound(p: Panel, i: nat)
    requires Sound(p) && i < |p.loops| && (p.loops[i].phase == Streaming || p.loops[i].phase == LoadingTimeline)
    ensures Sound(Resumed(p, i))
  {
    var q := Resumed(p, i);
    assert Live(p, i);
    if Current(p, i) {
      AwaitingMeansNoTimer(p, i);
      assert q.loops[i] == Loop(q.generation, Waiting(p.nextTimer));
      assert WaitedOn(q, p.nextTimer);
      forall j | 0 <= j < |p.loops| && j != i && Live(q, j) ensures Live(p, j) { }
    } else {
      forall j | 0 <= j < |p.loops| && j != i ensures Live(q, j) == Live(p, j) { }
      KeepsWaited(p, q);
    }
  }

  lemma {:induction false} RunKeepsSound(p: Panel, run: seq<Event>)
    requires Sound(p) && EnabledRun(p, run)
    ensures Sound(Run(p, run))
    decreases |run|
  {
    if run != [] {
      StepKeepsSound(p, run[0]);
      RunKeepsSound(Step(p, run[0]), run[1..]);
    }
  }

  /** For every interleaving: at most one live loop of the current generation, and
      at most one timer, which the panel holds and the current loop waits on. */
  lemma OneLoopOneTimer(run: seq<Event>)
    requires EnabledRun(NEW_PANEL, run)
    ensures var p := Run(NEW_PANEL, run);
      && OneCurrentLoop(p) && TimersKnown(p)
      && |p.pending| <= 1
      && forall i :: 0 <= i < |p.loops| && Live(p, i) && p.loops[i].phase.Waiting? ==> Current(p, i)
  {
    RunKeepsSound(NEW_PANEL, run);
    var p := Run(NEW_PANEL, run);
    if p.handle.Some? {
      assert p.pending <= {p.handle.value};
      SubsetOfSingleton(p.pending, p.handle.value);
    } else {
      assert p.pending == {};
    }
    forall i | 0 <= i < |p.loops| && Live(p, i) && p.loops[i].phase.Waiting?
      ensures Current(p, i)
    {
      WaitingIsCurrent(p, i);
    }
  }

  lemma SubsetOfSingleton(s: set<nat>, x: nat)
    requires s <= {x}
    ensures |s| <= 1
  {
    if s != {} { assert s == {x}; }
  }

  lemma WaitingIsCurrent(p: Panel, i: nat)
    requires Sound(p) && i < |p.loops| && Live(p, i) && p.loops[i].phase.Waiting?
    ensures Current(p, i)
  {
    assert WaitedOn(p, p.loops[i].phase.timer);
    var j :| 0 <= j < |p.loops| && p.loops[j] == Loop(p.generation, Waiting(p.loops[i].phase.timer));
    assert i == j;
  }

  // ---------- stale loops ----------

  /** The event makes loop `i` set a timer. */
  predicate Schedules(p: Panel, e: Event, i: nat)
    requires Enabled(p, e)
  {
    i < |p.loops| && Step(p, e).loops[i].phase.Waiting? && Step(p, e).loops[i] != p.loops[i]
  }

  /** A loop sets a timer exactly when it resumes with the current generation and
      nothing more to await. */
  lemma SchedulesExactly(p: Panel, e: Event, i: nat)
    requires Sound(p) && Enabled(p, e) && i < |p.loops|
    ensures Schedules(p, e, i)
      <==> Current(p, i) && (e == TimelineReply(i) || e == StreamReply(i, NoItems) || e == StreamReply(i, Failure))
  {
  }

  predicate NeverSchedules(p: Panel, run: seq<Event>, i: nat)
    requires EnabledRun(p, run)
    decreases |run|
  {
    run == [] || (!Schedules(p, run[0], i) && NeverSchedules(Step(p, run[0]), run[1..], i))
  }

  /** A loop started before the last stop never sets another timer, and no timer
      of its own is pending. */
  lemma {:induction false} StaleLoopsNeverSchedule(p: Panel, run: seq<Event>, i: nat)
    requires Sound(p) && EnabledRun(p, run) && i < |p.loops| && !Current(p, i)
    ensures NeverSchedules(p, run, i)
    ensures i < |Run(p, run).loops| && !Current(Run(p, run), i)
    ensures Live(Run(p, run), i) ==> !Run(p, run).loops[i].phase.Waiting?
    decreases |run|
  {
    if run != [] {
      SchedulesExactly(p, run[0], i);
      StepKeepsSound(p, run[0]);
      StaleLoopsNeverSchedule(Step(p, run[0]), run[1..], i);
    } else if Live(p, i) && p.loops[i].phase.Waiting? {
      WaitingIsCurrent(p, i);
    }
  }

  predicate NoStart(run: seq<Event>) { forall e :: e in run ==> !e.Start? }

  predicate Quiet(p: Panel) { p.pending == {} && forall i :: 0 <= i < |p.loops| ==> !Current(p, i) }

  /** Only a start adds a loop, and a loop keeps its generation. */
  lemma LoopsStay(p: Panel, e: Event)
    requires Enabled(p, e) && !e.Start?
    ensures |Step(p, e).loops| == |p.loops|
    ensures forall i :: 0 <= i < |p.loops| ==> Step(p, e).loops[i].generation == p.loops[i].generation
  {
    match e
    case Stop =>
    case StreamReply(i, reply) =>
      if !reply.Items? { assert Step(p, e) == Resumed(p, i); }
    case TimelineReply(i) => assert Step(p, e) == Resumed(p, i);
    case TimerFires(_, i, look) => assert Entered(p, p.loops[i].generation, look).generation == p.loops[i].generation;
  }

  lemma QuietStep(p: Panel, e: Event)
    requires Sound(p) && Enabled(p, e) && Quiet(p) && !e.Start?
    ensures Quiet(Step(p, e))
  {
    LoopsStay(p, e);
    var q := Step(p, e);
    assert p.generation <= q.generation && q.pending == {} by {
      match e
      case Stop =>
      case StreamReply(i, _) => assert !Current(p, i);
      case TimelineReply(i) => assert !Current(p, i);
      case TimerFires(_, _, _) =>
    }
    forall i | 0 <= i < |q.loops| ensures !Current(q, i) {
      assert p.loops[i].generation <= p.generation && !Current(p, i);
    }
  }

  lemma {:induction false} QuietStays(p: Panel, run: seq<Event>)
    requires Sound(p) && EnabledRun(p, run) && NoStart(run) && Quiet(p)
    ensures Quiet(Run(p, run))
    decreases |run|
  {
    if run != [] {
      assert run[0] in run;
      StepKeepsSound(p, run[0]);
      QuietStep(p, run[0]);
      forall e | e in run[1..] ensures e in run { }
      QuietStays(Step(p, run[0]), run[1..]);
    }
  }

  /** From a stop on, whenever it comes, until the next start: no timer is pending
      and no loop is current. */
  lemma StoppedStaysQuiet(p: Panel, run: seq<Event>)
    requires Sound(p) && EnabledRun(Step(p, Stop), run) && NoStart(run)
    ensures Quiet(Run(Step(p, Stop), run))
  {
    StopKeepsSound(p);
    QuietStays(Step(p, Stop), run);
  }

  /** Without a stop or start, following ends exactly when the current loop's
      timer fires and it finds no open session: no reply, late reply or failure
      ends it. */
  lemma FollowingEndsExactly(p: Panel, e: Event, i: nat)
    requires Sound(p) && Enabled(p, e) && !e.Stop? && !e.Start?
    requires i < |p.loops| && Current(p, i) && Live(p, i)
    ensures Current(Step(p, e), i)
    ensures !Live(Step(p, e), i) <==> e.TimerFires? && !e.look.Open?
  {
    if e.TimerFires? {
      assert Live(p, e.loop);
      WaitingIsCurrent(p, e.loop);
    }
  }
}
