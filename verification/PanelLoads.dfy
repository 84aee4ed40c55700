/** The thread panel with its loads: a decision or turn submitted to the runtime and
    then a load, or a load alone, both suspended while the follow loops go on. A
    dispose stops the following but leaves what is suspended to resume. */
module PanelLoads {
  import opened Text
  import opened FollowLoop

  /** A suspended activity: awaiting the answer to what it submitted, awaiting the
      thread it loads, or over. */
  datatype Work = Submitting | Loading | Over

  /** How a load ends: the thread does not arrive, showing it fails (as setting the
      title or content of a disposed view may), or it is shown and followed. */
  datatype LoadEnd = NotLoaded | NotShown | Shown(hasSession: bool, look: Look)

  datatype Thread = Thread(panel: Panel, work: seq<Work>, disposed: bool)

  const NEW_THREAD := Thread(NEW_PANEL, [], false)

  /** What the user, the runtime and the loops do to the panel. */
  datatype Happening =
    | Load
    | Submit
    | SubmitReply(work: nat, accepted: bool)
    | LoadReply(work: nat, end: LoadEnd)
    | Focus(end: LoadEnd)
    | Dispose
    | LoopEvent(event: Event)

  /** A disposed panel gets no more messages and is not opened again; what it had
      suspended still resumes. */
  predicate CanHappen(t: Thread, h: Happening) {
    match h
    case Load => !t.disposed
    case Submit => !t.disposed
    case SubmitReply(k, _) => k < |t.work| && t.work[k] == Submitting
    case LoadReply(k, _) => k < |t.work| && t.work[k] == Loading
    case Focus(_) => !t.disposed
    case Dispose => !t.disposed
    case LoopEvent(e) => !e.Stop? && !e.Start? && Enabled(t.panel, e)
  }

  /** The end of a load: following starts only once the thread is shown. */
  function Ended(p: Panel, end: LoadEnd): Panel {
    match end
    case NotLoaded => p
    case NotShown => p
    case Shown(hasSession, look) => FollowLoop.Step(p, Start(hasSession, look))
  }

  function Next(t: Thread, h: Happening): Thread
    requires CanHappen(t, h)
  {
    match h
    case Load => t.(work := t.work + [Loading])
    case Submit => t.(work := t.work + [Submitting])
    case SubmitReply(k, accepted) => t.(work := t.work[k := if accepted then Loading else Over])
    case LoadReply(k, end) => t.(work := t.work[k := Over], panel := Ended(t.panel, end))
    case Focus(end) => t.(panel := Ended(t.panel, end))
    case Dispose => t.(panel := FollowLoop.Step(t.panel, Stop), disposed := true)
    case LoopEvent(e) => t.(panel := FollowLoop.Step(t.panel, e))
  }

  predicate CanRun(t: Thread, run: seq<Happening>)
    decreases |run|
  {
    run == [] || (CanHappen(t, run[0]) && CanRun(Next(t, run[0]), run[1..]))
  }

  function After(t: Thread, run: seq<Happening>): Thread
    requires CanRun(t, run)
    decreases |run|
  {
    if run == [] then t else After(Next(t, run[0]), run[1..])
  }

  /** Some loop of the current generation will be resumed, or a timer is pending. */
  predicate Following(p: Panel) {
    p.pending != {} || exists i :: 0 <= i < |p.loops| && Current(p, i) && Live(p, i)
  }

  predicate Suspended(t: Thread) { exists k :: 0 <= k < |t.work| && !t.work[k].Over? }

  lemma NextKeepsSound(t: Thread, h: Happening)
    requires Sound(t.panel) && CanHappen(t, h)
    ensures Sound(Next(t, h).panel)
  {
    match h
    case LoadReply(_, end) => EndKeepsSound(t.panel, end);
    case Focus(end) => EndKeepsSound(t.panel, end);
    case Dispose => StepKeepsSound(t.panel, Stop);
    case LoopEvent(e) => StepKeepsSound(t.panel, e);
    case _ =>
  }

  lemma EndKeepsSound(p: Panel, end: LoadEnd)
    requires Sound(p)
    ensures Sound(Ended(p, end))
  {
    if end.Shown? { StepKeepsSound(p, Start(end.hasSession, end.look)); }
  }

  /** The protocol of the loops is kept through loads, decisions, focus changes and
      disposes, in any order. */
  lemma {:induction false} ThreadKeepsSound(t: Thread, run: seq<Happening>)
    requires Sound(t.panel) && CanRun(t, run)
    ensures Sound(After(t, run).panel)
    decreases |run|
  {
    if run != [] {
      NextKeepsSound(t, run[0]);
      ThreadKeepsSound(Next(t, run[0]), run[1..]);
    }
  }

  // ---------- after a dispose ----------

  /** In a disposed panel that has stopped, following starts again exactly when a
      suspended load is shown and finds an open session. */
  lemma RestartsExactly(t: Thread, h: Happening)
    requires Sound(t.panel) && t.disposed && Quiet(t.panel) && CanHappen(t, h)
    ensures Following(Next(t, h).panel)
      <==> h.LoadReply? && h.end.Shown? && h.end.hasSession && h.end.look.Open?
  {
    if h.LoadReply? && h.end.Shown? {
      StartFollows(t.panel, h.end.hasSession, h.end.look);
    } else if h.LoopEvent? {
      QuietStep(t.panel, h.event);
    }
  }

  lemma StartFollows(p: Panel, hasSession: bool, look: Look)
    requires Sound(p)
    ensures Following(FollowLoop.Step(p, Start(hasSession, look))) <==> hasSession && look.Open?
  {
    StopKeepsSound(p);
    var stopped, next := StopFollow(p), FollowLoop.Step(p, Start(hasSession, look));
    assert next.pending == {};
    assert forall i :: 0 <= i < |p.loops| ==> p.loops[i].generation < stopped.generation;
    if hasSession { assert next.loops[|p.loops|] == Entered(stopped, stopped.generation, look); }
    if hasSession && look.Open? { assert Current(next, |p.loops|) && Live(next, |p.loops|); }
  }

  predicate Shows(h: Happening) { h.LoadReply? && h.end.Shown? }

  lemma UnshownStep(t: Thread, h: Happening)
    requires Sound(t.panel) && t.disposed && Quiet(t.panel) && CanHappen(t, h) && !Shows(h)
    ensures Next(t, h).disposed && Quiet(Next(t, h).panel)
  {
    if h.LoopEvent? { QuietStep(t.panel, h.event); }
  }

  /** A disposed panel on which no later load is shown never follows again. */
  lemma {:induction false} UnshownStaysQuiet(t: Thread, run: seq<Happening>)
    requires Sound(t.panel) && t.disposed && Quiet(t.panel) && CanRun(t, run)
    requires forall h :: h in run ==> !Shows(h)
    ensures Quiet(After(t, run).panel) && !Following(After(t, run).panel)
    decreases |run|
  {
    if run != [] {
      assert run[0] in run;
      UnshownStep(t, run[0]);
      NextKeepsSound(t, run[0]);
      forall h | h in run[1..] ensures h in run { }
      UnshownStaysQuiet(Next(t, run[0]), run[1..]);
    }
  }

  lemma NothingSuspended(t: Thread, h: Happening)
    requires Sound(t.panel) && t.disposed && Quiet(t.panel) && !Suspended(t) && CanHappen(t, h)
    ensures var next := Next(t, h); next.disposed && Quiet(next.panel) && !Suspended(next)
  {
    UnshownStep(t, h);
  }

  lemma {:induction false} StaysQuiet(t: Thread, run: seq<Happening>)
    requires Sound(t.panel) && t.disposed && Quiet(t.panel) && !Suspended(t) && CanRun(t, run)
    ensures Quiet(After(t, run).panel)
    decreases |run|
  {
    if run != [] {
      NothingSuspended(t, run[0]);
      NextKeepsSound(t, run[0]);
      StaysQuiet(Next(t, run[0]), run[1..]);
    }
  }

  predicate FollowsAfter(t: Thread, run: seq<Happening>) { CanRun(t, run) && Following(After(t, run).panel) }

  ghost predicate CanFollow(t: Thread) { exists run :: FollowsAfter(t, run) }

  lemma OneHappening(t: Thread, h: Happening, run: seq<Happening>)
    requires CanHappen(t, h) && FollowsAfter(Next(t, h), run)
    ensures FollowsAfter(t, [h] + run)
  {
    assert ([h] + run)[1..] == run;
  }

  lemma SuspendedCanFollow(t: Thread, k: nat) returns (run: seq<Happening>)
    requires Sound(t.panel) && k < |t.work| && !t.work[k].Over?
    ensures FollowsAfter(t, run)
    decreases if t.work[k].Submitting? then 1 else 0
  {
    if t.work[k].Submitting? {
      var reply := SubmitReply(k, true);
      var rest := SuspendedCanFollow(Next(t, reply), k);
      OneHappening(t, reply, rest);
      run := [reply] + rest;
    } else {
      var reply := LoadReply(k, Shown(true, Open));
      StartFollows(t.panel, true, Open);
      assert FollowsAfter(Next(t, reply), []);
      OneHappening(t, reply, []);
      run := [reply] + [];
    }
  }

  /** After a dispose, whatever came before it, a panel can come to follow again
      exactly when a load or a submission was still suspended at the dispose; no
      dispose comes to stop it then. */
  lemma DisposedFollowsAgainExactly(before: seq<Happening>)
    requires CanRun(NEW_THREAD, before) && !After(NEW_THREAD, before).disposed
    ensures var t := After(NEW_THREAD, before);
      CanFollow(Next(t, Dispose)) <==> Suspended(t)
  {
    ThreadKeepsSound(NEW_THREAD, before);
    var t := After(NEW_THREAD, before);
    var disposed := Next(t, Dispose);
    NextKeepsSound(t, Dispose);
    StopKeepsSound(t.panel);
    assert Quiet(disposed.panel);
    if Suspended(t) {
      var k :| 0 <= k < |t.work| && !t.work[k].Over?;
      var run := SuspendedCanFollow(disposed, k);
    } else if CanFollow(disposed) {
      var run :| FollowsAfter(disposed, run);
      StaysQuiet(disposed, run);
    }
  }
}
