/** The status an extension provider carries from probe to probe: what was
    resolved, its two conditions and since when each has held. */
module ProviderStatus {
  import opened Text

  /** `since` is the condition's lastTransitionTime. */
  datatype Condition = Condition(kind: string, status: string, reason: string, message: string, since: int)

  datatype Resolved = Resolved(providerId: string, contractVersion: string, capabilities: seq<string>)

  datatype Status = Status(
    observedGeneration: Option<int>, resolved: Option<Resolved>, conditions: seq<Condition>)

  datatype Outcome = Succeeded(resolved: Resolved) | Failed(message: string)

  /** One probe: its outcome, the generation probed, and the clock as each of the
      two conditions was written. */
  datatype Probe = Probe(outcome: Outcome, generation: int, readyAt: int, probedAt: int)

  const EMPTY := Status(None, None, [])

  function Truncate(s: string, n: nat): string {
    if |s| <= n then s else if n < 3 then s[..n] else s[..n - 3] + "..."
  }

  function ReadyCondition(o: Outcome, at: int): Condition {
    match o
    case Succeeded(_) =>
      Condition("Ready", "True", "ProbeSucceeded", "Provider health and capabilities probes succeeded.", at)
    case Failed(message) => Condition("Ready", "False", "ProbeFailed", Truncate(message, 512), at)
  }

  function ProbedCondition(o: Outcome, at: int): Condition {
    match o
    case Succeeded(_) =>
      Condition("Probed", "True", "Success", "Provider probe completed successfully.", at)
    case Failed(message) => Condition("Probed", "False", "Failure", Truncate(message, 512), at)
  }

  // ---------- one condition ----------

  predicate SameVerdict(a: Condition, b: Condition) {
    a.status == b.status && a.reason == b.reason && a.message == b.message
  }

  /** The condition that replaces `was`: an unchanged verdict keeps its time. */
  function Renewed(was: Condition, cond: Condition): Condition {
    if SameVerdict(was, cond) then cond.(since := was.since) else cond
  }

  function Placed(raw: seq<Condition>, cond: Condition): seq<Condition> {
    if raw == [] then [cond]
    else if raw[0].kind == cond.kind then [Renewed(raw[0], cond)] + raw[1..]
    else [raw[0]] + Placed(raw[1..], cond)
  }

  lemma PlacedAfter(raw: seq<Condition>, cond: Condition, i: nat)
    requires i < |raw|
    ensures var head, next := raw[..i] + Placed(raw[i..], cond), raw[..i + 1] + Placed(raw[i + 1..], cond);
      if raw[i].kind == cond.kind then head == raw[i := Renewed(raw[i], cond)] else head == next
  {
    assert raw[i..][0] == raw[i] && raw[i..][1..] == raw[i + 1..];
    if raw[i].kind == cond.kind {
      assert raw == raw[..i] + [raw[i]] + raw[i + 1..];
    } else {
      assert raw[..i + 1] == raw[..i] + [raw[i]];
    }
  }

  method SetCondition(raw: seq<Condition>, cond: Condition) returns (out: seq<Condition>)
    ensures out == Placed(raw, cond)
  {
    var nowCond := cond;
    assert raw[..0] == [] && raw[0..] == raw;
    for i := 0 to |raw|
      invariant nowCond == cond
      invariant Placed(raw, cond) == raw[..i] + Placed(raw[i..], cond)
    {
      PlacedAfter(raw, cond, i);
      if raw[i].kind == cond.kind {
        if raw[i].status == cond.status {
          if raw[i].reason == cond.reason {
            if raw[i].message == cond.message {
              nowCond := nowCond.(since := raw[i].since);
            }
          }
        }
        return raw[i := nowCond];
      }
    }
    assert raw[|raw|..] == [] && raw[..|raw|] == raw;
    return raw + [nowCond];
  }

  predicate FirstOfKind(raw: seq<Condition>, kind: string, i: nat) {
    i <= |raw| && (forall j :: 0 <= j < i ==> raw[j].kind != kind) && (i < |raw| ==> raw[i].kind == kind)
  }

  /** Whatever list the status held, only the first condition of that kind is
      written (or one is added at the end), and its time moves exactly when its
      verdict does. */
  lemma {:induction false} PlacedTouchesOne(raw: seq<Condition>, cond: Condition, i: nat)
    requires FirstOfKind(raw, cond.kind, i)
    ensures
      var out := Placed(raw, cond);
      && |out| == (if i < |raw| then |raw| else |raw| + 1)
      && (forall j :: 0 <= j < |raw| && j != i ==> out[j] == raw[j])
      && out[i].kind == cond.kind && SameVerdict(out[i], cond)
      && out[i].since == if i < |raw| && SameVerdict(raw[i], cond) then raw[i].since else cond.since
  {
    if i > 0 {
      assert FirstOfKind(raw[1..], cond.kind, i - 1);
      PlacedTouchesOne(raw[1..], cond, i - 1);
    }
  }

  // ---------- one probe ----------

  function ResolvedBy(o: Outcome): Option<Resolved> {
    match o
    case Succeeded(resolved) => Some(resolved)
    case Failed(_) => None
  }

  function Step(s: Status, p: Probe): Status {
    Status(Some(p.generation), ResolvedBy(p.outcome),
           Placed(Placed(s.conditions, ReadyCondition(p.outcome, p.readyAt)),
                  ProbedCondition(p.outcome, p.probedAt)))
  }

  class ExtensionProvider {
    var generation: int
    var status: Status
    var writes: nat

    constructor (generation: int)
      ensures status == EMPTY && writes == 0 && this.generation == generation
    {
      this.generation, status, writes := generation, EMPTY, 0;
    }

    /** The store is written exactly when the status differs. */
    method UpdateStatus(outcome: Outcome, readyAt: int, probedAt: int)
      modifies this`status, this`writes
      ensures status == Step(old(status), Probe(outcome, generation, readyAt, probedAt))
      ensures writes == old(writes) + if status == old(status) then 0 else 1
    {
      var updated := status.(observedGeneration := Some(generation));
      var ready, probed := ReadyCondition(outcome, readyAt), ProbedCondition(outcome, probedAt);
      match outcome {
        case Succeeded(resolved) => updated := updated.(resolved := Some(resolved));
        case Failed(_) => updated := updated.(resolved := None);
      }
      var conditions := SetCondition(updated.conditions, ready);
      conditions := SetCondition(conditions, probed);
      updated := updated.(conditions := conditions);
      if updated == status { return; }
      status := updated;
      writes := writes + 1;
    }
  }

  // ---------- any sequence of probes ----------

  function After(probes: seq<Probe>): Status {
    if probes == [] then EMPTY else Step(After(probes[..|probes| - 1]), probes[|probes| - 1])
  }

  /** Two outcomes the conditions cannot tell apart: both successes, whatever they
      resolved, or failures whose messages agree as far as they are kept. */
  predicate Alike(a: Outcome, b: Outcome) {
    match (a, b)
    case (Succeeded(_), Succeeded(_)) => true
    case (Failed(m), Failed(n)) => Truncate(m, 512) == Truncate(n, 512)
    case _ => false
  }

  function Last(probes: seq<Probe>): Probe
    requires probes != []
  {
    probes[|probes| - 1]
  }

  /** Probe k opens the unbroken run of like outcomes that the last probe is in. */
  predicate OpensLastRun(probes: seq<Probe>, k: nat) {
    && k < |probes|
    && (forall i :: k <= i < |probes| ==> Alike(probes[i].outcome, Last(probes).outcome))
    && (k > 0 ==> !Alike(probes[k - 1].outcome, Last(probes).outcome))
  }

  lemma {:induction false} LastRunOpens(probes: seq<Probe>) returns (k: nat)
    requires probes != []
    ensures OpensLastRun(probes, k)
  {
    var before := probes[..|probes| - 1];
    if before == [] || !Alike(Last(before).outcome, Last(probes).outcome) {
      k := |probes| - 1;
    } else {
      k := LastRunOpens(before);
      assert k > 0 ==> before[k - 1] == probes[k - 1];
      assert forall i :: k <= i < |before| ==> before[i] == probes[i];
    }
  }

  /** The whole status, from the probes alone: exactly one condition of each
      kind, timed by the probe that opened the current run of like outcomes;
      everything else is the last probe's. */
  function Reported(last: Probe, opening: Probe): Status {
    Status(Some(last.generation), ResolvedBy(last.outcome),
           [ReadyCondition(last.outcome, opening.readyAt), ProbedCondition(last.outcome, opening.probedAt)])
  }

  lemma PlacedTwice(a: Condition, b: Condition, x: Condition, y: Condition)
    requires a.kind == x.kind != b.kind == y.kind
    ensures Placed(Placed([a, b], x), y) == [Renewed(a, x), Renewed(b, y)]
  {
    assert [a, b][1..] == [b] && [Renewed(a, x), b][1..] == [b] && [b][1..] == [];
    assert Placed([a, b], x) == [Renewed(a, x), b];
    assert Placed([b], y) == [Renewed(b, y)];
  }

  lemma VerdictsAlike(a: Outcome, b: Outcome, at: int, now: int)
    ensures Renewed(ReadyCondition(a, at), ReadyCondition(b, now))
      == ReadyCondition(b, if Alike(a, b) then at else now)
    ensures Renewed(ProbedCondition(a, at), ProbedCondition(b, now))
      == ProbedCondition(b, if Alike(a, b) then at else now)
  {
    if a.Succeeded? && b.Failed? {
      assert ReadyCondition(a, at).status[0] == 'T' && ReadyCondition(b, now).status[0] == 'F';
      assert ProbedCondition(a, at).status[0] == 'T' && ProbedCondition(b, now).status[0] == 'F';
    }
    if a.Failed? && b.Succeeded? {
      assert ReadyCondition(a, at).status[0] == 'F' && ReadyCondition(b, now).status[0] == 'T';
      assert ProbedCondition(a, at).status[0] == 'F' && ProbedCondition(b, now).status[0] == 'T';
    }
  }

  lemma Kinds(o: Outcome, at: int)
    ensures ReadyCondition(o, at).kind == "Ready" != ProbedCondition(o, at).kind == "Probed"
  {
    assert "Ready"[0] != "Probed"[0];
  }

  lemma StepFromReported(last: Probe, opening: Probe, next: Probe)
    ensures Step(Reported(last, opening), next) ==
            Reported(next, if Alike(last.outcome, next.outcome) then opening else next)
  {
    Kinds(last.outcome, opening.readyAt);
    Kinds(last.outcome, opening.probedAt);
    Kinds(next.outcome, next.readyAt);
    Kinds(next.outcome, next.probedAt);
    PlacedTwice(ReadyCondition(last.outcome, opening.readyAt), ProbedCondition(last.outcome, opening.probedAt),
                ReadyCondition(next.outcome, next.readyAt), ProbedCondition(next.outcome, next.probedAt));
    VerdictsAlike(last.outcome, next.outcome, opening.readyAt, next.readyAt);
    VerdictsAlike(last.outcome, next.outcome, opening.probedAt, next.probedAt);
  }

  lemma StepFromEmpty(first: Probe)
    ensures Step(EMPTY, first) == Reported(first, first)
  {
    var ready, probed := ReadyCondition(first.outcome, first.readyAt), ProbedCondition(first.outcome, first.probedAt);
    assert [ready][1..] == [];
    assert Placed([ready], probed) == [ready] + Placed([], probed);
  }

  lemma {:induction false} StatusIsReport(probes: seq<Probe>, k: nat)
    requires OpensLastRun(probes, k)
    ensures After(probes) == Reported(Last(probes), probes[k])
  {
    var before, last := probes[..|probes| - 1], Last(probes);
    if before == [] {
      StepFromEmpty(last);
    } else {
      var j := LastRunOpens(before);
      StatusIsReport(before, j);
      StepFromReported(Last(before), before[j], last);
      NextOpening(probes, j, k);
    }
  }

  /** A probe like the one before it belongs to the same run. */
  lemma NextOpening(probes: seq<Probe>, j: nat, k: nat)
    requires |probes| > 1 && OpensLastRun(probes[..|probes| - 1], j) && OpensLastRun(probes, k)
    ensures probes[k] == if Alike(probes[|probes| - 2].outcome, Last(probes).outcome) then probes[j] else Last(probes)
  {
    var before := probes[..|probes| - 1];
    assert Last(before) == probes[|probes| - 2];
    if k < |before| {
      assert forall i :: 0 <= i < |before| ==> before[i] == probes[i];
      SameOpening(before, j, k);
    }
  }

  lemma SameOpening(probes: seq<Probe>, j: nat, k: nat)
    requires OpensLastRun(probes, j)
    requires k < |probes|
    requires forall i :: k <= i < |probes| ==> Alike(probes[i].outcome, Last(probes).outcome)
    requires k > 0 ==> !Alike(probes[k - 1].outcome, Last(probes).outcome)
    ensures j == k
  {
    var between := if j < k then k - 1 else if k < j then j - 1 else k;
    var alike := Alike(probes[between].outcome, Last(probes).outcome);
    assert j <= between || k <= between ==> alike;
  }

  /** What the status keeps of an outcome. */
  function Kept(o: Outcome): Outcome {
    match o
    case Succeeded(_) => o
    case Failed(message) => Failed(Truncate(message, 512))
  }

  /** After any probe, the next one is written exactly when its outcome, as far
      as it is kept, or its generation is new: a repeat is never written,
      whatever the clock says. */
  lemma WritesExactlyNews(probes: seq<Probe>, next: Probe)
    requires probes != []
    ensures After(probes + [next]) == After(probes) <==>
            Kept(next.outcome) == Kept(Last(probes).outcome) && next.generation == Last(probes).generation
  {
    var k := LastRunOpens(probes);
    var last, opening := Last(probes), probes[k];
    StatusIsReport(probes, k);
    assert (probes + [next])[..|probes|] == probes;
    StepFromReported(last, opening, next);
    assert Alike(last.outcome, next.outcome) ==>
      ReadyCondition(last.outcome, opening.readyAt) == ReadyCondition(next.outcome, opening.readyAt);
    if After(probes + [next]) == After(probes) {
      ReportTells(last, opening, next, if Alike(last.outcome, next.outcome) then opening else next);
    }
  }

  lemma ReportTells(a: Probe, aOpening: Probe, b: Probe, bOpening: Probe)
    requires Reported(a, aOpening) == Reported(b, bOpening)
    ensures Kept(a.outcome) == Kept(b.outcome) && a.generation == b.generation
  {
    var x, y := Reported(a, aOpening), Reported(b, bOpening);
    assert x.conditions[0] == ReadyCondition(a.outcome, aOpening.readyAt);
    assert y.conditions[0] == ReadyCondition(b.outcome, bOpening.readyAt);
    assert x.conditions[0].status == "True" <==> a.outcome.Succeeded?;
    assert y.conditions[0].status == "True" <==> b.outcome.Succeeded?;
  }
}
