/** Reading a session's event feed: the merge with a legacy run's projected
    events, the cursor filter, the sort, the limit, and the stream that follows
    the feed by polling. */
module EventFeed {
  import opened Text

  const DEFAULT_EVENT_LIMIT: int := 200
  const MAX_EVENT_LIMIT: int := 2000

  datatype Event = Event(id: string, sequence: int, at: int)

  function Min(a: int, b: int): int { if a <= b then a else b }

  // ---------- the cursor ----------

  /** A cursor of zero or less filters nothing. */
  predicate Past(e: Event, after: int) { after <= 0 || e.sequence > after }

  function PastCursor(events: seq<Event>, after: int): seq<Event> {
    if events == [] then []
    else PastCursor(events[..|events| - 1], after)
         + (if Past(events[|events| - 1], after) then [events[|events| - 1]] else [])
  }

  /** The filter that keeps its survivors in the front of the slice it reads. */
  method FilterInPlace(items: array<Event>, after: int) returns (kept: nat)
    modifies items
    ensures kept <= items.Length
    ensures items[..kept] == PastCursor(old(items[..]), after)
  {
    kept := 0;
    var i := 0;
    ghost var all := items[..];
    while i < items.Length
      invariant 0 <= kept <= i <= items.Length
      invariant items[i..] == all[i..]
      invariant items[..kept] == PastCursor(all[..i], after)
    {
      ghost var rest := items[i + 1..];
      assert items[i] == items[i..][0] == all[i];
      assert all[..i + 1][..i] == all[..i];
      assert all[i + 1..] == all[i..][1..] == items[i..][1..];
      if Past(items[i], after) {
        items[kept] := items[i];
        kept := kept + 1;
      }
      i := i + 1;
    }
    assert all[..i] == all;
  }

  // ---------- the merge ----------

  function IdsOf(events: seq<Event>): set<string> { set e | e in events :: e.id }

  function Without(events: seq<Event>, ids: set<string>): seq<Event> {
    if events == [] then []
    else Without(events[..|events| - 1], ids)
         + (if events[|events| - 1].id in ids then [] else [events[|events| - 1]])
  }

  /** The primary list as it is, then the secondary events it does not name. */
  method MergeSessionEventLists(primary: seq<Event>, secondary: seq<Event>) returns (out: seq<Event>)
    ensures out == primary + Without(secondary, IdsOf(primary))
  {
    out := [];
    var seen: set<string> := {};
    for i := 0 to |primary|
      invariant out == primary[..i] && seen == IdsOf(primary[..i])
    {
      assert primary[..i + 1] == primary[..i] + [primary[i]];
      out := out + [primary[i]];
      seen := seen + {primary[i].id};
    }
    assert primary[..|primary|] == primary;
    for i := 0 to |secondary|
      invariant out == primary + Without(secondary[..i], IdsOf(primary))
    {
      assert secondary[..i + 1][..i] == secondary[..i];
      if secondary[i].id !in seen { out := out + [secondary[i]]; }
    }
    assert secondary[..|secondary|] == secondary;
  }

  lemma {:induction false} WithoutMember(events: seq<Event>, ids: set<string>, e: Event)
    ensures e in Without(events, ids) <==> e in events && e.id !in ids
  {
    if events != [] {
      assert events == events[..|events| - 1] + [events[|events| - 1]];
      WithoutMember(events[..|events| - 1], ids, e);
    }
  }

  /** Merging drops a stored event exactly when a projected one has its ID. */
  lemma MergeDropsExactlyNamed(projected: seq<Event>, stored: seq<Event>, e: Event)
    requires e in stored
    ensures e !in projected + Without(stored, IdsOf(projected))
      <==> e !in projected && exists p :: p in projected && p.id == e.id
  {
    WithoutMember(stored, IdsOf(projected), e);
  }

  // ---------- the sort ----------

  predicate Before(a: Event, b: Event) { a.sequence < b.sequence || (a.sequence == b.sequence && a.at < b.at) }

  predicate Ordered(s: seq<Event>) { forall i, j :: 0 <= i < j < |s| ==> !Before(s[j], s[i]) }

  function Insert(s: seq<Event>, e: Event): seq<Event> {
    if s == [] then [e]
    else if Before(e, s[|s| - 1]) then Insert(s[..|s| - 1], e) + [s[|s| - 1]]
    else s + [e]
  }

  /** The stable sort by sequence, then time. */
  function StableSort(s: seq<Event>): seq<Event> {
    if s == [] then [] else Insert(StableSort(s[..|s| - 1]), s[|s| - 1])
  }

  lemma {:induction false} InsertContents(s: seq<Event>, e: Event)
    ensures multiset(Insert(s, e)) == multiset(s) + multiset{e}
  {
    if s != [] {
      assert s == s[..|s| - 1] + [s[|s| - 1]];
      InsertContents(s[..|s| - 1], e);
    }
  }

  lemma {:induction false} InsertOrdered(s: seq<Event>, e: Event)
    requires Ordered(s)
    ensures Ordered(Insert(s, e))
  {
    if s != [] && Before(e, s[|s| - 1]) {
      var front := s[..|s| - 1];
      InsertOrdered(front, e);
      InsertContents(front, e);
      forall i | 0 <= i < |Insert(front, e)|
        ensures !Before(s[|s| - 1], Insert(front, e)[i])
      {
        var x := Insert(front, e)[i];
        assert x in multiset(Insert(front, e));
        if x != e {
          assert x in multiset(front) && x in front;
        }
      }
    } else if s != [] {
      forall i | 0 <= i < |s| ensures !Before(e, s[i]) { }
    }
  }

  /** The events with the same sort key, in order. */
  function WithKey(s: seq<Event>, sequence: int, at: int): seq<Event> {
    if s == [] then []
    else WithKey(s[..|s| - 1], sequence, at)
         + (if s[|s| - 1].sequence == sequence && s[|s| - 1].at == at then [s[|s| - 1]] else [])
  }

  lemma {:induction false} InsertStable(s: seq<Event>, e: Event, sequence: int, at: int)
    ensures WithKey(Insert(s, e), sequence, at)
      == WithKey(s, sequence, at) + (if e.sequence == sequence && e.at == at then [e] else [])
  {
    if s != [] && Before(e, s[|s| - 1]) {
      var front := s[..|s| - 1];
      InsertStable(front, e, sequence, at);
      assert (Insert(front, e) + [s[|s| - 1]])[..|Insert(front, e)|] == Insert(front, e);
    } else {
      assert (s + [e])[..|s|] == s;
    }
  }

  /** The sort is an ordered permutation. */
  lemma {:induction false} StableSortOrders(s: seq<Event>)
    ensures Ordered(StableSort(s)) && multiset(StableSort(s)) == multiset(s) && |StableSort(s)| == |s|
  {
    if s != [] {
      var front, last := s[..|s| - 1], s[|s| - 1];
      StableSortOrders(front);
      InsertOrdered(StableSort(front), last);
      InsertContents(StableSort(front), last);
      assert s == front + [last];
    }
    assert |multiset(StableSort(s))| == |StableSort(s)| && |multiset(s)| == |s|;
  }

  /** The sort leaves events of equal key in the order it found them. */
  lemma {:induction false} StableSortIsStable(s: seq<Event>, sequence: int, at: int)
    ensures WithKey(StableSort(s), sequence, at) == WithKey(s, sequence, at)
  {
    if s != [] {
      StableSortIsStable(s[..|s| - 1], sequence, at);
      InsertStable(StableSort(s[..|s| - 1]), s[|s| - 1], sequence, at);
    }
  }

  // ---------- a read ----------

  function Merged(page: seq<Event>, projected: Option<seq<Event>>): seq<Event> {
    if projected.None? then page else projected.value + Without(page, IdsOf(projected.value))
  }

  function Read(page: seq<Event>, projected: Option<seq<Event>>, after: int, limit: int): seq<Event> {
    var items := StableSort(PastCursor(Merged(page, projected), after));
    if 0 < limit < |items| then items[..limit] else items
  }

  method ListSessionEventsForRead(page: seq<Event>, projected: Option<seq<Event>>, after: int, limit: int)
    returns (out: seq<Event>)
    ensures out == Read(page, projected, after, limit)
  {
    var items := page;
    if projected.Some? { items := MergeSessionEventLists(projected.value, page); }
    if after > 0 {
      var slice := new Event[|items|](i requires 0 <= i < |items| => items[i]);
      assert slice[..] == items;
      var kept := FilterInPlace(slice, after);
      items := slice[..kept];
    } else {
      EverythingPast(items, after);
    }
    items := StableSort(items);
    if limit > 0 && |items| > limit { items := items[..limit]; }
    return items;
  }

  lemma {:induction false} EverythingPast(events: seq<Event>, after: int)
    requires forall e :: e in events ==> Past(e, after)
    ensures PastCursor(events, after) == events
  {
    if events != [] {
      var front, last := events[..|events| - 1], events[|events| - 1];
      assert last in events;
      forall e | e in front ensures Past(e, after) { }
      EverythingPast(front, after);
      assert PastCursor(events, after) == PastCursor(front, after) + [last];
    }
  }

  /** The events left out of a read. */
  function LeftOut(page: seq<Event>, projected: Option<seq<Event>>, after: int, limit: int): seq<Event> {
    StableSort(PastCursor(Merged(page, projected), after))[|Read(page, projected, after, limit)|..]
  }

  /** A read returns, in order, exactly the limit smallest of the merged events
      past the cursor: none is lost, and none left out precedes one returned. */
  lemma ReadIsSmallest(page: seq<Event>, projected: Option<seq<Event>>, after: int, limit: int)
    ensures var all := PastCursor(Merged(page, projected), after);
      var out, rest := Read(page, projected, after, limit), LeftOut(page, projected, after, limit);
      && multiset(out) + multiset(rest) == multiset(all)
      && |out| == (if limit > 0 then Min(limit, |all|) else |all|)
      && Ordered(out)
      && forall i, j :: 0 <= i < |out| && 0 <= j < |rest| ==> !Before(rest[j], out[i])
  {
    var all := PastCursor(Merged(page, projected), after);
    StableSortOrders(all);
    FirstOfOrdered(StableSort(all), |Read(page, projected, after, limit)|);
  }

  /** Cutting an ordered list. */
  lemma FirstOfOrdered(s: seq<Event>, n: nat)
    requires Ordered(s) && n <= |s|
    ensures multiset(s[..n]) + multiset(s[n..]) == multiset(s) && Ordered(s[..n])
    ensures forall i, j :: 0 <= i < n && 0 <= j < |s| - n ==> !Before(s[n..][j], s[..n][i])
  {
    assert s == s[..n] + s[n..];
  }

  // ---------- following the feed ----------

  function PageSize(limit: int): int {
    if limit <= 0 then DEFAULT_EVENT_LIMIT else Min(limit, MAX_EVENT_LIMIT)
  }

  /** The store's answer: the oldest events past the cursor. */
  function Page(feed: seq<Event>, after: int, limit: int): seq<Event> {
    var past := PastCursor(feed, after);
    past[..Min(PageSize(limit), |past|)]
  }

  /** An append-only feed: sequences are positive and strictly increase. */
  predicate Increasing(feed: seq<Event>) {
    (forall i :: 0 <= i < |feed| ==> feed[i].sequence > 0) &&
    (forall i, j :: 0 <= i < j < |feed| ==> feed[i].sequence < feed[j].sequence)
  }

  lemma {:induction false} SortOfIncreasing(s: seq<Event>)
    requires Increasing(s)
    ensures StableSort(s) == s
  {
    if s != [] {
      var front := s[..|s| - 1];
      SortOfIncreasing(front);
      if front != [] { assert front[|front| - 1].sequence < s[|s| - 1].sequence; }
      assert s == front + [s[|s| - 1]];
    }
  }

  lemma {:induction false} NothingPast(events: seq<Event>, after: int)
    requires forall e :: e in events ==> !Past(e, after)
    ensures PastCursor(events, after) == []
  {
    if events != [] { NothingPast(events[..|events| - 1], after); }
  }

  lemma {:induction false} PastConcat(a: seq<Event>, b: seq<Event>, after: int)
    ensures PastCursor(a + b, after) == PastCursor(a, after) + PastCursor(b, after)
    decreases |b|
  {
    if b == [] {
      assert a + b == a;
    } else {
      assert (a + b)[..|a + b| - 1] == a + b[..|b| - 1];
      PastConcat(a, b[..|b| - 1], after);
    }
  }

  /** Where the first events are behind a cursor and the others past it, the
      others are what the cursor keeps. */
  lemma PastIsSuffix(feed: seq<Event>, after: int, n: nat)
    requires n <= |feed|
    requires forall i :: 0 <= i < n ==> !Past(feed[i], after)
    requires forall i :: n <= i < |feed| ==> Past(feed[i], after)
    ensures PastCursor(feed, after) == feed[n..]
  {
    assert feed == feed[..n] + feed[n..];
    PastConcat(feed[..n], feed[n..], after);
    NothingPast(feed[..n], after);
    EverythingPast(feed[n..], after);
  }

  /** How many events of an increasing feed a cursor has left behind. */
  function Behind(feed: seq<Event>, after: int): (n: nat)
    requires Increasing(feed)
    ensures n <= |feed|
    ensures forall i :: 0 <= i < n ==> !Past(feed[i], after)
    ensures forall i :: n <= i < |feed| ==> Past(feed[i], after)
  {
    if feed == [] then 0
    else if Past(feed[|feed| - 1], after) then Behind(feed[..|feed| - 1], after)
    else |feed|
  }

  lemma IncreasingSlice(feed: seq<Event>, from: nat, to: nat)
    requires Increasing(feed) && from <= to <= |feed|
    ensures Increasing(feed[from..to])
  {
  }

  /** On an increasing feed a page is the stretch right after the cursor. */
  lemma PageIsStretch(feed: seq<Event>, after: int, limit: int)
    requires Increasing(feed)
    ensures var n := Behind(feed, after);
      Page(feed, after, limit) == feed[n..n + Min(PageSize(limit), |feed| - n)]
  {
    PastIsSuffix(feed, after, Behind(feed, after));
  }

  predicate AllPast(events: seq<Event>, after: int) { forall i :: 0 <= i < |events| ==> Past(events[i], after) }

  /** A sorted page past the cursor and within the limit is read as it is. */
  lemma ReadAsIs(page: seq<Event>, after: int, limit: int)
    requires Increasing(page) && AllPast(page, after) && (limit > 0 ==> |page| <= limit)
    ensures Read(page, None, after, limit) == page
  {
    forall e | e in page ensures Past(e, after) { }
    EverythingPast(page, after);
    SortOfIncreasing(page);
  }

  lemma StretchIsPast(feed: seq<Event>, after: int, n: nat, m: nat)
    requires n <= m <= |feed| && forall i :: n <= i < |feed| ==> Past(feed[i], after)
    ensures AllPast(feed[n..m], after)
  {
  }

  /** A legacy run, as far as the two events that are projected from it go. */
  datatype Run = Run(createdAt: int, updatedAt: int)

  function ProjectedEvents(runId: string, run: Run): seq<Event> {
    [Event(runId + "-legacy-created", 1, run.createdAt), Event(runId + "-legacy-status", 2, run.updatedAt)]
  }

  function ProjectedOf(runId: string, run: Option<Run>): seq<Event> {
    if run.None? then [] else ProjectedEvents(runId, run.value)
  }

  function RunIds(runId: string): set<string> { {runId + "-legacy-created", runId + "-legacy-status"} }

  /** No stored event has a projected event's ID. */
  predicate Foreign(events: seq<Event>, runId: string) { forall e :: e in events ==> e.id !in RunIds(runId) }

  /** The stream: what the server has, where the client started, the legacy run the
      session names and its record if there is one, the cursor it polls with, and
      what the client was sent. */
  datatype Follower = Follower(
    feed: seq<Event>, start: int, limit: int, runId: string, run: Option<Run>, lastSequence: int, emitted: seq<Event>)

  /** Events are appended, the run's record appears, changes or goes, and the
      stream polls, in any order. */
  datatype Action = Append(event: Event) | SetRun(run: Option<Run>) | Poll

  function Projection(runId: string, run: Option<Run>): Option<seq<Event>> {
    if run.None? then None else Some(ProjectedEvents(runId, run.value))
  }

  /** What one poll reads. */
  function Batch(f: Follower): seq<Event> {
    Read(Page(f.feed, f.lastSequence, f.limit), Projection(f.runId, f.run), f.lastSequence, f.limit)
  }

  function LastSequence(current: int, items: seq<Event>): int {
    if items == [] then current
    else
      var before := LastSequence(current, items[..|items| - 1]);
      if items[|items| - 1].sequence > before then items[|items| - 1].sequence else before
  }

  function Step(f: Follower, a: Action): Follower {
    match a
    case Append(e) => f.(feed := f.feed + [e])
    case SetRun(run) => f.(run := run)
    case Poll => f.(lastSequence := LastSequence(f.lastSequence, Batch(f)), emitted := f.emitted + Batch(f))
  }

  /** The writer of a batch, advancing the cursor as it goes. */
  method WriteEvents(items: seq<Event>, lastSequence: int, emitted: seq<Event>)
    returns (last: int, sent: seq<Event>)
    ensures last == LastSequence(lastSequence, items) && sent == emitted + items
  {
    last, sent := lastSequence, emitted;
    for i := 0 to |items|
      invariant last == LastSequence(lastSequence, items[..i]) && sent == emitted + items[..i]
    {
      assert items[..i + 1][..i] == items[..i];
      if items[i].sequence > last { last := items[i].sequence; }
      sent := sent + [items[i]];
    }
    assert items[..|items|] == items;
  }

  class EventStream {
    var feed: seq<Event>
    var run: Option<Run>
    var lastSequence: int
    var emitted: seq<Event>
    const start: int
    const limit: int
    const runId: string

    function Contents(): Follower
      reads this
    {
      Follower(feed, start, limit, runId, run, lastSequence, emitted)
    }

    constructor (feed: seq<Event>, after: int, limit: int, runId: string, run: Option<Run>)
      ensures Contents() == Follower(feed, after, limit, runId, run, after, [])
    {
      this.feed, this.start, this.limit, this.runId, this.run := feed, after, limit, runId, run;
      lastSequence, emitted := after, [];
    }

    method PollOnce()
      modifies this
      ensures Contents() == Step(old(Contents()), Poll)
    {
      var items := ListSessionEventsForRead(
        Page(feed, lastSequence, limit), Projection(runId, run), lastSequence, limit);
      lastSequence, emitted := WriteEvents(items, lastSequence, emitted);
    }
  }

  /** Everything the client is owed. */
  function Owed(f: Follower): seq<Event> { PastCursor(f.feed, f.start) }

  /** No run is projected, or the client started past its events. */
  predicate Unprojected(f: Follower) { f.run.None? || f.start >= 2 }

  predicate InStep(f: Follower) {
    && Increasing(f.feed) && Foreign(f.feed, f.runId) && Unprojected(f)
    && f.emitted <= Owed(f)
    && f.lastSequence == (if f.emitted == [] then f.start else f.emitted[|f.emitted| - 1].sequence)
  }

  predicate Extends(f: Follower, a: Action) {
    a.Append? ==> Increasing(f.feed + [a.event]) && Foreign([a.event], f.runId)
  }

  lemma OwedGrows(f: Follower, e: Event)
    ensures Owed(Step(f, Append(e))) == Owed(f) + (if Past(e, f.start) then [e] else [])
  {
    assert (f.feed + [e])[..|f.feed|] == f.feed;
  }

  lemma {:induction false} PastMember(events: seq<Event>, after: int, e: Event)
    ensures e in PastCursor(events, after) <==> e in events && Past(e, after)
  {
    if events != [] {
      assert events == events[..|events| - 1] + [events[|events| - 1]];
      PastMember(events[..|events| - 1], after, e);
    }
  }

  lemma {:induction false} WithoutForeign(events: seq<Event>, ids: set<string>)
    requires forall e :: e in events ==> e.id !in ids
    ensures Without(events, ids) == events
  {
    if events != [] {
      assert events == events[..|events| - 1] + [events[|events| - 1]];
      WithoutForeign(events[..|events| - 1], ids);
    }
  }

  /** Merging foreign events drops none of them. */
  lemma MergedForeign(page: seq<Event>, runId: string, run: Option<Run>)
    requires Foreign(page, runId)
    ensures Merged(page, Projection(runId, run)) == ProjectedOf(runId, run) + page
  {
    if run.Some? {
      assert IdsOf(ProjectedEvents(runId, run.value)) <= RunIds(runId);
      WithoutForeign(page, IdsOf(ProjectedEvents(runId, run.value)));
    }
  }

  /** A cursor past the projected events reads as if there were no run. */
  lemma RunIsBehind(page: seq<Event>, runId: string, run: Option<Run>, after: int, limit: int)
    requires Foreign(page, runId) && (run.None? || after >= 2)
    ensures Read(page, Projection(runId, run), after, limit) == Read(page, None, after, limit)
  {
    if run.Some? {
      MergedForeign(page, runId, run);
      PastConcat(ProjectedEvents(runId, run.value), page, after);
      NothingPast(ProjectedEvents(runId, run.value), after);
      assert [] + PastCursor(page, after) == PastCursor(page, after);
    }
  }

  /** What is past the stream's cursor is what was not sent yet. */
  lemma CursorIsFrontier(f: Follower)
    requires InStep(f)
    ensures PastCursor(f.feed, f.lastSequence) == Owed(f)[|f.emitted|..]
  {
    var n := Behind(f.feed, f.start);
    PastIsSuffix(f.feed, f.start, n);
    var m := n + |f.emitted|;
    if f.emitted != [] {
      assert f.emitted[|f.emitted| - 1] == Owed(f)[|f.emitted| - 1] == f.feed[m - 1];
      PastIsSuffix(f.feed, f.lastSequence, m);
    }
  }

  lemma {:induction false} LastOfIncreasing(current: int, items: seq<Event>)
    requires Increasing(items) && (items != [] ==> items[0].sequence > current)
    ensures LastSequence(current, items) == (if items == [] then current else items[|items| - 1].sequence)
  {
    if |items| > 1 {
      LastOfIncreasing(current, items[..|items| - 1]);
    } else if items != [] {
      assert items[..0] == [];
    }
  }

  lemma SentStretch(owed: seq<Event>, emitted: seq<Event>, feed: seq<Event>, n: nat, k: nat)
    requires emitted <= owed && n + k <= |feed| && owed[|emitted|..] == feed[n..]
    ensures |owed| - |emitted| == |feed| - n
    ensures emitted + feed[n..n + k] == owed[..|emitted| + k]
  {
    assert |owed[|emitted|..]| == |feed[n..]|;
    assert feed[n..n + k] == feed[n..][..k] == owed[|emitted|..][..k] == owed[|emitted|..|emitted| + k];
  }

  /** The stretch of the feed that a poll sends. */
  lemma PollPage(f: Follower) returns (n: nat, k: nat)
    requires InStep(f)
    ensures n + k <= |f.feed| && k == Min(PageSize(f.limit), |f.feed| - n)
    ensures Owed(f)[|f.emitted|..] == f.feed[n..] && AllPast(f.feed[n..n + k], f.lastSequence)
    ensures Step(f, Poll) == f.(
      lastSequence := LastSequence(f.lastSequence, f.feed[n..n + k]), emitted := f.emitted + f.feed[n..n + k])
  {
    n, k := ReadStretch(f.feed, f.lastSequence, f.limit);
    CursorIsFrontier(f);
    CursorPastRun(f);
    PageIsForeign(f);
    RunIsBehind(Page(f.feed, f.lastSequence, f.limit), f.runId, f.run, f.lastSequence, f.limit);
  }

  lemma CursorPastRun(f: Follower)
    requires InStep(f)
    ensures f.run.None? || f.lastSequence >= 2
  {
    if f.emitted != [] {
      assert f.emitted[|f.emitted| - 1] == Owed(f)[|f.emitted| - 1];
      PastMember(f.feed, f.start, f.emitted[|f.emitted| - 1]);
    }
  }

  lemma PageIsForeign(f: Follower)
    requires Foreign(f.feed, f.runId)
    ensures Foreign(Page(f.feed, f.lastSequence, f.limit), f.runId)
  {
    var page := Page(f.feed, f.lastSequence, f.limit);
    forall e | e in page ensures e in f.feed { PastMember(f.feed, f.lastSequence, e); }
  }

  /** The store's page as a stretch of the feed. */
  lemma PageOf(feed: seq<Event>, after: int, limit: int) returns (n: nat, k: nat)
    requires Increasing(feed)
    ensures n == Behind(feed, after) && k == Min(PageSize(limit), |feed| - n) && n + k <= |feed|
    ensures Page(feed, after, limit) == feed[n..n + k] && PastCursor(feed, after) == feed[n..]
  {
    n := Behind(feed, after);
    k := Min(PageSize(limit), |feed| - n);
    PastIsSuffix(feed, after, n);
    PageIsStretch(feed, after, limit);
  }

  /** Without a legacy run a read is the store's page. */
  lemma ReadStretch(feed: seq<Event>, after: int, limit: int) returns (n: nat, k: nat)
    requires Increasing(feed)
    ensures n + k <= |feed| && k == Min(PageSize(limit), |feed| - n)
    ensures PastCursor(feed, after) == feed[n..] && AllPast(feed[n..n + k], after)
    ensures Read(Page(feed, after, limit), None, after, limit) == feed[n..n + k]
  {
    n, k := PageOf(feed, after, limit);
    ReadPart(feed, Page(feed, after, limit), after, limit, n, k);
  }

  lemma ReadPart(feed: seq<Event>, page: seq<Event>, after: int, limit: int, n: nat, k: nat)
    requires Increasing(feed) && n == Behind(feed, after) && n + k <= |feed| && k <= PageSize(limit)
    requires page == feed[n..n + k]
    ensures Read(page, None, after, limit) == feed[n..n + k] && AllPast(feed[n..n + k], after)
  {
    StretchIsPast(feed, after, n, n + k);
    IncreasingSlice(feed, n, n + k);
    ReadAsIs(page, after, limit);
  }

  /** Sending any stretch right after the cursor keeps the stream in step. */
  lemma StretchSent(f: Follower, next: Follower, n: nat, k: nat)
    requires InStep(f) && n + k <= |f.feed|
    requires Owed(f)[|f.emitted|..] == f.feed[n..] && AllPast(f.feed[n..n + k], f.lastSequence)
    requires next == f.(
      lastSequence := LastSequence(f.lastSequence, f.feed[n..n + k]), emitted := f.emitted + f.feed[n..n + k])
    ensures InStep(next) && Owed(next) == Owed(f)
    ensures |Owed(f)| - |f.emitted| == |f.feed| - n && next.emitted == Owed(f)[..|f.emitted| + k]
  {
    var owed := Owed(f);
    assert Owed(next) == owed;
    SentStretch(owed, f.emitted, f.feed, n, k);
    assert next.emitted == owed[..|f.emitted| + k];
    assert next.lastSequence == if next.emitted == [] then f.start else next.emitted[|next.emitted| - 1].sequence by {
      IncreasingSlice(f.feed, n, n + k);
      PollMoves(f, f.feed[n..n + k]);
    }
  }

  /** One poll sends the next page of what is owed, in order, and nothing else. */
  lemma PollSendsNext(f: Follower)
    requires InStep(f)
    ensures InStep(Step(f, Poll)) && Owed(Step(f, Poll)) == Owed(f)
    ensures Step(f, Poll).emitted == Owed(f)[..Min(|f.emitted| + PageSize(f.limit), |Owed(f)|)]
  {
    var n, k := PollPage(f);
    StretchSent(f, Step(f, Poll), n, k);
    PageEnd(|f.emitted|, |Owed(f)|, |f.feed|, n, k, PageSize(f.limit));
  }

  lemma PageEnd(sent: nat, all: nat, fed: nat, n: nat, k: nat, size: nat)
    requires all - sent == fed - n && k == Min(size, fed - n)
    ensures sent + k == Min(sent + size, all)
  {
  }

  lemma PollMoves(f: Follower, page: seq<Event>)
    requires Increasing(page) && AllPast(page, f.lastSequence)
    requires f.emitted == [] ==> f.lastSequence == f.start
    requires f.emitted != [] ==> f.lastSequence == f.emitted[|f.emitted| - 1].sequence
    ensures LastSequence(f.lastSequence, page)
      == (if f.emitted + page == [] then f.start else (f.emitted + page)[|f.emitted + page| - 1].sequence)
  {
    if page != [] { assert Past(page[0], f.lastSequence) && page[0].sequence > 0; }
    LastOfIncreasing(f.lastSequence, page);
  }

  predicate Appendable(f: Follower, actions: seq<Action>)
    decreases |actions|
  {
    actions == [] || (Extends(f, actions[0]) && Appendable(Step(f, actions[0]), actions[1..]))
  }

  function Follow(f: Follower, actions: seq<Action>): Follower
    decreases |actions|
  {
    if actions == [] then f else Follow(Step(f, actions[0]), actions[1..])
  }

  lemma StepKeepsStep(f: Follower, a: Action)
    requires InStep(f) && Extends(f, a) && (f.start >= 2 || !a.SetRun?)
    ensures InStep(Step(f, a)) && f.emitted <= Step(f, a).emitted && Step(f, a).start == f.start
  {
    match a
    case Append(e) => OwedGrows(f, e);
    case SetRun(_) =>
    case Poll => PollSendsNext(f);
  }

  lemma {:induction false} FollowKeepsStep(f: Follower, actions: seq<Action>)
    requires InStep(f) && Appendable(f, actions) && (f.start >= 2 || RunFree(actions))
    ensures InStep(Follow(f, actions)) && f.emitted <= Follow(f, actions).emitted
    decreases |actions|
  {
    if actions != [] {
      assert actions[0] in actions;
      forall a | a in actions[1..] ensures a in actions { }
      StepKeepsStep(f, actions[0]);
      FollowKeepsStep(Step(f, actions[0]), actions[1..]);
    }
  }

  predicate RunFree(actions: seq<Action>) { forall a :: a in actions ==> !a.SetRun? }

  /** A stream that has not polled yet. */
  predicate Starts(f: Follower) {
    Increasing(f.feed) && Foreign(f.feed, f.runId) && f.lastSequence == f.start && f.emitted == []
  }

  /** For any interleaving of appends and polls and any limit, the batches sent so
      far form a prefix of the events past the starting cursor: no gap, no repeat,
      no reordering. The session has no legacy run, or the cursor is past the
      events projected from it, however the run changes. */
  lemma StreamIsPrefixOfFeed(f: Follower, actions: seq<Action>)
    requires Starts(f) && Appendable(f, actions)
    requires f.start >= 2 || (f.run.None? && RunFree(actions))
    ensures var last := Follow(f, actions); last.emitted <= PastCursor(last.feed, last.start)
  {
    FollowKeepsStep(f, actions);
  }

  function Polls(n: nat): seq<Action> { if n == 0 then [] else [Poll] + Polls(n - 1) }

  /** How far n pages of a size reach into a list. */
  function Reach(sent: nat, n: nat, size: nat, all: nat): (r: nat)
    requires sent <= all
    ensures r <= all
    decreases n
  {
    if n == 0 then sent else Reach(Min(sent + size, all), n - 1, size, all)
  }

  function AfterPolls(f: Follower, n: nat): Follower
    decreases n
  {
    if n == 0 then f else AfterPolls(Step(f, Poll), n - 1)
  }

  lemma FollowFirst(f: Follower, a: Action, rest: seq<Action>)
    ensures Follow(f, [a] + rest) == Follow(Step(f, a), rest)
  {
    assert ([a] + rest)[1..] == rest;
  }

  lemma {:induction false} FollowPolls(f: Follower, n: nat)
    ensures Follow(f, Polls(n)) == AfterPolls(f, n)
    decreases n
  {
    if n > 0 {
      FollowFirst(f, Poll, Polls(n - 1));
      FollowPolls(Step(f, Poll), n - 1);
    }
  }

  /** Where polls lead: in step, owing the same, with this much sent. */
  predicate Reaches(f: Follower, last: Follower, sent: nat) {
    InStep(last) && Owed(last) == Owed(f) && last.limit == f.limit && |last.emitted| == sent
  }

  lemma OnePoll(f: Follower)
    requires InStep(f)
    ensures Reaches(f, Step(f, Poll), Min(|f.emitted| + PageSize(f.limit), |Owed(f)|))
  {
    PollSendsNext(f);
  }

  lemma ReachesOn(f: Follower, next: Follower, last: Follower, sent: nat, reached: nat)
    requires Reaches(f, next, sent) && Reaches(next, last, reached)
    ensures Reaches(f, last, reached)
  {
  }

  lemma {:induction false} PollsSend(f: Follower, n: nat, sent: nat, all: nat)
    requires Reaches(f, f, sent) && all == |Owed(f)| && sent <= all
    ensures Reaches(f, AfterPolls(f, n), Reach(sent, n, PageSize(f.limit), all))
    decreases n, 1
  {
    if n > 0 {
      OnePoll(f);
      PollsSendRest(f, Step(f, Poll), n, sent, all);
    }
  }

  /** The same with the first of the polls done. */
  lemma {:induction false} PollsSendRest(f: Follower, next: Follower, n: nat, sent: nat, all: nat)
    requires n > 0 && all == |Owed(f)| && sent <= all
    requires Reaches(f, next, Min(sent + PageSize(f.limit), all))
    ensures Reaches(f, AfterPolls(next, n - 1), Reach(sent, n, PageSize(f.limit), all))
    decreases n, 0
  {
    var size := PageSize(f.limit);
    var reached := Min(sent + size, all);
    ReachesSelf(f, next, reached);
    PollsSend(next, n - 1, reached, all);
    ReachesOn(f, next, AfterPolls(next, n - 1), reached, Reach(reached, n - 1, size, all));
  }

  lemma ReachesSelf(f: Follower, next: Follower, sent: nat)
    requires Reaches(f, next, sent)
    ensures Reaches(next, next, sent) && Owed(next) == Owed(f) && next.limit == f.limit
  {
  }

  /** A quiet feed is sent completely: n polls send the next n pages. */
  lemma QuietFeedIsSent(f: Follower, n: nat)
    requires InStep(f)
    ensures Follow(f, Polls(n)).emitted
      == Owed(f)[..Reach(|f.emitted|, n, PageSize(f.limit), |Owed(f)|)]
    ensures n >= |Owed(f)| - |f.emitted| ==> Follow(f, Polls(n)).emitted == Owed(f)
  {
    var sent, all, size := |f.emitted|, |Owed(f)|, PageSize(f.limit);
    FollowPolls(f, n);
    PollsSend(f, n, sent, all);
    FirstOfOwed(f, AfterPolls(f, n), Reach(sent, n, size, all));
    if n >= all - sent {
      EnoughPages(sent, n, size, all);
      assert Owed(f)[..all] == Owed(f);
    }
  }

  lemma FirstOfOwed(f: Follower, last: Follower, sent: nat)
    requires Reaches(f, last, sent)
    ensures sent <= |Owed(f)| && last.emitted == Owed(f)[..sent]
  {
  }

  lemma {:induction false} EnoughPages(sent: nat, n: nat, size: nat, all: nat)
    requires sent <= all && size >= 1 && n >= all - sent
    ensures Reach(sent, n, size, all) == all
    decreases n
  {
    if n > 0 { EnoughPages(Min(sent + size, all), n - 1, size, all); }
  }
}
