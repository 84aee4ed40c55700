/** Following a session that names a legacy run. The two events projected from the
    run share sequence numbers with stored events, so the cursor can step over a
    stored event: which ones, from which starting cursors, and that it is for good. */
module LegacyStream {
  import opened Text
  import opened EventFeed

  function Max(a: int, b: int): int { if a >= b then a else b }

  // ---------- one read, past the projected events ----------

  lemma {:induction false} LastIsLargest(current: int, items: seq<Event>)
    ensures var last := LastSequence(current, items);
      && current <= last && (forall e :: e in items ==> e.sequence <= last)
      && (last == current || exists e :: e in items && e.sequence == last)
  {
    if items != [] {
      var front := items[..|items| - 1];
      assert items == front + [items[|items| - 1]];
      LastIsLargest(current, front);
    }
  }

  lemma InsertLast(s: seq<Event>, e: Event)
    requires forall x :: x in s ==> x.sequence < e.sequence
    ensures Insert(s, e) == s + [e]
  {
    if s != [] { assert s[|s| - 1] in s; }
  }

  /** Later events sort to the end as they are. */
  lemma {:induction false} SortAbove(low: seq<Event>, high: seq<Event>, bound: int)
    requires Increasing(high) && forall e :: e in high ==> e.sequence > bound
    requires forall e :: e in low ==> e.sequence <= bound
    ensures StableSort(low + high) == StableSort(low) + high
    decreases |high|
  {
    if high == [] {
      assert low + high == low && StableSort(low) + high == StableSort(low);
    } else {
      var front, last := high[..|high| - 1], high[|high| - 1];
      assert high == front + [last];
      SortAbove(low, front, bound);
      SortOneAbove(low, front, last, bound);
    }
  }

  lemma SortOneAbove(low: seq<Event>, front: seq<Event>, last: Event, bound: int)
    requires Increasing(front + [last]) && last.sequence > bound && forall e :: e in low ==> e.sequence <= bound
    requires StableSort(low + front) == StableSort(low) + front
    ensures StableSort(low + (front + [last])) == StableSort(low) + (front + [last])
  {
    BelowLast(low, front, last, bound);
    SortLast(low + front, StableSort(low) + front, last);
    Reassociate(low, front, last);
    Reassociate(StableSort(low), front, last);
  }

  lemma SortLast(s: seq<Event>, sorted: seq<Event>, last: Event)
    requires StableSort(s) == sorted && forall x :: x in sorted ==> x.sequence < last.sequence
    ensures StableSort(s + [last]) == sorted + [last]
  {
    SortSnoc(s, last);
    InsertLast(sorted, last);
  }

  lemma Reassociate(a: seq<Event>, b: seq<Event>, e: Event)
    ensures (a + b) + [e] == a + (b + [e])
  {
  }

  lemma BelowLast(low: seq<Event>, front: seq<Event>, last: Event, bound: int)
    requires Increasing(front + [last]) && last.sequence > bound && forall e :: e in low ==> e.sequence <= bound
    ensures forall x :: x in StableSort(low) + front ==> x.sequence < last.sequence
  {
    SortedMembers(low);
    forall x | x in front ensures x.sequence < last.sequence {
      var i :| 0 <= i < |front| && front[i] == x;
      assert (front + [last])[i] == x && (front + [last])[|front|] == last;
    }
  }

  lemma SortSnoc(s: seq<Event>, e: Event)
    ensures StableSort(s + [e]) == Insert(StableSort(s), e)
  {
    assert (s + [e])[..|s|] == s;
  }

  lemma SortedMembers(s: seq<Event>)
    ensures forall e :: e in StableSort(s) <==> e in s
  {
    StableSortOrders(s);
    forall e ensures e in StableSort(s) <==> e in s {
      assert e in multiset(StableSort(s)) <==> e in multiset(s);
    }
  }

  /** An increasing list, split at the last projected sequence. */
  lemma PageParts(page: seq<Event>) returns (low: seq<Event>, high: seq<Event>)
    requires Increasing(page)
    ensures page == low + high && high == PastCursor(page, 2) && Increasing(high)
    ensures AllEarly(low) && AllLater(high)
  {
    var n := Behind(page, 2);
    PastIsSuffix(page, 2, n);
    low, high := page[..n], page[n..];
    IncreasingSlice(page, n, |page|);
  }

  predicate AllEarly(events: seq<Event>) { forall e :: e in events ==> e.sequence <= 2 }

  predicate AllLater(events: seq<Event>) { forall e :: e in events ==> e.sequence > 2 }

  lemma ReadAllPast(page: seq<Event>, after: int)
    requires AllPast(page, after)
    ensures PastCursor(page, after) == page
  {
    forall e | e in page ensures Past(e, after) { }
    EverythingPast(page, after);
  }

  lemma ProjectedPast(runId: string, run: Option<Run>, after: int) returns (early: seq<Event>)
    ensures early == PastCursor(ProjectedOf(runId, run), after) && AllEarly(early)
  {
    var projected := ProjectedOf(runId, run);
    early := PastCursor(projected, after);
    forall e | e in early ensures e.sequence <= 2 { PastMember(projected, after, e); }
  }

  /** What a read sorts, split the same way. */
  lemma MergeSplits(page: seq<Event>, runId: string, run: Option<Run>, after: int)
    returns (early: seq<Event>, high: seq<Event>)
    requires Increasing(page) && Foreign(page, runId) && AllPast(page, after)
    ensures PastCursor(Merged(page, Projection(runId, run)), after) == early + high
    ensures AllEarly(early) && high == PastCursor(page, 2) && Increasing(high) && AllLater(high)
  {
    var low: seq<Event>;
    low, high := PageParts(page);
    var projected := ProjectedPast(runId, run, after);
    early := projected + low;
    MergedForeign(page, runId, run);
    ReadAllPast(page, after);
    PastOfParts(ProjectedOf(runId, run), page, after, projected, low, high);
  }

  lemma PastOfParts(
    projected: seq<Event>, page: seq<Event>, after: int, early: seq<Event>, low: seq<Event>, high: seq<Event>)
    requires PastCursor(projected, after) == early && PastCursor(page, after) == page == low + high
    ensures PastCursor(projected + page, after) == (early + low) + high
  {
    PastConcat(projected, page, after);
    assert early + (low + high) == (early + low) + high;
  }

  /** A read is some events of the projected range, then a first part of the page's
      events past it. */
  lemma ReadSplits(page: seq<Event>, runId: string, run: Option<Run>, after: int, limit: int)
    returns (low: seq<Event>, k: nat)
    requires Increasing(page) && Foreign(page, runId) && AllPast(page, after)
    ensures k <= |PastCursor(page, 2)| && forall e :: e in low ==> e.sequence <= 2
    ensures Read(page, Projection(runId, run), after, limit) == low + PastCursor(page, 2)[..k]
  {
    var early, high := MergeSplits(page, runId, run, after);
    SortAbove(early, high, 2);
    SortedMembers(early);
    low, k := CutOf(StableSort(early), high, limit);
  }

  /** The first part of two lists is a first part of each. */
  lemma CutOf(a: seq<Event>, b: seq<Event>, limit: int) returns (low: seq<Event>, k: nat)
    ensures k <= |b| && low <= a && (if 0 < limit < |a + b| then (a + b)[..limit] else a + b) == low + b[..k]
  {
    if 0 < limit < |a + b| {
      if limit <= |a| {
        low, k := a[..limit], 0;
      } else {
        low, k := a, limit - |a|;
      }
    } else {
      low, k := a, |b|;
      assert b[..|b|] == b;
    }
  }

  // ---------- the stream, past the projected events ----------

  /** The stream as it looks past the projected events: with no run, its cursors at
      2 or beyond, and only what it sent past them. */
  function View(f: Follower): Follower {
    f.(start := Max(f.start, 2), run := None, lastSequence := Max(f.lastSequence, 2),
       emitted := PastCursor(f.emitted, 2))
  }

  /** The page of a poll. */
  lemma PageFits(f: Follower) returns (from: nat, to: nat)
    requires Increasing(f.feed) && Foreign(f.feed, f.runId)
    ensures from == Behind(f.feed, f.lastSequence) <= to <= |f.feed|
    ensures var page := Page(f.feed, f.lastSequence, f.limit);
      && page == f.feed[from..to] && Increasing(page) && Foreign(page, f.runId) && AllPast(page, f.lastSequence)
  {
    from := Behind(f.feed, f.lastSequence);
    to := from + Min(PageSize(f.limit), |f.feed| - from);
    PageIsStretch(f.feed, f.lastSequence, f.limit);
    StretchIsPast(f.feed, f.lastSequence, from, to);
    IncreasingSlice(f.feed, from, to);
    PageIsForeign(f);
  }

  /** Its part past the projected events. */
  lemma PageStretch(f: Follower) returns (n: nat, m: nat)
    requires Increasing(f.feed) && Foreign(f.feed, f.runId)
    ensures n == Behind(f.feed, Max(f.lastSequence, 2)) <= m <= |f.feed|
    ensures PastCursor(Page(f.feed, f.lastSequence, f.limit), 2) == f.feed[n..m]
  {
    var from, to := PageFits(f);
    n := Behind(f.feed, Max(f.lastSequence, 2));
    m := Max(n, to);
    PageBeyond(f.feed, f.lastSequence, from, to, n);
  }

  /** The stretch of the feed past the projected events that a poll sends. */
  lemma BatchPast(f: Follower) returns (n: nat, k: nat)
    requires Increasing(f.feed) && Foreign(f.feed, f.runId)
    ensures n + k <= |f.feed| && PastCursor(f.feed, Max(f.lastSequence, 2)) == f.feed[n..]
    ensures AllPast(f.feed[n..n + k], Max(f.lastSequence, 2))
    ensures PastCursor(Batch(f), 2) == f.feed[n..n + k]
    ensures Max(LastSequence(f.lastSequence, Batch(f)), 2)
         == LastSequence(Max(f.lastSequence, 2), f.feed[n..n + k])
  {
    var low: seq<Event>;
    low, n, k := BatchIs(f);
    StretchOf(f.feed, f.lastSequence, Batch(f), low, n, k);
  }

  lemma BatchIs(f: Follower) returns (low: seq<Event>, n: nat, k: nat)
    requires Increasing(f.feed) && Foreign(f.feed, f.runId)
    ensures n == Behind(f.feed, Max(f.lastSequence, 2)) && n + k <= |f.feed|
    ensures AllEarly(low) && Batch(f) == low + f.feed[n..n + k]
  {
    var m: nat;
    n, m := PageStretch(f);
    low, k := BatchSplits(f, n, m);
  }

  /** Early events and a stretch from where a cursor has come to. */
  lemma StretchOf(feed: seq<Event>, after: int, batch: seq<Event>, low: seq<Event>, n: nat, k: nat)
    requires Increasing(feed) && n == Behind(feed, Max(after, 2)) && n + k <= |feed|
    requires AllEarly(low) && batch == low + feed[n..n + k]
    ensures PastCursor(feed, Max(after, 2)) == feed[n..] && AllPast(feed[n..n + k], Max(after, 2))
    ensures PastCursor(batch, 2) == feed[n..n + k]
    ensures Max(LastSequence(after, batch), 2) == LastSequence(Max(after, 2), feed[n..n + k])
  {
    PastIsSuffix(feed, Max(after, 2), n);
    StretchIsPast(feed, Max(after, 2), n, n + k);
    IncreasingSlice(feed, n, n + k);
    HighBatch(after, low, feed[n..n + k]);
  }

  lemma BatchSplits(f: Follower, n: nat, m: nat) returns (low: seq<Event>, k: nat)
    requires Increasing(f.feed) && Foreign(f.feed, f.runId) && n <= m <= |f.feed|
    requires PastCursor(Page(f.feed, f.lastSequence, f.limit), 2) == f.feed[n..m]
    ensures n + k <= m && AllEarly(low) && Batch(f) == low + f.feed[n..n + k]
  {
    var from, to := PageFits(f);
    low, k := ReadSplits(Page(f.feed, f.lastSequence, f.limit), f.runId, f.run, f.lastSequence, f.limit);
    FrontOfSlice(f.feed, n, m, k);
  }

  lemma FrontOfSlice<T>(s: seq<T>, n: nat, m: nat, k: nat)
    requires n + k <= m <= |s|
    ensures s[n..m][..k] == s[n..n + k]
  {
  }

  /** The cursor and the later events of such a batch. */
  lemma HighBatch(after: int, low: seq<Event>, high: seq<Event>)
    requires Increasing(high) && AllPast(high, Max(after, 2)) && AllEarly(low)
    ensures PastCursor(low + high, 2) == high
    ensures Max(LastSequence(after, low + high), 2) == LastSequence(Max(after, 2), high)
  {
    forall e | e in high ensures e.sequence > 2 && e.sequence > after { assert Past(e, Max(after, 2)); }
    SplitPast(low, high);
    SplitLast(after, low, high);
    if high != [] { assert high[0] in high; }
    LastOfIncreasing(Max(after, 2), high);
  }

  lemma PageBeyond(feed: seq<Event>, after: int, from: nat, to: nat, n: nat)
    requires Increasing(feed) && from <= to <= |feed| && n <= |feed|
    requires forall i :: 0 <= i < from ==> !Past(feed[i], after)
    requires forall i :: from <= i < |feed| ==> Past(feed[i], after)
    requires forall i :: 0 <= i < n ==> !Past(feed[i], Max(after, 2))
    requires forall i :: n <= i < |feed| ==> Past(feed[i], Max(after, 2))
    ensures from <= n
    ensures PastCursor(feed[from..to], 2) == if n <= to then feed[n..to] else []
  {
    assert n < |feed| ==> Past(feed[n], after);
    PastIsSuffix(feed[from..to], 2, Min(n, to) - from);
  }

  lemma SplitPast(low: seq<Event>, high: seq<Event>)
    requires forall e :: e in low ==> e.sequence <= 2
    requires forall e :: e in high ==> e.sequence > 2
    ensures PastCursor(low + high, 2) == high
  {
    PastConcat(low, high, 2);
    NothingPast(low, 2);
    EverythingPast(high, 2);
  }

  lemma SplitLast(after: int, low: seq<Event>, high: seq<Event>)
    requires Increasing(high) && forall e :: e in low ==> e.sequence <= 2
    requires forall e :: e in high ==> e.sequence > 2 && e.sequence > after
    ensures Max(LastSequence(after, low + high), 2)
         == if high == [] then Max(after, 2) else high[|high| - 1].sequence
  {
    var items := low + high;
    LastIsLargest(after, items);
    if high != [] {
      assert high[|high| - 1] in items;
    } else {
      assert items == low;
    }
  }

  lemma PollKeepsView(f: Follower)
    requires InStep(View(f))
    ensures InStep(View(Step(f, Poll)))
  {
    var n, k := BatchPast(f);
    var view, stretch := View(f), f.feed[n..n + k];
    CursorIsFrontier(view);
    var next := view.(
      lastSequence := LastSequence(view.lastSequence, stretch), emitted := view.emitted + stretch);
    StretchSent(view, next, n, k);
    ViewAfterPoll(f, stretch);
  }

  lemma ViewAfterPoll(f: Follower, stretch: seq<Event>)
    requires PastCursor(Batch(f), 2) == stretch
    requires Max(LastSequence(f.lastSequence, Batch(f)), 2) == LastSequence(Max(f.lastSequence, 2), stretch)
    ensures View(Step(f, Poll)) == View(f).(
      lastSequence := LastSequence(View(f).lastSequence, stretch), emitted := View(f).emitted + stretch)
  {
    PastConcat(f.emitted, Batch(f), 2);
  }

  lemma {:induction false} FollowKeepsView(f: Follower, actions: seq<Action>)
    requires InStep(View(f)) && Appendable(f, actions)
    ensures InStep(View(Follow(f, actions)))
    decreases |actions|
  {
    if actions != [] {
      var next := Step(f, actions[0]);
      if actions[0].Poll? { PollKeepsView(f); }
      if actions[0].Append? {
        OwedGrows(View(f), actions[0].event);
        assert View(next) == Step(View(f), actions[0]);
      }
      FollowKeepsView(next, actions[1..]);
    }
  }

  /** Whatever the cursor, the limit and the run, what is sent past the projected
      events is a prefix of what is stored past them and past the cursor. */
  lemma NothingLaterIsLost(f: Follower, actions: seq<Action>)
    requires Starts(f) && Appendable(f, actions)
    ensures var last := Follow(f, actions);
      PastCursor(last.emitted, 2) <= PastCursor(last.feed, Max(last.start, 2))
  {
    assert PastCursor([], 2) == [];
    FollowKeepsView(f, actions);
  }

  // ---------- skipped events ----------

  /** A stored event the client asked for, not sent, and behind the cursor. */
  predicate Skipped(f: Follower, e: Event) {
    e in f.feed && Past(e, f.start) && e !in f.emitted && !Past(e, f.lastSequence)
  }

  lemma BatchIsPast(f: Follower)
    ensures forall e :: e in Batch(f) ==> Past(e, f.lastSequence)
    ensures forall e :: e in Batch(f) ==>
      e in f.feed || (f.run.Some? && e in ProjectedEvents(f.runId, f.run.value))
  {
    var page := Page(f.feed, f.lastSequence, f.limit);
    var projected := ProjectedOf(f.runId, f.run);
    var all := PastCursor(Merged(page, Projection(f.runId, f.run)), f.lastSequence);
    SortedMembers(all);
    forall e | e in Batch(f)
      ensures Past(e, f.lastSequence) && (e in f.feed || e in projected)
    {
      assert e in StableSort(all);
      PastMember(Merged(page, Projection(f.runId, f.run)), f.lastSequence, e);
      WithoutMember(page, IdsOf(projected), e);
      PastMember(f.feed, f.lastSequence, e);
    }
  }

  lemma StepKeepsSkipped(f: Follower, a: Action, e: Event)
    requires Skipped(f, e)
    ensures Skipped(Step(f, a), e)
  {
    if a.Poll? {
      BatchIsPast(f);
      LastIsLargest(f.lastSequence, Batch(f));
    }
  }

  /** A skipped event is never sent. */
  lemma {:induction false} SkippedForever(f: Follower, actions: seq<Action>, e: Event)
    requires Skipped(f, e)
    ensures Skipped(Follow(f, actions), e)
    decreases |actions|
  {
    if actions != [] {
      StepKeepsSkipped(f, actions[0], e);
      SkippedForever(Step(f, actions[0]), actions[1..], e);
    }
  }

  /** Only the first two stored events can be skipped, and only by a client that
      did not ask from past the projected events. */
  lemma OnlyFirstTwoAreSkipped(f: Follower, actions: seq<Action>, e: Event)
    requires Starts(f) && Appendable(f, actions) && Skipped(Follow(f, actions), e)
    ensures e.sequence <= 2 && f.start < 2
  {
    assert PastCursor([], 2) == [];
    FollowKeepsView(f, actions);
    FollowKeepsStart(f, actions);
    var last := Follow(f, actions);
    var view := View(last);
    if e.sequence > 2 {
      CursorIsFrontier(view);
      PastMember(last.feed, view.start, e);
      PastMember(last.feed, view.lastSequence, e);
      assert e in Owed(view)[..|view.emitted|] + Owed(view)[|view.emitted|..];
      PastMember(last.emitted, 2, e);
    }
  }

  lemma {:induction false} FollowKeepsStart(f: Follower, actions: seq<Action>)
    ensures Follow(f, actions).start == f.start
    decreases |actions|
  {
    if actions != [] { FollowKeepsStart(Step(f, actions[0]), actions[1..]); }
  }

  ghost predicate SkipsNothing(f: Follower) { forall e :: e in f.feed ==> !Skipped(f, e) }

  /** No stream from this cursor, with this limit, ever skips a stored event. */
  ghost predicate NeverSkips(start: int, limit: int) {
    forall f, actions :: Starts(f) && f.start == start && f.limit == limit && Appendable(f, actions) ==>
      SkipsNothing(Follow(f, actions))
  }

  // ---------- how an event is skipped ----------

  /** A poll sends something while something is past its cursor. */
  lemma PollSendsSomething(f: Follower)
    requires f.run.Some? && f.lastSequence < 2
    ensures Batch(f) != []
  {
    var page, projection := Page(f.feed, f.lastSequence, f.limit), Projection(f.runId, f.run);
    var merged := Merged(page, projection);
    var status := projection.value[1];
    assert status in merged;
    PastMember(merged, f.lastSequence, status);
    ReadIsSmallest(page, projection, f.lastSequence, f.limit);
  }

  predicate Early(events: seq<Event>) { forall e :: e in events ==> 1 <= e.sequence <= 2 }

  /** While the feed holds at most its first event, a poll moves the cursor on by
      one at least, up to the last projected event. */
  lemma EarlyPoll(f: Follower)
    requires f.run.Some? && f.lastSequence <= 2 && Early(f.feed) && Early(f.emitted)
    ensures var next := Step(f, Poll);
      && Early(next.emitted) && next.lastSequence <= 2
      && next.lastSequence >= Min(Max(f.lastSequence, 0) + 1, 2)
    ensures forall e :: e in Batch(f) ==>
      e in f.feed || e in ProjectedEvents(f.runId, f.run.value)
  {
    BatchIsPast(f);
    if f.lastSequence < 2 { PollSendsSomething(f); }
    EarlyBatch(f.lastSequence, Batch(f));
  }

  /** Early events past a cursor move it on, to 2 at most. */
  lemma EarlyBatch(after: int, batch: seq<Event>)
    requires after <= 2 && (after < 2 ==> batch != [])
    requires forall e :: e in batch ==> Past(e, after) && 1 <= e.sequence <= 2
    ensures Min(Max(after, 0) + 1, 2) <= LastSequence(after, batch) <= 2
  {
    LastIsLargest(after, batch);
    if batch != [] { assert batch[0] in batch; }
  }

  /** Two polls of a session that has stored no second event, whatever the limit:
      the cursor is at the last projected event, and the second event, stored
      next, is skipped. */
  lemma TwoPollsSkipTheNext(f: Follower, next: Event)
    requires Starts(f) && f.start < 2 && f.run.Some?
    requires forall e :: e in f.feed ==> e.sequence == 1
    requires next.sequence == 2 && next.id !in RunIds(f.runId)
    ensures Appendable(f, [Poll, Poll, Append(next)])
    ensures Skipped(Follow(f, [Poll, Poll, Append(next)]), next)
  {
    var once, twice := Step(f, Poll), Step(Step(f, Poll), Poll);
    EarlyPoll(f);
    EarlyPoll(once);
    ThreeActions(f, Poll, Poll, Append(next));
    AppendSecond(f.feed, next);
    NotSent(f, next);
    NotSent(once, next);
  }

  lemma AppendSecond(feed: seq<Event>, next: Event)
    requires Increasing(feed) && next.sequence == 2 && forall e :: e in feed ==> e.sequence == 1
    ensures Increasing(feed + [next]) && next in feed + [next] && next !in feed
  {
    forall i | 0 <= i < |feed| ensures feed[i].sequence < 2 { assert feed[i] in feed; }
    assert (feed + [next])[|feed|] == next;
  }

  lemma NotSent(f: Follower, next: Event)
    requires f.run.Some? && next.id !in RunIds(f.runId) && next !in f.feed
    ensures next !in Batch(f)
  {
    BatchIsPast(f);
    var projected := ProjectedEvents(f.runId, f.run.value);
    assert projected[0].id in RunIds(f.runId) && projected[1].id in RunIds(f.runId);
  }

  lemma ThreeActions(f: Follower, a: Action, b: Action, c: Action)
    ensures Follow(f, [a, b, c]) == Step(Step(Step(f, a), b), c)
    ensures Appendable(f, [a, b, c]) <==> Extends(f, a) && Extends(Step(f, a), b) && Extends(Step(Step(f, a), b), c)
  {
    assert [a, b, c][1..] == [b, c] && [b, c][1..] == [c] && [c][1..] == [];
    var g := Step(f, a);
    var h := Step(g, b);
    assert Follow(f, [a, b, c]) == Follow(g, [b, c]) == Follow(h, [c]) == Follow(Step(h, c), []);
    assert Appendable(h, [c]) <==> Extends(h, c);
    assert Appendable(g, [b, c]) <==> Extends(g, b) && Appendable(h, [c]);
  }

  /** A stream skips no stored event, over all feeds, runs and interleavings,
      exactly when it starts at the last projected event or beyond. */
  lemma SkipsNothingExactly(start: int, limit: int)
    ensures NeverSkips(start, limit) <==> start >= 2
  {
    if start >= 2 {
      forall f, actions | Starts(f) && f.start == start && f.limit == limit && Appendable(f, actions)
        ensures SkipsNothing(Follow(f, actions))
      {
        forall e | e in Follow(f, actions).feed
          ensures !Skipped(Follow(f, actions), e)
        {
          if Skipped(Follow(f, actions), e) { OnlyFirstTwoAreSkipped(f, actions, e); }
        }
      }
    } else {
      EarlyStreamSkips(start, limit);
    }
  }

  lemma EarlyStreamSkips(start: int, limit: int)
    requires start < 2
    ensures !NeverSkips(start, limit)
  {
    var next := Event("b", 2, 0);
    var f := NewFollower(start, limit, next);
    TwoPollsSkipTheNext(f, next);
    OneSkipRefutes(f, [Poll, Poll, Append(next)], next);
  }

  /** A session with a run and its first event stored. */
  lemma NewFollower(start: int, limit: int, next: Event) returns (f: Follower)
    requires next.id == "b"
    ensures Starts(f) && f.start == start && f.limit == limit && f.run.Some?
    ensures (forall e :: e in f.feed ==> e.sequence == 1) && next.id !in RunIds(f.runId)
  {
    f := Follower([Event("a", 1, 0)], start, limit, "r", Some(Run(0, 0)), start, []);
    assert |"r-legacy-created"| > 1;
    assert "a" !in RunIds("r") && "b" !in RunIds("r");
  }

  lemma OneSkipRefutes(f: Follower, actions: seq<Action>, e: Event)
    requires Starts(f) && Appendable(f, actions) && Skipped(Follow(f, actions), e)
    ensures !NeverSkips(f.start, f.limit)
  {
    assert !SkipsNothing(Follow(f, actions));
  }

  /** The loss at the default limit: a client that reads a new session from the
      start is sent both projected events and the stored one, and never the next
      event that is stored. */
  lemma DefaultReadSkipsTheNext(f: Follower, created: Event, next: Event, later: seq<Action>)
    requires Starts(f) && f.start == 0 && f.limit == DEFAULT_EVENT_LIMIT && f.run.Some?
    requires f.feed == [created] && created.sequence == 1
    requires next.sequence == 2 && next.id !in RunIds(f.runId)
    ensures |Step(f, Poll).emitted| == 3 && Step(f, Poll).lastSequence == 2
    ensures Skipped(Step(Step(f, Poll), Append(next)), next)
    ensures next !in Follow(Step(Step(f, Poll), Append(next)), later).emitted
  {
    EarlyPoll(f);
    WholePage(f, created);
    NotSent(f, next);
    var last := Step(Step(f, Poll), Append(next));
    assert last.feed[1] == next;
    SkippedForever(last, later, next);
  }

  lemma WholePage(f: Follower, created: Event)
    requires Starts(f) && f.start == 0 && f.limit == DEFAULT_EVENT_LIMIT && f.run.Some? && f.feed == [created]
    ensures |Batch(f)| == 3 && exists e :: e in Batch(f) && e.sequence == 2
    ensures LastSequence(0, Batch(f)) >= 2
  {
    var projected := ProjectedEvents(f.runId, f.run.value);
    WholeBatch(f, created);
    SortedMembers(projected + f.feed);
    StableSortOrders(projected + f.feed);
    assert projected[1] in projected + f.feed && projected[1] in Batch(f);
    LastIsLargest(0, Batch(f));
  }

  lemma WholeBatch(f: Follower, created: Event)
    requires Starts(f) && f.start == 0 && f.limit == DEFAULT_EVENT_LIMIT && f.run.Some? && f.feed == [created]
    ensures Batch(f) == StableSort(ProjectedEvents(f.runId, f.run.value) + f.feed)
  {
    var projected := ProjectedEvents(f.runId, f.run.value);
    assert f.feed[0].sequence > 0;
    WholeFeedPage(f.feed, created);
    MergedForeign(f.feed, f.runId, f.run);
    ReadWhole(f.feed, projected, f.limit);
  }

  lemma WholeFeedPage(feed: seq<Event>, created: Event)
    requires feed == [created] && Past(created, 0)
    ensures Page(feed, 0, DEFAULT_EVENT_LIMIT) == feed
  {
    EverythingPast(feed, 0);
  }

  /** A read from the start that fits its limit is everything, sorted. */
  lemma ReadWhole(page: seq<Event>, projected: seq<Event>, limit: int)
    requires Merged(page, Some(projected)) == projected + page && |projected| + |page| <= limit
    requires AllPast(page, 0) && AllPast(projected, 0)
    ensures Read(page, Some(projected), 0, limit) == StableSort(projected + page)
  {
    EverythingPast(projected + page, 0);
    StableSortOrders(projected + page);
    assert |multiset(StableSort(projected + page))| == |multiset(projected + page)|;
  }
}
