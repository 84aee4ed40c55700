/** The bounded audit buffer and the query over it, against the unbounded
    history of everything ever appended. */
module AuditBuffer {
  import opened Text

  /** A record's value, as far as a query can see it. */
  datatype Field = Textual(text: string) | Opaque

  type Record = map<string, Field>

  const DEFAULT_CAPACITY: nat := 2000

  datatype Query = Query(
    limit: int, tenant: string, project: string, provider: string, decision: string, event: string)

  // ---------- which records a query selects ----------

  /** The first of the keys that holds text. */
  function FieldText(record: Record, keys: seq<string>): string {
    if keys == [] then ""
    else if keys[0] in record && record[keys[0]].Textual? then Trim(record[keys[0]].text)
    else FieldText(record, keys[1..])
  }

  predicate Contains(s: string, part: string) {
    HasPrefix(s, part) || (s != [] && Contains(s[1..], part))
  }

  /** A blank needle selects every record. */
  predicate Selects(q: Query, record: Record) {
    var provider := ["providerId", "policyProvider", "profileProvider", "evidenceProvider"];
    && record != map[]
    && (Trim(q.tenant) == "" || FieldText(record, ["tenantId"]) == Trim(q.tenant))
    && (Trim(q.project) == "" || FieldText(record, ["projectId"]) == Trim(q.project))
    && (Trim(q.provider) == "" || FieldText(record, provider) == Trim(q.provider))
    && (Trim(q.decision) == "" || Upper(FieldText(record, ["decision", "policy"])) == Upper(Trim(q.decision)))
    && (Trim(q.event) == "" || Contains(Lower(FieldText(record, ["event"])), Lower(Trim(q.event))))
  }

  function PageSize(limit: int): (n: nat)
    ensures 1 <= n <= 1000
  {
    if limit <= 0 then 100 else if limit > 1000 then 1000 else limit
  }

  function Take<T>(s: seq<T>, n: nat): seq<T> { if |s| <= n then s else s[..n] }

  function LastOf<T>(s: seq<T>, n: nat): seq<T> { if |s| <= n then s else s[|s| - n..] }

  /** Every selected record, newest first. */
  function NewestFirst(records: seq<Record>, q: Query): seq<Record> {
    if records == [] then []
    else
      var newest := records[|records| - 1];
      (if Selects(q, newest) then [newest] else []) + NewestFirst(records[..|records| - 1], q)
  }

  function Answer(records: seq<Record>, q: Query): seq<Record> {
    Take(NewestFirst(records, q), PageSize(q.limit))
  }

  lemma OneOlder(records: seq<Record>, i: nat, q: Query, out: seq<Record>)
    requires i < |records|
    requires out + NewestFirst(records[..i + 1], q) == NewestFirst(records, q)
    ensures
      var grown := if Selects(q, records[i]) then out + [records[i]] else out;
      grown + NewestFirst(records[..i], q) == NewestFirst(records, q)
  {
    assert records[..i + 1][..i] == records[..i];
    var older := NewestFirst(records[..i], q);
    assert (out + [records[i]]) + older == out + ([records[i]] + older);
    assert [] + older == older;
  }

  /** The scan from the newest record back, stopping on a full page. */
  method ScanBack(records: seq<Record>, q: Query, limit: nat) returns (out: seq<Record>)
    requires 0 < limit
    ensures out == Take(NewestFirst(records, q), limit)
  {
    out := [];
    var i := |records|;
    assert records[..i] == records;
    while i > 0
      invariant 0 <= i <= |records| && |out| < limit
      invariant out + NewestFirst(records[..i], q) == NewestFirst(records, q)
    {
      i := i - 1;
      OneOlder(records, i, q, out);
      var selected := Selects(q, records[i]);
      if selected {
        out := out + [records[i]];
        if |out| >= limit { return; }
      }
    }
  }

  /** The copy of the last n elements onto the first n. */
  method ShiftDown(store: array<Record>, overflow: nat, n: nat)
    requires overflow + n <= store.Length
    modifies store
    ensures store[..n] == old(store[overflow..overflow + n])
  {
    ghost var was := store[..];
    for i := 0 to n
      invariant forall k :: 0 <= k < i ==> store[k] == was[k + overflow]
      invariant forall k :: i <= k < store.Length ==> store[k] == was[k]
    {
      store[i] := store[i + overflow];
    }
    assert store[..n] == was[overflow..overflow + n];
  }

  // ---------- the buffer ----------

  function Appended(items: seq<Record>, record: Record, capacity: nat): seq<Record> {
    if record == map[] then items else LastOf(items + [record], capacity)
  }

  class Buffer {
    const capacity: nat
    var items: array<Record>
    var count: nat

    ghost predicate Valid()
      reads this
    {
      0 < capacity && count <= capacity && count <= items.Length
    }

    ghost function Contents(): seq<Record>
      reads this, items
      requires Valid()
    {
      items[..count]
    }

    constructor (capacity: int)
      ensures Valid() && fresh(items) && Contents() == []
      ensures this.capacity == if capacity <= 0 then DEFAULT_CAPACITY else capacity
    {
      var size: nat := if capacity <= 0 then DEFAULT_CAPACITY else capacity;
      this.capacity := size;
      items := new Record[size];
      count := 0;
    }

    /** The grown backing store that an append past the end allocates. */
    method Grow()
      requires Valid() && count == items.Length
      modifies this`items
      ensures Valid() && fresh(items) && count < items.Length && Contents() == old(Contents())
    {
      var smaller, larger := items, new Record[2 * count + 1];
      for i := 0 to smaller.Length
        invariant larger[..i] == smaller[..i]
      {
        larger[i] := smaller[i];
      }
      items := larger;
    }

    method Append(record: Record)
      requires Valid()
      modifies this, items
      ensures Valid() && (items == old(items) || fresh(items))
      ensures Contents() == Appended(old(Contents()), record, capacity)
    {
      if |record| == 0 { return; }
      if count == items.Length { Grow(); }
      var store := items;
      store[count] := record;
      count := count + 1;
      assert store[..count] == old(Contents()) + [record];
      if count > capacity { DropOldest(); }
    }

    /** The copy down that drops what exceeds the capacity. */
    method DropOldest()
      requires capacity < count <= items.Length && 0 < capacity
      modifies this`count, items
      ensures Valid() && Contents() == LastOf(old(items[..count]), capacity)
    {
      ShiftDown(items, count - capacity, capacity);
      count := capacity;
    }

    method Snapshot() returns (out: seq<Record>)
      requires Valid()
      ensures out == Contents()
    {
      out := items[..count];
    }

    method ListRuntimeAuditEvents(q: Query) returns (out: seq<Record>)
      requires Valid()
      ensures out == Answer(Contents(), q)
    {
      var records := Snapshot();
      var limit := if q.limit <= 0 then 100 else q.limit;
      if limit > 1000 { limit := 1000; }
      out := ScanBack(records, q, limit);
    }
  }

  // ---------- the buffer over a whole history ----------

  function AppendAll(history: seq<Record>, capacity: nat): seq<Record> {
    if history == [] then []
    else Appended(AppendAll(history[..|history| - 1], capacity), history[|history| - 1], capacity)
  }

  function NonEmpty(history: seq<Record>): seq<Record> {
    if history == [] then []
    else
      NonEmpty(history[..|history| - 1]) +
      (if history[|history| - 1] == map[] then [] else [history[|history| - 1]])
  }

  lemma LastOfAppended<T>(s: seq<T>, x: T, n: nat)
    requires 0 < n
    ensures LastOf(LastOf(s, n) + [x], n) == LastOf(s + [x], n)
  {
  }

  /** The buffer always holds exactly the last records appended, in order. */
  lemma {:induction false} BufferIsTail(history: seq<Record>, capacity: nat)
    requires 0 < capacity
    ensures AppendAll(history, capacity) == LastOf(NonEmpty(history), capacity)
  {
    if history != [] {
      var before, last := history[..|history| - 1], history[|history| - 1];
      BufferIsTail(before, capacity);
      LastOfAppended(NonEmpty(before), last, capacity);
      assert NonEmpty(before) + [] == NonEmpty(before);
    }
  }

  lemma {:induction false} NewestFirstConcat(older: seq<Record>, newer: seq<Record>, q: Query)
    ensures NewestFirst(older + newer, q) == NewestFirst(newer, q) + NewestFirst(older, q)
  {
    if newer == [] {
      assert older + newer == older;
    } else {
      assert (older + newer)[..|older + newer| - 1] == older + newer[..|newer| - 1];
      NewestFirstConcat(older, newer[..|newer| - 1], q);
    }
  }

  lemma {:induction false} EmptyNeverSelected(history: seq<Record>, q: Query)
    ensures NewestFirst(NonEmpty(history), q) == NewestFirst(history, q)
  {
    if history != [] {
      var last := history[|history| - 1];
      EmptyNeverSelected(history[..|history| - 1], q);
      NewestFirstConcat(NonEmpty(history[..|history| - 1]), if last == map[] then [] else [last], q);
    }
  }

  lemma {:induction false} NothingSelected(records: seq<Record>, q: Query)
    ensures NewestFirst(records, q) == [] <==> forall r :: r in records ==> !Selects(q, r)
  {
    if records != [] {
      NothingSelected(records[..|records| - 1], q);
      assert records == records[..|records| - 1] + [records[|records| - 1]];
    }
  }

  /** What the buffer has dropped. */
  function Forgotten(history: seq<Record>, capacity: nat): seq<Record> {
    var kept := NonEmpty(history);
    if |kept| <= capacity then [] else kept[..|kept| - capacity]
  }

  /** A query over the buffer returns a first part of what it would return over
      the whole history, and all of it exactly when it filled its page or
      nothing dropped matches. */
  lemma AnswersAsHistoryWould(history: seq<Record>, capacity: nat, q: Query)
    requires 0 < capacity
    ensures
      var buffer := AppendAll(history, capacity);
      && Answer(buffer, q) <= Answer(history, q)
      && (Answer(buffer, q) == Answer(history, q) <==>
          |NewestFirst(buffer, q)| >= PageSize(q.limit) ||
          forall r :: r in Forgotten(history, capacity) ==> !Selects(q, r))
  {
    var buffer := AppendAll(history, capacity);
    var dropped := Forgotten(history, capacity);
    BufferIsTail(history, capacity);
    TailAndRest(NonEmpty(history), capacity);
    EmptyNeverSelected(history, q);
    NewestFirstConcat(dropped, buffer, q);
    NothingSelected(dropped, q);
    TakeOfConcat(NewestFirst(buffer, q), NewestFirst(dropped, q), PageSize(q.limit));
  }

  lemma TailAndRest<T>(s: seq<T>, n: nat)
    ensures s == (if |s| <= n then [] else s[..|s| - n]) + LastOf(s, n)
  {
  }

  lemma TakeOfConcat<T>(a: seq<T>, b: seq<T>, n: nat)
    ensures Take(a, n) <= Take(a + b, n)
    ensures Take(a, n) == Take(a + b, n) <==> |a| >= n || b == []
  {
    if |a| >= n {
      assert (a + b)[..n] == a[..n];
    } else {
      assert |Take(a + b, n)| == if |a| + |b| <= n then |a| + |b| else n;
    }
  }
}
