/** The in-memory durable tier: one bucket per channel, kept in total order and idempotent
    on the event id, read by forward pages and by reverse tail pages. */
module Sink {
  import opened Options
  import opened Envelopes
  import opened Selection

  ghost predicate BucketValid(b: seq<Envelope>) {
    Sorted(b) && DistinctIds(b)
  }

  predicate HasId(b: seq<Envelope>, id: EventId) {
    exists i :: 0 <= i < |b| && b[i].eventId == id
  }

  /** Insert into a sorted bucket: what pushing and re-sorting amounts to. */
  function Insert(b: seq<Envelope>, e: Envelope): seq<Envelope> {
    if b == [] then [e]
    else
      var front, last := b[..|b| - 1], b[|b| - 1];
      if last.Cursor().IsBefore(e.Cursor()) then b + [e] else Insert(front, e) + [last]
  }

  function Appended(b: seq<Envelope>, e: Envelope): seq<Envelope> {
    if HasId(b, e.eventId) then b else Insert(b, e)
  }

  function AppendedAll(b: seq<Envelope>, events: seq<Envelope>): seq<Envelope> {
    if events == [] then b
    else Appended(AppendedAll(b, events[..|events| - 1]), events[|events| - 1])
  }

  lemma {:induction false} InsertMember(b: seq<Envelope>, e: Envelope)
    ensures forall x :: x in Insert(b, e) <==> x in b || x == e
  {
    if b != [] {
      InsertMember(b[..|b| - 1], e);
      assert b == b[..|b| - 1] + [b[|b| - 1]];
    }
  }

  lemma {:induction false} InsertSorted(b: seq<Envelope>, e: Envelope)
    requires Sorted(b) && !HasId(b, e.eventId)
    ensures Sorted(Insert(b, e))
  {
    if b != [] {
      var front, last := b[..|b| - 1], b[|b| - 1];
      SortedFront(b);
      assert forall i :: 0 <= i < |front| ==> front[i] == b[i];
      InsertSorted(front, e);
      InsertMember(front, e);
      if last.Cursor().IsBefore(e.Cursor()) {
        SortedAppend(b, [e]);
      } else {
        SortedAppend(Insert(front, e), [last]);
      }
    }
  }

  lemma SortedSameIdsDistinct(b: seq<Envelope>)
    requires Sorted(b)
    requires forall x, y :: x in b && y in b && x.eventId == y.eventId ==> x == y
    ensures DistinctIds(b)
  {
  }

  /** One append keeps the bucket sorted and duplicate free, adds the event unless its id is
      already stored, and never displaces what is stored. */
  lemma AppendedValid(b: seq<Envelope>, e: Envelope)
    requires BucketValid(b)
    ensures BucketValid(Appended(b, e))
    ensures forall x :: x in Appended(b, e) <==> x in b || (x == e && !HasId(b, e.eventId))
    ensures HasId(Appended(b, e), e.eventId)
  {
    if !HasId(b, e.eventId) {
      InsertMember(b, e);
      InsertSorted(b, e);
      var r := Insert(b, e);
      forall x, y | x in r && y in r && x.eventId == y.eventId ensures x == y {
        if x != e && y != e {
          var i :| 0 <= i < |b| && b[i] == x;
          var j :| 0 <= j < |b| && b[j] == y;
        }
      }
      SortedSameIdsDistinct(r);
      var k :| 0 <= k < |r| && r[k] == e;
    }
  }

  /** `e` is the first envelope carrying its id, counting what the bucket already held. */
  ghost predicate FirstOfItsId(b: seq<Envelope>, events: seq<Envelope>, e: Envelope) {
    exists i :: 0 <= i < |events| && events[i] == e && !HasId(b, e.eventId) && !HasId(events[..i], e.eventId)
  }

  lemma {:induction false} AppendedAllIds(b: seq<Envelope>, events: seq<Envelope>, id: EventId)
    requires BucketValid(b)
    ensures BucketValid(AppendedAll(b, events))
    ensures HasId(AppendedAll(b, events), id) <==> HasId(b, id) || HasId(events, id)
  {
    if events != [] {
      var front, last := events[..|events| - 1], events[|events| - 1];
      AppendedAllIds(b, front, id);
      var r := AppendedAll(b, front);
      AppendedValid(r, last);
      HasIdMember(r, id);
      HasIdMember(Appended(r, last), id);
      HasIdMember(front, id);
      HasIdMember(events, id);
      assert events == front + [last];
    }
  }

  lemma HasIdMember(b: seq<Envelope>, id: EventId)
    ensures HasId(b, id) <==> exists x :: x in b && x.eventId == id
  {
  }

  /** Whatever the order, the repeats and the retries, the bucket holds exactly the first
      envelope of every id; being sorted, it is determined by that set. */
  lemma {:induction false} BucketIsFirstPerId(b: seq<Envelope>, events: seq<Envelope>)
    requires BucketValid(b)
    ensures BucketValid(AppendedAll(b, events))
    ensures forall e :: e in AppendedAll(b, events) <==> e in b || FirstOfItsId(b, events, e)
  {
    if events != [] {
      var front, last := events[..|events| - 1], events[|events| - 1];
      BucketIsFirstPerId(b, front);
      AppendedAllIds(b, front, last.eventId);
      AppendedValid(AppendedAll(b, front), last);
      assert events == front + [last];
      forall e ensures FirstOfItsId(b, events, e) <==>
          FirstOfItsId(b, front, e) || (e == last && !HasId(b, last.eventId) && !HasId(front, last.eventId))
      {
        FirstExtends(b, front, last, e);
      }
    }
  }

  lemma FirstExtends(b: seq<Envelope>, front: seq<Envelope>, last: Envelope, e: Envelope)
    ensures FirstOfItsId(b, front + [last], e) <==>
              FirstOfItsId(b, front, e) || (e == last && !HasId(b, last.eventId) && !HasId(front, last.eventId))
  {
    var events := front + [last];
    assert forall i :: 0 <= i <= |front| ==> events[..i] == front[..i];
    assert front[..|front|] == front;
    if FirstOfItsId(b, front, e) {
      var i :| 0 <= i < |front| && front[i] == e && !HasId(b, e.eventId) && !HasId(front[..i], e.eventId);
      assert events[i] == e && !HasId(events[..i], e.eventId);
    }
    if e == last && !HasId(b, last.eventId) && !HasId(front, last.eventId) {
      assert events[|front|] == e && !HasId(events[..|front|], e.eventId);
    }
  }

  /** A batch that was applied in part and is then retried whole ends as if applied once. */
  lemma PartialRetry(b: seq<Envelope>, batch: seq<Envelope>, n: nat)
    requires BucketValid(b) && n <= |batch|
    ensures AppendedAll(AppendedAll(b, batch[..n]), batch) == AppendedAll(b, batch)
  {
    var mid := AppendedAll(b, batch[..n]);
    BucketIsFirstPerId(b, batch[..n]);
    BucketIsFirstPerId(mid, batch);
    BucketIsFirstPerId(b, batch);
    forall e ensures e in AppendedAll(mid, batch) <==> e in AppendedAll(b, batch) {
      AppendedAllIds(b, batch[..n], e.eventId);
      RetryMember(b, batch, n, e);
    }
    SortedUnique(AppendedAll(mid, batch), AppendedAll(b, batch));
  }

  lemma RetryMember(b: seq<Envelope>, batch: seq<Envelope>, n: nat, e: Envelope)
    requires BucketValid(b) && n <= |batch|
    ensures var mid := AppendedAll(b, batch[..n]);
            FirstOfItsId(b, batch, e) || e in b <==> e in b || FirstOfItsId(b, batch[..n], e) || FirstOfItsId(mid, batch, e)
  {
    var mid := AppendedAll(b, batch[..n]);
    AppendedAllIds(b, batch[..n], e.eventId);
    if FirstOfItsId(b, batch, e) {
      var i :| 0 <= i < |batch| && batch[i] == e && !HasId(b, e.eventId) && !HasId(batch[..i], e.eventId);
      if i < n {
        assert batch[..n][i] == e && batch[..n][..i] == batch[..i];
      } else {
        forall j | 0 <= j < n ensures batch[..n][j].eventId != e.eventId {
          assert batch[..n][j] == batch[..i][j];
        }
        assert !HasId(mid, e.eventId);
      }
    }
    if FirstOfItsId(b, batch[..n], e) {
      var i :| 0 <= i < n && batch[..n][i] == e && !HasId(b, e.eventId) && !HasId(batch[..n][..i], e.eventId);
      assert batch[..n][..i] == batch[..i];
      assert batch[i] == e;
    }
    if FirstOfItsId(mid, batch, e) {
      var i :| 0 <= i < |batch| && batch[i] == e && !HasId(mid, e.eventId) && !HasId(batch[..i], e.eventId);
      assert !HasId(b, e.eventId);
    }
  }

  // ---------------------------------------------------------------- pages

  /** Up to `limit` rows strictly after the cursor, in order. */
  function Page(b: seq<Envelope>, from: Option<Cursor>, limit: nat): seq<Envelope> {
    FirstN(Select(b, AfterGate(from)), limit)
  }

  /** How many leading rows precede the gate. */
  function PartitionPoint(b: seq<Envelope>, before: Option<Cursor>): (k: nat)
    ensures k <= |b|
    ensures forall i :: 0 <= i < k ==> BeforeGate(before).Holds(b[i])
    ensures k < |b| ==> !BeforeGate(before).Holds(b[k])
  {
    if b == [] || !BeforeGate(before).Holds(b[0]) then 0 else 1 + PartitionPoint(b[1..], before)
  }

  function PageTail(b: seq<Envelope>, before: Option<Cursor>, limit: nat): seq<Envelope> {
    var end := PartitionPoint(b, before);
    b[if end <= limit then 0 else end - limit..end]
  }

  lemma PartitionIsSelect(b: seq<Envelope>, before: Option<Cursor>)
    requires Sorted(b)
    ensures b[..PartitionPoint(b, before)] == Select(b, BeforeGate(before))
  {
    var k := PartitionPoint(b, before);
    forall i | k <= i < |b| ensures !BeforeGate(before).Holds(b[i]) {
      if i > k { assert b[k].Cursor().IsBefore(b[i].Cursor()); }
    }
    SelectPrefix(b, BeforeGate(before), k);
  }

  /** A tail page is the end of what precedes the gate. */
  lemma PageTailIsLastN(b: seq<Envelope>, before: Option<Cursor>, limit: nat)
    requires Sorted(b)
    ensures PageTail(b, before, limit) == LastN(Select(b, BeforeGate(before)), limit)
  {
    PartitionIsSelect(b, before);
  }

  /** The newest `limit` rows of the given kinds before the gate: scan back to front, keep
      matching rows until there are enough, then restore ascending order. */
  method PageTailOfKinds(b: seq<Envelope>, before: Option<Cursor>, kinds: seq<Kind>, limit: nat) returns (out: seq<Envelope>)
    requires Sorted(b)
    ensures out == LastN(Select(b, Both(BeforeGate(before), OfKinds(Some(kinds)))), limit)
    ensures Sorted(out) && |out| <= limit
    ensures forall e :: e in out ==> e in b && (before.Some? ==> e.Cursor().IsBefore(before.value)) && e.kind in kinds
    ensures forall e :: e in b && (before.Some? ==> e.Cursor().IsBefore(before.value)) && e.kind in kinds && e !in out ==>
              |out| == limit && forall x :: x in out ==> e.Cursor().IsBefore(x.Cursor())
  {
    var end := PartitionPoint(b, before);
    var i := end;
    out := [];
    ghost var of := OfKinds(Some(kinds));
    assert b[end..end] == [];
    while i > 0 && |out| < limit
      invariant 0 <= i <= end
      invariant |out| <= limit
      invariant out == Select(b[i..end], of)
    {
      i := i - 1;
      assert b[i..end] == [b[i]] + b[i + 1..end];
      SelectAppend([b[i]], b[i + 1..end], of);
      if b[i].kind in kinds { out := [b[i]] + out; }
    }
    KindsTail(b, before, kinds, limit, i, out);
    NewestOfKinds(b, before, kinds, limit);
  }

  lemma NewestOfKinds(b: seq<Envelope>, before: Option<Cursor>, kinds: seq<Kind>, limit: nat)
    requires Sorted(b)
    ensures var out := LastN(Select(b, Both(BeforeGate(before), OfKinds(Some(kinds)))), limit);
            && Sorted(out) && |out| <= limit
            && (forall e :: e in out ==> e in b && (before.Some? ==> e.Cursor().IsBefore(before.value)) && e.kind in kinds)
            && (forall e :: e in b && (before.Some? ==> e.Cursor().IsBefore(before.value)) && e.kind in kinds && e !in out ==>
                  |out| == limit && forall x :: x in out ==> e.Cursor().IsBefore(x.Cursor()))
  {
    var p := Both(BeforeGate(before), OfKinds(Some(kinds)));
    NewestRows(b, p, limit);
    assert forall e :: p.Holds(e) <==> (before.Some? ==> e.Cursor().IsBefore(before.value)) && e.kind in kinds;
  }

  lemma {:induction false} KindsTail(b: seq<Envelope>, before: Option<Cursor>, kinds: seq<Kind>, limit: nat, i: nat, out: seq<Envelope>)
    requires Sorted(b) && i <= PartitionPoint(b, before)
    requires out == Select(b[i..PartitionPoint(b, before)], OfKinds(Some(kinds)))
    requires |out| == limit || (i == 0 && |out| <= limit)
    ensures out == LastN(Select(b, Both(BeforeGate(before), OfKinds(Some(kinds)))), limit)
  {
    var end, of := PartitionPoint(b, before), OfKinds(Some(kinds));
    PartitionIsSelect(b, before);
    SelectTwice(b, BeforeGate(before), of);
    assert b[..end] == b[..i] + b[i..end];
    SelectAppend(b[..i], b[i..end], of);
    LastNEnd(Select(b[..i], of), out, limit);
  }

  lemma LastNEnd(a: seq<Envelope>, b: seq<Envelope>, n: nat)
    requires |b| == n || (a == [] && |b| <= n)
    ensures LastN(a + b, n) == b
  {
  }

  /** Moving the gate to the n-th row after it drops exactly those n rows. */
  lemma AdvanceGate(b: seq<Envelope>, gate: Option<Cursor>, n: nat)
    requires Sorted(b) && 0 < n <= |Select(b, AfterGate(gate))|
    ensures var s := Select(b, AfterGate(gate));
            s == s[..n] + Select(b, AfterGate(Some(s[n - 1].Cursor())))
  {
    var s := Select(b, AfterGate(gate));
    var next := AfterGate(Some(s[n - 1].Cursor()));
    SelectSorted(b, AfterGate(gate));
    SelectMember(b, AfterGate(gate));
    SelectMember(b, next);
    SelectSorted(b, next);
    assert s[n - 1] in s;
    forall e ensures e in s[n..] <==> e in Select(b, next) {
      if e in s { PastNth(s, n, e); }
    }
    SortedUnique(s[n..], Select(b, next));
  }

  /** In a sorted list, what follows the n-th row is what lies after its cursor. */
  lemma PastNth(s: seq<Envelope>, n: nat, e: Envelope)
    requires Sorted(s) && 0 < n <= |s| && e in s
    ensures e in s[n..] <==> AfterGate(Some(s[n - 1].Cursor())).Holds(e)
  {
    var i :| 0 <= i < |s| && s[i] == e;
    if i >= n {
      assert s[n..][i - n] == e;
      assert s[n - 1].Cursor().IsBefore(s[i].Cursor());
    } else {
      if i < n - 1 { assert s[i].Cursor().IsBefore(s[n - 1].Cursor()); }
      forall j | n <= j < |s| ensures s[j] != e { assert s[i].Cursor().IsBefore(s[j].Cursor()); }
    }
  }

  method ReadTail(b: seq<Envelope>, before: Option<Cursor>, limit: nat) returns (page: seq<Envelope>)
    requires Sorted(b)
    ensures page == LastN(Select(b, BeforeGate(before)), limit)
    ensures Sorted(page) && |page| <= limit
    ensures forall e :: e in page ==> e in b && (before.Some? ==> e.Cursor().IsBefore(before.value))
    ensures forall e :: e in b && (before.Some? ==> e.Cursor().IsBefore(before.value)) && e !in page ==>
              |page| == limit && forall x :: x in page ==> e.Cursor().IsBefore(x.Cursor())
  {
    NewestRows(b, BeforeGate(before), limit);
    PageTailIsLastN(b, before, limit);
    page := PageTail(b, before, limit);
  }

  /** Paging backward from the tail with any positive limit rebuilds the bucket. */
  method ReadBackward(b: seq<Envelope>, limit: nat) returns (out: seq<Envelope>)
    requires Sorted(b) && limit > 0
    ensures out == b
  {
    out := [];
    var gate: Option<Cursor> := None;
    var page := ReadTail(b, gate, limit);
    ghost var rest := b;
    SelectAll(b, BeforeGate(None));
    while page != []
      invariant rest == Select(b, BeforeGate(gate)) && page == LastN(rest, limit)
      invariant rest + out == b
      decreases |rest|
    {
      BackStep(b, gate, limit, rest, page, out);
      rest := rest[..|rest| - |page|];
      out := page + out;
      gate := Some(page[0].Cursor());
      page := ReadTail(b, gate, limit);
    }
  }

  lemma {:induction false} BackStep(b: seq<Envelope>, gate: Option<Cursor>, limit: nat, rest: seq<Envelope>, page: seq<Envelope>, out: seq<Envelope>)
    requires Sorted(b) && rest == Select(b, BeforeGate(gate)) && page == LastN(rest, limit) && page != [] && rest + out == b
    ensures var rest' := rest[..|rest| - |page|];
            rest' == Select(b, BeforeGate(Some(page[0].Cursor()))) && rest' + (page + out) == b
  {
    var k := |rest| - |page|;
    assert page == rest[k..] && page[0] == rest[k];
    RetreatGate(b, gate, |page|);
    assert rest == rest[..k] + rest[k..];
  }

  lemma RetreatGate(b: seq<Envelope>, gate: Option<Cursor>, n: nat)
    requires Sorted(b) && 0 < n <= |Select(b, BeforeGate(gate))|
    ensures var s := Select(b, BeforeGate(gate));
            Select(b, BeforeGate(Some(s[|s| - n].Cursor()))) == s[..|s| - n]
  {
    var s := Select(b, BeforeGate(gate));
    var k := |s| - n;
    SelectBeforeIsPrefix(b, gate);
    assert s[k] == b[k];
    forall i | k <= i < |b| ensures !b[i].Cursor().IsBefore(b[k].Cursor()) {
      if i > k { assert b[k].Cursor().IsBefore(b[i].Cursor()); }
    }
    SelectPrefix(b, BeforeGate(Some(s[k].Cursor())), k);
    assert s == b[..|s|];
  }

  /** A scan that stopped at the limit or the end has read one page. */
  lemma ScanIsPage(b: seq<Envelope>, from: Option<Cursor>, limit: nat, i: nat, out: seq<Envelope>)
    requires Sorted(b) && i <= |b| && out == Select(b[..i], AfterGate(from)) && |out| <= limit && (i == |b| || |out| == limit)
    ensures out == Page(b, from, limit)
    ensures Sorted(out) && forall e :: e in out ==> e in b && AfterGate(from).Holds(e)
    ensures forall e :: e in b && AfterGate(from).Holds(e) && e !in out ==>
              |out| == limit && forall x :: x in out ==> x.Cursor().IsBefore(e.Cursor())
  {
    assert b == b[..i] + b[i..];
    SelectAppend(b[..i], b[i..], AfterGate(from));
    if i == |b| { assert b[i..] == []; }
    PageCovers(b, from, limit);
  }

  /** A page holds the first rows after the cursor: what it leaves out follows a full page. */
  lemma PageCovers(b: seq<Envelope>, from: Option<Cursor>, limit: nat)
    requires Sorted(b)
    ensures var out := Page(b, from, limit);
            && Sorted(out) && (forall e :: e in out ==> e in b && AfterGate(from).Holds(e))
            && (forall e :: e in b && AfterGate(from).Holds(e) && e !in out ==>
                  |out| == limit && forall x :: x in out ==> x.Cursor().IsBefore(e.Cursor()))
  {
    var out, all := Page(b, from, limit), Select(b, AfterGate(from));
    SelectMember(b, AfterGate(from));
    SelectSorted(b, AfterGate(from));
    assert forall k :: 0 <= k < |out| ==> all[k] == out[k];
    forall e, x | e in b && AfterGate(from).Holds(e) && e !in out && x in out ensures x.Cursor().IsBefore(e.Cursor()) {
      var j :| 0 <= j < |all| && all[j] == e;
      var k :| 0 <= k < |out| && out[k] == x;
      assert forall i :: 0 <= i < |out| ==> all[i] in out;
      assert all[k].Cursor().IsBefore(all[j].Cursor());
    }
  }

  /** What follows a cursor: in order, exactly the rows whose cursor it precedes. */
  lemma RowsAfter(b: seq<Envelope>, from: Option<Cursor>)
    requires Sorted(b)
    ensures var out := Select(b, AfterGate(from));
            Sorted(out) && forall e :: e in out <==> e in b && (from.Some? ==> from.value.IsBefore(e.Cursor()))
  {
    SelectMember(b, AfterGate(from));
    SelectSorted(b, AfterGate(from));
  }

  // ---------------------------------------------------------------- the sink object

  function BucketOf(events: map<RoomId, seq<Envelope>>, room: RoomId): seq<Envelope> {
    if room in events then events[room] else []
  }

  class InMemoryDurableSink {
    var events: map<RoomId, seq<Envelope>>
    var appendCount: nat
    var pageCount: nat

    ghost predicate Valid()
      reads this
    {
      forall room :: room in events ==> BucketValid(events[room])
    }

    constructor ()
      ensures Valid() && events == map[] && appendCount == 0 && pageCount == 0
    {
      events, appendCount, pageCount := map[], 0, 0;
    }

    /** Store one event; a repeat of a stored id is a no-op. */
    method Append(e: Envelope)
      requires Valid()
      modifies this
      ensures Valid() && pageCount == old(pageCount)
      ensures events == old(events)[e.channel := Appended(BucketOf(old(events), e.channel), e)]
      ensures appendCount == old(appendCount) + if HasId(BucketOf(old(events), e.channel), e.eventId) then 0 else 1
    {
      var bucket := BucketOf(events, e.channel);
      AppendedValid(bucket, e);
      if !HasId(bucket, e.eventId) {
        appendCount := appendCount + 1;
      }
      events := events[e.channel := Appended(bucket, e)];
    }

    /** The default group append: one event after another. */
    method AppendBatch(batch: seq<Envelope>, ghost room: RoomId)
      requires Valid()
      modifies this
      ensures Valid()
      ensures BucketOf(events, room) == AppendedAll(BucketOf(old(events), room), Select(batch, OnChannel(room)))
    {
      for i := 0 to |batch|
        invariant Valid()
        invariant BucketOf(events, room) == AppendedAll(BucketOf(old(events), room), Select(batch[..i], OnChannel(room)))
      {
        Append(batch[i]);
        assert batch[..i + 1][..i] == batch[..i];
      }
      assert batch[..|batch|] == batch;
    }

    /** Scan the bucket for up to `limit` rows after the cursor. Every stored row after it is
        returned, or follows a full page. */
    method ReadPage(room: RoomId, from: Option<Cursor>, limit: nat) returns (out: seq<Envelope>)
      requires Valid()
      modifies this
      ensures Valid() && events == old(events) && appendCount == old(appendCount) && pageCount == old(pageCount) + 1
      ensures out == Page(BucketOf(events, room), from, limit)
      ensures Sorted(out) && |out| <= limit && (forall e :: e in out ==> e in BucketOf(events, room) && (from.Some? ==> from.value.IsBefore(e.Cursor())))
      ensures forall e :: e in BucketOf(events, room) && (from.Some? ==> from.value.IsBefore(e.Cursor())) && e !in out ==>
                |out| == limit && forall x :: x in out ==> x.Cursor().IsBefore(e.Cursor())
    {
      pageCount := pageCount + 1;
      var bucket, i := BucketOf(events, room), 0;
      out := [];
      while i < |bucket| && |out| < limit
        invariant 0 <= i <= |bucket| && |out| <= limit && out == Select(bucket[..i], AfterGate(from))
      {
        assert bucket[..i + 1][..i] == bucket[..i];
        if AfterGate(from).Holds(bucket[i]) { out := out + [bucket[i]]; }
        i := i + 1;
      }
      ScanIsPage(bucket, from, limit, i, out);
    }

    /** Page through a channel with any positive limit: exactly what follows the cursor. */
    method ReadForward(room: RoomId, from: Option<Cursor>, limit: nat) returns (out: seq<Envelope>)
      requires Valid() && limit > 0
      modifies this
      ensures Valid() && events == old(events) && appendCount == old(appendCount)
      ensures out == Select(BucketOf(events, room), AfterGate(from))
    {
      ghost var b := BucketOf(events, room);
      out := [];
      var gate := from;
      var page := ReadPage(room, gate, limit);
      while page != []
        invariant Valid() && events == old(events) && appendCount == old(appendCount)
        invariant page == Page(b, gate, limit)
        invariant out + Select(b, AfterGate(gate)) == Select(b, AfterGate(from))
        decreases |Select(b, AfterGate(gate))|
      {
        AdvanceGate(b, gate, |page|);
        Regroup(out, page, Select(b, AfterGate(Some(page[|page| - 1].Cursor()))));
        out := out + page;
        gate := Some(page[|page| - 1].Cursor());
        page := ReadPage(room, gate, limit);
      }
    }

    function HeadCursor(room: RoomId): (c: Option<Cursor>)
      requires Valid()
      reads this
      ensures c.Some? <==> BucketOf(events, room) != []
      ensures c.Some? ==> forall e :: e in BucketOf(events, room) ==> e.Cursor() == c.value || e.Cursor().IsBefore(c.value)
      ensures c.Some? ==> exists e :: e in BucketOf(events, room) && e.Cursor() == c.value
    {
      var bucket := BucketOf(events, room);
      if bucket == [] then None
      else
        assert bucket[|bucket| - 1] in bucket;
        Some(bucket[|bucket| - 1].Cursor())
    }
  }
}
