/** The router's durable reads: tip, tail pages and catch-up pages, each merging a ring
    snapshot with a read of the store. Each is proved against the log of accepted events. */
module HistoryReads {
  import opened Options
  import opened Envelopes
  import opened Selection
  import opened Ring
  import opened Channel
  import Sink

  lemma LastNAppend(a: seq<Envelope>, b: seq<Envelope>, n: nat)
    ensures |b| >= n ==> LastN(a + b, n) == b[|b| - n..]
    ensures |b| < n ==> LastN(a + b, n) == LastN(a, n - |b|) + b
  {
  }

  /** The bound of the store leg selects what the caller's bound and the ring's oldest do. */
  lemma SinkBound(before: Option<Cursor>, oldest: Option<Cursor>, bound: Option<Cursor>, e: Envelope)
    requires bound == if before.Some? && oldest.Some? && before.value.IsBefore(oldest.value) then before
                      else if oldest.Some? then oldest else before
    ensures BeforeGate(bound).Holds(e) <==> BeforeGate(before).Holds(e) && BeforeGate(oldest).Holds(e)
  {
  }

  ghost function TailPred(before: Option<Cursor>, kinds: Option<seq<Kind>>): Pred {
    Both(BeforeGate(before), OfKinds(kinds))
  }

  /** A durable before the gate and of one of the kinds, as far as either is given. */
  ghost predicate Asked(e: Envelope, before: Option<Cursor>, kinds: Option<seq<Kind>>) {
    e.delivery == Durable && (before.Some? ==> e.Cursor().IsBefore(before.value)) && (kinds.Some? ==> e.kind in kinds.value)
  }

  lemma NewestAsked(log: seq<Envelope>, before: Option<Cursor>, kinds: Option<seq<Kind>>, limit: nat)
    requires Sorted(log)
    ensures var out := LastN(Select(log, Both(TailPred(before, kinds), IsDurable)), limit);
            && Sorted(out) && |out| <= limit
            && (forall e :: e in out ==> e in log && Asked(e, before, kinds))
            && (forall e :: e in log && Asked(e, before, kinds) && e !in out ==>
                  |out| == limit && forall x :: x in out ==> e.Cursor().IsBefore(x.Cursor()))
  {
    var p := Both(TailPred(before, kinds), IsDurable);
    NewestRows(log, p, limit);
    forall e ensures p.Holds(e) <==> Asked(e, before, kinds) {
      assert TailPred(before, kinds).Holds(e) <==> BeforeGate(before).Holds(e) && OfKinds(kinds).Holds(e);
    }
  }

  /** The newest `limit` accepted durables of the wanted kinds before the gate, ascending:
      the ring's own first, topped up by one tail page of the store. */
  method DurableTailFiltered(
      slots: seq<Slot>, bucket: seq<Envelope>, before: Option<Cursor>, kinds: Option<seq<Kind>>, limit: nat,
      ghost log: seq<Envelope>)
    returns (out: seq<Envelope>)
    requires Seam(slots, bucket, log)
    ensures out == LastN(Select(log, Both(TailPred(before, kinds), IsDurable)), limit)
    ensures Sorted(out) && |out| <= limit
    ensures forall e :: e in out ==> e in log && Asked(e, before, kinds)
    ensures forall e :: e in log && Asked(e, before, kinds) && e !in out ==>
              |out| == limit && forall x :: x in out ==> e.Cursor().IsBefore(x.Cursor())
  {
    NewestAsked(log, before, kinds, limit);
    if limit == 0 { return []; }
    var tail := Select(Envs(slots), Both(Both(BeforeGate(before), OfKinds(kinds)), IsDurable));
    var oldest := Oldest(slots);
    ghost var older' := Select(bucket, Both(TailPred(before, kinds), BeforeGate(oldest)));
    SeamExact(slots, bucket, log, TailPred(before, kinds));
    LastNAppend(older', tail, limit);
    if |tail| >= limit { return tail[|tail| - limit..]; }
    var remainder := limit - |tail|;
    var bound := if before.Some? && oldest.Some? && before.value.IsBefore(oldest.value) then before
                 else if oldest.Some? then oldest else before;
    var older;
    if kinds.None? {
      older := Sink.ReadTail(bucket, bound, remainder);
      StoreLeg(bucket, before, oldest, bound, None);
    } else {
      older := Sink.PageTailOfKinds(bucket, bound, kinds.value, remainder);
      StoreLeg(bucket, before, oldest, bound, kinds);
    }
    out := older + tail;
  }

  lemma StoreLeg(bucket: seq<Envelope>, before: Option<Cursor>, oldest: Option<Cursor>, bound: Option<Cursor>, kinds: Option<seq<Kind>>)
    requires bound == if before.Some? && oldest.Some? && before.value.IsBefore(oldest.value) then before
                      else if oldest.Some? then oldest else before
    ensures Select(bucket, Both(TailPred(before, kinds), BeforeGate(oldest)))
            == if kinds.None? then Select(bucket, BeforeGate(bound)) else Select(bucket, Both(BeforeGate(bound), OfKinds(kinds)))
  {
    var p := Both(TailPred(before, kinds), BeforeGate(oldest));
    var q := if kinds.None? then BeforeGate(bound) else Both(BeforeGate(bound), OfKinds(kinds));
    forall e ensures p.Holds(e) <==> q.Holds(e) {
      SinkBound(before, oldest, bound, e);
      assert TailPred(before, kinds).Holds(e) <==> BeforeGate(before).Holds(e) && OfKinds(kinds).Holds(e);
    }
    SelectSame(bucket, p, q);
  }

  ghost function LastCursor(s: seq<Envelope>): Option<Cursor> {
    if s == [] then None else Some(s[|s| - 1].Cursor())
  }

  /** The newest durable: the ring's newest if it holds any, else the store's head. Whenever
      the store is read, no durable accepted before the snapshot lies past the tip, and if
      nothing was stored meanwhile the tip is exactly the newest accepted durable. */
  method DurableTip(slots: seq<Slot>, bucket: seq<Envelope>, ghost log: seq<Envelope>) returns (tip: Option<Cursor>)
    requires Seam(slots, bucket, log)
    ensures forall d :: d in log && d.delivery.Durable? ==> tip.Some? && !tip.value.IsBefore(d.Cursor())
    ensures tip.Some? ==> exists d :: (d in log || d in bucket) && d.Cursor() == tip.value
    ensures (forall e :: e in bucket ==> e in log && e.delivery.Durable?) ==> tip == LastCursor(Select(log, IsDurable))
  {
    tip := NewestDurable(slots);
    if tip.None? {
      if bucket != [] { tip := Some(bucket[|bucket| - 1].Cursor()); }
      TipInStore(slots, bucket, log);
      if forall e :: e in bucket ==> e in log && e.delivery.Durable? { TipFromStore(slots, bucket, log); }
    } else {
      TipInRing(slots, bucket, log);
    }
  }

  lemma LastIsNewest(s: seq<Envelope>)
    requires Sorted(s) && s != []
    ensures s[|s| - 1] in s && forall d :: d in s ==> !s[|s| - 1].Cursor().IsBefore(d.Cursor())
  {
    forall d | d in s ensures !s[|s| - 1].Cursor().IsBefore(d.Cursor()) {
      var i :| 0 <= i < |s| && s[i] == d;
      if i < |s| - 1 { assert s[i].Cursor().IsBefore(s[|s| - 1].Cursor()); }
    }
  }

  /** A durable in the ring: the ring's newest is the newest of all accepted. */
  lemma TipInRing(slots: seq<Slot>, bucket: seq<Envelope>, log: seq<Envelope>)
    requires Seam(slots, bucket, log) && Durables(slots) != []
    ensures var all := Select(log, IsDurable);
            && all != [] && LastCursor(all) == LastCursor(Durables(slots))
            && (forall d :: d in log && d.delivery.Durable? ==> !all[|all| - 1].Cursor().IsBefore(d.Cursor()))
            && all[|all| - 1] in log
  {
    var any, all := OfKinds(None), Select(log, IsDurable);
    SeamExact(slots, bucket, log, any);
    SelectSame(log, Both(any, IsDurable), IsDurable);
    SelectSame(Envs(slots), Both(any, IsDurable), IsDurable);
    SelectSorted(log, IsDurable);
    SelectMember(log, IsDurable);
    assert all != [];
    LastIsNewest(all);
    forall d | d in log && d.delivery.Durable? ensures d in all { assert IsDurable.Holds(d); }
  }

  /** No durable in the ring: whatever was accepted is in the store. */
  lemma TipInStore(slots: seq<Slot>, bucket: seq<Envelope>, log: seq<Envelope>)
    requires Seam(slots, bucket, log) && Durables(slots) == []
    ensures forall d :: d in log && d.delivery.Durable? ==> bucket != [] && !bucket[|bucket| - 1].Cursor().IsBefore(d.Cursor())
    ensures bucket != [] ==> bucket[|bucket| - 1] in bucket
  {
    SelectMember(Envs(slots), IsDurable);
    forall d | d in log && d.delivery.Durable? ensures bucket != [] && !bucket[|bucket| - 1].Cursor().IsBefore(d.Cursor()) {
      assert IsDurable.Holds(d);
      assert d !in Envs(slots);
      LastIsNewest(bucket);
    }
  }

  /** With no durable in the ring, every accepted durable is stored. */
  lemma TipFromStore(slots: seq<Slot>, bucket: seq<Envelope>, log: seq<Envelope>)
    requires Seam(slots, bucket, log) && Durables(slots) == []
    requires forall e :: e in bucket ==> e in log && e.delivery.Durable?
    ensures Select(log, IsDurable) == bucket
  {
    SelectMember(log, IsDurable);
    SelectSorted(log, IsDurable);
    SelectMember(Envs(slots), IsDurable);
    SortedUnique(Select(log, IsDurable), bucket);
  }

  // ---------------------------------------------------------------- catch-up pages

  function SortByCursor(s: seq<Envelope>): seq<Envelope> {
    if s == [] then [] else Sink.Insert(SortByCursor(s[..|s| - 1]), s[|s| - 1])
  }

  /** Drop an event that repeats its predecessor's id. */
  function Dedup(s: seq<Envelope>): (r: seq<Envelope>)
    ensures s != [] ==> r != []
  {
    if |s| < 2 then s
    else
      var rest := Dedup(s[..|s| - 1]);
      if s[|s| - 1].eventId == rest[|rest| - 1].eventId then rest else rest + [s[|s| - 1]]
  }

  lemma {:induction false} SortOfSorted(s: seq<Envelope>)
    requires Sorted(s)
    ensures SortByCursor(s) == s
  {
    if s != [] {
      SortedFront(s);
      SortOfSorted(s[..|s| - 1]);
      assert s == s[..|s| - 1] + [s[|s| - 1]];
    }
  }

  lemma {:induction false} DedupOfDistinct(s: seq<Envelope>)
    requires DistinctIds(s)
    ensures Dedup(s) == s
  {
    if |s| >= 2 {
      DedupOfDistinct(s[..|s| - 1]);
      assert s == s[..|s| - 1] + [s[|s| - 1]];
    }
  }

  /** A page of the store cut at the ring's oldest, then at the limit, is the store leg cut
      at the limit: rows beyond the page could not have made the cut. */
  lemma PagedDeepLeg(bucket: seq<Envelope>, from: Option<Cursor>, oldest: Option<Cursor>, recent: seq<Envelope>, limit: nat)
    requires Sorted(bucket)
    ensures FirstN(Select(Sink.Page(bucket, from, limit), Both(BeforeGate(oldest), AfterGate(from))) + recent, limit)
            == FirstN(Select(bucket, Both(AfterGate(from), BeforeGate(oldest))) + recent, limit)
  {
    RowsAreAfter(bucket, from, oldest, limit);
    SelectSorted(bucket, AfterGate(from));
    SelectTwice(bucket, AfterGate(from), BeforeGate(oldest));
    PageCut(Select(bucket, AfterGate(from)), oldest, limit);
    FirstNTwice(Select(Select(bucket, AfterGate(from)), BeforeGate(oldest)), recent, limit);
  }

  /** Re-checking the cursor on rows of a page that starts after it changes nothing. */
  lemma RowsAreAfter(bucket: seq<Envelope>, from: Option<Cursor>, oldest: Option<Cursor>, limit: nat)
    ensures Select(Sink.Page(bucket, from, limit), Both(BeforeGate(oldest), AfterGate(from)))
            == Select(FirstN(Select(bucket, AfterGate(from)), limit), BeforeGate(oldest))
  {
    var after := Select(bucket, AfterGate(from));
    var page := FirstN(after, limit);
    SelectMember(bucket, AfterGate(from));
    forall e | e in page ensures Both(BeforeGate(oldest), AfterGate(from)).Holds(e) <==> BeforeGate(oldest).Holds(e) {
      assert e in after && AfterGate(from).Holds(e);
    }
    SelectSame(page, Both(BeforeGate(oldest), AfterGate(from)), BeforeGate(oldest));
  }

  lemma PageCut(after: seq<Envelope>, oldest: Option<Cursor>, limit: nat)
    requires Sorted(after)
    ensures Select(FirstN(after, limit), BeforeGate(oldest)) == FirstN(Select(after, BeforeGate(oldest)), limit)
  {
    var page, deep := FirstN(after, limit), Select(after, BeforeGate(oldest));
    SelectBeforeIsPrefix(after, oldest);
    SelectMember(after, BeforeGate(oldest));
    var k := if |deep| <= |page| then |deep| else |page|;
    assert forall i :: 0 <= i < |page| ==> page[i] == after[i];
    forall i | 0 <= i < k ensures BeforeGate(oldest).Holds(page[i]) {
      assert deep[i] in deep;
    }
    SelectPrefix(page, BeforeGate(oldest), k);
  }

  lemma FirstNTwice(a: seq<Envelope>, b: seq<Envelope>, n: nat)
    ensures FirstN(FirstN(a, n) + b, n) == FirstN(a + b, n)
  {
  }

  /** A bounded catch-up page for a lagged subscriber: the first `limit` events after the
      cursor among the durables that left the ring and the ring's own entries. */
  method ResumeFromCursor(slots: seq<Slot>, bucket: seq<Envelope>, from: Option<Cursor>, limit: nat, ghost log: seq<Envelope>)
    returns (out: seq<Envelope>)
    requires Seam(slots, bucket, log) && DistinctIds(log)
    ensures var n := if limit >= 1 then limit else 1;
            out == FirstN(Select(bucket, Both(AfterGate(from), BeforeGate(Oldest(slots)))) + Select(Envs(slots), AfterGate(from)), n)
    ensures var n := if limit >= 1 then limit else 1;
            |out| < n ==> Select(out, IsDurable) == Select(log, Both(AfterGate(from), IsDurable))
  {
    var n := if limit >= 1 then limit else 1;
    var recent := Select(Envs(slots), AfterGate(from));
    var deep := Sink.Page(bucket, from, n);
    var kept := Select(deep, Both(BeforeGate(Oldest(slots)), AfterGate(from)));
    var merged := kept + recent;
    MergedInOrder(slots, bucket, from, n, log);
    SortOfSorted(merged);
    DedupOfDistinct(merged);
    out := FirstN(Dedup(SortByCursor(merged)), n);
    PagedDeepLeg(bucket, from, Oldest(slots), recent, n);
    ghost var whole := Select(bucket, Both(AfterGate(from), BeforeGate(Oldest(slots)))) + recent;
    if |out| < n {
      assert out == whole;
      CatchUpDurables(slots, bucket, log, from);
    }
  }

  lemma CatchUpDurables(slots: seq<Slot>, bucket: seq<Envelope>, log: seq<Envelope>, from: Option<Cursor>)
    requires Seam(slots, bucket, log)
    ensures Select(Select(bucket, Both(AfterGate(from), BeforeGate(Oldest(slots)))) + Select(Envs(slots), AfterGate(from)), IsDurable)
            == Select(log, Both(AfterGate(from), IsDurable))
  {
    var a, b := Select(bucket, Both(AfterGate(from), BeforeGate(Oldest(slots)))), Select(Envs(slots), AfterGate(from));
    SelectAppend(a, b, IsDurable);
    SelectMember(bucket, Both(AfterGate(from), BeforeGate(Oldest(slots))));
    forall e | e in a ensures e.delivery.Durable? {
      assert Both(AfterGate(from), BeforeGate(Oldest(slots))).Holds(e);
      assert BeforeGate(Oldest(slots)).Holds(e);
    }
    SelectAll(a, IsDurable);
    SelectTwice(Envs(slots), AfterGate(from), IsDurable);
    SeamExact(slots, bucket, log, AfterGate(from));
  }

  lemma MergedInOrder(slots: seq<Slot>, bucket: seq<Envelope>, from: Option<Cursor>, n: nat, log: seq<Envelope>)
    requires Seam(slots, bucket, log) && DistinctIds(log)
    ensures var merged := Select(Sink.Page(bucket, from, n), Both(BeforeGate(Oldest(slots)), AfterGate(from)))
                          + Select(Envs(slots), AfterGate(from));
            Sorted(merged) && DistinctIds(merged)
  {
    var page, cut := Sink.Page(bucket, from, n), Both(BeforeGate(Oldest(slots)), AfterGate(from));
    var a, b := Select(page, cut), Select(Envs(slots), AfterGate(from));
    SelectMember(bucket, AfterGate(from));
    SelectSorted(bucket, AfterGate(from));
    var after := Select(bucket, AfterGate(from));
    assert forall i :: 0 <= i < |page| ==> page[i] == after[i];
    SelectSorted(page, cut);
    SelectMember(page, cut);
    SelectSorted(Envs(slots), AfterGate(from));
    SelectMember(Envs(slots), AfterGate(from));
    OldestFirst(slots);
    forall e | e in a ensures e in log && BeforeGate(Oldest(slots)).Holds(e) {
      assert cut.Holds(e) && e in page && e in after && e in bucket;
      assert BeforeGate(Oldest(slots)).Holds(e);
    }
    forall x, y | x in a && y in b ensures x.Cursor().IsBefore(y.Cursor()) {
      assert y in Envs(slots);
    }
    SortedAppend(a, b);
    forall x, y | x in a + b && y in a + b && x.eventId == y.eventId ensures x == y {
      SameIdSame(log, x, y);
    }
    Sink.SortedSameIdsDistinct(a + b);
  }
}
