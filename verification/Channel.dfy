/** What one channel's ring, its sink bucket and its log of accepted events owe each other,
    and that pushing, storing and confirming an event keep it. */
module Channel {
  import opened Envelopes
  import opened Selection
  import opened Ring
  import Sink

  /** Every durable event that left the ring precedes everything still in it. */
  ghost predicate Ordered(slots: seq<Slot>, log: seq<Envelope>) {
    && Sorted(Envs(slots))
    && forall d, x :: d in log && d.delivery.Durable? && d !in Envs(slots) && x in Envs(slots)
         ==> d.Cursor().IsBefore(x.Cursor())
  }

  ghost predicate Backed(slots: seq<Slot>, bucket: seq<Envelope>) {
    forall i :: 0 <= i < |slots| && slots[i].env.delivery.Durable? && !slots[i].pinned ==> slots[i].env in bucket
  }

  ghost predicate Covered(slots: seq<Slot>, bucket: seq<Envelope>, log: seq<Envelope>) {
    && (forall e :: e in Envs(slots) ==> e in log)
    && (forall e :: e in bucket ==> e in log)
    && (forall e :: e in log && e.delivery.Durable? ==> e in Envs(slots) || e in bucket)
  }

  ghost predicate ChannelOk(slots: seq<Slot>, bucket: seq<Envelope>, log: seq<Envelope>) {
    && WellPinned(slots)
    && DistinctIds(Envs(slots))
    && Backed(slots, bucket)
    && Covered(slots, bucket, log)
    && (Sorted(log) ==> Ordered(slots, log))
  }

  lemma EvictOk(slots: seq<Slot>, bucket: seq<Envelope>, log: seq<Envelope>, capacity: nat, byteBudget: nat)
    requires ChannelOk(slots, bucket, log) && capacity >= 1
    ensures ChannelOk(Evict(slots, capacity, byteBudget), bucket, log)
  {
    var r := Evict(slots, capacity, byteBudget);
    EvictExact(slots, capacity, byteBudget);
    EvictSubset(slots, capacity, byteBudget);
    SubsetEnvs(r, slots);
    forall i | 0 <= i < |r| && r[i].env.delivery.Durable? && !r[i].pinned ensures r[i].env in bucket {
      assert r[i] in slots;
    }
    forall e | e in log && e.delivery.Durable? ensures e in Envs(r) || e in bucket {
      if e in Envs(slots) && e !in Envs(r) {
        EvictedDurable(slots, capacity, byteBudget, e);
        var i :| 0 <= i < |slots| && slots[i] == Slot(e, false);
      }
    }
    if Sorted(log) {
      forall d, x | d in log && d.delivery.Durable? && d !in Envs(r) && x in Envs(r)
        ensures d.Cursor().IsBefore(x.Cursor())
      {
        if d in Envs(slots) { EvictedDurable(slots, capacity, byteBudget, d); }
      }
    }
  }

  lemma LogFront(log: seq<Envelope>, e: Envelope)
    ensures DistinctIds(log + [e]) ==> DistinctIds(log) && forall x :: x in log ==> x.eventId != e.eventId
    ensures Sorted(log + [e]) ==> Sorted(log) && forall x :: x in log ==> x.Cursor().IsBefore(e.Cursor())
  {
    var l := log + [e];
    assert forall i :: 0 <= i < |log| ==> l[i] == log[i];
    assert l[|log|] == e;
  }

  /** Accepting a fresh event into the ring keeps the channel in order. */
  lemma PushOk(slots: seq<Slot>, bucket: seq<Envelope>, log: seq<Envelope>, e: Envelope, capacity: nat, byteBudget: nat)
    requires ChannelOk(slots, bucket, log) && DistinctIds(log + [e]) && capacity >= 1
    ensures ChannelOk(Pushed(slots, e, capacity, byteBudget), bucket, log + [e])
  {
    var t := slots + [Slot(e, e.delivery.Durable?)];
    LogFront(log, e);
    assert Envs(t) == Envs(slots) + [e];
    forall i, j | 0 <= i < j < |Envs(t)| ensures Envs(t)[i].eventId != Envs(t)[j].eventId {
      if j == |slots| { assert Envs(t)[i] in Envs(slots); }
    }
    if Sorted(log + [e]) {
      SortedAppend(Envs(slots), [e]);
    }
    assert Covered(t, bucket, log + [e]);
    EvictOk(t, bucket, log + [e], capacity, byteBudget);
  }

  /** Storing an accepted event keeps the channel in order, and the event is then stored. */
  lemma AppendOk(slots: seq<Slot>, bucket: seq<Envelope>, log: seq<Envelope>, e: Envelope)
    requires ChannelOk(slots, bucket, log) && DistinctIds(log) && Sink.BucketValid(bucket)
    requires e in log
    ensures ChannelOk(slots, Sink.Appended(bucket, e), log)
    ensures e in Sink.Appended(bucket, e)
  {
    Sink.AppendedValid(bucket, e);
    if Sink.HasId(bucket, e.eventId) {
      var i :| 0 <= i < |bucket| && bucket[i].eventId == e.eventId;
      assert bucket[i] in bucket;
      SameIdSame(log, bucket[i], e);
    }
  }

  lemma SameIdSame(log: seq<Envelope>, x: Envelope, y: Envelope)
    requires DistinctIds(log) && x in log && y in log && x.eventId == y.eventId
    ensures x == y
  {
    var i :| 0 <= i < |log| && log[i] == x;
    var j :| 0 <= j < |log| && log[j] == y;
  }

  /** Unpinning a stored event keeps the channel in order. */
  lemma MarkOk(slots: seq<Slot>, bucket: seq<Envelope>, log: seq<Envelope>, e: Envelope, capacity: nat, byteBudget: nat)
    requires ChannelOk(slots, bucket, log) && DistinctIds(log) && capacity >= 1
    requires e in bucket
    ensures ChannelOk(Marked(slots, e.eventId, capacity, byteBudget), bucket, log)
  {
    var t := Unpin(slots, e.eventId);
    UnpinShape(slots, e.eventId);
    EnvsMember(slots);
    forall i | 0 <= i < |t| && t[i].env.delivery.Durable? && !t[i].pinned ensures t[i].env in bucket {
      if slots[i].env.eventId == e.eventId {
        SameIdSame(log, slots[i].env, e);
      }
    }
    EvictOk(t, bucket, log, capacity, byteBudget);
  }

  // ---------------------------------------------------------------- the replay seam

  /** A ring snapshot and a later read of the store fit together: the stored rows before
      the ring's oldest entry are exactly the durables that have left the ring. */
  ghost predicate Seam(slots: seq<Slot>, bucket: seq<Envelope>, log: seq<Envelope>) {
    && Sorted(log) && Sorted(bucket) && Sorted(Envs(slots))
    && (forall e :: e in Envs(slots) ==> e in log)
    && (forall e :: e in bucket && BeforeGate(Oldest(slots)).Holds(e)
          <==> e in log && e.delivery.Durable? && e !in Envs(slots))
  }

  lemma SeamNow(slots: seq<Slot>, bucket: seq<Envelope>, log: seq<Envelope>)
    requires ChannelOk(slots, bucket, log) && Sorted(log) && Sorted(bucket)
    requires forall e :: e in bucket ==> e.delivery.Durable?
    ensures Seam(slots, bucket, log)
  {
    OldestFirst(slots);
  }

  lemma SortedIndex(s: seq<Envelope>, i: nat, k: nat)
    requires Sorted(s) && i < |s| && k < |s| && s[i].Cursor().IsBefore(s[k].Cursor())
    ensures i < k
  {
  }

  /** The store may be read at any later time: whatever was accepted and stored since the
      snapshot lies at or after the ring's oldest entry. */
  lemma SeamLater(slots: seq<Slot>, bucket: seq<Envelope>, log: seq<Envelope>, bucket': seq<Envelope>, log': seq<Envelope>)
    requires Seam(slots, bucket, log) && slots != []
    requires log <= log' && Sorted(log') && Sorted(bucket')
    requires forall e :: e in bucket ==> e in bucket'
    requires forall e :: e in bucket' ==> e in log' && e.delivery.Durable?
    requires forall e :: e in log && e.delivery.Durable? ==> e in Envs(slots) || e in bucket
    ensures Seam(slots, bucket', log)
  {
    OldestFirst(slots);
    var x := slots[0].env;
    assert x in log;
    forall e | e in bucket' && BeforeGate(Oldest(slots)).Holds(e) ensures e in log && e !in Envs(slots) {
      var k :| 0 <= k < |log| && log[k] == x;
      var i :| 0 <= i < |log'| && log'[i] == e;
      assert log'[k] == x;
      SortedIndex(log', i, k);
      assert log[i] == e;
    }
  }

  /** No gap and no repeat at the seam: for any selection, the stored rows before the ring
      followed by the ring's durables are exactly the accepted durables, in order. */
  lemma SeamExact(slots: seq<Slot>, bucket: seq<Envelope>, log: seq<Envelope>, p: Pred)
    requires Seam(slots, bucket, log)
    ensures Select(bucket, Both(p, BeforeGate(Oldest(slots)))) + Select(Envs(slots), Both(p, IsDurable))
            == Select(log, Both(p, IsDurable))
  {
    var deep, near := Both(p, BeforeGate(Oldest(slots))), Both(p, IsDurable);
    var a, b, whole := Select(bucket, deep), Select(Envs(slots), near), Select(log, near);
    SelectMember(bucket, deep);
    SelectMember(Envs(slots), near);
    SelectMember(log, near);
    forall e ensures e in a + b <==> e in whole {
      assert deep.Holds(e) <==> p.Holds(e) && BeforeGate(Oldest(slots)).Holds(e);
      assert near.Holds(e) <==> p.Holds(e) && e.delivery.Durable?;
    }
    SelectSorted(bucket, deep);
    SelectSorted(Envs(slots), near);
    SelectSorted(log, near);
    forall x, y | x in a && y in b ensures x.Cursor().IsBefore(y.Cursor()) {
      OldestFirst(slots);
    }
    SortedAppend(a, b);
    SortedUnique(a + b, whole);
  }

  /** A sorted part that everything else follows is a prefix. */
  lemma {:induction false} SortedPrefix(part: seq<Envelope>, whole: seq<Envelope>)
    requires Sorted(part) && Sorted(whole) && forall e :: e in part ==> e in whole
    requires forall x, y :: x in whole && x !in part && y in part ==> y.Cursor().IsBefore(x.Cursor())
    ensures part <= whole && forall e :: e in whole[|part|..] ==> e !in part
  {
    if whole == [] {
      SortedUnique(part, whole);
    } else {
      var front, last := whole[..|whole| - 1], whole[|whole| - 1];
      SortedFront(whole);
      if last in part {
        forall e | e in whole ensures e in part {
          if e != last { assert e in front && e.Cursor().IsBefore(last.Cursor()); }
        }
        SortedUnique(part, whole);
      } else {
        SortedPrefix(part, front);
        assert whole[|part|..] == front[|part|..] + [last];
      }
    }
  }

  /** When the ring held nothing, a later read of the store starts with exactly the durables
      accepted before the snapshot; whatever follows was accepted since. */
  lemma StoreExtends(log: seq<Envelope>, log': seq<Envelope>, bucket': seq<Envelope>, p: Pred)
    requires log <= log' && Sorted(log') && Sorted(bucket')
    requires forall e :: e in bucket' ==> e in log' && e.delivery.Durable?
    requires forall e :: e in log && e.delivery.Durable? ==> e in bucket'
    ensures var want, got := Select(log, Both(p, IsDurable)), Select(bucket', p);
            want <= got && forall e :: e in got[|want|..] ==> e !in log
  {
    var want, got := Select(log, Both(p, IsDurable)), Select(bucket', p);
    assert log' == log + log'[|log|..];
    SortedAppended(log, log'[|log|..]);
    SelectMember(log, Both(p, IsDurable));
    SelectMember(bucket', p);
    forall e ensures e in want <==> e in log && p.Holds(e) && e.delivery.Durable? {
      assert Both(p, IsDurable).Holds(e) <==> p.Holds(e) && IsDurable.Holds(e);
    }
    SelectSorted(log, Both(p, IsDurable));
    SelectSorted(bucket', p);
    SortedPrefix(want, got);
    forall e | e in got[|want|..] ensures e !in log { assert e in got; }
  }

  lemma SortedAppended(a: seq<Envelope>, b: seq<Envelope>)
    requires Sorted(a + b)
    ensures Sorted(a) && forall x, y :: x in a && y in b ==> x.Cursor().IsBefore(y.Cursor())
  {
    var s := a + b;
    assert forall i :: 0 <= i < |a| ==> s[i] == a[i];
    forall x, y | x in a && y in b ensures x.Cursor().IsBefore(y.Cursor()) {
      var i :| 0 <= i < |a| && a[i] == x;
      var j :| 0 <= j < |b| && b[j] == y;
      assert s[i].Cursor().IsBefore(s[|a| + j].Cursor());
    }
  }

  lemma OldestFirst(slots: seq<Slot>)
    requires Sorted(Envs(slots))
    ensures forall e :: e in Envs(slots) ==>
              slots != [] && (e == slots[0].env || slots[0].env.Cursor().IsBefore(e.Cursor()))
              && !BeforeGate(Oldest(slots)).Holds(e)
    ensures slots != [] ==> slots[0].env in Envs(slots)
  {
    var s := Envs(slots);
    forall e | e in s ensures slots != [] && (e == slots[0].env || slots[0].env.Cursor().IsBefore(e.Cursor())) {
      var i :| 0 <= i < |s| && s[i] == e;
      if i > 0 { assert s[0].Cursor().IsBefore(s[i].Cursor()); }
    }
    if slots != [] { assert s[0] in s; }
  }
}
