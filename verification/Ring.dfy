/** The per-channel hot ring: a recent-event cache bounded by entry count and by retained
    bytes, in which an unpersisted durable event is pinned and may not be evicted. */
module Ring {
  import opened Options
  import opened Envelopes
  import opened Selection

  datatype Slot = Slot(env: Envelope, pinned: bool)

  // ---------------------------------------------------------------- retained bytes

  ghost function HeaderBytes(h: Headers): nat {
    if h == map[] then 0
    else
      var k :| k in h;
      |k| + |h[k]| + HeaderBytes(h - {k})
  }

  /** The sum does not depend on the order in which the headers are visited. */
  lemma {:induction false} HeaderBytesPick(h: Headers, k: string)
    requires k in h
    ensures HeaderBytes(h) == |k| + |h[k]| + HeaderBytes(h - {k})
    decreases |h|
  {
    var p :| p in h && HeaderBytes(h) == |p| + |h[p]| + HeaderBytes(h - {p});
    if p != k {
      HeaderBytesPick(h - {p}, k);
      HeaderBytesPick(h - {k}, p);
      assert h - {p} - {k} == h - {k} - {p};
    }
  }

  ghost function RetainedBytes(env: Envelope): nat {
    |env.payload| + HeaderBytes(env.headers) + if env.coalesceKey.Some? then |env.coalesceKey.value| else 0
  }

  method CountRetainedBytes(env: Envelope) returns (n: nat)
    ensures n == RetainedBytes(env)
  {
    n := |env.payload|;
    var rest := env.headers;
    while rest != map[]
      invariant n + HeaderBytes(rest) == |env.payload| + HeaderBytes(env.headers)
      decreases |rest|
    {
      var k :| k in rest;
      HeaderBytesPick(rest, k);
      n := n + |k| + |rest[k]|;
      rest := rest - {k};
    }
    if env.coalesceKey.Some? { n := n + |env.coalesceKey.value|; }
  }

  ghost function TotalBytes(slots: seq<Slot>): nat {
    if slots == [] then 0 else TotalBytes(slots[..|slots| - 1]) + RetainedBytes(slots[|slots| - 1].env)
  }

  lemma {:induction false} TotalBytesRemove(slots: seq<Slot>, i: nat)
    requires i < |slots|
    ensures TotalBytes(slots) == TotalBytes(RemoveAt(slots, i)) + RetainedBytes(slots[i].env)
  {
    var n := |slots| - 1;
    if i == n {
      assert RemoveAt(slots, i) == slots[..n];
    } else {
      TotalBytesRemove(slots[..n], i);
      assert RemoveAt(slots, i)[..n - 1] == RemoveAt(slots[..n], i);
    }
  }

  // ---------------------------------------------------------------- slots and views

  function RemoveAt(slots: seq<Slot>, i: nat): (r: seq<Slot>)
    requires i < |slots|
  {
    slots[..i] + slots[i + 1..]
  }

  function Envs(slots: seq<Slot>): seq<Envelope> {
    seq(|slots|, i requires 0 <= i < |slots| => slots[i].env)
  }

  /** The pinned events, oldest first. */
  function PinnedEnvs(slots: seq<Slot>): seq<Envelope> {
    if slots == [] then []
    else
      var rest := PinnedEnvs(slots[..|slots| - 1]);
      if slots[|slots| - 1].pinned then rest + [slots[|slots| - 1].env] else rest
  }

  ghost function Durables(slots: seq<Slot>): seq<Envelope> {
    Select(Envs(slots), IsDurable)
  }

  /** Only durable entries are ever pinned. */
  ghost predicate WellPinned(slots: seq<Slot>) {
    forall i :: 0 <= i < |slots| && slots[i].pinned ==> slots[i].env.delivery.Durable?
  }

  lemma {:induction false} PinnedAppend(a: seq<Slot>, b: seq<Slot>)
    ensures PinnedEnvs(a + b) == PinnedEnvs(a) + PinnedEnvs(b)
    decreases |b|
  {
    if b == [] {
      assert a + b == a;
    } else {
      PinnedAppend(a, b[..|b| - 1]);
      assert (a + b)[..|a + b| - 1] == a + b[..|b| - 1];
    }
  }

  lemma {:induction false} PinnedMember(slots: seq<Slot>)
    ensures forall e :: e in PinnedEnvs(slots) <==> exists i :: 0 <= i < |slots| && slots[i].pinned && slots[i].env == e
    ensures |PinnedEnvs(slots)| <= |slots|
  {
    if slots != [] {
      PinnedMember(slots[..|slots| - 1]);
    }
  }

  lemma ViewsAppend(a: seq<Slot>, b: seq<Slot>)
    ensures Envs(a + b) == Envs(a) + Envs(b)
    ensures PinnedEnvs(a + b) == PinnedEnvs(a) + PinnedEnvs(b)
    ensures Durables(a + b) == Durables(a) + Durables(b)
  {
    assert Envs(a + b) == Envs(a) + Envs(b);
    PinnedAppend(a, b);
    SelectAppend(Envs(a), Envs(b), IsDurable);
  }

  /** Splitting a ring around one slot. */
  lemma SplitAt(slots: seq<Slot>, i: nat)
    requires i < |slots|
    ensures var a, v, b := slots[..i], [slots[i]], slots[i + 1..];
            && Envs(slots) == Envs(a) + Envs(v) + Envs(b)
            && Envs(RemoveAt(slots, i)) == Envs(a) + Envs(b)
            && PinnedEnvs(slots) == PinnedEnvs(a) + PinnedEnvs(v) + PinnedEnvs(b)
            && PinnedEnvs(RemoveAt(slots, i)) == PinnedEnvs(a) + PinnedEnvs(b)
            && Durables(slots) == Durables(a) + Durables(v) + Durables(b)
            && Durables(RemoveAt(slots, i)) == Durables(a) + Durables(b)
  {
    var a, v, b := slots[..i], [slots[i]], slots[i + 1..];
    assert slots == (a + v) + b;
    ViewsAppend(a, v);
    ViewsAppend(a + v, b);
    ViewsAppend(a, b);
  }

  lemma EnvsMember(slots: seq<Slot>)
    ensures forall e :: e in Envs(slots) <==> exists i :: 0 <= i < |slots| && slots[i].env == e
  {
    forall i | 0 <= i < |slots| ensures Envs(slots)[i] in Envs(slots) && Envs(slots)[i] == slots[i].env {
    }
  }

  // ---------------------------------------------------------------- eviction

  ghost predicate OverBounds(slots: seq<Slot>, capacity: nat, byteBudget: nat) {
    |slots| > capacity || (|slots| > 1 && TotalBytes(slots) > byteBudget)
  }

  /** Index of the first entry that is not durable, or the length when there is none. */
  function FirstLossy(slots: seq<Slot>): (k: nat)
    ensures k <= |slots|
    ensures forall i :: 0 <= i < k ==> slots[i].env.delivery.Durable?
    ensures k < |slots| ==> !slots[k].env.delivery.Durable?
  {
    if slots == [] then 0
    else if !slots[0].env.delivery.Durable? then 0
    else 1 + FirstLossy(slots[1..])
  }

  /** The slot eviction would drop next: an unpinned head, else the oldest lossy entry
      unless that is the newest entry and only the byte budget is exceeded. */
  function Victim(slots: seq<Slot>, capacity: nat): (v: Option<nat>)
    ensures v.Some? ==> v.value < |slots|
  {
    if slots == [] then None
    else if !slots[0].pinned then Some(0)
    else
      var k := FirstLossy(slots);
      if k < |slots| && (k + 1 < |slots| || |slots| > capacity) then Some(k) else None
  }

  ghost function Evict(slots: seq<Slot>, capacity: nat, byteBudget: nat): seq<Slot>
    decreases |slots|
  {
    if OverBounds(slots, capacity, byteBudget) && Victim(slots, capacity).Some?
    then Evict(RemoveAt(slots, Victim(slots, capacity).value), capacity, byteBudget)
    else slots
  }

  ghost function Pushed(slots: seq<Slot>, env: Envelope, capacity: nat, byteBudget: nat): seq<Slot> {
    Evict(slots + [Slot(env, env.delivery.Durable?)], capacity, byteBudget)
  }

  function Unpin(slots: seq<Slot>, id: EventId): (r: seq<Slot>)
    ensures |r| == |slots|
  {
    if slots == [] then []
    else if slots[0].env.eventId == id then [slots[0].(pinned := false)] + slots[1..]
    else [slots[0]] + Unpin(slots[1..], id)
  }

  ghost function Marked(slots: seq<Slot>, id: EventId, capacity: nat, byteBudget: nat): seq<Slot> {
    Evict(Unpin(slots, id), capacity, byteBudget)
  }

  ghost predicate IsSuffix(a: seq<Envelope>, b: seq<Envelope>) {
    |a| <= |b| && a == b[|b| - |a|..]
  }

  /** Within both bounds, or stuck behind a pinned head with no lossy entry left except
      possibly the newest one. */
  ghost predicate Settled(slots: seq<Slot>, capacity: nat, byteBudget: nat) {
    || (|slots| <= capacity && (|slots| <= 1 || TotalBytes(slots) <= byteBudget))
    || (slots != [] && slots[0].pinned && forall i :: 0 <= i < |slots| ==> slots[i].env.delivery.Durable?)
    || (slots != [] && slots[0].pinned && |slots| <= capacity
        && forall i :: 0 <= i < |slots| - 1 ==> slots[i].env.delivery.Durable?)
  }

  /** A victim is never pinned, and is lossy unless it is the head. */
  lemma VictimUnpinned(slots: seq<Slot>, capacity: nat)
    requires WellPinned(slots) && Victim(slots, capacity).Some?
    ensures var v := Victim(slots, capacity).value;
            && !slots[v].pinned && (v == 0 || !slots[v].env.delivery.Durable?)
            && WellPinned(RemoveAt(slots, v))
  {
  }

  lemma SuffixTrans(a: seq<Envelope>, b: seq<Envelope>, c: seq<Envelope>)
    requires IsSuffix(a, b) && IsSuffix(b, c)
    ensures IsSuffix(a, c)
  {
  }

  /** One eviction loses no pinned entry and at most the oldest durable. */
  lemma {:induction false} EvictOne(slots: seq<Slot>, v: nat)
    requires v < |slots| && !slots[v].pinned && (v == 0 || !slots[v].env.delivery.Durable?)
    ensures PinnedEnvs(RemoveAt(slots, v)) == PinnedEnvs(slots)
    ensures IsSuffix(Durables(RemoveAt(slots, v)), Durables(slots))
  {
    SplitAt(slots, v);
    assert PinnedEnvs([slots[v]]) == [];
    if v == 0 {
      assert Durables(slots[..0]) == [];
    } else {
      assert Select([slots[v].env], IsDurable) == [];
      assert Envs([slots[v]]) == [slots[v].env];
    }
  }

  lemma StuckIsSettled(slots: seq<Slot>, capacity: nat, byteBudget: nat)
    requires !OverBounds(slots, capacity, byteBudget) || Victim(slots, capacity).None?
    ensures Settled(slots, capacity, byteBudget)
  {
  }

  /** Eviction keeps every pinned entry and a complete suffix of the durables. */
  lemma {:induction false} EvictKeeps(slots: seq<Slot>, capacity: nat, byteBudget: nat)
    requires WellPinned(slots)
    ensures var r := Evict(slots, capacity, byteBudget);
            WellPinned(r) && PinnedEnvs(r) == PinnedEnvs(slots) && IsSuffix(Durables(r), Durables(slots))
    decreases |slots|
  {
    if OverBounds(slots, capacity, byteBudget) && Victim(slots, capacity).Some? {
      var t := RemoveAt(slots, Victim(slots, capacity).value);
      VictimUnpinned(slots, capacity);
      EvictOne(slots, Victim(slots, capacity).value);
      EvictKeeps(t, capacity, byteBudget);
      SuffixTrans(Durables(Evict(t, capacity, byteBudget)), Durables(t), Durables(slots));
    }
  }

  /** Eviction stops only when nothing more may go, and never empties a ring. */
  lemma {:induction false} EvictSettles(slots: seq<Slot>, capacity: nat, byteBudget: nat)
    requires capacity >= 1
    ensures Settled(Evict(slots, capacity, byteBudget), capacity, byteBudget)
    ensures slots != [] ==> Evict(slots, capacity, byteBudget) != []
    decreases |slots|
  {
    if OverBounds(slots, capacity, byteBudget) && Victim(slots, capacity).Some? {
      EvictSettles(RemoveAt(slots, Victim(slots, capacity).value), capacity, byteBudget);
    } else {
      StuckIsSettled(slots, capacity, byteBudget);
    }
  }

  /** What one eviction pass keeps: every pinned entry, a complete suffix of the durables,
      and at least one entry; and it stops only when nothing more may go. */
  lemma EvictExact(slots: seq<Slot>, capacity: nat, byteBudget: nat)
    requires WellPinned(slots) && capacity >= 1
    ensures var r := Evict(slots, capacity, byteBudget);
            && WellPinned(r)
            && PinnedEnvs(r) == PinnedEnvs(slots)
            && IsSuffix(Durables(r), Durables(slots))
            && (slots != [] ==> r != [])
            && Settled(r, capacity, byteBudget)
  {
    EvictKeeps(slots, capacity, byteBudget);
    EvictSettles(slots, capacity, byteBudget);
  }

  /** A ring within its count and its bytes loses nothing to an eviction pass. */
  lemma EvictWithinBounds(slots: seq<Slot>, capacity: nat, byteBudget: nat)
    requires |slots| <= capacity && (|slots| <= 1 || TotalBytes(slots) <= byteBudget)
    ensures Evict(slots, capacity, byteBudget) == slots
  {
  }

  /** Entry `i` is the one the rules give up next: an unpinned head, or behind a pinned head
      the oldest lossy entry, the newest entry only under count pressure. */
  ghost predicate GivesUp(t: seq<Slot>, i: nat, capacity: nat) {
    && i < |t|
    && (i > 0 ==> t[0].pinned)
    && (t[0].pinned ==>
          && t[i].env.delivery != Durable && (forall k :: 0 <= k < i ==> t[k].env.delivery == Durable)
          && (i < |t| - 1 || |t| > capacity))
  }

  /** Entry `i` of `t` leaves: `t` is above its count, or above its bytes with more than one
      entry held, the entry is the one given up, and `next` is what stays. */
  ghost predicate Leaves(t: seq<Slot>, i: nat, next: seq<Slot>, capacity: nat, byteBudget: nat) {
    && (|t| > capacity || (|t| > 1 && TotalBytes(t) > byteBudget))
    && GivesUp(t, i, capacity)
    && next == t[..i] + t[i + 1..]
  }

  lemma VictimLeaves(slots: seq<Slot>, capacity: nat, byteBudget: nat)
    requires Victim(slots, capacity).Some? && OverBounds(slots, capacity, byteBudget)
    ensures var v := Victim(slots, capacity).value; Leaves(slots, v, RemoveAt(slots, v), capacity, byteBudget)
  {
  }

  /** An eviction pass, entry by entry: whatever left, left a ring that was over a bound, and
      was the entry the rules give up. */
  lemma {:induction false} EvictTrace(slots: seq<Slot>, capacity: nat, byteBudget: nat) returns (trace: seq<seq<Slot>>, at: seq<nat>)
    ensures |trace| == |at| + 1 && trace[0] == slots && trace[|at|] == Evict(slots, capacity, byteBudget)
    ensures forall n :: 0 <= n < |at| ==> Leaves(trace[n], at[n], trace[n + 1], capacity, byteBudget)
    decreases |slots|
  {
    trace, at := [slots], [];
    if OverBounds(slots, capacity, byteBudget) && Victim(slots, capacity).Some? {
      var v := Victim(slots, capacity).value;
      VictimLeaves(slots, capacity, byteBudget);
      var rest, later := EvictTrace(RemoveAt(slots, v), capacity, byteBudget);
      trace, at := [slots] + rest, [v] + later;
      forall n | 0 <= n < |at| ensures Leaves(trace[n], at[n], trace[n + 1], capacity, byteBudget) {
        if n > 0 { assert Leaves(rest[n - 1], later[n - 1], rest[n], capacity, byteBudget); }
      }
    }
  }

  /** Any such pass that ends settled ends with the same ring. */
  lemma {:induction false} EvictUnique(capacity: nat, byteBudget: nat, trace: seq<seq<Slot>>, at: seq<nat>)
    requires |trace| == |at| + 1 && Settled(trace[|at|], capacity, byteBudget)
    requires forall n :: 0 <= n < |at| ==> Leaves(trace[n], at[n], trace[n + 1], capacity, byteBudget)
    ensures trace[|at|] == Evict(trace[0], capacity, byteBudget)
    decreases |at|
  {
    var slots := trace[0];
    if at != [] {
      assert Leaves(slots, at[0], trace[1], capacity, byteBudget);
      OnlyVictim(slots, at[0], capacity);
      assert trace[1] == RemoveAt(slots, at[0]);
      EvictUnique(capacity, byteBudget, trace[1..], at[1..]);
    } else {
      SettledStops(slots, capacity, byteBudget);
    }
  }

  lemma OnlyVictim(slots: seq<Slot>, i: nat, capacity: nat)
    requires GivesUp(slots, i, capacity)
    ensures Victim(slots, capacity) == Some(i)
  {
    if slots[0].pinned {
      assert FirstLossy(slots) >= i;
    }
  }

  lemma SettledStops(slots: seq<Slot>, capacity: nat, byteBudget: nat)
    requires Settled(slots, capacity, byteBudget)
    ensures Evict(slots, capacity, byteBudget) == slots
  {
    assert FirstLossy(slots) <= |slots|;
  }

  /** With nothing pinned, what stays is the longest run of newest entries within both bounds. */
  lemma {:induction false} EvictUnpinned(slots: seq<Slot>, capacity: nat, byteBudget: nat) returns (k: nat)
    requires capacity >= 1 && forall i :: 0 <= i < |slots| ==> !slots[i].pinned
    ensures k <= |slots| && Evict(slots, capacity, byteBudget) == slots[k..]
    ensures |slots| - k <= capacity && (|slots| - k <= 1 || TotalBytes(slots[k..]) <= byteBudget)
    ensures forall j :: 0 <= j < k ==> |slots[j..]| > capacity || (|slots[j..]| > 1 && TotalBytes(slots[j..]) > byteBudget)
    decreases |slots|
  {
    k := 0;
    if OverBounds(slots, capacity, byteBudget) {
      var t := RemoveAt(slots, 0);
      assert t == slots[1..];
      var m := EvictUnpinned(t, capacity, byteBudget);
      k := m + 1;
      assert t[m..] == slots[k..];
      forall j | 0 <= j < k ensures |slots[j..]| > capacity || (|slots[j..]| > 1 && TotalBytes(slots[j..]) > byteBudget) {
        if j > 0 { assert t[j - 1..] == slots[j..]; } else { assert slots[0..] == slots; }
      }
    } else {
      assert slots[0..] == slots;
    }
  }

  /** A push that fits is an append and a confirmation that fits only unpins. */
  lemma NothingLeavesWithinBounds(slots: seq<Slot>, env: Envelope, id: EventId, capacity: nat, byteBudget: nat)
    ensures |slots| + 1 <= capacity && TotalBytes(slots) + RetainedBytes(env) <= byteBudget ==>
              Pushed(slots, env, capacity, byteBudget) == slots + [Slot(env, env.delivery == Durable)]
    ensures |slots| <= capacity && TotalBytes(slots) <= byteBudget ==>
              Marked(slots, id, capacity, byteBudget) == Unpin(slots, id)
  {
    var t := slots + [Slot(env, env.delivery == Durable)];
    assert t[..|slots|] == slots;
    UnpinShape(slots, id);
    SameBytes(slots, Unpin(slots, id));
  }

  // the bytes counted, on the fields

  lemma BytesOfRing(slots: seq<Slot>, x: Slot, h: Headers, k: string, v: string)
    requires k !in h
    ensures TotalBytes([]) == 0 && TotalBytes(slots + [x]) == TotalBytes(slots) + RetainedBytes(x.env)
    ensures RetainedBytes(x.env) == |x.env.payload| + HeaderBytes(x.env.headers) + match x.env.coalesceKey { case Some(key) => |key| case None => 0 }
    ensures HeaderBytes(map[]) == 0 && HeaderBytes(h[k := v]) == HeaderBytes(h) + |k| + |v|
  {
    assert (slots + [x])[..|slots|] == slots;
    HeaderBytesPick(h[k := v], k);
    assert h[k := v] - {k} == h;
  }

  /** Dropping one entry keeps the order and the distinctness of the rest. */
  lemma RemoveKeepsOrder(slots: seq<Slot>, v: nat)
    requires v < |slots|
    ensures Sorted(Envs(slots)) ==> Sorted(Envs(RemoveAt(slots, v)))
    ensures DistinctIds(Envs(slots)) ==> DistinctIds(Envs(RemoveAt(slots, v)))
    ensures forall x :: x in RemoveAt(slots, v) ==> x in slots
  {
    var s, t := Envs(slots), Envs(RemoveAt(slots, v));
    assert forall i :: 0 <= i < |t| ==> t[i] == s[if i < v then i else i + 1];
  }

  /** Survivors come from the ring, in order and still distinct. */
  lemma {:induction false} EvictSubset(slots: seq<Slot>, capacity: nat, byteBudget: nat)
    ensures var r := Evict(slots, capacity, byteBudget);
            && (forall x :: x in r ==> x in slots)
            && (Sorted(Envs(slots)) ==> Sorted(Envs(r)))
            && (DistinctIds(Envs(slots)) ==> DistinctIds(Envs(r)))
    decreases |slots|
  {
    if OverBounds(slots, capacity, byteBudget) && Victim(slots, capacity).Some? {
      var v := Victim(slots, capacity).value;
      EvictSubset(RemoveAt(slots, v), capacity, byteBudget);
      RemoveKeepsOrder(slots, v);
    }
  }

  lemma SubsetEnvs(r: seq<Slot>, slots: seq<Slot>)
    requires forall x :: x in r ==> x in slots
    ensures forall e :: e in Envs(r) ==> e in Envs(slots)
  {
    EnvsMember(slots);
    forall e | e in Envs(r) ensures e in Envs(slots) {
      var i :| 0 <= i < |r| && Envs(r)[i] == e;
      assert r[i] in slots;
    }
  }

  /** In a sorted ring the head precedes the rest. */
  lemma HeadPrecedes(slots: seq<Slot>, x: Envelope)
    requires slots != [] && Sorted(Envs(slots)) && x in Envs(RemoveAt(slots, 0))
    ensures slots[0].env.Cursor().IsBefore(x.Cursor())
  {
    var t := Envs(RemoveAt(slots, 0));
    var k :| 0 <= k < |t| && t[k] == x;
    assert Envs(slots)[0].Cursor().IsBefore(Envs(slots)[k + 1].Cursor());
  }

  lemma RemovedEnv(slots: seq<Slot>, v: nat, e: Envelope)
    requires v < |slots| && e in Envs(slots) && e !in Envs(RemoveAt(slots, v))
    ensures e == slots[v].env
  {
    var t := Envs(RemoveAt(slots, v));
    var k :| 0 <= k < |slots| && Envs(slots)[k] == e;
    assert forall i :: 0 <= i < |slots| && i != v ==> slots[i].env == t[if i < v then i else i - 1];
  }

  /** A durable entry that eviction drops was unpinned, and in a sorted ring it precedes
      every survivor. */
  lemma {:induction false} EvictedDurable(slots: seq<Slot>, capacity: nat, byteBudget: nat, e: Envelope)
    requires WellPinned(slots) && e.delivery.Durable?
    requires e in Envs(slots) && e !in Envs(Evict(slots, capacity, byteBudget))
    ensures Slot(e, false) in slots
    ensures Sorted(Envs(slots)) ==>
              forall x :: x in Envs(Evict(slots, capacity, byteBudget)) ==> e.Cursor().IsBefore(x.Cursor())
    decreases |slots|
  {
    var v := Victim(slots, capacity).value;
    var t := RemoveAt(slots, v);
    VictimUnpinned(slots, capacity);
    RemoveKeepsOrder(slots, v);
    if e in Envs(t) {
      EvictedDurable(t, capacity, byteBudget, e);
    } else {
      RemovedEnv(slots, v, e);
      assert v == 0 && slots[v] == Slot(e, false);
      EvictSubset(t, capacity, byteBudget);
      SubsetEnvs(Evict(t, capacity, byteBudget), t);
      if Sorted(Envs(slots)) {
        forall x | x in Envs(t) ensures e.Cursor().IsBefore(x.Cursor()) { HeadPrecedes(slots, x); }
      }
    }
  }

  /** The durables standing at or behind the first pinned entry. */
  ghost function Floor(slots: seq<Slot>): seq<Envelope> {
    if slots == [] then []
    else if slots[0].pinned then Durables(slots)
    else Floor(slots[1..])
  }

  /** The newest entry is dropped exactly when it is lossy and the durables from the first
      pinned entry on already fill the ring. */
  lemma {:induction false} NewestSurvives(slots: seq<Slot>, newest: Slot, capacity: nat, byteBudget: nat)
    requires WellPinned(slots + [newest]) && capacity >= 1
    ensures var r := Evict(slots + [newest], capacity, byteBudget);
            r != [] && (r[|r| - 1] == newest <==> newest.env.delivery.Durable? || |Floor(slots)| < capacity)
    decreases |slots|
  {
    var t := slots + [newest];
    if OverBounds(t, capacity, byteBudget) && Victim(t, capacity).Some? {
      var v := Victim(t, capacity).value;
      if v < |slots| {
        VictimUnpinned(t, capacity);
        assert WellPinned(slots) by { assert forall i :: 0 <= i < |slots| ==> t[i] == slots[i]; }
        assert RemoveAt(t, v) == RemoveAt(slots, v) + [newest];
        FloorRemove(slots, v);
        NewestSurvives(RemoveAt(slots, v), newest, capacity, byteBudget);
      } else {
        NewestDropped(slots, newest, capacity, byteBudget);
      }
    } else if !newest.env.delivery.Durable? && |Floor(slots)| >= capacity {
      CrowdedIsNotSettled(slots, newest, capacity, byteBudget);
      assert false;
    }
  }

  lemma CrowdedIsNotSettled(slots: seq<Slot>, newest: Slot, capacity: nat, byteBudget: nat)
    requires !newest.env.delivery.Durable? && |Floor(slots)| >= capacity >= 1
    ensures OverBounds(slots + [newest], capacity, byteBudget)
    ensures Victim(slots + [newest], capacity).Some?
  {
    var t := slots + [newest];
    FloorBound(slots);
    assert t[|slots|] == newest;
    assert FirstLossy(t) <= |slots|;
  }

  lemma NewestDropped(slots: seq<Slot>, newest: Slot, capacity: nat, byteBudget: nat)
    requires WellPinned(slots + [newest]) && capacity >= 1
    requires OverBounds(slots + [newest], capacity, byteBudget)
    requires Victim(slots + [newest], capacity) == Some(|slots|)
    ensures !newest.env.delivery.Durable? && |Floor(slots)| >= capacity
    ensures var r := Evict(slots + [newest], capacity, byteBudget); r != [] && r[|r| - 1] != newest
  {
    var t := slots + [newest];
    assert slots != [] && t[0] == slots[0] && slots[0].pinned;
    assert FirstLossy(t) == |slots| && t[|slots|] == newest;
    assert forall i :: 0 <= i < |slots| ==> slots[i] == t[i];
    assert RemoveAt(t, |slots|) == slots;
    EvictSubset(slots, capacity, byteBudget);
    EvictExact(slots, capacity, byteBudget);
    SelectAll(Envs(slots), IsDurable);
    FloorBound(slots);
    var r := Evict(slots, capacity, byteBudget);
    assert r[|r| - 1] in slots;
  }

  lemma {:induction false} FloorBound(slots: seq<Slot>)
    ensures |Floor(slots)| <= |slots|
    ensures slots != [] && slots[0].pinned ==> Floor(slots) == Durables(slots)
  {
    SelectMember(Envs(slots), IsDurable);
    if slots != [] && !slots[0].pinned { FloorBound(slots[1..]); }
  }

  lemma {:induction false} FloorRemove(slots: seq<Slot>, v: nat)
    requires WellPinned(slots) && v < |slots|
    requires (v == 0 && !slots[0].pinned) || (slots[0].pinned && !slots[v].env.delivery.Durable?)
    ensures Floor(RemoveAt(slots, v)) == Floor(slots)
  {
    if v == 0 {
      assert RemoveAt(slots, v) == slots[1..];
    } else {
      SplitAt(slots, v);
      assert Select([slots[v].env], IsDurable) == [];
      assert Envs([slots[v]]) == [slots[v].env];
    }
  }

  // ---------------------------------------------------------------- confirming persistence

  lemma {:induction false} UnpinEach(slots: seq<Slot>, id: EventId, i: nat)
    requires i < |slots|
    ensures Unpin(slots, id)[i].env == slots[i].env && (Unpin(slots, id)[i].pinned ==> slots[i].pinned)
    ensures slots[i].env.eventId != id ==> Unpin(slots, id)[i] == slots[i]
  {
    if i > 0 && slots[0].env.eventId != id { UnpinEach(slots[1..], id, i - 1); }
  }

  /** The first entry with the id is unpinned. */
  lemma {:induction false} UnpinFirst(slots: seq<Slot>, id: EventId, i: nat)
    requires i < |slots| && slots[i].env.eventId == id && forall k :: 0 <= k < i ==> slots[k].env.eventId != id
    ensures !Unpin(slots, id)[i].pinned
  {
    if i > 0 {
      assert slots[0].env.eventId != id;
      UnpinFirst(slots[1..], id, i - 1);
    }
  }

  lemma UnpinShape(slots: seq<Slot>, id: EventId)
    ensures Envs(Unpin(slots, id)) == Envs(slots)
    ensures WellPinned(slots) ==> WellPinned(Unpin(slots, id))
    ensures forall i :: 0 <= i < |slots| ==>
              Unpin(slots, id)[i].env == slots[i].env && (Unpin(slots, id)[i].pinned ==> slots[i].pinned)
    ensures forall i :: 0 <= i < |slots| && slots[i].env.eventId != id ==> Unpin(slots, id)[i] == slots[i]
    ensures DistinctIds(Envs(slots)) ==>
              forall i :: 0 <= i < |slots| && slots[i].env.eventId == id ==> !Unpin(slots, id)[i].pinned
  {
    var r := Unpin(slots, id);
    forall i | 0 <= i < |slots|
      ensures r[i].env == slots[i].env && (r[i].pinned ==> slots[i].pinned)
      ensures slots[i].env.eventId != id ==> r[i] == slots[i]
    {
      UnpinEach(slots, id, i);
    }
    if DistinctIds(Envs(slots)) {
      forall i | 0 <= i < |slots| && slots[i].env.eventId == id ensures !r[i].pinned {
        forall k | 0 <= k < i ensures slots[k].env.eventId != id {
          assert Envs(slots)[k].eventId != Envs(slots)[i].eventId;
        }
        UnpinFirst(slots, id, i);
      }
    }
  }

  lemma {:induction false} UnpinAt(slots: seq<Slot>, id: EventId, i: nat)
    requires i <= |slots| && (i < |slots| ==> slots[i].env.eventId == id)
    requires forall k :: 0 <= k < i ==> slots[k].env.eventId != id
    ensures Unpin(slots, id) == if i < |slots| then slots[i := slots[i].(pinned := false)] else slots
  {
    if i > 0 {
      var rest := slots[1..];
      assert slots == [slots[0]] + rest && slots[0].env.eventId != id;
      UnpinAt(rest, id, i - 1);
      if i < |slots| {
        assert [slots[0]] + rest[i - 1 := rest[i - 1].(pinned := false)] == slots[i := slots[i].(pinned := false)];
      }
    }
  }

  /** Slot `i` is the first with the id. */
  ghost predicate FirstOf(slots: seq<Slot>, i: nat, id: EventId) {
    i < |slots| && slots[i].env.eventId == id && forall k :: 0 <= k < i ==> slots[k].env.eventId != id
  }

  /** The first slot with the id is unpinned and nothing else differs. */
  ghost predicate FirstUnpinned(was: seq<Slot>, now: seq<Slot>, id: EventId) {
    && |now| == |was|
    && forall i :: 0 <= i < |was| ==>
         now[i].env == was[i].env && now[i].pinned == (was[i].pinned && !FirstOf(was, i, id))
  }

  /** A confirmation that fits unpins the first slot with the id and changes nothing else. */
  lemma ConfirmWithinBounds(slots: seq<Slot>, id: EventId, capacity: nat, byteBudget: nat)
    requires |slots| <= capacity && TotalBytes(slots) <= byteBudget
    ensures FirstUnpinned(slots, Marked(slots, id, capacity, byteBudget), id)
  {
    UnpinShape(slots, id);
    SameBytes(slots, Unpin(slots, id));
    EvictWithinBounds(Unpin(slots, id), capacity, byteBudget);
    forall i | 0 <= i < |slots| ensures Unpin(slots, id)[i].pinned == (slots[i].pinned && !FirstOf(slots, i, id)) {
      UnpinnedAt(slots, id, i);
    }
  }

  lemma {:induction false} UnpinnedAt(slots: seq<Slot>, id: EventId, i: nat)
    requires i < |slots|
    ensures Unpin(slots, id)[i].pinned == (slots[i].pinned && !FirstOf(slots, i, id))
  {
    if slots[i].env.eventId != id {
      UnpinEach(slots, id, i);
    } else if k :| 0 <= k < i && slots[k].env.eventId == id {
      UnpinLater(slots, id, k, i);
    } else {
      UnpinFirst(slots, id, i);
    }
  }

  /** Confirming the oldest pinned entry removes exactly it from the pinned list. */
  lemma {:induction false} UnpinOldest(slots: seq<Slot>, id: EventId)
    requires DistinctIds(Envs(slots))
    requires PinnedEnvs(slots) != [] && PinnedEnvs(slots)[0].eventId == id
    ensures PinnedEnvs(Unpin(slots, id)) == PinnedEnvs(slots)[1..]
    decreases |slots|
  {
    var head, rest := slots[..1], slots[1..];
    assert slots == head + rest;
    PinnedAppend(head, rest);
    assert PinnedEnvs(head) == if slots[0].pinned then [slots[0].env] else [];
    if slots[0].pinned {
      PinnedAppend([slots[0].(pinned := false)], rest);
      assert PinnedEnvs([slots[0].(pinned := false)]) == [];
    } else {
      PinnedMember(rest);
      assert PinnedEnvs(slots) == PinnedEnvs(rest);
      assert PinnedEnvs(slots)[0] in PinnedEnvs(rest);
      var i :| 0 <= i < |rest| && rest[i].pinned && rest[i].env == PinnedEnvs(slots)[0];
      assert Envs(slots)[0].eventId != Envs(slots)[i + 1].eventId;
      assert forall i :: 0 <= i < |Envs(rest)| ==> Envs(rest)[i] == Envs(slots)[i + 1];
      UnpinOldest(rest, id);
      PinnedAppend(head, Unpin(rest, id));
      assert Unpin(slots, id) == head + Unpin(rest, id);
    }
  }

  /** A later slot of the same id is left as it was. */
  lemma {:induction false} UnpinLater(slots: seq<Slot>, id: EventId, i: nat, j: nat)
    requires i < j < |slots| && slots[i].env.eventId == id && slots[j].env.eventId == id
    ensures Unpin(slots, id)[j] == slots[j]
  {
    if slots[0].env.eventId != id { UnpinLater(slots[1..], id, i - 1, j - 1); }
  }

  /** A confirmation leaves no slot of its id pinned exactly when no slot of the id after the
      first was pinned. */
  lemma UnpinnedExactlyWhen(slots: seq<Slot>, id: EventId)
    ensures (forall j :: 0 <= j < |slots| && slots[j].env.eventId == id ==> !Unpin(slots, id)[j].pinned) <==>
            (forall i, j :: 0 <= i < j < |slots| && slots[i].env.eventId == id && slots[j].env.eventId == id ==> !slots[j].pinned)
  {
    var r := Unpin(slots, id);
    forall i, j | 0 <= i < j < |slots| && slots[i].env.eventId == id && slots[j].env.eventId == id ensures r[j] == slots[j] {
      UnpinLater(slots, id, i, j);
    }
    if forall i, j :: 0 <= i < j < |slots| && slots[i].env.eventId == id && slots[j].env.eventId == id ==> !slots[j].pinned {
      forall j | 0 <= j < |slots| && slots[j].env.eventId == id ensures !r[j].pinned {
        if forall k :: 0 <= k < j ==> slots[k].env.eventId != id { UnpinFirst(slots, id, j); }
      }
    }
    if forall j :: 0 <= j < |slots| && slots[j].env.eventId == id ==> !r[j].pinned {
      forall i, j | 0 <= i < j < |slots| && slots[i].env.eventId == id && slots[j].env.eventId == id ensures !slots[j].pinned {
        assert !r[j].pinned;
      }
    }
  }

  /** A second confirmation of the same id changes nothing: were an id to occupy two slots,
      the later one would stay pinned whatever the writer confirms. */
  lemma {:induction false} UnpinTwice(slots: seq<Slot>, id: EventId)
    ensures Unpin(Unpin(slots, id), id) == Unpin(slots, id)
  {
    if slots != [] && slots[0].env.eventId != id { UnpinTwice(slots[1..], id); }
  }

  /** Unpersisted durables come after persisted ones. */
  ghost predicate PinnedSuffix(slots: seq<Slot>) {
    forall i, j :: 0 <= i < j < |slots| && slots[i].pinned && slots[j].env.delivery.Durable? ==> slots[j].pinned
  }

  lemma {:induction false} EvictKeepsPinnedSuffix(slots: seq<Slot>, capacity: nat, byteBudget: nat)
    requires PinnedSuffix(slots)
    ensures PinnedSuffix(Evict(slots, capacity, byteBudget))
    decreases |slots|
  {
    if OverBounds(slots, capacity, byteBudget) && Victim(slots, capacity).Some? {
      var v := Victim(slots, capacity).value;
      var t := RemoveAt(slots, v);
      assert forall i :: 0 <= i < |t| ==> t[i] == slots[if i < v then i else i + 1];
      EvictKeepsPinnedSuffix(t, capacity, byteBudget);
    }
  }

  lemma UnpinOldestKeepsSuffix(slots: seq<Slot>, id: EventId)
    requires DistinctIds(Envs(slots)) && PinnedSuffix(slots)
    requires PinnedEnvs(slots) != [] && PinnedEnvs(slots)[0].eventId == id
    ensures PinnedSuffix(Unpin(slots, id))
  {
    UnpinShape(slots, id);
    forall i, j | 0 <= i < j < |slots| && slots[i].pinned ensures slots[j].env.eventId != id {
      OldestPinnedFirst(slots, id, i, j);
    }
  }

  lemma {:induction false} OldestPinnedFirst(slots: seq<Slot>, id: EventId, i: nat, j: nat)
    requires DistinctIds(Envs(slots))
    requires PinnedEnvs(slots) != [] && PinnedEnvs(slots)[0].eventId == id
    requires i < j < |slots| && slots[i].pinned
    ensures slots[j].env.eventId != id
  {
    var a := slots[..j];
    PinnedAppend(a, slots[j..]);
    assert slots == a + slots[j..];
    PinnedMember(a);
    assert a[i].pinned && a[i].env in PinnedEnvs(a);
    assert PinnedEnvs(slots)[0] in PinnedEnvs(a);
    var k :| 0 <= k < j && a[k].env == PinnedEnvs(slots)[0];
    assert Envs(slots)[k].eventId != Envs(slots)[j].eventId;
  }

  /** Once settled, a ring whose unpersisted durables are its newest ones holds no more than
      its capacity or its pinned entries, whichever is larger. */
  lemma SettledLength(slots: seq<Slot>, capacity: nat, byteBudget: nat)
    requires Settled(slots, capacity, byteBudget) && PinnedSuffix(slots)
    ensures |slots| <= capacity || |slots| == |PinnedEnvs(slots)|
  {
    if |slots| > capacity {
      assert forall i :: 0 <= i < |slots| ==> slots[i].pinned;
      AllPinned(slots);
    }
  }

  lemma {:induction false} AllPinned(slots: seq<Slot>)
    requires forall i :: 0 <= i < |slots| ==> slots[i].pinned
    ensures |PinnedEnvs(slots)| == |slots|
  {
    if slots != [] { AllPinned(slots[..|slots| - 1]); }
  }

  /** As many pinned events as slots means that every slot is pinned. */
  lemma {:induction false} NonePassedOver(slots: seq<Slot>)
    requires |slots| <= |PinnedEnvs(slots)|
    ensures forall i :: 0 <= i < |slots| ==> slots[i].pinned
  {
    if slots != [] {
      var front := slots[..|slots| - 1];
      PinnedMember(front);
      NonePassedOver(front);
      assert forall i :: 0 <= i < |front| ==> slots[i] == front[i];
    }
  }

  /** The cursor of the newest durable entry. */
  function NewestDurable(slots: seq<Slot>): (r: Option<Cursor>)
    ensures r == if Durables(slots) == [] then None else Some(Durables(slots)[|Durables(slots)| - 1].Cursor())
  {
    if slots == [] then None
    else
      var front, last := slots[..|slots| - 1], slots[|slots| - 1];
      assert Envs(slots)[..|slots| - 1] == Envs(front);
      if last.env.delivery.Durable? then Some(last.env.Cursor()) else NewestDurable(front)
  }

  // ---------------------------------------------------------------- the ring object

  class HotRing {
    var slots: seq<Slot>
    var bytes: nat
    const capacity: nat
    const byteBudget: nat

    ghost predicate Valid()
      reads this
    {
      capacity >= 1 && WellPinned(slots) && bytes == TotalBytes(slots)
    }

    constructor (capacity: nat, byteBudget: nat)
      ensures Valid() && slots == []
      ensures this.capacity == (if capacity >= 1 then capacity else 1) && this.byteBudget == byteBudget
    {
      slots, bytes := [], 0;
      this.capacity := if capacity >= 1 then capacity else 1;
      this.byteBudget := byteBudget;
    }

    /** Append an event, pinned when durable, then reclaim. */
    method Push(env: Envelope)
      requires Valid()
      modifies this
      ensures Valid()
      ensures slots == Pushed(old(slots), env, capacity, byteBudget)
      ensures PinnedEnvs(slots) == old(PinnedEnvs(slots)) + if env.delivery.Durable? then [env] else []
      ensures slots != [] && Settled(slots, capacity, byteBudget)
      ensures old(|slots|) + 1 <= capacity && old(bytes) + RetainedBytes(env) <= byteBudget ==>
                slots == old(slots) + [Slot(env, env.delivery == Durable)]
    {
      NothingLeavesWithinBounds(slots, env, env.eventId, capacity, byteBudget);
      var size := CountRetainedBytes(env);
      bytes := bytes + size;
      slots := slots + [Slot(env, env.delivery.Durable?)];
      ghost var full := slots;
      assert full[..|full| - 1] == old(slots);
      EvictExact(full, capacity, byteBudget);
      EvictToCapacity();
    }

    /** Unpin the entry with this id, if it is still held, then reclaim. */
    method MarkPersisted(id: EventId)
      requires Valid()
      modifies this
      ensures Valid()
      ensures slots == Marked(old(slots), id, capacity, byteBudget)
      ensures Settled(slots, capacity, byteBudget) && (old(slots) != [] ==> slots != [])
      ensures old(|slots|) <= capacity && old(bytes) <= byteBudget ==>
                FirstUnpinned(old(slots), slots, id)
    {
      if |slots| <= capacity && bytes <= byteBudget { ConfirmWithinBounds(slots, id, capacity, byteBudget); }
      var i := 0;
      while i < |slots| && slots[i].env.eventId != id
        invariant 0 <= i <= |slots|
        invariant slots == old(slots)
        invariant forall k :: 0 <= k < i ==> slots[k].env.eventId != id
      {
        i := i + 1;
      }
      UnpinAt(slots, id, i);
      UnpinShape(slots, id);
      if i < |slots| { slots := slots[i := slots[i].(pinned := false)]; }
      SameBytes(old(slots), slots);
      EvictExact(slots, capacity, byteBudget);
      EvictToCapacity();
    }

    /** Drop the oldest entries that may go until within both bounds. */
    method EvictToCapacity()
      requires Valid()
      modifies this
      ensures Valid()
      ensures slots == Evict(old(slots), capacity, byteBudget)
      ensures old(|slots|) <= capacity && (old(|slots|) <= 1 || old(bytes) <= byteBudget) ==> slots == old(slots)
    {
      if |slots| <= capacity && (|slots| <= 1 || bytes <= byteBudget) { EvictWithinBounds(slots, capacity, byteBudget); }
      while |slots| > capacity || (|slots| > 1 && bytes > byteBudget)
        invariant Valid()
        invariant Evict(slots, capacity, byteBudget) == Evict(old(slots), capacity, byteBudget)
        decreases |slots|
      {
        var v := Victim(slots, capacity);
        if v.None? { break; }
        VictimUnpinned(slots, capacity);
        TotalBytesRemove(slots, v.value);
        var size := CountRetainedBytes(slots[v.value].env);
        bytes := bytes - size;
        slots := RemoveAt(slots, v.value);
      }
    }

    /** The recent leg of a replay: what the ring holds strictly after `from`. */
    function ReplayAfter(from: Option<Cursor>): (r: seq<Envelope>)
      reads this
      ensures forall e :: e in r <==> e in Envs(slots) && (from.Some? ==> from.value.IsBefore(e.Cursor()))
      ensures Subseq(r, Envs(slots))
      ensures Sorted(Envs(slots)) ==> Sorted(r)
      ensures NoRepeat(Envs(slots)) ==> NoRepeat(r)
    {
      assert Sorted(Envs(slots)) ==> Sorted(Select(Envs(slots), AfterGate(from))) by {
        if Sorted(Envs(slots)) { SelectSorted(Envs(slots), AfterGate(from)); }
      }
      assert NoRepeat(Envs(slots)) ==> NoRepeat(Select(Envs(slots), AfterGate(from))) by {
        if NoRepeat(Envs(slots)) { SelectNoRepeat(Envs(slots), AfterGate(from)); }
      }
      SelectMember(Envs(slots), AfterGate(from));
      SelectSubseq(Envs(slots), AfterGate(from));
      Select(Envs(slots), AfterGate(from))
    }
  }

  function Oldest(slots: seq<Slot>): Option<Cursor> {
    if slots == [] then None else Some(slots[0].env.Cursor())
  }

  lemma {:induction false} SameBytes(a: seq<Slot>, b: seq<Slot>)
    requires Envs(a) == Envs(b)
    ensures TotalBytes(a) == TotalBytes(b)
  {
    assert |a| == |Envs(a)| == |b|;
    if a != [] {
      var n := |a| - 1;
      assert Envs(a[..n]) == Envs(a)[..n] == Envs(b[..n]);
      SameBytes(a[..n], b[..n]);
      assert a[n].env == Envs(a)[n] == b[n].env;
    }
  }
}
