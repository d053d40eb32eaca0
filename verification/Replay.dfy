/** Replay over whole runs: what a reader who joins the ring's recent entries to the stored
    rows sees, however the store is read after the ring was snapshotted. */
module Replay {
  import opened Options
  import opened Envelopes
  import opened Selection
  import opened Bus
  import opened Channel
  import opened Persistence
  import R = Ring
  import Sink

  /** Pushes on the channel followed sequence order. */
  ghost predicate InOrder(s: State, room: RoomId) {
    Sorted(At(s.past.log, room))
  }

  ghost predicate NoRestart(steps: seq<Step>) {
    forall i :: 0 <= i < |steps| ==> !steps[i].Restart?
  }

  /** Without a restart, logs and stored rows only grow. */
  lemma {:induction false} Growth(cfg: Config, s: State, steps: seq<Step>, room: RoomId)
    requires NoRestart(steps) && Base(s)
    ensures var s' := Run(cfg, s, steps);
            && Base(s')
            && At(s.past.log, room) <= At(s'.past.log, room)
            && (forall e :: e in At(s.sink, room) ==> e in At(s'.sink, room))
  {
    if steps != [] {
      var front, step := steps[..|steps| - 1], steps[|steps| - 1];
      Growth(cfg, s, front, room);
      var mid := Run(cfg, s, front);
      LogGrows(cfg, mid, step, room);
      BaseStep(cfg, mid, step);
      StoreGrows(cfg, mid, step, room);
    }
  }

  lemma StoreGrows(cfg: Config, s: State, step: Step, room: RoomId)
    requires Base(s)
    ensures forall e :: e in At(s.sink, room) ==> e in At(Apply(cfg, s, step).sink, room)
  {
    if step.AppendNext? {
      if s.writer.Writing? && s.writer.done < |s.batch| {
        var x := s.batch[s.writer.done];
        Sink.AppendedValid(At(s.sink, x.channel), x);
      }
    } else if !step.Push? && !step.MarkNext? && !step.Restart? {
      QuietFrame(cfg, s, step);
    }
  }

  /** In every run with fresh ids whose pushes on the channel follow sequence order, the ring
      as it stands and the store as it stands fit together. */
  lemma SeamOfRun(cfg: Config, seed: nat, steps: seq<Step>, room: RoomId)
    requires FreshIds(Reach(cfg, seed, steps)) && InOrder(Reach(cfg, seed, steps), room)
    ensures var s := Reach(cfg, seed, steps);
            Seam(At(s.rings, room), At(s.sink, room), At(s.past.log, room))
  {
    var s := Reach(cfg, seed, steps);
    SafeAlways(cfg, seed, steps);
    BaseAlways(cfg, seed, steps);
    assert RoomOk(s, room);
    SeamNow(At(s.rings, room), At(s.sink, room), At(s.past.log, room));
  }

  /** The ring may be snapshotted at one moment and the store read at any later one. */
  lemma SeamOfLaterRead(cfg: Config, seed: nat, steps: seq<Step>, later: seq<Step>, room: RoomId)
    requires NoRestart(later)
    requires FreshIds(Reach(cfg, seed, steps + later)) && InOrder(Reach(cfg, seed, steps + later), room)
    requires At(Reach(cfg, seed, steps).rings, room) != []
    ensures var s, s' := Reach(cfg, seed, steps), Reach(cfg, seed, steps + later);
            Seam(At(s.rings, room), At(s'.sink, room), At(s.past.log, room))
  {
    var s, s' := Reach(cfg, seed, steps), Reach(cfg, seed, steps + later);
    EarlierIsFresh(cfg, seed, steps, later);
    Growth(cfg, s, later, room);
    var log, log' := At(s.past.log, room), At(s'.past.log, room);
    assert forall i :: 0 <= i < |log| ==> log[i] == log'[i];
    SafeAlways(cfg, seed, steps);
    SafeAlways(cfg, seed, steps + later);
    assert RoomOk(s, room) && RoomOk(s', room);
    SeamNow(At(s.rings, room), At(s.sink, room), log);
    SeamLater(At(s.rings, room), At(s.sink, room), log, At(s'.sink, room), log');
  }

  /** What a replay from `from` reads when it snapshots the ring in `s` and the store in `s'`. */
  ghost function Replayed(s: State, s': State, room: RoomId, from: Option<Cursor>): seq<Envelope> {
    Select(At(s'.sink, room), Both(AfterGate(from), BeforeGate(R.Oldest(At(s.rings, room)))))
      + Select(R.Envs(At(s.rings, room)), Both(AfterGate(from), IsDurable))
  }

  ghost function AcceptedAfter(s: State, room: RoomId, from: Option<Cursor>): seq<Envelope> {
    Select(At(s.past.log, room), Both(AfterGate(from), IsDurable))
  }

  /** The snapshot of a channel whose ring is empty: the later read begins with everything
      accepted before the snapshot and continues only with what was accepted since. */
  lemma NoGapBehindEmptyRing(cfg: Config, seed: nat, steps: seq<Step>, later: seq<Step>, room: RoomId, from: Option<Cursor>)
    requires NoRestart(later)
    requires FreshIds(Reach(cfg, seed, steps + later)) && InOrder(Reach(cfg, seed, steps + later), room)
    requires At(Reach(cfg, seed, steps).rings, room) == []
    ensures var s, s' := Reach(cfg, seed, steps), Reach(cfg, seed, steps + later);
            var want, got := AcceptedAfter(s, room, from), Replayed(s, s', room, from);
            want <= got && forall e :: e in got[|want|..] ==> e !in At(s.past.log, room)
  {
    var s, s' := Reach(cfg, seed, steps), Reach(cfg, seed, steps + later);
    EarlierIsFresh(cfg, seed, steps, later);
    Growth(cfg, s, later, room);
    SafeAlways(cfg, seed, steps);
    SafeAlways(cfg, seed, steps + later);
    assert RoomOk(s, room) && RoomOk(s', room);
    assert R.Envs(At(s.rings, room)) == [];
    var near := Select(R.Envs(At(s.rings, room)), Both(AfterGate(from), IsDurable));
    assert near == [];
    LaterRows(At(s.past.log, room), At(s'.past.log, room), At(s'.sink, room), from);
    var far := Select(At(s'.sink, room), Both(AfterGate(from), BeforeGate(None)));
    assert Replayed(s, s', room, from) == far + near == far;
  }

  lemma LaterRows(log: seq<Envelope>, log': seq<Envelope>, bucket': seq<Envelope>, from: Option<Cursor>)
    requires log <= log' && Sorted(log') && Sorted(bucket')
    requires forall e :: e in bucket' ==> e in log' && e.delivery.Durable?
    requires forall e :: e in log && e.delivery.Durable? ==> e in bucket'
    ensures var want, got := Select(log, Both(AfterGate(from), IsDurable)), Select(bucket', Both(AfterGate(from), BeforeGate(None)));
            want <= got && forall e :: e in got[|want|..] ==> e !in log
  {
    StoreExtends(log, log', bucket', AfterGate(from));
    SelectSame(bucket', Both(AfterGate(from), BeforeGate(None)), AfterGate(from));
  }

  lemma EarlierIsFresh(cfg: Config, seed: nat, steps: seq<Step>, later: seq<Step>)
    requires NoRestart(later) && FreshIds(Reach(cfg, seed, steps + later))
    ensures var s := Reach(cfg, seed, steps);
            FreshIds(s) && Base(s) && Base(Run(cfg, s, later)) && Run(cfg, s, later) == Reach(cfg, seed, steps + later)
  {
    var s, s' := Reach(cfg, seed, steps), Reach(cfg, seed, steps + later);
    RunAppend(cfg, Fresh(1, seed, map[], map[]), steps, later);
    BaseAlways(cfg, seed, steps);
    BaseAlways(cfg, seed, steps + later);
    forall r ensures DistinctIds(At(s.past.log, r)) {
      Growth(cfg, s, later, r);
      assert DistinctIds(At(s'.past.log, r));
      assert forall i :: 0 <= i < |At(s.past.log, r)| ==> At(s'.past.log, r)[i] == At(s.past.log, r)[i];
    }
  }

  /** No gap: the stored rows after `from` and before the snapshot's oldest entry, read at
      any time from the snapshot on, followed by the snapshot's durables after `from`, are
      exactly the durables accepted after `from`, in order and once each. Only when the ring
      was empty can more follow, and all of it was accepted since the snapshot. */
  lemma NoGap(cfg: Config, seed: nat, steps: seq<Step>, later: seq<Step>, room: RoomId, from: Option<Cursor>)
    requires NoRestart(later)
    requires FreshIds(Reach(cfg, seed, steps + later)) && InOrder(Reach(cfg, seed, steps + later), room)
    ensures var s, s' := Reach(cfg, seed, steps), Reach(cfg, seed, steps + later);
            var want, got := AcceptedAfter(s, room, from), Replayed(s, s', room, from);
            && want <= got && (forall e :: e in got[|want|..] ==> e !in At(s.past.log, room))
            && (At(s.rings, room) != [] || later == [] ==> got == want)
  {
    var s, s' := Reach(cfg, seed, steps), Reach(cfg, seed, steps + later);
    if At(s.rings, room) == [] && later != [] {
      NoGapBehindEmptyRing(cfg, seed, steps, later, room, from);
    } else {
      if later == [] {
        assert steps + later == steps;
        SeamOfRun(cfg, seed, steps, room);
      } else {
        SeamOfLaterRead(cfg, seed, steps, later, room);
      }
      SeamExact(At(s.rings, room), At(s'.sink, room), At(s.past.log, room), AfterGate(from));
    }
  }

  // ---------------------------------------------------------------- any read, any ring

  /** The events a reader has seen of: the accepted log as of the ring snapshot or, when the
      ring was empty, the store as it was read. */
  ghost function Seen(s: State, s': State, room: RoomId): seq<Envelope> {
    if At(s.rings, room) == [] then At(s'.sink, room) else At(s.past.log, room)
  }

  /** Whatever the ring held, a ring snapshot and any later read of the store fit together,
      and what the reader sees begins with every durable accepted before the snapshot. */
  lemma SeamAtAnyRead(cfg: Config, seed: nat, steps: seq<Step>, later: seq<Step>, room: RoomId)
    requires NoRestart(later)
    requires FreshIds(Reach(cfg, seed, steps + later)) && InOrder(Reach(cfg, seed, steps + later), room)
    ensures var s, s' := Reach(cfg, seed, steps), Reach(cfg, seed, steps + later);
            && Seam(At(s.rings, room), At(s'.sink, room), Seen(s, s', room))
            && DistinctIds(Seen(s, s', room))
            && Select(At(s.past.log, room), IsDurable) <= Select(Seen(s, s', room), IsDurable)
            && (forall e :: e in Seen(s, s', room) ==> e in At(s'.past.log, room))
  {
    var s, s' := Reach(cfg, seed, steps), Reach(cfg, seed, steps + later);
    EarlierIsFresh(cfg, seed, steps, later);
    Growth(cfg, s, later, room);
    SafeAlways(cfg, seed, steps);
    SafeAlways(cfg, seed, steps + later);
    assert RoomOk(s, room) && RoomOk(s', room);
    if At(s.rings, room) == [] {
      assert R.Envs(At(s.rings, room)) == [];
      AllStored(At(s.past.log, room), At(s'.past.log, room), At(s'.sink, room));
      SeamOfStore(At(s'.sink, room));
    } else {
      SeamOfLaterRead(cfg, seed, steps, later, room);
      assert DistinctIds(At(s.past.log, room));
    }
  }

  lemma SeamOfStore(bucket: seq<Envelope>)
    requires Sorted(bucket) && forall e :: e in bucket ==> e.delivery.Durable?
    ensures Seam([], bucket, bucket)
  {
    assert R.Envs([]) == [];
  }

  lemma AllStored(log: seq<Envelope>, log': seq<Envelope>, bucket': seq<Envelope>)
    requires log <= log' && Sorted(log') && Sorted(bucket')
    requires forall e :: e in bucket' ==> e in log' && e.delivery.Durable?
    requires forall e :: e in log && e.delivery.Durable? ==> e in bucket'
    ensures Select(log, IsDurable) <= Select(bucket', IsDurable)
  {
    StoreExtends(log, log', bucket', IsDurable);
    SelectSame(log, Both(IsDurable, IsDurable), IsDurable);
  }

  // ---------------------------------------------------------------- exactly when

  /** Whatever the order of pushes: a replay shows every durable accepted after the cursor
      exactly when each one that has left the ring precedes the ring's oldest entry. */
  lemma ReplayIsWholeExactlyWhen(cfg: Config, seed: nat, steps: seq<Step>, later: seq<Step>, room: RoomId, from: Option<Cursor>)
    requires NoRestart(later) && FreshIds(Reach(cfg, seed, steps + later))
    ensures var s, s' := Reach(cfg, seed, steps), Reach(cfg, seed, steps + later);
            var ring := At(s.rings, room);
            (forall e :: e in AcceptedAfter(s, room, from) ==> e in Replayed(s, s', room, from)) <==>
            (forall e :: e in AcceptedAfter(s, room, from) && e !in R.Envs(ring) ==> BeforeGate(R.Oldest(ring)).Holds(e))
  {
    var s, s' := Reach(cfg, seed, steps), Reach(cfg, seed, steps + later);
    EarlierIsFresh(cfg, seed, steps, later);
    Growth(cfg, s, later, room);
    SafeAlways(cfg, seed, steps);
    assert RoomOk(s, room);
    forall e | e in AcceptedAfter(s, room, from)
      ensures e in Replayed(s, s', room, from) <==> e in R.Envs(At(s.rings, room)) || BeforeGate(R.Oldest(At(s.rings, room))).Holds(e)
    {
      SelectMember(At(s.past.log, room), Both(AfterGate(from), IsDurable));
      assert Both(AfterGate(from), IsDurable).Holds(e) && IsDurable.Holds(e);
      ShownWhen(At(s.past.log, room), At(s'.sink, room), R.Envs(At(s.rings, room)), R.Oldest(At(s.rings, room)), from, e);
    }
  }

  lemma ShownWhen(log: seq<Envelope>, bucket: seq<Envelope>, ring: seq<Envelope>, oldest: Option<Cursor>, from: Option<Cursor>, e: Envelope)
    requires e in Select(log, Both(AfterGate(from), IsDurable)) && (e in ring || e in bucket)
    ensures e in Select(bucket, Both(AfterGate(from), BeforeGate(oldest))) + Select(ring, Both(AfterGate(from), IsDurable))
            <==> e in ring || BeforeGate(oldest).Holds(e)
  {
    SelectMember(log, Both(AfterGate(from), IsDurable));
    SelectMember(bucket, Both(AfterGate(from), BeforeGate(oldest)));
    SelectMember(ring, Both(AfterGate(from), IsDurable));
    assert Both(AfterGate(from), IsDurable).Holds(e);
    assert IsDurable.Holds(e) && AfterGate(from).Holds(e);
    assert Both(AfterGate(from), BeforeGate(oldest)).Holds(e) <==> BeforeGate(oldest).Holds(e);
  }

  /** And it shows nothing twice exactly when no stored durable of the ring that lies after
      the cursor precedes the ring's oldest entry. */
  lemma ReplayRepeatsExactlyWhen(cfg: Config, seed: nat, steps: seq<Step>, later: seq<Step>, room: RoomId, from: Option<Cursor>)
    requires NoRestart(later) && FreshIds(Reach(cfg, seed, steps + later))
    ensures var s, s' := Reach(cfg, seed, steps), Reach(cfg, seed, steps + later);
            var ring := At(s.rings, room);
            NoRepeat(Replayed(s, s', room, from)) <==>
            (forall e :: e in R.Envs(ring) && e in At(s'.sink, room) && AfterGate(from).Holds(e) ==> !BeforeGate(R.Oldest(ring)).Holds(e))
  {
    var s, s' := Reach(cfg, seed, steps), Reach(cfg, seed, steps + later);
    EarlierIsFresh(cfg, seed, steps, later);
    SafeAlways(cfg, seed, steps);
    assert RoomOk(s, room);
    RepeatsWhen(At(s'.sink, room), R.Envs(At(s.rings, room)), R.Oldest(At(s.rings, room)), from);
  }

  lemma RepeatsWhen(bucket: seq<Envelope>, ring: seq<Envelope>, oldest: Option<Cursor>, from: Option<Cursor>)
    requires Sorted(bucket) && DistinctIds(ring) && forall e :: e in bucket ==> e.delivery.Durable?
    ensures NoRepeat(Select(bucket, Both(AfterGate(from), BeforeGate(oldest))) + Select(ring, Both(AfterGate(from), IsDurable)))
            <==> forall e :: e in ring && e in bucket && AfterGate(from).Holds(e) ==> !BeforeGate(oldest).Holds(e)
  {
    var p, q := Both(AfterGate(from), BeforeGate(oldest)), Both(AfterGate(from), IsDurable);
    assert NoRepeat(bucket) by {
      forall i, j | 0 <= i < j < |bucket| ensures bucket[i] != bucket[j] { assert bucket[i].Cursor().IsBefore(bucket[j].Cursor()); }
    }
    SelectNoRepeat(bucket, p);
    SelectNoRepeat(ring, q);
    JoinNoRepeat(Select(bucket, p), Select(ring, q));
    SelectMember(bucket, p);
    SelectMember(ring, q);
    forall e ensures p.Holds(e) <==> AfterGate(from).Holds(e) && BeforeGate(oldest).Holds(e) { }
    forall e ensures q.Holds(e) <==> AfterGate(from).Holds(e) && e.delivery.Durable? { }
  }

  /** The step pushes nothing onto the channel that sorts below what its log holds. */
  ghost predicate PushesAbove(s: State, step: Step, room: RoomId) {
    step.Push? && CallAt(s, step.call, Recorded) && s.calls[step.call].env.channel == room
    && !s.calls[step.call].env.delivery.EphemeralLatest?
    ==> forall x :: x in At(s.past.log, room) ==> x.Cursor().IsBefore(s.calls[step.call].env.Cursor())
  }

  lemma InOrderStep(cfg: Config, s: State, step: Step, room: RoomId)
    requires Base(s) && InOrder(s, room)
    ensures InOrder(Apply(cfg, s, step), room) <==> PushesAbove(s, step, room)
  {
    if step.Push? {
      if CallAt(s, step.call, Recorded) && s.calls[step.call].env.channel == room && !s.calls[step.call].env.delivery.EphemeralLatest? {
        var e, log := s.calls[step.call].env, At(s.past.log, room);
        assert At(DoPush(cfg, s, step.call).past.log, room) == log + [e];
        LogFront(log, e);
        if PushesAbove(s, step, room) { SortedAppend(log, [e]); }
      }
    } else if !step.Restart? && !step.AppendNext? && !step.MarkNext? {
      QuietFrame(cfg, s, step);
    }
  }

  /** Ring order is sequence order throughout a run exactly when no push ever carries a
      cursor below one its channel already holds. */
  lemma InOrderExactlyWhen(cfg: Config, seed: nat, steps: seq<Step>, room: RoomId)
    ensures (forall n :: 0 <= n <= |steps| ==> InOrder(Reach(cfg, seed, steps[..n]), room)) <==>
            (forall n :: 0 <= n < |steps| ==> PushesAbove(Reach(cfg, seed, steps[..n]), steps[n], room))
  {
    if forall n :: 0 <= n <= |steps| ==> InOrder(Reach(cfg, seed, steps[..n]), room) {
      forall n | 0 <= n < |steps| ensures PushesAbove(Reach(cfg, seed, steps[..n]), steps[n], room) {
        OneMore(cfg, seed, steps, n, room);
      }
    }
    if forall n :: 0 <= n < |steps| ==> PushesAbove(Reach(cfg, seed, steps[..n]), steps[n], room) {
      forall n | 0 <= n <= |steps| ensures InOrder(Reach(cfg, seed, steps[..n]), room) { InOrderUpTo(cfg, seed, steps, n, room); }
    }
  }

  lemma OneMore(cfg: Config, seed: nat, steps: seq<Step>, n: nat, room: RoomId)
    requires n < |steps| && InOrder(Reach(cfg, seed, steps[..n]), room)
    ensures InOrder(Reach(cfg, seed, steps[..n + 1]), room) <==> PushesAbove(Reach(cfg, seed, steps[..n]), steps[n], room)
  {
    assert steps[..n + 1][..n] == steps[..n];
    BaseAlways(cfg, seed, steps[..n]);
    InOrderStep(cfg, Reach(cfg, seed, steps[..n]), steps[n], room);
  }

  lemma {:induction false} InOrderUpTo(cfg: Config, seed: nat, steps: seq<Step>, n: nat, room: RoomId)
    requires n <= |steps| && forall m :: 0 <= m < |steps| ==> PushesAbove(Reach(cfg, seed, steps[..m]), steps[m], room)
    ensures InOrder(Reach(cfg, seed, steps[..n]), room)
  {
    if n > 0 {
      InOrderUpTo(cfg, seed, steps, n - 1, room);
      OneMore(cfg, seed, steps, n - 1, room);
    }
  }
}
