/** Who is responsible for a pinned entry. Between acceptance and confirmation an event is
    held by exactly one party: the publish call that has not yet filled its permit, the
    write-behind queue, or the writer's batch. */
module Holders {
  import opened Envelopes
  import opened Selection
  import opened Bus
  import opened Channel
  import opened Persistence
  import R = Ring

  /** The batch entries not yet confirmed, then the queue: the order of confirmation. */
  ghost function Pipe(s: State): seq<Envelope> {
    (if s.writer.Marking? && s.writer.done <= |s.batch| then s.batch[s.writer.done..] else s.batch) + s.queue
  }

  ghost predicate PinnedHere(s: State, e: Envelope) {
    e in R.PinnedEnvs(At(s.rings, e.channel))
  }

  /** Log entries sit under their own channel. */
  ghost predicate LogRooms(s: State) {
    forall room, e :: e in At(s.past.log, room) ==> e.channel == room
  }

  /** Pinned exactly when held, and held once: by one place of the pipe or by one call. */
  ghost predicate Held(pinned: iset<Envelope>, pipe: seq<Envelope>, unsent: iset<(nat, Envelope)>) {
    && (forall e :: e in pinned ==> e in pipe || exists t :: (t, e) in unsent)
    && (forall e :: e in pipe ==> e in pinned)
    && (forall t, e :: (t, e) in unsent ==> e in pinned && e !in pipe)
    && (forall t, u, e :: (t, e) in unsent && (u, e) in unsent ==> t == u)
    && NoRepeat(pipe)
  }

  ghost function PinnedSet(s: State): iset<Envelope> {
    iset e | PinnedHere(s, e)
  }

  ghost function UnsentSet(s: State): iset<(nat, Envelope)> {
    iset t, e | UnsentBy(s, t, e) :: (t, e)
  }

  ghost predicate HeldOnce(s: State) {
    Held(PinnedSet(s), Pipe(s), UnsentSet(s))
  }

  lemma HeldGain(pinned: iset<Envelope>, pipe: seq<Envelope>, unsent: iset<(nat, Envelope)>, t: nat, e: Envelope)
    requires Held(pinned, pipe, unsent) && e !in pinned
    ensures Held(pinned + iset{e}, pipe, unsent + iset{(t, e)})
  {
    var unsent' := unsent + iset{(t, e)};
    assert (t, e) in unsent';
    forall x | x in pinned + iset{e} ensures x in pipe || exists u :: (u, x) in unsent' {
      if x != e && x !in pipe {
        var u :| (u, x) in unsent;
        assert (u, x) in unsent';
      }
    }
  }

  lemma HeldHandOver(pinned: iset<Envelope>, pipe: seq<Envelope>, unsent: iset<(nat, Envelope)>, t: nat, e: Envelope)
    requires Held(pinned, pipe, unsent) && (t, e) in unsent
    ensures Held(pinned, pipe + [e], unsent - iset{(t, e)})
  {
    var unsent' := unsent - iset{(t, e)};
    forall x | x in pinned ensures x in pipe + [e] || exists u :: (u, x) in unsent' {
      if x != e && x !in pipe {
        var u :| (u, x) in unsent;
        assert (u, x) in unsent';
      }
    }
  }

  lemma HeldRelease(pinned: iset<Envelope>, pipe: seq<Envelope>, unsent: iset<(nat, Envelope)>)
    requires Held(pinned, pipe, unsent) && pipe != []
    ensures Held(pinned - iset{pipe[0]}, pipe[1..], unsent)
  {
    NoRepeatTail(pipe);
  }

  lemma NoRepeatTail(p: seq<Envelope>)
    requires NoRepeat(p) && p != []
    ensures NoRepeat(p[1..])
    ensures forall x :: x in p <==> x in p[1..] || x == p[0]
    ensures p[0] !in p[1..]
  {
    assert p == [p[0]] + p[1..];
    assert forall i :: 0 <= i < |p[1..]| ==> p[1..][i] == p[i + 1];
  }

  lemma PushedPins(slots: seq<R.Slot>, e: Envelope, capacity: nat, byteBudget: nat)
    requires R.WellPinned(slots) && capacity >= 1
    ensures R.WellPinned(R.Pushed(slots, e, capacity, byteBudget))
    ensures R.PinnedEnvs(R.Pushed(slots, e, capacity, byteBudget)) == R.PinnedEnvs(slots) + if e.delivery.Durable? then [e] else []
    ensures R.Settled(R.Pushed(slots, e, capacity, byteBudget), capacity, byteBudget)
  {
    var added := [R.Slot(e, e.delivery.Durable?)];
    R.EvictExact(slots + added, capacity, byteBudget);
    R.PinnedAppend(slots, added);
    assert R.PinnedEnvs(added) == if e.delivery.Durable? then [e] else [];
  }

  lemma MarkedPins(slots: seq<R.Slot>, id: EventId, capacity: nat, byteBudget: nat)
    requires R.WellPinned(slots) && capacity >= 1
    ensures R.WellPinned(R.Marked(slots, id, capacity, byteBudget))
    ensures R.PinnedEnvs(R.Marked(slots, id, capacity, byteBudget)) == R.PinnedEnvs(R.Unpin(slots, id))
    ensures R.Settled(R.Marked(slots, id, capacity, byteBudget), capacity, byteBudget)
    ensures DistinctIds(R.Envs(slots)) ==>
      forall e :: e in R.PinnedEnvs(R.Unpin(slots, id)) <==> e in R.PinnedEnvs(slots) && e.eventId != id
  {
    R.UnpinShape(slots, id);
    R.EvictExact(R.Unpin(slots, id), capacity, byteBudget);
    R.PinnedMember(slots);
    R.PinnedMember(R.Unpin(slots, id));
    if DistinctIds(R.Envs(slots)) {
      var r := R.Unpin(slots, id);
      forall e | e in R.PinnedEnvs(slots) && e.eventId != id ensures e in R.PinnedEnvs(r) {
        var i :| 0 <= i < |slots| && slots[i].pinned && slots[i].env == e;
        assert r[i] == slots[i];
      }
      forall e | e in R.PinnedEnvs(r) ensures e in R.PinnedEnvs(slots) && e.eventId != id {
        var i :| 0 <= i < |r| && r[i].pinned && r[i].env == e;
        assert slots[i].pinned;
      }
    }
  }

  lemma LogRoomsStep(cfg: Config, s: State, step: Step)
    requires LogRooms(s) && StoreOk(s.sink)
    ensures LogRooms(Apply(cfg, s, step))
  {
    var s' := Apply(cfg, s, step);
    if step.Push? {
      if CallAt(s, step.call, Recorded) {
        var e := s.calls[step.call].env;
        forall room, x | x in At(s'.past.log, room) ensures x.channel == room {
          assert x in At(s.past.log, room) || (x == e && room == e.channel);
        }
      }
    } else if step.Restart? {
    } else if step.AppendNext? || step.MarkNext? {
    } else {
      QuietFrame(cfg, s, step);
    }
  }

  // The pipe is what the writer will confirm: sends extend it, confirmations shorten it.

  lemma PipeSend(s: State, t: nat)
    requires CallAt(s, t, Pushed) && s.calls[t].env.delivery.Durable?
    ensures Pipe(DoSend(s, t)) == Pipe(s) + [s.calls[t].env]
  {
  }

  lemma PipeMark(cfg: Config, s: State)
    requires Base(s) && s.writer.Marking?
    ensures Pipe(s) != [] && Pipe(s)[0] == s.batch[s.writer.done]
    ensures Pipe(DoMarkNext(cfg, s)) == Pipe(s)[1..]
  {
    assert s.batch[s.writer.done..] == [s.batch[s.writer.done]] + s.batch[s.writer.done + 1..];
  }

  lemma PipeCollect(s: State)
    ensures Pipe(DoCollect(s)) == Pipe(s)
  {
    if s.queue != [] { assert s.queue == [s.queue[0]] + s.queue[1..]; }
  }

  lemma PipeQuiet(cfg: Config, s: State, step: Step)
    requires !step.Send? && !step.MarkNext? && !step.Restart?
    ensures Pipe(Apply(cfg, s, step)) == Pipe(s)
  {
    if step.Collect? {
      PipeCollect(s);
    } else if WriterStep(step) {
      assert s.batch[0..] == s.batch;
    } else {
      PipelineFrame(cfg, s, step);
    }
  }

  /** What one push does to the histories and ring of its own channel, and to no other. */
  lemma PushedInPlace(cfg: Config, s: State, t: nat)
    requires CallAt(s, t, Recorded) && !s.calls[t].env.delivery.EphemeralLatest?
    ensures var e, s' := s.calls[t].env, DoPush(cfg, s, t);
            && At(s'.past.log, e.channel) == At(s.past.log, e.channel) + [e] && s'.past.marked == s.past.marked
            && At(s'.rings, e.channel) == R.Pushed(At(s.rings, e.channel), e, cfg.RingCapacity(), cfg.ringByteBudget)
  {
  }

  lemma PushedElsewhere(cfg: Config, s: State, t: nat, room: RoomId)
    requires CallAt(s, t, Recorded) && (s.calls[t].env.channel != room || s.calls[t].env.delivery.EphemeralLatest?)
    ensures var s' := DoPush(cfg, s, t);
            At(s'.past.log, room) == At(s.past.log, room) && s'.past.marked == s.past.marked && At(s'.rings, room) == At(s.rings, room)
  {
  }

  lemma PinnedAfterPush(cfg: Config, s: State, t: nat, x: Envelope)
    requires Safe(s) && CallAt(s, t, Recorded)
    ensures PinnedHere(DoPush(cfg, s, t), x) <==> PinnedHere(s, x) || (x == s.calls[t].env && x.delivery.Durable?)
  {
    var e := s.calls[t].env;
    if !e.delivery.EphemeralLatest? && x.channel == e.channel {
      assert RoomOk(s, e.channel);
      PushedInPlace(cfg, s, t);
      PushedPins(At(s.rings, e.channel), e, cfg.RingCapacity(), cfg.ringByteBudget);
    } else {
      PushedElsewhere(cfg, s, t, x.channel);
    }
  }

  /** The pushed event is new to its log. */
  lemma PushIsNew(cfg: Config, s: State, t: nat)
    requires CallAt(s, t, Recorded) && FreshIds(DoPush(cfg, s, t)) && s.calls[t].env.delivery.Durable?
    ensures !Logged(s, s.calls[t].env)
  {
    var e := s.calls[t].env;
    assert DistinctIds(At(DoPush(cfg, s, t).past.log, e.channel));
    LogFront(At(s.past.log, e.channel), e);
  }

  lemma HeldPush(cfg: Config, s: State, t: nat)
    requires HeldOnce(s) && Safe(s) && CallAt(s, t, Recorded)
    requires FreshIds(DoPush(cfg, s, t))
    ensures HeldOnce(DoPush(cfg, s, t))
  {
    var s' := DoPush(cfg, s, t);
    var e := s.calls[t].env;
    PipeQuiet(cfg, s, Push(t));
    forall x ensures x in PinnedSet(s') <==> x in PinnedSet(s) || (x == e && e.delivery.Durable?) {
      PinnedAfterPush(cfg, s, t, x);
    }
    if e.delivery.Durable? {
      PushIsNew(cfg, s, t);
      if PinnedHere(s, e) { PinnedLogged(s, e); }
      assert PinnedSet(s') == PinnedSet(s) + iset{e};
      assert UnsentSet(s') == UnsentSet(s) + iset{(t, e)} by { UnsentAfterPush(cfg, s, t); }
      HeldGain(PinnedSet(s), Pipe(s), UnsentSet(s), t, e);
    } else {
      assert PinnedSet(s') == PinnedSet(s);
      assert UnsentSet(s') == UnsentSet(s) by { UnsentAfterPush(cfg, s, t); }
    }
  }

  lemma UnsentAfterPush(cfg: Config, s: State, t: nat)
    requires CallAt(s, t, Recorded)
    ensures forall u, x :: UnsentBy(DoPush(cfg, s, t), u, x)
              <==> UnsentBy(s, u, x) || (u == t && x == s.calls[t].env && x.delivery.Durable?)
  {
  }

  lemma HeldSend(s: State, t: nat)
    requires HeldOnce(s) && CallAt(s, t, Pushed) && s.calls[t].env.delivery.Durable?
    ensures HeldOnce(DoSend(s, t))
  {
    var s' := DoSend(s, t);
    var e := s.calls[t].env;
    PipeSend(s, t);
    assert UnsentBy(s, t, e);
    assert PinnedSet(s') == PinnedSet(s);
    assert UnsentSet(s') == UnsentSet(s) - iset{(t, e)};
    HeldHandOver(PinnedSet(s), Pipe(s), UnsentSet(s), t, e);
  }

  lemma PinnedAfterMark(cfg: Config, s: State, x: Envelope)
    requires Base(s) && Safe(s) && FreshIds(s) && s.writer.Marking?
    requires PinnedHere(s, s.batch[s.writer.done])
    ensures PinnedHere(DoMarkNext(cfg, s), x) <==> PinnedHere(s, x) && x != s.batch[s.writer.done]
  {
    var e := s.batch[s.writer.done];
    assert RoomOk(s, e.channel);
    MarkedPins(At(s.rings, e.channel), e.eventId, cfg.RingCapacity(), cfg.ringByteBudget);
    if PinnedHere(s, x) && x.channel == e.channel && x.eventId == e.eventId {
      PinnedLogged(s, x);
      PinnedLogged(s, e);
      SameIdSame(At(s.past.log, e.channel), x, e);
    }
  }

  lemma HeldMark(cfg: Config, s: State)
    requires HeldOnce(s) && Base(s) && Safe(s) && FreshIds(s) && s.writer.Marking?
    ensures HeldOnce(DoMarkNext(cfg, s))
  {
    var s' := DoMarkNext(cfg, s);
    PipeMark(cfg, s);
    var e := Pipe(s)[0];
    assert e in Pipe(s) && e in PinnedSet(s);
    forall x ensures x in PinnedSet(s') <==> x in PinnedSet(s) && x != e {
      PinnedAfterMark(cfg, s, x);
    }
    assert PinnedSet(s') == PinnedSet(s) - iset{e};
    assert UnsentSet(s') == UnsentSet(s) by { assert s'.calls == s.calls; }
    HeldRelease(PinnedSet(s), Pipe(s), UnsentSet(s));
  }

  lemma PinnedLogged(s: State, e: Envelope)
    requires Safe(s) && PinnedHere(s, e)
    ensures Logged(s, e) && e.delivery.Durable?
  {
    assert RoomOk(s, e.channel);
    R.PinnedMember(At(s.rings, e.channel));
    R.EnvsMember(At(s.rings, e.channel));
  }

  lemma HeldQuiet(cfg: Config, s: State, step: Step)
    requires HeldOnce(s)
    requires !step.Push? && !step.Send? && !step.MarkNext? && !step.Restart?
    ensures HeldOnce(Apply(cfg, s, step))
  {
    var s' := Apply(cfg, s, step);
    PipeQuiet(cfg, s, step);
    UnsentFrame(cfg, s, step);
    assert s'.rings == s.rings by { if !step.AppendNext? { QuietFrame(cfg, s, step); } }
    assert PinnedSet(s') == PinnedSet(s);
    assert UnsentSet(s') == UnsentSet(s);
  }

  lemma HeldStep(cfg: Config, s: State, step: Step)
    requires Base(s) && LogRooms(s)
    requires FreshIds(s) ==> Safe(s) && HeldOnce(s)
    requires FreshIds(Apply(cfg, s, step))
    ensures HeldOnce(Apply(cfg, s, step))
  {
    if step.Restart? {
      assert Pipe(Apply(cfg, s, step)) == [];
    } else {
      FreshBefore(cfg, s, step);
      if step.Push? {
        if CallAt(s, step.call, Recorded) { HeldPush(cfg, s, step.call); }
      } else if step.Send? {
        if CallAt(s, step.call, Pushed) && s.calls[step.call].env.delivery.Durable? { HeldSend(s, step.call); }
      } else if step.MarkNext? {
        if s.writer.Marking? { HeldMark(cfg, s); }
      } else {
        HeldQuiet(cfg, s, step);
      }
    }
  }

  lemma {:induction false} HeldAlways(cfg: Config, seed: nat, steps: seq<Step>)
    ensures LogRooms(Reach(cfg, seed, steps))
    ensures FreshIds(Reach(cfg, seed, steps)) ==> HeldOnce(Reach(cfg, seed, steps))
  {
    if steps == [] {
      assert Pipe(Reach(cfg, seed, steps)) == [];
    } else {
      var front := steps[..|steps| - 1];
      HeldAlways(cfg, seed, front);
      SafeAlways(cfg, seed, front);
      BaseAlways(cfg, seed, front);
      LogRoomsStep(cfg, Reach(cfg, seed, front), steps[|steps| - 1]);
      if FreshIds(Reach(cfg, seed, steps)) {
        HeldStep(cfg, Reach(cfg, seed, front), steps[|steps| - 1]);
      }
    }
  }

  /** In every run with fresh ids: a durable event that the current daemon accepted, or found
      stored when it started, is in its ring or in the store;
      an unpinned durable entry is in the store; and an event is pinned exactly when one
      place of the pipeline, or one call with an unfilled permit, holds it. */
  lemma PinnedOrPersisted(cfg: Config, seed: nat, steps: seq<Step>)
    requires FreshIds(Reach(cfg, seed, steps))
    ensures var s := Reach(cfg, seed, steps);
            && (forall room, e :: e in At(s.past.log, room) && e.delivery.Durable? ==> e in R.Envs(At(s.rings, room)) || e in At(s.sink, room))
            && (forall room, i :: 0 <= i < |At(s.rings, room)| ==> var x := At(s.rings, room)[i];
                  x.env.delivery.Durable? && !x.pinned ==> x.env in At(s.sink, room))
            && (forall e :: PinnedHere(s, e) <==> e in Pipe(s) || exists t :: UnsentBy(s, t, e))
            && (forall t, e :: UnsentBy(s, t, e) ==> e !in Pipe(s) && forall u :: UnsentBy(s, u, e) ==> u == t)
            && NoRepeat(Pipe(s))
  {
    var s := Reach(cfg, seed, steps);
    SafeAlways(cfg, seed, steps);
    HeldAlways(cfg, seed, steps);
    forall room, e | e in At(s.past.log, room) && e.delivery.Durable? ensures e in R.Envs(At(s.rings, room)) || e in At(s.sink, room) {
      assert RoomOk(s, room);
    }
    forall room, i | 0 <= i < |At(s.rings, room)| && At(s.rings, room)[i].env.delivery.Durable? && !At(s.rings, room)[i].pinned
      ensures At(s.rings, room)[i].env in At(s.sink, room)
    {
      assert RoomOk(s, room);
    }
    HeldMeans(s);
  }

  lemma HeldMeans(s: State)
    requires HeldOnce(s)
    ensures forall e :: PinnedHere(s, e) <==> e in Pipe(s) || exists t :: UnsentBy(s, t, e)
    ensures forall t, e :: UnsentBy(s, t, e) ==> e !in Pipe(s) && forall u :: UnsentBy(s, u, e) ==> u == t
    ensures NoRepeat(Pipe(s))
  {
    var p, q := PinnedSet(s), UnsentSet(s);
    forall e ensures PinnedHere(s, e) <==> e in Pipe(s) || exists t :: UnsentBy(s, t, e) {
      if PinnedHere(s, e) && e !in Pipe(s) {
        assert e in p;
        var t :| (t, e) in q;
        assert UnsentBy(s, t, e);
      }
      if e in Pipe(s) { assert e in p; }
      if t: nat :| UnsentBy(s, t, e) { assert (t, e) in q && e in p; }
    }
    forall t: nat, e | UnsentBy(s, t, e) ensures e !in Pipe(s) && forall u :: UnsentBy(s, u, e) ==> u == t {
      assert (t, e) in q;
      forall u: nat | UnsentBy(s, u, e) ensures u == t { assert (u, e) in q; }
    }
  }
}
