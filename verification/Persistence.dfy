/** Safety of the write-behind path over whole runs: an accepted durable event is always in
    its ring or in the store, every pinned entry has exactly one party responsible for it,
    and the unpersisted floor is bounded. */
module Persistence {
  import opened Envelopes
  import opened Bus
  import opened Channel
  import R = Ring
  import Sink

  // ---------------------------------------------------------------- what always holds

  ghost predicate StoreOk(sink: PerRoom<Envelope>) {
    forall room :: room in sink ==>
      Sink.BucketValid(sink[room]) && forall e :: e in sink[room] ==> e.delivery.Durable? && e.channel == room
  }

  ghost predicate Base(s: State) {
    && StoreOk(s.sink)
    && (forall e :: e in s.queue ==> e.delivery.Durable?)
    && (forall e :: e in s.batch ==> e.delivery.Durable?)
    && |s.batch| <= MAX_BATCH
    && (s.writer.Writing? ==> s.writer.done <= |s.batch|)
    && (s.writer.Marking? ==> s.writer.done < |s.batch|)
  }

  lemma StoreAppend(sink: PerRoom<Envelope>, e: Envelope)
    requires StoreOk(sink) && e.delivery.Durable?
    ensures StoreOk(sink[e.channel := Sink.Appended(At(sink, e.channel), e)])
  {
    Sink.AppendedValid(At(sink, e.channel), e);
  }

  ghost function Held(calls: map<nat, Call>, t: nat): nat {
    if t in calls && HoldsPermit(calls[t]) then 1 else 0
  }

  /** A call changing its stage changes the permit count only by its own permit. */
  lemma PermitsMove(calls: map<nat, Call>, t: nat, c: Call)
    ensures |Permits(calls - {t})| == |Permits(calls)| - Held(calls, t)
    ensures |Permits(calls[t := c])| == |Permits(calls)| - Held(calls, t) + if HoldsPermit(c) then 1 else 0
  {
    var others := Permits(calls) - {t};
    PermitsDrop(calls, t);
    PermitsPut(calls, t, c);
    assert Permits(calls) == if Held(calls, t) == 1 then others + {t} else others;
  }

  lemma PermitsDrop(calls: map<nat, Call>, t: nat)
    ensures Permits(calls - {t}) == Permits(calls) - {t}
  {
  }

  lemma PermitsPut(calls: map<nat, Call>, t: nat, c: Call)
    ensures Permits(calls[t := c]) == Permits(calls) - {t} + if HoldsPermit(c) then {t} else {}
  {
  }

  ghost predicate Capacity(cfg: Config, s: State) {
    |s.queue| + |Permits(s.calls)| <= cfg.WriteBehindBuffer()
  }

  lemma CapacityStart(cfg: Config, s: State, t: nat, env: Envelope)
    requires Capacity(cfg, s)
    ensures Capacity(cfg, DoStartPublish(s, t, env))
    ensures Capacity(cfg, DoStartIfNew(cfg, s, t, env))
  {
    PermitsMove(s.calls, t, Call(env, false, Admitted));
    PermitsMove(s.calls, t, Call(env, true, Probing));
  }

  lemma CapacityAdmit(cfg: Config, s: State, t: nat, b: bool)
    requires Capacity(cfg, s)
    ensures Capacity(cfg, DoProbe(s, t, b))
    ensures Capacity(cfg, DoReserve(cfg, s, t, b))
  {
    if t in s.calls {
      PermitsMove(s.calls, t, s.calls[t].(pc := Admitted));
      PermitsMove(s.calls, t, s.calls[t].(pc := Reserved));
    }
  }

  lemma CapacityMove(cfg: Config, s: State, t: nat, now: nat)
    requires Capacity(cfg, s)
    ensures Capacity(cfg, DoStamp(s, t, now))
    ensures Capacity(cfg, DoRecord(cfg, s, t))
    ensures Capacity(cfg, DoPush(cfg, s, t))
  {
    if t in s.calls {
      PermitsMove(s.calls, t, Call(StampEnv(s, s.calls[t].env, now), s.calls[t].ifNew, Stamped));
      PermitsMove(s.calls, t, s.calls[t].(pc := Recorded));
      PermitsMove(s.calls, t, s.calls[t].(pc := Pushed));
    }
  }

  lemma CapacityLeave(cfg: Config, s: State, t: nat)
    requires Capacity(cfg, s)
    ensures Capacity(cfg, DoSend(s, t))
    ensures Capacity(cfg, DoFinish(s, t))
  {
    if t in s.calls {
      PermitsMove(s.calls, t, s.calls[t].(pc := Sent));
    }
  }

  lemma CapacityCall(cfg: Config, s: State, step: Step)
    requires Capacity(cfg, s) && CallStep(step)
    ensures Capacity(cfg, ApplyCall(cfg, s, step))
  {
    match step
    case StartPublish(t, env) => CapacityStart(cfg, s, t, env);
    case StartIfNew(t, env) => CapacityStart(cfg, s, t, env);
    case Probe(t, failed) => CapacityAdmit(cfg, s, t, failed);
    case Reserve(t, gone) => CapacityAdmit(cfg, s, t, gone);
    case Stamp(t, now) => CapacityMove(cfg, s, t, now);
    case Record(t) => CapacityMove(cfg, s, t, 0);
    case Send(t) => CapacityLeave(cfg, s, t);
    case Finish(t) => CapacityLeave(cfg, s, t);
  }

  lemma CapacityStep(cfg: Config, s: State, step: Step)
    requires Capacity(cfg, s)
    ensures Capacity(cfg, Apply(cfg, s, step))
  {
    if step.Push? {
      CapacityMove(cfg, s, step.call, 0);
    } else if !step.Restart? {
      ApplyCases(cfg, s, step);
      if CallStep(step) {
        CapacityCall(cfg, s, step);
      } else if WriterStep(step) {
        CapacityWriter(cfg, s, step);
      }
    }
  }

  lemma CapacityWriter(cfg: Config, s: State, step: Step)
    requires Capacity(cfg, s) && WriterStep(step)
    ensures Capacity(cfg, ApplyWriter(cfg, s, step))
  {
  }

  lemma BaseWriter(cfg: Config, s: State, step: Step)
    requires Base(s) && WriterStep(step)
    ensures Base(ApplyWriter(cfg, s, step))
  {
    if step.AppendNext? && s.writer.Writing? && s.writer.done < |s.batch| { StoreAppend(s.sink, s.batch[s.writer.done]); }
  }

  lemma BaseSend(s: State, t: nat)
    requires Base(s)
    ensures Base(DoSend(s, t))
  {
  }

  lemma BaseStep(cfg: Config, s: State, step: Step)
    requires Base(s)
    ensures Base(Apply(cfg, s, step))
  {
    if WriterStep(step) {
      ApplyCases(cfg, s, step);
      BaseWriter(cfg, s, step);
    } else if step.Send? {
      ApplyCases(cfg, s, step);
      BaseSend(s, step.call);
    } else if !step.Restart? {
      PipelineFrame(cfg, s, step);
    }
  }

  lemma {:induction false} BaseAlways(cfg: Config, seed: nat, steps: seq<Step>)
    ensures Base(Reach(cfg, seed, steps)) && Capacity(cfg, Reach(cfg, seed, steps))
  {
    if steps != [] {
      BaseAlways(cfg, seed, steps[..|steps| - 1]);
      BaseStep(cfg, Reach(cfg, seed, steps[..|steps| - 1]), steps[|steps| - 1]);
      CapacityStep(cfg, Reach(cfg, seed, steps[..|steps| - 1]), steps[|steps| - 1]);
    }
  }

  // ---------------------------------------------------------------- pinned or persisted

  /** No channel has ringed one id twice since its log began. */
  ghost predicate FreshIds(s: State) {
    forall room :: DistinctIds(At(s.past.log, room))
  }

  /** Fresh ids now means fresh ids one step earlier, unless the step was a restart. */
  lemma FreshBefore(cfg: Config, s: State, step: Step)
    requires FreshIds(Apply(cfg, s, step)) && !step.Restart?
    ensures FreshIds(s)
  {
    var s' := Apply(cfg, s, step);
    forall room ensures DistinctIds(At(s.past.log, room)) {
      assert DistinctIds(At(s'.past.log, room));
      LogGrows(cfg, s, step, room);
      assert forall i :: 0 <= i < |At(s.past.log, room)| ==> At(s'.past.log, room)[i] == At(s.past.log, room)[i];
    }
  }

  lemma LogGrows(cfg: Config, s: State, step: Step, room: RoomId)
    requires !step.Restart?
    ensures At(s.past.log, room) <= At(Apply(cfg, s, step).past.log, room)
  {
    if !step.Push? { ApplyCases(cfg, s, step); }
  }

  ghost predicate RoomOk(s: State, room: RoomId) {
    ChannelOk(At(s.rings, room), At(s.sink, room), At(s.past.log, room))
  }

  ghost predicate Logged(s: State, e: Envelope) {
    e in At(s.past.log, e.channel)
  }

  ghost predicate InStore(s: State, e: Envelope) {
    e in At(s.sink, e.channel)
  }

  ghost predicate Rooms(s: State) {
    forall room :: RoomOk(s, room)
  }

  /** Everything on its way to the store was accepted, and the writer's progress is real. */
  ghost predicate Pipeline(s: State) {
    && (forall e :: e in s.queue ==> Logged(s, e))
    && (forall e :: e in s.batch ==> Logged(s, e))
    && (s.writer.Writing? ==> forall j :: 0 <= j < s.writer.done && j < |s.batch| ==> InStore(s, s.batch[j]))
    && (s.writer.Marking? ==> forall e :: e in s.batch ==> InStore(s, e))
  }

  /** The call has pushed this durable event and not yet filled its permit. */
  ghost predicate UnsentBy(s: State, t: nat, e: Envelope) {
    t in s.calls && s.calls[t].pc.Pushed? && e.delivery.Durable? && s.calls[t].env == e
  }

  ghost predicate UnsentLogged(s: State) {
    forall t, e :: UnsentBy(s, t, e) ==> Logged(s, e)
  }

  ghost predicate Safe(s: State) {
    Rooms(s) && Pipeline(s) && UnsentLogged(s)
  }

  lemma RoomsPush(cfg: Config, s: State, t: nat)
    requires Rooms(s) && CallAt(s, t, Recorded)
    requires FreshIds(DoPush(cfg, s, t))
    ensures Rooms(DoPush(cfg, s, t))
  {
    var s' := DoPush(cfg, s, t);
    var e := s.calls[t].env;
    assert RoomOk(s, e.channel);
    assert DistinctIds(At(s'.past.log, e.channel));
    if !e.delivery.EphemeralLatest? {
      PushOk(At(s.rings, e.channel), At(s.sink, e.channel), At(s.past.log, e.channel), e, cfg.RingCapacity(), cfg.ringByteBudget);
    }
    forall room ensures RoomOk(s', room) {
      assert RoomOk(s, room);
    }
  }

  lemma SafeAppend(s: State)
    requires Safe(s) && Base(s) && FreshIds(s)
    requires s.writer.Writing? && s.writer.done < |s.batch|
    ensures Rooms(DoAppendNext(s)) && Pipeline(DoAppendNext(s))
  {
    var s' := DoAppendNext(s);
    var e := s.batch[s.writer.done];
    AppendInPlace(s);
    forall room ensures RoomOk(s', room) {
      assert RoomOk(s, room);
    }
    forall x | Logged(s, x) ensures Logged(s', x) { }
    forall j | 0 <= j < s'.writer.done && j < |s.batch| ensures InStore(s', s.batch[j]) {
      if j < s.writer.done { assert InStore(s, s.batch[j]); }
    }
  }

  /** One stored event keeps its channel in order and adds to its rows. */
  lemma AppendInPlace(s: State)
    requires Safe(s) && Base(s) && FreshIds(s)
    requires s.writer.Writing? && s.writer.done < |s.batch|
    ensures var e, s' := s.batch[s.writer.done], DoAppendNext(s);
            && RoomOk(s', e.channel) && InStore(s', e)
            && (forall x :: x in At(s.sink, e.channel) ==> x in At(s'.sink, e.channel))
            && s'.rings == s.rings && s'.past == s.past && s'.batch == s.batch && s'.queue == s.queue
            && (forall room :: room != e.channel ==> At(s'.sink, room) == At(s.sink, room))
  {
    var e := s.batch[s.writer.done];
    assert e in s.batch && Logged(s, e);
    assert RoomOk(s, e.channel) && DistinctIds(At(s.past.log, e.channel));
    AppendOk(At(s.rings, e.channel), At(s.sink, e.channel), At(s.past.log, e.channel), e);
    Sink.AppendedValid(At(s.sink, e.channel), e);
  }

  lemma RoomsMark(cfg: Config, s: State)
    requires Safe(s) && FreshIds(s)
    requires s.writer.Marking? && s.writer.done < |s.batch|
    ensures Rooms(DoMarkNext(cfg, s))
  {
    var s' := DoMarkNext(cfg, s);
    var e := s.batch[s.writer.done];
    assert e in s.batch && InStore(s, e);
    assert RoomOk(s, e.channel) && DistinctIds(At(s.past.log, e.channel));
    MarkOk(At(s.rings, e.channel), At(s.sink, e.channel), At(s.past.log, e.channel), e, cfg.RingCapacity(), cfg.ringByteBudget);
    forall room ensures RoomOk(s', room) {
      assert RoomOk(s, room);
    }
  }

  lemma SafeRestart(sink: PerRoom<Envelope>, epoch: nat, seed: nat, ever: PerRoom<Envelope>)
    requires StoreOk(sink)
    ensures Safe(Fresh(epoch, seed, sink, ever))
  {
    var s' := Fresh(epoch, seed, sink, ever);
    forall room ensures RoomOk(s', room) {
      assert R.Envs(At(s'.rings, room)) == [];
    }
  }

  /** Only four kinds of step touch a ring, the store or a log. */
  lemma QuietFrame(cfg: Config, s: State, step: Step)
    requires !step.Push? && !step.AppendNext? && !step.MarkNext? && !step.Restart?
    ensures var s' := Apply(cfg, s, step);
            s'.rings == s.rings && s'.sink == s.sink && s'.past.log == s.past.log
  {
    ApplyCases(cfg, s, step);
  }

  lemma RoomsStep(cfg: Config, s: State, step: Step)
    requires Base(s) && Safe(s) && FreshIds(s) && !step.Restart?
    requires FreshIds(Apply(cfg, s, step))
    ensures Rooms(Apply(cfg, s, step))
  {
    if step.Push? {
      if CallAt(s, step.call, Recorded) { RoomsPush(cfg, s, step.call); }
    } else if step.AppendNext? {
      if s.writer.Writing? && s.writer.done < |s.batch| { SafeAppend(s); }
    } else if step.MarkNext? {
      if s.writer.Marking? && s.writer.done < |s.batch| { RoomsMark(cfg, s); }
    } else {
      QuietFrame(cfg, s, step);
      forall room ensures RoomOk(Apply(cfg, s, step), room) { assert RoomOk(s, room); }
    }
  }

  /** Only a send and the writer itself touch the pipeline. */
  lemma PipelineFrame(cfg: Config, s: State, step: Step)
    requires !step.Send? && !WriterStep(step) && !step.Restart?
    ensures var s' := Apply(cfg, s, step);
            s'.queue == s.queue && s'.batch == s.batch && s'.writer == s.writer && s'.sink == s.sink
  {
    if !step.Push? { ApplyCases(cfg, s, step); }
  }

  lemma PipelineKept(s: State, s': State)
    requires Pipeline(s)
    requires s'.queue == s.queue && s'.batch == s.batch && s'.writer == s.writer && s'.sink == s.sink
    requires forall room :: At(s.past.log, room) <= At(s'.past.log, room)
    ensures Pipeline(s')
  {
    forall e | Logged(s, e) ensures Logged(s', e) {
      assert At(s.past.log, e.channel) <= At(s'.past.log, e.channel);
    }
    forall e | InStore(s, e) ensures InStore(s', e) {
    }
  }

  lemma PipelineSend(s: State, t: nat)
    requires Pipeline(s) && UnsentLogged(s)
    ensures Pipeline(DoSend(s, t))
  {
    var s' := DoSend(s, t);
    if CallAt(s, t, Pushed) && s.calls[t].env.delivery.Durable? { assert UnsentBy(s, t, s.calls[t].env); }
    forall e | Logged(s, e) ensures Logged(s', e) { }
    forall e | InStore(s, e) ensures InStore(s', e) { }
  }

  lemma PipelineCollect(s: State)
    requires Pipeline(s)
    ensures Pipeline(DoCollect(s))
  {
    var s' := DoCollect(s);
    if s.queue != [] { assert s.queue == [s.queue[0]] + s.queue[1..]; }
    forall e | e in s'.queue || e in s'.batch ensures Logged(s', e) { assert Logged(s, e); }
    forall e | InStore(s, e) ensures InStore(s', e) { }
  }

  lemma PipelineBeginMark(s: State)
    requires Pipeline(s)
    ensures Pipeline(DoBeginMark(s))
  {
    var s' := DoBeginMark(s);
    forall e | Logged(s, e) ensures Logged(s', e) { }
    if s'.writer.Marking? {
      forall e | e in s.batch ensures InStore(s', e) {
        var j :| 0 <= j < |s.batch| && s.batch[j] == e;
        assert InStore(s, s.batch[j]);
      }
    }
  }

  lemma PipelineTurn(s: State)
    requires Pipeline(s)
    ensures Pipeline(DoBeginWrite(s)) && Pipeline(DoAppendFail(s))
  {
    var a, b := DoBeginWrite(s), DoAppendFail(s);
    forall e | Logged(s, e) ensures Logged(a, e) && Logged(b, e) { }
    forall e | InStore(s, e) ensures InStore(a, e) && InStore(b, e) { }
  }

  lemma PipelineMark(cfg: Config, s: State)
    requires Pipeline(s)
    ensures Pipeline(DoMarkNext(cfg, s))
  {
    var s' := DoMarkNext(cfg, s);
    forall e | Logged(s, e) ensures Logged(s', e) { }
    forall e | InStore(s, e) ensures InStore(s', e) { }
  }

  lemma PipelineWriter(cfg: Config, s: State, step: Step)
    requires Base(s) && Safe(s) && FreshIds(s) && WriterStep(step)
    ensures Pipeline(ApplyWriter(cfg, s, step))
  {
    match step
    case Collect => PipelineCollect(s);
    case BeginWrite => PipelineTurn(s);
    case AppendNext => if s.writer.Writing? && s.writer.done < |s.batch| { SafeAppend(s); }
    case AppendFail => PipelineTurn(s);
    case BeginMark => PipelineBeginMark(s);
    case MarkNext => PipelineMark(cfg, s);
  }

  lemma PipelineStep(cfg: Config, s: State, step: Step)
    requires Base(s) && Safe(s) && FreshIds(s) && !step.Restart?
    ensures Pipeline(Apply(cfg, s, step))
  {
    if WriterStep(step) {
      PipelineWriter(cfg, s, step);
    } else if step.Send? {
      PipelineSend(s, step.call);
    } else {
      PipelineFrame(cfg, s, step);
      forall room ensures At(s.past.log, room) <= At(Apply(cfg, s, step).past.log, room) { LogGrows(cfg, s, step, room); }
      PipelineKept(s, Apply(cfg, s, step));
    }
  }

  lemma UnsentStart(cfg: Config, s: State, t: nat, env: Envelope, u: nat, e: Envelope)
    ensures UnsentBy(DoStartPublish(s, t, env), u, e) <==> UnsentBy(s, u, e)
    ensures UnsentBy(DoStartIfNew(cfg, s, t, env), u, e) <==> UnsentBy(s, u, e)
  {
  }

  lemma UnsentAdmit(cfg: Config, s: State, t: nat, b: bool, u: nat, e: Envelope)
    ensures UnsentBy(DoProbe(s, t, b), u, e) <==> UnsentBy(s, u, e)
    ensures UnsentBy(DoReserve(cfg, s, t, b), u, e) <==> UnsentBy(s, u, e)
  {
  }

  lemma UnsentMove(cfg: Config, s: State, t: nat, now: nat, u: nat, e: Envelope)
    ensures UnsentBy(DoStamp(s, t, now), u, e) <==> UnsentBy(s, u, e)
    ensures UnsentBy(DoRecord(cfg, s, t), u, e) <==> UnsentBy(s, u, e)
    ensures UnsentBy(DoFinish(s, t), u, e) <==> UnsentBy(s, u, e)
  {
  }

  lemma UnsentCall(cfg: Config, s: State, step: Step, u: nat, e: Envelope)
    requires CallStep(step) && !step.Send?
    ensures UnsentBy(ApplyCall(cfg, s, step), u, e) <==> UnsentBy(s, u, e)
  {
    match step
    case StartPublish(t, env) => UnsentStart(cfg, s, t, env, u, e);
    case StartIfNew(t, env) => UnsentStart(cfg, s, t, env, u, e);
    case Probe(t, failed) => UnsentAdmit(cfg, s, t, failed, u, e);
    case Reserve(t, gone) => UnsentAdmit(cfg, s, t, gone, u, e);
    case Stamp(t, now) => UnsentMove(cfg, s, t, now, u, e);
    case Record(t) => UnsentMove(cfg, s, t, 0, u, e);
    case Finish(t) => UnsentMove(cfg, s, t, 0, u, e);
  }

  /** A step that is neither a push nor a send leaves the set of unsent calls alone. */
  lemma UnsentFrame(cfg: Config, s: State, step: Step)
    requires !step.Restart? && !step.Push? && !step.Send?
    ensures forall t, e :: UnsentBy(Apply(cfg, s, step), t, e) <==> UnsentBy(s, t, e)
  {
    forall t: nat, e ensures UnsentBy(Apply(cfg, s, step), t, e) <==> UnsentBy(s, t, e) {
      if CallStep(step) { UnsentCall(cfg, s, step, t, e); }
    }
  }

  lemma UnsentStep(cfg: Config, s: State, step: Step)
    requires UnsentLogged(s) && !step.Restart?
    ensures UnsentLogged(Apply(cfg, s, step))
  {
    var s' := Apply(cfg, s, step);
    if step.Push? {
      UnsentPush(cfg, s, step.call);
    } else if step.Send? {
      UnsentSend(s, step.call);
    } else {
      UnsentFrame(cfg, s, step);
      forall t: nat, e | UnsentBy(s', t, e) ensures Logged(s', e) {
        assert Logged(s, e);
        LogGrows(cfg, s, step, e.channel);
      }
    }
  }

  lemma UnsentPush(cfg: Config, s: State, t: nat)
    requires UnsentLogged(s)
    ensures UnsentLogged(DoPush(cfg, s, t))
  {
    var s' := DoPush(cfg, s, t);
    forall u: nat, e | UnsentBy(s', u, e) ensures Logged(s', e) {
      if UnsentBy(s, u, e) {
        assert Logged(s, e);
        LogGrows(cfg, s, Push(t), e.channel);
      }
    }
  }

  lemma UnsentSend(s: State, t: nat)
    requires UnsentLogged(s)
    ensures UnsentLogged(DoSend(s, t))
  {
    var s' := DoSend(s, t);
    forall u: nat, e | UnsentBy(s', u, e) ensures Logged(s', e) {
      assert UnsentBy(s, u, e);
    }
  }

  lemma SafeStep(cfg: Config, s: State, step: Step)
    requires Base(s)
    requires FreshIds(s) ==> Safe(s)
    requires FreshIds(Apply(cfg, s, step))
    ensures Safe(Apply(cfg, s, step))
  {
    if step.Restart? {
      SafeRestart(s.sink, s.epoch + 1, step.seed, s.past.ever);
    } else {
      FreshBefore(cfg, s, step);
      RoomsStep(cfg, s, step);
      PipelineStep(cfg, s, step);
      UnsentStep(cfg, s, step);
    }
  }

  lemma {:induction false} SafeAlways(cfg: Config, seed: nat, steps: seq<Step>)
    ensures FreshIds(Reach(cfg, seed, steps)) ==> Safe(Reach(cfg, seed, steps))
  {
    if steps == [] {
      SafeRestart(map[], 1, seed, map[]);
    } else {
      var front := steps[..|steps| - 1];
      SafeAlways(cfg, seed, front);
      BaseAlways(cfg, seed, front);
      if FreshIds(Reach(cfg, seed, steps)) {
        SafeStep(cfg, Reach(cfg, seed, front), steps[|steps| - 1]);
      }
    }
  }
}
