/** The bound on unpersisted work. When permits are filled in the order of acceptance per
    channel, the unpersisted durables are always the newest ones, so no ring outgrows its
    capacity or its pinned entries; and in every run the pinned entries of all rings
    together are bounded by the write-behind buffer plus one writer batch. */
module Floor {
  import opened Envelopes
  import opened Selection
  import opened Bus
  import opened Persistence
  import opened Holders
  import R = Ring

  /** Each channel queued its durables in the order its ring accepted them. */
  ghost predicate InOrderSends(s: State) {
    forall room :: At(s.past.sent, room) <= Select(At(s.past.log, room), IsDurable)
  }

  ghost predicate SentShape(s: State, room: RoomId) {
    At(s.past.sent, room) == At(s.past.marked, room) + Select(Pipe(s), OnChannel(room))
  }

  ghost predicate SentLogged(s: State, room: RoomId) {
    forall e :: e in At(s.past.sent, room) ==> e in At(s.past.log, room)
  }

  ghost predicate FloorOk(s: State, room: RoomId) {
    var durables, done := Select(At(s.past.log, room), IsDurable), At(s.past.marked, room);
    && |done| <= |durables|
    && R.PinnedEnvs(At(s.rings, room)) == durables[|done|..]
    && R.PinnedSuffix(At(s.rings, room))
  }

  ghost predicate RingSettled(cfg: Config, s: State, room: RoomId) {
    R.WellPinned(At(s.rings, room)) && R.Settled(At(s.rings, room), cfg.RingCapacity(), cfg.ringByteBudget)
  }

  lemma SettledStep(cfg: Config, s: State, step: Step)
    requires forall room :: RingSettled(cfg, s, room)
    ensures forall room :: RingSettled(cfg, Apply(cfg, s, step), room)
  {
    forall room ensures RingSettled(cfg, Apply(cfg, s, step), room) {
      assert RingSettled(cfg, s, room);
      if step.Push? {
        SettledPush(cfg, s, step.call, room);
      } else if step.MarkNext? {
        SettledMark(cfg, s, room);
      } else if !step.AppendNext? && !step.Restart? {
        QuietFrame(cfg, s, step);
      }
    }
  }

  lemma SettledPush(cfg: Config, s: State, t: nat, room: RoomId)
    requires RingSettled(cfg, s, room)
    ensures RingSettled(cfg, DoPush(cfg, s, t), room)
  {
    if CallAt(s, t, Recorded) { PushedPins(At(s.rings, room), s.calls[t].env, cfg.RingCapacity(), cfg.ringByteBudget); }
  }

  lemma SettledMark(cfg: Config, s: State, room: RoomId)
    requires RingSettled(cfg, s, room)
    ensures RingSettled(cfg, DoMarkNext(cfg, s), room)
  {
    if s.writer.Marking? && s.writer.done < |s.batch| {
      MarkedPins(At(s.rings, room), s.batch[s.writer.done].eventId, cfg.RingCapacity(), cfg.ringByteBudget);
    }
  }

  lemma {:induction false} SettledAlways(cfg: Config, seed: nat, steps: seq<Step>)
    ensures forall room :: RingSettled(cfg, Reach(cfg, seed, steps), room)
  {
    if steps != [] {
      SettledAlways(cfg, seed, steps[..|steps| - 1]);
      SettledStep(cfg, Reach(cfg, seed, steps[..|steps| - 1]), steps[|steps| - 1]);
    }
  }

  /** Only a send extends `sent`, only a confirmation extends `marked`. */
  lemma SentFrame(cfg: Config, s: State, step: Step)
    requires !step.Send? && !step.MarkNext? && !step.Restart?
    ensures var s' := Apply(cfg, s, step); s'.past.sent == s.past.sent && s'.past.marked == s.past.marked
  {
    if !step.Push? { ApplyCases(cfg, s, step); }
  }

  lemma SentGrows(s: State, t: nat, room: RoomId)
    requires CallAt(s, t, Pushed) && s.calls[t].env.delivery.Durable?
    ensures var e, s' := s.calls[t].env, DoSend(s, t);
            s'.past.marked == s.past.marked
            && At(s'.past.sent, room) == At(s.past.sent, room) + if e.channel == room then [e] else []
  {
  }

  lemma SentShapeSend(s: State, t: nat, room: RoomId)
    requires SentShape(s, room) && CallAt(s, t, Pushed) && s.calls[t].env.delivery.Durable?
    ensures SentShape(DoSend(s, t), room)
  {
    var e, s', pipe := s.calls[t].env, DoSend(s, t), Select(Pipe(s), OnChannel(room));
    var extra := if e.channel == room then [e] else [];
    assert Select(Pipe(s'), OnChannel(room)) == pipe + extra by {
      PipeSend(s, t);
      SelectLast(Pipe(s), e, OnChannel(room));
    }
    assert At(s'.past.sent, room) == At(s.past.sent, room) + extra && s'.past.marked == s.past.marked by {
      SentGrows(s, t, room);
    }
    Regroup(At(s.past.marked, room), pipe, extra);
  }

  lemma SelectHead(pipe: seq<Envelope>, p: Pred)
    requires pipe != []
    ensures Select(pipe, p) == (if p.Holds(pipe[0]) then [pipe[0]] else []) + Select(pipe[1..], p)
  {
    assert pipe == [pipe[0]] + pipe[1..];
    SelectAppend([pipe[0]], pipe[1..], p);
    assert Select([pipe[0]], p) == if p.Holds(pipe[0]) then [pipe[0]] else [];
  }

  lemma MarkedGrows(cfg: Config, s: State, room: RoomId)
    requires Base(s) && s.writer.Marking?
    ensures var e, s' := s.batch[s.writer.done], DoMarkNext(cfg, s);
            s'.past.sent == s.past.sent
            && At(s'.past.marked, room) == At(s.past.marked, room) + if e.channel == room then [e] else []
  {
  }

  lemma SentShapeMark(cfg: Config, s: State, room: RoomId)
    requires Base(s) && SentShape(s, room) && s.writer.Marking?
    ensures SentShape(DoMarkNext(cfg, s), room)
  {
    var e, s' := s.batch[s.writer.done], DoMarkNext(cfg, s);
    var rest := Select(Pipe(s'), OnChannel(room));
    var extra := if e.channel == room then [e] else [];
    assert Select(Pipe(s), OnChannel(room)) == extra + rest by {
      PipeMark(cfg, s);
      SelectHead(Pipe(s), OnChannel(room));
    }
    assert At(s'.past.marked, room) == At(s.past.marked, room) + extra && s'.past.sent == s.past.sent by {
      MarkedGrows(cfg, s, room);
    }
    Regroup(At(s.past.marked, room), extra, rest);
  }

  lemma SentShapeQuiet(cfg: Config, s: State, step: Step, room: RoomId)
    requires SentShape(s, room) && !step.Send? && !step.MarkNext? && !step.Restart?
    ensures SentShape(Apply(cfg, s, step), room)
  {
    PipeQuiet(cfg, s, step);
    SentFrame(cfg, s, step);
  }

  lemma SentShapeFresh(epoch: nat, seed: nat, sink: PerRoom<Envelope>, room: RoomId, ever: PerRoom<Envelope>)
    ensures SentShape(Fresh(epoch, seed, sink, ever), room)
  {
    assert Pipe(Fresh(epoch, seed, sink, ever)) == [];
  }

  lemma SentShapeStep(cfg: Config, s: State, step: Step, room: RoomId)
    requires Base(s) && SentShape(s, room)
    ensures SentShape(Apply(cfg, s, step), room)
  {
    if step.Restart? {
      SentShapeFresh(s.epoch + 1, step.seed, s.sink, room, s.past.ever);
    } else if step.Send? {
      if CallAt(s, step.call, Pushed) && s.calls[step.call].env.delivery.Durable? { SentShapeSend(s, step.call, room); }
    } else if step.MarkNext? {
      if s.writer.Marking? { SentShapeMark(cfg, s, room); }
    } else {
      SentShapeQuiet(cfg, s, step, room);
    }
  }

  lemma SentLoggedStep(cfg: Config, s: State, step: Step, room: RoomId)
    requires SentLogged(s, room) && (FreshIds(s) ==> Safe(s))
    requires FreshIds(Apply(cfg, s, step))
    ensures SentLogged(Apply(cfg, s, step), room)
  {
    if !step.Restart? {
      FreshBefore(cfg, s, step);
      LogGrows(cfg, s, step, room);
      if step.Send? {
        if CallAt(s, step.call, Pushed) && s.calls[step.call].env.delivery.Durable? {
          assert UnsentBy(s, step.call, s.calls[step.call].env);
          assert Logged(s, s.calls[step.call].env);
        }
      } else if !step.MarkNext? {
        SentFrame(cfg, s, step);
      }
    }
  }

  /** Sends in order now means sends in order one step earlier. */
  lemma InOrderBefore(cfg: Config, s: State, step: Step)
    requires !step.Restart? && FreshIds(Apply(cfg, s, step)) && InOrderSends(Apply(cfg, s, step))
    requires forall room :: SentLogged(s, room)
    ensures InOrderSends(s)
  {
    forall room ensures At(s.past.sent, room) <= Select(At(s.past.log, room), IsDurable) {
      assert At(Apply(cfg, s, step).past.sent, room) <= Select(At(Apply(cfg, s, step).past.log, room), IsDurable);
      assert SentLogged(s, room);
      InOrderRoom(cfg, s, step, room);
    }
  }

  lemma InOrderRoom(cfg: Config, s: State, step: Step, room: RoomId)
    requires !step.Restart? && FreshIds(Apply(cfg, s, step)) && SentLogged(s, room)
    requires var s' := Apply(cfg, s, step); At(s'.past.sent, room) <= Select(At(s'.past.log, room), IsDurable)
    ensures At(s.past.sent, room) <= Select(At(s.past.log, room), IsDurable)
  {
    if step.Push? {
      InOrderPush(cfg, s, step.call, room);
    } else if step.Send? {
      ApplyCases(cfg, s, step);
      InOrderSend(s, step.call, room);
    } else if step.MarkNext? {
      ApplyCases(cfg, s, step);
    } else {
      SentFrame(cfg, s, step);
      FloorFrame(cfg, s, step);
    }
  }

  lemma InOrderSend(s: State, t: nat, room: RoomId)
    requires At(DoSend(s, t).past.sent, room) <= Select(At(s.past.log, room), IsDurable)
    ensures At(s.past.sent, room) <= Select(At(s.past.log, room), IsDurable)
  {
  }

  lemma InOrderPush(cfg: Config, s: State, t: nat, room: RoomId)
    requires FreshIds(DoPush(cfg, s, t)) && SentLogged(s, room)
    requires At(s.past.sent, room) <= Select(At(DoPush(cfg, s, t).past.log, room), IsDurable)
    ensures At(s.past.sent, room) <= Select(At(s.past.log, room), IsDurable)
  {
    if CallAt(s, t, Recorded) && s.calls[t].env.channel == room && s.calls[t].env.delivery.Durable? {
      var e := s.calls[t].env;
      PushIsNew(cfg, s, t);
      var sent, durables := At(s.past.sent, room), Select(At(s.past.log, room), IsDurable);
      SelectAppend(At(s.past.log, room), [e], IsDurable);
      PrefixBefore(sent, durables, e);
    } else if CallAt(s, t, Recorded) && s.calls[t].env.channel == room {
      SelectAppend(At(s.past.log, room), [s.calls[t].env], IsDurable);
    }
  }

  lemma PrefixBefore(sent: seq<Envelope>, durables: seq<Envelope>, e: Envelope)
    requires sent <= durables + [e] && e !in sent
    ensures sent <= durables
  {
    var d := durables + [e];
    assert d[|durables|] == e;
    assert forall i {:trigger d[i]} :: 0 <= i < |sent| ==> d[i] in sent;
  }

  lemma {:induction false} PushNewest(slots: seq<R.Slot>, e: Envelope, log: seq<Envelope>, n: nat, capacity: nat, byteBudget: nat)
    requires capacity >= 1 && R.WellPinned(slots) && R.PinnedSuffix(slots)
    requires n <= |Select(log, IsDurable)| && R.PinnedEnvs(slots) == Select(log, IsDurable)[n..]
    ensures n <= |Select(log + [e], IsDurable)|
    ensures R.PinnedEnvs(R.Pushed(slots, e, capacity, byteBudget)) == Select(log + [e], IsDurable)[n..]
    ensures R.PinnedSuffix(R.Pushed(slots, e, capacity, byteBudget))
  {
    PushedPins(slots, e, capacity, byteBudget);
    SelectAppend(log, [e], IsDurable);
    R.EvictKeepsPinnedSuffix(slots + [R.Slot(e, e.delivery.Durable?)], capacity, byteBudget);
  }

  lemma FloorPush(cfg: Config, s: State, t: nat, room: RoomId)
    requires FloorOk(s, room) && RingSettled(cfg, s, room) && CallAt(s, t, Recorded)
    ensures FloorOk(DoPush(cfg, s, t), room)
  {
    var e := s.calls[t].env;
    if e.channel == room && !e.delivery.EphemeralLatest? {
      PushedInPlace(cfg, s, t);
      PushNewest(At(s.rings, room), e, At(s.past.log, room), |At(s.past.marked, room)|, cfg.RingCapacity(), cfg.ringByteBudget);
    } else {
      PushedElsewhere(cfg, s, t, room);
    }
  }

  /** The event the writer confirms next is its ring's oldest pinned one. */
  lemma NextIsOldest(cfg: Config, s: State)
    requires Base(s) && s.writer.Marking?
    requires var room := s.batch[s.writer.done].channel;
             && FloorOk(s, room) && SentShape(s, room)
             && At(s.past.sent, room) <= Select(At(s.past.log, room), IsDurable)
    ensures var e := s.batch[s.writer.done];
            var pins := R.PinnedEnvs(At(s.rings, e.channel));
            pins != [] && pins[0] == e
  {
    var e := s.batch[s.writer.done];
    PipeMark(cfg, s);
    NextOfSent(At(s.past.sent, e.channel), At(s.past.marked, e.channel), Pipe(s), Select(At(s.past.log, e.channel), IsDurable), e);
  }

  lemma NextOfSent(sent: seq<Envelope>, done: seq<Envelope>, pipe: seq<Envelope>, durables: seq<Envelope>, e: Envelope)
    requires sent == done + Select(pipe, OnChannel(e.channel)) && sent <= durables
    requires pipe != [] && pipe[0] == e
    ensures |done| < |durables| && durables[|done|] == e
  {
    SelectHead(pipe, OnChannel(e.channel));
    assert sent[|done|] == e;
  }

  lemma FloorMarkElsewhere(cfg: Config, s: State, room: RoomId)
    requires Base(s) && FloorOk(s, room) && s.writer.Marking? && s.batch[s.writer.done].channel != room
    ensures FloorOk(DoMarkNext(cfg, s), room)
  {
    MarkedElsewhere(cfg, s, room);
  }

  lemma FloorMark(cfg: Config, s: State)
    requires Base(s) && s.writer.Marking?
    requires var room := s.batch[s.writer.done].channel;
             && FloorOk(s, room) && SentShape(s, room)
             && At(s.past.sent, room) <= Select(At(s.past.log, room), IsDurable)
             && R.WellPinned(At(s.rings, room)) && DistinctIds(R.Envs(At(s.rings, room)))
    ensures FloorOk(DoMarkNext(cfg, s), s.batch[s.writer.done].channel)
  {
    var e := s.batch[s.writer.done];
    NextIsOldest(cfg, s);
    MarkOldest(At(s.rings, e.channel), e, Select(At(s.past.log, e.channel), IsDurable), |At(s.past.marked, e.channel)|,
               cfg.RingCapacity(), cfg.ringByteBudget);
    MarkedInPlace(cfg, s);
  }

  /** What one confirmation does to the histories and ring of its own channel. */
  lemma MarkedInPlace(cfg: Config, s: State)
    requires Base(s) && s.writer.Marking?
    requires At(s.rings, s.batch[s.writer.done].channel) != []
    ensures var e, s' := s.batch[s.writer.done], DoMarkNext(cfg, s);
            && s'.past.log == s.past.log
            && At(s'.past.marked, e.channel) == At(s.past.marked, e.channel) + [e]
            && At(s'.rings, e.channel) == R.Marked(At(s.rings, e.channel), e.eventId, cfg.RingCapacity(), cfg.ringByteBudget)
  {
  }

  lemma MarkedElsewhere(cfg: Config, s: State, room: RoomId)
    requires Base(s) && s.writer.Marking? && s.batch[s.writer.done].channel != room
    ensures var s' := DoMarkNext(cfg, s);
            s'.past.log == s.past.log && At(s'.past.marked, room) == At(s.past.marked, room) && At(s'.rings, room) == At(s.rings, room)
  {
  }

  lemma MarkedEmpty(cfg: Config, s: State)
    requires Base(s) && s.writer.Marking? && At(s.rings, s.batch[s.writer.done].channel) == []
    ensures var s' := DoMarkNext(cfg, s);
            s'.past.log == s.past.log && At(s'.rings, s.batch[s.writer.done].channel) == []
  {
  }

  lemma MarkOldest(slots: seq<R.Slot>, e: Envelope, durables: seq<Envelope>, n: nat, capacity: nat, byteBudget: nat)
    requires capacity >= 1 && R.WellPinned(slots) && DistinctIds(R.Envs(slots)) && R.PinnedSuffix(slots)
    requires n <= |durables| && R.PinnedEnvs(slots) == durables[n..]
    requires R.PinnedEnvs(slots) != [] && R.PinnedEnvs(slots)[0] == e
    ensures n < |durables| && R.PinnedEnvs(R.Marked(slots, e.eventId, capacity, byteBudget)) == durables[n + 1..]
    ensures R.PinnedSuffix(R.Marked(slots, e.eventId, capacity, byteBudget))
  {
    MarkedPins(slots, e.eventId, capacity, byteBudget);
    R.UnpinOldest(slots, e.eventId);
    R.UnpinOldestKeepsSuffix(slots, e.eventId);
    R.EvictKeepsPinnedSuffix(R.Unpin(slots, e.eventId), capacity, byteBudget);
  }

  lemma FloorRestart(sink: PerRoom<Envelope>, epoch: nat, seed: nat, room: RoomId, ever: PerRoom<Envelope>)
    requires StoreOk(sink)
    ensures FloorOk(Fresh(epoch, seed, sink, ever), room)
  {
    SelectAll(At(sink, room), IsDurable);
  }

  lemma FloorMarkStep(cfg: Config, s: State, room: RoomId)
    requires Base(s) && Safe(s) && SentShape(s, room) && FloorOk(s, room) && s.writer.Marking?
    requires At(s.past.sent, room) <= Select(At(s.past.log, room), IsDurable)
    ensures FloorOk(DoMarkNext(cfg, s), room)
  {
    assert RoomOk(s, room);
    if s.batch[s.writer.done].channel == room { FloorMark(cfg, s); } else { FloorMarkElsewhere(cfg, s, room); }
  }

  lemma FloorFrame(cfg: Config, s: State, step: Step)
    requires !step.Push? && !step.MarkNext? && !step.Restart?
    ensures var s' := Apply(cfg, s, step);
            s'.past.marked == s.past.marked && s'.past.log == s.past.log && s'.rings == s.rings
  {
    if !step.Send? { SentFrame(cfg, s, step); }
    if !step.AppendNext? { QuietFrame(cfg, s, step); }
  }

  lemma FloorStep(cfg: Config, s: State, step: Step, room: RoomId)
    requires Base(s) && RingSettled(cfg, s, room) && SentShape(s, room)
    requires !step.Restart? ==>
      Safe(s) && FloorOk(s, room) && At(s.past.sent, room) <= Select(At(s.past.log, room), IsDurable)
    ensures FloorOk(Apply(cfg, s, step), room)
  {
    if step.Restart? {
      FloorRestart(s.sink, s.epoch + 1, step.seed, room, s.past.ever);
    } else if step.Push? {
      if CallAt(s, step.call, Recorded) { FloorPush(cfg, s, step.call, room); }
    } else if step.MarkNext? {
      if s.writer.Marking? { FloorMarkStep(cfg, s, room); }
    } else {
      FloorFrame(cfg, s, step);
    }
  }

  lemma {:induction false} FloorAlways(cfg: Config, seed: nat, steps: seq<Step>)
    ensures var s := Reach(cfg, seed, steps);
            && (forall room :: SentShape(s, room))
            && (FreshIds(s) ==> forall room :: SentLogged(s, room))
            && (FreshIds(s) && InOrderSends(s) ==> forall room :: FloorOk(s, room))
  {
    var s' := Reach(cfg, seed, steps);
    if steps == [] {
      assert Pipe(s') == [];
    } else {
      var front, step := steps[..|steps| - 1], steps[|steps| - 1];
      var s := Reach(cfg, seed, front);
      FloorAlways(cfg, seed, front);
      BaseAlways(cfg, seed, front);
      SafeAlways(cfg, seed, front);
      SettledAlways(cfg, seed, front);
      forall room ensures SentShape(s', room) {
        assert SentShape(s, room);
        SentShapeStep(cfg, s, step, room);
      }
      if FreshIds(s') {
        if !step.Restart? { FreshBefore(cfg, s, step); }
        forall room ensures SentLogged(s', room) {
          if !step.Restart? {
            assert SentLogged(s, room);
            SentLoggedStep(cfg, s, step, room);
          }
        }
        if InOrderSends(s') {
          if !step.Restart? { InOrderBefore(cfg, s, step); }
          forall room ensures FloorOk(s', room) {
            assert SentShape(s, room) && RingSettled(cfg, s, room);
            FloorStep(cfg, s, step, room);
          }
        }
      }
    }
  }

  /** In every run with fresh ids and in-order sends, the unpersisted durables of each ring
      are exactly the accepted durables not yet confirmed, they are its newest durables, and
      the ring never holds more than its capacity or its pinned entries. */
  lemma FloorBounded(cfg: Config, seed: nat, steps: seq<Step>, room: RoomId)
    requires FreshIds(Reach(cfg, seed, steps)) && InOrderSends(Reach(cfg, seed, steps))
    ensures var s := Reach(cfg, seed, steps);
            var slots := At(s.rings, room);
            && R.PinnedSuffix(slots)
            && (exists n :: 0 <= n <= |Select(At(s.past.log, room), IsDurable)|
                  && R.PinnedEnvs(slots) == Select(At(s.past.log, room), IsDurable)[n..])
            && (|slots| <= cfg.RingCapacity() || |slots| == |R.PinnedEnvs(slots)|)
  {
    var s := Reach(cfg, seed, steps);
    FloorAlways(cfg, seed, steps);
    SettledAlways(cfg, seed, steps);
    assert FloorOk(s, room) && RingSettled(cfg, s, room);
    R.SettledLength(At(s.rings, room), cfg.RingCapacity(), cfg.ringByteBudget);
  }

  /** In every run whatsoever, a ring holds no more than its capacity or its pinned entries,
      whichever is larger, exactly when it is within capacity or its unpersisted durables are
      its newest ones. */
  lemma FloorExactlyWhen(cfg: Config, seed: nat, steps: seq<Step>, room: RoomId)
    ensures var slots := At(Reach(cfg, seed, steps).rings, room);
            (|slots| <= cfg.RingCapacity() || |slots| <= |R.PinnedEnvs(slots)|) <==>
            (|slots| <= cfg.RingCapacity() || R.PinnedSuffix(slots))
  {
    var slots := At(Reach(cfg, seed, steps).rings, room);
    SettledAlways(cfg, seed, steps);
    assert RingSettled(cfg, Reach(cfg, seed, steps), room);
    if R.PinnedSuffix(slots) { R.SettledLength(slots, cfg.RingCapacity(), cfg.ringByteBudget); }
    if |slots| <= |R.PinnedEnvs(slots)| { R.NonePassedOver(slots); }
  }

  // ---------------------------------------------------------------- the durable suffix

  ghost predicate KeepsSuffix(s: State, room: RoomId) {
    R.IsSuffix(R.Durables(At(s.rings, room)), Select(At(s.past.log, room), IsDurable))
  }

  lemma SuffixExtend(a: seq<Envelope>, b: seq<Envelope>, c: seq<Envelope>)
    requires R.IsSuffix(a, b)
    ensures R.IsSuffix(a + c, b + c)
  {
  }

  lemma SuffixPushed(slots: seq<R.Slot>, e: Envelope, log: seq<Envelope>, capacity: nat, byteBudget: nat)
    requires capacity >= 1 && R.WellPinned(slots) && R.IsSuffix(R.Durables(slots), Select(log, IsDurable))
    ensures R.IsSuffix(R.Durables(R.Pushed(slots, e, capacity, byteBudget)), Select(log + [e], IsDurable))
  {
    var added, extra := [R.Slot(e, e.delivery.Durable?)], Select([e], IsDurable);
    R.EvictExact(slots + added, capacity, byteBudget);
    assert R.Durables(slots + added) == R.Durables(slots) + extra by {
      R.ViewsAppend(slots, added);
      assert R.Envs(added) == [e];
    }
    SelectAppend(log, [e], IsDurable);
    SuffixExtend(R.Durables(slots), Select(log, IsDurable), extra);
    R.SuffixTrans(R.Durables(R.Pushed(slots, e, capacity, byteBudget)), R.Durables(slots + added), Select(log + [e], IsDurable));
  }

  lemma {:induction false} SuffixPush(cfg: Config, s: State, t: nat, room: RoomId)
    requires KeepsSuffix(s, room) && RingSettled(cfg, s, room) && CallAt(s, t, Recorded)
    ensures KeepsSuffix(DoPush(cfg, s, t), room)
  {
    var e := s.calls[t].env;
    if e.channel == room && !e.delivery.EphemeralLatest? {
      PushedInPlace(cfg, s, t);
      SuffixPushed(At(s.rings, room), e, At(s.past.log, room), cfg.RingCapacity(), cfg.ringByteBudget);
    } else {
      PushedElsewhere(cfg, s, t, room);
    }
  }

  lemma SuffixMarked(slots: seq<R.Slot>, id: EventId, durables: seq<Envelope>, capacity: nat, byteBudget: nat)
    requires capacity >= 1 && R.WellPinned(slots) && R.IsSuffix(R.Durables(slots), durables)
    ensures R.IsSuffix(R.Durables(R.Marked(slots, id, capacity, byteBudget)), durables)
  {
    R.UnpinShape(slots, id);
    R.EvictExact(R.Unpin(slots, id), capacity, byteBudget);
    R.SuffixTrans(R.Durables(R.Marked(slots, id, capacity, byteBudget)), R.Durables(slots), durables);
  }

  lemma SuffixMark(cfg: Config, s: State, room: RoomId)
    requires Base(s) && KeepsSuffix(s, room) && RingSettled(cfg, s, room) && s.writer.Marking?
    ensures KeepsSuffix(DoMarkNext(cfg, s), room)
  {
    var e := s.batch[s.writer.done];
    if e.channel == room && At(s.rings, room) != [] {
      MarkedInPlace(cfg, s);
      SuffixMarked(At(s.rings, room), e.eventId, Select(At(s.past.log, room), IsDurable), cfg.RingCapacity(), cfg.ringByteBudget);
    } else if e.channel == room {
      MarkedEmpty(cfg, s);
    } else {
      MarkedElsewhere(cfg, s, room);
    }
  }

  lemma {:induction false} SuffixStep(cfg: Config, s: State, step: Step, room: RoomId)
    requires Base(s) && KeepsSuffix(s, room) && RingSettled(cfg, s, room)
    ensures KeepsSuffix(Apply(cfg, s, step), room)
  {
    if step.Push? {
      if CallAt(s, step.call, Recorded) { SuffixPush(cfg, s, step.call, room); }
    } else if step.MarkNext? {
      if s.writer.Marking? { SuffixMark(cfg, s, room); }
    } else if step.Restart? {
      assert R.Envs(At(Fresh(s.epoch + 1, step.seed, s.sink, s.past.ever).rings, room)) == [];
    } else if !step.AppendNext? {
      QuietFrame(cfg, s, step);
    }
  }

  /** In every run, whatever the ids and the order, the durables a ring retains are the
      newest of all it ever accepted: eviction never leaves a hole among them. */
  lemma {:induction false} RingKeepsADurableSuffix(cfg: Config, seed: nat, steps: seq<Step>, room: RoomId)
    ensures KeepsSuffix(Reach(cfg, seed, steps), room)
  {
    if steps != [] {
      var front := steps[..|steps| - 1];
      RingKeepsADurableSuffix(cfg, seed, front, room);
      BaseAlways(cfg, seed, front);
      SettledAlways(cfg, seed, front);
      assert RingSettled(cfg, Reach(cfg, seed, front), room);
      SuffixStep(cfg, Reach(cfg, seed, front), steps[|steps| - 1], room);
    }
  }

  // ---------------------------------------------------------------- all rings together

  /** One place of responsibility: a position of the pipe, or a call. */
  datatype Place = InPipe(at: nat) | WithCall(call: nat)

  /** The ring positions that are pinned. */
  ghost function PinnedPlaces(s: State): set<(RoomId, nat)> {
    set room, i: nat | room in s.rings && i < |s.rings[room]| && s.rings[room][i].pinned :: (room, i)
  }

  ghost function Places(s: State): set<Place> {
    (set i | 0 <= i < |Pipe(s)| :: InPipe(i)) + (set t | t in Permits(s.calls) :: WithCall(t))
  }

  ghost predicate HoldsPlace(s: State, p: Place, e: Envelope) {
    match p
    case InPipe(i) => i < |Pipe(s)| && Pipe(s)[i] == e
    case WithCall(t) => UnsentBy(s, t, e)
  }

  lemma PinnedHasPlace(s: State, q: (RoomId, nat)) returns (p: Place)
    requires HeldOnce(s) && Safe(s) && LogRooms(s) && q in PinnedPlaces(s)
    ensures HoldsPlace(s, p, s.rings[q.0][q.1].env) && p in Places(s)
  {
    var slots, e := s.rings[q.0], s.rings[q.0][q.1].env;
    assert RoomOk(s, q.0);
    R.PinnedMember(slots);
    R.EnvsMember(slots);
    assert e in At(s.past.log, q.0);
    assert PinnedHere(s, e) && e in PinnedSet(s);
    if e in Pipe(s) {
      var i :| 0 <= i < |Pipe(s)| && Pipe(s)[i] == e;
      p := InPipe(i);
    } else {
      var t :| (t, e) in UnsentSet(s);
      p := WithCall(t);
      assert t in Permits(s.calls);
    }
  }

  /** Two pinned positions never share a place: their events differ in id or channel. */
  lemma PlaceIsUnique(s: State, q: (RoomId, nat), r: (RoomId, nat), p: Place)
    requires Safe(s) && LogRooms(s) && q in PinnedPlaces(s) && r in PinnedPlaces(s)
    requires HoldsPlace(s, p, s.rings[q.0][q.1].env) && HoldsPlace(s, p, s.rings[r.0][r.1].env)
    ensures q == r
  {
    var e := s.rings[q.0][q.1].env;
    assert e == s.rings[r.0][r.1].env;
    assert RoomOk(s, q.0) && RoomOk(s, r.0);
    R.EnvsMember(s.rings[q.0]);
    R.EnvsMember(s.rings[r.0]);
    assert e in At(s.past.log, q.0) && e in At(s.past.log, r.0);
    assert q.0 == r.0 == e.channel;
    var envs := R.Envs(s.rings[q.0]);
    assert envs[q.1] == e && envs[r.1] == e;
  }

  /** Pinned positions inject into places of responsibility. */
  lemma {:induction false} InjectPlaces(s: State, qs: set<(RoomId, nat)>, ps: set<Place>)
    requires HeldOnce(s) && Safe(s) && LogRooms(s) && qs <= PinnedPlaces(s)
    requires forall q, p :: q in qs && p in Places(s) && HoldsPlace(s, p, s.rings[q.0][q.1].env) ==> p in ps
    ensures |qs| <= |ps|
    decreases |qs|
  {
    if qs != {} {
      var q: (RoomId, nat) :| q in qs;
      var p := PinnedHasPlace(s, q);
      forall r, x | r in qs - {q} && x in Places(s) && HoldsPlace(s, x, s.rings[r.0][r.1].env)
        ensures x in ps - {p}
      {
        if x == p { PlaceIsUnique(s, q, r, p); }
      }
      InjectPlaces(s, qs - {q}, ps - {p});
    }
  }

  lemma CountPlaces(s: State)
    ensures |Places(s)| <= |Pipe(s)| + |Permits(s.calls)|
  {
    var a, b := set i | 0 <= i < |Pipe(s)| :: InPipe(i), set t | t in Permits(s.calls) :: WithCall(t);
    CountIndices(|Pipe(s)|);
    CountCalls(Permits(s.calls));
    assert |a + b| <= |a| + |b|;
  }

  lemma {:induction false} CountIndices(n: nat)
    ensures |set i | 0 <= i < n :: InPipe(i)| <= n
  {
    if n > 0 {
      CountIndices(n - 1);
      assert (set i | 0 <= i < n :: InPipe(i)) == (set i | 0 <= i < n - 1 :: InPipe(i)) + {InPipe(n - 1)};
    }
  }

  lemma {:induction false} CountCalls(ts: set<nat>)
    ensures |set t | t in ts :: WithCall(t)| <= |ts|
  {
    if ts != {} {
      var t :| t in ts;
      CountCalls(ts - {t});
      assert (set u | u in ts :: WithCall(u)) == (set u | u in ts - {t} :: WithCall(u)) + {WithCall(t)};
    }
  }

  /** In every run with fresh ids, the pinned entries of all rings together number at most
      the write-behind buffer plus one writer batch. */
  lemma PinnedTotalBounded(cfg: Config, seed: nat, steps: seq<Step>)
    requires FreshIds(Reach(cfg, seed, steps))
    ensures |PinnedPlaces(Reach(cfg, seed, steps))| <= cfg.WriteBehindBuffer() + MAX_BATCH
  {
    var s := Reach(cfg, seed, steps);
    HeldAlways(cfg, seed, steps);
    SafeAlways(cfg, seed, steps);
    BaseAlways(cfg, seed, steps);
    InjectPlaces(s, PinnedPlaces(s), Places(s));
    CountPlaces(s);
    assert |Pipe(s)| <= |s.batch| + |s.queue|;
  }
}
