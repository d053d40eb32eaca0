/** What the hot rings hold over whole runs, in terms of what the channels have shown: every
    event but the coalesced ones is ringed, and nothing leaves while the ring has room. */
module Retention {
  import opened Options
  import opened Envelopes
  import opened HeaderFilters
  import opened Selection
  import opened Bus
  import opened Persistence
  import opened Replay
  import opened Fanout
  import R = Ring

  /** Everything of the channel except what coalesces. */
  function Ringed(room: RoomId): Filter {
    Filter(room, None, Some([Durable, EphemeralWindow, RequestResponse, StreamChunk]), Any)
  }

  lemma RingedMeans(room: RoomId, e: Envelope)
    ensures Ringed(room).Matches(e) <==> e.channel == room && e.delivery != EphemeralLatest
  {
  }

  /** Payload, header and key bytes of the events. */
  ghost function BytesOf(events: seq<Envelope>): nat {
    if events == [] then 0 else BytesOf(events[..|events| - 1]) + R.RetainedBytes(events[|events| - 1])
  }

  lemma {:induction false} BytesOfSlots(slots: seq<R.Slot>)
    ensures R.TotalBytes(slots) == BytesOf(R.Envs(slots))
  {
    if slots != [] {
      var n := |slots| - 1;
      BytesOfSlots(slots[..n]);
      assert R.Envs(slots)[..n] == R.Envs(slots[..n]);
    }
  }

  lemma BytesGrow(events: seq<Envelope>, e: Envelope)
    ensures BytesOf(events + [e]) == BytesOf(events) + R.RetainedBytes(e)
  {
    assert (events + [e])[..|events|] == events;
  }

  /** What the channel has shown since it had shown `n`, without what coalesces. */
  ghost function RingedSince(s: State, room: RoomId, n: nat): seq<Envelope>
    requires n <= |At(s.past.shown, room)|
  {
    Select(At(s.past.shown, room)[n..], Wanted(Ringed(room)))
  }

  ghost predicate Fits(cfg: Config, events: seq<Envelope>) {
    |events| <= cfg.RingCapacity() && BytesOf(events) <= cfg.ringByteBudget
  }

  /** As long as what was accepted fits, the ring holds all of it. */
  ghost predicate Whole(cfg: Config, s: State, room: RoomId, n: nat) {
    && n <= |At(s.past.shown, room)|
    && (Fits(cfg, RingedSince(s, room, n)) ==> R.Envs(At(s.rings, room)) == RingedSince(s, room, n))
  }

  lemma RoomForOne(cfg: Config, slots: seq<R.Slot>, was: seq<Envelope>, e: Envelope)
    requires Fits(cfg, was) ==> R.Envs(slots) == was
    requires Fits(cfg, was + [e])
    ensures R.Envs(R.Pushed(slots, e, cfg.RingCapacity(), cfg.ringByteBudget)) == was + [e]
  {
    BytesGrow(was, e);
    assert |slots| == |R.Envs(slots)|;
    BytesOfSlots(slots);
    R.NothingLeavesWithinBounds(slots, e, e.eventId, cfg.RingCapacity(), cfg.ringByteBudget);
    assert R.Envs(slots + [R.Slot(e, e.delivery == Durable)]) == R.Envs(slots) + [e];
  }

  lemma ShownNext(s: State, s': State, room: RoomId, n: nat, e: Envelope)
    requires n <= |At(s.past.shown, room)| && At(s'.past.shown, room) == At(s.past.shown, room) + [e] && e.channel == room
    ensures RingedSince(s', room, n) == RingedSince(s, room, n) + if e.delivery == EphemeralLatest then [] else [e]
  {
    assert At(s'.past.shown, room)[n..] == At(s.past.shown, room)[n..] + [e];
    SelectLast(At(s.past.shown, room)[n..], e, Wanted(Ringed(room)));
    RingedMeans(room, e);
  }

  lemma WholePush(cfg: Config, s: State, t: nat, room: RoomId, n: nat)
    requires Whole(cfg, s, room, n) && CallAt(s, t, Recorded) && s.calls[t].env.channel == room
    ensures Whole(cfg, DoPush(cfg, s, t), room, n)
  {
    var s', e := DoPush(cfg, s, t), s.calls[t].env;
    var was := RingedSince(s, room, n);
    ShownNext(s, s', room, n, e);
    assert was + [] == was;
    if e.delivery != EphemeralLatest && Fits(cfg, was + [e]) {
      RoomForOne(cfg, At(s.rings, room), was, e);
    }
  }

  lemma WholeMark(cfg: Config, s: State, room: RoomId, n: nat)
    requires Whole(cfg, s, room, n)
    ensures Whole(cfg, DoMarkNext(cfg, s), room, n)
  {
    var s' := DoMarkNext(cfg, s);
    var slots := At(s.rings, room);
    assert RingedSince(s', room, n) == RingedSince(s, room, n);
    if Fits(cfg, RingedSince(s, room, n)) && s'.rings != s.rings && room in s.rings {
      var id := s.batch[s.writer.done].eventId;
      BytesOfSlots(slots);
      assert |slots| == |R.Envs(slots)|;
      R.ConfirmWithinBounds(slots, id, cfg.RingCapacity(), cfg.ringByteBudget);
      assert R.Envs(At(s'.rings, room)) == R.Envs(slots);
    }
  }

  lemma WholeStep(cfg: Config, s: State, step: Step, room: RoomId, n: nat)
    requires Whole(cfg, s, room, n) && !step.Restart?
    ensures Whole(cfg, Apply(cfg, s, step), room, n)
  {
    var s' := Apply(cfg, s, step);
    if step.Push? {
      if CallAt(s, step.call, Recorded) {
        if s.calls[step.call].env.channel == room { WholePush(cfg, s, step.call, room, n); }
        else { assert At(s'.past.shown, room) == At(s.past.shown, room) && At(s'.rings, room) == At(s.rings, room); }
      }
    } else if step.MarkNext? {
      WholeMark(cfg, s, room, n);
    } else {
      ShownFrame(cfg, s, step);
      assert s'.rings == s.rings by {
        if step.AppendNext? { ApplyCases(cfg, s, step); } else { QuietFrame(cfg, s, step); }
      }
    }
  }

  lemma {:induction false} WholeRun(cfg: Config, s: State, later: seq<Step>, room: RoomId)
    requires NoRestart(later) && At(s.rings, room) == []
    ensures Whole(cfg, Run(cfg, s, later), room, |At(s.past.shown, room)|)
  {
    var shown := At(s.past.shown, room);
    if later == [] {
      assert shown[|shown|..] == [];
    } else {
      WholeRun(cfg, s, later[..|later| - 1], room);
      WholeStep(cfg, Run(cfg, s, later[..|later| - 1]), later[|later| - 1], room, |shown|);
    }
  }

  /** From any moment at which a channel's ring is empty, a start of the daemon for one, and
      until the next restart: as long as what the channel has shown since, without what
      coalesces, numbers at most the ring's capacity and weighs at most its byte budget, the
      ring holds exactly that, in order. */
  lemma RingHoldsWhatFits(cfg: Config, seed: nat, steps: seq<Step>, later: seq<Step>, room: RoomId)
    requires NoRestart(later) && At(Reach(cfg, seed, steps).rings, room) == []
    ensures var s, s' := Reach(cfg, seed, steps), Reach(cfg, seed, steps + later);
            var n, shown := |At(s.past.shown, room)|, At(s'.past.shown, room);
            n <= |shown| &&
            var accepted := Select(shown[n..], Wanted(Ringed(room)));
            |accepted| <= cfg.RingCapacity() && BytesOf(accepted) <= cfg.ringByteBudget ==>
              R.Envs(At(s'.rings, room)) == accepted
  {
    RunAppend(cfg, Fresh(1, seed, map[], map[]), steps, later);
    WholeRun(cfg, Reach(cfg, seed, steps), later, room);
  }

  // ---------------------------------------------------------------- what is never ringed

  ghost predicate NoneCoalesced(events: seq<Envelope>) {
    forall e :: e in events ==> e.delivery != EphemeralLatest
  }

  lemma PushKeepsUncoalesced(slots: seq<R.Slot>, e: Envelope, capacity: nat, byteBudget: nat)
    requires NoneCoalesced(R.Envs(slots)) && e.delivery != EphemeralLatest
    ensures NoneCoalesced(R.Envs(R.Pushed(slots, e, capacity, byteBudget)))
  {
    var t := slots + [R.Slot(e, e.delivery.Durable?)];
    R.EvictSubset(t, capacity, byteBudget);
    R.SubsetEnvs(R.Pushed(slots, e, capacity, byteBudget), t);
    assert R.Envs(t) == R.Envs(slots) + [e];
  }

  lemma MarkKeepsUncoalesced(slots: seq<R.Slot>, id: EventId, capacity: nat, byteBudget: nat)
    requires NoneCoalesced(R.Envs(slots))
    ensures NoneCoalesced(R.Envs(R.Marked(slots, id, capacity, byteBudget)))
  {
    var t := R.Unpin(slots, id);
    R.UnpinShape(slots, id);
    R.EvictSubset(t, capacity, byteBudget);
    R.SubsetEnvs(R.Marked(slots, id, capacity, byteBudget), t);
  }

  lemma UncoalescedStep(cfg: Config, s: State, step: Step, room: RoomId)
    requires NoneCoalesced(R.Envs(At(s.rings, room)))
    ensures NoneCoalesced(R.Envs(At(Apply(cfg, s, step).rings, room)))
  {
    if step.Push? {
      if CallAt(s, step.call, Recorded) && s.calls[step.call].env.delivery != EphemeralLatest {
        PushKeepsUncoalesced(At(s.rings, room), s.calls[step.call].env, cfg.RingCapacity(), cfg.ringByteBudget);
      }
    } else if step.MarkNext? {
      if s.writer.Marking? && s.writer.done < |s.batch| {
        MarkKeepsUncoalesced(At(s.rings, room), s.batch[s.writer.done].eventId, cfg.RingCapacity(), cfg.ringByteBudget);
      }
    } else if step.AppendNext? {
      ApplyCases(cfg, s, step);
    } else if !step.Restart? {
      QuietFrame(cfg, s, step);
    }
  }

  /** In every run, no ring ever holds a coalesced ephemeral. */
  lemma {:induction false} CoalescedIsNeverRinged(cfg: Config, seed: nat, steps: seq<Step>, room: RoomId)
    ensures forall e :: e in R.Envs(At(Reach(cfg, seed, steps).rings, room)) ==> e.delivery != EphemeralLatest
  {
    if steps != [] {
      CoalescedIsNeverRinged(cfg, seed, steps[..|steps| - 1], room);
      UncoalescedStep(cfg, Reach(cfg, seed, steps[..|steps| - 1]), steps[|steps| - 1], room);
    }
  }
}
