/** What a restart loses. Delivery comes before storage, so a daemon that dies takes its
    unpersisted tail with it: exactly the accepted durables that were not yet stored, all of
    them pinned, and no more of them than the write-behind pipeline can hold. */
module Restarts {
  import opened Envelopes
  import opened Bus
  import opened Persistence
  import opened Holders
  import opened Floor
  import R = Ring

  ghost predicate Alive(s: State, e: Envelope) {
    e in R.Envs(At(s.rings, e.channel)) || e in At(s.sink, e.channel)
  }

  /** Accepted by the current daemon and not stored: a restart now would lose it. */
  ghost predicate AtRisk(s: State, e: Envelope) {
    e.delivery.Durable? && e in At(s.past.log, e.channel) && e !in At(s.sink, e.channel)
  }

  ghost predicate FreshThroughout(cfg: Config, seed: nat, steps: seq<Step>) {
    forall n :: 0 <= n <= |steps| ==> FreshIds(Reach(cfg, seed, steps[..n]))
  }

  /** Step `n` was a restart that lost the event. */
  ghost predicate LostBy(cfg: Config, seed: nat, steps: seq<Step>, n: nat, e: Envelope) {
    n < |steps| && steps[n].Restart? && AtRisk(Reach(cfg, seed, steps[..n]), e)
  }

  // ---------------------------------------------------------------- stamps carry the daemon's epoch

  ghost predicate StampedNow(s: State, c: Call) {
    c.pc.Stamped? || c.pc.Recorded? || c.pc.Pushed? || c.pc.Sent? ==> c.env.stamp.epoch == s.epoch
  }

  /** Every event ever accepted is of this epoch or an earlier one, and this epoch's are in
      the current log. */
  ghost predicate EverOk(s: State, room: RoomId) {
    && (forall e :: e in At(s.past.ever, room) ==>
          e.stamp.epoch <= s.epoch && (e.stamp.epoch == s.epoch ==> e in At(s.past.log, room)))
    && (forall e :: e in At(s.past.log, room) ==> e in At(s.past.ever, room))
  }

  ghost predicate CallsNow(s: State) {
    forall t :: t in s.calls ==> StampedNow(s, s.calls[t])
  }

  lemma StampedStart(cfg: Config, s: State, t: nat, env: Envelope)
    requires CallsNow(s)
    ensures CallsNow(DoStartPublish(s, t, env)) && CallsNow(DoStartIfNew(cfg, s, t, env))
  {
  }

  lemma StampedProbe(s: State, t: nat, b: bool)
    requires CallsNow(s)
    ensures CallsNow(DoProbe(s, t, b))
  {
  }

  lemma StampedReserve(cfg: Config, s: State, t: nat, b: bool)
    requires CallsNow(s)
    ensures CallsNow(DoReserve(cfg, s, t, b))
  {
  }

  lemma StampedMove(cfg: Config, s: State, t: nat, now: nat)
    requires CallsNow(s)
    ensures CallsNow(DoStamp(s, t, now)) && CallsNow(DoRecord(cfg, s, t))
  {
  }

  lemma StampedLeave(cfg: Config, s: State, t: nat)
    requires CallsNow(s)
    ensures CallsNow(DoPush(cfg, s, t)) && CallsNow(DoSend(s, t)) && CallsNow(DoFinish(s, t))
  {
  }

  lemma StampedStep(cfg: Config, s: State, step: Step)
    requires CallsNow(s)
    ensures CallsNow(Apply(cfg, s, step))
  {
    if CallStep(step) {
      match step
      case StartPublish(t, env) => StampedStart(cfg, s, t, env);
      case StartIfNew(t, env) => StampedStart(cfg, s, t, env);
      case Probe(t, failed) => StampedProbe(s, t, failed);
      case Reserve(t, gone) => StampedReserve(cfg, s, t, gone);
      case Stamp(t, now) => StampedMove(cfg, s, t, now);
      case Record(t) => StampedMove(cfg, s, t, 0);
      case Send(t) => StampedLeave(cfg, s, t);
      case Finish(t) => StampedLeave(cfg, s, t);
    } else if step.Push? {
      StampedLeave(cfg, s, step.call);
    }
  }

  lemma EverPush(cfg: Config, s: State, t: nat, room: RoomId)
    requires EverOk(s, room) && CallsNow(s) && CallAt(s, t, Recorded)
    ensures EverOk(DoPush(cfg, s, t), room)
  {
    var e, s' := s.calls[t].env, DoPush(cfg, s, t);
    assert StampedNow(s, s.calls[t]);
    if e.channel == room && !e.delivery.EphemeralLatest? {
      assert At(s'.past.ever, room) == At(s.past.ever, room) + [e];
      assert At(s'.past.log, room) == At(s.past.log, room) + [e];
    } else {
      assert At(s'.past.ever, room) == At(s.past.ever, room) && At(s'.past.log, room) == At(s.past.log, room);
    }
  }

  /** Only a push and a restart change what was accepted, or the epoch. */
  lemma EverFrame(cfg: Config, s: State, step: Step)
    requires !step.Push? && !step.Restart?
    ensures var s' := Apply(cfg, s, step);
            s'.epoch == s.epoch && s'.past.log == s.past.log && s'.past.ever == s.past.ever
  {
    ApplyCases(cfg, s, step);
  }

  lemma EverFresh(s: State, seed: nat, room: RoomId)
    requires EverOk(s, room) && RoomOk(s, room)
    ensures EverOk(Fresh(s.epoch + 1, seed, s.sink, s.past.ever), room)
  {
  }

  lemma {:induction false} EverAlways(cfg: Config, seed: nat, steps: seq<Step>)
    requires FreshThroughout(cfg, seed, steps)
    ensures CallsNow(Reach(cfg, seed, steps)) && forall room :: EverOk(Reach(cfg, seed, steps), room)
  {
    if steps != [] {
      var front, step := steps[..|steps| - 1], steps[|steps| - 1];
      var s, s' := Reach(cfg, seed, front), Reach(cfg, seed, steps);
      FreshFront(cfg, seed, steps);
      EverAlways(cfg, seed, front);
      StampedStep(cfg, s, step);
      SafeAlways(cfg, seed, front);
      forall room ensures EverOk(s', room) {
        assert EverOk(s, room) && RoomOk(s, room);
        if step.Restart? {
          EverFresh(s, step.seed, room);
        } else if step.Push? {
          if CallAt(s, step.call, Recorded) { EverPush(cfg, s, step.call, room); }
        } else {
          EverFrame(cfg, s, step);
        }
      }
    }
  }

  lemma FreshFront(cfg: Config, seed: nat, steps: seq<Step>)
    requires FreshThroughout(cfg, seed, steps) && steps != []
    ensures FreshThroughout(cfg, seed, steps[..|steps| - 1]) && FreshIds(Reach(cfg, seed, steps))
    ensures FreshIds(Reach(cfg, seed, steps[..|steps| - 1]))
  {
    var front := steps[..|steps| - 1];
    forall n | 0 <= n <= |front| ensures FreshIds(Reach(cfg, seed, front[..n])) {
      assert front[..n] == steps[..n];
    }
    assert steps[..|steps|] == steps;
    assert FreshIds(Reach(cfg, seed, steps[..|steps|])) && FreshIds(Reach(cfg, seed, steps[..|front|]));
  }

  // ---------------------------------------------------------------- what is lost, and by whom

  /** What the current daemon accepted is alive; what is alive it accepted or found stored. */
  lemma AliveIsLogged(s: State, e: Envelope)
    requires Safe(s) && e.delivery.Durable?
    ensures Alive(s, e) <==> e in At(s.past.log, e.channel)
  {
    assert RoomOk(s, e.channel);
  }

  /** An event of an earlier epoch that is gone stays gone. */
  lemma GoneStaysGone(cfg: Config, s: State, step: Step, e: Envelope)
    requires !step.Restart? && CallsNow(s) && EverOk(s, e.channel)
    requires e in At(s.past.ever, e.channel) && e !in At(s.past.log, e.channel)
    ensures e !in At(Apply(cfg, s, step).past.log, e.channel)
  {
    if step.Push? {
      if CallAt(s, step.call, Recorded) { assert StampedNow(s, s.calls[step.call]); }
    } else {
      EverFrame(cfg, s, step);
    }
  }

  lemma {:induction false} EverGrows(cfg: Config, seed: nat, steps: seq<Step>, n: nat, e: Envelope)
    requires n <= |steps| && e in At(Reach(cfg, seed, steps[..n]).past.ever, e.channel)
    ensures e in At(Reach(cfg, seed, steps).past.ever, e.channel)
    decreases |steps|
  {
    if n == |steps| {
      assert steps[..n] == steps;
    } else {
      var front, step := steps[..|steps| - 1], steps[|steps| - 1];
      assert front[..n] == steps[..n];
      EverGrows(cfg, seed, front, n, e);
      if !step.Push? && !step.Restart? { EverFrame(cfg, Reach(cfg, seed, front), step); }
    }
  }

  ghost predicate LostSome(cfg: Config, seed: nat, steps: seq<Step>, e: Envelope) {
    exists n: nat :: LostBy(cfg, seed, steps, n, e)
  }

  lemma LostFront(cfg: Config, seed: nat, steps: seq<Step>, e: Envelope)
    requires steps != []
    ensures var front, step := steps[..|steps| - 1], steps[|steps| - 1];
            LostSome(cfg, seed, steps, e) <==>
              (LostSome(cfg, seed, front, e) || (step.Restart? && AtRisk(Reach(cfg, seed, front), e)))
  {
    var front, step := steps[..|steps| - 1], steps[|steps| - 1];
    forall n: nat ensures LostBy(cfg, seed, steps, n, e) <==> LostBy(cfg, seed, front, n, e) || (n == |front| && step.Restart? && AtRisk(Reach(cfg, seed, front), e)) {
      if n < |front| { assert front[..n] == steps[..n] && front[n] == steps[n]; }
      if n == |front| { assert steps[..n] == front; }
    }
    if step.Restart? && AtRisk(Reach(cfg, seed, front), e) { assert LostBy(cfg, seed, steps, |front|, e); }
  }

  lemma NotLostBeforePushed(cfg: Config, seed: nat, steps: seq<Step>, e: Envelope)
    requires FreshThroughout(cfg, seed, steps) && e !in At(Reach(cfg, seed, steps).past.ever, e.channel)
    ensures !LostSome(cfg, seed, steps, e)
  {
    if n: nat :| LostBy(cfg, seed, steps, n, e) {
      assert FreshThroughout(cfg, seed, steps[..n]) by {
        assert forall m :: 0 <= m <= n ==> steps[..n][..m] == steps[..m];
      }
      EverAlways(cfg, seed, steps[..n]);
      assert EverOk(Reach(cfg, seed, steps[..n]), e.channel);
      EverGrows(cfg, seed, steps, n, e);
      assert false;
    }
  }

  /** Over a whole run with any number of restarts: an event that some daemon accepted is
      missing from ring and store exactly when a restart came before it was stored. */
  lemma {:induction false} OnlyRestartsLose(cfg: Config, seed: nat, steps: seq<Step>, e: Envelope)
    requires FreshThroughout(cfg, seed, steps)
    requires e.delivery.Durable? && e in At(Reach(cfg, seed, steps).past.ever, e.channel)
    ensures !Alive(Reach(cfg, seed, steps), e) <==> LostSome(cfg, seed, steps, e)
  {
    if steps != [] {
      var front, step := steps[..|steps| - 1], steps[|steps| - 1];
      var s, s' := Reach(cfg, seed, front), Reach(cfg, seed, steps);
      FreshFront(cfg, seed, steps);
      EverAlways(cfg, seed, front);
      SafeAlways(cfg, seed, front);
      SafeAlways(cfg, seed, steps);
      AliveIsLogged(s, e);
      AliveIsLogged(s', e);
      LostFront(cfg, seed, steps, e);
      assert EverOk(s, e.channel);
      if e !in At(s.past.ever, e.channel) {
        NotLostBeforePushed(cfg, seed, front, e);
        FirstAccepted(cfg, s, step, e);
      } else {
        OnlyRestartsLose(cfg, seed, front, e);
        if !step.Restart? {
          LogGrows(cfg, s, step, e.channel);
          if e !in At(s.past.log, e.channel) { GoneStaysGone(cfg, s, step, e); }
        }
      }
    }
  }

  lemma FirstAccepted(cfg: Config, s: State, step: Step, e: Envelope)
    requires e !in At(s.past.ever, e.channel) && e in At(Apply(cfg, s, step).past.ever, e.channel)
    ensures step.Push? && e in At(Apply(cfg, s, step).past.log, e.channel)
  {
    if !step.Push? && !step.Restart? { EverFrame(cfg, s, step); }
  }

  // ---------------------------------------------------------------- how much is lost

  /** What is at risk is pinned: persistence is never confirmed early. */
  lemma AtRiskIsPinned(cfg: Config, seed: nat, steps: seq<Step>, e: Envelope)
    requires FreshIds(Reach(cfg, seed, steps)) && AtRisk(Reach(cfg, seed, steps), e)
    ensures PinnedHere(Reach(cfg, seed, steps), e)
  {
    var s := Reach(cfg, seed, steps);
    SafeAlways(cfg, seed, steps);
    assert RoomOk(s, e.channel);
    R.PinnedMember(At(s.rings, e.channel));
    R.EnvsMember(At(s.rings, e.channel));
  }

  ghost function RiskSet(s: State): set<Envelope> {
    set room, e | room in s.past.log && e in s.past.log[room] && e.channel == room && AtRisk(s, e) :: e
  }

  /** Pinned events inject into pinned ring positions. */
  lemma {:induction false} InjectPinned(s: State, es: set<Envelope>, qs: set<(RoomId, nat)>)
    requires forall e :: e in es ==> PinnedHere(s, e)
    requires forall e, q :: e in es && q in PinnedPlaces(s) && s.rings[q.0][q.1].env == e ==> q in qs
    ensures |es| <= |qs|
    decreases |es|
  {
    if es != {} {
      var e :| e in es;
      R.PinnedMember(At(s.rings, e.channel));
      var i: nat :| i < |At(s.rings, e.channel)| && At(s.rings, e.channel)[i].pinned && At(s.rings, e.channel)[i].env == e;
      var q := (e.channel, i);
      assert q in PinnedPlaces(s) && s.rings[q.0][q.1].env == e;
      InjectPinned(s, es - {e}, qs - {q});
    }
  }

  /** One restart exactly. Of the durables the daemon had accepted, the new daemon misses
      those and only those that were not stored; every one of them was pinned; and they
      number at most the write-behind buffer plus one writer batch. */
  lemma RestartLosesTheTail(cfg: Config, seed: nat, steps: seq<Step>, counter: nat)
    requires FreshIds(Reach(cfg, seed, steps))
    ensures var s, s' := Reach(cfg, seed, steps), Apply(cfg, Reach(cfg, seed, steps), Restart(counter));
            && (forall e: Envelope :: e.delivery.Durable? && e in At(s.past.log, e.channel) ==>
                  (!Alive(s', e) <==> e !in At(s.sink, e.channel)))
            && (forall e :: AtRisk(s, e) ==> PinnedHere(s, e) && e in RiskSet(s))
            && |RiskSet(s)| <= cfg.WriteBehindBuffer() + MAX_BATCH
  {
    var s := Reach(cfg, seed, steps);
    forall e | AtRisk(s, e) ensures PinnedHere(s, e) && e in RiskSet(s) {
      AtRiskIsPinned(cfg, seed, steps, e);
    }
    forall e | e in RiskSet(s) ensures PinnedHere(s, e) { AtRiskIsPinned(cfg, seed, steps, e); }
    InjectPinned(s, RiskSet(s), PinnedPlaces(s));
    PinnedTotalBounded(cfg, seed, steps);
  }
}
