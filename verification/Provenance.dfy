/** Where accepted events come from: over whole runs, everything a channel shows, rings or
    stores is what some publish call handed in, was let in only while there was room and, if
    asked to be new, while it was new, and carries the number and the time of its stamping. */
module Provenance {
  import opened Envelopes
  import opened Bus
  import Sink

  /** The event is what a publish call brought in, but for its number and its time. */
  ghost predicate SameMessage(e: Envelope, handed: Envelope) {
    && e.eventId == handed.eventId && e.channel == handed.channel && e.from == handed.from
    && e.kind == handed.kind && e.delivery == handed.delivery && e.coalesceKey == handed.coalesceKey
    && e.headers == handed.headers && e.payload == handed.payload
  }

  /** Which call brought an event in, and which steps of the run took it through. */
  datatype Trail = Trail(call: nat, ifNew: bool, started: nat, probed: nat, reserved: nat, stamped: nat)

  /** The call was started with this message; if it is to publish only what is new, with an id
      that was not in the window. */
  ghost predicate StartedBy(cfg: Config, seed: nat, steps: seq<Step>, x: Trail, e: Envelope) {
    x.started < |steps| &&
    var s, step := Reach(cfg, seed, steps[..x.started]), steps[x.started];
    && (if x.ifNew then step.StartIfNew? && e.eventId !in s.recent else step.StartPublish?)
    && step.call == x.call && x.call !in s.calls && SameMessage(e, step.env)
  }

  /** Then the store was asked, answered, and did not have the id. */
  ghost predicate ProbedBy(cfg: Config, seed: nat, steps: seq<Step>, x: Trail, e: Envelope) {
    x.started < x.probed < |steps| && steps[x.probed] == Probe(x.call, false) &&
    var s := Reach(cfg, seed, steps[..x.probed]);
    forall room, row :: room in s.sink && row in s.sink[room] ==> row.eventId != e.eventId
  }

  /** Then the call was let in; a durable only by a running writer with room for it. */
  ghost predicate ReservedBy(cfg: Config, seed: nat, steps: seq<Step>, x: Trail, e: Envelope) {
    x.started < x.reserved < |steps| && (x.ifNew ==> x.probed < x.reserved) &&
    var s, step := Reach(cfg, seed, steps[..x.reserved]), steps[x.reserved];
    && step.Reserve? && step.call == x.call
    && (e.delivery == Durable ==> !step.gone && |s.queue| + |Permits(s.calls)| < cfg.WriteBehindBuffer())
  }

  /** Then it was stamped: with the next number of the daemon then running, and with the time
      its clock showed. */
  ghost predicate StampedBy(cfg: Config, seed: nat, steps: seq<Step>, x: Trail, e: Envelope) {
    x.reserved < x.stamped < |steps| &&
    var s, step := Reach(cfg, seed, steps[..x.stamped]), steps[x.stamped];
    && step.Stamp? && step.call == x.call
    && e.occurredAtMs == step.now && e.stamp.epoch == s.epoch && e.stamp.counter == s.counter
  }

  function Rank(pc: Pc): nat {
    match pc
    case Probing => 0
    case Admitted => 1
    case Reserved => 2
    case _ => 3
  }

  ghost predicate UpTo(cfg: Config, seed: nat, steps: seq<Step>, x: Trail, e: Envelope, rank: nat) {
    && StartedBy(cfg, seed, steps, x, e)
    && (rank >= 1 && x.ifNew ==> ProbedBy(cfg, seed, steps, x, e))
    && (rank >= 2 ==> ReservedBy(cfg, seed, steps, x, e))
    && (rank >= 3 ==> StampedBy(cfg, seed, steps, x, e))
  }

  ghost predicate Sourced(cfg: Config, seed: nat, steps: seq<Step>, e: Envelope) {
    exists x :: UpTo(cfg, seed, steps, x, e, 3)
  }

  ghost predicate CallSourced(cfg: Config, seed: nat, steps: seq<Step>, t: nat, c: Call) {
    exists x: Trail :: x.call == t && x.ifNew == c.ifNew && UpTo(cfg, seed, steps, x, c.env, Rank(c.pc))
  }

  /** Where a stamped event may be. */
  ghost predicate Somewhere(s: State, e: Envelope) {
    || e in s.queue || e in s.batch
    || (exists room :: e in At(s.sink, room)) || (exists room :: e in At(s.past.shown, room)) || (exists room :: e in At(s.past.ever, room))
  }

  ghost predicate AllSourced(cfg: Config, seed: nat, steps: seq<Step>, s: State) {
    && (forall t :: t in s.calls ==> CallSourced(cfg, seed, steps, t, s.calls[t]))
    && (forall e :: Somewhere(s, e) ==> Sourced(cfg, seed, steps, e))
  }

  // ---------------------------------------------------------------- longer runs

  lemma UpToLater(cfg: Config, seed: nat, steps: seq<Step>, step: Step, x: Trail, e: Envelope, rank: nat)
    requires UpTo(cfg, seed, steps, x, e, rank)
    ensures UpTo(cfg, seed, steps + [step], x, e, rank)
  {
    var all := steps + [step];
    assert all[..x.started] == steps[..x.started];
    if rank >= 1 && x.ifNew { assert all[..x.probed] == steps[..x.probed]; }
    if rank >= 2 { assert all[..x.reserved] == steps[..x.reserved]; }
    if rank >= 3 { assert all[..x.stamped] == steps[..x.stamped]; }
  }

  lemma SourcedLater(cfg: Config, seed: nat, steps: seq<Step>, step: Step, e: Envelope)
    requires Sourced(cfg, seed, steps, e)
    ensures Sourced(cfg, seed, steps + [step], e)
  {
    var x :| UpTo(cfg, seed, steps, x, e, 3);
    UpToLater(cfg, seed, steps, step, x, e, 3);
  }

  lemma CallLater(cfg: Config, seed: nat, steps: seq<Step>, step: Step, t: nat, c: Call)
    requires CallSourced(cfg, seed, steps, t, c)
    ensures CallSourced(cfg, seed, steps + [step], t, c)
  {
    var x: Trail :| x.call == t && x.ifNew == c.ifNew && UpTo(cfg, seed, steps, x, c.env, Rank(c.pc));
    UpToLater(cfg, seed, steps, step, x, c.env, Rank(c.pc));
  }

  // ---------------------------------------------------------------- step by step

  /** What a step does to the call at `t`: it starts it, moves it one place on, or leaves its
      trail as it was. */
  ghost predicate Moved(cfg: Config, s: State, step: Step, t: nat, s': State) {
    t in s'.calls ==>
      || (t in s.calls && s'.calls[t] == s.calls[t])
      || (t !in s.calls && Starts(s, step, t, s'.calls[t]))
      || (t in s.calls && s'.calls[t].ifNew == s.calls[t].ifNew && Advances(cfg, s, step, t, s.calls[t], s'.calls[t]))
  }

  ghost predicate Starts(s: State, step: Step, t: nat, c: Call) {
    if c.ifNew then step == StartIfNew(t, c.env) && c.env.eventId !in s.recent && c.pc == Probing
    else step == StartPublish(t, c.env) && c.pc == Admitted
  }

  ghost predicate Advances(cfg: Config, s: State, step: Step, t: nat, c: Call, c': Call) {
    || (step == Probe(t, false) && !Stored(s.sink, c.env.eventId) && c' == c.(pc := Admitted) && c.pc == Probing)
    || (step.Reserve? && step.call == t && c' == c.(pc := Reserved) && c.pc == Admitted
        && (c.env.delivery == Durable ==> !step.gone && |s.queue| + |Permits(s.calls)| < cfg.WriteBehindBuffer()))
    || (step.Stamp? && step.call == t && c' == c.(env := StampEnv(s, c.env, step.now), pc := Stamped) && c.pc == Reserved)
    || (c'.env == c.env && Rank(c'.pc) == 3 && Rank(c.pc) == 3)
  }

  lemma AdmissionMoves(cfg: Config, s: State, step: Step, t: nat)
    requires step.StartPublish? || step.StartIfNew? || step.Probe? || step.Reserve?
    ensures Moved(cfg, s, step, t, ApplyCall(cfg, s, step))
  {
  }

  lemma PublishMoves(cfg: Config, s: State, step: Step, t: nat)
    requires step.Stamp? || step.Record? || step.Send? || step.Finish?
    ensures Moved(cfg, s, step, t, ApplyCall(cfg, s, step))
  {
  }

  lemma CallMoves(cfg: Config, s: State, step: Step, t: nat)
    ensures Moved(cfg, s, step, t, Apply(cfg, s, step))
  {
    if step.StartPublish? || step.StartIfNew? || step.Probe? || step.Reserve? {
      AdmissionMoves(cfg, s, step, t);
    } else if step.Stamp? || step.Record? || step.Send? || step.Finish? {
      PublishMoves(cfg, s, step, t);
    } else if WriterStep(step) || SubStep(step) {
      ApplyCases(cfg, s, step);
    }
  }

  lemma NotStored(sink: PerRoom<Envelope>, id: EventId)
    requires !Stored(sink, id)
    ensures forall room, row :: room in sink && row in sink[room] ==> row.eventId != id
  {
    forall room, row | room in sink && row in sink[room] ensures row.eventId != id {
      Sink.HasIdMember(sink[room], id);
    }
  }

  lemma StartSources(cfg: Config, seed: nat, steps: seq<Step>, step: Step, t: nat, c: Call)
    requires var s := Reach(cfg, seed, steps); t !in s.calls && Starts(s, step, t, c)
    ensures CallSourced(cfg, seed, steps + [step], t, c)
  {
    var n := |steps|;
    assert (steps + [step])[..n] == steps && (steps + [step])[n] == step;
    assert UpTo(cfg, seed, steps + [step], Trail(t, c.ifNew, n, n, n, n), c.env, if c.ifNew then 0 else 1);
  }

  lemma ProbedTrail(cfg: Config, seed: nat, steps: seq<Step>, x: Trail, e: Envelope)
    requires UpTo(cfg, seed, steps, x, e, 0) && !Stored(Reach(cfg, seed, steps).sink, e.eventId)
    ensures UpTo(cfg, seed, steps + [Probe(x.call, false)], x.(probed := |steps|), e, 1)
  {
    var step := Probe(x.call, false);
    UpToLater(cfg, seed, steps, step, x, e, 0);
    assert (steps + [step])[..|steps|] == steps;
    NotStored(Reach(cfg, seed, steps).sink, e.eventId);
  }

  lemma ReservedTrail(cfg: Config, seed: nat, steps: seq<Step>, step: Step, x: Trail, e: Envelope)
    requires UpTo(cfg, seed, steps, x, e, 1) && step.Reserve? && step.call == x.call
    requires var s := Reach(cfg, seed, steps);
             e.delivery == Durable ==> !step.gone && |s.queue| + |Permits(s.calls)| < cfg.WriteBehindBuffer()
    ensures UpTo(cfg, seed, steps + [step], x.(reserved := |steps|), e, 2)
  {
    UpToLater(cfg, seed, steps, step, x, e, 1);
    assert (steps + [step])[..|steps|] == steps;
  }

  lemma AdvanceSources(cfg: Config, seed: nat, steps: seq<Step>, step: Step, t: nat, c: Call, c': Call)
    requires CallSourced(cfg, seed, steps, t, c) && c'.ifNew == c.ifNew && Advances(cfg, Reach(cfg, seed, steps), step, t, c, c')
    ensures CallSourced(cfg, seed, steps + [step], t, c')
  {
    var x: Trail :| x.call == t && x.ifNew == c.ifNew && UpTo(cfg, seed, steps, x, c.env, Rank(c.pc));
    var all := steps + [step];
    if Rank(c.pc) == 0 {
      ProbedTrail(cfg, seed, steps, x, c.env);
      assert UpTo(cfg, seed, all, x.(probed := |steps|), c'.env, 1);
    } else if Rank(c.pc) == 1 {
      ReservedTrail(cfg, seed, steps, step, x, c.env);
      assert UpTo(cfg, seed, all, x.(reserved := |steps|), c'.env, 2);
    } else if Rank(c.pc) == 2 {
      StampedTrail(cfg, seed, steps, step, x, c.env, c'.env);
      assert UpTo(cfg, seed, all, x.(stamped := |steps|), c'.env, 3);
    } else {
      UpToLater(cfg, seed, steps, step, x, c.env, 3);
    }
  }

  lemma StampedTrail(cfg: Config, seed: nat, steps: seq<Step>, step: Step, x: Trail, e: Envelope, e': Envelope)
    requires UpTo(cfg, seed, steps, x, e, 2) && step.Stamp? && step.call == x.call
    requires e' == StampEnv(Reach(cfg, seed, steps), e, step.now)
    ensures UpTo(cfg, seed, steps + [step], x.(stamped := |steps|), e', 3)
  {
    UpToLater(cfg, seed, steps, step, x, e, 2);
    assert (steps + [step])[..|steps|] == steps;
    assert SameMessage(e', e);
  }

  lemma CallStepSources(cfg: Config, seed: nat, steps: seq<Step>, step: Step, t: nat)
    requires AllSourced(cfg, seed, steps, Reach(cfg, seed, steps))
    requires t in Apply(cfg, Reach(cfg, seed, steps), step).calls
    ensures CallSourced(cfg, seed, steps + [step], t, Apply(cfg, Reach(cfg, seed, steps), step).calls[t])
  {
    var s := Reach(cfg, seed, steps);
    var c' := Apply(cfg, s, step).calls[t];
    CallMoves(cfg, s, step, t);
    if t !in s.calls {
      StartSources(cfg, seed, steps, step, t, c');
    } else if c' == s.calls[t] {
      CallLater(cfg, seed, steps, step, t, c');
    } else {
      AdvanceSources(cfg, seed, steps, step, t, s.calls[t], c');
    }
  }

  /** A stamped event in a new place was somewhere before, or is a stamped call's. */
  lemma PlaceStep(cfg: Config, s: State, step: Step, e: Envelope)
    requires Somewhere(Apply(cfg, s, step), e)
    ensures Somewhere(s, e) || exists t :: t in s.calls && Rank(s.calls[t].pc) == 3 && s.calls[t].env == e
  {
    var s' := Apply(cfg, s, step);
    if step.Push? {
      if CallAt(s, step.call, Recorded) { PlacePush(cfg, s, step.call, e); }
    } else if step.Restart? {
    } else if step.Send? {
      if CallAt(s, step.call, Pushed) { assert e in s'.queue ==> e in s.queue || e == s.calls[step.call].env; }
    } else if step.AppendNext? {
      PlaceAppend(s, e);
    } else if WriterStep(step) {
      PlaceWriter(cfg, s, step, e);
    } else {
      PlaceKept(cfg, s, step);
    }
  }

  lemma PlacePush(cfg: Config, s: State, t: nat, e: Envelope)
    requires CallAt(s, t, Recorded) && Somewhere(DoPush(cfg, s, t), e)
    ensures Somewhere(s, e) || e == s.calls[t].env
  {
    var s' := DoPush(cfg, s, t);
    assert s'.queue == s.queue && s'.batch == s.batch && s'.sink == s.sink;
    if room :| e in At(s'.past.shown, room) {
      assert e in At(s.past.shown, room) || e == s.calls[t].env;
    }
    if room :| e in At(s'.past.ever, room) {
      assert e in At(s.past.ever, room) || e == s.calls[t].env;
    }
  }

  lemma PlaceAppend(s: State, e: Envelope)
    requires Somewhere(DoAppendNext(s), e)
    ensures Somewhere(s, e)
  {
    var s' := DoAppendNext(s);
    if room :| e in At(s'.sink, room) {
      if s'.sink != s.sink {
        Sink.InsertMember(At(s.sink, room), s.batch[s.writer.done]);
        assert e in At(s.sink, room) || e in s.batch;
      }
    }
  }

  lemma PlaceWriter(cfg: Config, s: State, step: Step, e: Envelope)
    requires WriterStep(step) && !step.AppendNext? && Somewhere(ApplyWriter(cfg, s, step), e)
    ensures Somewhere(s, e)
  {
    var s' := ApplyWriter(cfg, s, step);
    if step.Collect? && s'.queue != s.queue {
      assert s.queue == [s.queue[0]] + s.queue[1..];
    }
  }

  lemma PlaceKept(cfg: Config, s: State, step: Step)
    requires !step.Push? && !step.Restart? && !step.Send? && !WriterStep(step)
    ensures var s' := Apply(cfg, s, step);
            && s'.queue == s.queue && s'.batch == s.batch && s'.sink == s.sink
            && s'.past.shown == s.past.shown && s'.past.ever == s.past.ever
  {
    ApplyCases(cfg, s, step);
  }

  lemma PlaceSources(cfg: Config, seed: nat, steps: seq<Step>, step: Step, e: Envelope)
    requires AllSourced(cfg, seed, steps, Reach(cfg, seed, steps))
    requires Somewhere(Apply(cfg, Reach(cfg, seed, steps), step), e)
    ensures Sourced(cfg, seed, steps + [step], e)
  {
    var s := Reach(cfg, seed, steps);
    PlaceStep(cfg, s, step, e);
    if !Somewhere(s, e) {
      var t :| t in s.calls && Rank(s.calls[t].pc) == 3 && s.calls[t].env == e;
      assert CallSourced(cfg, seed, steps, t, s.calls[t]);
    }
    SourcedLater(cfg, seed, steps, step, e);
  }

  lemma SourcedStep(cfg: Config, seed: nat, steps: seq<Step>, step: Step)
    requires AllSourced(cfg, seed, steps, Reach(cfg, seed, steps))
    ensures AllSourced(cfg, seed, steps + [step], Apply(cfg, Reach(cfg, seed, steps), step))
  {
    var s' := Apply(cfg, Reach(cfg, seed, steps), step);
    forall t | t in s'.calls ensures CallSourced(cfg, seed, steps + [step], t, s'.calls[t]) {
      CallStepSources(cfg, seed, steps, step, t);
    }
    forall e | Somewhere(s', e) ensures Sourced(cfg, seed, steps + [step], e) {
      PlaceSources(cfg, seed, steps, step, e);
    }
  }

  lemma {:induction false} SourcedAlways(cfg: Config, seed: nat, steps: seq<Step>)
    ensures AllSourced(cfg, seed, steps, Reach(cfg, seed, steps))
  {
    if steps != [] {
      SourcedAlways(cfg, seed, steps[..|steps| - 1]);
      SourcedStep(cfg, seed, steps[..|steps| - 1], steps[|steps| - 1]);
      assert steps == steps[..|steps| - 1] + [steps[|steps| - 1]];
    }
  }

  /** In every run, restarts included, every event a channel has shown, ever ringed or holds in
      the store was handed in by a publish call with these same fields. The call was let in: a
      durable only while the writer was running and had room, a `publish_if_new` only with an
      id that was neither in the window when it began nor in the store when that was asked. It
      was then stamped, with the number that was next in the daemon then running and the time
      its clock showed. */
  lemma EveryEventWasPublished(cfg: Config, seed: nat, steps: seq<Step>, room: RoomId, e: Envelope)
    requires var s := Reach(cfg, seed, steps);
             e in At(s.past.shown, room) || e in At(s.past.ever, room) || e in At(s.sink, room)
    ensures exists x: Trail ::
              && StartedBy(cfg, seed, steps, x, e) && (x.ifNew ==> ProbedBy(cfg, seed, steps, x, e))
              && ReservedBy(cfg, seed, steps, x, e) && StampedBy(cfg, seed, steps, x, e)
  {
    SourcedAlways(cfg, seed, steps);
    assert Somewhere(Reach(cfg, seed, steps), e);
    var x :| UpTo(cfg, seed, steps, x, e, 3);
  }
}
