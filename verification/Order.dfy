/** When ring order is sequence order. The number is taken before the shard lock, so pushes
    follow it only if calls on one channel reach the lock in the order of their numbers; then
    they do so across restarts as well, because the epoch dominates. */
module Order {
  import opened Options
  import opened Envelopes
  import opened Selection
  import opened Bus
  import opened Persistence
  import opened Replay
  import opened Fanout
  import opened Dedup
  import opened Holders
  import opened Restarts
  import Sink

  /** The number was handed out by this daemon or an earlier one. */
  ghost predicate Issued(s: State, x: Seq) {
    x.epoch < s.epoch || (x.epoch == s.epoch && x.counter < s.counter)
  }

  /** Stamped and not yet pushed. */
  ghost predicate Waiting(s: State, t: nat) {
    t in s.calls && (s.calls[t].pc.Stamped? || s.calls[t].pc.Recorded?)
  }

  /** A push overtakes no call of its channel that was stamped earlier. */
  ghost predicate InTurn(s: State, step: Step) {
    step.Push? && CallAt(s, step.call, Recorded) ==>
      forall u :: Waiting(s, u) && u != step.call && s.calls[u].env.channel == s.calls[step.call].env.channel
        ==> s.calls[step.call].env.stamp.Less(s.calls[u].env.stamp)
  }

  ghost predicate SerializedRun(cfg: Config, seed: nat, steps: seq<Step>) {
    forall n :: 0 <= n < |steps| ==> InTurn(Reach(cfg, seed, steps[..n]), steps[n])
  }

  ghost predicate StoredIssued(s: State) {
    && (forall room, e :: e in At(s.sink, room) ==> Issued(s, e.stamp))
    && (forall e :: e in s.queue ==> Issued(s, e.stamp))
    && (forall e :: e in s.batch ==> Issued(s, e.stamp))
  }

  ghost predicate CallIssued(s: State, t: nat)
    requires t in s.calls
  {
    var c := s.calls[t];
    c.pc.Stamped? || c.pc.Recorded? || c.pc.Pushed? || c.pc.Sent? ==> Issued(s, c.env.stamp)
  }

  ghost predicate RoomInOrder(s: State, room: RoomId) {
    && Sorted(At(s.past.shown, room))
    && (forall e :: e in At(s.past.shown, room) ==> Issued(s, e.stamp))
    && (forall t, e :: Waiting(s, t) && s.calls[t].env.channel == room && e in At(s.past.shown, room)
          ==> e.stamp.Less(s.calls[t].env.stamp))
  }

  ghost predicate InOrderSoFar(s: State) {
    && StoredIssued(s)
    && (forall t :: t in s.calls ==> CallIssued(s, t))
    && (forall room :: RoomInOrder(s, room))
  }

  lemma OrderPush(cfg: Config, s: State, t: nat)
    requires InOrderSoFar(s) && CallAt(s, t, Recorded) && InTurn(s, Push(t))
    ensures InOrderSoFar(DoPush(cfg, s, t))
  {
    var s' := DoPush(cfg, s, t);
    var e := s.calls[t].env;
    assert CallIssued(s, t);
    forall u | u in s'.calls ensures CallIssued(s', u) { assert CallIssued(s, u); }
    forall room ensures RoomInOrder(s', room) {
      assert RoomInOrder(s, room);
      if room == e.channel {
        assert Waiting(s, t);
        SortedAppend(At(s.past.shown, room), [e]);
        forall u, x | Waiting(s', u) && s'.calls[u].env.channel == room && x in At(s'.past.shown, room)
          ensures x.stamp.Less(s'.calls[u].env.stamp)
        {
          assert u != t && Waiting(s, u);
        }
      }
    }
  }

  lemma OrderStamp(s: State, t: nat, now: nat)
    requires InOrderSoFar(s) && CallAt(s, t, Reserved)
    ensures InOrderSoFar(DoStamp(s, t, now))
  {
    var s' := DoStamp(s, t, now);
    assert forall x :: Issued(s, x) ==> Issued(s', x);
    forall u | u in s'.calls ensures CallIssued(s', u) {
      if u != t { assert CallIssued(s, u); }
    }
    forall room ensures RoomInOrder(s', room) {
      assert RoomInOrder(s, room);
      forall u, x | Waiting(s', u) && s'.calls[u].env.channel == room && x in At(s'.past.shown, room)
        ensures x.stamp.Less(s'.calls[u].env.stamp)
      {
        if u != t { assert Waiting(s, u); }
      }
    }
  }

  lemma OrderFresh(s: State, seed: nat)
    requires StoredIssued(s) && StoreOk(s.sink)
    ensures InOrderSoFar(Fresh(s.epoch + 1, seed, s.sink, s.past.ever))
  {
    var s' := Fresh(s.epoch + 1, seed, s.sink, s.past.ever);
    forall room ensures RoomInOrder(s', room) {
    }
  }

  /** Steps that stamp, show and store nothing: calls may leave or move past their push. */
  lemma OrderFrame(s: State, s': State)
    requires InOrderSoFar(s)
    requires s'.epoch == s.epoch && s'.counter == s.counter && s'.past.shown == s.past.shown
    requires StoredIssued(s')
    requires forall u :: u in s'.calls ==> CallIssued(s', u)
    requires forall u :: Waiting(s', u) ==> Waiting(s, u) && s'.calls[u].env == s.calls[u].env
    ensures InOrderSoFar(s')
  {
    forall room ensures RoomInOrder(s', room) {
      assert RoomInOrder(s, room);
    }
  }

  /** The writer moves events along and stores them, and touches no call. */
  lemma WriterFrame(cfg: Config, s: State, step: Step)
    requires WriterStep(step)
    ensures var s' := Apply(cfg, s, step);
            s'.epoch == s.epoch && s'.counter == s.counter && s'.calls == s.calls && s'.past.shown == s.past.shown
  {
  }

  lemma StoredWriter(cfg: Config, s: State, step: Step)
    requires StoredIssued(s) && Base(s) && WriterStep(step)
    ensures StoredIssued(Apply(cfg, s, step))
  {
    WriterFrame(cfg, s, step);
    if step.AppendNext? && s.writer.Writing? && s.writer.done < |s.batch| {
      var e := s.batch[s.writer.done];
      assert e in s.batch;
      Sink.AppendedValid(At(s.sink, e.channel), e);
      var s' := DoAppendNext(s);
      forall room, x | x in At(s'.sink, room) ensures Issued(s', x.stamp) {
        assert x in At(s.sink, room) || x == e;
      }
    }
    if step.Collect? && s.queue != [] { assert s.queue == [s.queue[0]] + s.queue[1..]; }
  }

  lemma OrderWriter(cfg: Config, s: State, step: Step)
    requires InOrderSoFar(s) && Base(s) && WriterStep(step)
    ensures InOrderSoFar(Apply(cfg, s, step))
  {
    var s' := Apply(cfg, s, step);
    WriterFrame(cfg, s, step);
    StoredWriter(cfg, s, step);
    forall u | u in s'.calls ensures CallIssued(s', u) { assert CallIssued(s, u); }
    OrderFrame(s, s');
  }

  ghost predicate Unstamping(step: Step) {
    !WriterStep(step) && !step.Restart? && !step.Push? && !step.Stamp?
  }

  lemma CallFrame(cfg: Config, s: State, step: Step)
    requires Unstamping(step)
    ensures var s' := Apply(cfg, s, step);
            && s'.epoch == s.epoch && s'.counter == s.counter && s'.sink == s.sink && s'.batch == s.batch
            && s'.past.shown == s.past.shown
  {
    ApplyCases(cfg, s, step);
  }

  /** Nobody starts waiting for the lock, and no stamp changes. */
  ghost predicate Moved(s: State, s': State, u: nat)
    requires u in s'.calls
  {
    if u !in s.calls then s'.calls[u].pc.Admitted? || s'.calls[u].pc.Probing?
    else
      && s'.calls[u].env == s.calls[u].env
      && (s'.calls[u].pc == s.calls[u].pc || (s.calls[u].pc.Stamped? && s'.calls[u].pc.Recorded?)
          || (s.calls[u].pc.Pushed? && s'.calls[u].pc.Sent?) || s'.calls[u].pc.Admitted? || s'.calls[u].pc.Reserved?)
  }

  lemma MovedStart(cfg: Config, s: State, t: nat, env: Envelope, u: nat)
    ensures u in DoStartPublish(s, t, env).calls ==> Moved(s, DoStartPublish(s, t, env), u)
    ensures u in DoStartIfNew(cfg, s, t, env).calls ==> Moved(s, DoStartIfNew(cfg, s, t, env), u)
  {
  }

  lemma MovedProbe(s: State, t: nat, b: bool, u: nat)
    ensures u in DoProbe(s, t, b).calls ==> Moved(s, DoProbe(s, t, b), u)
  {
  }

  lemma MovedReserve(cfg: Config, s: State, t: nat, b: bool, u: nat)
    ensures u in DoReserve(cfg, s, t, b).calls ==> Moved(s, DoReserve(cfg, s, t, b), u)
  {
  }

  lemma MovedRecord(cfg: Config, s: State, t: nat, u: nat)
    ensures u in DoRecord(cfg, s, t).calls ==> Moved(s, DoRecord(cfg, s, t), u)
  {
  }

  lemma MovedSend(s: State, t: nat, u: nat)
    ensures u in DoSend(s, t).calls ==> Moved(s, DoSend(s, t), u)
  {
  }

  lemma MovedFinish(s: State, t: nat, u: nat)
    ensures u in DoFinish(s, t).calls ==> Moved(s, DoFinish(s, t), u)
  {
  }

  lemma CallsMove(cfg: Config, s: State, step: Step, u: nat)
    requires Unstamping(step) && u in Apply(cfg, s, step).calls
    ensures Moved(s, Apply(cfg, s, step), u)
  {
    match step
    case StartPublish(t, env) => MovedStart(cfg, s, t, env, u);
    case StartIfNew(t, env) => MovedStart(cfg, s, t, env, u);
    case Probe(t, failed) => MovedProbe(s, t, failed, u);
    case Reserve(t, gone) => MovedReserve(cfg, s, t, gone, u);
    case Record(t) => MovedRecord(cfg, s, t, u);
    case Send(t) => MovedSend(s, t, u);
    case Finish(t) => MovedFinish(s, t, u);
    case _ =>
  }

  lemma QueueMoves(cfg: Config, s: State, step: Step)
    requires Unstamping(step) && StoredIssued(s) && forall t :: t in s.calls ==> CallIssued(s, t)
    ensures StoredIssued(Apply(cfg, s, step))
  {
    CallFrame(cfg, s, step);
    if step.Send? {
      if CallAt(s, step.call, Pushed) { assert CallIssued(s, step.call); }
    } else {
      PipelineFrame(cfg, s, step);
    }
  }

  lemma OrderCall(cfg: Config, s: State, step: Step)
    requires InOrderSoFar(s) && Unstamping(step)
    ensures InOrderSoFar(Apply(cfg, s, step))
  {
    var s' := Apply(cfg, s, step);
    CallFrame(cfg, s, step);
    QueueMoves(cfg, s, step);
    forall u | u in s'.calls ensures CallIssued(s', u) {
      if u in s.calls { assert CallIssued(s, u); }
      CallsMove(cfg, s, step, u);
    }
    forall u | Waiting(s', u) ensures Waiting(s, u) && s'.calls[u].env == s.calls[u].env {
      CallsMove(cfg, s, step, u);
    }
    OrderFrame(s, s');
  }

  lemma {:induction false} OrderAlways(cfg: Config, seed: nat, steps: seq<Step>)
    requires SerializedRun(cfg, seed, steps)
    ensures InOrderSoFar(Reach(cfg, seed, steps))
  {
    if steps != [] {
      var front, step := steps[..|steps| - 1], steps[|steps| - 1];
      var s := Reach(cfg, seed, front);
      assert SerializedRun(cfg, seed, front) by {
        forall n | 0 <= n < |front| ensures InTurn(Reach(cfg, seed, front[..n]), front[n]) {
          assert front[..n] == steps[..n] && front[n] == steps[n];
        }
      }
      assert InTurn(Reach(cfg, seed, steps[..|front|]), steps[|front|]);
      OrderAlways(cfg, seed, front);
      BaseAlways(cfg, seed, front);
      OrderStep(cfg, s, step);
    }
  }

  lemma OrderStep(cfg: Config, s: State, step: Step)
    requires InOrderSoFar(s) && Base(s) && InTurn(s, step)
    ensures InOrderSoFar(Apply(cfg, s, step))
  {
    if step.Restart? {
      OrderFresh(s, step.seed);
    } else if WriterStep(step) {
      OrderWriter(cfg, s, step);
    } else if step.Push? {
      if CallAt(s, step.call, Recorded) { OrderPush(cfg, s, step.call); }
    } else if step.Stamp? {
      assert Apply(cfg, s, step) == DoStamp(s, step.call, step.now);
      if CallAt(s, step.call, Reserved) { OrderStamp(s, step.call, step.now); }
    } else {
      OrderCall(cfg, s, step);
    }
  }

  /** When no push overtakes an earlier-stamped call of its channel, every channel shows and
      rings its events in sequence order, across restarts included. */
  lemma SerializedPushesAreInOrder(cfg: Config, seed: nat, steps: seq<Step>, room: RoomId)
    requires SerializedRun(cfg, seed, steps)
    ensures var s := Reach(cfg, seed, steps);
            Sorted(At(s.past.shown, room)) && InOrder(s, room)
  {
    OrderAlways(cfg, seed, steps);
    LogShownAlways(cfg, seed, steps, room);
    assert RoomInOrder(Reach(cfg, seed, steps), room);
  }

  /** A disciplined run is fresh at every moment. */
  lemma DisciplinedIsFresh(cfg: Config, seed: nat, steps: seq<Step>)
    requires DisciplinedRun(cfg, seed, steps)
    ensures FreshThroughout(cfg, seed, steps)
  {
    forall n | 0 <= n <= |steps| ensures FreshIds(Reach(cfg, seed, steps[..n])) {
      assert steps[..n] + steps[n..] == steps;
      AtMostOnce(cfg, seed, steps[..n], steps[n..]);
    }
  }

  /** The router's promise end to end. In every run whose ids are disciplined and whose pushes
      are serialized per channel, restarts included: a durable event that any daemon accepted
      is missing from ring and store exactly when a restart came before it was stored, and it
      was pinned then; every pinned entry has exactly one holder; and replay from any cursor,
      with the store read at any time after the ring snapshot, yields exactly the durables
      the daemon holds after the cursor, in order, followed if the ring was empty only by
      later ones. */
  lemma NoEventIsLost(cfg: Config, seed: nat, steps: seq<Step>, later: seq<Step>, room: RoomId, from: Option<Cursor>)
    requires DisciplinedRun(cfg, seed, steps + later) && SerializedRun(cfg, seed, steps + later) && NoRestart(later)
    ensures var s, s' := Reach(cfg, seed, steps), Reach(cfg, seed, steps + later);
            var want, got := AcceptedAfter(s, room, from), Replayed(s, s', room, from);
            && (forall e: Envelope :: e.delivery.Durable? && e in At(s'.past.ever, e.channel) ==>
                  (!Alive(s', e) <==> LostSome(cfg, seed, steps + later, e)))
            && (forall n: nat, e :: LostBy(cfg, seed, steps + later, n, e) ==> PinnedHere(Reach(cfg, seed, (steps + later)[..n]), e))
            && HeldOnce(s')
            && want <= got && (forall e :: e in got[|want|..] ==> e !in At(s.past.log, room))
            && (At(s.rings, room) != [] || later == [] ==> got == want)
  {
    var all := steps + later;
    DisciplinedIsFresh(cfg, seed, all);
    assert all[..|all|] == all;
    assert FreshIds(Reach(cfg, seed, all[..|all|]));
    forall e: Envelope | e.delivery.Durable? && e in At(Reach(cfg, seed, all).past.ever, e.channel)
      ensures !Alive(Reach(cfg, seed, all), e) <==> LostSome(cfg, seed, all, e)
    {
      OnlyRestartsLose(cfg, seed, all, e);
    }
    forall n: nat, e | LostBy(cfg, seed, all, n, e) ensures PinnedHere(Reach(cfg, seed, all[..n]), e) {
      assert FreshIds(Reach(cfg, seed, all[..n]));
      AtRiskIsPinned(cfg, seed, all[..n], e);
    }
    HeldAlways(cfg, seed, all);
    SerializedPushesAreInOrder(cfg, seed, all, room);
    NoGap(cfg, seed, steps, later, room, from);
  }
}
