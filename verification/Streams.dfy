/** The subscriber's stream against the history of the run it was taken in: pages read at any
    moments after registration, the ring as it stood then, and the live queue. */
module Streams {
  import opened Options
  import opened Envelopes
  import opened HeaderFilters
  import opened Selection
  import opened Bus
  import opened Channel
  import opened Persistence
  import opened Replay
  import opened Subscription
  import opened Fanout
  import opened StoreOrder
  import R = Ring

  /** The run up to the registration and on to the moment of observation. */
  ghost function Whole(steps: seq<Step>, filter: Filter, later: seq<Step>): seq<Step> {
    steps + [Subscribe(filter)] + later
  }

  /** A subscriber registered after `steps` and is still registered after `later`. */
  ghost predicate Registered(cfg: Config, seed: nat, steps: seq<Step>, filter: Filter, later: seq<Step>) {
    NoRestart(later) && Reach(cfg, seed, steps).nextSub in Reach(cfg, seed, Whole(steps, filter, later)).subs
  }

  /** It never lagged and is still reading. */
  ghost predicate Listening(cfg: Config, seed: nat, steps: seq<Step>, filter: Filter, later: seq<Step>) {
    && Registered(cfg, seed, steps, filter, later)
    && var sub := Reach(cfg, seed, Whole(steps, filter, later)).subs[Reach(cfg, seed, steps).nextSub];
       !sub.lagged && !sub.closed
  }

  /** And ids are fresh and the channel has shown its events in sequence order. */
  ghost predicate Following(cfg: Config, seed: nat, steps: seq<Step>, filter: Filter, later: seq<Step>) {
    var s' := Reach(cfg, seed, Whole(steps, filter, later));
    Listening(cfg, seed, steps, filter, later) && FreshIds(s') && Sorted(At(s'.past.shown, filter.channel))
  }

  /** What the subscriber was sent. */
  ghost function SentTo(cfg: Config, seed: nat, steps: seq<Step>, filter: Filter, later: seq<Step>): seq<Envelope>
    requires Registered(cfg, seed, steps, filter, later)
  {
    var sub := Reach(cfg, seed, Whole(steps, filter, later)).subs[Reach(cfg, seed, steps).nextSub];
    sub.received + sub.queue
  }

  /** The pages were read, in this order, from the store as it stood at some moments after
      registration. */
  ghost predicate ReadDuring(cfg: Config, seed: nat, steps: seq<Step>, filter: Filter, later: seq<Step>, times: seq<nat>, views: seq<seq<Envelope>>) {
    && |times| == |views|
    && (forall i, j :: 0 <= i <= j < |times| ==> times[i] <= times[j] <= |later|)
    && (forall i :: 0 <= i < |views| ==>
          times[i] <= |later| && views[i] == At(Reach(cfg, seed, Whole(steps, filter, later[..times[i]])).sink, filter.channel))
  }

  ghost function Wanting(filter: Filter, from: Option<Cursor>): Pred {
    Both(AfterGate(from), Wanted(filter))
  }

  // ---------------------------------------------------------------- durables shown and logged

  lemma {:induction false} DurablesShownAlways(cfg: Config, seed: nat, steps: seq<Step>, room: RoomId)
    ensures var s := Reach(cfg, seed, steps);
            Select(At(s.past.shown, room), IsDurable) == Select(At(s.past.log, room), IsDurable)
  {
    if steps != [] {
      var front, step := steps[..|steps| - 1], steps[|steps| - 1];
      var s := Reach(cfg, seed, front);
      DurablesShownAlways(cfg, seed, front, room);
      if step.Push? {
        if CallAt(s, step.call, Recorded) { DurablesShownPush(cfg, s, step.call, room); }
      } else if !step.Restart? {
        ShownFrame(cfg, s, step);
        if !step.AppendNext? && !step.MarkNext? { QuietFrame(cfg, s, step); }
      }
    }
  }

  lemma DurablesShownPush(cfg: Config, s: State, t: nat, room: RoomId)
    requires CallAt(s, t, Recorded) && Select(At(s.past.shown, room), IsDurable) == Select(At(s.past.log, room), IsDurable)
    ensures var s' := DoPush(cfg, s, t);
            Select(At(s'.past.shown, room), IsDurable) == Select(At(s'.past.log, room), IsDurable)
  {
    var e, s' := s.calls[t].env, DoPush(cfg, s, t);
    var shown, log := At(s.past.shown, room), At(s.past.log, room);
    if e.channel == room {
      assert At(s'.past.shown, room) == shown + [e];
      SelectAppend(shown, [e], IsDurable);
      SelectAppend(log, [e], IsDurable);
      if e.delivery.EphemeralLatest? {
        assert Select([e], IsDurable) == [] && At(s'.past.log, room) == log;
      } else {
        assert At(s'.past.log, room) == log + [e];
      }
    } else {
      assert At(s'.past.shown, room) == shown && At(s'.past.log, room) == log;
    }
  }

  /** Since any earlier moment, the durables shown are the durables logged. */
  lemma SameDurablesSince(shown: seq<Envelope>, shown': seq<Envelope>, log: seq<Envelope>, log': seq<Envelope>)
    requires shown <= shown' && log <= log'
    requires Select(shown, IsDurable) == Select(log, IsDurable) && Select(shown', IsDurable) == Select(log', IsDurable)
    ensures Select(shown'[|shown|..], IsDurable) == Select(log'[|log|..], IsDurable)
  {
    assert shown' == shown + shown'[|shown|..] && log' == log + log'[|log|..];
    SelectAppend(shown, shown'[|shown|..], IsDurable);
    SelectAppend(log, log'[|log|..], IsDurable);
    Cancel(Select(shown, IsDurable), Select(shown'[|shown|..], IsDurable), Select(log'[|log|..], IsDurable));
  }

  lemma Cancel(a: seq<Envelope>, x: seq<Envelope>, y: seq<Envelope>)
    requires a + x == a + y
    ensures x == y
  {
    assert x == (a + x)[|a|..] && y == (a + y)[|a|..];
  }

  // ---------------------------------------------------------------- the states in between

  lemma SplitWhole(steps: seq<Step>, filter: Filter, later: seq<Step>, n: nat)
    requires n <= |later|
    ensures Whole(steps, filter, later) == Whole(steps, filter, later[..n]) + later[n..]
    ensures Whole(steps, filter, later[..n]) == steps + ([Subscribe(filter)] + later[..n])
    ensures Whole(steps, filter, later) == steps + ([Subscribe(filter)] + later)
  {
    assert later == later[..n] + later[n..];
  }

  /** At any moment between registration and observation ids were fresh and the log sorted. */
  lemma Between(cfg: Config, seed: nat, steps: seq<Step>, filter: Filter, later: seq<Step>, n: nat)
    requires Following(cfg, seed, steps, filter, later) && n <= |later|
    ensures var mid, s' := Reach(cfg, seed, Whole(steps, filter, later[..n])), Reach(cfg, seed, Whole(steps, filter, later));
            && FreshIds(mid) && InOrder(mid, filter.channel) && InOrder(s', filter.channel) && Base(mid)
            && (forall e :: e in At(mid.sink, filter.channel) ==> e in At(s'.sink, filter.channel))
            && At(mid.past.log, filter.channel) <= At(s'.past.log, filter.channel)
  {
    var room := filter.channel;
    var mid, s' := Reach(cfg, seed, Whole(steps, filter, later[..n])), Reach(cfg, seed, Whole(steps, filter, later));
    SplitWhole(steps, filter, later, n);
    EarlierIsFresh(cfg, seed, Whole(steps, filter, later[..n]), later[n..]);
    Growth(cfg, mid, later[n..], room);
    LogShownAlways(cfg, seed, Whole(steps, filter, later), room);
    LogStaysSorted(At(mid.past.log, room), At(s'.past.log, room));
  }

  // ---------------------------------------------------------------- whatever the order

  /** What the subscriber has replayed before its live leg: stored rows, then the snapshot. */
  ghost function BeforeLive(filter: Filter, from: Option<Cursor>, slots: seq<R.Slot>, views: seq<seq<Envelope>>, n: nat): seq<Envelope>
    requires n > 0
  {
    var deep := Deep(views, filter, R.Oldest(slots), from, from, n);
    deep + Gated(Select(R.Envs(slots), AfterGate(from)), Wanted(filter), HighAfter(deep, from))
  }

  /** The stream exactly, with no assumption on order, ids, ring or reads: an unlagged
      subscriber was sent exactly the matching events shown since it registered, and an event
      is yielded if and only if it was replayed, or it was sent at a position that lies after
      the replay's watermark and after everything sent before it. */
  lemma YieldedExactlyWhen(cfg: Config, seed: nat, steps: seq<Step>, filter: Filter, later: seq<Step>, from: Option<Cursor>,
                           views: seq<seq<Envelope>>, n: nat)
    requires n > 0 && Listening(cfg, seed, steps, filter, later)
    ensures var s, s' := Reach(cfg, seed, steps), Reach(cfg, seed, Whole(steps, filter, later));
            var shown, shown' := At(s.past.shown, filter.channel), At(s'.past.shown, filter.channel);
            var slots, live := At(s.rings, filter.channel), SentTo(cfg, seed, steps, filter, later);
            var replay := BeforeLive(filter, from, slots, views, n);
            && shown <= shown' && live == Select(shown'[|shown|..], Wanted(filter))
            && (forall e :: e in Yielded(filter, from, slots, views, live, n) <==>
                  (e in replay || exists i :: Passes(live, OfKinds(None), HighAfter(replay, from), i) && live[i] == e))
  {
    LiveSinceRegistration(cfg, seed, steps, filter, later);
    var slots, live := At(Reach(cfg, seed, steps).rings, filter.channel), SentTo(cfg, seed, steps, filter, later);
    var replay := BeforeLive(filter, from, slots, views, n);
    forall e ensures e in Gated(live, OfKinds(None), HighAfter(replay, from)) <==>
                     exists i :: Passes(live, OfKinds(None), HighAfter(replay, from), i) && live[i] == e {
      GatedExactlyWhen(live, OfKinds(None), HighAfter(replay, from), e);
    }
  }

  /** In particular the live leg yields everything that was sent, in the order it was sent, if
      and only if it was sent in cursor order and after everything replayed. */
  lemma LiveLegOfRun(cfg: Config, seed: nat, steps: seq<Step>, filter: Filter, later: seq<Step>, from: Option<Cursor>,
                     views: seq<seq<Envelope>>, n: nat)
    requires n > 0 && Listening(cfg, seed, steps, filter, later)
    ensures var slots, live := At(Reach(cfg, seed, steps).rings, filter.channel), SentTo(cfg, seed, steps, filter, later);
            var replay := BeforeLive(filter, from, slots, views, n);
            Yielded(filter, from, slots, views, live, n) == replay + live <==>
            Sorted(live) && (live == [] || AfterGate(HighAfter(replay, from)).Holds(live[0]))
  {
    var slots, live := At(Reach(cfg, seed, steps).rings, filter.channel), SentTo(cfg, seed, steps, filter, later);
    var replay := BeforeLive(filter, from, slots, views, n);
    LiveLegIsWhole(live, HighAfter(replay, from));
    var leg := Gated(live, OfKinds(None), HighAfter(replay, from));
    assert Yielded(filter, from, slots, views, live, n) == replay + leg;
    if replay + leg == replay + live { Cancel(replay, leg, live); }
  }

  // ---------------------------------------------------------------- a ring that holds anything

  lemma ViewsFit(cfg: Config, seed: nat, steps: seq<Step>, filter: Filter, later: seq<Step>, times: seq<nat>, views: seq<seq<Envelope>>)
    requires Following(cfg, seed, steps, filter, later) && ReadDuring(cfg, seed, steps, filter, later, times, views)
    requires At(Reach(cfg, seed, steps).rings, filter.channel) != []
    ensures var s := Reach(cfg, seed, steps);
            && AllSorted(views)
            && forall i :: 0 <= i < |views| ==> Behind(views[i], R.Oldest(At(s.rings, filter.channel))) == BehindRing(s, filter.channel)
  {
    forall i | 0 <= i < |views|
      ensures Sorted(views[i]) && Behind(views[i], R.Oldest(At(Reach(cfg, seed, steps).rings, filter.channel))) == BehindRing(Reach(cfg, seed, steps), filter.channel)
    {
      Between(cfg, seed, steps, filter, later, times[i]);
      SplitWhole(steps, filter, later, times[i]);
      BehindIsFixed(cfg, seed, steps, [Subscribe(filter)] + later[..times[i]], filter.channel);
    }
  }

  /** The durables of the three legs are the durables of the log. */
  lemma DurablesOfLegs(log: seq<Envelope>, rest: seq<Envelope>, since: seq<Envelope>, bucket: seq<Envelope>, slots: seq<R.Slot>, filter: Filter, from: Option<Cursor>)
    requires Seam(slots, bucket, log) && (forall e :: e in bucket ==> e.delivery.Durable?)
    requires Select(since, IsDurable) == Select(rest, IsDurable)
    ensures Select(DeepRows(Behind(bucket, R.Oldest(slots)), from, filter)
                   + Select(R.Envs(slots), Wanting(filter, from)) + Select(Select(since, Wanted(filter)), AfterGate(from)), IsDurable)
            == Select(log + rest, Both(Wanting(filter, from), IsDurable))
  {
    var p := Wanting(filter, from);
    var deep := DeepRows(Behind(bucket, R.Oldest(slots)), from, filter);
    var near, live := Select(R.Envs(slots), p), Select(Select(since, Wanted(filter)), AfterGate(from));
    assert deep == Select(bucket, Both(p, BeforeGate(R.Oldest(slots)))) by { DeepAsOne(bucket, R.Oldest(slots), filter, from); }
    assert Select(deep, IsDurable) == deep by {
      SelectMember(bucket, Both(p, BeforeGate(R.Oldest(slots))));
      SelectAll(deep, IsDurable);
    }
    SelectTwice(R.Envs(slots), p, IsDurable);
    assert Select(live, IsDurable) == Select(rest, Both(p, IsDurable)) by { LiveAsOne(since, rest, filter, from); }
    SelectAppend(deep, near, IsDurable);
    SelectAppend(deep + near, live, IsDurable);
    SeamExact(slots, bucket, log, p);
    SelectAppend(log, rest, Both(p, IsDurable));
  }

  lemma DeepAsOne(bucket: seq<Envelope>, oldest: Option<Cursor>, filter: Filter, from: Option<Cursor>)
    ensures DeepRows(Behind(bucket, oldest), from, filter) == Select(bucket, Both(Wanting(filter, from), BeforeGate(oldest)))
  {
    SelectTwice(bucket, BeforeGate(oldest), AfterGate(from));
    SelectTwice(bucket, Both(BeforeGate(oldest), AfterGate(from)), Wanted(filter));
    SelectSame(bucket, Both(Both(BeforeGate(oldest), AfterGate(from)), Wanted(filter)), Both(Wanting(filter, from), BeforeGate(oldest)));
  }

  lemma LiveAsOne(since: seq<Envelope>, rest: seq<Envelope>, filter: Filter, from: Option<Cursor>)
    requires Select(since, IsDurable) == Select(rest, IsDurable)
    ensures Select(Select(Select(since, Wanted(filter)), AfterGate(from)), IsDurable) == Select(rest, Both(Wanting(filter, from), IsDurable))
  {
    var p := Wanting(filter, from);
    SelectTwice(since, Wanted(filter), AfterGate(from));
    SelectTwice(since, Both(Wanted(filter), AfterGate(from)), IsDurable);
    SelectSame(since, Both(Both(Wanted(filter), AfterGate(from)), IsDurable), Both(IsDurable, p));
    SelectTwice(since, IsDurable, p);
    SelectTwice(rest, IsDurable, p);
    SelectSame(rest, Both(IsDurable, p), Both(p, IsDurable));
  }

  /** The promise of `subscribe`, for a registration on a ring that holds anything: in every
      run with fresh ids and pushes in order, wherever the pages were read, an unlagged
      stream is in order, so nothing is repeated; its durables are, unless a read failed,
      exactly the accepted durables on the filter after the cursor; and it ends with every
      matching event shown since registration, lossy ones included. */
  lemma StreamOfRun(cfg: Config, seed: nat, steps: seq<Step>, filter: Filter, later: seq<Step>, from: Option<Cursor>,
                    times: seq<nat>, views: seq<seq<Envelope>>, n: nat)
    requires n > 0 && Following(cfg, seed, steps, filter, later) && ReadDuring(cfg, seed, steps, filter, later, times, views)
    requires At(Reach(cfg, seed, steps).rings, filter.channel) != []
    ensures var s, s' := Reach(cfg, seed, steps), Reach(cfg, seed, Whole(steps, filter, later));
            var slots, live := At(s.rings, filter.channel), SentTo(cfg, seed, steps, filter, later);
            var out := Yielded(filter, from, slots, views, live, n);
            && Sorted(out)
            && (EndsAt(views, R.Oldest(slots), from, n).Some? ==>
                  Select(out, IsDurable) == Select(At(s'.past.log, filter.channel), Both(Wanting(filter, from), IsDurable)))
            && At(s.past.shown, filter.channel) <= At(s'.past.shown, filter.channel)
            && (forall e :: e in At(s'.past.shown, filter.channel)[|At(s.past.shown, filter.channel)|..] ==>
                  (Wanting(filter, from).Holds(e) ==> e in out))
  {
    var room := filter.channel;
    var s, s' := Reach(cfg, seed, steps), Reach(cfg, seed, Whole(steps, filter, later));
    var slots, live := At(s.rings, room), SentTo(cfg, seed, steps, filter, later);
    StreamFits(cfg, seed, steps, filter, later);
    ViewsFit(cfg, seed, steps, filter, later, times, views);
    StreamIsExact(filter, from, slots, views, live, n, BehindRing(s, room));
    var deep := Deep(views, filter, R.Oldest(slots), from, from, n);
    OutInOrder(filter, from, BehindRing(s, room), R.Envs(slots), live, deep);
    SinceIsLive(At(s'.past.shown, room)[|At(s.past.shown, room)|..], live, filter, from);
    if EndsAt(views, R.Oldest(slots), from, n).Some? {
      DurablesOfRun(cfg, seed, steps, filter, later, from);
    }
  }

  lemma SinceIsLive(since: seq<Envelope>, live: seq<Envelope>, filter: Filter, from: Option<Cursor>)
    requires live == Select(since, Wanted(filter))
    ensures forall e :: e in since ==> (Wanting(filter, from).Holds(e) ==> e in Select(live, AfterGate(from)))
  {
    SelectMember(since, Wanted(filter));
    SelectMember(live, AfterGate(from));
    forall e | e in since && Wanting(filter, from).Holds(e) ensures e in Select(live, AfterGate(from)) {
      assert AfterGate(from).Holds(e) && Wanted(filter).Holds(e);
    }
  }

  lemma OutInOrder(filter: Filter, from: Option<Cursor>, behind: seq<Envelope>, ring: seq<Envelope>, live: seq<Envelope>, deep: seq<Envelope>)
    requires Sorted(behind + (ring + live)) && deep <= DeepRows(behind, from, filter)
    ensures Sorted(deep + Select(ring, Wanting(filter, from)) + Select(live, AfterGate(from)))
  {
    SortedParts(behind, ring + live);
    SortedParts(ring, live);
    SelectSorted(behind, AfterGate(from));
    SelectSorted(Select(behind, AfterGate(from)), Wanted(filter));
    var rows := DeepRows(behind, from, filter);
    assert forall i :: 0 <= i < |deep| ==> deep[i] == rows[i];
    forall e | e in deep ensures e in behind { StoredAfter(filter, from, behind, deep, e); }
    SelectSorted(ring, Wanting(filter, from));
    SelectMember(ring, Wanting(filter, from));
    SelectSorted(live, AfterGate(from));
    SelectMember(live, AfterGate(from));
    SortedAppend(deep, Select(ring, Wanting(filter, from)));
    SortedAppend(deep + Select(ring, Wanting(filter, from)), Select(live, AfterGate(from)));
  }

  lemma DurablesOfRun(cfg: Config, seed: nat, steps: seq<Step>, filter: Filter, later: seq<Step>, from: Option<Cursor>)
    requires Following(cfg, seed, steps, filter, later) && At(Reach(cfg, seed, steps).rings, filter.channel) != []
    ensures var s, s' := Reach(cfg, seed, steps), Reach(cfg, seed, Whole(steps, filter, later));
            Select(DeepRows(BehindRing(s, filter.channel), from, filter)
                   + Select(R.Envs(At(s.rings, filter.channel)), Wanting(filter, from))
                   + Select(SentTo(cfg, seed, steps, filter, later), AfterGate(from)), IsDurable)
            == Select(At(s'.past.log, filter.channel), Both(Wanting(filter, from), IsDurable))
  {
    var room := filter.channel;
    var s, s' := Reach(cfg, seed, steps), Reach(cfg, seed, Whole(steps, filter, later));
    var log, log', shown, shown' := At(s.past.log, room), At(s'.past.log, room), At(s.past.shown, room), At(s'.past.shown, room);
    LiveSinceRegistration(cfg, seed, steps, filter, later);
    LogGrew(cfg, seed, steps, filter, later);
    DurablesShownAlways(cfg, seed, steps, room);
    DurablesShownAlways(cfg, seed, Whole(steps, filter, later), room);
    SameDurablesSince(shown, shown', log, log');
    assert log' == log + log'[|log|..];
    DurablesOfLegs(log, log'[|log|..], shown'[|shown|..], At(s.sink, room), At(s.rings, room), filter, from);
  }

  lemma LogGrew(cfg: Config, seed: nat, steps: seq<Step>, filter: Filter, later: seq<Step>)
    requires Following(cfg, seed, steps, filter, later)
    ensures var s, s' := Reach(cfg, seed, steps), Reach(cfg, seed, Whole(steps, filter, later));
            && FreshIds(s) && InOrder(s, filter.channel) && Base(s) && Base(s') && InOrder(s', filter.channel)
            && At(s.past.log, filter.channel) <= At(s'.past.log, filter.channel)
            && (forall e :: e in At(s.sink, filter.channel) ==> e in At(s'.sink, filter.channel) && e.delivery.Durable?)
            && Seam(At(s.rings, filter.channel), At(s.sink, filter.channel), At(s.past.log, filter.channel))
  {
    var room := filter.channel;
    var s, s' := Reach(cfg, seed, steps), Reach(cfg, seed, Whole(steps, filter, later));
    var tail := [Subscribe(filter)] + later;
    SplitWhole(steps, filter, later, 0);
    assert Whole(steps, filter, later) == steps + tail && NoRestart(tail);
    LogShownAlways(cfg, seed, Whole(steps, filter, later), room);
    EarlierIsFresh(cfg, seed, steps, tail);
    Growth(cfg, s, tail, room);
    SeamOfEarlierRead(cfg, seed, steps, tail, room);
  }

  // ---------------------------------------------------------------- an empty ring

  lemma ViewsSorted(cfg: Config, seed: nat, steps: seq<Step>, filter: Filter, later: seq<Step>, times: seq<nat>, views: seq<seq<Envelope>>)
    requires Following(cfg, seed, steps, filter, later) && ReadDuring(cfg, seed, steps, filter, later, times, views)
    ensures AllSorted(views)
    ensures forall e :: FromReads(views, e) ==> e in At(Reach(cfg, seed, Whole(steps, filter, later)).past.shown, filter.channel)
  {
    var s' := Reach(cfg, seed, Whole(steps, filter, later));
    forall i | 0 <= i < |views| ensures Sorted(views[i]) && forall e :: e in views[i] ==> e in At(s'.past.shown, filter.channel) {
      Between(cfg, seed, steps, filter, later, times[i]);
      SafeAlways(cfg, seed, Whole(steps, filter, later));
      LogShownAlways(cfg, seed, Whole(steps, filter, later), filter.channel);
      assert RoomOk(s', filter.channel);
    }
  }

  /** The live leg of a stream that had no ring snapshot, in terms of the stored leg. */
  lemma LiveAfterDeep(filter: Filter, from: Option<Cursor>, views: seq<seq<Envelope>>, live: seq<Envelope>, n: nat)
    requires n > 0 && Sorted(live)
    ensures var deep := Deep(views, filter, None, from, from, n);
            Yielded(filter, from, [], views, live, n) == deep + Select(live, AfterGate(HighAfter(deep, from)))
  {
    var deep := Deep(views, filter, None, from, from, n);
    var high := HighAfter(deep, from);
    assert R.Envs([]) == [] && deep + [] == deep;
    GatedInOrder(live, OfKinds(None), high);
    SelectSame(live, Both(AfterGate(high), OfKinds(None)), AfterGate(high));
  }

  /** The watermark after a sorted leg of rows past the cursor. */
  lemma AfterHigh(deep: seq<Envelope>, from: Option<Cursor>, shown: seq<Envelope>, e: Envelope)
    requires Sorted(deep) && (forall r :: r in deep ==> AfterGate(from).Holds(r) && r in shown)
    requires Sorted(shown) && e in shown && AfterGate(from).Holds(e)
    ensures AfterGate(HighAfter(deep, from)).Holds(e) <==> e !in deep && forall r :: r in deep ==> !e.Cursor().IsBefore(r.Cursor())
  {
    if deep != [] {
      var last := deep[|deep| - 1];
      assert last in deep;
      forall r | r in deep ensures r == last || r.Cursor().IsBefore(last.Cursor()) {
        var i :| 0 <= i < |deep| && deep[i] == r;
        if i < |deep| - 1 { assert deep[i].Cursor().IsBefore(deep[|deep| - 1].Cursor()); }
      }
      ShownOrder(shown, e, last);
    }
  }

  lemma ShownOrder(shown: seq<Envelope>, a: Envelope, b: Envelope)
    requires Sorted(shown) && a in shown && b in shown
    ensures a == b || a.Cursor().IsBefore(b.Cursor()) || b.Cursor().IsBefore(a.Cursor())
  {
    var i :| 0 <= i < |shown| && shown[i] == a;
    var j :| 0 <= j < |shown| && shown[j] == b;
  }

  /** A registration on an empty ring, exactly. In every run with fresh ids and pushes in
      order, wherever the pages were read: the stream is in order and repeats nothing, and an
      event that was sent to the subscriber and lies after its cursor is never yielded if and
      only if the stored leg missed it and yielded a row that sorts after it. */
  lemma DroppedExactlyWhen(cfg: Config, seed: nat, steps: seq<Step>, filter: Filter, later: seq<Step>, from: Option<Cursor>,
                           times: seq<nat>, views: seq<seq<Envelope>>, n: nat)
    requires n > 0 && Following(cfg, seed, steps, filter, later) && ReadDuring(cfg, seed, steps, filter, later, times, views)
    requires At(Reach(cfg, seed, steps).rings, filter.channel) == []
    ensures var live := SentTo(cfg, seed, steps, filter, later);
            var deep, out := Deep(views, filter, None, from, from, n), Yielded(filter, from, [], views, live, n);
            && Sorted(out)
            && (forall e :: e in live && AfterGate(from).Holds(e) ==>
                  (e !in out <==> e !in deep && exists r :: r in deep && e.Cursor().IsBefore(r.Cursor())))
  {
    var room, s' := filter.channel, Reach(cfg, seed, Whole(steps, filter, later));
    var live, shown := SentTo(cfg, seed, steps, filter, later), At(s'.past.shown, room);
    var deep := Deep(views, filter, None, from, from, n);
    ViewsSorted(cfg, seed, steps, filter, later, times, views);
    DeepIsSound(views, filter, None, from, from, n);
    assert forall r :: r in deep ==> SoundRow(views, filter, None, from, r);
    LiveIsShown(cfg, seed, steps, filter, later);
    LiveAfterDeep(filter, from, views, live, n);
    var high := HighAfter(deep, from);
    SelectMember(live, AfterGate(high));
    SelectSorted(live, AfterGate(high));
    YieldedExactlyWhen(cfg, seed, steps, filter, later, from, views, n);
    assert BeforeLive(filter, from, [], views, n) == deep by { assert R.Envs([]) == [] && deep + [] == deep; }
    forall e | e in live && AfterGate(from).Holds(e)
      ensures e !in Yielded(filter, from, [], views, live, n) <==> e !in deep && exists r :: r in deep && e.Cursor().IsBefore(r.Cursor())
    {
      AfterHigh(deep, from, shown, e);
      PassesInOrder(live, high, e);
    }
    forall x, y | x in deep && y in Select(live, AfterGate(high)) ensures x.Cursor().IsBefore(y.Cursor()) {
      BelowHigh(deep, from, x, y);
    }
    SortedAppend(deep, Select(live, AfterGate(high)));
  }

  /** In a sorted live leg an event passes exactly when it lies after the watermark. */
  lemma PassesInOrder(live: seq<Envelope>, high: Option<Cursor>, e: Envelope)
    requires Sorted(live) && e in live
    ensures (exists i :: Passes(live, OfKinds(None), high, i) && live[i] == e) <==> AfterGate(high).Holds(e)
  {
    var i :| 0 <= i < |live| && live[i] == e;
    if AfterGate(high).Holds(e) { assert Passes(live, OfKinds(None), high, i); }
  }

  lemma BelowHigh(deep: seq<Envelope>, from: Option<Cursor>, x: Envelope, y: Envelope)
    requires Sorted(deep) && x in deep && AfterGate(HighAfter(deep, from)).Holds(y)
    ensures x.Cursor().IsBefore(y.Cursor())
  {
    var i :| 0 <= i < |deep| && deep[i] == x;
    if i < |deep| - 1 { assert deep[i].Cursor().IsBefore(deep[|deep| - 1].Cursor()); }
  }

  lemma LiveIsShown(cfg: Config, seed: nat, steps: seq<Step>, filter: Filter, later: seq<Step>)
    requires Following(cfg, seed, steps, filter, later)
    ensures var s, s' := Reach(cfg, seed, steps), Reach(cfg, seed, Whole(steps, filter, later));
            var shown, shown' := At(s.past.shown, filter.channel), At(s'.past.shown, filter.channel);
            var live := SentTo(cfg, seed, steps, filter, later);
            && shown <= shown' && live == Select(shown'[|shown|..], Wanted(filter))
            && Sorted(live) && forall e :: e in live ==> e in shown' && filter.Matches(e)
  {
    LiveSinceRegistration(cfg, seed, steps, filter, later);
    var s, s' := Reach(cfg, seed, steps), Reach(cfg, seed, Whole(steps, filter, later));
    var shown, shown' := At(s.past.shown, filter.channel), At(s'.past.shown, filter.channel);
    var since := shown'[|shown|..];
    assert shown' == shown + since;
    SortedParts(shown, since);
    SelectSorted(since, Wanted(filter));
    SelectMember(since, Wanted(filter));
    forall e | e in Select(since, Wanted(filter)) ensures filter.Matches(e) { assert Wanted(filter).Holds(e); }
  }

  // ---------------------------------------------------------------- an empty ring, stores in order

  lemma PrefixesOfOne(a: seq<Envelope>, b: seq<Envelope>, all: seq<Envelope>)
    requires NoRepeat(all) && a <= all && b <= all && forall e :: e in a ==> e in b
    ensures a <= b
  {
    if a != [] {
      var last := a[|a| - 1];
      assert last in a;
      var j :| 0 <= j < |b| && b[j] == last;
      assert all[j] == all[|a| - 1];
    }
  }

  /** With sends in order too, each page's store is a prefix of the final durables, and they
      only grow. */
  lemma ViewsExtend(cfg: Config, seed: nat, steps: seq<Step>, filter: Filter, later: seq<Step>, times: seq<nat>, views: seq<seq<Envelope>>)
    requires Following(cfg, seed, steps, filter, later) && ReadDuring(cfg, seed, steps, filter, later, times, views)
    requires SendsInOrder(Reach(cfg, seed, Whole(steps, filter, later)), filter.channel)
    ensures var s' := Reach(cfg, seed, Whole(steps, filter, later));
            && Extending(views, None)
            && (forall i :: 0 <= i < |views| ==> Behind(views[i], None) == views[i] && views[i] <= Durables(s', filter.channel))
  {
    var room, s' := filter.channel, Reach(cfg, seed, Whole(steps, filter, later));
    var all := Durables(s', room);
    forall i | 0 <= i < |views| ensures Behind(views[i], None) == views[i] && views[i] <= all {
      ViewIsPrefix(cfg, seed, steps, filter, later, times[i]);
      SelectAll(views[i], BeforeGate(None));
    }
    Between(cfg, seed, steps, filter, later, |later|);
    assert DistinctIds(At(s'.past.log, room));
    SelectNoRepeat(At(s'.past.log, room), IsDurable);
    forall i, j | 0 <= i <= j < |views| ensures Behind(views[i], None) <= Behind(views[j], None) {
      ViewGrows(cfg, seed, steps, filter, later, times[i], times[j]);
      PrefixesOfOne(views[i], views[j], all);
    }
  }

  lemma ViewIsPrefix(cfg: Config, seed: nat, steps: seq<Step>, filter: Filter, later: seq<Step>, n: nat)
    requires Following(cfg, seed, steps, filter, later) && n <= |later|
    requires SendsInOrder(Reach(cfg, seed, Whole(steps, filter, later)), filter.channel)
    ensures var mid, s' := Reach(cfg, seed, Whole(steps, filter, later[..n])), Reach(cfg, seed, Whole(steps, filter, later));
            At(mid.sink, filter.channel) <= Durables(s', filter.channel)
  {
    var room := filter.channel;
    var mid, s' := Reach(cfg, seed, Whole(steps, filter, later[..n])), Reach(cfg, seed, Whole(steps, filter, later));
    SplitWhole(steps, filter, later, n);
    Between(cfg, seed, steps, filter, later, n);
    OrderedEarlier(cfg, seed, Whole(steps, filter, later[..n]), later[n..], room);
    StoredInOrder(cfg, seed, Whole(steps, filter, later[..n]), room);
    SelectPrefixOf(At(mid.past.log, room), At(s'.past.log, room), IsDurable);
  }

  lemma ViewGrows(cfg: Config, seed: nat, steps: seq<Step>, filter: Filter, later: seq<Step>, m: nat, n: nat)
    requires NoRestart(later) && m <= n <= |later|
    ensures var a, b := Reach(cfg, seed, Whole(steps, filter, later[..m])), Reach(cfg, seed, Whole(steps, filter, later[..n]));
            forall e :: e in At(a.sink, filter.channel) ==> e in At(b.sink, filter.channel)
  {
    var a := Whole(steps, filter, later[..m]);
    assert later[..n] == later[..m] + later[m..n];
    assert Whole(steps, filter, later[..n]) == a + later[m..n];
    RunAppend(cfg, Fresh(1, seed, map[], map[]), a, later[m..n]);
    BaseAlways(cfg, seed, a);
    Growth(cfg, Reach(cfg, seed, a), later[m..n], filter.channel);
  }

  /** What the live leg adds to the rows of the last page. */
  lemma LiveCompletes(all: seq<Envelope>, b: nat, since: seq<Envelope>, live: seq<Envelope>, filter: Filter, from: Option<Cursor>)
    requires b <= |all| && Sorted(all) && live == Select(since, Wanted(filter)) && Sorted(live)
    requires forall e :: e in since && e.delivery.Durable? ==> e in all
    requires forall e :: e in all[b..] ==> e in since && e.delivery.Durable?
    ensures var p, deep := Wanting(filter, from), Select(all[..b], Wanting(filter, from));
            Select(Select(live, AfterGate(HighAfter(deep, from))), IsDurable) == Select(all[b..], p)
  {
    var p, deep := Wanting(filter, from), Select(all[..b], Wanting(filter, from));
    var high := HighAfter(deep, from);
    var got, want := Select(Select(live, AfterGate(high)), IsDurable), Select(all[b..], p);
    assert all == all[..b] + all[b..];
    SortedParts(all[..b], all[b..]);
    SelectSorted(all[..b], p);
    SelectSorted(all[b..], p);
    SelectSorted(live, AfterGate(high));
    SelectSorted(Select(live, AfterGate(high)), IsDurable);
    forall e ensures e in got <==> e in want { LiveMember(all, b, since, live, filter, from, e); }
    SortedUnique(got, want);
  }

  /** Past every row, the watermark gates as the cursor does. */
  lemma PastRows(rows: seq<Envelope>, p: Pred, from: Option<Cursor>, e: Envelope)
    requires forall r :: r in rows ==> r.Cursor().IsBefore(e.Cursor())
    ensures var deep := Select(rows, Both(AfterGate(from), p));
            AfterGate(HighAfter(deep, from)).Holds(e) <==> AfterGate(from).Holds(e)
  {
    var deep := Select(rows, Both(AfterGate(from), p));
    if deep != [] { LastRow(rows, p, from); }
  }

  /** No wanted row lies past the watermark. */
  lemma AmongRows(rows: seq<Envelope>, p: Pred, from: Option<Cursor>, e: Envelope)
    requires Sorted(rows) && e in rows && p.Holds(e)
    ensures var deep := Select(rows, Both(AfterGate(from), p));
            !AfterGate(HighAfter(deep, from)).Holds(e)
  {
    var q := Both(AfterGate(from), p);
    var deep := Select(rows, q);
    SelectMember(rows, q);
    SelectSorted(rows, q);
    assert q.Holds(e) <==> AfterGate(from).Holds(e) && p.Holds(e);
    if deep != [] { LastRow(rows, p, from); }
    if e in deep { LastOfSorted(deep, e); }
  }

  lemma LastRow(rows: seq<Envelope>, p: Pred, from: Option<Cursor>)
    requires Select(rows, Both(AfterGate(from), p)) != []
    ensures var deep := Select(rows, Both(AfterGate(from), p));
            deep[|deep| - 1] in rows && AfterGate(from).Holds(deep[|deep| - 1])
  {
    var q := Both(AfterGate(from), p);
    var deep := Select(rows, q);
    SelectMember(rows, q);
    assert deep[|deep| - 1] in deep && q.Holds(deep[|deep| - 1]);
  }

  lemma LiveMember(all: seq<Envelope>, b: nat, since: seq<Envelope>, live: seq<Envelope>, filter: Filter, from: Option<Cursor>, e: Envelope)
    requires b <= |all| && Sorted(all) && live == Select(since, Wanted(filter))
    requires forall e :: e in since && e.delivery.Durable? ==> e in all
    requires forall e :: e in all[b..] ==> e in since && e.delivery.Durable?
    ensures var p, deep := Wanting(filter, from), Select(all[..b], Wanting(filter, from));
            e in Select(Select(live, AfterGate(HighAfter(deep, from))), IsDurable) <==> e in Select(all[b..], p)
  {
    var p, deep := Wanting(filter, from), Select(all[..b], Wanting(filter, from));
    GotIff(since, filter, HighAfter(deep, from), e);
    SelectMember(all[b..], p);
    assert p.Holds(e) <==> AfterGate(from).Holds(e) && filter.Matches(e);
    if e in all[b..] {
      AfterAll(all, b, filter, from, e);
    } else if e in all && filter.Matches(e) {
      AmongFirst(all, b, filter, from, e);
    }
  }

  lemma AfterAll(all: seq<Envelope>, b: nat, filter: Filter, from: Option<Cursor>, e: Envelope)
    requires b <= |all| && Sorted(all) && e in all[b..]
    ensures AfterGate(HighAfter(Select(all[..b], Wanting(filter, from)), from)).Holds(e) <==> AfterGate(from).Holds(e)
  {
    assert all == all[..b] + all[b..];
    SortedParts(all[..b], all[b..]);
    PastRows(all[..b], Wanted(filter), from, e);
  }

  lemma AmongFirst(all: seq<Envelope>, b: nat, filter: Filter, from: Option<Cursor>, e: Envelope)
    requires b <= |all| && Sorted(all) && e in all && e !in all[b..] && filter.Matches(e)
    ensures !AfterGate(HighAfter(Select(all[..b], Wanting(filter, from)), from)).Holds(e)
  {
    assert all == all[..b] + all[b..];
    SortedParts(all[..b], all[b..]);
    AmongRows(all[..b], Wanted(filter), from, e);
  }

  lemma GotIff(since: seq<Envelope>, filter: Filter, high: Option<Cursor>, e: Envelope)
    ensures e in Select(Select(Select(since, Wanted(filter)), AfterGate(high)), IsDurable) <==>
            e in since && filter.Matches(e) && AfterGate(high).Holds(e) && e.delivery.Durable?
  {
    SelectMember(since, Wanted(filter));
    SelectMember(Select(since, Wanted(filter)), AfterGate(high));
    SelectMember(Select(Select(since, Wanted(filter)), AfterGate(high)), IsDurable);
    assert Wanted(filter).Holds(e) <==> filter.Matches(e);
    assert IsDurable.Holds(e) <==> e.delivery.Durable?;
  }

  lemma LastOfSorted(deep: seq<Envelope>, e: Envelope)
    requires Sorted(deep) && e in deep
    ensures !deep[|deep| - 1].Cursor().IsBefore(e.Cursor())
  {
    var i :| 0 <= i < |deep| && deep[i] == e;
    if i < |deep| - 1 { assert deep[i].Cursor().IsBefore(deep[|deep| - 1].Cursor()); }
  }

  /** If permits are filled in the order of acceptance as well, an empty-ring registration
      loses and repeats no durable event: unless a read failed, the durables of the stream
      are exactly the accepted durables on the filter after the cursor. */
  lemma EmptyRingDurables(cfg: Config, seed: nat, steps: seq<Step>, filter: Filter, later: seq<Step>, from: Option<Cursor>,
                          times: seq<nat>, views: seq<seq<Envelope>>, n: nat)
    requires n > 0 && Following(cfg, seed, steps, filter, later) && ReadDuring(cfg, seed, steps, filter, later, times, views)
    requires At(Reach(cfg, seed, steps).rings, filter.channel) == []
    requires SendsInOrder(Reach(cfg, seed, Whole(steps, filter, later)), filter.channel)
    requires EndsAt(views, None, from, n).Some?
    ensures var s' := Reach(cfg, seed, Whole(steps, filter, later));
            Select(Yielded(filter, from, [], views, SentTo(cfg, seed, steps, filter, later), n), IsDurable)
            == Select(At(s'.past.log, filter.channel), Both(Wanting(filter, from), IsDurable))
  {
    var room := filter.channel;
    var s' := Reach(cfg, seed, Whole(steps, filter, later));
    var k := EndsAt(views, None, from, n).value;
    var all, b, live := Durables(s', room), |views[k]|, SentTo(cfg, seed, steps, filter, later);
    ViewsSorted(cfg, seed, steps, filter, later, times, views);
    ViewsExtend(cfg, seed, steps, filter, later, times, views);
    DeepIsExact(views, filter, None, from, from, n);
    assert all[..b] == views[k];
    SelectTwice(all[..b], AfterGate(from), Wanted(filter));
    LiveIsShown(cfg, seed, steps, filter, later);
    LiveAfterDeep(filter, from, views, live, n);
    RestWasSent(cfg, seed, steps, filter, later, times[k]);
    Between(cfg, seed, steps, filter, later, |later|);
    SelectSorted(At(s'.past.log, room), IsDurable);
    LiveCompletes(all, b, At(s'.past.shown, room)[|At(Reach(cfg, seed, steps).past.shown, room)|..], live, filter, from);
    JoinDurables(At(s'.past.log, room), b, Select(live, AfterGate(HighAfter(Select(all[..b], Wanting(filter, from)), from))), Wanting(filter, from));
  }

  lemma JoinDurables(log: seq<Envelope>, b: nat, tail: seq<Envelope>, p: Pred)
    requires var all := Select(log, IsDurable); b <= |all| && Select(tail, IsDurable) == Select(all[b..], p)
    ensures var all := Select(log, IsDurable);
            Select(Select(all[..b], p) + tail, IsDurable) == Select(log, Both(p, IsDurable))
  {
    var all := Select(log, IsDurable);
    assert all == all[..b] + all[b..];
    SelectAppend(Select(all[..b], p), tail, IsDurable);
    SelectAppend(all[..b], all[b..], p);
    SelectTwice(log, IsDurable, p);
    SelectSame(log, Both(IsDurable, p), Both(p, IsDurable));
    SelectMember(log, IsDurable);
    SelectMember(all[..b], p);
    SelectAll(Select(all[..b], p), IsDurable);
  }

  /** Durables not yet stored when a page was read were shown to the subscriber. */
  lemma RestWasSent(cfg: Config, seed: nat, steps: seq<Step>, filter: Filter, later: seq<Step>, n: nat)
    requires Following(cfg, seed, steps, filter, later) && n <= |later|
    requires At(Reach(cfg, seed, steps).rings, filter.channel) == []
    requires SendsInOrder(Reach(cfg, seed, Whole(steps, filter, later)), filter.channel)
    ensures var s, s' := Reach(cfg, seed, steps), Reach(cfg, seed, Whole(steps, filter, later));
            var b := |At(Reach(cfg, seed, Whole(steps, filter, later[..n])).sink, filter.channel)|;
            var all, shown, shown' := Durables(s', filter.channel), At(s.past.shown, filter.channel), At(s'.past.shown, filter.channel);
            && b <= |all| && shown <= shown'
            && (forall e :: e in shown'[|shown|..] && e.delivery.Durable? ==> e in all)
            && (forall e :: e in all[b..] ==> e in shown'[|shown|..] && e.delivery.Durable?)
  {
    var room := filter.channel;
    var s, s' := Reach(cfg, seed, steps), Reach(cfg, seed, Whole(steps, filter, later));
    var rows := At(Reach(cfg, seed, Whole(steps, filter, later[..n])).sink, room);
    var shown, shown' := At(s.past.shown, room), At(s'.past.shown, room);
    LiveIsShown(cfg, seed, steps, filter, later);
    ViewIsPrefix(cfg, seed, steps, filter, later, n);
    DurablesShownAlways(cfg, seed, steps, room);
    DurablesShownAlways(cfg, seed, Whole(steps, filter, later), room);
    StoredAtRegistration(cfg, seed, steps, filter, later, n);
    assert DistinctIds(At(s'.past.log, room));
    SelectNoRepeat(At(s'.past.log, room), IsDurable);
    SentSince(shown, shown', rows, Durables(s', room));
  }

  lemma SentSince(shown: seq<Envelope>, shown': seq<Envelope>, rows: seq<Envelope>, all: seq<Envelope>)
    requires shown <= shown' && rows <= all && NoRepeat(all) && all == Select(shown', IsDurable)
    requires forall e :: e in shown && e.delivery.Durable? ==> e in rows
    ensures forall e :: e in shown'[|shown|..] && e.delivery.Durable? ==> e in all
    ensures forall e :: e in all[|rows|..] ==> e in shown'[|shown|..] && e.delivery.Durable?
  {
    SelectMember(shown', IsDurable);
    assert shown' == shown + shown'[|shown|..];
    forall e | e in all[|rows|..] ensures e in shown'[|shown|..] && e.delivery.Durable? {
      assert all == rows + all[|rows|..];
      assert e in all && IsDurable.Holds(e);
      NotInBoth(rows, all[|rows|..], e);
    }
  }

  lemma NotInBoth(a: seq<Envelope>, b: seq<Envelope>, e: Envelope)
    requires NoRepeat(a + b) && e in b
    ensures e !in a
  {
    var s := a + b;
    var j :| 0 <= j < |b| && b[j] == e;
    forall i | 0 <= i < |a| ensures a[i] != e { assert s[i] != s[|a| + j]; }
  }

  /** Everything accepted before an empty-ring registration is in every later page's store. */
  lemma StoredAtRegistration(cfg: Config, seed: nat, steps: seq<Step>, filter: Filter, later: seq<Step>, n: nat)
    requires Following(cfg, seed, steps, filter, later) && n <= |later|
    requires At(Reach(cfg, seed, steps).rings, filter.channel) == []
    ensures forall e :: e in At(Reach(cfg, seed, steps).past.shown, filter.channel) && e.delivery.Durable?
              ==> e in At(Reach(cfg, seed, Whole(steps, filter, later[..n])).sink, filter.channel)
  {
    var room, s := filter.channel, Reach(cfg, seed, steps);
    LogGrew(cfg, seed, steps, filter, later);
    SafeAlways(cfg, seed, steps);
    assert RoomOk(s, room) && R.Envs(At(s.rings, room)) == [];
    DurablesShownAlways(cfg, seed, steps, room);
    SelectMember(At(s.past.shown, room), IsDurable);
    SelectMember(At(s.past.log, room), IsDurable);
    SplitWhole(steps, filter, later, n);
    RunAppend(cfg, Fresh(1, seed, map[], map[]), steps, [Subscribe(filter)] + later[..n]);
    Growth(cfg, s, [Subscribe(filter)] + later[..n], room);
    forall e | e in At(s.past.shown, room) && e.delivery.Durable? ensures e in At(s.sink, room) {
      assert IsDurable.Holds(e) && e in Select(At(s.past.log, room), IsDurable);
    }
  }
}
