/** Live delivery over whole runs: what an unlagged subscriber has been sent, and that its
    stream joins history to live events without a gap or a repeat. */
module Fanout {
  import opened Envelopes
  import opened HeaderFilters
  import opened Selection
  import opened Bus
  import opened Channel
  import opened Persistence
  import opened Replay
  import opened Subscription
  import R = Ring
  import SubscriberIndexes

  ghost function Since(s: State, sub: Sub): seq<Envelope>
    requires sub.since <= |At(s.past.shown, sub.filter.channel)|
  {
    At(s.past.shown, sub.filter.channel)[sub.since..]
  }

  /** Sent, in order, some of the matching events shown since registration; unlagged and open,
      exactly those. */
  ghost predicate SubOk(s: State, sub: Sub) {
    && sub.since <= |At(s.past.shown, sub.filter.channel)|
    && Subseq(sub.received + sub.queue, Select(Since(s, sub), Wanted(sub.filter)))
    && (!sub.lagged && !sub.closed ==> sub.received + sub.queue == Select(Since(s, sub), Wanted(sub.filter)))
  }

  ghost predicate SubsOk(s: State) {
    forall k :: k in s.subs ==> k < s.nextSub && SubOk(s, s.subs[k])
  }

  ghost predicate LogShown(s: State, room: RoomId) {
    && (forall e :: e in At(s.past.log, room) ==> e in At(s.past.shown, room))
    && (Sorted(At(s.past.shown, room)) ==> Sorted(At(s.past.log, room)))
  }

  /** Offering one more event to a subscriber that was complete keeps it complete. */
  lemma {:induction false} OfferKeeps(cfg: Config, sub: Sub, since: seq<Envelope>, e: Envelope)
    requires Subseq(sub.received + sub.queue, Select(since, Wanted(sub.filter)))
    requires !sub.lagged && !sub.closed ==> sub.received + sub.queue == Select(since, Wanted(sub.filter))
    ensures var sub' := Offer(cfg, sub, e);
            && sub'.filter == sub.filter && sub'.since == sub.since
            && Subseq(sub'.received + sub'.queue, Select(since + [e], Wanted(sub.filter)))
            && (!sub'.lagged && !sub'.closed ==> sub'.received + sub'.queue == Select(since + [e], Wanted(sub.filter)))
  {
    var owed := Select(since, Wanted(sub.filter));
    assert Select(since + [e], Wanted(sub.filter)) == owed + (if sub.filter.Matches(e) then [e] else []) by {
      SelectLast(since, e, Wanted(sub.filter));
    }
    OfferNext(cfg, sub, owed, e);
  }

  lemma OfferNext(cfg: Config, sub: Sub, owed: seq<Envelope>, e: Envelope)
    requires Subseq(sub.received + sub.queue, owed)
    requires !sub.lagged && !sub.closed ==> sub.received + sub.queue == owed
    ensures var sub', owed' := Offer(cfg, sub, e), owed + if sub.filter.Matches(e) then [e] else [];
            && sub'.filter == sub.filter && sub'.since == sub.since
            && Subseq(sub'.received + sub'.queue, owed')
            && (!sub'.lagged && !sub'.closed ==> sub'.received + sub'.queue == owed')
  {
    var sub' := Offer(cfg, sub, e);
    OfferTakes(cfg, sub, e);
    SubseqNext(sub.received + sub.queue, sub'.received + sub'.queue, owed, e, sub.filter.Matches(e));
    assert owed + [] == owed;
  }

  lemma SubseqNext(sent: seq<Envelope>, sent': seq<Envelope>, owed: seq<Envelope>, e: Envelope, matches: bool)
    requires Subseq(sent, owed) && (sent' == sent || (matches && sent' == sent + [e]))
    ensures Subseq(sent', owed + if matches then [e] else [])
  {
    if matches {
      SubseqGrows(sent, owed, e);
    } else {
      assert owed + [] == owed;
    }
  }

  /** What an offer does to what was sent. */
  lemma OfferTakes(cfg: Config, sub: Sub, e: Envelope)
    ensures var sub' := Offer(cfg, sub, e);
            var sent, sent' := sub.received + sub.queue, sub'.received + sub'.queue;
            && sub'.filter == sub.filter && sub'.since == sub.since && sub'.closed == sub.closed && (sub.lagged ==> sub'.lagged)
            && (sent' == sent || (sub.filter.Matches(e) && sent' == sent + [e]))
            && (sub.filter.Matches(e) && !sub'.lagged && !sub'.closed ==> sent' == sent + [e])
  {
    Regroup(sub.received, sub.queue, [e]);
  }

  lemma SubPush(cfg: Config, s: State, t: nat, sub: Sub)
    requires SubOk(s, sub) && CallAt(s, t, Recorded)
    ensures SubOk(DoPush(cfg, s, t), Offer(cfg, sub, s.calls[t].env))
  {
    var s' := DoPush(cfg, s, t);
    var e := s.calls[t].env;
    if sub.filter.channel == e.channel {
      assert At(s'.past.shown, e.channel) == At(s.past.shown, e.channel) + [e];
      assert Since(s', sub) == Since(s, sub) + [e];
      OfferKeeps(cfg, sub, Since(s, sub), e);
    } else {
      assert At(s'.past.shown, sub.filter.channel) == At(s.past.shown, sub.filter.channel);
      assert !sub.filter.Matches(e);
    }
  }

  lemma SubsPush(cfg: Config, s: State, t: nat)
    requires SubsOk(s) && CallAt(s, t, Recorded)
    ensures SubsOk(DoPush(cfg, s, t))
  {
    var s' := DoPush(cfg, s, t);
    forall k | k in s'.subs ensures k < s'.nextSub && SubOk(s', s'.subs[k]) {
      SubPush(cfg, s, t, s.subs[k]);
    }
  }

  /** Events are shown only by pushes. */
  lemma ShownFrame(cfg: Config, s: State, step: Step)
    requires !step.Push? && !step.Restart?
    ensures Apply(cfg, s, step).past.shown == s.past.shown
  {
    ApplyCases(cfg, s, step);
  }

  lemma SubsFrame(cfg: Config, s: State, step: Step)
    requires !step.Push? && !step.Restart? && !SubStep(step)
    ensures Apply(cfg, s, step).subs == s.subs && Apply(cfg, s, step).nextSub == s.nextSub
  {
    ApplyCases(cfg, s, step);
  }

  lemma SubsReceive(s: State, k: nat)
    requires SubsOk(s)
    ensures SubsOk(DoReceive(s, k))
  {
    var s' := DoReceive(s, k);
    forall j | j in s'.subs ensures j < s'.nextSub && SubOk(s', s'.subs[j]) {
      var sub := s.subs[j];
      assert SubOk(s, sub);
      if j == k && sub.queue != [] { HandOver(sub.received, sub.queue); }
    }
  }

  lemma HandOver(received: seq<Envelope>, queue: seq<Envelope>)
    requires queue != []
    ensures received + [queue[0]] + queue[1..] == received + queue
  {
    assert queue == [queue[0]] + queue[1..];
  }

  lemma SubsSubscribe(s: State, filter: Filter)
    requires SubsOk(s)
    ensures SubsOk(DoSubscribe(s, filter))
  {
    var s' := DoSubscribe(s, filter);
    var shown := At(s.past.shown, filter.channel);
    assert shown[|shown|..] == [];
    assert SubOk(s, s'.subs[s.nextSub]);
    SubsKeep(s, s', s.nextSub);
  }

  /** Registrations other than `k` are as they were. */
  lemma SubsKeep(s: State, s': State, k: nat)
    requires SubsOk(s) && s'.past.shown == s.past.shown && s.nextSub <= s'.nextSub
    requires forall j :: j in s'.subs && j != k ==> j in s.subs && s'.subs[j] == s.subs[j]
    requires k in s'.subs ==> k < s'.nextSub && SubOk(s, s'.subs[k])
    ensures SubsOk(s')
  {
    forall j | j in s'.subs ensures j < s'.nextSub && SubOk(s', s'.subs[j]) {
      if j != k { assert SubOk(s, s.subs[j]); }
    }
  }

  lemma SubsLeave(s: State, k: nat)
    requires SubsOk(s)
    ensures SubsOk(DoCloseReceiver(s, k)) && SubsOk(s.(subs := s.subs - {k}))
  {
    if k in s.subs {
      assert SubOk(s, s.subs[k]);
      SubsKeep(s, DoCloseReceiver(s, k), k);
    }
    SubsKeep(s, s.(subs := s.subs - {k}), k);
  }

  lemma SubsChange(s: State, step: Step)
    requires SubsOk(s) && SubStep(step) && !step.Receive?
    ensures SubsOk(ApplySub(s, step))
  {
    match step
    case Subscribe(filter) => SubsSubscribe(s, filter);
    case CloseReceiver(k) => SubsLeave(s, k);
    case Unregister(k) => SubsLeave(s, k);
  }

  lemma SubsStep(cfg: Config, s: State, step: Step)
    requires SubsOk(s)
    ensures SubsOk(Apply(cfg, s, step))
  {
    if step.Push? {
      if CallAt(s, step.call, Recorded) { SubsPush(cfg, s, step.call); }
    } else if !step.Restart? {
      ApplyCases(cfg, s, step);
      if step.Receive? {
        SubsReceive(s, step.sub);
      } else if SubStep(step) {
        SubsChange(s, step);
      } else {
        ShownFrame(cfg, s, step);
        SubsFrame(cfg, s, step);
        SubsKeep(s, Apply(cfg, s, step), s.nextSub);
      }
    }
  }

  lemma {:induction false} SubsAlways(cfg: Config, seed: nat, steps: seq<Step>)
    ensures SubsOk(Reach(cfg, seed, steps))
  {
    if steps != [] {
      SubsAlways(cfg, seed, steps[..|steps| - 1]);
      SubsStep(cfg, Reach(cfg, seed, steps[..|steps| - 1]), steps[|steps| - 1]);
    }
  }

  /** In every run, a subscriber that was never flagged as lagging and is still reading has
      been sent exactly the matching events of its channel since it registered, in the order
      the channel accepted them, once each. */
  lemma UnlaggedIsComplete(cfg: Config, seed: nat, steps: seq<Step>, k: nat)
    requires k in Reach(cfg, seed, steps).subs
    requires var sub := Reach(cfg, seed, steps).subs[k]; !sub.lagged && !sub.closed
    ensures var s := Reach(cfg, seed, steps);
            var sub := s.subs[k];
            var shown := At(s.past.shown, sub.filter.channel);
            sub.since <= |shown| && sub.received + sub.queue == Select(shown[sub.since..], Wanted(sub.filter))
  {
    SubsAlways(cfg, seed, steps);
    var s := Reach(cfg, seed, steps);
    assert SubOk(s, s.subs[k]);
  }

  /** Whatever it refused, a registered subscriber has been sent matching events of its channel
      since it registered, in the order they were accepted and none of them twice. */
  lemma SentIsSubsequence(cfg: Config, seed: nat, steps: seq<Step>, k: nat)
    requires k in Reach(cfg, seed, steps).subs
    ensures var s := Reach(cfg, seed, steps);
            var sub := s.subs[k];
            var shown := At(s.past.shown, sub.filter.channel);
            sub.since <= |shown| && Subseq(sub.received + sub.queue, Select(shown[sub.since..], Wanted(sub.filter)))
  {
    SubsAlways(cfg, seed, steps);
    var s := Reach(cfg, seed, steps);
    assert SubOk(s, s.subs[k]);
  }

  // ---------------------------------------------------------------- the stream of a run

  lemma LogShownStep(cfg: Config, s: State, step: Step, room: RoomId)
    requires LogShown(s, room)
    ensures LogShown(Apply(cfg, s, step), room)
  {
    var s' := Apply(cfg, s, step);
    if step.Push? {
      if CallAt(s, step.call, Recorded) && s.calls[step.call].env.channel == room {
        LogFront(At(s.past.shown, room), s.calls[step.call].env);
        if Sorted(At(s'.past.shown, room)) && !s.calls[step.call].env.delivery.EphemeralLatest? {
          SortedAppend(At(s.past.log, room), [s.calls[step.call].env]);
        }
      }
    } else if !step.Restart? {
      ShownFrame(cfg, s, step);
      assert s'.past.log == s.past.log by {
        if !step.AppendNext? && !step.MarkNext? { QuietFrame(cfg, s, step); }
      }
    }
  }

  lemma {:induction false} LogShownAlways(cfg: Config, seed: nat, steps: seq<Step>, room: RoomId)
    ensures LogShown(Reach(cfg, seed, steps), room)
  {
    if steps != [] {
      LogShownAlways(cfg, seed, steps[..|steps| - 1], room);
      LogShownStep(cfg, Reach(cfg, seed, steps[..|steps| - 1]), steps[|steps| - 1], room);
    }
  }

  /** Without a restart, a registration keeps its filter and its starting point, and what the
      channel has shown only grows. */
  lemma {:induction false} SubKept(cfg: Config, s: State, steps: seq<Step>, k: nat, room: RoomId)
    requires NoRestart(steps) && k < s.nextSub
    ensures var s' := Run(cfg, s, steps);
            && s.nextSub <= s'.nextSub
            && At(s.past.shown, room) <= At(s'.past.shown, room)
            && (k in s'.subs ==> k in s.subs && s'.subs[k].filter == s.subs[k].filter && s'.subs[k].since == s.subs[k].since)
  {
    if steps != [] {
      var front, step := steps[..|steps| - 1], steps[|steps| - 1];
      SubKept(cfg, s, front, k, room);
      SubKeptStep(cfg, Run(cfg, s, front), step, k, room);
    }
  }

  lemma SubKeptStep(cfg: Config, s: State, step: Step, k: nat, room: RoomId)
    requires !step.Restart? && k < s.nextSub
    ensures var s' := Apply(cfg, s, step);
            && s.nextSub <= s'.nextSub
            && At(s.past.shown, room) <= At(s'.past.shown, room)
            && (k in s'.subs ==> k in s.subs && s'.subs[k].filter == s.subs[k].filter && s'.subs[k].since == s.subs[k].since)
  {
    if !step.Push? {
      ApplyCases(cfg, s, step);
      ShownFrame(cfg, s, step);
      if !SubStep(step) { SubsFrame(cfg, s, step); }
    }
  }

  /** The rows behind the ring at registration. */
  ghost function BehindRing(s: State, room: RoomId): seq<Envelope> {
    Behind(At(s.sink, room), R.Oldest(At(s.rings, room)))
  }

  /** Every later read of the store shows the same rows behind the registration's ring. */
  lemma BehindIsFixed(cfg: Config, seed: nat, steps: seq<Step>, later: seq<Step>, room: RoomId)
    requires NoRestart(later)
    requires FreshIds(Reach(cfg, seed, steps + later)) && InOrder(Reach(cfg, seed, steps + later), room)
    requires At(Reach(cfg, seed, steps).rings, room) != []
    ensures var s, s' := Reach(cfg, seed, steps), Reach(cfg, seed, steps + later);
            && Sorted(At(s'.sink, room))
            && Behind(At(s'.sink, room), R.Oldest(At(s.rings, room))) == BehindRing(s, room)
            && Sorted(BehindRing(s, room) + R.Envs(At(s.rings, room)))
            && (forall e :: e in BehindRing(s, room) + R.Envs(At(s.rings, room)) ==> e in At(s.past.log, room))
  {
    var s, s' := Reach(cfg, seed, steps), Reach(cfg, seed, steps + later);
    var slots, before := At(s.rings, room), BeforeGate(R.Oldest(At(s.rings, room)));
    SeamOfLaterRead(cfg, seed, steps, later, room);
    SeamOfEarlierRead(cfg, seed, steps, later, room);
    SelectMember(At(s.sink, room), before);
    SelectMember(At(s'.sink, room), before);
    SelectSorted(At(s.sink, room), before);
    SelectSorted(At(s'.sink, room), before);
    SortedUnique(Select(At(s'.sink, room), before), BehindRing(s, room));
    OldestFirst(slots);
    SortedAppend(BehindRing(s, room), R.Envs(slots));
  }

  lemma SeamOfEarlierRead(cfg: Config, seed: nat, steps: seq<Step>, later: seq<Step>, room: RoomId)
    requires NoRestart(later)
    requires FreshIds(Reach(cfg, seed, steps + later)) && InOrder(Reach(cfg, seed, steps + later), room)
    ensures var s := Reach(cfg, seed, steps);
            Seam(At(s.rings, room), At(s.sink, room), At(s.past.log, room))
  {
    var s, s' := Reach(cfg, seed, steps), Reach(cfg, seed, steps + later);
    EarlierIsFresh(cfg, seed, steps, later);
    Growth(cfg, s, later, room);
    assert forall i :: 0 <= i < |At(s.past.log, room)| ==> At(s'.past.log, room)[i] == At(s.past.log, room)[i];
    SeamOfRun(cfg, seed, steps, room);
  }

  /** The stream of a subscriber that registers on a channel whose ring holds anything. In
      every run with fresh ids whose pushes on the channel follow sequence order, as long as
      the subscriber has not lagged, the three legs meet the conditions under which the
      stream is exact: every read of the store shows the rows behind the ring at
      registration, the legs follow one another in the order, and the live leg is exactly
      the matching events shown since registration. */
  lemma StreamFits(cfg: Config, seed: nat, steps: seq<Step>, filter: Filter, later: seq<Step>)
    requires NoRestart(later)
    requires At(Reach(cfg, seed, steps).rings, filter.channel) != []
    requires var s' := Reach(cfg, seed, steps + [Subscribe(filter)] + later);
             var k := Reach(cfg, seed, steps).nextSub;
             && FreshIds(s') && Sorted(At(s'.past.shown, filter.channel))
             && k in s'.subs && !s'.subs[k].lagged && !s'.subs[k].closed
    ensures var s, s' := Reach(cfg, seed, steps), Reach(cfg, seed, steps + [Subscribe(filter)] + later);
            var ring, sub := R.Envs(At(s.rings, filter.channel)), s'.subs[s.nextSub];
            var live := sub.received + sub.queue;
            && Behind(At(s'.sink, filter.channel), R.Oldest(At(s.rings, filter.channel))) == BehindRing(s, filter.channel)
            && Sorted(BehindRing(s, filter.channel) + (ring + live))
            && At(s.past.shown, filter.channel) <= At(s'.past.shown, filter.channel)
            && live == Select(At(s'.past.shown, filter.channel)[|At(s.past.shown, filter.channel)|..], Wanted(filter))
  {
    var room, all := filter.channel, steps + [Subscribe(filter)] + later;
    var tail := [Subscribe(filter)] + later;
    assert all == steps + tail && NoRestart(tail);
    LogShownAlways(cfg, seed, all, room);
    LogShownAlways(cfg, seed, steps, room);
    BehindIsFixed(cfg, seed, steps, tail, room);
    LiveSinceRegistration(cfg, seed, steps, filter, later);
    var s, s' := Reach(cfg, seed, steps), Reach(cfg, seed, all);
    var stored, ring := BehindRing(s, room), R.Envs(At(s.rings, room));
    var live := Select(At(s'.past.shown, room)[|At(s.past.shown, room)|..], Wanted(filter));
    LegsInOrder(stored + ring, At(s.past.shown, room), At(s'.past.shown, room), filter);
    assert stored + (ring + live) == stored + ring + live;
  }

  /** An unlagged registration holds exactly the matching events shown since it was made. */
  lemma LiveSinceRegistration(cfg: Config, seed: nat, steps: seq<Step>, filter: Filter, later: seq<Step>)
    requires NoRestart(later)
    requires var s' := Reach(cfg, seed, steps + [Subscribe(filter)] + later);
             var k := Reach(cfg, seed, steps).nextSub;
             k in s'.subs && !s'.subs[k].lagged && !s'.subs[k].closed
    ensures var s, s' := Reach(cfg, seed, steps), Reach(cfg, seed, steps + [Subscribe(filter)] + later);
            var sub := s'.subs[s.nextSub];
            && At(s.past.shown, filter.channel) <= At(s'.past.shown, filter.channel)
            && sub.received + sub.queue == Select(At(s'.past.shown, filter.channel)[|At(s.past.shown, filter.channel)|..], Wanted(filter))
  {
    var s := Reach(cfg, seed, steps);
    var s1 := DoSubscribe(s, filter);
    assert Reach(cfg, seed, steps + [Subscribe(filter)]) == s1 by {
      assert (steps + [Subscribe(filter)])[..|steps|] == steps;
    }
    RunAppend(cfg, Fresh(1, seed, map[], map[]), steps + [Subscribe(filter)], later);
    SubKept(cfg, s1, later, s.nextSub, filter.channel);
    UnlaggedIsComplete(cfg, seed, steps + [Subscribe(filter)] + later, s.nextSub);
  }

  lemma LegsInOrder(replay: seq<Envelope>, shown: seq<Envelope>, shown': seq<Envelope>, filter: Filter)
    requires Sorted(replay) && Sorted(shown') && shown <= shown'
    requires forall e :: e in replay ==> e in shown
    ensures Sorted(replay + Select(shown'[|shown|..], Wanted(filter)))
  {
    var rest := shown'[|shown|..];
    assert shown' == shown + rest;
    SortedParts(shown, rest);
    SelectSorted(rest, Wanted(filter));
    SelectMember(rest, Wanted(filter));
    SortedAppend(replay, Select(rest, Wanted(filter)));
  }

  // ---------------------------------------------------------------- the index

  /** The channel's index holds exactly its registrations, each under its header filter. */
  ghost predicate Indexed(registered: map<nat, (HeaderFilter, Filter)>, subs: map<nat, Sub>, room: RoomId) {
    && (forall k :: k in registered <==> k in subs && subs[k].filter.channel == room)
    && (forall k :: k in registered ==> registered[k] == (subs[k].filter.headers, subs[k].filter))
  }

  /** Registering keeps index and registrations in step. */
  method Register(index: SubscriberIndexes.SubscriberIndex<Filter>, s: State, filter: Filter)
    requires index.Valid() && Indexed(index.registered, s.subs, filter.channel) && s.nextSub !in s.subs
    modifies index
    ensures index.Valid() && Indexed(index.registered, DoSubscribe(s, filter).subs, filter.channel)
  {
    index.Insert(s.nextSub, filter.headers, filter);
  }

  /** So does dropping a registration. */
  method Unregister(index: SubscriberIndexes.SubscriberIndex<Filter>, subs: map<nat, Sub>, k: nat, filter: Filter)
    requires index.Valid() && Indexed(index.registered, subs, filter.channel) && (k in subs ==> subs[k].filter == filter)
    modifies index
    ensures index.Valid() && Indexed(index.registered, subs - {k}, filter.channel)
  {
    index.Remove(k, filter.headers);
  }

  /** Fan one event out through its channel's index: visit the candidates, test each whole
      filter, offer. Everyone ends up as if the event had been offered to every subscriber,
      and the index still fits. */
  method FanOut(cfg: Config, index: SubscriberIndexes.SubscriberIndex<Filter>, subs: map<nat, Sub>, e: Envelope) returns (subs': map<nat, Sub>)
    requires index.Valid() && Indexed(index.registered, subs, e.channel)
    ensures subs' == OfferAll(cfg, subs, e)
    ensures Indexed(index.registered, subs', e.channel)
  {
    var ids, filters := index.Visit(e.headers);
    assert forall i :: 0 <= i < |ids| ==> ids[i] in subs && filters[i] == subs[ids[i]].filter;
    subs' := OfferListed(cfg, subs, e, ids, filters);
    CandidatesSuffice(cfg, index.registered, subs, e, ids);
    OfferedToAll(cfg, subs, subs', e, ids);
  }

  /** Offer the event to each listed subscriber whose whole filter matches. */
  method OfferListed(cfg: Config, subs: map<nat, Sub>, e: Envelope, ids: seq<nat>, filters: seq<Filter>) returns (subs': map<nat, Sub>)
    requires |filters| == |ids| && SubscriberIndexes.NoRepeat(ids)
    requires forall i :: 0 <= i < |ids| ==> ids[i] in subs && filters[i] == subs[ids[i]].filter
    ensures Offered(cfg, subs, subs', e, ids)
  {
    subs' := subs;
    for i := 0 to |ids|
      invariant Offered(cfg, subs, subs', e, ids[..i])
    {
      var k := ids[i];
      assert k !in ids[..i] && ids[..i + 1] == ids[..i] + [k];
      OfferedNext(cfg, subs, subs', e, ids[..i], k);
      if filters[i].Matches(e) { subs' := subs'[k := Offer(cfg, subs'[k], e)]; }
    }
    assert ids[..|ids|] == ids;
  }

  /** The event has been offered to the listed subscribers and to no other. */
  ghost predicate Offered(cfg: Config, subs: map<nat, Sub>, subs': map<nat, Sub>, e: Envelope, ids: seq<nat>) {
    && subs'.Keys == subs.Keys
    && forall k :: k in subs ==> subs'[k] == if k in ids then Offer(cfg, subs[k], e) else subs[k]
  }

  lemma OfferedNext(cfg: Config, subs: map<nat, Sub>, subs': map<nat, Sub>, e: Envelope, ids: seq<nat>, k: nat)
    requires Offered(cfg, subs, subs', e, ids) && k in subs && k !in ids
    ensures Offered(cfg, subs, subs'[k := Offer(cfg, subs'[k], e)], e, ids + [k])
    ensures !subs[k].filter.Matches(e) ==> Offered(cfg, subs, subs', e, ids + [k])
  {
  }

  lemma OfferedToAll(cfg: Config, subs: map<nat, Sub>, subs': map<nat, Sub>, e: Envelope, ids: seq<nat>)
    requires Offered(cfg, subs, subs', e, ids)
    requires forall k :: k in subs && k !in ids ==> Offer(cfg, subs[k], e) == subs[k]
    ensures subs' == OfferAll(cfg, subs, e)
  {
  }

  /** Who is not a candidate would have refused the event. */
  lemma CandidatesSuffice(cfg: Config, registered: map<nat, (HeaderFilter, Filter)>, subs: map<nat, Sub>, e: Envelope, ids: seq<nat>)
    requires Indexed(registered, subs, e.channel)
    requires forall k :: k in registered && registered[k].0.Matches(e.headers) ==> k in ids
    ensures forall k :: k in subs && k !in ids ==> Offer(cfg, subs[k], e) == subs[k]
  {
    forall k | k in subs && k !in ids ensures Offer(cfg, subs[k], e) == subs[k] {
      if k in registered { assert !registered[k].0.Matches(e.headers); }
      assert !subs[k].filter.Matches(e);
    }
  }
}
