/** At-most-once publishing over whole runs. The recent-id window and the store together
    admit each id once, in every interleaving, as long as locally minted ids are fresh and an
    id that a transport brings in again has not left the window before it was stored. */
module Dedup {
  import opened Envelopes
  import opened Bus
  import opened Persistence
  import Sink
  import RecentIds

  ghost predicate Live(s: State, t: nat, x: EventId) {
    t in s.calls && s.calls[t].env.eventId == x
  }

  ghost predicate BeforePush(pc: Pc) {
    pc.Admitted? || pc.Reserved? || pc.Stamped? || pc.Recorded?
  }

  /** A plain publish whose id is not yet in the window. */
  ghost predicate Unrecorded(c: Call) {
    !c.ifNew && (c.pc.Admitted? || c.pc.Reserved? || c.pc.Stamped?)
  }

  // ---------------------------------------------------------------- the discipline

  /** The id may leave the window: it is stored, nobody depends on it, or it does not return.
      The set `w` is the ids that transports will bring in again. */
  ghost predicate MayLeave(s: State, x: EventId, w: iset<EventId>) {
    Stored(s.sink, x) || x !in w || (x !in s.past.accepted && forall t :: !Live(s, t, x))
  }

  ghost predicate RollsSafely(cfg: Config, s: State, x: EventId, w: iset<EventId>) {
    x !in s.recent && |s.recent| == cfg.recentCapacity && s.recent != [] ==> MayLeave(s, s.recent[0], w)
  }

  /** A plain publish mints a fresh id and no transport copy of it arrives before it is
      recorded; the window sheds only ids that may leave. */
  ghost predicate Disciplined(cfg: Config, s: State, step: Step, w: iset<EventId>) {
    match step
    case StartPublish(t, env) =>
      t !in s.calls ==> env.eventId !in s.past.accepted && env.eventId !in s.recent && forall u :: !Live(s, u, env.eventId)
    case StartIfNew(t, env) =>
      && (forall u :: Live(s, u, env.eventId) ==> !Unrecorded(s.calls[u]))
      && env.eventId in w && RollsSafely(cfg, s, env.eventId, w)
    case Record(t) => CallAt(s, t, Stamped) ==> RollsSafely(cfg, s, s.calls[t].env.eventId, w)
    case _ => true
  }

  /** The ids that `publish_if_new` calls carry before the daemon next restarts. */
  ghost function Returning(steps: seq<Step>): iset<EventId> {
    if steps == [] || steps[0].Restart? then iset{}
    else if steps[0].StartIfNew? then Returning(steps[1..]) + iset{steps[0].env.eventId}
    else Returning(steps[1..])
  }

  ghost predicate DisciplinedRun(cfg: Config, seed: nat, steps: seq<Step>) {
    forall n :: 0 <= n < |steps| ==> Disciplined(cfg, Reach(cfg, seed, steps[..n]), steps[n], Returning(steps[n..]))
  }

  // ---------------------------------------------------------------- the invariant

  /** Whatever reached a ring, the pipeline or the store was accepted. */
  ghost predicate Ids(s: State) {
    && (forall x :: Stored(s.sink, x) ==> x in s.past.accepted)
    && (forall e :: e in s.queue ==> e.eventId in s.past.accepted)
    && (forall e :: e in s.batch ==> e.eventId in s.past.accepted)
  }

  ghost predicate RoomIds(s: State, room: RoomId) {
    && DistinctIds(At(s.past.log, room)) && DistinctIds(At(s.past.shown, room))
    && (forall e :: e in At(s.past.log, room) ==> e.eventId in s.past.accepted)
    && (forall e :: e in At(s.past.shown, room) ==> e.eventId in s.past.accepted)
  }

  ghost predicate Known(s: State, x: EventId, w: iset<EventId>) {
    x in s.past.accepted ==> x in s.recent || Stored(s.sink, x) || x !in w
  }

  ghost predicate Justified(s: State, x: EventId) {
    x in s.recent ==> x in s.past.accepted || exists t :: Live(s, t, x)
  }

  /** The window and the store together know every accepted id; the window knows no other
      ids than accepted and in-flight ones. */
  ghost predicate Window(s: State, w: iset<EventId>) {
    forall x :: Known(s, x, w) && Justified(s, x)
  }

  /** What a call at each stage may rely on. */
  ghost predicate CallOk(s: State, t: nat, w: iset<EventId>)
    requires t in s.calls
  {
    var c := s.calls[t];
    var x := c.env.eventId;
    && (BeforePush(c.pc) ==> x !in s.past.accepted)
    && (BeforePush(c.pc) && (c.ifNew || c.pc.Recorded?) ==> x in s.recent || x !in w)
    && (Unrecorded(c) ==> x !in s.recent)
    && (c.pc.Probing? ==> c.ifNew && (Stored(s.sink, x) || (x !in s.past.accepted && (x in s.recent || x !in w))))
    && (c.pc.Pushed? || c.pc.Sent? ==> x in s.past.accepted && x !in s.past.published)
  }

  /** Two calls share an id only when it is stored and one of them is about to find out. */
  ghost predicate PairOk(s: State, t: nat, u: nat)
    requires t in s.calls && u in s.calls
  {
    s.calls[t].env.eventId == s.calls[u].env.eventId ==>
      Stored(s.sink, s.calls[t].env.eventId) && (s.calls[t].pc.Probing? || s.calls[u].pc.Probing?)
  }

  ghost predicate Owners(s: State, w: iset<EventId>) {
    && (forall t :: t in s.calls ==> CallOk(s, t, w))
    && (forall t, u :: t in s.calls && u in s.calls && t != u ==> PairOk(s, t, u))
  }

  ghost predicate PublishedOnce(s: State) {
    RecentIds.Distinct(s.past.published) && forall x :: x in s.past.published ==> x in s.past.accepted
  }

  ghost predicate Once(s: State, w: iset<EventId>) {
    Ids(s) && (forall room :: RoomIds(s, room)) && Window(s, w) && Owners(s, w) && PublishedOnce(s)
  }

  // ---------------------------------------------------------------- helpers

  lemma RecordMember(order: seq<EventId>, id: EventId, capacity: nat)
    ensures id in RecentIds.Record(order, id, capacity)
    ensures forall x :: x in RecentIds.Record(order, id, capacity) ==> x in order || x == id
    ensures forall x :: x in order && x !in RecentIds.Record(order, id, capacity)
              ==> id !in order && |order| == capacity && order != [] && x == order[0]
  {
    if order != [] { assert order == [order[0]] + order[1..]; }
  }

  lemma StoredAfterAppend(sink: PerRoom<Envelope>, e: Envelope)
    requires StoreOk(sink)
    ensures forall x :: Stored(sink[e.channel := Sink.Appended(At(sink, e.channel), e)], x) <==> Stored(sink, x) || x == e.eventId
  {
    var b := At(sink, e.channel);
    var b' := Sink.Appended(b, e);
    var sink' := sink[e.channel := b'];
    Sink.AppendedValid(b, e);
    forall x ensures Stored(sink', x) <==> Stored(sink, x) || x == e.eventId {
      Sink.HasIdMember(b, x);
      Sink.HasIdMember(b', x);
      if Stored(sink, x) {
        var room :| room in sink && Sink.HasId(sink[room], x);
        assert room in sink' && Sink.HasId(sink'[room], x);
      }
      if x == e.eventId { assert e.channel in sink' && Sink.HasId(sink'[e.channel], x); }
      if Stored(sink', x) {
        var room :| room in sink' && Sink.HasId(sink'[room], x);
        if room != e.channel { assert room in sink && Sink.HasId(sink[room], x); }
        else if Sink.HasId(b, x) { assert room in sink && Sink.HasId(sink[room], x); }
      }
    }
  }

  lemma StoredIdsMember(sink: PerRoom<Envelope>)
    ensures forall x :: x in StoredIds(sink) <==> Stored(sink, x)
  {
    forall x ensures x in StoredIds(sink) <==> Stored(sink, x) {
      if Stored(sink, x) {
        var room :| room in sink && Sink.HasId(sink[room], x);
        var i :| 0 <= i < |sink[room]| && sink[room][i].eventId == x;
        assert sink[room][i] in sink[room];
      }
      if x in StoredIds(sink) {
        var room, e :| room in sink && e in sink[room] && e.eventId == x;
        var i :| 0 <= i < |sink[room]| && sink[room][i] == e;
      }
    }
  }

  /** A call that has not pushed yet is alone with its id. */
  lemma SoleOwner(s: State, t: nat, u: nat, w: iset<EventId>)
    requires Ids(s) && Owners(s, w) && t in s.calls && u in s.calls && t != u && BeforePush(s.calls[t].pc)
    ensures s.calls[u].env.eventId != s.calls[t].env.eventId
  {
    assert CallOk(s, t, w) && PairOk(s, t, u);
  }

  lemma RoomsSame(s: State, s': State)
    requires forall room :: RoomIds(s, room)
    requires s'.past.log == s.past.log && s'.past.shown == s.past.shown && s'.past.accepted == s.past.accepted
    ensures forall room :: RoomIds(s', room)
  {
    forall room ensures RoomIds(s', room) { assert RoomIds(s, room); }
  }

  /** Recording an id keeps the window sound when what it sheds may leave. */
  lemma WindowRolls(cfg: Config, s: State, s': State, id: EventId, owner: nat, w: iset<EventId>)
    requires Window(s, w) && RollsSafely(cfg, s, id, w) && Live(s', owner, id)
    requires s'.recent == RecentIds.Record(s.recent, id, cfg.recentCapacity)
    requires s'.sink == s.sink && s'.past.accepted == s.past.accepted
    requires forall t, x :: Live(s, t, x) ==> Live(s', t, x)
    ensures Window(s', w)
  {
    RecordMember(s.recent, id, cfg.recentCapacity);
    forall x ensures Known(s', x, w) && Justified(s', x) {
      assert Known(s, x, w) && Justified(s, x);
      if x in s'.recent && x in s.recent && x !in s.past.accepted {
        var t :| Live(s, t, x);
        assert Live(s', t, x);
      }
    }
  }

  /** A call's footing survives the window shedding an id that may leave. */
  lemma CallRolls(cfg: Config, s: State, s': State, id: EventId, t: nat, w: iset<EventId>)
    requires Ids(s) && t in s.calls && t in s'.calls && s'.calls[t] == s.calls[t] && CallOk(s, t, w)
    requires RollsSafely(cfg, s, id, w) && (Unrecorded(s.calls[t]) ==> s.calls[t].env.eventId != id)
    requires s'.recent == RecentIds.Record(s.recent, id, cfg.recentCapacity)
    requires s'.sink == s.sink && s'.past == s.past
    ensures CallOk(s', t, w)
  {
    RecordMember(s.recent, id, cfg.recentCapacity);
    assert Live(s, t, s.calls[t].env.eventId);
  }

  // ---------------------------------------------------------------- steps

  lemma OnceStartPublish(cfg: Config, s: State, t: nat, env: Envelope, w: iset<EventId>)
    requires Once(s, w) && Disciplined(cfg, s, StartPublish(t, env), w) && t !in s.calls
    ensures Once(DoStartPublish(s, t, env), w)
  {
    var s' := DoStartPublish(s, t, env);
    RoomsSame(s, s');
    forall x ensures Known(s', x, w) && Justified(s', x) {
      assert Known(s, x, w) && Justified(s, x);
      if x in s.recent && x !in s.past.accepted {
        var u :| Live(s, u, x);
        assert Live(s', u, x);
      }
    }
    forall u | u in s'.calls ensures CallOk(s', u, w) {
      if u != t { assert CallOk(s, u, w); }
    }
    forall u, v | u in s'.calls && v in s'.calls && u != v ensures PairOk(s', u, v) {
      if u != t && v != t { assert PairOk(s, u, v); }
      if u != t { assert Live(s, u, s.calls[u].env.eventId); }
      if v != t { assert Live(s, v, s.calls[v].env.eventId); }
    }
  }

  lemma OnceStartIfNew(cfg: Config, s: State, t: nat, env: Envelope, w: iset<EventId>)
    requires Once(s, w) && Disciplined(cfg, s, StartIfNew(t, env), w) && t !in s.calls && env.eventId !in s.recent
    ensures Once(DoStartIfNew(cfg, s, t, env), w)
  {
    var s' := DoStartIfNew(cfg, s, t, env);
    RoomsSame(s, s');
    RecordMember(s.recent, env.eventId, cfg.recentCapacity);
    assert Live(s', t, env.eventId);
    WindowRolls(cfg, s, s', env.eventId, t, w);
    assert Known(s, env.eventId, w);
    forall u | u in s'.calls ensures CallOk(s', u, w) {
      if u != t {
        assert CallOk(s, u, w) && Live(s, u, s.calls[u].env.eventId);
        CallRolls(cfg, s, s', env.eventId, u, w);
      }
    }
    forall u | u in s.calls && s.calls[u].env.eventId == env.eventId ensures Stored(s.sink, env.eventId) {
      assert CallOk(s, u, w) && Live(s, u, env.eventId);
    }
    forall u, v | u in s'.calls && v in s'.calls && u != v ensures PairOk(s', u, v) {
      if u != t && v != t { assert PairOk(s, u, v); }
    }
  }

  /** Giving up returns the id. */
  lemma OnceAbandon(s: State, t: nat, w: iset<EventId>)
    requires Once(s, w) && t in s.calls && (s.calls[t].pc.Probing? || s.calls[t].pc.Admitted?)
    ensures Once(Abandon(s, t), w)
  {
    var s' := Abandon(s, t);
    var id := s.calls[t].env.eventId;
    RoomsSame(s, s');
    RecentIds.ForgetMember(s.recent, id);
    assert CallOk(s, t, w);
    forall x ensures Known(s', x, w) && Justified(s', x) {
      assert Known(s, x, w) && Justified(s, x);
      if x in s'.recent && x !in s.past.accepted {
        var u :| Live(s, u, x);
        AbandonedIsGone(s, t, x, u, w);
        assert Live(s', u, x);
      }
    }
    forall u | u in s'.calls ensures CallOk(s', u, w) {
      assert CallOk(s, u, w) && PairOk(s, t, u);
    }
    forall u, v | u in s'.calls && v in s'.calls && u != v ensures PairOk(s', u, v) {
      assert PairOk(s, u, v);
    }
  }

  lemma AbandonedIsGone(s: State, t: nat, x: EventId, u: nat, w: iset<EventId>)
    requires Once(s, w) && t in s.calls && (s.calls[t].pc.Probing? || s.calls[t].pc.Admitted?)
    requires Live(s, u, x) && x in Abandon(s, t).recent && x !in s.past.accepted
    ensures u != t
  {
    RecentIds.ForgetMember(s.recent, s.calls[t].env.eventId);
    assert CallOk(s, t, w);
  }

  /** A call moves to a later stage that relies on nothing new. */
  lemma OnceMove(s: State, t: nat, c: Call, s': State, w: iset<EventId>)
    requires Once(s, w) && t in s.calls && c.env.eventId == s.calls[t].env.eventId && c.ifNew == s.calls[t].ifNew
    requires s'.calls == s.calls[t := c] && s'.recent == s.recent && s'.sink == s.sink && s'.past == s.past
    requires s'.queue == s.queue && s'.batch == s.batch
    requires CallOk(s', t, w)
    requires c.pc.Probing? || s.calls[t].pc.Probing? ==> !Stored(s.sink, c.env.eventId)
    ensures Once(s', w)
  {
    RoomsSame(s, s');
    assert forall u, x :: Live(s', u, x) <==> Live(s, u, x);
    forall x ensures Known(s', x, w) && Justified(s', x) {
      assert Known(s, x, w) && Justified(s, x);
    }
    forall u | u in s'.calls ensures CallOk(s', u, w) {
      assert CallOk(s, u, w);
    }
    forall u, v | u in s'.calls && v in s'.calls && u != v ensures PairOk(s', u, v) {
      assert PairOk(s, u, v);
    }
  }

  lemma OnceRemove(s: State, t: nat, s': State, w: iset<EventId>)
    requires Once(s, w) && t in s.calls && s.calls[t].env.eventId in s.past.accepted
    requires s'.calls == s.calls - {t} && s'.recent == s.recent && s'.sink == s.sink && s'.past == s.past
    requires s'.queue == s.queue && s'.batch == s.batch
    ensures Once(s', w)
  {
    RoomsSame(s, s');
    forall x ensures Known(s', x, w) && Justified(s', x) {
      assert Known(s, x, w) && Justified(s, x);
      if x in s.recent && x !in s.past.accepted {
        var u :| Live(s, u, x);
        assert Live(s', u, x);
      }
    }
    forall u | u in s'.calls ensures CallOk(s', u, w) {
      assert CallOk(s, u, w);
    }
    forall u, v | u in s'.calls && v in s'.calls && u != v ensures PairOk(s', u, v) {
      assert PairOk(s, u, v);
    }
  }

  lemma OnceProbe(s: State, t: nat, failed: bool, w: iset<EventId>)
    requires Once(s, w) && CallAt(s, t, Probing)
    ensures Once(DoProbe(s, t, failed), w)
  {
    assert CallOk(s, t, w);
    if failed {
      OnceAbandon(s, t, w);
    } else if Stored(s.sink, s.calls[t].env.eventId) {
      OnceRemove(s, t, DoProbe(s, t, failed), w);
    } else {
      OnceMove(s, t, s.calls[t].(pc := Admitted), DoProbe(s, t, failed), w);
    }
  }

  lemma OnceReserve(cfg: Config, s: State, t: nat, gone: bool, w: iset<EventId>)
    requires Once(s, w) && CallAt(s, t, Admitted)
    ensures Once(DoReserve(cfg, s, t, gone), w)
  {
    OnceAbandon(s, t, w);
    OnceShed(Abandon(s, t), s.shed + 1, w);
    OnceReserved(s, t, w);
  }

  lemma OnceReserved(s: State, t: nat, w: iset<EventId>)
    requires Once(s, w) && CallAt(s, t, Admitted)
    ensures Once(MoveTo(s, t, Reserved), w)
  {
    assert CallOk(s, t, w);
    var s' := MoveTo(s, t, Reserved);
    assert CallOk(s', t, w);
    OnceMove(s, t, s.calls[t].(pc := Reserved), s', w);
  }

  lemma OnceShed(s: State, shed: nat, w: iset<EventId>)
    requires Once(s, w)
    ensures Once(s.(shed := shed), w)
  {
    OnceFrame(s, s.(shed := shed), w);
  }

  /** Steps that touch none of the ids keep the invariant. */
  lemma OnceFrame(s: State, s': State, w: iset<EventId>)
    requires Once(s, w)
    requires s'.calls == s.calls && s'.recent == s.recent && s'.sink == s.sink
    requires s'.past.log == s.past.log && s'.past.shown == s.past.shown && s'.past.accepted == s.past.accepted
    requires s'.past.published == s.past.published
    requires forall e :: e in s'.queue || e in s'.batch ==> e in s.queue || e in s.batch
    ensures Once(s', w)
  {
    RoomsSame(s, s');
    assert forall u, x :: Live(s', u, x) <==> Live(s, u, x);
    forall x ensures Known(s', x, w) && Justified(s', x) {
      assert Known(s, x, w) && Justified(s, x);
    }
    forall u | u in s'.calls ensures CallOk(s', u, w) {
      assert CallOk(s, u, w);
    }
    forall u, v | u in s'.calls && v in s'.calls && u != v ensures PairOk(s', u, v) {
      assert PairOk(s, u, v);
    }
  }

  lemma OnceStamp(s: State, t: nat, now: nat, w: iset<EventId>)
    requires Once(s, w) && CallAt(s, t, Reserved)
    ensures Once(DoStamp(s, t, now), w)
  {
    assert CallOk(s, t, w);
    OnceMove(s, t, Call(StampEnv(s, s.calls[t].env, now), s.calls[t].ifNew, Stamped), DoStamp(s, t, now), w);
  }

  lemma OnceRecord(cfg: Config, s: State, t: nat, w: iset<EventId>)
    requires Once(s, w) && CallAt(s, t, Stamped) && Disciplined(cfg, s, Record(t), w)
    ensures Once(DoRecord(cfg, s, t), w)
  {
    var s' := DoRecord(cfg, s, t);
    var id := s.calls[t].env.eventId;
    RoomsSame(s, s');
    RecordMember(s.recent, id, cfg.recentCapacity);
    assert CallOk(s, t, w) && Live(s', t, id);
    assert forall u, x :: Live(s, u, x) ==> Live(s', u, x);
    WindowRolls(cfg, s, s', id, t, w);
    forall u | u in s'.calls ensures CallOk(s', u, w) {
      if u != t {
        assert CallOk(s, u, w);
        SoleOwner(s, t, u, w);
        CallRolls(cfg, s, s', id, u, w);
      }
    }
    forall u, v | u in s'.calls && v in s'.calls && u != v ensures PairOk(s', u, v) {
      assert PairOk(s, u, v);
    }
  }

  lemma OncePush(cfg: Config, s: State, t: nat, w: iset<EventId>)
    requires Once(s, w) && CallAt(s, t, Recorded)
    ensures Once(DoPush(cfg, s, t), w)
  {
    var s' := DoPush(cfg, s, t);
    var e := s.calls[t].env;
    assert CallOk(s, t, w);
    forall room ensures RoomIds(s', room) { RoomPush(cfg, s, t, room); }
    assert forall u, x :: Live(s', u, x) <==> Live(s, u, x);
    forall x ensures Known(s', x, w) && Justified(s', x) {
      assert Known(s, x, w) && Justified(s, x);
    }
    forall u | u in s'.calls ensures CallOk(s', u, w) {
      assert CallOk(s, u, w);
      if u != t { SoleOwner(s, t, u, w); }
    }
    forall u, v | u in s'.calls && v in s'.calls && u != v ensures PairOk(s', u, v) {
      assert PairOk(s, u, v);
    }
  }

  lemma RoomPush(cfg: Config, s: State, t: nat, room: RoomId)
    requires CallAt(s, t, Recorded) && RoomIds(s, room) && s.calls[t].env.eventId !in s.past.accepted
    ensures RoomIds(DoPush(cfg, s, t), room)
  {
    var e, s' := s.calls[t].env, DoPush(cfg, s, t);
    var log, shown := At(s.past.log, room), At(s.past.shown, room);
    if e.channel == room {
      DistinctPush(log, e);
      DistinctPush(shown, e);
      assert At(s'.past.shown, room) == shown + [e];
      assert At(s'.past.log, room) == log || At(s'.past.log, room) == log + [e];
    } else {
      assert At(s'.past.shown, room) == shown && At(s'.past.log, room) == log;
    }
  }

  lemma DistinctPush(log: seq<Envelope>, e: Envelope)
    requires DistinctIds(log) && forall x :: x in log ==> x.eventId != e.eventId
    ensures DistinctIds(log + [e])
  {
    var l := log + [e];
    forall i, j | 0 <= i < j < |l| ensures l[i].eventId != l[j].eventId {
      assert l[i] in log;
    }
  }

  lemma OnceSend(s: State, t: nat, w: iset<EventId>)
    requires Once(s, w) && CallAt(s, t, Pushed) && s.calls[t].env.delivery.Durable?
    ensures Once(DoSend(s, t), w)
  {
    assert CallOk(s, t, w);
    var s1 := MoveTo(s, t, Sent);
    assert CallOk(s1, t, w);
    OnceMove(s, t, s.calls[t].(pc := Sent), s1, w);
    var s' := DoSend(s, t);
    RoomsSame(s1, s');
    forall x ensures Known(s', x, w) && Justified(s', x) {
      assert Known(s1, x, w) && Justified(s1, x);
      if x in s1.recent && x !in s1.past.accepted {
        var u :| Live(s1, u, x);
        assert Live(s', u, x);
      }
    }
    forall u | u in s'.calls ensures CallOk(s', u, w) { assert CallOk(s1, u, w); }
    forall u, v | u in s'.calls && v in s'.calls && u != v ensures PairOk(s', u, v) { assert PairOk(s1, u, v); }
  }

  lemma OnceFinish(s: State, t: nat, w: iset<EventId>)
    requires Once(s, w) && t in s.calls && (s.calls[t].pc.Sent? || s.calls[t].pc.Pushed?)
    ensures var x := s.calls[t].env.eventId;
            Once(s.(calls := s.calls - {t}, past := s.past.(published := s.past.published + [x])), w)
  {
    var x := s.calls[t].env.eventId;
    assert CallOk(s, t, w);
    var s1 := s.(calls := s.calls - {t});
    OnceRemove(s, t, s1, w);
    var s' := s1.(past := s.past.(published := s.past.published + [x]));
    RoomsSame(s1, s');
    forall y ensures Known(s', y, w) && Justified(s', y) {
      assert Known(s1, y, w) && Justified(s1, y);
      if y in s1.recent && y !in s1.past.accepted {
        var u :| Live(s1, u, y);
        assert Live(s', u, y);
      }
    }
    forall u | u in s'.calls ensures CallOk(s', u, w) {
      assert CallOk(s, u, w) && CallOk(s1, u, w) && PairOk(s, t, u);
    }
    forall u, v | u in s'.calls && v in s'.calls && u != v ensures PairOk(s', u, v) { assert PairOk(s1, u, v); }
  }

  lemma OnceAppend(s: State, w: iset<EventId>)
    requires Once(s, w) && StoreOk(s.sink) && s.writer.Writing? && s.writer.done < |s.batch|
    ensures Once(DoAppendNext(s), w)
  {
    var s' := DoAppendNext(s);
    var e := s.batch[s.writer.done];
    assert e in s.batch;
    StoredAfterAppend(s.sink, e);
    RoomsSame(s, s');
    assert forall u, x :: Live(s', u, x) <==> Live(s, u, x);
    forall x ensures Known(s', x, w) && Justified(s', x) {
      assert Known(s, x, w) && Justified(s, x);
    }
    forall u | u in s'.calls ensures CallOk(s', u, w) {
      assert CallOk(s, u, w);
    }
    forall u, v | u in s'.calls && v in s'.calls && u != v ensures PairOk(s', u, v) {
      assert PairOk(s, u, v);
    }
  }

  lemma OnceFresh(epoch: nat, seed: nat, sink: PerRoom<Envelope>, ever: PerRoom<Envelope>, w: iset<EventId>)
    requires StoreOk(sink)
    ensures Once(Fresh(epoch, seed, sink, ever), w)
  {
    var s' := Fresh(epoch, seed, sink, ever);
    StoredIdsMember(sink);
    forall room ensures RoomIds(s', room) {
      forall e | e in At(sink, room) ensures e.eventId in s'.past.accepted {
        assert room in sink;
      }
    }
    forall x ensures Known(s', x, w) && Justified(s', x) {
    }
  }

  lemma OnceWriter(cfg: Config, s: State, step: Step, w: iset<EventId>)
    requires Once(s, w) && StoreOk(s.sink) && WriterStep(step)
    ensures Once(Apply(cfg, s, step), w)
  {
    if step.AppendNext? {
      if s.writer.Writing? && s.writer.done < |s.batch| { OnceAppend(s, w); }
    } else {
      if step.Collect? && s.queue != [] { assert s.queue == [s.queue[0]] + s.queue[1..]; }
      OnceFrame(s, Apply(cfg, s, step), w);
    }
  }

  lemma OnceCall(cfg: Config, s: State, step: Step, w: iset<EventId>)
    requires Once(s, w) && Disciplined(cfg, s, step, w)
    requires CallStep(step)
    ensures Once(ApplyCall(cfg, s, step), w)
  {
    match step
    case StartPublish(t, env) => if t !in s.calls { OnceStartPublish(cfg, s, t, env, w); }
    case StartIfNew(t, env) => if t !in s.calls && env.eventId !in s.recent { OnceStartIfNew(cfg, s, t, env, w); }
    case Probe(t, failed) => if CallAt(s, t, Probing) { OnceProbe(s, t, failed, w); }
    case Reserve(t, gone) => if CallAt(s, t, Admitted) { OnceReserve(cfg, s, t, gone, w); }
    case Stamp(t, now) => if CallAt(s, t, Reserved) { OnceStamp(s, t, now, w); }
    case Record(t) => if CallAt(s, t, Stamped) { OnceRecord(cfg, s, t, w); }
    case Send(t) => if CallAt(s, t, Pushed) && s.calls[t].env.delivery.Durable? { OnceSend(s, t, w); }
    case Finish(t) => if t in s.calls && (s.calls[t].pc.Sent? || s.calls[t].pc.Pushed?) { OnceFinish(s, t, w); }
  }

  /** Fewer ids that return ask for less. */
  lemma OnceShrinks(s: State, w: iset<EventId>, w': iset<EventId>)
    requires Once(s, w) && w' <= w
    ensures Once(s, w')
  {
    forall x ensures Known(s, x, w') && Justified(s, x) { assert Known(s, x, w) && Justified(s, x); }
    forall t | t in s.calls ensures CallOk(s, t, w') { assert CallOk(s, t, w); }
    forall t, u | t in s.calls && u in s.calls && t != u ensures PairOk(s, t, u) { assert CallOk(s, t, w); }
  }

  lemma OnceStep(cfg: Config, s: State, step: Step, w: iset<EventId>)
    requires Once(s, w) && StoreOk(s.sink) && Disciplined(cfg, s, step, w)
    ensures Once(Apply(cfg, s, step), w)
  {
    if step.Restart? {
      OnceFresh(s.epoch + 1, step.seed, s.sink, s.past.ever, w);
    } else if WriterStep(step) {
      OnceWriter(cfg, s, step, w);
    } else if SubStep(step) {
      OnceFrame(s, ApplySub(s, step), w);
    } else if step.Push? {
      if CallAt(s, step.call, Recorded) { OncePush(cfg, s, step.call, w); }
    } else {
      OnceCall(cfg, s, step, w);
    }
  }

  /** The invariant after `n` steps of a disciplined run, for the ids still to come. */
  lemma {:induction false} OnceAlways(cfg: Config, seed: nat, steps: seq<Step>, n: nat)
    requires DisciplinedRun(cfg, seed, steps) && n <= |steps|
    ensures Once(Reach(cfg, seed, steps[..n]), Returning(steps[n..]))
  {
    if n == 0 {
      OnceFresh(1, seed, map[], map[], Returning(steps[n..]));
    } else {
      assert steps[..n][..n - 1] == steps[..n - 1];
      OnceAlways(cfg, seed, steps, n - 1);
      BaseAlways(cfg, seed, steps[..n - 1]);
      assert Disciplined(cfg, Reach(cfg, seed, steps[..n - 1]), steps[n - 1], Returning(steps[n - 1..]));
      assert steps[n - 1..] == [steps[n - 1]] + steps[n..];
      OnceNext(cfg, Reach(cfg, seed, steps[..n - 1]), steps[n - 1], steps[n..]);
    }
  }

  lemma OnceNext(cfg: Config, s: State, step: Step, rest: seq<Step>)
    requires Once(s, Returning([step] + rest)) && StoreOk(s.sink) && Disciplined(cfg, s, step, Returning([step] + rest))
    ensures Once(Apply(cfg, s, step), Returning(rest))
  {
    var w := Returning([step] + rest);
    assert ([step] + rest)[1..] == rest;
    if step.Restart? {
      OnceFresh(s.epoch + 1, step.seed, s.sink, s.past.ever, Returning(rest));
    } else {
      OnceStep(cfg, s, step, w);
      OnceShrinks(Apply(cfg, s, step), w, Returning(rest));
    }
  }

  /** At every point of a disciplined run: no id has been reported published twice by one
      daemon; no channel has accepted one id twice, what earlier daemons stored included;
      an accepted id that a transport brings in again is in the window or the store; and the
      window holds only accepted and in-flight ids. */
  lemma AtMostOnce(cfg: Config, seed: nat, steps: seq<Step>, later: seq<Step>)
    requires DisciplinedRun(cfg, seed, steps + later)
    ensures var s := Reach(cfg, seed, steps);
            && RecentIds.Distinct(s.past.published)
            && FreshIds(s)
            && (forall room :: DistinctIds(At(s.past.shown, room)))
            && (forall x :: x in s.past.accepted && x in Returning(later) ==> x in s.recent || Stored(s.sink, x))
            && (forall x :: x in s.recent ==> x in s.past.accepted || exists t :: Live(s, t, x))
  {
    var s, w := Reach(cfg, seed, steps), Returning(later);
    assert (steps + later)[..|steps|] == steps && (steps + later)[|steps|..] == later;
    OnceAlways(cfg, seed, steps + later, |steps|);
    forall room ensures DistinctIds(At(s.past.log, room)) && DistinctIds(At(s.past.shown, room)) {
      assert RoomIds(s, room);
    }
    forall x | x in s.past.accepted && x in w ensures x in s.recent || Stored(s.sink, x) { assert Known(s, x, w); }
    forall x | x in s.recent ensures x in s.past.accepted || exists t :: Live(s, t, x) { assert Justified(s, x); }
  }

  // ---------------------------------------------------------------- rejection

  lemma RecentAfterCall(cfg: Config, s: State, step: Step)
    requires cfg.recentCapacity > 0 && CallStep(step) && |s.recent| <= cfg.recentCapacity
    ensures |ApplyCall(cfg, s, step).recent| <= cfg.recentCapacity
  {
    match step
    case StartPublish(t, env) =>
    case StartIfNew(t, env) =>
    case Probe(t, failed) => if t in s.calls { RecentIds.ForgetMember(s.recent, s.calls[t].env.eventId); }
    case Reserve(t, gone) => if t in s.calls { RecentIds.ForgetMember(s.recent, s.calls[t].env.eventId); }
    case Stamp(t, now) =>
    case Record(t) =>
    case Send(t) =>
    case Finish(t) =>
  }

  /** In every run the window holds no more ids than its capacity. */
  lemma {:induction false} WindowIsBounded(cfg: Config, seed: nat, steps: seq<Step>)
    requires cfg.recentCapacity > 0
    ensures |Reach(cfg, seed, steps).recent| <= cfg.recentCapacity
  {
    if steps != [] {
      var front, step := steps[..|steps| - 1], steps[|steps| - 1];
      var s := Reach(cfg, seed, front);
      WindowIsBounded(cfg, seed, front);
      if !step.Push? && !step.Restart? {
        ApplyCases(cfg, s, step);
        if CallStep(step) { RecentAfterCall(cfg, s, step); }
      }
    }
  }

  /** A durable publish refused for want of write-behind capacity leaves no trace: in whatever
      state a run has reached, the whole call alone changes only the shed count, and for
      `publish_if_new` also the window when that was full, which then has lost its oldest id. */
  lemma RejectionLeavesNoTrace(cfg: Config, seed: nat, steps: seq<Step>, t: nat, env: Envelope)
    requires cfg.recentCapacity > 0
    requires var s := Reach(cfg, seed, steps);
             && t !in s.calls && env.delivery.Durable? && env.eventId !in s.recent && !Stored(s.sink, env.eventId)
             && |s.queue| + |Permits(s.calls)| >= cfg.WriteBehindBuffer()
    ensures var s := Reach(cfg, seed, steps);
            && DoReserve(cfg, DoStartPublish(s, t, env), t, false) == s.(shed := s.shed + 1)
            && DoReserve(cfg, DoProbe(DoStartIfNew(cfg, s, t, env), t, false), t, false)
               == s.(shed := s.shed + 1, recent := if |s.recent| < cfg.recentCapacity then s.recent else s.recent[1..])
  {
    WindowIsBounded(cfg, seed, steps);
    RejectedAlone(cfg, Reach(cfg, seed, steps), t, env);
  }

  lemma RejectedAlone(cfg: Config, s: State, t: nat, env: Envelope)
    requires t !in s.calls && env.delivery.Durable? && env.eventId !in s.recent && !Stored(s.sink, env.eventId)
    requires |s.queue| + |Permits(s.calls)| >= cfg.WriteBehindBuffer()
    requires 0 < cfg.recentCapacity && |s.recent| <= cfg.recentCapacity
    ensures DoReserve(cfg, DoStartPublish(s, t, env), t, false) == s.(shed := s.shed + 1)
    ensures DoReserve(cfg, DoProbe(DoStartIfNew(cfg, s, t, env), t, false), t, false)
            == s.(shed := s.shed + 1, recent := if |s.recent| < cfg.recentCapacity then s.recent else s.recent[1..])
  {
    var a, b := Call(env, false, Admitted), Call(env, true, Admitted);
    PermitsMove(s.calls, t, a);
    PermitsMove(s.calls, t, b);
    assert s.calls[t := a] - {t} == s.calls && s.calls[t := b] - {t} == s.calls;
    var s1 := DoStartPublish(s, t, env);
    assert s1 == s.(calls := s.calls[t := a]);
    var marked := RecentIds.Record(s.recent, env.eventId, cfg.recentCapacity);
    var s2 := DoStartIfNew(cfg, s, t, env);
    assert s2 == s.(calls := s.calls[t := Call(env, true, Probing)], recent := marked);
    var s3 := DoProbe(s2, t, false);
    assert s3 == s.(calls := s.calls[t := b], recent := marked);
    RecentIds.UnmarkRestores(s.recent, env.eventId, cfg.recentCapacity);
  }
}
