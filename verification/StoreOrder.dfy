/** When the store fills in order. If a channel's pushes follow sequence order and its permits
    are filled in the order of acceptance, then at every moment of every run, failed and
    retried batches included, its stored rows are exactly the oldest of its accepted
    durables: no row is ever inserted behind another. */
module StoreOrder {
  import opened Envelopes
  import opened Selection
  import opened Bus
  import opened Channel
  import opened Persistence
  import opened Holders
  import opened Floor
  import opened Replay
  import Sink

  ghost function Durables(s: State, room: RoomId): seq<Envelope> {
    Select(At(s.past.log, room), IsDurable)
  }

  ghost predicate SendsInOrder(s: State, room: RoomId) {
    At(s.past.sent, room) <= Durables(s, room)
  }

  /** Confirmed, then stored, then sent: each a prefix of the next. */
  ghost predicate StoredPrefix(s: State, room: RoomId) {
    At(s.past.marked, room) <= At(s.sink, room) <= At(s.past.sent, room)
  }

  lemma InsertLast(b: seq<Envelope>, e: Envelope)
    requires forall x :: x in b ==> x.Cursor().IsBefore(e.Cursor())
    ensures Sink.Insert(b, e) == b + [e]
  {
    if b != [] { assert b[|b| - 1] in b; }
  }

  /** If everything before `e` is in the prefix and `e` is not, the prefix ends at `e`. */
  lemma NextInLine(sent: seq<Envelope>, rows: seq<Envelope>, k: nat)
    requires NoRepeat(sent) && rows <= sent && k < |sent|
    requires forall j :: 0 <= j < k ==> sent[j] in rows
    ensures sent[k] !in rows ==> rows + [sent[k]] <= sent
    ensures sent[k] in rows ==> k < |rows|
  {
    if sent[k] in rows {
      var i :| 0 <= i < |rows| && rows[i] == sent[k];
      assert sent[i] == sent[k];
    } else {
      assert forall i :: 0 <= i < |rows| ==> rows[i] == sent[i];
      forall j | 0 <= j < k ensures j < |rows| && rows[j] == sent[j] {
        var i :| 0 <= i < |rows| && rows[i] == sent[j];
        assert sent[i] == sent[j];
      }
    }
  }

  lemma SentNoRepeat(s: State, room: RoomId)
    requires SendsInOrder(s, room) && DistinctIds(At(s.past.log, room))
    ensures NoRepeat(At(s.past.sent, room))
  {
    SelectNoRepeat(At(s.past.log, room), IsDurable);
    var sent, all := At(s.past.sent, room), Durables(s, room);
    assert forall i :: 0 <= i < |sent| ==> sent[i] == all[i];
  }

  /** Where the entry the writer is storing stands among the sent events of its channel. */
  lemma PlaceInSent(s: State) returns (k: nat)
    requires s.writer.Writing? && s.writer.done < |s.batch|
    requires SentShape(s, s.batch[s.writer.done].channel)
    ensures var e := s.batch[s.writer.done];
            var sent := At(s.past.sent, e.channel);
            && k < |sent| && sent[k] == e
            && (forall j :: 0 <= j < k ==>
                  sent[j] in At(s.past.marked, e.channel) || (sent[j] in s.batch[..s.writer.done] && sent[j].channel == e.channel))
  {
    var n, e := s.writer.done, s.batch[s.writer.done];
    var before, after := s.batch[..n], s.batch[n + 1..] + s.queue;
    var on := OnChannel(e.channel);
    assert Pipe(s) == before + ([e] + after);
    SelectAppend(before, [e] + after, on);
    SelectAppend([e], after, on);
    assert Select([e], on) == [e];
    var marked, kept := At(s.past.marked, e.channel), Select(before, on);
    k := |marked| + |kept|;
    var sent := At(s.past.sent, e.channel);
    assert sent == marked + (kept + ([e] + Select(after, on)));
    SelectMember(before, on);
    forall j | 0 <= j < k ensures sent[j] in marked || (sent[j] in before && sent[j].channel == e.channel) {
      if j >= |marked| { assert sent[j] == kept[j - |marked|] && sent[j] in kept && on.Holds(sent[j]); }
    }
  }

  /** A room's facts at one state. */
  ghost predicate RoomReady(s: State, room: RoomId) {
    && DistinctIds(At(s.past.log, room)) && InOrder(s, room) && SendsInOrder(s, room)
    && SentShape(s, room) && RoomOk(s, room)
  }

  lemma AppendInOrder(s: State)
    requires Base(s) && Pipeline(s) && s.writer.Writing? && s.writer.done < |s.batch|
    requires var room := s.batch[s.writer.done].channel; RoomReady(s, room) && StoredPrefix(s, room)
    ensures StoredPrefix(DoAppendNext(s), s.batch[s.writer.done].channel)
  {
    var e, s' := s.batch[s.writer.done], DoAppendNext(s);
    var room := e.channel;
    var rows, sent := At(s.sink, room), At(s.past.sent, room);
    SentNoRepeat(s, room);
    var k := PlaceInSent(s);
    forall j | 0 <= j < k ensures sent[j] in rows {
      if sent[j] in s.batch[..s.writer.done] && sent[j].channel == room {
        var i :| 0 <= i < s.writer.done && s.batch[i] == sent[j];
        assert InStore(s, s.batch[i]);
      } else {
        var i :| 0 <= i < |At(s.past.marked, room)| && At(s.past.marked, room)[i] == sent[j];
        assert rows[i] == sent[j];
      }
    }
    NextInLine(sent, rows, k);
    assert e in s.batch && Logged(s, e);
    if e in rows {
      HasIdOf(rows, e);
    } else {
      NotStoredYet(At(s.past.log, room), rows, e);
      SelectSorted(At(s.past.log, room), IsDurable);
      RowsPrecede(rows, e, Durables(s, room));
      InsertLast(rows, e);
    }
  }

  lemma HasIdOf(rows: seq<Envelope>, e: Envelope)
    requires e in rows
    ensures Sink.Appended(rows, e) == rows
  {
    var i :| 0 <= i < |rows| && rows[i] == e;
    assert rows[i].eventId == e.eventId;
  }

  lemma NotStoredYet(log: seq<Envelope>, rows: seq<Envelope>, e: Envelope)
    requires DistinctIds(log) && e in log && e !in rows && forall x :: x in rows ==> x in log
    ensures !Sink.HasId(rows, e.eventId)
  {
    forall i | 0 <= i < |rows| ensures rows[i].eventId != e.eventId {
      assert rows[i] in rows;
      if rows[i].eventId == e.eventId { SameIdSame(log, rows[i], e); }
    }
  }

  lemma RowsPrecede(rows: seq<Envelope>, e: Envelope, all: seq<Envelope>)
    requires Sorted(all) && rows + [e] <= all
    ensures forall x :: x in rows ==> x.Cursor().IsBefore(e.Cursor())
  {
    var r := rows + [e];
    assert r[|rows|] == e && all[|rows|] == e;
    forall x | x in rows ensures x.Cursor().IsBefore(e.Cursor()) {
      var i :| 0 <= i < |rows| && rows[i] == x;
      assert r[i] == x && all[i] == x;
    }
  }

  lemma MarkInOrder(cfg: Config, s: State, room: RoomId)
    requires Base(s) && Pipeline(s) && s.writer.Marking? && RoomReady(s, room) && StoredPrefix(s, room)
    ensures StoredPrefix(DoMarkNext(cfg, s), room)
  {
    var e, s' := s.batch[s.writer.done], DoMarkNext(cfg, s);
    var marked, rows, sent := At(s.past.marked, room), At(s.sink, room), At(s.past.sent, room);
    MarkedGrows(cfg, s, room);
    if e.channel == room {
      assert e in s.batch && InStore(s, e);
      SentNoRepeat(s, room);
      NextMarked(cfg, s);
      MarkedStored(marked, rows, sent, e);
    }
  }

  lemma NextMarked(cfg: Config, s: State)
    requires Base(s) && s.writer.Marking? && SentShape(s, s.batch[s.writer.done].channel)
    ensures var e := s.batch[s.writer.done];
            var marked, sent := At(s.past.marked, e.channel), At(s.past.sent, e.channel);
            |marked| < |sent| && sent[|marked|] == e
  {
    PipeMark(cfg, s);
    SelectHead(Pipe(s), OnChannel(s.batch[s.writer.done].channel));
  }

  lemma MarkedStored(marked: seq<Envelope>, rows: seq<Envelope>, sent: seq<Envelope>, e: Envelope)
    requires NoRepeat(sent) && marked <= rows <= sent && |marked| < |sent| && sent[|marked|] == e && e in rows
    ensures marked + [e] <= rows
  {
    assert forall j :: 0 <= j < |marked| ==> sent[j] == marked[j] && sent[j] == rows[j];
    NextInLine(sent, rows, |marked|);
    assert rows[|marked|] == e;
  }

  /** Only sends, appends, confirmations and restarts touch what the prefixes speak of. */
  lemma PrefixFrame(cfg: Config, s: State, step: Step, room: RoomId)
    requires !step.Send? && !step.AppendNext? && !step.MarkNext? && !step.Restart? && StoredPrefix(s, room)
    ensures StoredPrefix(Apply(cfg, s, step), room)
  {
    SentFrame(cfg, s, step);
    if !step.Push? { QuietFrame(cfg, s, step); }
  }

  lemma PrefixSend(s: State, t: nat, room: RoomId)
    requires StoredPrefix(s, room)
    ensures StoredPrefix(DoSend(s, t), room)
  {
    if CallAt(s, t, Pushed) && s.calls[t].env.delivery.Durable? { SentGrows(s, t, room); }
  }

  lemma PrefixAppend(s: State, room: RoomId)
    requires Base(s) && Pipeline(s) && RoomReady(s, room) && StoredPrefix(s, room)
    ensures StoredPrefix(DoAppendNext(s), room)
  {
    if s.writer.Writing? && s.writer.done < |s.batch| {
      if s.batch[s.writer.done].channel == room {
        AppendInOrder(s);
      } else {
        assert At(DoAppendNext(s).sink, room) == At(s.sink, room);
      }
    }
  }

  lemma PrefixStep(cfg: Config, s: State, step: Step, room: RoomId)
    requires !step.Restart? && Base(s) && Pipeline(s) && RoomReady(s, room) && StoredPrefix(s, room)
    ensures StoredPrefix(Apply(cfg, s, step), room)
  {
    if step.Send? {
      assert Apply(cfg, s, step) == DoSend(s, step.call) by { ApplyCases(cfg, s, step); }
      PrefixSend(s, step.call, room);
    } else if WriterStep(step) {
      ApplyCases(cfg, s, step);
      PrefixWriter(cfg, s, step, room);
    } else {
      PrefixFrame(cfg, s, step, room);
    }
  }

  lemma PrefixWriter(cfg: Config, s: State, step: Step, room: RoomId)
    requires WriterStep(step) && Base(s) && Pipeline(s) && RoomReady(s, room) && StoredPrefix(s, room)
    ensures StoredPrefix(ApplyWriter(cfg, s, step), room)
  {
    if step.AppendNext? {
      PrefixAppend(s, room);
    } else if step.MarkNext? {
      if s.writer.Marking? { MarkInOrder(cfg, s, room); }
    }
  }

  lemma LogStaysSorted(log: seq<Envelope>, log': seq<Envelope>)
    requires log <= log' && Sorted(log')
    ensures Sorted(log)
  {
    assert forall i :: 0 <= i < |log| ==> log[i] == log'[i];
  }

  lemma {:induction false} PrefixAlways(cfg: Config, seed: nat, steps: seq<Step>, room: RoomId)
    requires var s := Reach(cfg, seed, steps); FreshIds(s) && InOrder(s, room) && SendsInOrder(s, room)
    ensures StoredPrefix(Reach(cfg, seed, steps), room)
  {
    if steps != [] && !steps[|steps| - 1].Restart? {
      var front, step := steps[..|steps| - 1], steps[|steps| - 1];
      var s := Reach(cfg, seed, front);
      FreshBefore(cfg, s, step);
      LogGrows(cfg, s, step, room);
      LogStaysSorted(At(s.past.log, room), At(Apply(cfg, s, step).past.log, room));
      FloorAlways(cfg, seed, front);
      assert SentLogged(s, room) && SentShape(s, room);
      InOrderRoom(cfg, s, step, room);
      PrefixAlways(cfg, seed, front, room);
      BaseAlways(cfg, seed, front);
      SafeAlways(cfg, seed, front);
      assert RoomOk(s, room) && DistinctIds(At(s.past.log, room));
      PrefixStep(cfg, s, step, room);
    }
  }

  /** In every run with fresh ids, on every channel whose pushes and sends are in order, the
      stored rows are a prefix of the accepted durables. */
  lemma StoredInOrder(cfg: Config, seed: nat, steps: seq<Step>, room: RoomId)
    requires var s := Reach(cfg, seed, steps); FreshIds(s) && InOrder(s, room) && SendsInOrder(s, room)
    ensures At(Reach(cfg, seed, steps).sink, room) <= Select(At(Reach(cfg, seed, steps).past.log, room), IsDurable)
  {
    PrefixAlways(cfg, seed, steps, room);
  }

  /** The order conditions of a later state hold at every earlier one of the same daemon. */
  lemma {:induction false} OrderedEarlier(cfg: Config, seed: nat, steps: seq<Step>, later: seq<Step>, room: RoomId)
    requires NoRestart(later)
    requires var s := Reach(cfg, seed, steps + later); FreshIds(s) && InOrder(s, room) && SendsInOrder(s, room)
    ensures var s := Reach(cfg, seed, steps); FreshIds(s) && InOrder(s, room) && SendsInOrder(s, room)
    decreases |later|
  {
    if later == [] {
      assert steps + later == steps;
    } else {
      var front, step := later[..|later| - 1], later[|later| - 1];
      var all := steps + later;
      assert all[..|all| - 1] == steps + front && all[|all| - 1] == step;
      var s := Reach(cfg, seed, steps + front);
      FreshBefore(cfg, s, step);
      LogGrows(cfg, s, step, room);
      LogStaysSorted(At(s.past.log, room), At(Apply(cfg, s, step).past.log, room));
      FloorAlways(cfg, seed, steps + front);
      assert SentLogged(s, room);
      InOrderRoom(cfg, s, step, room);
      OrderedEarlier(cfg, seed, steps, front, room);
    }
  }
}
