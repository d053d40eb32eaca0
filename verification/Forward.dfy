/** Latest-wins forwarding. A coalescable event's value goes into a map and a wake goes onto
    a bounded queue; the forwarder resolves a wake to the newest value when it emits. Each
    step is one atomic action of an offer or of the forwarder, so every sequence of steps is
    an interleaving. */
module Forward {
  import opened Options
  import opened Envelopes

  datatype Item = Item(env: Envelope, origin: Option<PeerId>)

  /** The coalescing slot: the room, the publisher, and the publisher's own key. */
  type Key = (RoomId, PeerId, string)

  function ForwardKey(env: Envelope): Option<Key> {
    if env.delivery.EphemeralLatest? && env.coalesceKey.Some?
    then Some((env.channel, env.from.0, env.coalesceKey.value))
    else None
  }

  function KeyOf(item: Item): Option<Key> {
    ForwardKey(item.env)
  }

  /** The shared map behind the wake queue. */
  class ForwardLatest {
    var latest: map<Key, Item>

    constructor ()
      ensures latest == map[]
    {
      latest := map[];
    }

    method Put(key: Key, item: Item)
      modifies this
      ensures latest == old(latest)[key := item]
    {
      latest := latest[key := item];
    }

    /** What goes on the wire for a dequeued item. */
    method Resolve(queued: Item) returns (r: Option<Item>)
      modifies this
      ensures KeyOf(queued).None? ==> r == Some(queued) && latest == old(latest)
      ensures KeyOf(queued).Some? ==>
                && r == (if KeyOf(queued).value in old(latest) then Some(old(latest)[KeyOf(queued).value]) else None)
                && latest == old(latest) - {KeyOf(queued).value}
    {
      var key := KeyOf(queued);
      if key.None? { return Some(queued); }
      r := if key.value in latest then Some(latest[key.value]) else None;
      latest := latest - {key.value};
    }
  }

  /** A stored value and which put stored it. */
  datatype Value = Value(item: Item, put: nat)

  datatype State = State(
    latest: map<Key, Value>,
    offering: map<nat, Item>,         // offers between storing their value and sending their wake
    queue: seq<Item>,
    hand: Option<Item>,               // taken by the forwarder, not yet resolved
    superseded: nat,
    dropped: nat,
    // history
    puts: nat,
    newest: map<Key, Value>,          // the last value put per key
    emitted: seq<Value>,              // coalesced emissions, in order
    accepted: seq<Item>,              // uncoalesced items the queue took
    wire: seq<Item>,                  // uncoalesced emissions, in order
    stranded: set<Key>)               // keys with a value, refused while no wake of theirs was anywhere

  datatype Step =
    | Offer(id: nat, item: Item)
    | TrySend(id: nat)
    | Take
    | Resolve

  predicate WakeFor(item: Item, k: Key) {
    KeyOf(item) == Some(k)
  }

  /** A wake for the key is queued, in hand, or about to be sent. */
  ghost predicate HasWake(s: State, k: Key) {
    || (exists i :: 0 <= i < |s.queue| && WakeFor(s.queue[i], k))
    || (s.hand.Some? && WakeFor(s.hand.value, k))
    || (exists t :: t in s.offering && WakeFor(s.offering[t], k))
  }

  function DoOffer(s: State, t: nat, item: Item): State {
    if t in s.offering then s
    else
      var key, v := KeyOf(item), Value(item, s.puts);
      s.(offering := s.offering[t := item],
         latest := if key.Some? then s.latest[key.value := v] else s.latest,
         newest := if key.Some? then s.newest[key.value := v] else s.newest,
         puts := s.puts + 1)
  }

  ghost function DoTrySend(capacity: nat, s: State, t: nat): State {
    if t !in s.offering then s
    else
      var item := s.offering[t];
      var key := KeyOf(item);
      var rest := s.(offering := s.offering - {t});
      if |s.queue| < capacity then
        rest.(queue := s.queue + [item],
              accepted := if key.None? then s.accepted + [item] else s.accepted,
              stranded := if key.Some? then s.stranded - {key.value} else s.stranded)
      else if key.Some? then
        rest.(superseded := s.superseded + 1,
              stranded := if HasWake(rest, key.value) || key.value !in s.latest then s.stranded else s.stranded + {key.value})
      else rest.(dropped := s.dropped + 1)
  }

  function DoTake(s: State): State {
    if s.hand.None? && s.queue != [] then s.(hand := Some(s.queue[0]), queue := s.queue[1..]) else s
  }

  function DoResolve(s: State): State {
    if s.hand.None? then s
    else
      var key := KeyOf(s.hand.value);
      if key.None? then s.(hand := None, wire := s.wire + [s.hand.value])
      else if key.value in s.latest then
        s.(hand := None, latest := s.latest - {key.value}, emitted := s.emitted + [s.latest[key.value]])
      else s.(hand := None)
  }

  ghost function Apply(capacity: nat, s: State, step: Step): State {
    match step
    case Offer(t, item) => DoOffer(s, t, item)
    case TrySend(t) => DoTrySend(capacity, s, t)
    case Take => DoTake(s)
    case Resolve => DoResolve(s)
  }

  const INITIAL: State := State(map[], map[], [], None, 0, 0, 0, map[], [], [], [], {})

  ghost function Run(capacity: nat, steps: seq<Step>): State {
    if steps == [] then INITIAL else Apply(capacity, Run(capacity, steps[..|steps| - 1]), steps[|steps| - 1])
  }

  // ---------------------------------------------------------------- values and their order

  /** A stored value is the newest put for its key, and newer than every emission of it. */
  ghost predicate StoredOk(s: State, k: Key) {
    k in s.latest ==>
      && k in s.newest && s.latest[k] == s.newest[k]
      && forall i :: 0 <= i < |s.emitted| && WakeFor(s.emitted[i].item, k) ==> s.emitted[i].put < s.latest[k].put
  }

  ghost predicate NewestOk(s: State, k: Key) {
    k in s.newest ==>
      && WakeFor(s.newest[k].item, k) && s.newest[k].put < s.puts
      && (k in s.latest || s.newest[k] in s.emitted)
  }

  ghost predicate EmissionOk(s: State, i: nat)
    requires i < |s.emitted|
  {
    exists k :: WakeFor(s.emitted[i].item, k) && k in s.newest && s.emitted[i].put <= s.newest[k].put
  }

  /** Emissions of one key advance in put order. */
  ghost predicate Advancing(emitted: seq<Value>) {
    forall i, j :: 0 <= i < j < |emitted| && KeyOf(emitted[i].item) == KeyOf(emitted[j].item) ==> emitted[i].put < emitted[j].put
  }

  ghost predicate Values(s: State) {
    && (forall k :: StoredOk(s, k) && NewestOk(s, k))
    && (forall i :: 0 <= i < |s.emitted| ==> EmissionOk(s, i))
    && Advancing(s.emitted)
  }

  lemma ValuesOffer(s: State, t: nat, item: Item)
    requires Values(s) && t !in s.offering
    ensures Values(DoOffer(s, t, item))
  {
    var s' := DoOffer(s, t, item);
    forall k ensures StoredOk(s', k) && NewestOk(s', k) {
      assert StoredOk(s, k) && NewestOk(s, k);
      if KeyOf(item) == Some(k) {
        forall i | 0 <= i < |s.emitted| && WakeFor(s.emitted[i].item, k) ensures s.emitted[i].put < s.puts {
          assert EmissionOk(s, i);
          var k' :| WakeFor(s.emitted[i].item, k') && k' in s.newest && s.emitted[i].put <= s.newest[k'].put;
          assert NewestOk(s, k');
        }
      }
    }
    forall i | 0 <= i < |s'.emitted| ensures EmissionOk(s', i) {
      assert EmissionOk(s, i);
      var k :| WakeFor(s.emitted[i].item, k) && k in s.newest && s.emitted[i].put <= s.newest[k].put;
      assert NewestOk(s, k);
      assert WakeFor(s'.emitted[i].item, k) && k in s'.newest && s'.emitted[i].put <= s'.newest[k].put;
    }
  }

  lemma ValuesResolve(s: State)
    requires Values(s) && s.hand.Some? && KeyOf(s.hand.value).Some? && KeyOf(s.hand.value).value in s.latest
    ensures Values(DoResolve(s))
  {
    var s' := DoResolve(s);
    var k := KeyOf(s.hand.value).value;
    var v := s.latest[k];
    assert StoredOk(s, k) && NewestOk(s, k);
    assert s'.emitted[|s.emitted|] == v;
    forall x ensures StoredOk(s', x) && NewestOk(s', x) {
      assert StoredOk(s, x) && NewestOk(s, x);
    }
    forall i | 0 <= i < |s'.emitted| ensures EmissionOk(s', i) {
      if i < |s.emitted| {
        assert EmissionOk(s, i);
        var x :| WakeFor(s.emitted[i].item, x) && x in s.newest && s.emitted[i].put <= s.newest[x].put;
        assert WakeFor(s'.emitted[i].item, x) && x in s'.newest && s'.emitted[i].put <= s'.newest[x].put;
      } else {
        assert WakeFor(s'.emitted[i].item, k) && k in s'.newest && s'.emitted[i].put <= s'.newest[k].put;
      }
    }
    forall i, j | 0 <= i < j < |s'.emitted| && KeyOf(s'.emitted[i].item) == KeyOf(s'.emitted[j].item)
      ensures s'.emitted[i].put < s'.emitted[j].put
    {
      if j == |s.emitted| { assert WakeFor(s.emitted[i].item, k); }
    }
  }

  lemma ValuesFrame(s: State, s': State)
    requires Values(s) && s'.latest == s.latest && s'.newest == s.newest && s'.emitted == s.emitted && s'.puts == s.puts
    ensures Values(s')
  {
    forall k ensures StoredOk(s', k) && NewestOk(s', k) { assert StoredOk(s, k) && NewestOk(s, k); }
    forall i | 0 <= i < |s'.emitted| ensures EmissionOk(s', i) {
      assert EmissionOk(s, i);
      var x :| WakeFor(s.emitted[i].item, x) && x in s.newest && s.emitted[i].put <= s.newest[x].put;
      assert WakeFor(s'.emitted[i].item, x) && x in s'.newest && s'.emitted[i].put <= s'.newest[x].put;
    }
  }

  // ---------------------------------------------------------------- order of uncoalesced items

  function Unkeyed(items: seq<Item>): seq<Item> {
    if items == [] then []
    else
      var rest := Unkeyed(items[..|items| - 1]);
      if KeyOf(items[|items| - 1]).None? then rest + [items[|items| - 1]] else rest
  }

  lemma {:induction false} UnkeyedAppend(a: seq<Item>, b: seq<Item>)
    ensures Unkeyed(a + b) == Unkeyed(a) + Unkeyed(b)
    decreases |b|
  {
    if b == [] {
      assert a + b == a;
    } else {
      UnkeyedAppend(a, b[..|b| - 1]);
      assert (a + b)[..|a + b| - 1] == a + b[..|b| - 1];
    }
  }

  ghost function InFlight(s: State): seq<Item> {
    (if s.hand.Some? then [s.hand.value] else []) + s.queue
  }

  ghost predicate FirstInFirstOut(s: State) {
    s.wire + Unkeyed(InFlight(s)) == s.accepted
  }

  lemma FifoSend(capacity: nat, s: State, t: nat)
    requires FirstInFirstOut(s) && t in s.offering && |s.queue| < capacity
    ensures FirstInFirstOut(DoTrySend(capacity, s, t))
  {
    var item := s.offering[t];
    assert InFlight(DoTrySend(capacity, s, t)) == InFlight(s) + [item];
    UnkeyedAppend(InFlight(s), [item]);
    assert Unkeyed([item]) == if KeyOf(item).None? then [item] else [];
  }

  lemma FifoResolve(s: State)
    requires FirstInFirstOut(s) && s.hand.Some?
    ensures FirstInFirstOut(DoResolve(s))
  {
    var item, rest := s.hand.value, Unkeyed(s.queue);
    var head := if KeyOf(item).None? then [item] else [];
    assert Unkeyed(InFlight(s)) == head + rest by { UnkeyedHead(item, s.queue); }
    assert DoResolve(s).wire == s.wire + head && DoResolve(s).accepted == s.accepted;
    assert InFlight(DoResolve(s)) == s.queue;
    Regroup(s.wire, head, rest);
  }

  lemma Regroup(a: seq<Item>, b: seq<Item>, c: seq<Item>)
    ensures a + b + c == a + (b + c)
  {
  }

  lemma UnkeyedHead(item: Item, queue: seq<Item>)
    ensures Unkeyed([item] + queue) == (if KeyOf(item).None? then [item] else []) + Unkeyed(queue)
  {
    UnkeyedAppend([item], queue);
    assert Unkeyed([item]) == if KeyOf(item).None? then [item] else [];
  }

  lemma FifoStep(capacity: nat, s: State, step: Step)
    requires FirstInFirstOut(s)
    ensures FirstInFirstOut(Apply(capacity, s, step))
  {
    if step.TrySend? && step.id in s.offering && |s.queue| < capacity {
      FifoSend(capacity, s, step.id);
    } else if step.Resolve? && s.hand.Some? {
      FifoResolve(s);
    } else {
      if s.queue != [] { assert s.queue == [s.queue[0]] + s.queue[1..]; }
      assert InFlight(Apply(capacity, s, step)) == InFlight(s);
    }
  }

  // ---------------------------------------------------------------- wakes

  ghost predicate Woken(s: State, k: Key) {
    k in s.latest ==> HasWake(s, k) || k in s.stranded
  }

  lemma WokenStep(capacity: nat, s: State, step: Step, k: Key)
    requires Woken(s, k) && capacity > 0
    ensures Woken(Apply(capacity, s, step), k)
  {
    match step
    case Offer(t, item) => WokenOffer(s, t, item, k);
    case TrySend(t) => if t in s.offering { WokenSend(capacity, s, t, k); }
    case Take => if s.hand.None? && s.queue != [] { WokenTake(s, k); }
    case Resolve => if s.hand.Some? { WokenResolve(s, k); }
  }

  lemma WokenOffer(s: State, t: nat, item: Item, k: Key)
    requires Woken(s, k)
    ensures Woken(DoOffer(s, t, item), k)
  {
    var s' := DoOffer(s, t, item);
    if t !in s.offering && k in s'.latest {
      if WakeFor(item, k) {
        assert t in s'.offering && WakeFor(s'.offering[t], k);
      } else if HasWake(s, k) {
        if exists u :: u in s.offering && WakeFor(s.offering[u], k) {
          var u :| u in s.offering && WakeFor(s.offering[u], k);
          assert u in s'.offering && WakeFor(s'.offering[u], k);
        }
      }
    }
  }

  lemma WokenSend(capacity: nat, s: State, t: nat, k: Key)
    requires Woken(s, k) && t in s.offering
    ensures Woken(DoTrySend(capacity, s, t), k)
  {
    var s' := DoTrySend(capacity, s, t);
    var item := s.offering[t];
    if k in s.latest && |s.queue| < capacity && WakeFor(item, k) {
      assert WakeFor(s'.queue[|s.queue|], k);
    } else if k in s.latest && !WakeFor(item, k) && HasWake(s, k) {
      if i :| 0 <= i < |s.queue| && WakeFor(s.queue[i], k) {
        assert WakeFor(s'.queue[i], k);
      } else if u :| u in s.offering && WakeFor(s.offering[u], k) {
        assert u in s'.offering && WakeFor(s'.offering[u], k);
      }
    } else if k in s.latest && WakeFor(item, k) {
      var rest := s.(offering := s.offering - {t});
      if HasWake(rest, k) { assert HasWake(s', k); }
    }
  }

  lemma WokenTake(s: State, k: Key)
    requires Woken(s, k) && s.hand.None? && s.queue != []
    ensures Woken(DoTake(s), k)
  {
    var s' := DoTake(s);
    if k in s.latest && HasWake(s, k) {
      if i :| 0 <= i < |s.queue| && WakeFor(s.queue[i], k) {
        if i > 0 { assert WakeFor(s'.queue[i - 1], k); }
      }
    }
  }

  lemma WokenResolve(s: State, k: Key)
    requires Woken(s, k) && s.hand.Some?
    ensures Woken(DoResolve(s), k)
  {
    var s' := DoResolve(s);
    if k in s'.latest && HasWake(s, k) {
      assert !WakeFor(s.hand.value, k);
      assert HasWake(s', k);
    }
  }

  /** A stranded key holds a value that no wake on its way will fetch. */
  ghost predicate Stuck(s: State, k: Key) {
    k in s.stranded ==>
      && k in s.latest
      && (forall i :: 0 <= i < |s.queue| ==> !WakeFor(s.queue[i], k))
      && (s.hand.Some? ==> !WakeFor(s.hand.value, k))
  }

  lemma StuckStep(capacity: nat, s: State, step: Step, k: Key)
    requires Stuck(s, k)
    ensures Stuck(Apply(capacity, s, step), k)
  {
    var s' := Apply(capacity, s, step);
    if k in s'.stranded && k !in s.stranded {
      var rest := s.(offering := s.offering - {step.id});
      assert !HasWake(rest, k);
      assert rest.queue == s.queue && s'.queue == s.queue;
    }
  }

  // ---------------------------------------------------------------- the theorem

  ghost predicate Sound(s: State) {
    Values(s) && FirstInFirstOut(s) && forall k :: Woken(s, k) && Stuck(s, k)
  }

  lemma ValuesStep(capacity: nat, s: State, step: Step)
    requires Values(s)
    ensures Values(Apply(capacity, s, step))
  {
    if step.Offer? && step.id !in s.offering {
      ValuesOffer(s, step.id, step.item);
    } else if step.Resolve? && s.hand.Some? && KeyOf(s.hand.value).Some? && KeyOf(s.hand.value).value in s.latest {
      ValuesResolve(s);
    } else {
      ValuesFrame(s, Apply(capacity, s, step));
    }
  }

  lemma {:induction false} SoundAlways(capacity: nat, steps: seq<Step>)
    requires capacity > 0
    ensures Sound(Run(capacity, steps))
  {
    if steps != [] {
      var s, step := Run(capacity, steps[..|steps| - 1]), steps[|steps| - 1];
      SoundAlways(capacity, steps[..|steps| - 1]);
      ValuesStep(capacity, s, step);
      FifoStep(capacity, s, step);
      forall k ensures Woken(Apply(capacity, s, step), k) && Stuck(Apply(capacity, s, step), k) {
        assert Woken(s, k) && Stuck(s, k);
        WokenStep(capacity, s, step, k);
        StuckStep(capacity, s, step, k);
      }
    }
  }

  /** In every interleaving: emissions of a key advance strictly in put order, so no value is
      emitted twice and none after a newer one; a stored value is the last one put and newer
      than every emission of its key; and uncoalesced items leave in the order the queue took
      them. */
  lemma LatestWins(capacity: nat, steps: seq<Step>)
    requires capacity > 0
    ensures var s := Run(capacity, steps);
            && Advancing(s.emitted)
            && (forall k :: k in s.latest ==> k in s.newest && s.latest[k] == s.newest[k])
            && s.wire <= s.accepted
  {
    SoundAlways(capacity, steps);
    var s := Run(capacity, steps);
    forall k | k in s.latest ensures k in s.newest && s.latest[k] == s.newest[k] { assert StoredOk(s, k); }
  }

  /** The value a wake resolves to is the last one put for its key. */
  lemma EmitsTheNewest(capacity: nat, steps: seq<Step>)
    requires capacity > 0
    ensures var s := Run(capacity, steps);
            var s' := DoResolve(s);
            s'.emitted != s.emitted ==>
              && s.hand.Some? && KeyOf(s.hand.value).Some? && KeyOf(s.hand.value).value in s.newest
              && s'.emitted == s.emitted + [s.newest[KeyOf(s.hand.value).value]]
  {
    SoundAlways(capacity, steps);
    var s := Run(capacity, steps);
    if s.hand.Some? && KeyOf(s.hand.value).Some? { assert StoredOk(s, KeyOf(s.hand.value).value); }
  }

  ghost predicate Quiet(s: State) {
    s.offering == map[] && s.queue == [] && s.hand.None?
  }

  /** Once everything has drained, the last value put for a key has been emitted exactly when
      no refusal stranded it: a refused wake is harmless if and only if another wake for its
      key was still on its way. */
  lemma DrainedUnlessStranded(capacity: nat, steps: seq<Step>, k: Key)
    requires capacity > 0 && Quiet(Run(capacity, steps)) && k in Run(capacity, steps).newest
    ensures var s := Run(capacity, steps);
            s.newest[k] in s.emitted <==> k !in s.stranded
  {
    SoundAlways(capacity, steps);
    var s := Run(capacity, steps);
    assert StoredOk(s, k) && NewestOk(s, k) && Woken(s, k) && Stuck(s, k);
    assert !HasWake(s, k);
    assert forall i :: 0 <= i < |s.emitted| && s.emitted[i] == s.newest[k] ==> WakeFor(s.emitted[i].item, k);
  }

  /** A full queue need not hold a wake for the key it refuses: with one uncoalesced item in
      a queue of one, a coalesced value is put, its wake is refused, the queue drains, and the
      value is never emitted. */
  lemma RefusedWakeStrandsItsValue(plain: Item, keyed: Item)
    requires KeyOf(plain).None? && KeyOf(keyed).Some?
    ensures var s := Run(1, [Offer(0, plain), TrySend(0), Offer(1, keyed), TrySend(1), Take, Resolve]);
            var k := KeyOf(keyed).value;
            Quiet(s) && k in s.newest && s.newest[k].item == keyed && s.emitted == [] && k in s.stranded
  {
    var steps := [Offer(0, plain), TrySend(0), Offer(1, keyed), TrySend(1), Take, Resolve];
    var k := KeyOf(keyed).value;
    var s2 := AfterTwo(plain, steps[..2]);
    assert steps[..4][..3][..2] == steps[..2] && steps[..3][..2] == steps[..2] && steps[..4][..3] == steps[..3];
    var s3 := DoOffer(s2, 1, keyed);
    assert Run(1, steps[..3]) == s3;
    var s4 := DoTrySend(1, s3, 1);
    assert steps[..4][..3] == steps[..3];
    assert Run(1, steps[..4]) == s4;
    assert s3.offering - {1} == map[];
    assert !HasWake(s3.(offering := s3.offering - {1}), k);
    assert s4.stranded == {k} && s4.queue == [plain] && s4.offering == map[] && s4.newest == map[k := Value(keyed, 1)];
    var s5 := DoTake(s4);
    assert steps[..5][..4] == steps[..4];
    assert Run(1, steps[..5]) == s5;
    assert s5.queue == [] && s5.hand == Some(plain);
    assert steps[..6] == steps && steps[..|steps| - 1] == steps[..5];
  }

  lemma AfterTwo(plain: Item, steps: seq<Step>) returns (s: State)
    requires KeyOf(plain).None? && steps == [Offer(0, plain), TrySend(0)]
    ensures s == Run(1, steps)
    ensures s == INITIAL.(queue := [plain], accepted := [plain], puts := 1)
  {
    assert steps[..1] == [Offer(0, plain)] && steps[..1][..0] == [];
    var s1 := DoOffer(INITIAL, 0, plain);
    assert Run(1, steps[..1]) == s1 by { assert Run(1, steps[..1][..0]) == INITIAL; }
    s := DoTrySend(1, s1, 0);
    assert s1.offering - {0} == map[];
  }

  // ---------------------------------------------------------------- who shares a slot

  /** The item is a coalescable value of this publisher in this room under this key. */
  predicate Names(item: Item, room: RoomId, publisher: PeerId, key: string) {
    && item.env.delivery == EphemeralLatest && item.env.coalesceKey == Some(key)
    && item.env.channel == room && item.env.from.0 == publisher
  }

  /** Two items share a slot exactly when both are latest-only, both carry a coalesce key, and
      room, publisher and key agree; whatever the link they came in on. Anything else has no
      slot at all. */
  lemma SharedSlot(a: Item, b: Item)
    ensures KeyOf(a).Some? && KeyOf(a) == KeyOf(b) <==>
              && a.env.delivery == EphemeralLatest && b.env.delivery == EphemeralLatest
              && a.env.coalesceKey.Some? && a.env.coalesceKey == b.env.coalesceKey
              && a.env.channel == b.env.channel && a.env.from.0 == b.env.from.0
    ensures KeyOf(a).None? <==> a.env.delivery != EphemeralLatest || a.env.coalesceKey.None?
    ensures forall room, publisher, key :: WakeFor(a, (room, publisher, key)) <==> Names(a, room, publisher, key)
  {
  }

  /** In every run an offer replaces the pending value of its own room, publisher and key, and
      leaves the pending value of every other one as it was. */
  lemma OfferLeavesOthers(capacity: nat, steps: seq<Step>, t: nat, item: Item, room: RoomId, publisher: PeerId, key: string)
    requires t !in Run(capacity, steps).offering
    ensures var s, s', k := Run(capacity, steps), Run(capacity, steps + [Offer(t, item)]), (room, publisher, key);
            if Names(item, room, publisher, key) then k in s'.latest && s'.latest[k].item == item
            else (k in s'.latest <==> k in s.latest) && (k in s.latest ==> s'.latest[k] == s.latest[k])
  {
    assert (steps + [Offer(t, item)])[..|steps|] == steps;
  }

  /** In every run a wake that emits anything emits a value of its own room, publisher and key. */
  lemma EmitsItsOwn(capacity: nat, steps: seq<Step>, room: RoomId, publisher: PeerId, key: string)
    requires capacity > 0
    ensures var s := Run(capacity, steps);
            var s' := DoResolve(s);
            s.hand.Some? && Names(s.hand.value, room, publisher, key) ==>
              || s'.emitted == s.emitted
              || (s'.emitted != [] && s'.emitted[..|s'.emitted| - 1] == s.emitted
                  && Names(s'.emitted[|s'.emitted| - 1].item, room, publisher, key))
  {
    SoundAlways(capacity, steps);
    var s, k := Run(capacity, steps), (room, publisher, key);
    assert StoredOk(s, k) && NewestOk(s, k);
    if s.hand.Some? && Names(s.hand.value, room, publisher, key) && k in s.latest {
      SharedSlot(s.latest[k].item, s.latest[k].item);
    }
  }

  /** The last step that offered a value of this room, publisher and key is step `i`. */
  ghost predicate LastOffer(capacity: nat, steps: seq<Step>, i: nat, room: RoomId, publisher: PeerId, key: string) {
    && i < |steps| && steps[i].Offer? && Names(steps[i].item, room, publisher, key)
    && steps[i].id !in Run(capacity, steps[..i]).offering
    && forall j :: i < j < |steps| && steps[j].Offer? ==> !Names(steps[j].item, room, publisher, key)
  }

  lemma {:induction false} NewestIsLastOffer(capacity: nat, steps: seq<Step>, i: nat, room: RoomId, publisher: PeerId, key: string)
    requires LastOffer(capacity, steps, i, room, publisher, key)
    ensures var s, k := Run(capacity, steps), (room, publisher, key);
            k in s.newest && s.newest[k].item == steps[i].item
  {
    var front, n := steps[..|steps| - 1], |steps| - 1;
    if i < n {
      assert front[..i] == steps[..i];
      NewestIsLastOffer(capacity, front, i, room, publisher, key);
      assert steps[n].Offer? ==> !Names(steps[n].item, room, publisher, key);
    }
  }

  /** Once everything has drained, the last value any publisher offered under any of its keys
      has gone out exactly when no refusal stranded it. */
  lemma LastOfferIsEmitted(capacity: nat, steps: seq<Step>, i: nat, room: RoomId, publisher: PeerId, key: string)
    requires capacity > 0 && Quiet(Run(capacity, steps)) && LastOffer(capacity, steps, i, room, publisher, key)
    ensures var s, k := Run(capacity, steps), (room, publisher, key);
            k in s.newest && s.newest[k].item == steps[i].item && (s.newest[k] in s.emitted <==> k !in s.stranded)
  {
    NewestIsLastOffer(capacity, steps, i, room, publisher, key);
    DrainedUnlessStranded(capacity, steps, (room, publisher, key));
  }

  lemma {:induction false} RoomyQueue(capacity: nat, steps: seq<Step>)
    requires |steps| <= capacity
    ensures var s := Run(capacity, steps);
            |s.queue| <= |steps| && s.stranded == {} && s.superseded == 0 && s.dropped == 0
  {
    if steps != [] { RoomyQueue(capacity, steps[..|steps| - 1]); }
  }

  /** Step `i` offered the item. */
  ghost predicate OfferedAt(capacity: nat, steps: seq<Step>, i: nat) {
    i < |steps| && steps[i].Offer? && steps[i].id !in Run(capacity, steps[..i]).offering
  }

  lemma {:induction false} UncoalescedIsTaken(capacity: nat, steps: seq<Step>, i: nat)
    requires |steps| <= capacity && OfferedAt(capacity, steps, i)
    requires steps[i].item.env.delivery != EphemeralLatest || steps[i].item.env.coalesceKey.None?
    ensures var s, item := Run(capacity, steps), steps[i].item;
            item in s.accepted || (steps[i].id in s.offering && s.offering[steps[i].id] == item)
  {
    var front, n := steps[..|steps| - 1], |steps| - 1;
    RoomyQueue(capacity, front);
    if i < n {
      assert front[..i] == steps[..i];
      UncoalescedIsTaken(capacity, front, i);
    }
  }

  /** With room for every wake nothing is lost: when all has drained, every uncoalesced item
      ever offered has gone out, and the last value of every room, publisher and key. */
  lemma NothingLostWithRoom(capacity: nat, steps: seq<Step>, i: nat)
    requires |steps| <= capacity && Quiet(Run(capacity, steps)) && OfferedAt(capacity, steps, i)
    ensures var s, item := Run(capacity, steps), steps[i].item;
            && s.superseded == 0 && s.dropped == 0
            && (item.env.delivery != EphemeralLatest || item.env.coalesceKey.None? ==> item in s.wire)
            && (item.env.coalesceKey.Some? && LastOffer(capacity, steps, i, item.env.channel, item.env.from.0, item.env.coalesceKey.value) ==>
                  exists j :: 0 <= j < |s.emitted| && s.emitted[j].item == item)
  {
    RoomyQueue(capacity, steps);
    SoundAlways(capacity, steps);
    var s, item := Run(capacity, steps), steps[i].item;
    assert InFlight(s) == [];
    if item.env.delivery != EphemeralLatest || item.env.coalesceKey.None? {
      UncoalescedIsTaken(capacity, steps, i);
    } else if LastOffer(capacity, steps, i, item.env.channel, item.env.from.0, item.env.coalesceKey.value) {
      LastOfferIsEmitted(capacity, steps, i, item.env.channel, item.env.from.0, item.env.coalesceKey.value);
      var k := (item.env.channel, item.env.from.0, item.env.coalesceKey.value);
      var j :| 0 <= j < |s.emitted| && s.emitted[j] == s.newest[k];
    }
  }

  /** A wake is refused exactly by a full queue, and counted by what was refused. */
  lemma RefusedIsCounted(capacity: nat, s: State, t: nat)
    requires t in s.offering
    ensures var s', item := DoTrySend(capacity, s, t), s.offering[t];
            var coalesced := item.env.delivery == EphemeralLatest && item.env.coalesceKey.Some?;
            && t !in s'.offering
            && s'.queue == s.queue + (if |s.queue| < capacity then [item] else [])
            && s'.superseded == s.superseded + (if |s.queue| >= capacity && coalesced then 1 else 0)
            && s'.dropped == s.dropped + (if |s.queue| >= capacity && !coalesced then 1 else 0)
  {
    assert s.queue + [] == s.queue;
  }

  // ---------------------------------------------------------------- the machine on the shared map

  ghost function ItemsOf(m: map<Key, Value>): map<Key, Item> {
    map k | k in m :: m[k].item
  }

  ghost function Items(values: seq<Value>): seq<Item> {
    seq(|values|, i requires 0 <= i < |values| => values[i].item)
  }

  /** The queue and the forwarder around one shared map. */
  class ForwardPath {
    const latest: ForwardLatest
    const capacity: nat
    var offering: map<nat, Item>
    var queue: seq<Item>
    var hand: Option<Item>
    var emitted: seq<Item>
    var wire: seq<Item>
    var superseded: nat
    var dropped: nat

    constructor (capacity: nat)
      ensures fresh(this) && fresh(latest) && this.capacity == capacity && Shows(INITIAL)
    {
      this.capacity := capacity;
      latest := new ForwardLatest();
      offering, queue, hand, emitted, wire, superseded, dropped := map[], [], None, [], [], 0, 0;
    }

    /** What the object holds is what the machine's state says. */
    ghost predicate Shows(s: State)
      reads this, latest
    {
      && latest.latest == ItemsOf(s.latest) && offering == s.offering && queue == s.queue && hand == s.hand
      && emitted == Items(s.emitted) && wire == s.wire && superseded == s.superseded && dropped == s.dropped
    }

    /** The router's half: the value is put first, then its wake is offered. */
    method Offer(t: nat, item: Item, ghost s: State)
      requires Shows(s)
      modifies this, latest
      ensures Shows(DoOffer(s, t, item))
    {
      if t in offering { return; }
      var key := ForwardKey(item.env);
      if key.Some? { latest.Put(key.value, item); }
      offering := offering[t := item];
    }

    method TrySend(t: nat, ghost s: State)
      requires Shows(s)
      modifies this
      ensures Shows(DoTrySend(capacity, s, t))
    {
      if t !in offering { return; }
      var item := offering[t];
      offering := offering - {t};
      if |queue| < capacity {
        queue := queue + [item];
      } else if KeyOf(item).Some? {
        superseded := superseded + 1;
      } else {
        dropped := dropped + 1;
      }
    }

    /** The forwarder's half: take a wake, then resolve it against the map. */
    method Take(ghost s: State)
      requires Shows(s)
      modifies this
      ensures Shows(DoTake(s))
    {
      if hand.None? && queue != [] { hand, queue := Some(queue[0]), queue[1..]; }
    }

    method Resolve(ghost s: State)
      requires Shows(s)
      modifies this, latest
      ensures Shows(DoResolve(s))
    {
      if hand.None? { return; }
      var item := hand.value;
      var r := latest.Resolve(item);
      hand := None;
      if KeyOf(item).None? {
        wire := wire + [item];
      } else if r.Some? {
        ItemsGrow(s.emitted, s.latest[KeyOf(item).value]);
        emitted := emitted + [r.value];
      }
    }
  }

  lemma ItemsGrow(values: seq<Value>, v: Value)
    ensures Items(values + [v]) == Items(values) + [v.item]
  {
  }

  /** Whatever the interleaving, the shared map driven by offers and the forwarder goes
      through the states of the machine: what the objects emit is what the theorems speak of. */
  method Drive(capacity: nat, steps: seq<Step>) returns (emitted: seq<Item>, wire: seq<Item>)
    ensures emitted == Items(Run(capacity, steps).emitted) && wire == Run(capacity, steps).wire
  {
    var path := new ForwardPath(capacity);
    ghost var s := INITIAL;
    for i := 0 to |steps|
      invariant fresh(path) && fresh(path.latest) && path.capacity == capacity
      invariant s == Run(capacity, steps[..i]) && path.Shows(s)
    {
      assert Run(capacity, steps[..i + 1]) == Apply(capacity, s, steps[i]) by { assert steps[..i + 1][..i] == steps[..i]; }
      match steps[i] {
        case Offer(t, item) => path.Offer(t, item, s);
        case TrySend(t) => path.TrySend(t, s);
        case Take => path.Take(s);
        case Resolve => path.Resolve(s);
      }
      s := Apply(capacity, s, steps[i]);
    }
    assert steps[..|steps|] == steps;
    emitted, wire := path.emitted, path.wire;
  }
}
