/** The bounded first-in first-out window of recently published event ids. */
module RecentIds {
  import opened Envelopes

  const RECENT_PUBLISH_IDS_CAPACITY: nat := 4096

  ghost predicate Distinct(order: seq<EventId>) {
    forall i, j :: 0 <= i < j < |order| ==> order[i] != order[j]
  }

  /** The window after recording `id`: unchanged when present, else `id` is the newest and a
      full window loses its oldest. */
  function Record(order: seq<EventId>, id: EventId, capacity: nat): seq<EventId> {
    if id in order then order
    else (if |order| == capacity && order != [] then order[1..] else order) + [id]
  }

  /** The window after forgetting `id`. */
  function Forget(order: seq<EventId>, id: EventId): seq<EventId> {
    if order == [] then []
    else if order[0] == id then Forget(order[1..], id)
    else [order[0]] + Forget(order[1..], id)
  }

  lemma {:induction false} ForgetMember(order: seq<EventId>, id: EventId)
    ensures forall x :: x in Forget(order, id) <==> x in order && x != id
    ensures |Forget(order, id)| <= |order|
    ensures Distinct(order) ==> Distinct(Forget(order, id))
    ensures id !in order ==> Forget(order, id) == order
  {
    if order != [] {
      var rest := order[1..];
      ForgetMember(rest, id);
      assert order == [order[0]] + rest;
      if Distinct(order) {
        assert forall k :: 0 <= k < |rest| ==> rest[k] == order[k + 1];
        assert order[0] !in rest;
        assert forall k :: 0 <= k < |Forget(rest, id)| ==> Forget(rest, id)[k] in rest;
      }
    }
  }

  lemma Regroup(a: seq<EventId>, b: seq<EventId>, c: seq<EventId>)
    ensures a + b + c == a + (b + c)
  {
  }

  lemma {:induction false} ForgetAppend(a: seq<EventId>, b: seq<EventId>, id: EventId)
    ensures Forget(a + b, id) == Forget(a, id) + Forget(b, id)
  {
    if a == [] {
      assert a + b == b;
    } else {
      ForgetAppend(a[1..], b, id);
      assert (a + b)[1..] == a[1..] + b && (a + b)[0] == a[0];
      if a[0] != id {
        Regroup([a[0]], Forget(a[1..], id), Forget(b, id));
      }
    }
  }

  /** Marking a new id and then unmarking it, as a rejected publish does, restores the
      window exactly when the window was not full; a full window has lost its oldest id. */
  lemma UnmarkRestores(order: seq<EventId>, id: EventId, capacity: nat)
    requires id !in order && capacity > 0 && |order| <= capacity
    ensures Forget(Record(order, id, capacity), id) == if |order| < capacity then order else order[1..]
    ensures Forget(Record(order, id, capacity), id) == order <==> |order| < capacity
  {
    var kept := if |order| == capacity then order[1..] else order;
    ForgetAppend(kept, [id], id);
    ForgetMember(kept, id);
    assert Forget([id], id) == [];
  }

  function RecordAll(ids: seq<EventId>, capacity: nat): seq<EventId> {
    if ids == [] then [] else Record(RecordAll(ids[..|ids| - 1], capacity), ids[|ids| - 1], capacity)
  }

  /** After any number of different ids the window is the newest of them, as many as it holds. */
  lemma {:induction false} WindowIsNewest(ids: seq<EventId>, capacity: nat)
    requires capacity > 0 && Distinct(ids)
    ensures RecordAll(ids, capacity) == if |ids| <= capacity then ids else ids[|ids| - capacity..]
  {
    if ids != [] {
      var front, last := ids[..|ids| - 1], ids[|ids| - 1];
      WindowIsNewest(front, capacity);
      RecordNewest(front, last, capacity);
      assert ids == front + [last];
    }
  }

  lemma RecordNewest(front: seq<EventId>, last: EventId, capacity: nat)
    requires capacity > 0 && Distinct(front + [last])
    ensures var w, ids := (if |front| <= capacity then front else front[|front| - capacity..]), front + [last];
            Record(w, last, capacity) == if |ids| <= capacity then ids else ids[|ids| - capacity..]
  {
    var ids := front + [last];
    assert forall i :: 0 <= i < |front| ==> front[i] == ids[i] && ids[i] != ids[|front|];
  }

  class RecentEventIds {
    var order: seq<EventId>
    var seen: set<EventId>
    const capacity: nat

    ghost predicate Valid()
      reads this
    {
      && capacity > 0 && |order| <= capacity
      && Distinct(order)
      && (forall id :: id in seen <==> id in order)
    }

    constructor (capacity: nat)
      requires capacity > 0
      ensures Valid() && order == [] && this.capacity == capacity
    {
      order, seen := [], {};
      this.capacity := capacity;
    }

    /** Record `id`; true exactly when it was not in the window. */
    method Insert(id: EventId) returns (isNew: bool)
      requires Valid()
      modifies this
      ensures Valid()
      ensures isNew <==> id !in old(order)
      ensures order == Record(old(order), id, capacity)
      ensures isNew ==> order == (if |old(order)| == capacity then old(order)[1..] else old(order)) + [id]
      ensures !isNew ==> order == old(order)
    {
      if id in seen { return false; }
      seen := seen + {id};
      if |order| == capacity {
        seen := seen - {order[0]};
        order := order[1..];
        assert old(order) == [old(order)[0]] + order;
      }
      order := order + [id];
      isNew := true;
    }

    method Remove(id: EventId)
      requires Valid()
      modifies this
      ensures Valid() && order == Forget(old(order), id)
      ensures forall x :: x in order <==> x in old(order) && x != id
    {
      ForgetMember(order, id);
      if id in seen {
        seen := seen - {id};
        order := Forget(order, id);
      }
    }
  }
}
