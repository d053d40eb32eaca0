/** The value types every part of the bus shares: optional values, the total order on
    events, and the envelope itself. Strings are sequences of UTF-8 code units, so their
    length is a byte count. */
module Options {
  datatype Option<+T> = None | Some(value: T)
}

module Envelopes {
  import opened Options

  type EventId = nat
  type RoomId = nat
  type PeerId = nat
  type ClientId = nat
  type Headers = map<string, string>

  /** Owner-assigned order: the epoch dominates, then the counter. */
  datatype Seq = Seq(epoch: nat, counter: nat) {
    predicate Less(other: Seq) {
      epoch < other.epoch || (epoch == other.epoch && counter < other.counter)
    }
  }

  /** A replay position: the sequence number first, the event id as tiebreaker. */
  datatype Cursor = CursorAt(stamp: Seq, eventId: EventId) {
    predicate IsBefore(other: Cursor) {
      if stamp.Less(other.stamp) then true
      else if other.stamp.Less(stamp) then false
      else eventId < other.eventId
    }

    predicate IsAfter(gate: Cursor) {
      gate.IsBefore(this)
    }
  }

  datatype Kind = Message | Event | Command | CommandResult | Signal | StreamChunkKind | Control

  datatype DeliveryClass = Durable | EphemeralLatest | EphemeralWindow | RequestResponse | StreamChunk

  datatype Envelope = Envelope(
    eventId: EventId,
    channel: RoomId,
    from: (PeerId, ClientId),
    kind: Kind,
    delivery: DeliveryClass,
    stamp: Seq,
    occurredAtMs: nat,
    coalesceKey: Option<string>,
    headers: Headers,
    payload: seq<bv8>)
  {
    function Cursor(): Cursor {
      CursorAt(stamp, eventId)
    }
  }

  /** Strictly increasing by cursor, hence without repeats. */
  ghost predicate Sorted(s: seq<Envelope>) {
    forall i, j :: 0 <= i < j < |s| ==> s[i].Cursor().IsBefore(s[j].Cursor())
  }

  /** No event id occurs twice. */
  ghost predicate DistinctIds(s: seq<Envelope>) {
    forall i, j :: 0 <= i < j < |s| ==> s[i].eventId != s[j].eventId
  }
}
