/** Generational sequence numbers: a persisted epoch bumped once per daemon start and an
    in-memory 64-bit counter. */
module SeqSources {
  import opened Envelopes

  const U64: nat := 0x1_0000_0000_0000_0000

  /** The persisted home of the epoch; it outlives every daemon. */
  class EpochStore {
    var epoch: nat

    constructor ()
      ensures epoch == 0
    {
      epoch := 0;
    }

    method BumpAndLoad() returns (now: nat)
      modifies this
      ensures epoch == old(epoch) + 1 && now == epoch
    {
      epoch := epoch + 1;
      now := epoch;
    }
  }

  /** The numbers of one daemon lifetime. The counter wraps at 64 bits. */
  class SeqSource {
    const epoch: nat
    var counter: nat

    constructor Start(epoch: nat, startCounter: nat)
      requires startCounter < U64
      ensures this.epoch == epoch && counter == startCounter
    {
      this.epoch := epoch;
      counter := startCounter;
    }

    method Next() returns (stamp: Seq)
      requires counter < U64
      modifies this
      ensures stamp == Seq(epoch, old(counter)) && counter == (old(counter) + 1) % U64
    {
      stamp := Seq(epoch, counter);
      counter := (counter + 1) % U64;
    }
  }

  /** One daemon lifetime: the counter seed and how many numbers it issues. */
  datatype Lifetime = Lifetime(seed: nat, issues: nat)

  function IssuedBy(epoch: nat, life: Lifetime): seq<Seq> {
    seq(life.issues, k => Seq(epoch, (life.seed + k) % U64))
  }

  /** Everything issued by successive daemons over one epoch store. */
  function Issued(epoch: nat, lives: seq<Lifetime>): seq<Seq>
    decreases |lives|
  {
    if lives == [] then [] else IssuedBy(epoch + 1, lives[0]) + Issued(epoch + 1, lives[1..])
  }

  ghost predicate Increasing(s: seq<Seq>) {
    forall i, j :: 0 <= i < j < |s| ==> s[i].Less(s[j])
  }

  /** Run the daemons in turn, each drawing its numbers one call at a time. */
  method RunLifetimes(store: EpochStore, lives: seq<Lifetime>) returns (out: seq<Seq>)
    requires forall i :: 0 <= i < |lives| ==> lives[i].seed < U64
    modifies store
    ensures out == Issued(old(store.epoch), lives) && store.epoch == old(store.epoch) + |lives|
  {
    out := [];
    for i := 0 to |lives|
      invariant store.epoch == old(store.epoch) + i
      invariant out + Issued(store.epoch, lives[i..]) == Issued(old(store.epoch), lives)
    {
      IssuedNext(store.epoch, lives, i, out);
      var epoch := store.BumpAndLoad();
      var mine := RunOne(epoch, lives[i]);
      out := out + mine;
    }
    assert lives[|lives|..] == [];
  }

  lemma IssuedNext(epoch: nat, lives: seq<Lifetime>, i: nat, out: seq<Seq>)
    requires i < |lives|
    ensures out + IssuedBy(epoch + 1, lives[i]) + Issued(epoch + 1, lives[i + 1..]) == out + Issued(epoch, lives[i..])
  {
    assert lives[i..][1..] == lives[i + 1..] && lives[i..][0] == lives[i];
  }

  /** One daemon draws its numbers from a new source. */
  method RunOne(epoch: nat, life: Lifetime) returns (mine: seq<Seq>)
    requires life.seed < U64
    ensures mine == IssuedBy(epoch, life)
  {
    var source := new SeqSource.Start(epoch, life.seed);
    mine := [];
    for k := 0 to life.issues
      invariant source.epoch == epoch && source.counter == (life.seed + k) % U64
      invariant mine == IssuedBy(epoch, life)[..k]
    {
      var stamp := source.Next();
      mine := mine + [stamp];
      StepCounter(life.seed + k);
    }
  }

  lemma StepCounter(n: nat)
    ensures (n % U64 + 1) % U64 == (n + 1) % U64
  {
  }

  /** Whatever the seeds, a later daemon's numbers exceed every number issued before it. */
  lemma {:induction false} LaterDaemonsExceed(epoch: nat, lives: seq<Lifetime>)
    ensures forall x :: x in Issued(epoch, lives) ==> x.epoch > epoch
    decreases |lives|
  {
    if lives != [] {
      LaterDaemonsExceed(epoch + 1, lives[1..]);
    }
  }

  lemma OneLifetime(epoch: nat, life: Lifetime)
    requires life.seed < U64
    ensures Increasing(IssuedBy(epoch, life)) <==> life.seed + life.issues <= U64 || life.issues == 0
  {
    var s := IssuedBy(epoch, life);
    if life.seed + life.issues <= U64 {
      forall i, j | 0 <= i < j < |s| ensures s[i].Less(s[j]) {
        assert (life.seed + i) % U64 == life.seed + i && (life.seed + j) % U64 == life.seed + j;
      }
    } else if life.issues > 0 {
      var k := U64 - life.seed;
      assert s[k] == Seq(epoch, U64 % U64) && s[k - 1] == Seq(epoch, U64 - 1);
      assert !s[k - 1].Less(s[k]);
    }
  }

  lemma IncreasingParts(a: seq<Seq>, b: seq<Seq>)
    requires forall x, y :: x in a && y in b ==> x.Less(y)
    ensures Increasing(a + b) <==> Increasing(a) && Increasing(b)
  {
    var s := a + b;
    assert forall i :: 0 <= i < |a| ==> s[i] == a[i];
    assert forall j :: 0 <= j < |b| ==> s[|a| + j] == b[j];
    if Increasing(s) {
      forall i, j | 0 <= i < j < |b| ensures b[i].Less(b[j]) { assert s[|a| + i].Less(s[|a| + j]); }
    }
    if Increasing(a) && Increasing(b) {
      forall i, j | 0 <= i < j < |s| ensures s[i].Less(s[j]) {
        if i >= |a| { assert b[i - |a|].Less(b[j - |a|]); }
        else if j >= |a| { assert a[i] in a && b[j - |a|] in b; }
      }
    }
  }

  /** Over any sequence of daemon starts with any seeds, the numbers issued strictly increase,
      and so never repeat, exactly when no single daemon runs its counter past 64 bits. */
  lemma {:induction false} GenerationalOrder(epoch: nat, lives: seq<Lifetime>)
    requires forall i :: 0 <= i < |lives| ==> lives[i].seed < U64
    ensures Increasing(Issued(epoch, lives))
            <==> forall i :: 0 <= i < |lives| ==> lives[i].seed + lives[i].issues <= U64 || lives[i].issues == 0
    decreases |lives|
  {
    if lives != [] {
      var rest := lives[1..];
      GenerationalOrder(epoch + 1, rest);
      OneLifetime(epoch + 1, lives[0]);
      LaterDaemonsExceed(epoch + 1, rest);
      forall x, y | x in IssuedBy(epoch + 1, lives[0]) && y in Issued(epoch + 1, rest) ensures x.Less(y) {
      }
      IncreasingParts(IssuedBy(epoch + 1, lives[0]), Issued(epoch + 1, rest));
      assert forall i :: 0 < i < |lives| ==> lives[i] == rest[i - 1];
      assert forall i :: 0 <= i < |rest| ==> rest[i] == lives[i + 1];
    }
  }

  /** Cursors are strictly and totally ordered: by epoch, then counter, then event id. */
  lemma CursorsAreTotallyOrdered(a: Cursor, b: Cursor, c: Cursor)
    ensures !a.IsBefore(a)
    ensures a.IsBefore(b) ==> !b.IsBefore(a)
    ensures a != b ==> a.IsBefore(b) || b.IsBefore(a)
    ensures a.IsBefore(b) && b.IsBefore(c) ==> a.IsBefore(c)
    ensures a.stamp.Less(b.stamp) ==> a.IsBefore(b)
    ensures a.IsBefore(b) <==> b.IsAfter(a)
    ensures a.IsBefore(b) <==>
              || a.stamp.epoch < b.stamp.epoch
              || (a.stamp.epoch == b.stamp.epoch && a.stamp.counter < b.stamp.counter)
              || (a.stamp == b.stamp && a.eventId < b.eventId)
  {
  }

  /** Whatever the event ids, an event stamped later has the later cursor, restarts included. */
  lemma LaterStampsFollow(epoch: nat, lives: seq<Lifetime>, i: nat, j: nat, x: EventId, y: EventId)
    requires forall n :: 0 <= n < |lives| ==> lives[n].seed + lives[n].issues <= U64 && lives[n].seed < U64
    requires i < j < |Issued(epoch, lives)|
    ensures CursorAt(Issued(epoch, lives)[i], x).IsBefore(CursorAt(Issued(epoch, lives)[j], y))
  {
    GenerationalOrder(epoch, lives);
  }
}
