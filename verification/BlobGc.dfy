/** Garbage collection of the blob store: delete by age, then oldest first until under the
    cap. The file system is a list of scanned blobs and an outcome for each delete. */
module BlobGc {
  import opened Options

  datatype Blob = Blob(path: nat, size: nat, mtime: int)
  datatype Policy = Policy(maxAge: Option<nat>, maxBytes: Option<nat>)
  datatype Report = Report(scanned: nat, deleted: nat, bytesFreed: nat, bytesRemaining: nat)

  /** How deleting one file went; a file that is already gone counts as success. */
  datatype Deletion = Removed | AlreadyGone | Refused
  type Outcomes = Blob -> Deletion

  const EARLIEST: int := -0x8000_0000_0000_0000

  /** The age cutoff; the epoch when the subtraction cannot be represented. */
  function Cutoff(now: int, maxAge: nat): int {
    if now - maxAge >= EARLIEST then now - maxAge else 0
  }

  function Bytes(blobs: seq<Blob>): nat {
    if blobs == [] then 0 else Bytes(blobs[..|blobs| - 1]) + blobs[|blobs| - 1].size
  }

  lemma {:induction false} BytesAppend(a: seq<Blob>, b: seq<Blob>)
    ensures Bytes(a + b) == Bytes(a) + Bytes(b)
    decreases |b|
  {
    if b == [] {
      assert a + b == a;
    } else {
      BytesAppend(a, b[..|b| - 1]);
      assert (a + b)[..|a + b| - 1] == a + b[..|b| - 1];
    }
  }

  /** The bytes of blobs whose delete had the given outcome. */
  function BytesOf(blobs: seq<Blob>, outcomes: Outcomes, d: Deletion): nat {
    if blobs == [] then 0
    else
      var last := blobs[|blobs| - 1];
      BytesOf(blobs[..|blobs| - 1], outcomes, d) + if outcomes(last) == d then last.size else 0
  }

  function CountRemoved(blobs: seq<Blob>, outcomes: Outcomes): nat {
    if blobs == [] then 0
    else CountRemoved(blobs[..|blobs| - 1], outcomes) + if outcomes(blobs[|blobs| - 1]).Removed? then 1 else 0
  }

  /** The report after deleting a list of blobs. */
  function Tally(start: Report, tried: seq<Blob>, outcomes: Outcomes): Report {
    start.(deleted := start.deleted + CountRemoved(tried, outcomes), bytesFreed := start.bytesFreed + BytesOf(tried, outcomes, Removed))
  }

  lemma {:induction false} BytesByOutcome(blobs: seq<Blob>, outcomes: Outcomes)
    ensures Bytes(blobs) == BytesOf(blobs, outcomes, Removed) + BytesOf(blobs, outcomes, AlreadyGone) + BytesOf(blobs, outcomes, Refused)
  {
    if blobs != [] { BytesByOutcome(blobs[..|blobs| - 1], outcomes); }
  }

  // ---------------------------------------------------------------- the age phase

  predicate TooOld(b: Blob, cutoff: int) {
    b.mtime < cutoff
  }

  /** The blobs an age phase tries to delete, and the blobs it leaves on the list. */
  function Aged(blobs: seq<Blob>, cutoff: int): seq<Blob> {
    if blobs == [] then []
    else
      var rest, last := Aged(blobs[..|blobs| - 1], cutoff), blobs[|blobs| - 1];
      if TooOld(last, cutoff) then rest + [last] else rest
  }

  function KeptByAge(blobs: seq<Blob>, cutoff: int, outcomes: Outcomes): seq<Blob> {
    if blobs == [] then []
    else
      var rest, last := KeptByAge(blobs[..|blobs| - 1], cutoff, outcomes), blobs[|blobs| - 1];
      if TooOld(last, cutoff) && !outcomes(last).Refused? then rest else rest + [last]
  }

  lemma {:induction false} AgeConserves(blobs: seq<Blob>, cutoff: int, outcomes: Outcomes)
    ensures Bytes(KeptByAge(blobs, cutoff, outcomes)) + BytesOf(Aged(blobs, cutoff), outcomes, Removed)
            + BytesOf(Aged(blobs, cutoff), outcomes, AlreadyGone) == Bytes(blobs)
  {
    if blobs != [] {
      var front, last := blobs[..|blobs| - 1], blobs[|blobs| - 1];
      AgeConserves(front, cutoff, outcomes);
      BytesAppend(KeptByAge(front, cutoff, outcomes), [last]);
      assert (Aged(front, cutoff) + [last])[..|Aged(front, cutoff)|] == Aged(front, cutoff);
      assert Bytes([last]) == last.size;
    }
  }

  lemma {:induction false} AgedMembers(blobs: seq<Blob>, cutoff: int)
    ensures forall b :: b in Aged(blobs, cutoff) <==> b in blobs && TooOld(b, cutoff)
  {
    if blobs != [] {
      var front, last := blobs[..|blobs| - 1], blobs[|blobs| - 1];
      AgedMembers(front, cutoff);
      assert blobs == front + [last];
    }
  }

  lemma {:induction false} AgeCounts(blobs: seq<Blob>, cutoff: int, outcomes: Outcomes, b: Blob)
    ensures multiset(Aged(blobs, cutoff))[b] == if TooOld(b, cutoff) then multiset(blobs)[b] else 0
    ensures multiset(KeptByAge(blobs, cutoff, outcomes))[b] == if TooOld(b, cutoff) && !outcomes(b).Refused? then 0 else multiset(blobs)[b]
  {
    if blobs != [] {
      var front, last := blobs[..|blobs| - 1], blobs[|blobs| - 1];
      AgeCounts(front, cutoff, outcomes, b);
      assert multiset(blobs) == multiset(front) + multiset{last} by { assert blobs == front + [last]; }
    }
  }

  lemma {:induction false} AgeKeeps(blobs: seq<Blob>, cutoff: int, outcomes: Outcomes)
    ensures forall b :: b in KeptByAge(blobs, cutoff, outcomes)
              <==> b in blobs && (TooOld(b, cutoff) ==> outcomes(b).Refused?)
  {
    if blobs != [] {
      var front, last := blobs[..|blobs| - 1], blobs[|blobs| - 1];
      AgeKeeps(front, cutoff, outcomes);
      assert blobs == front + [last];
    }
  }

  // ---------------------------------------------------------------- the capacity phase

  /** A stable sort by modification time. */
  function InsertByMtime(sorted: seq<Blob>, b: Blob): seq<Blob> {
    if sorted == [] || sorted[|sorted| - 1].mtime <= b.mtime then sorted + [b]
    else InsertByMtime(sorted[..|sorted| - 1], b) + [sorted[|sorted| - 1]]
  }

  function SortByMtime(blobs: seq<Blob>): seq<Blob> {
    if blobs == [] then [] else InsertByMtime(SortByMtime(blobs[..|blobs| - 1]), blobs[|blobs| - 1])
  }

  ghost predicate OldestFirst(s: seq<Blob>) {
    forall i, j :: 0 <= i < j < |s| ==> s[i].mtime <= s[j].mtime
  }

  lemma {:induction false} InsertMembers(sorted: seq<Blob>, b: Blob)
    ensures forall x :: x in InsertByMtime(sorted, b) <==> x in sorted || x == b
  {
    if sorted != [] && sorted[|sorted| - 1].mtime > b.mtime {
      var front, last := sorted[..|sorted| - 1], sorted[|sorted| - 1];
      InsertMembers(front, b);
      assert sorted == front + [last];
    }
  }

  lemma {:induction false} InsertBytes(sorted: seq<Blob>, b: Blob)
    ensures Bytes(InsertByMtime(sorted, b)) == Bytes(sorted) + b.size
  {
    assert Bytes([b]) == b.size;
    if sorted != [] && sorted[|sorted| - 1].mtime > b.mtime {
      var front, last := sorted[..|sorted| - 1], sorted[|sorted| - 1];
      InsertBytes(front, b);
      BytesAppend(InsertByMtime(front, b), [last]);
      assert Bytes([last]) == last.size;
    } else {
      BytesAppend(sorted, [b]);
    }
  }

  lemma {:induction false} InsertOrders(sorted: seq<Blob>, b: Blob)
    requires OldestFirst(sorted)
    ensures OldestFirst(InsertByMtime(sorted, b))
  {
    if sorted != [] && sorted[|sorted| - 1].mtime > b.mtime {
      var front, last := sorted[..|sorted| - 1], sorted[|sorted| - 1];
      InsertOrders(front, b);
      InsertMembers(front, b);
      var r := InsertByMtime(front, b);
      forall i | 0 <= i < |r| ensures r[i].mtime <= last.mtime {
        assert r[i] in r;
        if r[i] != b {
          var j :| 0 <= j < |front| && front[j] == r[i];
          assert sorted[j].mtime <= sorted[|sorted| - 1].mtime;
        }
      }
    }
  }

  lemma {:induction false} SortMembers(blobs: seq<Blob>)
    ensures forall b :: b in SortByMtime(blobs) <==> b in blobs
  {
    if blobs != [] {
      var front, last := blobs[..|blobs| - 1], blobs[|blobs| - 1];
      SortMembers(front);
      InsertMembers(SortByMtime(front), last);
      assert blobs == front + [last];
    }
  }

  lemma {:induction false} SortOrders(blobs: seq<Blob>)
    ensures OldestFirst(SortByMtime(blobs))
  {
    if blobs != [] {
      SortOrders(blobs[..|blobs| - 1]);
      InsertOrders(SortByMtime(blobs[..|blobs| - 1]), blobs[|blobs| - 1]);
    }
  }

  lemma {:induction false} SortBytes(blobs: seq<Blob>)
    ensures Bytes(SortByMtime(blobs)) == Bytes(blobs)
  {
    if blobs != [] {
      SortBytes(blobs[..|blobs| - 1]);
      InsertBytes(SortByMtime(blobs[..|blobs| - 1]), blobs[|blobs| - 1]);
    }
  }

  lemma SortKeeps(blobs: seq<Blob>)
    ensures OldestFirst(SortByMtime(blobs)) && Bytes(SortByMtime(blobs)) == Bytes(blobs)
    ensures forall b :: b in SortByMtime(blobs) <==> b in blobs
  {
    SortMembers(blobs);
    SortOrders(blobs);
    SortBytes(blobs);
  }

  /** Sorting is a permutation. */
  lemma {:induction false} SortPermutes(blobs: seq<Blob>)
    ensures multiset(SortByMtime(blobs)) == multiset(blobs)
  {
    if blobs != [] {
      var front, last := blobs[..|blobs| - 1], blobs[|blobs| - 1];
      SortPermutes(front);
      InsertPermutes(SortByMtime(front), last);
      assert multiset(blobs) == multiset(front) + multiset{last} by { assert blobs == front + [last]; }
    }
  }

  lemma {:induction false} InsertPermutes(sorted: seq<Blob>, b: Blob)
    ensures multiset(InsertByMtime(sorted, b)) == multiset(sorted) + multiset{b}
  {
    if sorted != [] && sorted[|sorted| - 1].mtime > b.mtime {
      InsertPermutes(sorted[..|sorted| - 1], b);
      assert sorted == sorted[..|sorted| - 1] + [sorted[|sorted| - 1]];
    }
  }

  /** What is left after the first `k` deletes of the list. */
  function LeftAfter(list: seq<Blob>, outcomes: Outcomes, k: nat): int
    requires k <= |list|
  {
    Bytes(list) - BytesOf(list[..k], outcomes, Removed) - BytesOf(list[..k], outcomes, AlreadyGone)
  }

  /** The capacity phase stops exactly here: every earlier delete was still needed, and either
      the cap is met or the list is used up. */
  ghost predicate StopsAt(list: seq<Blob>, outcomes: Outcomes, cap: nat, k: nat) {
    && k <= |list|
    && (forall i :: 0 <= i < k ==> LeftAfter(list, outcomes, i) > cap)
    && (LeftAfter(list, outcomes, k) <= cap || k == |list|)
  }

  lemma LeftAfterStep(list: seq<Blob>, outcomes: Outcomes, k: nat)
    requires k < |list|
    ensures LeftAfter(list, outcomes, k + 1) == LeftAfter(list, outcomes, k) - if outcomes(list[k]).Refused? then 0 else list[k].size
    ensures LeftAfter(list, outcomes, k) >= list[k].size
  {
    assert list[..k + 1][..k] == list[..k];
    assert list == list[..k] + [list[k]] + list[k + 1..];
    BytesAppend(list[..k], [list[k]]);
    BytesAppend(list[..k] + [list[k]], list[k + 1..]);
    BytesByOutcome(list[..k], outcomes);
  }

  // ---------------------------------------------------------------- the run

  function SaturatingSub(a: nat, b: nat): nat {
    if a >= b then a - b else 0
  }

  /** One delete: the bytes of a removed file are counted as freed. */
  method DeleteOne(b: Blob, outcomes: Outcomes, report: Report) returns (ok: bool, r: Report)
    ensures ok <==> !outcomes(b).Refused?
    ensures r == if outcomes(b).Removed? then report.(deleted := report.deleted + 1, bytesFreed := report.bytesFreed + b.size) else report
  {
    match outcomes(b)
    case Removed => ok, r := true, report.(deleted := report.deleted + 1, bytesFreed := report.bytesFreed + b.size);
    case AlreadyGone => ok, r := true, report;
    case Refused => ok, r := false, report;
  }

  method AgePhase(blobs: seq<Blob>, cutoff: int, outcomes: Outcomes, start: Report) returns (kept: seq<Blob>, report: Report)
    ensures kept == KeptByAge(blobs, cutoff, outcomes)
    ensures report == Tally(start, Aged(blobs, cutoff), outcomes)
  {
    kept, report := [], start;
    for i := 0 to |blobs|
      invariant kept == KeptByAge(blobs[..i], cutoff, outcomes)
      invariant report == Tally(start, Aged(blobs[..i], cutoff), outcomes)
    {
      var gone := false;
      assert blobs[..i + 1][..i] == blobs[..i];
      ghost var tried := Aged(blobs[..i], cutoff);
      assert (tried + [blobs[i]])[..|tried|] == tried;
      if TooOld(blobs[i], cutoff) { gone, report := DeleteOne(blobs[i], outcomes, report); }
      if !gone { kept := kept + [blobs[i]]; }
    }
    assert blobs[..|blobs|] == blobs;
  }

  method CapacityPhase(list: seq<Blob>, cap: nat, outcomes: Outcomes, start: Report) returns (remaining: nat, report: Report, ghost k: nat)
    ensures StopsAt(list, outcomes, cap, k) && remaining == LeftAfter(list, outcomes, k)
    ensures report == Tally(start, list[..k], outcomes)
    ensures Bytes(list) <= cap ==> report == start && remaining == Bytes(list)
    ensures remaining + report.bytesFreed <= Bytes(list) + start.bytesFreed
  {
    report := start;
    remaining := Bytes(list);
    k := 0;
    assert list[..0] == [];
    var i := 0;
    while i < |list| && remaining > cap
      invariant 0 <= i == k <= |list| && remaining == LeftAfter(list, outcomes, i)
      invariant forall j :: 0 <= j < i ==> LeftAfter(list, outcomes, j) > cap
      invariant report == Tally(start, list[..i], outcomes)
    {
      LeftAfterStep(list, outcomes, i);
      assert list[..i + 1][..i] == list[..i];
      var ok;
      ok, report := DeleteOne(list[i], outcomes, report);
      if ok { remaining := SaturatingSub(remaining, list[i].size); }
      i := i + 1;
      k := k + 1;
    }
  }

  /** The first `k` are in age order and none of the rest is older than any of them. */
  ghost predicate TriedOldestFirst(list: seq<Blob>, k: nat) {
    && k <= |list| && OldestFirst(list[..k])
    && (forall i, j :: 0 <= i < k <= j < |list| ==> list[i].mtime <= list[j].mtime)
  }

  /** The age phase of a run. A blob is tried if and only if it is more than the maximum age
      older than now; when the clock cannot be set back that far, if and only if it was modified
      before the epoch. Every copy of it is tried, and stays on the list only if refused. */
  method DeleteAged(blobs: seq<Blob>, maxAge: Option<nat>, now: int, outcomes: Outcomes, start: Report)
    returns (kept: seq<Blob>, report: Report, ghost aged: seq<Blob>)
    ensures maxAge.None? ==> aged == [] && kept == blobs
    ensures maxAge.Some? && now - maxAge.value >= EARLIEST ==>
              forall b :: b in aged <==> b in blobs && now - b.mtime > maxAge.value
    ensures maxAge.Some? && now - maxAge.value < EARLIEST ==> forall b :: b in aged <==> b in blobs && b.mtime < 0
    ensures EachTried(blobs, aged, kept, outcomes)
    ensures report == Tally(start, aged, outcomes)
    ensures Bytes(kept) + BytesOf(aged, outcomes, Removed) + BytesOf(aged, outcomes, AlreadyGone) == Bytes(blobs)
  {
    if maxAge.None? { return blobs, start, []; }
    var cutoff := Cutoff(now, maxAge.value);
    AgeConserves(blobs, cutoff, outcomes);
    AgeKeeps(blobs, cutoff, outcomes);
    AgedMembers(blobs, cutoff);
    aged := Aged(blobs, cutoff);
    kept, report := AgePhase(blobs, cutoff, outcomes, start);
    forall b: Blob ensures multiset(aged)[b] == (if b in aged then multiset(blobs)[b] else 0)
                     && multiset(kept)[b] == if b in aged && !outcomes(b).Refused? then 0 else multiset(blobs)[b] {
      AgeCounts(blobs, cutoff, outcomes, b);
    }
  }

  /** Copy for copy: what was tried, and what is left once the deleted are gone. */
  ghost predicate EachTried(blobs: seq<Blob>, aged: seq<Blob>, kept: seq<Blob>, outcomes: Outcomes) {
    forall b :: multiset(aged)[b] == (if b in aged then multiset(blobs)[b] else 0)
             && multiset(kept)[b] == if b in aged && !outcomes(b).Refused? then 0 else multiset(blobs)[b]
  }

  /** The capacity phase of a run: oldest first, until within the cap. */
  method DeleteOldest(kept: seq<Blob>, maxBytes: Option<nat>, outcomes: Outcomes, start: Report)
    returns (report: Report, ghost list: seq<Blob>, ghost k: nat)
    ensures multiset(list) == multiset(kept)
    ensures maxBytes.Some? ==> StopsAt(list, outcomes, maxBytes.value, k) && TriedOldestFirst(list, k)
    ensures maxBytes.None? ==> k == 0
    ensures k <= |list| && Bytes(list) == Bytes(kept) && report == Tally(start, list[..k], outcomes).(bytesRemaining := report.bytesRemaining)
    ensures report.bytesRemaining == LeftAfter(list, outcomes, k)
  {
    list, k, report := kept, 0, start;
    assert kept[..0] == [];
    var total := Bytes(kept);
    if maxBytes.None? || total <= maxBytes.value {
      report := report.(bytesRemaining := total);
    } else {
      SortKeeps(kept);
      SortPermutes(kept);
      var sorted := SortByMtime(kept);
      var remaining;
      remaining, report, k := CapacityPhase(sorted, maxBytes.value, outcomes, report);
      list := sorted;
      report := report.(bytesRemaining := remaining);
    }
  }

  /** A whole run over a scanned store: the blobs too old are tried first, then, of the list the
      age phase left, the first `k`, oldest first. */
  method Run(blobs: seq<Blob>, policy: Policy, now: int, byAge: Outcomes, byCap: Outcomes)
    returns (report: Report, ghost aged: seq<Blob>, ghost list: seq<Blob>, ghost k: nat)
    ensures report.scanned == |blobs|
    ensures policy.maxAge.None? ==> aged == []
    ensures policy.maxAge.Some? && now - policy.maxAge.value >= EARLIEST ==>
              forall b :: b in aged <==> b in blobs && now - b.mtime > policy.maxAge.value
    ensures policy.maxAge.Some? && now - policy.maxAge.value < EARLIEST ==>
              forall b :: b in aged <==> b in blobs && b.mtime < 0
    ensures EachTried(blobs, aged, list, byAge)
    ensures policy.maxBytes.Some? ==> StopsAt(list, byCap, policy.maxBytes.value, k) && TriedOldestFirst(list, k)
    ensures policy.maxBytes.None? ==> k == 0
    ensures k <= |list| && report.bytesRemaining == LeftAfter(list, byCap, k)
    ensures report.deleted == CountRemoved(aged, byAge) + CountRemoved(list[..k], byCap)
    // freed, remaining and already-gone bytes are the scanned bytes
    ensures report.bytesFreed + report.bytesRemaining
            + BytesOf(aged, byAge, AlreadyGone) + BytesOf(list[..k], byCap, AlreadyGone) == Bytes(blobs)
  {
    var kept;
    kept, report, aged := DeleteAged(blobs, policy.maxAge, now, byAge, Report(|blobs|, 0, 0, 0));
    report, list, k := DeleteOldest(kept, policy.maxBytes, byCap, report);
  }

  /** The sums the report speaks of, on one more blob. */
  lemma OneMoreBlob(blobs: seq<Blob>, b: Blob, outcomes: Outcomes, d: Deletion)
    ensures Bytes([]) == 0 && Bytes(blobs + [b]) == Bytes(blobs) + b.size
    ensures BytesOf([], outcomes, d) == 0 && CountRemoved([], outcomes) == 0
    ensures BytesOf(blobs + [b], outcomes, d) == BytesOf(blobs, outcomes, d) + if outcomes(b) == d then b.size else 0
    ensures CountRemoved(blobs + [b], outcomes) == CountRemoved(blobs, outcomes) + if outcomes(b) == Removed then 1 else 0
  {
    assert (blobs + [b])[..|blobs|] == blobs;
  }

  /** Without refused deletes a capacity run ends within the cap. */
  lemma WithoutRefusalsTheCapHolds(list: seq<Blob>, outcomes: Outcomes, cap: nat, k: nat)
    requires StopsAt(list, outcomes, cap, k) && forall b :: b in list ==> !outcomes(b).Refused?
    ensures LeftAfter(list, outcomes, k) <= cap
  {
    if k == |list| {
      assert list[..k] == list;
      BytesByOutcome(list, outcomes);
      NothingRefused(list, outcomes);
    }
  }

  lemma {:induction false} NothingRefused(list: seq<Blob>, outcomes: Outcomes)
    requires forall b :: b in list ==> !outcomes(b).Refused?
    ensures BytesOf(list, outcomes, Refused) == 0
  {
    if list != [] {
      assert list == list[..|list| - 1] + [list[|list| - 1]];
      NothingRefused(list[..|list| - 1], outcomes);
    }
  }
}
