/** The stream a subscriber reads: stored history in bounded pages, then the ring snapshot,
    then live events, with a high-watermark that drops what was already yielded. */
module Subscription {
  import opened Options
  import opened Envelopes
  import opened HeaderFilters
  import opened Selection
  import opened Ring
  import opened HistoryReads
  import Sink

  /** One gated leg: yield what satisfies `p` and lies after the watermark, which then
      moves to the yielded event. */
  function Gated(list: seq<Envelope>, p: Pred, high: Option<Cursor>): seq<Envelope> {
    if list == [] then []
    else if AfterGate(high).Holds(list[0]) && p.Holds(list[0])
    then [list[0]] + Gated(list[1..], p, Some(list[0].Cursor()))
    else Gated(list[1..], p, high)
  }

  function HighAfter(yielded: seq<Envelope>, high: Option<Cursor>): Option<Cursor> {
    if yielded == [] then high else Some(yielded[|yielded| - 1].Cursor())
  }

  /** On an ordered leg the moving watermark drops nothing beyond the initial gate. */
  lemma {:induction false} GatedInOrder(list: seq<Envelope>, p: Pred, high: Option<Cursor>)
    requires Sorted(list)
    ensures Gated(list, p, high) == Select(list, Both(AfterGate(high), p))
    decreases |list|
  {
    if list != [] {
      var x, rest := list[0], list[1..];
      assert list == [x] + rest;
      SortedCons(x, rest);
      SelectAppend([x], rest, Both(AfterGate(high), p));
      if AfterGate(high).Holds(x) && p.Holds(x) {
        GatedInOrder(rest, p, Some(x.Cursor()));
        GateMoves(x, rest, p, high);
        assert Select([x], Both(AfterGate(high), p)) == [x];
      } else {
        GatedInOrder(rest, p, high);
        assert Select([x], Both(AfterGate(high), p)) == [];
      }
    }
  }

  /** Moving the gate up to an event that precedes the rest selects the same of the rest. */
  lemma GateMoves(x: Envelope, rest: seq<Envelope>, p: Pred, high: Option<Cursor>)
    requires AfterGate(high).Holds(x) && forall e :: e in rest ==> x.Cursor().IsBefore(e.Cursor())
    ensures Select(rest, Both(AfterGate(Some(x.Cursor())), p)) == Select(rest, Both(AfterGate(high), p))
  {
    SelectSame(rest, Both(AfterGate(Some(x.Cursor())), p), Both(AfterGate(high), p));
  }

  /** Position `i` of a leg passes: it satisfies `p`, lies after the first gate, and comes
      after everything before it that satisfies `p`. */
  ghost predicate Passes(list: seq<Envelope>, p: Pred, high: Option<Cursor>, i: int) {
    && 0 <= i < |list| && p.Holds(list[i]) && AfterGate(high).Holds(list[i])
    && forall j :: 0 <= j < i && p.Holds(list[j]) ==> list[j].Cursor().IsBefore(list[i].Cursor())
  }

  /** Whatever the order of a leg, it yields exactly the events at positions that pass. */
  lemma {:induction false} GatedExactlyWhen(list: seq<Envelope>, p: Pred, high: Option<Cursor>, e: Envelope)
    ensures e in Gated(list, p, high) <==> exists i :: Passes(list, p, high, i) && list[i] == e
    decreases |list|
  {
    if list != [] {
      var x, rest := list[0], list[1..];
      var next := if AfterGate(high).Holds(x) && p.Holds(x) then Some(x.Cursor()) else high;
      GatedExactlyWhen(rest, p, next, e);
      forall i | 0 <= i < |rest| ensures Passes(rest, p, next, i) <==> Passes(list, p, high, i + 1) {
        PassesLater(list, p, high, i);
      }
      if i :| Passes(rest, p, next, i) && rest[i] == e { assert Passes(list, p, high, i + 1) && list[i + 1] == e; }
      if i :| Passes(list, p, high, i) && list[i] == e {
        if i > 0 { assert Passes(rest, p, next, i - 1) && rest[i - 1] == e; }
      }
      if AfterGate(high).Holds(x) && p.Holds(x) && x == e { assert Passes(list, p, high, 0); }
    }
  }

  lemma PassesLater(list: seq<Envelope>, p: Pred, high: Option<Cursor>, i: nat)
    requires list != [] && i < |list| - 1
    ensures var x := list[0];
            var next := if AfterGate(high).Holds(x) && p.Holds(x) then Some(x.Cursor()) else high;
            Passes(list[1..], p, next, i) <==> Passes(list, p, high, i + 1)
  {
    var x, rest := list[0], list[1..];
    var next := if AfterGate(high).Holds(x) && p.Holds(x) then Some(x.Cursor()) else high;
    assert rest[i] == list[i + 1];
    if Passes(rest, p, next, i) {
      forall j | 0 <= j < i + 1 && p.Holds(list[j]) ensures list[j].Cursor().IsBefore(list[i + 1].Cursor()) {
        if j > 0 { assert rest[j - 1] == list[j]; }
      }
    }
    if Passes(list, p, high, i + 1) {
      forall j | 0 <= j < i && p.Holds(rest[j]) ensures rest[j].Cursor().IsBefore(rest[i].Cursor()) {
        assert list[j + 1] == rest[j];
      }
    }
  }

  /** The live leg loses nothing exactly when its events arrive in cursor order and after
      everything replayed: an event stamped earlier but fanned out later is dropped. */
  lemma {:induction false} LiveLegIsWhole(list: seq<Envelope>, high: Option<Cursor>)
    ensures Gated(list, OfKinds(None), high) == list
            <==> Sorted(list) && (list == [] || AfterGate(high).Holds(list[0]))
    decreases |list|
  {
    if list != [] {
      var x, rest := list[0], list[1..];
      assert list == [x] + rest;
      GatedLength(rest, OfKinds(None), high);
      if AfterGate(high).Holds(x) {
        LiveLegIsWhole(rest, Some(x.Cursor()));
        SortedCons(x, rest);
      }
    }
  }

  lemma SortedCons(x: Envelope, rest: seq<Envelope>)
    ensures Sorted([x] + rest) <==> Sorted(rest) && (rest == [] || x.Cursor().IsBefore(rest[0].Cursor()))
    ensures Sorted([x] + rest) ==> forall e :: e in rest ==> x.Cursor().IsBefore(e.Cursor())
  {
    var list := [x] + rest;
    assert list[0] == x;
    assert forall i :: 0 <= i < |rest| ==> list[i + 1] == rest[i];
    if Sorted(rest) && (rest == [] || x.Cursor().IsBefore(rest[0].Cursor())) {
      forall i, j | 0 <= i < j < |list| ensures list[i].Cursor().IsBefore(list[j].Cursor()) {
        if i == 0 {
          if j > 1 { assert rest[0].Cursor().IsBefore(rest[j - 1].Cursor()); }
        } else {
          assert rest[i - 1].Cursor().IsBefore(rest[j - 1].Cursor());
        }
      }
    }
    if Sorted(list) {
      forall i, j | 0 <= i < j < |rest| ensures rest[i].Cursor().IsBefore(rest[j].Cursor()) {
        assert list[i + 1].Cursor().IsBefore(list[j + 1].Cursor());
      }
      assert rest != [] ==> list[0].Cursor().IsBefore(list[1].Cursor());
    }
  }

  lemma {:induction false} GatedLength(list: seq<Envelope>, p: Pred, high: Option<Cursor>)
    ensures |Gated(list, p, high)| <= |list|
    decreases |list|
  {
    if list != [] {
      GatedLength(list[1..], p, high);
      GatedLength(list[1..], p, Some(list[0].Cursor()));
    }
  }

  lemma GatedAt(list: seq<Envelope>, i: nat, p: Pred, high: Option<Cursor>)
    requires i < |list|
    ensures Gated(list[i..], p, high)
            == if AfterGate(high).Holds(list[i]) && p.Holds(list[i]) then [list[i]] + Gated(list[i + 1..], p, Some(list[i].Cursor()))
               else Gated(list[i + 1..], p, high)
  {
    assert list[i..][1..] == list[i + 1..];
  }

  method DrainGated(list: seq<Envelope>, p: Pred, start: Option<Cursor>) returns (out: seq<Envelope>, high: Option<Cursor>)
    ensures out == Gated(list, p, start)
    ensures high == HighAfter(out, start)
  {
    out, high := [], start;
    for i := 0 to |list|
      invariant GatedSoFar(list, i, p, start, out)
      invariant high == HighAfter(out, start)
    {
      GatedGoesOn(list, i, p, start, out);
      if AfterGate(high).Holds(list[i]) && p.Holds(list[i]) {
        out := out + [list[i]];
        high := Some(list[i].Cursor());
      }
    }
    assert list[|list|..] == [];
  }

  // ---------------------------------------------------------------- the stored leg

  lemma SelectSwap(s: seq<Envelope>, p: Pred, q: Pred)
    ensures Select(Select(s, p), q) == Select(Select(s, q), p)
  {
    SelectTwice(s, p, q);
    SelectTwice(s, q, p);
    SelectSame(s, Both(p, q), Both(q, p));
  }

  /** What a page of the store says about the rows behind the ring: its rows before the
      ring's oldest are the next ones, and a short page or a row at or past the oldest means
      there are no more. */
  lemma PageRows(b: seq<Envelope>, oldest: Option<Cursor>, behind: seq<Envelope>, gate: Option<Cursor>, n: nat)
    requires Sorted(b) && Select(b, BeforeGate(oldest)) == behind
    ensures var rows, rest := Sink.Page(b, gate, n), Select(behind, AfterGate(gate));
            && Sorted(rows) && (forall e :: e in rows ==> AfterGate(gate).Holds(e))
            && Select(rows, BeforeGate(oldest)) == FirstN(rest, n)
            && (Select(rows, BeforeGate(oldest)) != rows || |rows| < n ==> FirstN(rest, n) == rest)
  {
    var after, rows := Select(b, AfterGate(gate)), Sink.Page(b, gate, n);
    Sink.PageCovers(b, gate, n);
    SelectSwap(b, AfterGate(gate), BeforeGate(oldest));
    SelectSorted(b, AfterGate(gate));
    PageCut(after, oldest, n);
    PageEnds(after, oldest, n);
  }

  /** A page that is short, or not wholly before the ring, shows all there is before it. */
  lemma PageEnds(after: seq<Envelope>, oldest: Option<Cursor>, n: nat)
    requires Sorted(after)
    ensures var rows, before := FirstN(after, n), Select(after, BeforeGate(oldest));
            Select(rows, BeforeGate(oldest)) != rows || |rows| < n ==> FirstN(before, n) == before
  {
    var rows := FirstN(after, n);
    PageCut(after, oldest, n);
    SelectShrinks(rows, BeforeGate(oldest));
    SelectShrinks(after, BeforeGate(oldest));
  }

  lemma {:induction false} SelectShrinks(s: seq<Envelope>, p: Pred)
    ensures |Select(s, p)| <= |s| && (|Select(s, p)| == |s| ==> Select(s, p) == s)
  {
    if s != [] {
      SelectShrinks(s[..|s| - 1], p);
      assert s == s[..|s| - 1] + [s[|s| - 1]];
    }
  }

  /** The rows of a page before the ring's oldest entry; the first other row ends the leg. */
  function Near(rows: seq<Envelope>, oldest: Option<Cursor>): seq<Envelope> {
    rows[..Sink.PartitionPoint(rows, oldest)]
  }

  /** Yield the wanted rows of one page, stopping at the ring's oldest entry. */
  method DrainPage(rows: seq<Envelope>, filter: Filter, oldest: Option<Cursor>, start: Option<Cursor>)
    returns (out: seq<Envelope>, high: Option<Cursor>, reached: bool)
    ensures out == Gated(Near(rows, oldest), Wanted(filter), start)
    ensures high == HighAfter(out, start)
    ensures reached <==> |Near(rows, oldest)| < |rows|
  {
    out, high, reached := [], start, false;
    var i := 0;
    ghost var near := Near(rows, oldest);
    while i < |rows|
      invariant 0 <= i <= |near| && !reached
      invariant GatedSoFar(near, i, Wanted(filter), start, out)
      invariant high == HighAfter(out, start)
    {
      if oldest.Some? && !rows[i].Cursor().IsBefore(oldest.value) {
        reached := true;
        break;
      }
      assert near[i] == rows[i];
      GatedGoesOn(near, i, Wanted(filter), start, out);
      if AfterGate(high).Holds(rows[i]) && filter.Matches(rows[i]) {
        high := Some(rows[i].Cursor());
        out := out + [rows[i]];
      }
      i := i + 1;
    }
    assert near[|near|..] == [];
  }

  /** What has been yielded, and what the rest of the list yields from here, is the whole leg. */
  ghost predicate GatedSoFar(list: seq<Envelope>, i: nat, p: Pred, start: Option<Cursor>, out: seq<Envelope>)
    requires i <= |list|
  {
    out + Gated(list[i..], p, HighAfter(out, start)) == Gated(list, p, start)
  }

  lemma GatedGoesOn(list: seq<Envelope>, i: nat, p: Pred, start: Option<Cursor>, out: seq<Envelope>)
    requires i < |list| && GatedSoFar(list, i, p, start, out)
    ensures if AfterGate(HighAfter(out, start)).Holds(list[i]) && p.Holds(list[i])
            then GatedSoFar(list, i + 1, p, start, out + [list[i]])
            else GatedSoFar(list, i + 1, p, start, out)
  {
    GatedAt(list, i, p, HighAfter(out, start));
    Regroup(out, [list[i]], Gated(list[i + 1..], p, Some(list[i].Cursor())));
  }

  /** A page is the last one when it is short or reaches the ring's oldest entry. */
  predicate LastPage(rows: seq<Envelope>, oldest: Option<Cursor>, n: nat) {
    |Near(rows, oldest)| < |rows| || |rows| < n
  }

  /** What the stored leg yields when its pages are read, one after another, from the given
      states of the store. If the reads run out before a last page, the next one failed. */
  function Deep(views: seq<seq<Envelope>>, filter: Filter, oldest: Option<Cursor>, gate: Option<Cursor>, high: Option<Cursor>, n: nat): seq<Envelope>
    requires n > 0
    decreases |views|
  {
    if views == [] then []
    else
      var rows := Sink.Page(views[0], gate, n);
      var out := Gated(Near(rows, oldest), Wanted(filter), high);
      if LastPage(rows, oldest, n) then out
      else out + Deep(views[1..], filter, oldest, Some(rows[|rows| - 1].Cursor()), HighAfter(out, high), n)
  }

  /** Which read gave the last page, if any did. */
  function EndsAt(views: seq<seq<Envelope>>, oldest: Option<Cursor>, gate: Option<Cursor>, n: nat): (k: Option<nat>)
    requires n > 0
    ensures k.Some? ==> k.value < |views|
    decreases |views|
  {
    if views == [] then None
    else
      var rows := Sink.Page(views[0], gate, n);
      if LastPage(rows, oldest, n) then Some(0)
      else
        var k := EndsAt(views[1..], oldest, Some(rows[|rows| - 1].Cursor()), n);
        if k.Some? then Some(k.value + 1) else None
  }

  lemma HighJoins(a: seq<Envelope>, b: seq<Envelope>, from: Option<Cursor>)
    ensures HighAfter(a + b, from) == HighAfter(b, HighAfter(a, from))
  {
  }

  lemma {:induction false} DeepAt(views: seq<seq<Envelope>>, i: nat, filter: Filter, oldest: Option<Cursor>, gate: Option<Cursor>, high: Option<Cursor>, n: nat)
    requires n > 0 && i < |views|
    ensures var rows := Sink.Page(views[i], gate, n);
            var out := Gated(Near(rows, oldest), Wanted(filter), high);
            Deep(views[i..], filter, oldest, gate, high, n)
            == if LastPage(rows, oldest, n) then out
               else out + Deep(views[i + 1..], filter, oldest, Some(rows[|rows| - 1].Cursor()), HighAfter(out, high), n)
  {
    assert views[i..][0] == views[i] && views[i..][1..] == views[i + 1..];
  }

  /** The stored leg: bounded pages from the cursor up to the ring's oldest entry. A failed
      read ends the leg early. */
  method DeepReplay(filter: Filter, from: Option<Cursor>, oldest: Option<Cursor>, views: seq<seq<Envelope>>, pageSize: nat)
    returns (out: seq<Envelope>, high: Option<Cursor>)
    requires pageSize > 0
    ensures out == Deep(views, filter, oldest, from, from, pageSize)
    ensures high == HighAfter(out, from)
  {
    out, high := [], from;
    var gate, i := from, 0;
    while i < |views|
      invariant 0 <= i <= |views|
      invariant LegSoFar(views, i, filter, oldest, from, gate, out, pageSize)
      invariant high == HighAfter(out, from)
    {
      LegGoesOn(views, i, filter, oldest, from, gate, out, pageSize);
      var more, last;
      more, high, last, gate := ReadOne(views[i], filter, oldest, gate, high, pageSize);
      HighJoins(out, more, from);
      out := out + more;
      if last { return; }
      i := i + 1;
    }
  }

  /** One page: what it yields, whether it is the last, and where the next one starts. */
  method ReadOne(view: seq<Envelope>, filter: Filter, oldest: Option<Cursor>, gate: Option<Cursor>, start: Option<Cursor>, pageSize: nat)
    returns (more: seq<Envelope>, high: Option<Cursor>, last: bool, next: Option<Cursor>)
    requires pageSize > 0
    ensures var rows := Sink.Page(view, gate, pageSize);
            && more == Gated(Near(rows, oldest), Wanted(filter), start) && high == HighAfter(more, start)
            && last == LastPage(rows, oldest, pageSize) && (!last ==> next == Some(rows[|rows| - 1].Cursor()))
  {
    var rows := Sink.Page(view, gate, pageSize);
    var reached;
    more, high, reached := DrainPage(rows, filter, oldest, start);
    last := reached || |rows| < pageSize;
    next := if last then gate else Some(rows[|rows| - 1].Cursor());
  }

  /** What has been yielded, and what the remaining reads yield from here, is the whole leg. */
  ghost predicate LegSoFar(views: seq<seq<Envelope>>, i: nat, filter: Filter, oldest: Option<Cursor>, from: Option<Cursor>,
                           gate: Option<Cursor>, out: seq<Envelope>, n: nat)
    requires n > 0 && i <= |views|
  {
    out + Deep(views[i..], filter, oldest, gate, HighAfter(out, from), n) == Deep(views, filter, oldest, from, from, n)
  }

  lemma LegGoesOn(views: seq<seq<Envelope>>, i: nat, filter: Filter, oldest: Option<Cursor>, from: Option<Cursor>,
                  gate: Option<Cursor>, out: seq<Envelope>, n: nat)
    requires n > 0 && i < |views| && LegSoFar(views, i, filter, oldest, from, gate, out, n)
    ensures var rows := Sink.Page(views[i], gate, n);
            var more := Gated(Near(rows, oldest), Wanted(filter), HighAfter(out, from));
            if LastPage(rows, oldest, n) then out + more == Deep(views, filter, oldest, from, from, n)
            else LegSoFar(views, i + 1, filter, oldest, from, Some(rows[|rows| - 1].Cursor()), out + more, n)
  {
    var rows := Sink.Page(views[i], gate, n);
    var more := Gated(Near(rows, oldest), Wanted(filter), HighAfter(out, from));
    DeepAt(views, i, filter, oldest, gate, HighAfter(out, from), n);
    HighJoins(out, more, from);
    if !LastPage(rows, oldest, n) {
      Regroup(out, more, Deep(views[i + 1..], filter, oldest, Some(rows[|rows| - 1].Cursor()), HighAfter(more, HighAfter(out, from)), n));
    }
  }

  // ---------------------------------------------------------------- what the stored leg yields

  ghost function Behind(view: seq<Envelope>, oldest: Option<Cursor>): seq<Envelope> {
    Select(view, BeforeGate(oldest))
  }

  ghost function DeepRows(behind: seq<Envelope>, gate: Option<Cursor>, filter: Filter): seq<Envelope> {
    Select(Select(behind, AfterGate(gate)), Wanted(filter))
  }

  /** Whatever passes the gate passes the watermark. */
  ghost predicate GateAbove(gate: Option<Cursor>, high: Option<Cursor>) {
    forall e :: AfterGate(gate).Holds(e) ==> AfterGate(high).Holds(e)
  }

  ghost predicate AllSorted(views: seq<seq<Envelope>>) {
    forall i :: 0 <= i < |views| ==> Sorted(views[i])
  }

  /** Between reads, rows behind the ring are only added at the end. */
  ghost predicate Extending(views: seq<seq<Envelope>>, oldest: Option<Cursor>) {
    forall i, j :: 0 <= i <= j < |views| ==> Behind(views[i], oldest) <= Behind(views[j], oldest)
  }

  /** A sorted leg that lies past the watermark is only filtered. */
  lemma GatedPast(near: seq<Envelope>, p: Pred, high: Option<Cursor>)
    requires Sorted(near) && forall e :: e in near ==> AfterGate(high).Holds(e)
    ensures Gated(near, p, high) == Select(near, p)
  {
    GatedInOrder(near, p, high);
    SelectSame(near, Both(AfterGate(high), p), p);
  }

  lemma NearIsBefore(rows: seq<Envelope>, oldest: Option<Cursor>)
    requires Sorted(rows)
    ensures Near(rows, oldest) == Select(rows, BeforeGate(oldest)) && Sorted(Near(rows, oldest))
    ensures forall e :: e in Near(rows, oldest) ==> e in rows
  {
    Sink.PartitionIsSelect(rows, oldest);
    SelectSorted(rows, BeforeGate(oldest));
    SelectMember(rows, BeforeGate(oldest));
  }

  lemma SelectPrefixOf(a: seq<Envelope>, b: seq<Envelope>, p: Pred)
    requires a <= b
    ensures Select(a, p) <= Select(b, p)
  {
    assert b == a + b[|a|..];
    SelectAppend(a, b[|a|..], p);
  }

  /** The first page of a leg, in terms of the rows behind the ring. */
  lemma FirstPage(view: seq<Envelope>, filter: Filter, oldest: Option<Cursor>, gate: Option<Cursor>, high: Option<Cursor>, n: nat)
    requires Sorted(view) && GateAbove(gate, high) && n > 0
    ensures var rows := Sink.Page(view, gate, n);
            var rest := Select(Behind(view, oldest), AfterGate(gate));
            && Gated(Near(rows, oldest), Wanted(filter), high) == Select(FirstN(rest, n), Wanted(filter))
            && (LastPage(rows, oldest, n) ==> FirstN(rest, n) == rest)
            && (!LastPage(rows, oldest, n) ==> |rest| >= n && rows == rest[..n])
            && Sorted(rows) && forall e :: e in rows ==> AfterGate(gate).Holds(e)
  {
    var rows := Sink.Page(view, gate, n);
    PageRows(view, oldest, Behind(view, oldest), gate, n);
    NearIsBefore(rows, oldest);
    GatedPast(Near(rows, oldest), Wanted(filter), high);
    PageSize(view, gate, n);
  }

  lemma PageSize(b: seq<Envelope>, gate: Option<Cursor>, n: nat)
    ensures |Sink.Page(b, gate, n)| <= n
  {
  }

  /** A full page consumed: the leg goes on from its last row. */
  lemma LaterPages(rows: seq<Envelope>, behind: seq<Envelope>, filter: Filter, gate: Option<Cursor>, high: Option<Cursor>, n: nat)
    requires Sorted(behind) && 0 < n <= |Select(behind, AfterGate(gate))| && rows == Select(behind, AfterGate(gate))[..n]
    requires GateAbove(gate, high) && Sorted(rows) && forall e :: e in rows ==> AfterGate(gate).Holds(e)
    ensures var gate' := Some(rows[n - 1].Cursor());
            && Select(rows, Wanted(filter)) + DeepRows(behind, gate', filter) == DeepRows(behind, gate, filter)
            && GateAbove(gate', HighAfter(Select(rows, Wanted(filter)), high))
  {
    NextPage(behind, gate, n, filter, Select(rows, Wanted(filter)));
    HighBelowLast(rows, filter, high, Select(rows, Wanted(filter)));
  }

  /** As long as rows behind the ring are only added at the end, paging loses and repeats
      nothing: a leg that ends by itself yields exactly the wanted rows after the cursor of
      the store as its last page saw it; one cut short by a failure yields a prefix. */
  lemma {:induction false} DeepIsExact(views: seq<seq<Envelope>>, filter: Filter, oldest: Option<Cursor>, gate: Option<Cursor>, high: Option<Cursor>, n: nat)
    requires n > 0 && AllSorted(views) && Extending(views, oldest) && GateAbove(gate, high)
    ensures var out, k := Deep(views, filter, oldest, gate, high, n), EndsAt(views, oldest, gate, n);
            && (k.Some? ==> out == DeepRows(Behind(views[k.value], oldest), gate, filter))
            && (k.None? ==> if views == [] then out == []
                            else out <= DeepRows(Behind(views[|views| - 1], oldest), gate, filter))
    decreases |views|
  {
    if views != [] {
      var rows, tail := Sink.Page(views[0], gate, n), views[1..];
      if LastPage(rows, oldest, n) {
        DeepLast(views, filter, oldest, gate, high, n);
      } else {
        DeepUnfold(views, filter, oldest, gate, high, n);
        EndsLater(views, oldest, gate, n);
        TailExtends(views, oldest);
        var gate', out := Some(rows[n - 1].Cursor()), Select(rows, Wanted(filter));
        var k := EndsAt(tail, oldest, gate', n);
        var at := if k.Some? then k.value + 1 else |views| - 1;
        DeepGoesOn(views[0], views[at], rows, filter, oldest, gate, high, n);
        DeepIsExact(tail, filter, oldest, gate', HighAfter(out, high), n);
        if k.None? {
          DeepCutShort(views[at], tail, filter, oldest, gate, gate', HighAfter(out, high), n, out);
        }
      }
    }
  }

  lemma TailExtends(views: seq<seq<Envelope>>, oldest: Option<Cursor>)
    requires views != [] && AllSorted(views) && Extending(views, oldest)
    ensures AllSorted(views[1..]) && Extending(views[1..], oldest)
    ensures forall i :: 0 <= i < |views[1..]| ==> views[1..][i] == views[i + 1]
  {
  }

  lemma DeepCutShort(last: seq<Envelope>, tail: seq<seq<Envelope>>, filter: Filter, oldest: Option<Cursor>,
                                        gate: Option<Cursor>, gate': Option<Cursor>, high: Option<Cursor>, n: nat, out: seq<Envelope>)
    requires n > 0 && out + DeepRows(Behind(last, oldest), gate', filter) == DeepRows(Behind(last, oldest), gate, filter)
    requires if tail == [] then Deep(tail, filter, oldest, gate', high, n) == []
             else tail[|tail| - 1] == last && Deep(tail, filter, oldest, gate', high, n) <= DeepRows(Behind(last, oldest), gate', filter)
    ensures out + Deep(tail, filter, oldest, gate', high, n) <= DeepRows(Behind(last, oldest), gate, filter)
  {
    PrefixJoins(out, Deep(tail, filter, oldest, gate', high, n), DeepRows(Behind(last, oldest), gate', filter));
  }

  lemma DeepLast(views: seq<seq<Envelope>>, filter: Filter, oldest: Option<Cursor>, gate: Option<Cursor>, high: Option<Cursor>, n: nat)
    requires n > 0 && views != [] && Sorted(views[0]) && GateAbove(gate, high) && LastPage(Sink.Page(views[0], gate, n), oldest, n)
    ensures Deep(views, filter, oldest, gate, high, n) == DeepRows(Behind(views[0], oldest), gate, filter)
    ensures EndsAt(views, oldest, gate, n) == Some(0)
  {
    FirstPage(views[0], filter, oldest, gate, high, n);
  }

  lemma DeepUnfold(views: seq<seq<Envelope>>, filter: Filter, oldest: Option<Cursor>, gate: Option<Cursor>, high: Option<Cursor>, n: nat)
    requires n > 0 && views != [] && Sorted(views[0]) && GateAbove(gate, high) && !LastPage(Sink.Page(views[0], gate, n), oldest, n)
    ensures var rows := Sink.Page(views[0], gate, n);
            var rest := Select(Behind(views[0], oldest), AfterGate(gate));
            var out := Select(rows, Wanted(filter));
            && |rows| == n && |rest| >= n && rows == rest[..n]
            && Sorted(rows) && (forall e :: e in rows ==> AfterGate(gate).Holds(e))
            && Deep(views, filter, oldest, gate, high, n)
               == out + Deep(views[1..], filter, oldest, Some(rows[n - 1].Cursor()), HighAfter(out, high), n)
  {
    FullPage(views[0], filter, oldest, gate, high, n);
  }

  lemma EndsLater(views: seq<seq<Envelope>>, oldest: Option<Cursor>, gate: Option<Cursor>, n: nat)
    requires n > 0 && views != [] && !LastPage(Sink.Page(views[0], gate, n), oldest, n)
    ensures |Sink.Page(views[0], gate, n)| == n
    ensures var rows := Sink.Page(views[0], gate, n);
            var k := EndsAt(views[1..], oldest, Some(rows[n - 1].Cursor()), n);
            EndsAt(views, oldest, gate, n) == if k.Some? then Some(k.value + 1) else None
  {
    PageSize(views[0], gate, n);
  }

  /** A page that is not the last one is full and lies behind the ring. */
  lemma FullPage(view: seq<Envelope>, filter: Filter, oldest: Option<Cursor>, gate: Option<Cursor>, high: Option<Cursor>, n: nat)
    requires n > 0 && Sorted(view) && GateAbove(gate, high) && !LastPage(Sink.Page(view, gate, n), oldest, n)
    ensures var rows := Sink.Page(view, gate, n);
            var rest := Select(Behind(view, oldest), AfterGate(gate));
            && |rows| == n && |rest| >= n && rows == rest[..n]
            && Sorted(rows) && (forall e :: e in rows ==> AfterGate(gate).Holds(e))
            && Gated(Near(rows, oldest), Wanted(filter), high) == Select(rows, Wanted(filter))
  {
    FirstPage(view, filter, oldest, gate, high, n);
    var rows := Sink.Page(view, gate, n);
    assert FirstN(Select(Behind(view, oldest), AfterGate(gate)), n) == rows;
  }

  lemma DeepGoesOn(first: seq<Envelope>, last: seq<Envelope>, rows: seq<Envelope>, filter: Filter,
                                      oldest: Option<Cursor>, gate: Option<Cursor>, high: Option<Cursor>, n: nat)
    requires n > 0 && Sorted(last) && Behind(first, oldest) <= Behind(last, oldest) && GateAbove(gate, high)
    requires |Select(Behind(first, oldest), AfterGate(gate))| >= n && rows == Select(Behind(first, oldest), AfterGate(gate))[..n]
    requires Sorted(rows) && forall e :: e in rows ==> AfterGate(gate).Holds(e)
    ensures var gate' := Some(rows[n - 1].Cursor());
            && Select(rows, Wanted(filter)) + DeepRows(Behind(last, oldest), gate', filter) == DeepRows(Behind(last, oldest), gate, filter)
            && GateAbove(gate', HighAfter(Select(rows, Wanted(filter)), high))
  {
    SelectSorted(last, BeforeGate(oldest));
    SelectPrefixOf(Behind(first, oldest), Behind(last, oldest), AfterGate(gate));
    LaterPages(rows, Behind(last, oldest), filter, gate, high, n);
  }

  lemma PrefixJoins(a: seq<Envelope>, b: seq<Envelope>, c: seq<Envelope>)
    requires b <= c
    ensures a + b <= a + c
  {
  }

  lemma PageLeaves(view: seq<Envelope>, oldest: Option<Cursor>, gate: Option<Cursor>, n: nat)
    requires n > 0 && Sorted(view) && !LastPage(Sink.Page(view, gate, n), oldest, n)
    ensures |Sink.Page(view, gate, n)| == n
    ensures var gate' := Some(Sink.Page(view, gate, n)[n - 1].Cursor());
            |Select(Behind(view, oldest), AfterGate(gate))| == n + |Select(Behind(view, oldest), AfterGate(gate'))|
  {
    FullPage(view, Everything(0), oldest, gate, gate, n);
    SelectSorted(view, BeforeGate(oldest));
    Sink.AdvanceGate(Behind(view, oldest), gate, n);
  }

  /** The stored leg ends by itself: with pages of `n`, more reads than full pages behind the
      ring always reach the last page. */
  lemma {:induction false} EnoughReads(views: seq<seq<Envelope>>, oldest: Option<Cursor>, gate: Option<Cursor>, n: nat, behind: seq<Envelope>)
    requires n > 0 && AllSorted(views) && forall i :: 0 <= i < |views| ==> Behind(views[i], oldest) == behind
    requires n * |views| > |Select(behind, AfterGate(gate))|
    ensures EndsAt(views, oldest, gate, n).Some?
    decreases |views|
  {
    assert |views| > 0;
    if !LastPage(Sink.Page(views[0], gate, n), oldest, n) {
      PageLeaves(views[0], oldest, gate, n);
      var gate' := Some(Sink.Page(views[0], gate, n)[n - 1].Cursor());
      TailSorted(views);
      assert n * |views| == n + n * |views[1..]| by { OneFewer(n, |views|); }
      EndsLater(views, oldest, gate, n);
      EnoughReads(views[1..], oldest, gate', n, behind);
    }
  }

  lemma OneFewer(n: nat, m: nat)
    requires m > 0
    ensures n * m == n + n * (m - 1)
  {
  }

  ghost predicate FromReads(views: seq<seq<Envelope>>, e: Envelope) {
    exists i :: 0 <= i < |views| && e in views[i]
  }

  ghost predicate SoundRow(views: seq<seq<Envelope>>, filter: Filter, oldest: Option<Cursor>, gate: Option<Cursor>, e: Envelope) {
    FromReads(views, e) && filter.Matches(e) && AfterGate(gate).Holds(e) && BeforeGate(oldest).Holds(e)
  }

  ghost predicate SoundLeg(views: seq<seq<Envelope>>, filter: Filter, oldest: Option<Cursor>, gate: Option<Cursor>, out: seq<Envelope>) {
    Sorted(out) && forall e :: e in out ==> SoundRow(views, filter, oldest, gate, e)
  }

  /** However the store changes between reads: the leg is in order, and every row it yields
      was read, is wanted and lies after the cursor and before the ring. */
  lemma {:induction false} DeepIsSound(views: seq<seq<Envelope>>, filter: Filter, oldest: Option<Cursor>, gate: Option<Cursor>, high: Option<Cursor>, n: nat)
    requires n > 0 && AllSorted(views) && GateAbove(gate, high)
    ensures SoundLeg(views, filter, oldest, gate, Deep(views, filter, oldest, gate, high, n))
    decreases |views|
  {
    if views != [] {
      var rows, tail := Sink.Page(views[0], gate, n), views[1..];
      FirstIsSound(views, filter, oldest, gate, high, n);
      if !LastPage(rows, oldest, n) {
        DeepUnfold(views, filter, oldest, gate, high, n);
        var gate', out := Some(rows[n - 1].Cursor()), Select(rows, Wanted(filter));
        TailSorted(views);
        GateMovesUp(rows, filter, gate, high);
        DeepIsSound(tail, filter, oldest, gate', HighAfter(out, high), n);
        SoundJoins(views, filter, oldest, gate, rows, out, Deep(tail, filter, oldest, gate', HighAfter(out, high), n));
      }
    }
  }

  lemma TailSorted(views: seq<seq<Envelope>>)
    requires views != [] && AllSorted(views)
    ensures AllSorted(views[1..])
  {
    assert forall i :: 0 <= i < |views[1..]| ==> views[1..][i] == views[i + 1];
  }

  lemma GateMovesUp(rows: seq<Envelope>, filter: Filter, gate: Option<Cursor>, high: Option<Cursor>)
    requires Sorted(rows) && rows != [] && GateAbove(gate, high) && forall e :: e in rows ==> AfterGate(gate).Holds(e)
    ensures GateAbove(Some(rows[|rows| - 1].Cursor()), HighAfter(Select(rows, Wanted(filter)), high))
  {
    HighBelowLast(rows, filter, high, Select(rows, Wanted(filter)));
  }

  lemma FirstIsSound(views: seq<seq<Envelope>>, filter: Filter, oldest: Option<Cursor>, gate: Option<Cursor>, high: Option<Cursor>, n: nat)
    requires n > 0 && views != [] && Sorted(views[0]) && GateAbove(gate, high)
    ensures var rows := Sink.Page(views[0], gate, n);
            && SoundLeg(views, filter, oldest, gate, Gated(Near(rows, oldest), Wanted(filter), high))
            && (!LastPage(rows, oldest, n) ==> SoundLeg(views, filter, oldest, gate, Select(rows, Wanted(filter))))
  {
    FirstPage(views[0], filter, oldest, gate, high, n);
    PageIsSound(views[0], filter, oldest, gate, n);
    forall e | e in views[0] ensures FromReads(views, e) { }
    var rows := Sink.Page(views[0], gate, n);
    if !LastPage(rows, oldest, n) {
      assert FirstN(Select(Behind(views[0], oldest), AfterGate(gate)), n) == rows;
    }
  }

  lemma SoundJoins(views: seq<seq<Envelope>>, filter: Filter, oldest: Option<Cursor>, gate: Option<Cursor>,
                                      rows: seq<Envelope>, out: seq<Envelope>, more: seq<Envelope>)
    requires views != [] && Sorted(rows) && rows != [] && out == Select(rows, Wanted(filter))
    requires forall e :: e in rows ==> AfterGate(gate).Holds(e)
    requires SoundLeg(views, filter, oldest, gate, out)
    requires SoundLeg(views[1..], filter, oldest, Some(rows[|rows| - 1].Cursor()), more)
    ensures SoundLeg(views, filter, oldest, gate, out + more)
  {
    var gate' := Some(rows[|rows| - 1].Cursor());
    forall e | e in more ensures SoundRow(views[1..], filter, oldest, gate', e) && FromReads(views, e) {
      var i :| 0 <= i < |views[1..]| && e in views[1..][i];
      assert e in views[i + 1];
    }
    RowsBelowGate(rows, out, filter, gate, gate', more);
    SortedAppend(out, more);
  }

  lemma PageIsSound(view: seq<Envelope>, filter: Filter, oldest: Option<Cursor>, gate: Option<Cursor>, n: nat)
    requires Sorted(view)
    ensures var out := Select(FirstN(Select(Behind(view, oldest), AfterGate(gate)), n), Wanted(filter));
            && Sorted(out)
            && forall e :: e in out ==> e in view && filter.Matches(e) && AfterGate(gate).Holds(e) && BeforeGate(oldest).Holds(e)
  {
    var rest := Select(Behind(view, oldest), AfterGate(gate));
    var head := FirstN(rest, n);
    SelectSorted(view, BeforeGate(oldest));
    SelectMember(view, BeforeGate(oldest));
    SelectSorted(Behind(view, oldest), AfterGate(gate));
    SelectMember(Behind(view, oldest), AfterGate(gate));
    assert forall i :: 0 <= i < |head| ==> head[i] == rest[i];
    SelectSorted(head, Wanted(filter));
    SelectMember(head, Wanted(filter));
    forall e | e in Select(head, Wanted(filter)) ensures e in view && filter.Matches(e) && AfterGate(gate).Holds(e) && BeforeGate(oldest).Holds(e) {
      assert Wanted(filter).Holds(e) && e in head;
      var i :| 0 <= i < |head| && head[i] == e;
      assert rest[i] in rest;
    }
  }

  lemma {:induction false} RowsBelowGate(rows: seq<Envelope>, out: seq<Envelope>, filter: Filter, gate: Option<Cursor>, gate': Option<Cursor>, more: seq<Envelope>)
    requires Sorted(rows) && rows != [] && out == Select(rows, Wanted(filter)) && gate' == Some(rows[|rows| - 1].Cursor())
    requires forall e :: e in rows ==> AfterGate(gate).Holds(e)
    requires forall e :: e in more ==> AfterGate(gate').Holds(e)
    ensures forall x, y :: x in out && y in more ==> x.Cursor().IsBefore(y.Cursor())
    ensures forall e :: e in more ==> AfterGate(gate).Holds(e)
  {
    var last := rows[|rows| - 1];
    assert last in rows && AfterGate(gate).Holds(last);
    SelectMember(rows, Wanted(filter));
    forall x | x in out ensures x == last || x.Cursor().IsBefore(last.Cursor()) {
      var i :| 0 <= i < |rows| && rows[i] == x;
      if i < |rows| - 1 { assert rows[i].Cursor().IsBefore(rows[|rows| - 1].Cursor()); }
    }
  }

  /** A full page consumed moves the gate past exactly its rows. */
  lemma NextPage(behind: seq<Envelope>, gate: Option<Cursor>, n: nat, filter: Filter, more: seq<Envelope>)
    requires Sorted(behind) && 0 < n <= |Select(behind, AfterGate(gate))|
    requires more == Select(Select(behind, AfterGate(gate))[..n], Wanted(filter))
    ensures var rest := Select(behind, AfterGate(gate));
            var gate' := Some(rest[n - 1].Cursor());
            && more + DeepRows(behind, gate', filter) == DeepRows(behind, gate, filter)
            && |Select(behind, AfterGate(gate'))| < |rest|
  {
    var rest := Select(behind, AfterGate(gate));
    var rest' := Select(behind, AfterGate(Some(rest[n - 1].Cursor())));
    Sink.AdvanceGate(behind, gate, n);
    SelectAppend(rest[..n], rest', Wanted(filter));
  }

  lemma HighBelowLast(rows: seq<Envelope>, filter: Filter, start: Option<Cursor>, more: seq<Envelope>)
    requires Sorted(rows) && rows != [] && more == Select(rows, Wanted(filter))
    requires forall e :: e in rows ==> AfterGate(start).Holds(e)
    ensures forall e :: AfterGate(Some(rows[|rows| - 1].Cursor())).Holds(e) ==> AfterGate(HighAfter(more, start)).Holds(e)
  {
    var last := rows[|rows| - 1];
    assert last in rows && AfterGate(start).Holds(last);
    SelectMember(rows, Wanted(filter));
    if more != [] {
      var y := more[|more| - 1];
      assert y in more && y in rows;
      var k :| 0 <= k < |rows| && rows[k] == y;
      if k < |rows| - 1 { assert rows[k].Cursor().IsBefore(rows[|rows| - 1].Cursor()); }
    }
  }

  // ---------------------------------------------------------------- the whole stream

  /** After yielding events that precede the rest, the watermark gates the rest as the
      original cursor would. */
  lemma GateShift(yielded: seq<Envelope>, rest: seq<Envelope>, p: Pred, from: Option<Cursor>)
    requires forall e :: e in yielded ==> AfterGate(from).Holds(e)
    requires forall x, e :: x in yielded && e in rest ==> x.Cursor().IsBefore(e.Cursor())
    ensures Select(rest, Both(AfterGate(HighAfter(yielded, from)), p)) == Select(rest, Both(AfterGate(from), p))
  {
    if yielded != [] {
      var x := yielded[|yielded| - 1];
      assert x in yielded;
      GateMoves(x, rest, p, from);
    }
  }

  lemma SortedParts(a: seq<Envelope>, b: seq<Envelope>)
    requires Sorted(a + b)
    ensures Sorted(a) && Sorted(b)
    ensures forall x, y :: x in a && y in b ==> x.Cursor().IsBefore(y.Cursor())
  {
    var s := a + b;
    assert forall i :: 0 <= i < |a| ==> s[i] == a[i];
    assert forall j :: 0 <= j < |b| ==> s[|a| + j] == b[j];
    forall i, j | 0 <= i < j < |b| ensures b[i].Cursor().IsBefore(b[j].Cursor()) {
      assert s[|a| + i].Cursor().IsBefore(s[|a| + j].Cursor());
    }
    forall x, y | x in a && y in b ensures x.Cursor().IsBefore(y.Cursor()) {
      var i :| 0 <= i < |a| && a[i] == x;
      var j :| 0 <= j < |b| && b[j] == y;
      assert s[i].Cursor().IsBefore(s[|a| + j].Cursor());
    }
  }

  /** What a subscriber's stream yields: stored history read as given, then the ring snapshot,
      then live events, each gated by the watermark. */
  function Yielded(filter: Filter, from: Option<Cursor>, slots: seq<Slot>, views: seq<seq<Envelope>>, live: seq<Envelope>, n: nat): seq<Envelope>
    requires n > 0
  {
    var deep := Deep(views, filter, Oldest(slots), from, from, n);
    var recent := Gated(Select(Envs(slots), AfterGate(from)), Wanted(filter), HighAfter(deep, from));
    deep + recent + Gated(live, OfKinds(None), HighAfter(deep + recent, from))
  }

  /** The stream as the subscriber drives it, leg by leg. */
  method Stream(filter: Filter, from: Option<Cursor>, slots: seq<Slot>, views: seq<seq<Envelope>>, live: seq<Envelope>, pageSize: nat)
    returns (out: seq<Envelope>)
    requires pageSize > 0
    ensures out == Yielded(filter, from, slots, views, live, pageSize)
  {
    var high;
    out, high := DeepReplay(filter, from, Oldest(slots), views, pageSize);
    var recent, now;
    recent, high := DrainGated(Select(Envs(slots), AfterGate(from)), Wanted(filter), high);
    HighJoins(out, recent, from);
    now, high := DrainGated(live, OfKinds(None), high);
    out := out + recent + now;
  }

  /** When every read shows the same rows behind the ring and the three legs follow one
      another in the order: each wanted event after the cursor is yielded once, in order, the
      stored leg being cut short only by a failed read. */
  lemma StreamIsExact(filter: Filter, from: Option<Cursor>, slots: seq<Slot>, views: seq<seq<Envelope>>, live: seq<Envelope>, n: nat, behind: seq<Envelope>)
    requires n > 0 && AllSorted(views) && forall i :: 0 <= i < |views| ==> Behind(views[i], Oldest(slots)) == behind
    requires Sorted(behind + (Envs(slots) + live))
    ensures var deep := Deep(views, filter, Oldest(slots), from, from, n);
            && deep <= DeepRows(behind, from, filter)
            && (EndsAt(views, Oldest(slots), from, n).Some? ==> deep == DeepRows(behind, from, filter))
            && Yielded(filter, from, slots, views, live, n)
               == deep + Select(Envs(slots), Both(AfterGate(from), Wanted(filter))) + Select(live, AfterGate(from))
  {
    SortedParts(behind, Envs(slots) + live);
    SortedParts(Envs(slots), live);
    DeepIsExact(views, filter, Oldest(slots), from, from, n);
    var deep := Deep(views, filter, Oldest(slots), from, from, n);
    StreamLegs(filter, from, Envs(slots), live, behind, deep);
    HighJoins(deep, Select(Envs(slots), Both(AfterGate(from), Wanted(filter))), from);
  }

  lemma {:induction false} StreamLegs(filter: Filter, from: Option<Cursor>, ring: seq<Envelope>, live: seq<Envelope>, behind: seq<Envelope>, stored: seq<Envelope>)
    requires Sorted(ring) && Sorted(live) && stored <= DeepRows(behind, from, filter)
    requires forall x, y :: x in behind && (y in ring || y in live) ==> x.Cursor().IsBefore(y.Cursor())
    requires forall x, y :: x in ring && y in live ==> x.Cursor().IsBefore(y.Cursor())
    ensures var recent := Gated(Select(ring, AfterGate(from)), Wanted(filter), HighAfter(stored, from));
            && recent == Select(ring, Both(AfterGate(from), Wanted(filter)))
            && Gated(live, OfKinds(None), HighAfter(recent, HighAfter(stored, from))) == Select(live, AfterGate(from))
  {
    forall e | e in stored ensures e in behind && AfterGate(from).Holds(e) { StoredAfter(filter, from, behind, stored, e); }
    RecentLeg(filter, from, ring, stored);
    var recent := Select(ring, Both(AfterGate(from), Wanted(filter)));
    SelectMember(ring, Both(AfterGate(from), Wanted(filter)));
    HighJoins(stored, recent, from);
    LiveLeg(from, stored + recent, live);
  }

  lemma StoredAfter(filter: Filter, from: Option<Cursor>, behind: seq<Envelope>, stored: seq<Envelope>, e: Envelope)
    requires stored <= DeepRows(behind, from, filter) && e in stored
    ensures e in behind && AfterGate(from).Holds(e)
  {
    assert e in DeepRows(behind, from, filter);
    SelectMember(behind, AfterGate(from));
    SelectMember(Select(behind, AfterGate(from)), Wanted(filter));
  }

  lemma LiveLeg(from: Option<Cursor>, yielded: seq<Envelope>, live: seq<Envelope>)
    requires Sorted(live) && forall e :: e in yielded ==> AfterGate(from).Holds(e)
    requires forall x, y :: x in yielded && y in live ==> x.Cursor().IsBefore(y.Cursor())
    ensures Gated(live, OfKinds(None), HighAfter(yielded, from)) == Select(live, AfterGate(from))
  {
    GatedInOrder(live, OfKinds(None), HighAfter(yielded, from));
    GateShift(yielded, live, OfKinds(None), from);
    SelectSame(live, Both(AfterGate(from), OfKinds(None)), AfterGate(from));
  }

  lemma RecentLeg(filter: Filter, from: Option<Cursor>, ring: seq<Envelope>, stored: seq<Envelope>)
    requires Sorted(ring) && forall e :: e in stored ==> AfterGate(from).Holds(e)
    requires forall x, y :: x in stored && y in ring ==> x.Cursor().IsBefore(y.Cursor())
    ensures Gated(Select(ring, AfterGate(from)), Wanted(filter), HighAfter(stored, from))
            == Select(ring, Both(AfterGate(from), Wanted(filter)))
  {
    var snapshot, high := Select(ring, AfterGate(from)), HighAfter(stored, from);
    SelectSorted(ring, AfterGate(from));
    SelectMember(ring, AfterGate(from));
    GatedInOrder(snapshot, Wanted(filter), high);
    GateShift(stored, snapshot, Wanted(filter), from);
    GateTwice(ring, Wanted(filter), from);
  }

  /** Gating the gated changes nothing. */
  lemma GateTwice(ring: seq<Envelope>, p: Pred, from: Option<Cursor>)
    ensures Select(Select(ring, AfterGate(from)), Both(AfterGate(from), p)) == Select(ring, Both(AfterGate(from), p))
  {
    SelectTwice(ring, AfterGate(from), Both(AfterGate(from), p));
    SelectSame(ring, Both(AfterGate(from), Both(AfterGate(from), p)), Both(AfterGate(from), p));
  }
}
