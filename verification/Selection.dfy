/** Order-preserving selection from event sequences. Selections are named by a small
    predicate language so that two occurrences of the same selection are the same term. */
module Selection {
  import opened Options
  import opened Envelopes
  import opened HeaderFilters

  datatype Pred =
    | IsDurable
    | AfterGate(after: Option<Cursor>)
    | BeforeGate(before: Option<Cursor>)
    | OnChannel(room: RoomId)
    | OfKinds(kinds: Option<seq<Kind>>)
    | Wanted(filter: Filter)
    | Both(p: Pred, q: Pred)
  {
    predicate Holds(e: Envelope) {
      match this
      case IsDurable => e.delivery.Durable?
      case AfterGate(g) => g.Some? ==> e.Cursor().IsAfter(g.value)
      case BeforeGate(g) => g.Some? ==> e.Cursor().IsBefore(g.value)
      case OnChannel(room) => e.channel == room
      case OfKinds(kinds) => kinds.Some? ==> e.kind in kinds.value
      case Wanted(filter) => filter.Matches(e)
      case Both(p, q) => p.Holds(e) && q.Holds(e)
    }
  }

  /** The elements of `s` that satisfy `p`, in order. */
  function Select(s: seq<Envelope>, p: Pred): seq<Envelope> {
    if s == [] then []
    else
      var rest := Select(s[..|s| - 1], p);
      if p.Holds(s[|s| - 1]) then rest + [s[|s| - 1]] else rest
  }

  function FirstN(s: seq<Envelope>, n: nat): (r: seq<Envelope>) {
    if |s| <= n then s else s[..n]
  }

  function LastN(s: seq<Envelope>, n: nat): (r: seq<Envelope>) {
    if |s| <= n then s else s[|s| - n..]
  }

  /** The predicates on an event's fields: a cursor splits events into those before it, those
      after it and those at it; no cursor admits everything; the rest ask what they say. */
  lemma PredLaws(c: Cursor, kinds: seq<Kind>, room: RoomId, filter: Filter, p: Pred, q: Pred, e: Envelope)
    ensures BeforeGate(Some(c)).Holds(e) <==> e.Cursor().IsBefore(c)
    ensures AfterGate(Some(c)).Holds(e) <==> !BeforeGate(Some(c)).Holds(e) && (e.stamp != c.stamp || e.eventId != c.eventId)
    ensures BeforeGate(None).Holds(e) && AfterGate(None).Holds(e) && OfKinds(None).Holds(e)
    ensures OfKinds(Some(kinds)).Holds(e) <==> exists i :: 0 <= i < |kinds| && kinds[i] == e.kind
    ensures !IsDurable.Holds(e) <==> e.delivery in {EphemeralLatest, EphemeralWindow, RequestResponse, StreamChunk}
    ensures OnChannel(room).Holds(e) <==> Wanted(Everything(room)).Holds(e)
    ensures Both(p, q).Holds(e) <==> p.Holds(e) && q.Holds(e)
  {
  }

  /** The newest `n` of a sorted selection: what is left out precedes `n` that are not. */
  lemma {:induction false} NewestRows(s: seq<Envelope>, p: Pred, n: nat)
    requires Sorted(s)
    ensures var r := LastN(Select(s, p), n);
            && Sorted(r) && |r| <= n && (forall e :: e in r ==> e in s && p.Holds(e))
            && forall e :: e in s && p.Holds(e) && e !in r ==> |r| == n && forall x :: x in r ==> e.Cursor().IsBefore(x.Cursor())
  {
    var all, r := Select(s, p), LastN(Select(s, p), n);
    SelectMember(s, p);
    SelectSorted(s, p);
    var k := |all| - |r|;
    assert forall i :: 0 <= i < |r| ==> r[i] == all[k + i];
    forall e | e in s && p.Holds(e) && e !in r ensures |r| == n && forall x :: x in r ==> e.Cursor().IsBefore(x.Cursor()) {
      LeftOut(all, r, k, e);
    }
  }

  lemma LeftOut(all: seq<Envelope>, r: seq<Envelope>, k: nat, e: Envelope)
    requires Sorted(all) && k <= |all| && r == all[k..] && e in all && e !in r
    ensures k > 0 && forall x :: x in r ==> e.Cursor().IsBefore(x.Cursor())
  {
    var i :| 0 <= i < |all| && all[i] == e;
    assert forall m :: k <= m < |all| ==> all[m] == r[m - k] && all[m] in r;
    forall x | x in r ensures e.Cursor().IsBefore(x.Cursor()) {
      var j :| 0 <= j < |r| && r[j] == x;
      assert all[i].Cursor().IsBefore(all[k + j].Cursor());
    }
  }

  /** `a` is `b` with some events left out. */
  ghost predicate Subseq(a: seq<Envelope>, b: seq<Envelope>)
    decreases |b|
  {
    a == [] || (b != [] &&
      ((a[|a| - 1] == b[|b| - 1] && Subseq(a[..|a| - 1], b[..|b| - 1])) || Subseq(a, b[..|b| - 1])))
  }

  lemma SubseqGrows(a: seq<Envelope>, b: seq<Envelope>, x: Envelope)
    requires Subseq(a, b)
    ensures Subseq(a, b + [x]) && Subseq(a + [x], b + [x])
  {
    assert (b + [x])[..|b|] == b && (a + [x])[..|a|] == a;
  }

  lemma {:induction false} SubseqSorted(a: seq<Envelope>, b: seq<Envelope>)
    requires Subseq(a, b)
    ensures forall e :: e in a ==> e in b
    ensures Sorted(b) ==> Sorted(a)
    decreases |b|
  {
    if a != [] {
      var b', y := b[..|b| - 1], b[|b| - 1];
      assert b == b' + [y];
      if a[|a| - 1] == y && Subseq(a[..|a| - 1], b') {
        var a' := a[..|a| - 1];
        assert a == a' + [y];
        SubseqSorted(a', b');
        if Sorted(b) {
          SortedFront(b);
          SortedAppend(a', [y]);
        }
      } else {
        SubseqSorted(a, b');
      }
    }
  }

  /** No event occurs twice. */
  ghost predicate NoRepeat(p: seq<Envelope>) {
    forall i, j :: 0 <= i < j < |p| ==> p[i] != p[j]
  }

  lemma {:induction false} SelectNoRepeat(s: seq<Envelope>, p: Pred)
    requires NoRepeat(s)
    ensures NoRepeat(Select(s, p))
  {
    if s != [] {
      var t, last := s[..|s| - 1], s[|s| - 1];
      SelectNoRepeat(t, p);
      SelectMember(t, p);
      var r := Select(t, p);
      forall i | 0 <= i < |r| ensures r[i] != last { assert r[i] in t; }
    }
  }

  /** A joined sequence repeats nothing exactly when its parts share nothing. */
  lemma JoinNoRepeat(a: seq<Envelope>, b: seq<Envelope>)
    requires NoRepeat(a) && NoRepeat(b)
    ensures NoRepeat(a + b) <==> forall e :: e in a ==> e !in b
  {
    var s := a + b;
    if NoRepeat(s) {
      forall e | e in a ensures e !in b {
        var i :| 0 <= i < |a| && a[i] == e;
        forall j | 0 <= j < |b| ensures b[j] != e { assert s[i] != s[|a| + j]; }
      }
    }
    if forall e :: e in a ==> e !in b {
      forall i, j | 0 <= i < j < |s| ensures s[i] != s[j] {
        if i < |a| <= j { assert s[i] in a && s[j] in b; }
      }
    }
  }

  lemma Regroup(a: seq<Envelope>, b: seq<Envelope>, c: seq<Envelope>)
    ensures a + b + c == a + (b + c)
  {
  }

  lemma SelectLast(pipe: seq<Envelope>, e: Envelope, p: Pred)
    ensures Select(pipe + [e], p) == Select(pipe, p) + if p.Holds(e) then [e] else []
  {
    assert (pipe + [e])[..|pipe|] == pipe;
  }

  lemma {:induction false} SelectAppend(a: seq<Envelope>, b: seq<Envelope>, p: Pred)
    ensures Select(a + b, p) == Select(a, p) + Select(b, p)
    decreases |b|
  {
    if b == [] {
      assert a + b == a;
    } else {
      SelectAppend(a, b[..|b| - 1], p);
      assert (a + b)[..|a + b| - 1] == a + b[..|b| - 1];
    }
  }

  lemma {:induction false} SelectMember(s: seq<Envelope>, p: Pred)
    ensures forall e :: e in Select(s, p) <==> e in s && p.Holds(e)
    ensures |Select(s, p)| <= |s|
  {
    if s != [] {
      SelectMember(s[..|s| - 1], p);
      assert s == s[..|s| - 1] + [s[|s| - 1]];
    }
  }

  lemma {:induction false} SelectSorted(s: seq<Envelope>, p: Pred)
    requires Sorted(s)
    ensures Sorted(Select(s, p))
  {
    if s != [] {
      var t := s[..|s| - 1];
      SelectSorted(t, p);
      SelectMember(t, p);
      var r := Select(t, p);
      forall i | 0 <= i < |r| ensures r[i].Cursor().IsBefore(s[|s| - 1].Cursor()) {
        assert r[i] in r;
      }
    }
  }

  lemma {:induction false} SelectSubseq(s: seq<Envelope>, p: Pred)
    ensures Subseq(Select(s, p), s)
  {
    if s != [] {
      var t := s[..|s| - 1];
      SelectSubseq(t, p);
      SubseqGrows(Select(t, p), t, s[|s| - 1]);
      assert s == t + [s[|s| - 1]];
    }
  }

  lemma {:induction false} SelectAll(s: seq<Envelope>, p: Pred)
    requires forall e :: e in s ==> p.Holds(e)
    ensures Select(s, p) == s
  {
    if s != [] {
      SelectAll(s[..|s| - 1], p);
      assert s == s[..|s| - 1] + [s[|s| - 1]];
    }
  }

  lemma {:induction false} SelectNone(s: seq<Envelope>, p: Pred)
    requires forall e :: e in s ==> !p.Holds(e)
    ensures Select(s, p) == []
  {
    if s != [] {
      SelectNone(s[..|s| - 1], p);
      assert s == s[..|s| - 1] + [s[|s| - 1]];
    }
  }

  /** A predicate that holds of exactly the first `k` elements selects that prefix. */
  lemma SelectPrefix(s: seq<Envelope>, p: Pred, k: nat)
    requires k <= |s|
    requires forall i :: 0 <= i < k ==> p.Holds(s[i])
    requires forall i :: k <= i < |s| ==> !p.Holds(s[i])
    ensures Select(s, p) == s[..k]
  {
    assert s == s[..k] + s[k..];
    SelectAppend(s[..k], s[k..], p);
    SelectAll(s[..k], p);
    SelectNone(s[k..], p);
  }

  lemma {:induction false} SelectSame(s: seq<Envelope>, p: Pred, q: Pred)
    requires forall e :: e in s ==> (p.Holds(e) <==> q.Holds(e))
    ensures Select(s, p) == Select(s, q)
  {
    if s != [] {
      SelectSame(s[..|s| - 1], p, q);
      assert s == s[..|s| - 1] + [s[|s| - 1]];
    }
  }

  lemma {:induction false} SelectTwice(s: seq<Envelope>, p: Pred, q: Pred)
    ensures Select(Select(s, p), q) == Select(s, Both(p, q))
  {
    if s != [] {
      var t, last := s[..|s| - 1], s[|s| - 1];
      SelectTwice(t, p, q);
      SelectAppend(Select(t, p), [last], q);
    }
  }

  /** The newest element of a sorted sequence is the one everything else precedes. */
  lemma SortedFront(s: seq<Envelope>)
    requires Sorted(s) && s != []
    ensures Sorted(s[..|s| - 1])
    ensures forall e :: e in s <==> e in s[..|s| - 1] || e == s[|s| - 1]
    ensures forall e :: e in s[..|s| - 1] ==> e.Cursor().IsBefore(s[|s| - 1].Cursor())
  {
    assert s == s[..|s| - 1] + [s[|s| - 1]];
  }

  /** Sorted sequences with the same members are the same sequence. */
  lemma {:induction false} SortedUnique(a: seq<Envelope>, b: seq<Envelope>)
    requires Sorted(a) && Sorted(b)
    requires forall e :: e in a <==> e in b
    ensures a == b
  {
    if a != [] { assert a[0] in b; }
    if b != [] { assert b[0] in a; }
    if a != [] {
      SortedFront(a);
      SortedFront(b);
      var a', b' := a[..|a| - 1], b[..|b| - 1];
      var x, y := a[|a| - 1], b[|b| - 1];
      assert x in b && y in a;
      assert !x.Cursor().IsBefore(x.Cursor());
      assert x == y && x !in a' && x !in b';
      forall e ensures e in a' <==> e in b' {
        assert e in a <==> e in b;
      }
      SortedUnique(a', b');
      assert a == a' + [x] && b == b' + [y];
    }
  }

  lemma SortedAppend(a: seq<Envelope>, b: seq<Envelope>)
    requires Sorted(a) && Sorted(b)
    requires forall x, y :: x in a && y in b ==> x.Cursor().IsBefore(y.Cursor())
    ensures Sorted(a + b)
  {
  }

  /** Cutting a sorted sequence at a gate: what precedes the gate is a prefix. */
  lemma {:induction false} SelectBeforeIsPrefix(s: seq<Envelope>, gate: Option<Cursor>)
    requires Sorted(s)
    ensures Select(s, BeforeGate(gate)) <= s
    ensures forall i :: |Select(s, BeforeGate(gate))| <= i < |s| ==> !BeforeGate(gate).Holds(s[i])
  {
    if s != [] {
      var t := s[..|s| - 1];
      if BeforeGate(gate).Holds(s[|s| - 1]) {
        SortedFront(s);
        forall e | e in s ensures BeforeGate(gate).Holds(e) { }
        SelectAll(s, BeforeGate(gate));
      } else {
        SelectBeforeIsPrefix(t, gate);
        assert s == t + [s[|s| - 1]];
      }
    }
  }

  lemma {:induction false} SelectAfterIsSuffix(s: seq<Envelope>, gate: Option<Cursor>)
    requires Sorted(s)
    ensures var r := Select(s, AfterGate(gate));
            && |r| <= |s| && r == s[|s| - |r|..]
            && forall i :: 0 <= i < |s| - |r| ==> !AfterGate(gate).Holds(s[i])
  {
    if s != [] {
      var t, last := s[..|s| - 1], s[|s| - 1];
      if AfterGate(gate).Holds(last) {
        SelectAfterIsSuffix(t, gate);
        var k := |t| - |Select(t, AfterGate(gate))|;
        assert s[k..] == t[k..] + [last];
        assert forall i :: 0 <= i < k ==> s[i] == t[i];
      } else {
        SortedFront(s);
        forall e | e in s ensures !AfterGate(gate).Holds(e) { }
        SelectNone(s, AfterGate(gate));
      }
    }
  }
}
