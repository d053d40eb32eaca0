/** Recovery of a lagged subscriber. A push that finds the queue full is dropped and flagged;
    the subscriber is meant to resume from its last cursor. That covers what it missed only
    as long as nothing was delivered past a refused durable event. */
module Lagging {
  import opened Options
  import opened Envelopes
  import opened HeaderFilters
  import opened Selection
  import opened Bus
  import opened Persistence
  import opened Replay
  import opened Subscription
  import opened Fanout
  import opened Streams

  /** The matching events shown since registration: what the subscriber ought to see. */
  ghost function Owed(cfg: Config, seed: nat, steps: seq<Step>, filter: Filter, later: seq<Step>): seq<Envelope> {
    var s, s' := Reach(cfg, seed, steps), Reach(cfg, seed, Whole(steps, filter, later));
    var shown, shown' := At(s.past.shown, filter.channel), At(s'.past.shown, filter.channel);
    if |shown| <= |shown'| then Select(shown'[|shown|..], Wanted(filter)) else []
  }

  /** The accepted durables on the filter after a cursor: what catch-up pages from it hold. */
  ghost function CatchUp(s: State, filter: Filter, from: Option<Cursor>): seq<Envelope> {
    Select(At(s.past.log, filter.channel), Both(Wanting(filter, from), IsDurable))
  }

  /** Nothing was delivered past a durable event that was refused. */
  ghost predicate StoppedAtRefusal(sent: seq<Envelope>, owed: seq<Envelope>) {
    forall d, e :: d in owed && d.delivery.Durable? && d !in sent && e in sent ==> e.Cursor().IsBefore(d.Cursor())
  }

  lemma SentSinceRegistration(cfg: Config, seed: nat, steps: seq<Step>, filter: Filter, later: seq<Step>)
    requires Registered(cfg, seed, steps, filter, later)
    ensures var s, s' := Reach(cfg, seed, steps), Reach(cfg, seed, Whole(steps, filter, later));
            && At(s.past.shown, filter.channel) <= At(s'.past.shown, filter.channel)
            && Subseq(SentTo(cfg, seed, steps, filter, later), Owed(cfg, seed, steps, filter, later))
  {
    var s := Reach(cfg, seed, steps);
    var s1 := DoSubscribe(s, filter);
    assert Reach(cfg, seed, steps + [Subscribe(filter)]) == s1 by {
      assert (steps + [Subscribe(filter)])[..|steps|] == steps;
    }
    RunAppend(cfg, Fresh(1, seed, map[], map[]), steps + [Subscribe(filter)], later);
    SubKept(cfg, s1, later, s.nextSub, filter.channel);
    SentIsSubsequence(cfg, seed, Whole(steps, filter, later), s.nextSub);
  }

  /** The catch-up from the last delivered event holds exactly what is owed after it. */
  lemma CatchUpIsOwed(shown: seq<Envelope>, shown': seq<Envelope>, log': seq<Envelope>, filter: Filter, last: Envelope)
    requires shown <= shown' && Sorted(shown') && Select(shown', IsDurable) == Select(log', IsDurable)
    requires last in shown'[|shown|..]
    ensures var c := Some(last.Cursor());
            Select(log', Both(Wanting(filter, c), IsDurable))
            == Select(Select(Select(shown'[|shown|..], Wanted(filter)), IsDurable), AfterGate(c))
  {
    var c, since := Some(last.Cursor()), shown'[|shown|..];
    var p := Wanting(filter, c);
    assert shown' == shown + since;
    DurablesOf(shown', log', p);
    SelectAppend(shown, since, Both(p, IsDurable));
    NoneBefore(shown, since, filter, last);
    assert [] + Select(since, Both(p, IsDurable)) == Select(since, Both(p, IsDurable));
    OwedAfter(since, filter, c);
  }

  lemma NoneBefore(shown: seq<Envelope>, since: seq<Envelope>, filter: Filter, last: Envelope)
    requires Sorted(shown + since) && last in since
    ensures Select(shown, Both(Wanting(filter, Some(last.Cursor())), IsDurable)) == []
  {
    var c := Some(last.Cursor());
    SortedParts(shown, since);
    forall e | e in shown ensures !Both(Wanting(filter, c), IsDurable).Holds(e) {
      assert e.Cursor().IsBefore(last.Cursor());
      assert !AfterGate(c).Holds(e) && !Wanting(filter, c).Holds(e);
    }
    SelectNone(shown, Both(Wanting(filter, c), IsDurable));
  }

  lemma OwedAfter(since: seq<Envelope>, filter: Filter, c: Option<Cursor>)
    ensures Select(Select(Select(since, Wanted(filter)), IsDurable), AfterGate(c)) == Select(since, Both(Wanting(filter, c), IsDurable))
  {
    SelectTwice(since, Wanted(filter), IsDurable);
    SelectTwice(since, Both(Wanted(filter), IsDurable), AfterGate(c));
    SelectSame(since, Both(Both(Wanted(filter), IsDurable), AfterGate(c)), Both(Wanting(filter, c), IsDurable));
  }

  /** Two histories with the same durables have the same durables of any selection. */
  lemma DurablesOf(a: seq<Envelope>, b: seq<Envelope>, p: Pred)
    requires Select(a, IsDurable) == Select(b, IsDurable)
    ensures Select(a, Both(p, IsDurable)) == Select(b, Both(p, IsDurable))
  {
    SelectTwice(a, IsDurable, p);
    SelectTwice(b, IsDurable, p);
    SelectSame(a, Both(IsDurable, p), Both(p, IsDurable));
    SelectSame(b, Both(IsDurable, p), Both(p, IsDurable));
  }

  /** Delivered, then everything owed after the last delivered: whole exactly when delivery
      stopped at the first refusal. */
  lemma CoversExactlyWhen(sent: seq<Envelope>, owed: seq<Envelope>)
    requires Subseq(sent, owed) && Sorted(owed) && sent != []
    ensures var all, c := Select(owed, IsDurable), Some(sent[|sent| - 1].Cursor());
            Select(sent, IsDurable) + Select(all, AfterGate(c)) == all <==> StoppedAtRefusal(sent, owed)
  {
    var all, c := Select(owed, IsDurable), Some(sent[|sent| - 1].Cursor());
    var m := |all| - |Select(all, AfterGate(c))|;
    SubseqSorted(sent, owed);
    SelectSorted(owed, IsDurable);
    SelectAfterIsSuffix(all, c);
    SelectMember(all, AfterGate(c));
    JoinsExactlyWhen(Select(sent, IsDurable), all, m);
    HeadExactlyWhen(sent, owed, m);
  }

  lemma JoinsExactlyWhen(got: seq<Envelope>, all: seq<Envelope>, m: nat)
    requires m <= |all|
    ensures got + all[m..] == all <==> got == all[..m]
  {
    assert all == all[..m] + all[m..];
    if got + all[m..] == all {
      assert |got| == m;
      assert got == (got + all[m..])[..m];
    }
  }

  lemma HeadExactlyWhen(sent: seq<Envelope>, owed: seq<Envelope>, m: nat)
    requires Subseq(sent, owed) && Sorted(owed) && sent != [] && Sorted(sent)
    requires var all, c := Select(owed, IsDurable), Some(sent[|sent| - 1].Cursor());
             && m <= |all| && Sorted(all)
             && (forall i :: 0 <= i < m ==> !AfterGate(c).Holds(all[i]))
             && (forall e :: e in all[m..] ==> AfterGate(c).Holds(e))
    ensures Select(sent, IsDurable) == Select(owed, IsDurable)[..m] <==> StoppedAtRefusal(sent, owed)
  {
    var all, got := Select(owed, IsDurable), Select(sent, IsDurable);
    SubseqSorted(sent, owed);
    SelectMember(owed, IsDurable);
    SelectMember(sent, IsDurable);
    SelectSorted(sent, IsDurable);
    assert all == all[..m] + all[m..];
    assert forall i, j :: 0 <= i < j < m ==> all[..m][i] == all[i] && all[..m][j] == all[j];
    forall e ensures e in all[..m] <==> e in owed && e.delivery.Durable? && !AfterGate(Some(sent[|sent| - 1].Cursor())).Holds(e) {
      assert IsDurable.Holds(e) <==> e.delivery.Durable?;
      assert forall i :: 0 <= i < m ==> all[..m][i] == all[i];
    }
    forall e ensures e in got <==> e in sent && e.delivery.Durable? { assert IsDurable.Holds(e) <==> e.delivery.Durable?; }
    forall e | e in sent ensures !AfterGate(Some(sent[|sent| - 1].Cursor())).Holds(e) { LastOfSorted(sent, e); }
    RefusalMeans(sent, owed);
    if StoppedAtRefusal(sent, owed) { SortedUnique(got, all[..m]); }
  }

  /** Stopping at the refusal, in terms of the last delivered event. */
  lemma RefusalMeans(sent: seq<Envelope>, owed: seq<Envelope>)
    requires Sorted(sent) && sent != []
    ensures StoppedAtRefusal(sent, owed) <==>
            forall d :: d in owed && d.delivery.Durable? && d !in sent ==> AfterGate(Some(sent[|sent| - 1].Cursor())).Holds(d)
  {
    var last := sent[|sent| - 1];
    assert last in sent;
    forall e | e in sent ensures e == last || e.Cursor().IsBefore(last.Cursor()) {
      var i :| 0 <= i < |sent| && sent[i] == e;
      if i < |sent| - 1 { assert sent[i].Cursor().IsBefore(sent[|sent| - 1].Cursor()); }
    }
  }

  /** In every run that shows the channel's events in sequence order: what a subscriber was
      delivered, followed by a catch-up from the last of it, is exactly the durables owed since
      registration, in order and once each, if and only if nothing was delivered past a durable
      event that was refused. */
  lemma ResumeCoversExactlyWhen(cfg: Config, seed: nat, steps: seq<Step>, filter: Filter, later: seq<Step>)
    requires Registered(cfg, seed, steps, filter, later) && SentTo(cfg, seed, steps, filter, later) != []
    requires Sorted(At(Reach(cfg, seed, Whole(steps, filter, later)).past.shown, filter.channel))
    ensures var s' := Reach(cfg, seed, Whole(steps, filter, later));
            var sent, owed := SentTo(cfg, seed, steps, filter, later), Owed(cfg, seed, steps, filter, later);
            var from := Some(sent[|sent| - 1].Cursor());
            Select(sent, IsDurable) + CatchUp(s', filter, from) == Select(owed, IsDurable) <==> StoppedAtRefusal(sent, owed)
  {
    var room := filter.channel;
    var s, s' := Reach(cfg, seed, steps), Reach(cfg, seed, Whole(steps, filter, later));
    var sent, owed := SentTo(cfg, seed, steps, filter, later), Owed(cfg, seed, steps, filter, later);
    SentSinceRegistration(cfg, seed, steps, filter, later);
    DurablesShownAlways(cfg, seed, Whole(steps, filter, later), room);
    var shown, shown' := At(s.past.shown, room), At(s'.past.shown, room);
    OwedInOrder(shown, shown', filter);
    SubseqSorted(sent, owed);
    assert sent[|sent| - 1] in sent;
    CatchUpIsOwed(shown, shown', At(s'.past.log, room), filter, sent[|sent| - 1]);
    CoversExactlyWhen(sent, owed);
  }

  lemma OwedInOrder(shown: seq<Envelope>, shown': seq<Envelope>, filter: Filter)
    requires shown <= shown' && Sorted(shown')
    ensures Sorted(Select(shown'[|shown|..], Wanted(filter)))
    ensures forall e :: e in Select(shown'[|shown|..], Wanted(filter)) ==> e in shown'[|shown|..]
  {
    assert shown' == shown + shown'[|shown|..];
    SortedParts(shown, shown'[|shown|..]);
    SelectSorted(shown'[|shown|..], Wanted(filter));
    SelectMember(shown'[|shown|..], Wanted(filter));
  }

  /** The catch-up is what replaying from the cursor shows: with fresh ids, from the ring as it
      stands and the store read then or, if the ring holds anything, at any later time. */
  lemma CatchUpIsReplayed(cfg: Config, seed: nat, steps: seq<Step>, later: seq<Step>, filter: Filter, from: Option<Cursor>)
    requires NoRestart(later)
    requires FreshIds(Reach(cfg, seed, steps + later)) && InOrder(Reach(cfg, seed, steps + later), filter.channel)
    requires At(Reach(cfg, seed, steps).rings, filter.channel) != [] || later == []
    ensures var s, s' := Reach(cfg, seed, steps), Reach(cfg, seed, steps + later);
            Select(Replayed(s, s', filter.channel, from), Wanted(filter)) == CatchUp(s, filter, from)
  {
    var room, s := filter.channel, Reach(cfg, seed, steps);
    NoGap(cfg, seed, steps, later, room, from);
    var log := At(s.past.log, room);
    SelectTwice(log, Both(AfterGate(from), IsDurable), Wanted(filter));
    SelectSame(log, Both(Both(AfterGate(from), IsDurable), Wanted(filter)), Both(Wanting(filter, from), IsDurable));
  }
}
