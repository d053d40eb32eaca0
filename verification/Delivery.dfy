/** What a registration is sent over whole runs, on the fields of filter and event: nothing it
    did not ask for, nothing missing unless its buffer was full, nothing once it has left. */
module Delivery {
  import opened Options
  import opened Envelopes
  import opened HeaderFilters
  import opened Selection
  import opened Bus
  import opened Replay
  import opened Fanout

  /** The event is of the channel, of a listed kind, of a listed class, and its headers match. */
  ghost predicate Asks(f: Filter, e: Envelope) {
    && e.channel == f.channel
    && (f.kinds.Some? ==> exists i :: 0 <= i < |f.kinds.value| && f.kinds.value[i] == e.kind)
    && (f.delivery.Some? ==> exists i :: 0 <= i < |f.delivery.value| && f.delivery.value[i] == e.delivery)
    && f.headers.Matches(e.headers)
  }

  /** In every run a registered subscriber is sent only events it asked for that its channel
      showed since it registered; and one that never lagged and still reads, all of them. */
  lemma SentExactlyWhen(cfg: Config, seed: nat, steps: seq<Step>, k: nat)
    requires k in Reach(cfg, seed, steps).subs
    ensures var s := Reach(cfg, seed, steps);
            var sub := s.subs[k];
            var shown, sent := At(s.past.shown, sub.filter.channel), sub.received + sub.queue;
            && sub.since <= |shown|
            && (forall e :: e in sent ==> e in shown[sub.since..] && Asks(sub.filter, e))
            && (!sub.lagged && !sub.closed ==> forall e :: e in shown[sub.since..] && Asks(sub.filter, e) ==> e in sent)
  {
    var s := Reach(cfg, seed, steps);
    var sub := s.subs[k];
    SentIsSubsequence(cfg, seed, steps, k);
    var since := Since(s, sub);
    SubseqSorted(sub.received + sub.queue, Select(since, Wanted(sub.filter)));
    SelectMember(since, Wanted(sub.filter));
    assert forall e :: Wanted(sub.filter).Holds(e) <==> Asks(sub.filter, e);
    if !sub.lagged && !sub.closed { UnlaggedIsComplete(cfg, seed, steps, k); }
  }

  // ---------------------------------------------------------------- lagging needs a full buffer

  lemma {:induction false} SubseqLength(a: seq<Envelope>, b: seq<Envelope>)
    requires Subseq(a, b)
    ensures |a| <= |b|
    decreases |b|
  {
    if a != [] {
      if a[|a| - 1] == b[|b| - 1] && Subseq(a[..|a| - 1], b[..|b| - 1]) {
        SubseqLength(a[..|a| - 1], b[..|b| - 1]);
      } else {
        SubseqLength(a, b[..|b| - 1]);
      }
    }
  }

  /** The queue is within its bound, and whoever lagged was owed more than that. */
  ghost predicate LagOk(cfg: Config, s: State, sub: Sub) {
    && |sub.queue| <= cfg.SubscriberBuffer()
    && sub.since <= |At(s.past.shown, sub.filter.channel)|
    && (sub.lagged ==> |Select(Since(s, sub), Wanted(sub.filter))| > cfg.SubscriberBuffer())
  }

  lemma OfferLag(cfg: Config, sub: Sub, owed: seq<Envelope>, e: Envelope)
    requires Subseq(sub.received + sub.queue, owed) && |sub.queue| <= cfg.SubscriberBuffer()
    requires sub.lagged ==> |owed| > cfg.SubscriberBuffer()
    ensures var sub', owed' := Offer(cfg, sub, e), owed + if sub.filter.Matches(e) then [e] else [];
            && |sub'.queue| <= cfg.SubscriberBuffer() && sub'.filter == sub.filter && sub'.since == sub.since
            && (sub'.lagged ==> |owed'| > cfg.SubscriberBuffer())
  {
    SubseqLength(sub.received + sub.queue, owed);
  }

  lemma LagPush(cfg: Config, s: State, t: nat, sub: Sub)
    requires LagOk(cfg, s, sub) && SubOk(s, sub) && CallAt(s, t, Recorded)
    ensures LagOk(cfg, DoPush(cfg, s, t), Offer(cfg, sub, s.calls[t].env))
  {
    var s', e := DoPush(cfg, s, t), s.calls[t].env;
    if sub.filter.channel == e.channel {
      assert Since(s', sub) == Since(s, sub) + [e];
      SelectLast(Since(s, sub), e, Wanted(sub.filter));
      OfferLag(cfg, sub, Select(Since(s, sub), Wanted(sub.filter)), e);
    }
  }

  lemma LagStep(cfg: Config, s: State, step: Step, k: nat)
    requires SubsOk(s) && forall j :: j in s.subs ==> LagOk(cfg, s, s.subs[j])
    requires k in Apply(cfg, s, step).subs
    ensures LagOk(cfg, Apply(cfg, s, step), Apply(cfg, s, step).subs[k])
  {
    if step.Push? {
      if CallAt(s, step.call, Recorded) { LagPush(cfg, s, step.call, s.subs[k]); }
    } else if !step.Restart? {
      ShownFrame(cfg, s, step);
      if SubStep(step) {
        ApplyCases(cfg, s, step);
        LagSub(cfg, s, step, k);
      } else {
        SubsFrame(cfg, s, step);
      }
    }
  }

  lemma LagSub(cfg: Config, s: State, step: Step, k: nat)
    requires SubStep(step) && (forall j :: j in s.subs ==> LagOk(cfg, s, s.subs[j])) && k in ApplySub(s, step).subs
    ensures LagOk(cfg, s, ApplySub(s, step).subs[k])
  {
    if step.Subscribe? && k == s.nextSub {
      var shown := At(s.past.shown, step.filter.channel);
      assert shown[|shown|..] == [];
    } else {
      assert LagOk(cfg, s, s.subs[k]);
    }
  }

  lemma {:induction false} LagAlways(cfg: Config, seed: nat, steps: seq<Step>)
    ensures var s := Reach(cfg, seed, steps); forall k :: k in s.subs ==> LagOk(cfg, s, s.subs[k])
  {
    if steps != [] {
      var front, step := steps[..|steps| - 1], steps[|steps| - 1];
      LagAlways(cfg, seed, front);
      SubsAlways(cfg, seed, front);
      var s' := Reach(cfg, seed, steps);
      forall k | k in s'.subs ensures LagOk(cfg, s', s'.subs[k]) { LagStep(cfg, Reach(cfg, seed, front), step, k); }
    }
  }

  /** In every run a subscriber's queue stays within its buffer, and as long as its channel has
      shown no more of what it wants than the buffer holds, it has not lagged. */
  lemma FewEventsNeverLag(cfg: Config, seed: nat, steps: seq<Step>, k: nat)
    requires k in Reach(cfg, seed, steps).subs
    ensures var s := Reach(cfg, seed, steps);
            var sub := s.subs[k];
            var shown := At(s.past.shown, sub.filter.channel);
            && |sub.queue| <= cfg.SubscriberBuffer() && sub.since <= |shown|
            && (|Select(shown[sub.since..], Wanted(sub.filter))| <= cfg.SubscriberBuffer() ==> !sub.lagged)
  {
    LagAlways(cfg, seed, steps);
    var s := Reach(cfg, seed, steps);
    assert LagOk(cfg, s, s.subs[k]);
  }

  // ---------------------------------------------------------------- reading and leaving

  function Reads(k: nat, n: nat): seq<Step> {
    seq(n, i => Receive(k))
  }

  function Taken(sub: Sub, n: nat): Sub
    requires n <= |sub.queue|
  {
    sub.(received := sub.received + sub.queue[..n], queue := sub.queue[n..])
  }

  lemma TakenNext(sub: Sub, n: nat)
    requires n < |sub.queue|
    ensures var mid := Taken(sub, n);
            mid.queue != [] && mid.(queue := mid.queue[1..], received := mid.received + [mid.queue[0]]) == Taken(sub, n + 1)
  {
    assert sub.queue[..n + 1] == sub.queue[..n] + [sub.queue[n]];
    Regroup(sub.received, sub.queue[..n], [sub.queue[n]]);
  }

  /** A subscriber that reads as often as it has events queued receives them all, in order. */
  lemma {:induction false} ReaderDrains(cfg: Config, s: State, k: nat, n: nat)
    requires k in s.subs && n <= |s.subs[k].queue|
    ensures Run(cfg, s, Reads(k, n)) == s.(subs := s.subs[k := Taken(s.subs[k], n)])
  {
    var sub := s.subs[k];
    if n == 0 {
      assert Taken(sub, 0) == sub;
      assert s.subs[k := sub] == s.subs;
    } else {
      assert Reads(k, n)[..n - 1] == Reads(k, n - 1) && Reads(k, n)[n - 1] == Receive(k);
      ReaderDrains(cfg, s, k, n - 1);
      TakenNext(sub, n - 1);
      ReceiveOne(cfg, s, s.(subs := s.subs[k := Taken(sub, n - 1)]), k, Taken(sub, n - 1));
    }
  }

  lemma ReceiveOne(cfg: Config, s: State, s1: State, k: nat, sub: Sub)
    requires s1 == s.(subs := s.subs[k := sub]) && sub.queue != []
    ensures Apply(cfg, s1, Receive(k))
            == s.(subs := s.subs[k := sub.(queue := sub.queue[1..], received := sub.received + [sub.queue[0]])])
  {
    assert s1.subs[k] == sub;
  }

  /** Once its receiver is gone a registration is sent nothing more and not flagged, and once it
      has left it does not come back. */
  lemma {:induction false} GoneGetsNothing(cfg: Config, s: State, later: seq<Step>, k: nat)
    requires NoRestart(later) && k < s.nextSub
    ensures var s' := Run(cfg, s, later);
            && k < s'.nextSub
            && (k !in s.subs ==> k !in s'.subs)
            && (k in s.subs && s.subs[k].closed && k in s'.subs ==>
                  var sub, sub' := s.subs[k], s'.subs[k];
                  sub'.closed && sub'.received + sub'.queue == sub.received + sub.queue && sub'.lagged == sub.lagged)
  {
    if later != [] {
      var front, step := later[..|later| - 1], later[|later| - 1];
      GoneGetsNothing(cfg, s, front, k);
      GoneStep(cfg, Run(cfg, s, front), step, k);
    }
  }

  lemma GoneStep(cfg: Config, s: State, step: Step, k: nat)
    requires !step.Restart? && k < s.nextSub
    ensures var s' := Apply(cfg, s, step);
            && k < s'.nextSub
            && (k !in s.subs ==> k !in s'.subs)
            && (k in s'.subs && s.subs[k].closed ==>
                  var sub, sub' := s.subs[k], s'.subs[k];
                  sub'.closed && sub'.received + sub'.queue == sub.received + sub.queue && sub'.lagged == sub.lagged)
  {
    if !step.Push? {
      ApplyCases(cfg, s, step);
      if step.Receive? {
        if step.sub in s.subs && s.subs[step.sub].queue != [] { HandOver(s.subs[step.sub].received, s.subs[step.sub].queue); }
      } else if !SubStep(step) {
        SubsFrame(cfg, s, step);
      }
    }
  }
}
