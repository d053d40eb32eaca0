/** The writer always makes progress: from every reached state the sends under way and the
    writer's own steps, and nothing else, lead to a state in which all that was accepted is
    stored and nothing is pinned. */
module Settling {
  import opened Envelopes
  import opened Bus
  import opened Persistence
  import opened Holders
  import R = Ring

  /** A writer that is storing has something to store. */
  ghost predicate Busy(s: State) {
    s.writer.Writing? ==> s.batch != []
  }

  lemma BusyStep(cfg: Config, s: State, step: Step)
    requires Busy(s) && Base(s)
    ensures Busy(Apply(cfg, s, step))
  {
    if !WriterStep(step) && !step.Restart? && !step.Push? { ApplyCases(cfg, s, step); }
  }

  lemma {:induction false} BusyAlways(cfg: Config, seed: nat, steps: seq<Step>)
    ensures Busy(Reach(cfg, seed, steps))
  {
    if steps != [] {
      BusyAlways(cfg, seed, steps[..|steps| - 1]);
      BaseAlways(cfg, seed, steps[..|steps| - 1]);
      BusyStep(cfg, Reach(cfg, seed, steps[..|steps| - 1]), steps[|steps| - 1]);
    }
  }

  /** The writer steps still to do: at most five per queued event. */
  function Work(s: State): int {
    5 * |s.queue| +
    match s.writer
    case Collecting => if s.batch == [] then 0 else 2 * |s.batch| + 2
    case Writing(done) => 2 * |s.batch| - done + 1
    case Marking(done) => |s.batch| - done
  }

  /** What the writer does next when no append fails. */
  function NextStep(s: State): (step: Step)
    ensures WriterStep(step) && !step.AppendFail?
  {
    match s.writer
    case Collecting => if s.batch == [] then Collect else BeginWrite
    case Writing(done) => if done < |s.batch| then AppendNext else BeginMark
    case Marking(done) => MarkNext
  }

  lemma WorkShrinks(cfg: Config, s: State)
    requires Base(s) && Busy(s) && Work(s) > 0
    ensures var s' := Apply(cfg, s, NextStep(s)); 0 <= Work(s') < Work(s) && Busy(s')
  {
    ApplyCases(cfg, s, NextStep(s));
  }

  ghost predicate Quiet(s: State) {
    s.queue == [] && s.batch == [] && s.writer.Collecting?
  }

  /** The writer's own steps. */
  ghost predicate Writes(steps: seq<Step>) {
    forall i :: 0 <= i < |steps| ==> WriterStep(steps[i]) && !steps[i].AppendFail?
  }

  lemma {:induction false} DrainWriter(cfg: Config, s: State) returns (steps: seq<Step>)
    requires Base(s) && Busy(s) && Work(s) >= 0
    ensures Writes(steps) && |steps| <= Work(s)
    ensures var s' := Run(cfg, s, steps);
            Quiet(s') && s'.calls == s.calls && s'.past.log == s.past.log
    decreases Work(s)
  {
    if Work(s) <= 0 {
      steps := [];
    } else {
      var step := NextStep(s);
      var s1 := Apply(cfg, s, step);
      WorkShrinks(cfg, s);
      BaseStep(cfg, s, step);
      ApplyCases(cfg, s, step);
      var rest := DrainWriter(cfg, s1);
      steps := [step] + rest;
      FirstStep(cfg, s, step, rest);
    }
  }

  lemma FirstStep(cfg: Config, s: State, step: Step, rest: seq<Step>)
    ensures Run(cfg, s, [step] + rest) == Run(cfg, Apply(cfg, s, step), rest)
  {
    RunAppend(cfg, s, [step], rest);
    assert [step][..0] == [];
    assert Run(cfg, s, [step]) == Apply(cfg, Run(cfg, s, [step][..0]), step);
  }

  // ---------------------------------------------------------------- batches

  function Collects(n: nat): seq<Step> {
    seq(n, i => Collect)
  }

  /** The queue's oldest `k` have moved to the end of the batch. */
  function Collected(s: State, k: nat): State
    requires k <= |s.queue|
  {
    s.(batch := s.batch + s.queue[..k], queue := s.queue[k..])
  }

  lemma CollectedNext(s: State, k: nat)
    requires k <= |s.queue| && s.writer.Collecting? && |s.batch| + k <= 64
    ensures DoCollect(Collected(s, k)) == if k < |s.queue| && |s.batch| + k < 64 then Collected(s, k + 1) else Collected(s, k)
  {
    if k < |s.queue| {
      assert s.queue[..k + 1] == s.queue[..k] + [s.queue[k]];
      assert s.batch + s.queue[..k] + [s.queue[k]] == s.batch + s.queue[..k + 1];
      assert s.queue[k..][0] == s.queue[k] && s.queue[k..][1..] == s.queue[k + 1..];
    }
  }

  /** However often it is asked to, a collecting writer takes the oldest entries in order, until
      its batch holds 64 or the queue is empty. */
  lemma {:induction false} BatchesFill(cfg: Config, s: State, n: nat) returns (k: nat)
    requires s.writer.Collecting? && |s.batch| <= 64
    ensures k <= |s.queue| && Run(cfg, s, Collects(n)) == Collected(s, k)
    ensures |s.batch| + k <= 64 && (k == n || (k < n && (k == |s.queue| || |s.batch| + k == 64)))
  {
    if n == 0 {
      k := 0;
      assert s.batch + s.queue[..0] == s.batch && s.queue[0..] == s.queue;
    } else {
      k := BatchesFill(cfg, s, n - 1);
      assert Collects(n)[..n - 1] == Collects(n - 1) && Collects(n)[n - 1] == Collect;
      CollectedNext(s, k);
      if k < |s.queue| && |s.batch| + k < 64 { k := k + 1; }
    }
  }

  /** The batch is still being stored or confirmed, and nothing newer has been taken. */
  ghost predicate Holding(s: State, s': State) {
    !s'.writer.Collecting? && s'.batch == s.batch && s.queue <= s'.queue
  }

  lemma HoldingStep(cfg: Config, s: State, mid: State, step: Step)
    requires Holding(s, mid) && !step.Restart?
    ensures var s' := Apply(cfg, mid, step);
            Holding(s, s') || (step.MarkNext? && s'.writer.Collecting? && s'.batch == [] && s.queue <= s'.queue)
  {
    if WriterStep(step) {
      ApplyCases(cfg, mid, step);
    } else if step.Send? {
      ApplyCases(cfg, mid, step);
      HeldAfterSend(s, mid, step.call);
    } else {
      PipelineFrame(cfg, mid, step);
    }
  }

  lemma HeldAfterSend(s: State, mid: State, t: nat)
    requires Holding(s, mid)
    ensures Holding(s, DoSend(mid, t))
  {
  }

  /** Once a batch is being stored, whatever fails and whatever else happens, it is kept as it is
      and nothing newer is taken from the queue until its last entry has been confirmed. */
  lemma {:induction false} BatchIsKept(cfg: Config, s: State, later: seq<Step>)
    requires !s.writer.Collecting? && forall i :: 0 <= i < |later| ==> !later[i].Restart?
    ensures || Holding(s, Run(cfg, s, later))
            || exists j :: 0 <= j < |later| && later[j].MarkNext? && Holding(s, Run(cfg, s, later[..j]))
                        && Run(cfg, s, later[..j + 1]).writer.Collecting? && Run(cfg, s, later[..j + 1]).batch == []
  {
    if later != [] {
      var n := |later| - 1;
      var front := later[..n];
      BatchIsKept(cfg, s, front);
      if Holding(s, Run(cfg, s, front)) {
        HoldingStep(cfg, s, Run(cfg, s, front), later[n]);
        assert later[..n + 1] == later;
      } else {
        var j :| 0 <= j < n && front[j].MarkNext? && Holding(s, Run(cfg, s, front[..j]))
                 && Run(cfg, s, front[..j + 1]).writer.Collecting? && Run(cfg, s, front[..j + 1]).batch == [];
        assert front[..j] == later[..j] && front[..j + 1] == later[..j + 1];
      }
    }
  }

  // ---------------------------------------------------------------- sends

  function Unfilled(s: State): set<nat> {
    set t | t in s.calls && s.calls[t].pc.Pushed? && s.calls[t].env.delivery.Durable?
  }

  ghost predicate Sends(steps: seq<Step>) {
    forall i :: 0 <= i < |steps| ==> steps[i].Send?
  }

  lemma SendOne(cfg: Config, s: State, t: nat)
    requires t in Unfilled(s)
    ensures var s' := Apply(cfg, s, Send(t));
            Unfilled(s') == Unfilled(s) - {t} && s'.past.log == s.past.log
  {
    ApplyCases(cfg, s, Send(t));
  }

  lemma {:induction false} FillPermits(cfg: Config, s: State) returns (steps: seq<Step>)
    ensures Sends(steps) && |steps| == |Unfilled(s)|
    ensures var s' := Run(cfg, s, steps); Unfilled(s') == {} && s'.past.log == s.past.log
    decreases |Unfilled(s)|
  {
    steps := [];
    if Unfilled(s) != {} {
      var t :| t in Unfilled(s);
      SendOne(cfg, s, t);
      var rest := FillPermits(cfg, Apply(cfg, s, Send(t)));
      FirstStep(cfg, s, Send(t), rest);
      steps := [Send(t)] + rest;
    }
  }

  // ---------------------------------------------------------------- everything settles

  /** Nothing held means nothing pinned, and every accepted durable stored. */
  lemma SettledWhenQuiet(cfg: Config, seed: nat, steps: seq<Step>)
    requires var s := Reach(cfg, seed, steps); FreshIds(s) && Quiet(s) && Unfilled(s) == {}
    ensures var s := Reach(cfg, seed, steps);
            && (forall room, i :: 0 <= i < |At(s.rings, room)| ==> !At(s.rings, room)[i].pinned)
            && (forall room, e :: e in At(s.past.log, room) && e.delivery == Durable ==> e in At(s.sink, room))
  {
    var s := Reach(cfg, seed, steps);
    PinnedOrPersisted(cfg, seed, steps);
    SafeAlways(cfg, seed, steps);
    HeldAlways(cfg, seed, steps);
    assert Pipe(s) == [];
    forall t, e ensures !UnsentBy(s, t, e) {
      assert t !in Unfilled(s);
    }
    forall room, i | 0 <= i < |At(s.rings, room)| ensures !At(s.rings, room)[i].pinned {
      NonePinned(s, room, i);
    }
    forall room, e | e in At(s.past.log, room) && e.delivery == Durable ensures e in At(s.sink, room) {
      if e in R.Envs(At(s.rings, room)) {
        var i :| 0 <= i < |R.Envs(At(s.rings, room))| && R.Envs(At(s.rings, room))[i] == e;
        assert !At(s.rings, room)[i].pinned;
      }
    }
  }

  lemma NonePinned(s: State, room: RoomId, i: nat)
    requires RoomOk(s, room) && LogRooms(s) && forall e :: !PinnedHere(s, e)
    requires i < |At(s.rings, room)|
    ensures !At(s.rings, room)[i].pinned
  {
    var slots := At(s.rings, room);
    R.PinnedMember(slots);
    var e := slots[i].env;
    assert R.Envs(slots)[i] == e && e in R.Envs(slots) && e in At(s.past.log, room);
    assert !PinnedHere(s, e);
  }

  /** From every reached state with fresh ids, filling the permits held by calls past the lock
      and then letting the writer run, with no further publish and no failed append, ends in
      finitely many steps with every accepted durable stored and no entry pinned. */
  lemma EverythingSettles(cfg: Config, seed: nat, steps: seq<Step>) returns (sends: seq<Step>, writes: seq<Step>)
    requires FreshIds(Reach(cfg, seed, steps))
    ensures Sends(sends) && Writes(writes)
    ensures var s, s' := Reach(cfg, seed, steps), Reach(cfg, seed, steps + sends + writes);
            && s'.past.log == s.past.log && Quiet(s')
            && (forall room, i :: 0 <= i < |At(s'.rings, room)| ==> !At(s'.rings, room)[i].pinned)
            && (forall room, e :: e in At(s'.past.log, room) && e.delivery == Durable ==> e in At(s'.sink, room))
  {
    var begin := Fresh(1, seed, map[], map[]);
    sends := FillPermits(cfg, Reach(cfg, seed, steps));
    RunAppend(cfg, begin, steps, sends);
    BaseAlways(cfg, seed, steps + sends);
    BusyAlways(cfg, seed, steps + sends);
    var mid := Reach(cfg, seed, steps + sends);
    WorkIsNat(mid);
    writes := DrainWriter(cfg, mid);
    RunAppend(cfg, begin, steps + sends, writes);
    SettledWhenQuiet(cfg, seed, steps + sends + writes);
  }

  lemma WorkIsNat(s: State)
    requires Base(s)
    ensures Work(s) >= 0
  {
  }
}
