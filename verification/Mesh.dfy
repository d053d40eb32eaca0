/** Mesh forwarding of one event. Each node offers a first arrival to every link except the
    one it came in on and drops every repeat; the flood ends, and unless a frame is dropped
    it reaches every node the origin can reach. */
module Mesh {
  import opened Options

  type Node = nat

  /** Directed links: `(a, b)` when `a` holds a connection to `b`. */
  type Links = set<(Node, Node)>

  /** A frame travelling over one link. */
  datatype State = State(
    accepted: set<Node>,
    inFlight: multiset<(Node, Node)>,
    // history
    forwards: multiset<(Node, Node)>,   // every frame ever put on a link
    acceptances: seq<Node>,             // first arrivals, in order
    via: map<Node, Option<Node>>)       // where each first arrival came from

  datatype Step =
    | Deliver(link: (Node, Node))   // a frame arrives: accepted and re-offered, or a duplicate
    | Lose(link: (Node, Node))      // a frame is dropped by a full queue or a failed link

  /** The links a node forwards over: all of its own but the one the frame came from. */
  function Outgoing(links: Links, node: Node, from: Option<Node>): set<(Node, Node)> {
    set l | l in links && l.0 == node && from != Some(l.1)
  }

  function Accept(links: Links, s: State, node: Node, from: Option<Node>): State {
    if node in s.accepted then s
    else
      var frames := multiset(Outgoing(links, node, from));
      s.(accepted := s.accepted + {node},
         inFlight := s.inFlight + frames,
         forwards := s.forwards + frames,
         acceptances := s.acceptances + [node],
         via := s.via[node := from])
  }

  function Apply(links: Links, s: State, step: Step): State {
    match step
    case Deliver(l) =>
      if l !in s.inFlight then s
      else Accept(links, s.(inFlight := s.inFlight - multiset{l}), l.1, Some(l.0))
    case Lose(l) =>
      if l !in s.inFlight then s else s.(inFlight := s.inFlight - multiset{l})
  }

  const QUIET: State := State({}, multiset{}, multiset{}, [], map[])

  /** The origin publishes locally and offers the event to all of its links. */
  function Start(links: Links, origin: Node): State {
    Accept(links, QUIET, origin, None)
  }

  function Run(links: Links, origin: Node, steps: seq<Step>): State {
    if steps == [] then Start(links, origin)
    else Apply(links, Run(links, origin, steps[..|steps| - 1]), steps[|steps| - 1])
  }

  // ---------------------------------------------------------------- once per node, once per link

  ghost predicate NodesOnce(s: State) {
    && (forall i, j :: 0 <= i < j < |s.acceptances| ==> s.acceptances[i] != s.acceptances[j])
    && (forall n :: n in s.acceptances <==> n in s.accepted)
  }

  /** A link carries at most one frame, only after its tail accepted the event. */
  ghost predicate LinkOnce(links: Links, s: State, l: (Node, Node)) {
    && s.forwards[l] <= 1
    && s.inFlight[l] <= s.forwards[l]
    && (s.forwards[l] > 0 ==> l in links && l.0 in s.accepted)
  }

  ghost predicate Bounded(links: Links, s: State) {
    NodesOnce(s) && forall l :: LinkOnce(links, s, l)
  }

  lemma AcceptBounded(links: Links, s: State, node: Node, from: Option<Node>)
    requires Bounded(links, s)
    ensures Bounded(links, Accept(links, s, node, from))
  {
    var s' := Accept(links, s, node, from);
    if node !in s.accepted {
      forall l ensures LinkOnce(links, s', l) {
        assert LinkOnce(links, s, l);
        assert multiset(Outgoing(links, node, from))[l] <= 1;
      }
    }
  }

  lemma {:induction false} BoundedAlways(links: Links, origin: Node, steps: seq<Step>)
    ensures Bounded(links, Run(links, origin, steps)) && origin in Run(links, origin, steps).accepted
  {
    if steps == [] {
      assert Bounded(links, QUIET);
      AcceptBounded(links, QUIET, origin, None);
    } else {
      BoundedAlways(links, origin, steps[..|steps| - 1]);
      var s, step := Run(links, origin, steps[..|steps| - 1]), steps[|steps| - 1];
      if step.link in s.inFlight {
        var s1 := s.(inFlight := s.inFlight - multiset{step.link});
        forall l ensures LinkOnce(links, s1, l) { assert LinkOnce(links, s, l); }
        AcceptBounded(links, s1, step.link.1, Some(step.link.0));
      }
    }
  }

  /** Every node accepts the event at most once, no link carries it twice, and so the total
      number of forwards is at most the number of directed links. */
  lemma FloodIsBounded(links: Links, origin: Node, steps: seq<Step>)
    ensures var s := Run(links, origin, steps);
            && (forall i, j :: 0 <= i < j < |s.acceptances| ==> s.acceptances[i] != s.acceptances[j])
            && (forall l :: s.forwards[l] <= if l in links then 1 else 0)
            && |s.forwards| <= |links|
  {
    BoundedAlways(links, origin, steps);
    var s := Run(links, origin, steps);
    forall l ensures s.forwards[l] <= if l in links then 1 else 0 { assert LinkOnce(links, s, l); }
    assert s.forwards <= multiset(links);
    SubBag(s.forwards, multiset(links));
  }

  lemma SubBag(a: multiset<(Node, Node)>, b: multiset<(Node, Node)>)
    requires a <= b
    ensures |a| <= |b|
  {
    assert b == a + (b - a);
  }

  // ---------------------------------------------------------------- exactly which links

  /** The link has carried a frame exactly if its tail accepted the event and did not get it
      from the link's head. */
  ghost predicate ForwardedOk(links: Links, s: State, l: (Node, Node)) {
    s.forwards[l] == if l in links && l.0 in s.accepted && l.0 in s.via && s.via[l.0] != Some(l.1) then 1 else 0
  }

  ghost predicate ViaOk(links: Links, s: State) {
    && s.via.Keys == s.accepted
    && forall n :: n in s.via && s.via[n].Some? ==> s.via[n].value in s.accepted && (s.via[n].value, n) in links
  }

  lemma AcceptForwards(links: Links, s: State, node: Node, from: Option<Node>)
    requires ViaOk(links, s) && forall l :: ForwardedOk(links, s, l)
    requires from.Some? ==> from.value in s.accepted && (from.value, node) in links
    ensures var s' := Accept(links, s, node, from); ViaOk(links, s') && forall l :: ForwardedOk(links, s', l)
  {
    var s' := Accept(links, s, node, from);
    if node !in s.accepted {
      forall l ensures ForwardedOk(links, s', l) { assert ForwardedOk(links, s, l); }
    }
  }

  /** In every run, lossy or not, the frames ever sent are exactly one per link out of an
      accepting node, the link its own first arrival came from excepted: an event is never
      echoed back, and offered to everyone else. */
  lemma {:induction false} ForwardedExactlyWhen(links: Links, origin: Node, steps: seq<Step>)
    ensures var s := Run(links, origin, steps);
            ViaOk(links, s) && origin in s.via && s.via[origin] == None && forall l :: ForwardedOk(links, s, l)
  {
    if steps == [] {
      AcceptForwards(links, QUIET, origin, None);
    } else {
      var front, step := steps[..|steps| - 1], steps[|steps| - 1];
      var s := Run(links, origin, front);
      ForwardedExactlyWhen(links, origin, front);
      BoundedAlways(links, origin, front);
      if step.link in s.inFlight {
        assert LinkOnce(links, s, step.link);
        var s1 := s.(inFlight := s.inFlight - multiset{step.link});
        forall l ensures ForwardedOk(links, s1, l) { assert ForwardedOk(links, s, l); }
        AcceptForwards(links, s1, step.link.1, Some(step.link.0));
      }
    }
  }

  // ---------------------------------------------------------------- termination

  /** Links whose tail has not accepted yet, plus frames still travelling. */
  ghost function Unspent(links: Links, s: State): set<(Node, Node)> {
    set l | l in links && l.0 !in s.accepted
  }

  ghost function Measure(links: Links, s: State): nat {
    |Unspent(links, s)| + |s.inFlight|
  }

  /** Every delivery and every loss of a frame strictly shrinks the remaining work. */
  lemma EveryStepShrinks(links: Links, s: State, step: Step)
    requires step.link in s.inFlight
    ensures Measure(links, Apply(links, s, step)) < Measure(links, s)
  {
    var s1 := s.(inFlight := s.inFlight - multiset{step.link});
    assert |s1.inFlight| == |s.inFlight| - 1;
    assert Unspent(links, s1) == Unspent(links, s);
    if step.Deliver? { AcceptShrinks(links, s1, step.link.1, Some(step.link.0)); }
  }

  lemma AcceptShrinks(links: Links, s: State, node: Node, from: Option<Node>)
    ensures Measure(links, Accept(links, s, node, from)) <= Measure(links, s)
  {
    if node !in s.accepted {
      var out := Outgoing(links, node, from);
      var s' := Accept(links, s, node, from);
      var spent := set l | l in links && l.0 == node;
      assert Unspent(links, s) == Unspent(links, s') + spent;
      assert Unspent(links, s') !! spent;
      assert out <= spent;
      assert spent == out + (spent - out);
      assert |multiset(out)| == |out|;
    }
  }

  // ---------------------------------------------------------------- coverage

  ghost predicate NoLoss(steps: seq<Step>) {
    forall i :: 0 <= i < |steps| ==> steps[i].Deliver?
  }

  /** Every link out of an accepting node has done its work: its head has accepted, or the
      frame is on its way. */
  ghost predicate Served(links: Links, s: State) {
    forall a, b :: a in s.accepted && (a, b) in links ==> b in s.accepted || (a, b) in s.inFlight
  }

  lemma ServedAccept(links: Links, s: State, node: Node, from: Option<Node>)
    requires forall a, b :: a in s.accepted && (a, b) in links && b != node ==> b in s.accepted || (a, b) in s.inFlight
    requires from.Some? ==> from.value in s.accepted
    ensures Served(links, Accept(links, s, node, from))
  {
    var s' := Accept(links, s, node, from);
    forall a, b | a in s'.accepted && (a, b) in links ensures b in s'.accepted || (a, b) in s'.inFlight {
      if a == node && a !in s.accepted && from != Some(b) {
        assert (a, b) in Outgoing(links, node, from);
      }
    }
  }

  lemma {:induction false} ServedAlways(links: Links, origin: Node, steps: seq<Step>)
    requires NoLoss(steps)
    ensures Served(links, Run(links, origin, steps))
  {
    if steps == [] {
      ServedAccept(links, QUIET, origin, None);
    } else {
      var front, step := steps[..|steps| - 1], steps[|steps| - 1];
      ServedAlways(links, origin, front);
      BoundedAlways(links, origin, front);
      var s := Run(links, origin, front);
      assert step.Deliver?;
      if step.link in s.inFlight {
        assert LinkOnce(links, s, step.link);
        ServedAccept(links, s.(inFlight := s.inFlight - multiset{step.link}), step.link.1, Some(step.link.0));
      }
    }
  }

  /** `path` leads from its first node to its last along links. */
  ghost predicate IsPath(links: Links, path: seq<Node>) {
    path != [] && forall i :: 0 <= i < |path| - 1 ==> (path[i], path[i + 1]) in links
  }

  lemma {:induction false} SpreadAlong(links: Links, s: State, path: seq<Node>)
    requires Served(links, s) && s.inFlight == multiset{} && IsPath(links, path) && path[0] in s.accepted
    ensures path[|path| - 1] in s.accepted
    decreases |path|
  {
    if |path| > 1 {
      SpreadAlong(links, s, path[..|path| - 1]);
      assert (path[|path| - 2], path[|path| - 1]) in links;
    }
  }

  ghost predicate Reachable(links: Links, origin: Node, node: Node) {
    exists path :: IsPath(links, path) && path[0] == origin && path[|path| - 1] == node
  }

  lemma ReachableExtends(links: Links, origin: Node, a: Node, b: Node)
    requires Reachable(links, origin, a) && (a, b) in links
    ensures Reachable(links, origin, b)
  {
    var path :| IsPath(links, path) && path[0] == origin && path[|path| - 1] == a;
    var longer := path + [b];
    forall i | 0 <= i < |longer| - 1 ensures (longer[i], longer[i + 1]) in links {
      if i < |path| - 1 { assert (path[i], path[i + 1]) in links; }
    }
    assert IsPath(links, longer);
  }

  /** Whatever is lost, only nodes reachable from the origin ever accept the event. */
  lemma {:induction false} AcceptedIsReachable(links: Links, origin: Node, steps: seq<Step>, node: Node)
    requires node in Run(links, origin, steps).accepted
    ensures Reachable(links, origin, node)
  {
    if steps == [] {
      assert IsPath(links, [origin]);
    } else {
      var front, step := steps[..|steps| - 1], steps[|steps| - 1];
      var s := Run(links, origin, front);
      if node in s.accepted {
        AcceptedIsReachable(links, origin, front, node);
      } else {
        BoundedAlways(links, origin, front);
        assert LinkOnce(links, s, step.link);
        AcceptedIsReachable(links, origin, front, step.link.0);
        ReachableExtends(links, origin, step.link.0, step.link.1);
      }
    }
  }

  /** When a flood without losses has stopped, the nodes that accepted the event are exactly
      the nodes reachable from the origin. */
  lemma FloodReachesEveryone(links: Links, origin: Node, steps: seq<Step>, node: Node)
    requires NoLoss(steps) && Run(links, origin, steps).inFlight == multiset{}
    ensures node in Run(links, origin, steps).accepted <==> Reachable(links, origin, node)
  {
    var s := Run(links, origin, steps);
    if node in s.accepted { AcceptedIsReachable(links, origin, steps, node); }
    if Reachable(links, origin, node) {
      var path :| IsPath(links, path) && path[0] == origin && path[|path| - 1] == node;
      ServedAlways(links, origin, steps);
      BoundedAlways(links, origin, steps);
      SpreadAlong(links, s, path);
    }
  }
}
