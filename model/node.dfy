/**
 * `Node` and its subclass `TransportNode`: one step of a search path, linked backwards to the
 * node it was reached from. Every field is final, so a node is a value; the subclass is told
 * apart by its `kind`, which also carries the transport node's `delayedVisit` flag.
 */
module Nodes {
  import opened Wrappers
  import opened JavaStrings
  import opened JavaInts
  import opened Worlds

  /** A plain walking node, or a `TransportNode` with its `delayedVisit` flag. */
  datatype Kind = Walking | Transporting(delayedVisit: bool)

  /**
   * A packed position, the node it was reached from (`None` for the start, Java's `null`), the
   * cost of the path so far, and whether that path has passed a bank.
   */
  datatype Node = Node(position: int, previous: Option<Node>, cost: int, bankVisited: bool, kind: Kind)

  /** The cost of the node a path ends in, or 0 before the start. */
  function CostOf(previous: Option<Node>): int {
    if previous.Some? then previous.value.cost else 0
  }

  /** `Node(position, previous, cost)`: the bank flag is the predecessor's, `false` at the start. */
  function WithCost(position: int, previous: Option<Node>, cost: int): Node {
    Node(position, previous, cost, previous.Some? && previous.value.bankVisited, Walking)
  }

  /**
   * `Node.cost(position, previous)`: 0 at the start, else the predecessor's cost plus the walking
   * distance from its tile, added as Java ints.
   */
  function StepCost(w: World, position: int, previous: Option<Node>): int {
    match previous
    case None => 0
    case Some(p) => Wrap32(p.cost + w.distance(p.position, position))
  }

  /** `Node(position, previous)`: a walking step. */
  function Step(w: World, position: int, previous: Option<Node>): Node {
    WithCost(position, previous, StepCost(w, position, previous))
  }

  /**
   * `TransportNode(position, previous, travelTime, additionalCost, delayedVisit)`: the cost is the
   * predecessor's plus the travel time and the additional cost, as Java ints.
   */
  function TransportStep(position: int, previous: Option<Node>, travelTime: int, additionalCost: int,
                         delayedVisit: bool): Node {
    var n := WithCost(position, previous, Wrap32(CostOf(previous) + Wrap32(travelTime + additionalCost)));
    n.(kind := Transporting(delayedVisit))
  }

  /** A start node costs nothing, and a walking step costs its predecessor's cost plus the distance walked. */
  lemma StepCosts(w: World, position: int, previous: Option<Node>)
    requires Valid(w)
    ensures previous.None? ==> Step(w, position, previous).cost == 0
    ensures previous.Some? && IsInt32(previous.value.cost + w.distance(previous.value.position, position)) ==>
      var p := previous.value;
      && Step(w, position, previous).cost == p.cost + w.distance(p.position, position)
      && Step(w, position, previous).cost >= p.cost
  {
  }

  /** A transport node costs its predecessor's cost (0 at the start) plus travel time plus additional cost. */
  lemma TransportStepCosts(position: int, previous: Option<Node>, travelTime: int, additionalCost: int, delayedVisit: bool)
    requires IsInt32(travelTime + additionalCost) && IsInt32(CostOf(previous) + travelTime + additionalCost)
    ensures TransportStep(position, previous, travelTime, additionalCost, delayedVisit).cost ==
      CostOf(previous) + travelTime + additionalCost
    ensures previous.None? ==>
      (TransportStep(position, previous, travelTime, additionalCost, delayedVisit).cost == travelTime + additionalCost)
  {
  }

  /**
   * Both constructors link the node to its predecessor at the given position and inherit the bank
   * flag; only the transport node is a `TransportNode`, and it keeps `delayedVisit` as given.
   */
  lemma StepsInherit(w: World, position: int, previous: Option<Node>, travelTime: int, additionalCost: int,
                     delayedVisit: bool)
    ensures var s := Step(w, position, previous);
      && s.position == position && s.previous == previous && s.kind == Walking
      && (s.bankVisited <==> previous.Some? && previous.value.bankVisited)
    ensures var t := TransportStep(position, previous, travelTime, additionalCost, delayedVisit);
      && t.position == position && t.previous == previous && t.kind == Transporting(delayedVisit)
      && (t.bankVisited <==> previous.Some? && previous.value.bankVisited)
  {
  }

  /** `TransportNode.compareTo`: `Integer.compare` of the two costs. */
  function CompareTo(a: Node, b: Node): (r: int)
    ensures r in {-1, 0, 1}
  {
    if a.cost < b.cost then -1 else if a.cost == b.cost then 0 else 1
  }

  /** The order is the integer order of the costs, antisymmetric and transitive. */
  lemma CompareToOrder(a: Node, b: Node, c: Node)
    ensures CompareTo(a, b) < 0 <==> a.cost < b.cost
    ensures CompareTo(a, b) == 0 <==> a.cost == b.cost
    ensures CompareTo(a, b) == -CompareTo(b, a)
    ensures CompareTo(a, b) <= 0 && CompareTo(b, c) <= 0 ==> CompareTo(a, c) <= 0
  {
  }

  /** The nodes from the start to `last`, following the predecessor links backwards. */
  function Trail(o: Option<Node>): seq<Node>
    decreases o
  {
    match o
    case None => []
    case Some(n) => Trail(n.previous) + [n]
  }

  function Positions(nodes: seq<Node>): seq<int> {
    seq(|nodes|, i requires 0 <= i < |nodes| => nodes[i].position)
  }

  lemma PositionsAppend(a: seq<Node>, b: seq<Node>)
    ensures Positions(a + b) == Positions(a) + Positions(b)
  {
  }

  /**
   * The trail of a node starts at a node without predecessor, ends at the node itself, and each
   * node in it is the predecessor of the next.
   */
  lemma {:induction false} TrailLinks(n: Node)
    ensures var t := Trail(Some(n));
      && |t| >= 1 && t[|t| - 1] == n && t[0].previous.None?
      && forall i :: 0 <= i < |t| - 1 ==> t[i + 1].previous == Some(t[i])
    decreases n
  {
    var t := Trail(Some(n));
    if n.previous.Some? {
      TrailLinks(n.previous.value);
      var u := Trail(n.previous);
      assert t == u + [n];
      forall i | 0 <= i < |t| - 1
        ensures t[i + 1].previous == Some(t[i])
      {
        if i < |u| - 1 {
          assert t[i + 1] == u[i + 1] && t[i] == u[i];
        }
      }
    }
  }

  /**
   * `getPath`: counts the nodes back to the start, then fills a list of that length from the end,
   * so the list holds the positions from the start to this node.
   */
  method GetPath(last: Node) returns (path: array<int>)
    ensures fresh(path)
    ensures path[..] == Positions(Trail(Some(last)))
  {
    var node := Some(last);
    var n := 0;
    while node.Some?
      invariant n + |Trail(node)| == |Trail(Some(last))|
      decreases node
    {
      node := node.value.previous;
      n := n + 1;
    }
    path := new int[n];
    node := Some(last);
    while node.Some?
      invariant 0 <= n <= path.Length && |Trail(node)| == n
      invariant Positions(Trail(Some(last))) == Positions(Trail(node)) + path[n..]
      decreases node
    {
      var here := node.value;
      PositionsAppend(Trail(here.previous), [here]);
      n := n - 1;
      path[n] := here.position;
      assert path[n..] == [here.position] + path[n + 1..];
      node := here.previous;
    }
  }

  /**
   * What `getPath` returns: one position per node back to the start, the start's position first,
   * this node's position last, and each position the predecessor of the next.
   */
  lemma PathOrder(last: Node)
    ensures var t := Trail(Some(last));
      var p := Positions(t);
      && |p| == |t| && p[0] == t[0].position && t[0].previous.None? && p[|p| - 1] == last.position
      && forall i :: 0 <= i < |p| - 1 ==> t[i + 1].previous == Some(t[i]) && p[i] == t[i].position
  {
    TrailLinks(last);
  }
}
