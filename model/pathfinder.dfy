/**
 * `Pathfinder`: the search from a start tile towards a set of targets. Walking steps, which all
 * cost the same, wait in a FIFO queue and are marked visited when they are queued; transport
 * steps wait in a queue ordered by cost and are marked visited only when they are taken. The
 * search keeps the node that reached a target, or else the one that came closest, and lowers the
 * wilderness level it allows teleports from as it leaves the deeper levels.
 *
 * The wall clock that ends a search which has stopped improving is a count of dequeued nodes
 * here, and the other thread's `cancel` is an oracle telling, before each check of the loop
 * condition, whether it has happened yet.
 */
module Pathfinders {
  import opened Wrappers
  import opened Worlds
  import opened Transports
  import opened TransportRules
  import opened PathfinderConfigs
  import opened Nodes

  /** The index of the first cheapest node in the transport queue: the head `PriorityQueue.peek` shows. */
  function Cheapest(q: seq<Node>): (k: nat)
    requires |q| > 0
    ensures k < |q| && forall j :: 0 <= j < |q| ==> q[k].cost <= q[j].cost
  {
    if |q| == 1 then 0
    else
      var k := Cheapest(q[1..]);
      if q[0].cost <= q[k + 1].cost then 0 else k + 1
  }

  /** The queue without its `k`-th node. */
  function Without(q: seq<Node>, k: nat): seq<Node>
    requires k < |q|
  {
    q[..k] + q[k + 1..]
  }

  /** The transport queue is polled only when its head is strictly cheaper than the walking queue's head. */
  predicate TakesTransport(boundary: seq<Node>, pending: seq<Node>) {
    |pending| > 0 && (|boundary| == 0 || pending[Cheapest(pending)].cost < boundary[0].cost)
  }

  /**
   * The node taken next is a cheapest head: a transport node only when it is strictly cheaper
   * than the walking head, so that a tie goes to the walking queue.
   */
  lemma NextIsCheapest(boundary: seq<Node>, pending: seq<Node>)
    requires |boundary| + |pending| > 0
    ensures TakesTransport(boundary, pending) ==>
      var p := pending[Cheapest(pending)];
      && (forall j :: 0 <= j < |pending| ==> p.cost <= pending[j].cost)
      && (|boundary| > 0 ==> p.cost < boundary[0].cost)
    ensures !TakesTransport(boundary, pending) ==>
      && |boundary| > 0
      && forall j :: 0 <= j < |pending| ==> boundary[0].cost <= pending[j].cost
  {
    if |pending| > 0 && !TakesTransport(boundary, pending) {
      var k := Cheapest(pending);
      forall j | 0 <= j < |pending|
        ensures boundary[0].cost <= pending[j].cost
      {
        assert pending[k].cost <= pending[j].cost;
      }
    }
  }

  /**
   * The wilderness level after a node is taken: the three checks of the search loop in their
   * order, each lowering the level when the tile is outside that part of the wilderness.
   */
  function NextWildernessLevel(w: World, level: int, position: int): int {
    var below30 := if level > 30 && !w.inLevel30Wilderness(position) then 30 else level;
    var below20 := if below30 > 20 && !w.inLevel20Wilderness(position) then 20 else below30;
    if below20 > 0 && !w.inWilderness(position) then 0 else below20
  }

  /**
   * The level the checks settle on is the lowest one whose region the tile lies outside, so it
   * never rises, stays among 31, 30, 20 and 0, and drops exactly when some check fires.
   */
  lemma WildernessLevelDrops(w: World, level: int, position: int)
    requires level in {0, 20, 30, 31}
    ensures var r := NextWildernessLevel(w, level, position);
      && r == (if level > 0 && !w.inWilderness(position) then 0
               else if level > 20 && !w.inLevel20Wilderness(position) then 20
               else if level > 30 && !w.inLevel30Wilderness(position) then 30
               else level)
      && r <= level && r in {0, 20, 30, 31}
  {
  }

  /** The heuristic of a tile for one target: the distance plus the diagonal-weighted distance. */
  function Heuristic(w: World, position: int, target: int): int {
    w.distance(position, target) + w.diagonalDistance(position, target)
  }

  /** The test that makes a target's score the new best: a lower heuristic, or as low and nearer. */
  predicate Better(heuristic: int, distance: int, bestHeuristic: int, bestDistance: int) {
    heuristic < bestHeuristic || (heuristic <= bestHeuristic && distance < bestDistance)
  }

  /** Scores ordered first by heuristic, then by distance. */
  predicate LexLess(a: (int, int), b: (int, int)) {
    a.0 < b.0 || (a.0 == b.0 && a.1 < b.1)
  }

  function Score(w: World, position: int, target: int): (int, int) {
    (Heuristic(w, position, target), w.distance(position, target))
  }

  /** The test is the lexicographic order on (heuristic, distance), so the best is a minimum. */
  lemma BetterIsLexLess(heuristic: int, distance: int, bestHeuristic: int, bestDistance: int)
    ensures Better(heuristic, distance, bestHeuristic, bestDistance) <==>
      LexLess((heuristic, distance), (bestHeuristic, bestDistance))
  {
  }

  /**
   * The loop over the targets for one node: whatever order the set is visited in, the best score
   * becomes the least of the old best and the node's scores for each target, and the node is
   * recorded exactly when one of its scores beats the old best.
   */
  method ScoreTargets(w: World, position: int, targets: set<int>, bestHeuristic: int, bestDistance: int)
    returns (improved: bool, heuristic: int, distance: int)
    ensures !LexLess((bestHeuristic, bestDistance), (heuristic, distance))
    ensures forall t :: t in targets ==> !LexLess(Score(w, position, t), (heuristic, distance))
    ensures (heuristic, distance) == (bestHeuristic, bestDistance) ||
      exists t :: t in targets && Score(w, position, t) == (heuristic, distance)
    ensures improved <==> exists t :: t in targets && LexLess(Score(w, position, t), (bestHeuristic, bestDistance))
    ensures improved <==> (heuristic, distance) != (bestHeuristic, bestDistance)
  {
    improved := false;
    heuristic, distance := bestHeuristic, bestDistance;
    var rest := targets;
    ghost var done: set<int> := {};
    while rest != {}
      invariant rest <= targets && done == targets - rest
      invariant !LexLess((bestHeuristic, bestDistance), (heuristic, distance))
      invariant forall t :: t in done ==> !LexLess(Score(w, position, t), (heuristic, distance))
      invariant (heuristic, distance) == (bestHeuristic, bestDistance) ||
        exists t :: t in done && Score(w, position, t) == (heuristic, distance)
      invariant improved <==> exists t :: t in done && LexLess(Score(w, position, t), (bestHeuristic, bestDistance))
      invariant improved <==> (heuristic, distance) != (bestHeuristic, bestDistance)
      decreases rest
    {
      ghost var someTarget := Pick(rest);
      var target :| target in rest;
      var d := w.distance(position, target);
      var h := d + w.diagonalDistance(position, target);
      BetterIsLexLess(h, d, heuristic, distance);
      if h < heuristic || (h <= heuristic && d < distance) {
        improved := true;
        heuristic, distance := h, d;
      }
      TakeOne(targets, rest, target);
      rest := rest - {target};
      done := done + {target};
    }
  }

  /** The neighbours `addNeighbors` keeps, in order: those `avoidWilderness` does not reject. */
  function Kept(w: World, avoid: bool, targetInWilderness: bool, position: int, nodes: seq<Node>): seq<Node> {
    if nodes == [] then []
    else
      var last := nodes[|nodes| - 1];
      Kept(w, avoid, targetInWilderness, position, nodes[..|nodes| - 1]) +
        (if AvoidWilderness(w, avoid, position, last.position, targetInWilderness) then [] else [last])
  }

  /** The walking nodes, in order. */
  function Walks(nodes: seq<Node>): seq<Node> {
    if nodes == [] then []
    else
      var last := nodes[|nodes| - 1];
      Walks(nodes[..|nodes| - 1]) + (if last.kind.Walking? then [last] else [])
  }

  /** The transport nodes, in order. */
  function Rides(nodes: seq<Node>): seq<Node> {
    if nodes == [] then []
    else
      var last := nodes[|nodes| - 1];
      Rides(nodes[..|nodes| - 1]) + (if last.kind.Transporting? then [last] else [])
  }

  /** A neighbour is kept exactly when `avoidWilderness` does not reject it. */
  lemma {:induction false} KeptMeans(w: World, avoid: bool, targetInWilderness: bool, position: int, nodes: seq<Node>, n: Node)
    ensures n in Kept(w, avoid, targetInWilderness, position, nodes) <==>
      n in nodes && !AvoidWilderness(w, avoid, position, n.position, targetInWilderness)
  {
    if nodes != [] {
      KeptMeans(w, avoid, targetInWilderness, position, nodes[..|nodes| - 1], n);
      assert nodes == nodes[..|nodes| - 1] + [nodes[|nodes| - 1]];
    }
  }

  /** Every node goes to exactly one of the two queues, the walking ones to the FIFO. */
  lemma {:induction false} WalksAndRides(nodes: seq<Node>)
    ensures multiset(Walks(nodes)) + multiset(Rides(nodes)) == multiset(nodes)
  {
    if nodes != [] {
      var init, last := nodes[..|nodes| - 1], nodes[|nodes| - 1];
      WalksAndRides(init);
      WalksAndRidesStep(init, last);
      assert nodes == init + [last];
    }
  }

  lemma WalksAndRidesStep(init: seq<Node>, last: Node)
    ensures multiset(Walks(init + [last])) + multiset(Rides(init + [last])) ==
      multiset(Walks(init)) + multiset(Rides(init)) + multiset{last}
  {
    assert (init + [last])[..|init|] == init;
  }

  /** Every node of the walking part walks and every node of the transport part rides. */
  lemma {:induction false} WalksAndRidesKinds(nodes: seq<Node>)
    ensures forall n :: n in Walks(nodes) ==> n.kind.Walking?
    ensures forall n :: n in Rides(nodes) ==> n.kind.Transporting?
  {
    if nodes != [] {
      WalksAndRidesKinds(nodes[..|nodes| - 1]);
    }
  }

  function PositionSet(nodes: seq<Node>): set<int> {
    set n | n in nodes :: n.position
  }
  /** How a turn of the search loop ended before the time check. */
  datatype Outcome =
    | Skipped
    | Reached(node: Node)
    | Scored(node: Node, improved: bool, heuristic: int, distance: int)

  class Pathfinder {
    const world: World
    const config: PathfinderConfig
    const start: int
    const targets: set<int>
    /** `WildernessChecker.isInWilderness(targets)`, worked out by the caller. */
    const targetInWilderness: bool
    /** `CollisionMap.getNeighbors(node, visited, config, wildernessLevel)`, with the config's transports. */
    const neighbors: (Node, set<int>, map<int, set<Transport>>, int) -> seq<Node>
    /** `calculationCutoffMillis`, counted in dequeued nodes. */
    const cutoff: nat

    var done: bool
    var cancelled: bool
    /** The walking FIFO. */
    var boundary: seq<Node>
    /** The transport queue, cheapest first when polled. */
    var pending: seq<Node>
    var visited: set<int>
    var path: seq<int>
    var pathNeedsUpdate: bool
    var bestLastNode: Option<Node>
    /** 31: no teleports; 30 and 20: those allowed at that level; 0: every teleport. */
    var wildernessLevel: int

    /** The level is one of the four, and a cached path not marked stale is the best node's path. */
    ghost predicate Valid()
      reads this`path, this`pathNeedsUpdate, this`bestLastNode, this`wildernessLevel
    {
      && wildernessLevel in {0, 20, 30, 31}
      && (bestLastNode.None? ==> path == [])
      && (bestLastNode.Some? && !pathNeedsUpdate ==> path == Positions(Trail(bestLastNode)))
    }

    constructor (world: World, config: PathfinderConfig, start: int, targets: set<int>, targetInWilderness: bool,
                 neighbors: (Node, set<int>, map<int, set<Transport>>, int) -> seq<Node>, cutoff: nat)
      ensures Valid()
      ensures this.world == world && this.config == config && this.start == start && this.targets == targets
      ensures this.targetInWilderness == targetInWilderness && this.neighbors == neighbors && this.cutoff == cutoff
      ensures !done && !cancelled && boundary == [] && pending == [] && visited == {}
      ensures path == [] && !pathNeedsUpdate && bestLastNode.None? && wildernessLevel == 31
    {
      this.world := world;
      this.config := config;
      this.start := start;
      this.targets := targets;
      this.targetInWilderness := targetInWilderness;
      this.neighbors := neighbors;
      this.cutoff := cutoff;
      done := false;
      cancelled := false;
      boundary := [];
      pending := [];
      visited := {};
      path := [];
      pathNeedsUpdate := false;
      bestLastNode := None;
      wildernessLevel := 31;
    }

    /** `cancel`. */
    method Cancel()
      modifies this`cancelled
      ensures cancelled
    {
      cancelled := true;
    }

    /**
     * `getPath`: the empty list before any best node exists; the best node's path, rebuilt only
     * when a new best node was recorded since the last call.
     */
    method GetPath() returns (p: seq<int>)
      requires Valid()
      modifies this`path, this`pathNeedsUpdate
      ensures Valid()
      ensures p == path
      ensures p == if bestLastNode.Some? then Positions(Trail(bestLastNode)) else []
      ensures bestLastNode.None? || !old(pathNeedsUpdate) ==> path == old(path) && pathNeedsUpdate == old(pathNeedsUpdate)
      ensures bestLastNode.Some? ==> !pathNeedsUpdate
    {
      var lastNode := bestLastNode;
      if lastNode.None? {
        return path;
      }
      if pathNeedsUpdate {
        var list := Nodes.GetPath(lastNode.value);
        path := list[..];
        pathNeedsUpdate := false;
      }
      return path;
    }

    /**
     * Takes the next node: the transport queue's cheapest node when it is strictly cheaper than
     * the walking head, dropped (`None`) if its tile was visited meanwhile and marked visited
     * otherwise; else the walking head, whose tile was marked when it was queued.
     */
    method Dequeue() returns (node: Option<Node>)
      requires |boundary| + |pending| > 0
      modifies this`boundary, this`pending, this`visited
      ensures TakesTransport(old(boundary), old(pending)) ==>
        var k := Cheapest(old(pending));
        var p := old(pending)[k];
        && boundary == old(boundary) && pending == Without(old(pending), k)
        && (p.position in old(visited) ==> node.None? && visited == old(visited))
        && (p.position !in old(visited) ==> node == Some(p) && visited == old(visited) + {p.position})
      ensures !TakesTransport(old(boundary), old(pending)) ==>
        && |old(boundary)| > 0 && node == Some(old(boundary)[0])
        && boundary == old(boundary)[1..] && pending == old(pending) && visited == old(visited)
    {
      if |pending| > 0 && (|boundary| == 0 || pending[Cheapest(pending)].cost < boundary[0].cost) {
        var k := Cheapest(pending);
        var p := pending[k];
        pending := Without(pending, k);
        if p.position in visited {
          return None;
        }
        visited := visited + {p.position};
        node := Some(p);
      } else {
        node := Some(boundary[0]);
        boundary := boundary[1..];
      }
    }

    /**
     * The wilderness checks for a taken node: the level is lowered as `NextWildernessLevel` says,
     * and the teleports are refreshed for the new level at this tile exactly when it dropped.
     */
    method UpdateWildernessLevel(position: int)
      requires wildernessLevel in {0, 20, 30, 31}
      modifies this`wildernessLevel, config`transports
      ensures wildernessLevel == NextWildernessLevel(world, old(wildernessLevel), position)
      ensures wildernessLevel in {0, 20, 30, 31} && wildernessLevel <= old(wildernessLevel)
      ensures wildernessLevel < old(wildernessLevel) ==>
        config.transports ==
          AddAt(old(config.transports), position, WildernessTeleports(config.usableTeleports, wildernessLevel))
      ensures wildernessLevel == old(wildernessLevel) ==> config.transports == old(config.transports)
    {
      WildernessLevelDrops(world, wildernessLevel, position);
      if wildernessLevel > 0 {
        var update := false;
        if wildernessLevel > 30 && !world.inLevel30Wilderness(position) {
          wildernessLevel := 30;
          update := true;
        }
        if wildernessLevel > 20 && !world.inLevel20Wilderness(position) {
          wildernessLevel := 20;
          update := true;
        }
        if wildernessLevel > 0 && !world.inWilderness(position) {
          wildernessLevel := 0;
          update := true;
        }
        if update {
          config.RefreshTeleports(position, wildernessLevel);
        }
      }
    }

    /**
     * `addNeighbors`: of the neighbours `avoidWilderness` keeps, the walking ones are marked
     * visited and appended to the FIFO, the transport ones appended to the transport queue
     * unmarked.
     */
    method AddNeighbors(node: Node)
      modifies this`boundary, this`pending, this`visited
      ensures var kept := Kept(world, config.options.avoidWilderness, targetInWilderness, node.position,
          neighbors(node, old(visited), config.transports, wildernessLevel));
        && boundary == old(boundary) + Walks(kept)
        && pending == old(pending) + Rides(kept)
        && visited == old(visited) + PositionSet(Walks(kept))
    {
      var avoid := config.options.avoidWilderness;
      var nodes := neighbors(node, visited, config.transports, wildernessLevel);
      var walks, rides, seen := boundary, pending, visited;
      ghost var kept: seq<Node> := [];
      for i := 0 to |nodes|
        invariant kept == Kept(world, avoid, targetInWilderness, node.position, nodes[..i])
        invariant walks == old(boundary) + Walks(kept) && rides == old(pending) + Rides(kept)
        invariant seen == old(visited) + PositionSet(Walks(kept))
      {
        var neighbor := nodes[i];
        KeptStep(world, avoid, targetInWilderness, node.position, nodes, i);
        if !AvoidWilderness(world, avoid, node.position, neighbor.position, targetInWilderness) {
          walks, rides, seen := Enqueue(neighbor, kept, old(boundary), old(pending), old(visited), walks, rides, seen);
          kept := kept + [neighbor];
        }
      }
      assert nodes[..|nodes|] == nodes;
      boundary, pending, visited := walks, rides, seen;
    }

    /**
     * One turn of the search loop up to the time check: takes the next node, lowers the
     * wilderness level, and either stops at a target or scores the node against every target,
     * recording it as the best node when it comes closer.
     */
    method TakeNext(bestHeuristic: int, bestDistance: int) returns (outcome: Outcome)
      requires Valid() && Worlds.Valid(world) && |boundary| + |pending| > 0
      requires 0 <= bestHeuristic && 0 <= bestDistance
      modifies this`boundary, this`pending, this`visited, this`wildernessLevel, this`bestLastNode,
        this`pathNeedsUpdate, config`transports
      ensures Valid() && wildernessLevel <= old(wildernessLevel)
      ensures outcome.Skipped? ==> |pending| < |old(pending)| && bestLastNode == old(bestLastNode)
      ensures outcome.Reached? ==> bestLastNode == Some(outcome.node) && outcome.node.position in targets
      ensures outcome.Scored? ==>
        && outcome.node.position !in targets
        && 0 <= outcome.heuristic && 0 <= outcome.distance
        && !LexLess((bestHeuristic, bestDistance), (outcome.heuristic, outcome.distance))
        && (outcome.improved <==> (outcome.heuristic, outcome.distance) != (bestHeuristic, bestDistance))
        && (outcome.improved ==> bestLastNode == Some(outcome.node))
        && (!outcome.improved ==> bestLastNode == old(bestLastNode))
    {
      var next := Dequeue();
      if next.None? {
        return Skipped;
      }
      var node := next.value;
      UpdateWildernessLevel(node.position);
      if node.position in targets {
        bestLastNode := next;
        pathNeedsUpdate := true;
        return Reached(node);
      }
      var improved, heuristic, distance := ScoreTargets(world, node.position, targets, bestHeuristic, bestDistance);
      if improved {
        bestLastNode := next;
        pathNeedsUpdate := true;
        ghost var t :| t in targets && Score(world, node.position, t) == (heuristic, distance);
      }
      outcome := Scored(node, improved, heuristic, distance);
    }

    /**
     * One turn of the search loop after the cancel check: takes a node and, unless it was
     * skipped or is a target, advances the clock (restarting the cutoff when the node came
     * closer) and, if the cutoff has not passed, queues the node's neighbours. Each turn that
     * does not stop brings the best score, the time left, or the transport queue down.
     */
    method Turn(bestHeuristic: int, bestDistance: int, clock: nat, deadline: nat)
      returns (stop: bool, heuristic: int, distance: int, clock': nat, deadline': nat)
      requires Valid() && Worlds.Valid(world) && |boundary| + |pending| > 0
      requires 0 <= bestHeuristic && 0 <= bestDistance && clock <= deadline
      modifies this`boundary, this`pending, this`visited, this`wildernessLevel, this`bestLastNode,
        this`pathNeedsUpdate, config`transports
      ensures Valid() && wildernessLevel <= old(wildernessLevel)
      ensures !stop ==> 0 <= heuristic && 0 <= distance && clock' <= deadline'
      ensures !stop ==>
        || LexLess((heuristic, distance), (bestHeuristic, bestDistance))
        || ((heuristic, distance) == (bestHeuristic, bestDistance) && deadline' - clock' < deadline - clock)
        || ((heuristic, distance) == (bestHeuristic, bestDistance) && deadline' - clock' == deadline - clock
            && |pending| < |old(pending)|)
    {
      heuristic, distance, clock', deadline' := bestHeuristic, bestDistance, clock, deadline;
      var outcome := TakeNext(bestHeuristic, bestDistance);
      if outcome.Skipped? {
        return false, heuristic, distance, clock', deadline';
      }
      if outcome.Reached? {
        return true, heuristic, distance, clock', deadline';
      }
      clock' := clock + 1;
      if outcome.improved {
        heuristic, distance := outcome.heuristic, outcome.distance;
        deadline' := clock' + cutoff;
      }
      if clock' > deadline' {
        return true, heuristic, distance, clock', deadline';
      }
      AddNeighbors(outcome.node);
      stop := false;
    }

    /**
     * `run`: starts from a node at `start` and takes nodes, cheapest head first, until both
     * queues are empty, a target is reached, the search has gone `cutoff` nodes without coming
     * closer, or it is cancelled; then records whether it finished uncancelled and clears the
     * queues and the visited tiles. `cancelRequested(i)` says whether `cancel` has happened
     * before the `i`-th check of the loop condition.
     */
    method Run(cancelRequested: nat -> bool)
      requires Valid() && Worlds.Valid(world)
      modifies this`done, this`cancelled, this`boundary, this`pending, this`visited, this`wildernessLevel,
        this`bestLastNode, this`pathNeedsUpdate, config`transports
      ensures Valid()
      ensures done == !cancelled
      ensures boundary == [] && pending == [] && visited == {}
      ensures wildernessLevel <= old(wildernessLevel)
    {
      boundary := [Step(world, start, None)] + boundary;
      var bestDistance := JavaStrings.INT_MAX;
      var bestHeuristic := JavaStrings.INT_MAX;
      var clock: nat := 0;
      var deadline: nat := cutoff;
      var checks: nat := 0;
      ghost var level0 := wildernessLevel;
      while true
        invariant Valid() && wildernessLevel <= level0
        invariant 0 <= bestDistance && 0 <= bestHeuristic && clock <= deadline
        decreases bestHeuristic, bestDistance, deadline - clock, |pending|
      {
        if cancelRequested(checks) {
          cancelled := true;
        }
        checks := checks + 1;
        if cancelled || (boundary == [] && pending == []) {
          break;
        }
        var stop;
        stop, bestHeuristic, bestDistance, clock, deadline := Turn(bestHeuristic, bestDistance, clock, deadline);
        if stop {
          break;
        }
      }
      done := !cancelled;
      boundary := [];
      visited := {};
      pending := [];
    }
  }

  /** One more neighbour considered: it is kept unless `avoidWilderness` rejects it. */
  lemma KeptStep(w: World, avoid: bool, targetInWilderness: bool, position: int, nodes: seq<Node>, i: nat)
    requires i < |nodes|
    ensures Kept(w, avoid, targetInWilderness, position, nodes[..i + 1]) ==
      Kept(w, avoid, targetInWilderness, position, nodes[..i]) +
        (if AvoidWilderness(w, avoid, position, nodes[i].position, targetInWilderness) then [] else [nodes[i]])
  {
    assert nodes[..i + 1][..i] == nodes[..i];
  }

  /**
   * One kept neighbour: a transport node is queued unmarked, a walking node marked visited and
   * queued, so the queues stay the walking and the transport parts of the kept neighbours.
   */
  method Enqueue(neighbor: Node, ghost kept: seq<Node>, ghost boundary: seq<Node>, ghost pending: seq<Node>,
                 ghost visited: set<int>, walks: seq<Node>, rides: seq<Node>, seen: set<int>)
    returns (walks': seq<Node>, rides': seq<Node>, seen': set<int>)
    requires walks == boundary + Walks(kept) && rides == pending + Rides(kept)
    requires seen == visited + PositionSet(Walks(kept))
    ensures walks' == boundary + Walks(kept + [neighbor]) && rides' == pending + Rides(kept + [neighbor])
    ensures seen' == visited + PositionSet(Walks(kept + [neighbor]))
  {
    SortStep(kept, neighbor);
    walks', rides', seen' := walks, rides, seen;
    if neighbor.kind.Transporting? {
      rides' := rides + [neighbor];
    } else {
      seen' := seen + {neighbor.position};
      walks' := walks + [neighbor];
    }
  }

  /** One more kept neighbour goes to the queue of its kind. */
  lemma SortStep(kept: seq<Node>, n: Node)
    ensures Walks(kept + [n]) == Walks(kept) + (if n.kind.Walking? then [n] else [])
    ensures Rides(kept + [n]) == Rides(kept) + (if n.kind.Transporting? then [n] else [])
    ensures PositionSet(Walks(kept + [n])) == PositionSet(Walks(kept)) + (if n.kind.Walking? then {n.position} else {})
  {
    assert (kept + [n])[..|kept|] == kept;
  }
}
