/** The scheduler's reconcile pass over one service: ghosts are reaped, then system
    services get a copy on every healthy node and regular ones are raised to their
    target (asty/internal/ops/scheduler). */
module Reconcile {
  import opened Wrappers
  import opened Placement

  datatype AllocStatus = Pending | Starting | Running | Restarting | Stopping | Stopped | Failed
  {
    predicate IsLive() { Pending? || Starting? || Running? || Restarting? || Stopping? }
    predicate Occupies() { IsLive() || Failed? }
  }

  datatype Alloc = Alloc(status: AllocStatus, pid: int, cpuUsage: int, memoryUsage: int)

  /** The service's allocation records, keyed by node ID as in KV. */
  type Allocs = map<string, Alloc>

  const FRESH := Alloc(Pending, 0, 0, 0)

  datatype Kind = System | Regular | Other
  datatype Outcome = Ok | NoHealthyNodes | UnknownKind

  /** Everything one pass reads besides the records, and which KV writes fail. */
  datatype World = World(nodes: set<NodeInfo>, kind: Kind, required: Resources, reserved: Resources,
                         minCopies: int, scale: Option<int>, failedCreates: set<string>, failedDeletes: set<string>)

  function Ids(nodes: set<NodeInfo>): set<string> { set n | n in nodes :: n.id }
  function Healthy(w: World): set<NodeInfo> { set n | n in w.nodes && n.status == Ready }
  function Live(a: Allocs): set<string> { set id | id in a && a[id].status.IsLive() }
  function Occupied(a: Allocs): set<string> { set id | id in a && a[id].status.Occupies() }
  function OnKnown(w: World, a: Allocs): Allocs { map id | id in a && id in Ids(w.nodes) :: a[id] }
  function Reaped(w: World, a: Allocs): Allocs {
    map id | id in a && (id in Ids(w.nodes) || id in w.failedDeletes) :: a[id]
  }
  function Placed(a: Allocs, ids: set<string>): Allocs { a + map id | id in ids :: FRESH }

  ghost function Free(w: World, a: Allocs): set<NodeInfo> {
    EligibleSet(Healthy(w), Occupied(OnKnown(w, a)), w.required, w.reserved)
  }

  /** The floor of the service: the operator's scale when set, MinCopies otherwise. */
  function Floor(minCopies: int, scale: Option<int>): nat {
    var target := if scale.Some? then scale.value else minCopies;
    if target < 0 then 0 else target
  }

  function TargetCopies(w: World, healthy: nat): nat {
    var target := Floor(w.minCopies, w.scale);
    if target > healthy then healthy else target
  }

  /** The number of copies asked for, which may be negative. */
  function Wanted(w: World): int {
    match w.scale
    case Some(n) => n
    case None => w.minCopies
  }

  /** The target is the largest count that neither the wish nor the healthy nodes forbid; the floor ignores nodes. */
  lemma TargetExactly(w: World, healthy: nat, n: nat)
    ensures n <= TargetCopies(w, healthy) <==> n == 0 || (n <= Wanted(w) && n <= healthy)
    ensures n <= Floor(w.minCopies, w.scale) <==> n == 0 || n <= Wanted(w)
  {
  }

  /** A copy is live unless it is stopped or has failed; a failed one still holds its node. */
  lemma StatusClasses(a: Allocs, id: string)
    requires id in a
    ensures id in Live(a) <==> a[id].status != Stopped && a[id].status != Failed
    ensures id in Occupied(a) <==> a[id].status != Stopped
  {
  }

  /** counts says how many healthy nodes of each datacenter are occupied. */
  ghost predicate CountsOccupied(counts: Counts, healthy: set<NodeInfo>, occupied: set<string>) {
    forall dc {:trigger At(counts, dc)} ::
      At(counts, dc) == |set n | n in healthy && n.id in occupied && DatacenterOf(n) == dc|
  }

  /** What one pass turns `before` into, placing copies on `picks`. */
  ghost predicate Pass(w: World, before: Allocs, after: Allocs, picks: seq<NodeInfo>, dcCounts: Counts,
      allocCounts: Counts) {
    if Healthy(w) == {} || w.kind.Other? then
      picks == [] && after == Reaped(w, before)
    else
      && after == Placed(Reaped(w, before), Ids(Picked(picks)) - w.failedCreates)
      && match w.kind
         case System => Picked(picks) == Free(w, before)
         case Regular =>
           && CountsOccupied(dcCounts, Healthy(w), Occupied(OnKnown(w, before)))
           && Greedy(picks, Free(w, before), dcCounts, allocCounts,
                     TargetCopies(w, |Healthy(w)|) - |Live(OnKnown(w, before))|)
  }

  ghost predicate NoFailures(w: World) {
    w.failedCreates == {} && w.failedDeletes == {}
  }

  lemma {:induction false} IdsSize(nodes: set<NodeInfo>)
    requires DistinctIds(nodes)
    ensures |Ids(nodes)| == |nodes|
  {
    if nodes == {} {
      assert Ids(nodes) == {};
    } else {
      var n :| n in nodes;
      IdsSize(nodes - {n});
      assert Ids(nodes) == Ids(nodes - {n}) + {n.id};
      assert n.id !in Ids(nodes - {n});
    }
  }

  /** The effect of a pass, with the order of the picks and the tie-breaks left out. */
  ghost predicate Effect(w: World, before: Allocs, after: Allocs, chosen: set<NodeInfo>) {
    && after == Placed(Reaped(w, before), Ids(chosen) - w.failedCreates)
    && chosen <= Free(w, before)
    && (Healthy(w) == {} || w.kind.Other? ==> chosen == {})
    && (w.kind.System? ==> chosen == Free(w, before))
    && (w.kind.Regular? && Healthy(w) != {} ==>
          |chosen| == Quota(TargetCopies(w, |Healthy(w)|) - |Live(OnKnown(w, before))|, |Free(w, before)|))
  }

  function Quota(needed: int, available: nat): nat {
    if needed <= 0 then 0 else if needed < available then needed else available
  }

  lemma PassEffect(w: World, before: Allocs, after: Allocs, picks: seq<NodeInfo>, dcCounts: Counts, allocCounts: Counts)
    requires Pass(w, before, after, picks, dcCounts, allocCounts)
    ensures Effect(w, before, after, Picked(picks))
    ensures Picked(picks) == {} ==> picks == []
  {
    var chosen, kept := Picked(picks), Reaped(w, before);
    if picks != [] {
      assert picks[0] in chosen;
    } else {
      assert chosen == {} && Ids(chosen) == {};
      assert Placed(kept, {} - w.failedCreates) == kept;
    }
    if Healthy(w) == {} {
      assert Free(w, before) == {};
    } else if w.kind.Regular? {
      GreedyLeastFirst(picks, Free(w, before), dcCounts, allocCounts);
      LeastFirstPicks(picks, Free(w, before), dcCounts, |picks|);
      assert picks[..|picks|] == picks;
    }
  }

  /** A fresh copy was put on this node. */
  ghost predicate Created(w: World, chosen: set<NodeInfo>, id: string) {
    id !in w.failedCreates && exists n :: n in chosen && n.id == id
  }

  /** Every record after the pass: a fresh pending one where a copy was put, otherwise the old one if its node is
      known or its delete failed. */
  lemma EffectExactly(w: World, before: Allocs, after: Allocs, chosen: set<NodeInfo>, id: string)
    requires Effect(w, before, after, chosen)
    ensures Created(w, chosen, id) ==> id in after && after[id] == Alloc(Pending, 0, 0, 0)
    ensures !Created(w, chosen, id) ==>
              && (id in after <==> id in before && (id in w.failedDeletes || exists n :: n in w.nodes && n.id == id))
              && (id in after ==> after[id] == before[id])
  {
  }

  /** No pass ever touches a record that occupies its node, whatever fails; and with
      deletes succeeding no record is left on an unknown node. */
  lemma EffectSafe(w: World, before: Allocs, after: Allocs, chosen: set<NodeInfo>)
    requires Effect(w, before, after, chosen)
    ensures forall id :: id in Occupied(OnKnown(w, before)) ==> id in after && after[id] == before[id]
    ensures w.failedDeletes == {} ==> after.Keys <= Ids(w.nodes)
  {
  }

  /** With writes succeeding, every healthy node with room runs a system service. */
  lemma SystemEverywhere(w: World, before: Allocs, after: Allocs, chosen: set<NodeInfo>, n: NodeInfo)
    requires Effect(w, before, after, chosen) && NoFailures(w) && w.kind.System?
    requires n in Healthy(w) && HasResources(n, w.required, w.reserved)
    ensures n.id in after && after[n.id].status.Occupies()
  {
  }

  lemma PlacedFacts(a: Allocs, ids: set<string>)
    ensures Placed(a, ids).Keys == a.Keys + ids
    ensures Live(Placed(a, ids)) == Live(a) + ids
    ensures Occupied(Placed(a, ids)) == Occupied(a) + ids
    ensures Placed(a, {}) == a
  {
  }

  lemma ReapedIsKnown(w: World, a: Allocs)
    requires w.failedDeletes == {}
    ensures Reaped(w, a) == OnKnown(w, a)
    ensures a.Keys <= Ids(w.nodes) ==> OnKnown(w, a) == a
  {
  }

  lemma FreeIsFree(w: World, a: Allocs, chosen: set<NodeInfo>)
    requires chosen <= Free(w, a)
    ensures Ids(chosen) !! Occupied(OnKnown(w, a)) && Ids(chosen) <= Ids(w.nodes)
  {
  }

  lemma EffectPlaces(w: World, before: Allocs, after: Allocs, chosen: set<NodeInfo>)
    requires Effect(w, before, after, chosen) && NoFailures(w)
    ensures after == Placed(OnKnown(w, before), Ids(chosen)) && OnKnown(w, after) == Reaped(w, after) == after
    ensures Live(after) == Live(OnKnown(w, before)) + Ids(chosen) && Live(OnKnown(w, before)) !! Ids(chosen)
    ensures Occupied(after) == Occupied(OnKnown(w, before)) + Ids(chosen)
  {
    var known := OnKnown(w, before);
    ReapedIsKnown(w, before);
    ReapedIsKnown(w, after);
    assert Ids(chosen) - w.failedCreates == Ids(chosen);
    PlacedFacts(known, Ids(chosen));
    FreeIsFree(w, before, chosen);
    assert Live(known) <= Occupied(known);
    assert known.Keys <= Ids(w.nodes);
  }

  /** With writes succeeding, a regular service reaches its target, or as far as there
      are nodes to place it on, and a pass never lowers the live count. */
  lemma RegularReaches(w: World, before: Allocs, after: Allocs, chosen: set<NodeInfo>)
    requires Effect(w, before, after, chosen) && NoFailures(w) && w.kind.Regular? && DistinctIds(w.nodes)
            && Healthy(w) != {}
    ensures var live, target := |Live(OnKnown(w, before))|, TargetCopies(w, |Healthy(w)|);
            |Live(after)| == if live >= target then live
                             else if target < live + |Free(w, before)| then target
                             else live + |Free(w, before)|
    ensures var live, now := |Live(OnKnown(w, before))|, |Live(after)|;
            && (now == live || (live < now <= Wanted(w) && now <= |Healthy(w)|))
            && (now >= Wanted(w) || now >= |Healthy(w)| || now == live + |Free(w, before)|)
  {
    EffectPlaces(w, before, after, chosen);
    ChosenSize(w, before, chosen);
    DisjointSize(Live(OnKnown(w, before)), Ids(chosen));
  }

  lemma ChosenSize(w: World, before: Allocs, chosen: set<NodeInfo>)
    requires DistinctIds(w.nodes) && chosen <= Free(w, before)
    ensures |Ids(chosen)| == |chosen|
  {
    assert forall n :: n in chosen ==> n in Free(w, before) && n in w.nodes;
    IdsSize(chosen);
  }

  lemma DisjointSize(a: set<string>, b: set<string>)
    requires a !! b
    ensures |a + b| == |a| + |b|
  {
  }

  lemma SecondFree(w: World, before: Allocs, mid: Allocs, chosen: set<NodeInfo>)
    requires DistinctIds(w.nodes) && chosen <= Free(w, before)
    requires Occupied(OnKnown(w, mid)) == Occupied(OnKnown(w, before)) + Ids(chosen)
    ensures Free(w, mid) == Free(w, before) - chosen
  {
  }

  lemma SecondQuota(w: World, before: Allocs, mid: Allocs, chosen: set<NodeInfo>)
    requires NoFailures(w) && DistinctIds(w.nodes) && w.kind.Regular? && Healthy(w) != {}
    requires Effect(w, before, mid, chosen)
    ensures Quota(TargetCopies(w, |Healthy(w)|) - |Live(mid)|, |Free(w, before) - chosen|) == 0
  {
    RegularReaches(w, before, mid, chosen);
    if |chosen| == |Free(w, before)| {
      SameSize(chosen, Free(w, before));
    }
  }

  lemma NothingWanted(w: World, before: Allocs, mid: Allocs, chosen: set<NodeInfo>)
    requires NoFailures(w) && DistinctIds(w.nodes) && Effect(w, before, mid, chosen)
    ensures OnKnown(w, mid) == Reaped(w, mid) == mid
    ensures w.kind.System? ==> Free(w, mid) == {}
    ensures w.kind.Regular? && Healthy(w) != {} ==>
            Quota(TargetCopies(w, |Healthy(w)|) - |Live(mid)|, |Free(w, mid)|) == 0
  {
    EffectPlaces(w, before, mid, chosen);
    SecondFree(w, before, mid, chosen);
    if w.kind.Regular? && Healthy(w) != {} {
      SecondQuota(w, before, mid, chosen);
    }
  }

  lemma PlacesNothing(w: World, before: Allocs, mid: Allocs, after: Allocs, chosen: set<NodeInfo>,
      chosen': set<NodeInfo>)
    requires NoFailures(w) && DistinctIds(w.nodes)
    requires Effect(w, before, mid, chosen) && Effect(w, mid, after, chosen')
    ensures chosen' == {} && OnKnown(w, mid) == Reaped(w, mid) == mid
  {
    NothingWanted(w, before, mid, chosen);
  }

  /** One pass converges: on the same nodes, with writes succeeding, a second pass places
      nothing and changes nothing. */
  lemma PassConverges(w: World, before: Allocs, mid: Allocs, after: Allocs, chosen: set<NodeInfo>,
      chosen': set<NodeInfo>)
    requires NoFailures(w) && DistinctIds(w.nodes)
    requires Effect(w, before, mid, chosen) && Effect(w, mid, after, chosen')
    ensures chosen' == {} && after == mid
  {
    PlacesNothing(w, before, mid, after, chosen, chosen');
    assert Ids(chosen') - w.failedCreates == {};
    PlacedFacts(mid, {});
  }

  lemma SameSize(a: set<NodeInfo>, b: set<NodeInfo>)
    requires a <= b && |a| == |b|
    ensures b - a == {}
  {
    assert b == a + (b - a);
  }

  /** The records once a copy was put on each of the first i nodes, skipping writes that fail. */
  ghost function PlacedOn(a: Allocs, nodes: seq<NodeInfo>, i: nat, fails: set<string>): Allocs
    requires i <= |nodes|
  {
    Placed(a, Ids(Picked(nodes[..i])) - fails)
  }

  lemma PlaceNone(a: Allocs, nodes: seq<NodeInfo>, fails: set<string>)
    ensures PlacedOn(a, nodes, 0, fails) == a
    ensures PlacedOn(a, nodes, |nodes|, fails) == Placed(a, Ids(Picked(nodes)) - fails)
  {
    assert Ids(Picked(nodes[..0])) == {};
    assert nodes[..|nodes|] == nodes;
  }

  lemma PlaceOne(a: Allocs, nodes: seq<NodeInfo>, i: nat, fails: set<string>)
    requires i < |nodes|
    ensures PlacedOn(a, nodes, i + 1, fails) ==
              var placed := PlacedOn(a, nodes, i, fails);
              if nodes[i].id in fails then placed else placed[nodes[i].id := FRESH]
  {
    PickedSnoc(nodes, i);
    assert Ids(Picked(nodes[..i + 1])) == Ids(Picked(nodes[..i])) + {nodes[i].id};
  }

  // ----- the pass itself -----

  class ClusterState {
    var allocs: Allocs

    constructor (allocs: Allocs)
      ensures this.allocs == allocs
    {
      this.allocs := allocs;
    }

    /** A blind Put of a fresh pending record. */
    method CreateAllocation(node: string, fails: set<string>)
      modifies this
      ensures allocs == if node in fails then old(allocs) else old(allocs)[node := FRESH]
    {
      if node !in fails {
        allocs := allocs[node := FRESH];
      }
    }

    method DeleteAllocation(node: string, fails: set<string>)
      modifies this
      ensures allocs == if node in fails then old(allocs) else old(allocs) - {node}
    {
      if node !in fails {
        allocs := allocs - {node};
      }
    }

    /** Deletes the records of nodes that left the cluster; returns the others. */
    method ReapGhosts(w: World) returns (survivors: Allocs)
      modifies this
      ensures survivors == OnKnown(w, old(allocs)) && allocs == Reaped(w, old(allocs))
    {
      var ghosts := allocs.Keys - Ids(w.nodes);
      survivors := OnKnown(w, allocs);
      while ghosts != {}
        invariant ghosts <= old(allocs).Keys - Ids(w.nodes)
        invariant forall id :: id in allocs <==>
                    id in old(allocs) && (id in Ids(w.nodes) || id in w.failedDeletes || id in ghosts)
        invariant forall id :: id in allocs ==> allocs[id] == old(allocs)[id]
      {
        var id :| id in ghosts;
        DeleteAllocation(id, w.failedDeletes);
        ghosts := ghosts - {id};
      }
    }

    /** Puts a copy on every given node, skipping writes that fail. */
    method PlaceAll(nodes: seq<NodeInfo>, fails: set<string>)
      modifies this
      ensures allocs == Placed(old(allocs), Ids(Picked(nodes)) - fails)
    {
      PlaceNone(allocs, nodes, fails);
      var i := 0;
      while i < |nodes|
        invariant 0 <= i <= |nodes|
        invariant allocs == PlacedOn(old(allocs), nodes, i, fails)
      {
        PlaceOne(old(allocs), nodes, i, fails);
        CreateAllocation(nodes[i].id, fails);
        i := i + 1;
      }
    }

    method ReconcileService(w: World, nodes: seq<NodeInfo>, allocCounts: Counts)
        returns (r: Outcome, ghost picks: seq<NodeInfo>, ghost dcCounts: Counts)
      requires DistinctSeq(nodes) && w.nodes == Picked(nodes)
      modifies this
      ensures Pass(w, old(allocs), allocs, picks, dcCounts, allocCounts)
      ensures r == if Healthy(w) == {} then NoHealthyNodes else if w.kind.Other? then UnknownKind else Ok
    {
      picks, dcCounts := [], map[];
      var survivors := ReapGhosts(w);
      var healthy := FilterHealthy(nodes);
      if |healthy| == 0 {
        assert Healthy(w) == {};
        return NoHealthyNodes, picks, dcCounts;
      }
      assert healthy[0] in Healthy(w);
      var occupied := Occupied(survivors);
      match w.kind {
        case System =>
          var todo := EligibleNodes(healthy, occupied, w.required, w.reserved);
          PlaceAll(todo, w.failedCreates);
          return Ok, todo, dcCounts;
        case Regular =>
          SeqSize(healthy);
          var needed := TargetCopies(w, |healthy|) - |Live(survivors)|;
          var counts := CountOccupied(healthy, occupied);
          var candidates := PickCandidates(healthy, occupied, counts, allocCounts, needed, w.required, w.reserved);
          PlaceAll(candidates, w.failedCreates);
          return Ok, candidates, counts;
        case Other =>
          return UnknownKind, picks, dcCounts;
      }
    }
  }

  method FilterHealthy(nodes: seq<NodeInfo>) returns (healthy: seq<NodeInfo>)
    requires DistinctSeq(nodes)
    ensures DistinctSeq(healthy)
    ensures Picked(healthy) == set n | n in Picked(nodes) && n.status == Ready
  {
    healthy := [];
    var i := 0;
    while i < |nodes|
      invariant 0 <= i <= |nodes| && DistinctSeq(healthy)
      invariant Picked(healthy) == set n | n in Picked(nodes[..i]) && n.status == Ready
    {
      PickedSnoc(nodes, i);
      if nodes[i].status == Ready {
        forall n | n in healthy ensures n.id != nodes[i].id {
          assert n in Picked(healthy);
        }
        assert Picked(healthy + [nodes[i]]) == Picked(healthy) + {nodes[i]};
        healthy := healthy + [nodes[i]];
      }
      i := i + 1;
    }
    assert nodes[..i] == nodes;
  }

  /** DatacenterCountsByOccupied. */
  method CountOccupied(healthy: seq<NodeInfo>, occupied: set<string>) returns (counts: Counts)
    requires DistinctSeq(healthy)
    ensures CountsOccupied(counts, Picked(healthy), occupied)
  {
    counts := map[];
    assert Picked(healthy[..0]) == {};
    var i := 0;
    while i < |healthy|
      invariant 0 <= i <= |healthy|
      invariant CountsOccupied(counts, Picked(healthy[..i]), occupied)
    {
      PickedSnoc(healthy, i);
      var n := healthy[i];
      assert n !in healthy[..i];
      CountOne(counts, Picked(healthy[..i]), occupied, n);
      counts := counts[DatacenterOf(n) := At(counts, DatacenterOf(n)) + if n.id in occupied then 1 else 0];
      i := i + 1;
    }
    assert healthy[..i] == healthy;
  }

  lemma CountOne(counts: Counts, nodes: set<NodeInfo>, occupied: set<string>, n: NodeInfo)
    requires CountsOccupied(counts, nodes, occupied) && n !in nodes
    ensures CountsOccupied(counts[DatacenterOf(n) := At(counts, DatacenterOf(n)) + if n.id in occupied then 1 else 0],
            nodes + {n}, occupied)
  {
    var counts' := counts[DatacenterOf(n) := At(counts, DatacenterOf(n)) + if n.id in occupied then 1 else 0];
    forall dc ensures At(counts', dc) == |set m | m in nodes + {n} && m.id in occupied && DatacenterOf(m) == dc| {
      var was := set m | m in nodes && m.id in occupied && DatacenterOf(m) == dc;
      var now := set m | m in nodes + {n} && m.id in occupied && DatacenterOf(m) == dc;
      assert At(counts, dc) == |was|;
      if n.id in occupied && DatacenterOf(n) == dc {
        assert now == was + {n};
      } else {
        assert now == was;
      }
    }
  }
}
