/** Candidate selection of asty/internal/ops/scheduler: datacenter-balanced greedy
    placement, its determinism and its optimality. */
module Placement {
  import opened Sorting

  type Counts = map<string, nat>

  datatype NodeStatus = Joining | Ready | Stale | Draining | Drained | Paused | Down
  datatype NodeInfo = NodeInfo(id: string, datacenter: string, status: NodeStatus, cpuAvailable: int,
      memoryAvailable: int)
  datatype Resources = Resources(cpu: int, memory: int)

  function DatacenterOf(n: NodeInfo): string {
    if n.datacenter == "" then "default" else n.datacenter
  }

  /** A missing key of a Go map reads as zero. */
  function At(m: Counts, k: string): nat {
    if k in m then m[k] else 0
  }

  function Bump(m: Counts, k: string): Counts {
    m[k := At(m, k) + 1]
  }

  /** Enough free CPU and memory after the share reserved for the agent. */
  predicate HasResources(n: NodeInfo, required: Resources, reserved: Resources) {
    n.cpuAvailable - reserved.cpu >= required.cpu && n.memoryAvailable - reserved.memory >= required.memory
  }

  predicate Eligible(n: NodeInfo, occupied: set<string>, required: Resources, reserved: Resources) {
    n.id !in occupied && HasResources(n, required, reserved)
  }

  ghost function EligibleSet(nodes: set<NodeInfo>, occupied: set<string>, required: Resources,
      reserved: Resources): set<NodeInfo> {
    set n | n in nodes && Eligible(n, occupied, required, reserved)
  }

  // ----- the comparator -----

  /** Go's `<` on strings. */
  predicate StrLess(a: string, b: string)
    decreases |a|
  {
    if b == "" then false
    else if a == "" then true
    else if a[0] != b[0] then a[0] < b[0]
    else StrLess(a[1..], b[1..])
  }

  predicate CandidateLess(a: NodeInfo, b: NodeInfo, working: Counts, packing: Counts) {
    var wa, wb := At(working, DatacenterOf(a)), At(working, DatacenterOf(b));
    if wa != wb then wa < wb
    else if At(packing, a.id) != At(packing, b.id) then At(packing, a.id) > At(packing, b.id)
    else if a.memoryAvailable != b.memoryAvailable then a.memoryAvailable > b.memoryAvailable
    else StrLess(a.id, b.id)
  }

  lemma {:induction false} StrLessTotal(a: string, b: string)
    ensures StrLess(a, b) || StrLess(b, a) || a == b
    ensures !(StrLess(a, b) && StrLess(b, a))
  {
    if a != "" && b != "" && a[0] == b[0] {
      StrLessTotal(a[1..], b[1..]);
      assert a == [a[0]] + a[1..] && b == [b[0]] + b[1..];
    }
  }

  lemma {:induction false} StrLessTransitive(a: string, b: string, c: string)
    requires StrLess(a, b) && StrLess(b, c)
    ensures StrLess(a, c)
    decreases |a|
  {
    if a != "" && a[0] == b[0] == c[0] {
      StrLessTransitive(a[1..], b[1..], c[1..]);
    }
  }

  /** Lexicographic order: after a common prefix `a` ends, or has the smaller character. */
  ghost predicate Lexicographic(a: string, b: string) {
    exists i: nat :: i <= |a| && i <= |b| && DiffersAt(a, b, i)
  }

  ghost predicate DiffersAt(a: string, b: string, i: nat)
    requires i <= |a| && i <= |b|
  {
    a[..i] == b[..i] && i < |b| && (i == |a| || a[i] < b[i])
  }

  lemma {:induction false} DiffersMeansLess(a: string, b: string, i: nat)
    requires i <= |a| && i <= |b| && DiffersAt(a, b, i)
    ensures StrLess(a, b)
  {
    if i > 0 {
      assert a[0] == a[..i][0] == b[..i][0] == b[0];
      assert a[1..][..i - 1] == a[..i][1..] && b[1..][..i - 1] == b[..i][1..];
      DiffersMeansLess(a[1..], b[1..], i - 1);
    }
  }

  lemma {:induction false} LessMeansDiffers(a: string, b: string) returns (i: nat)
    requires StrLess(a, b)
    ensures i <= |a| && i <= |b| && DiffersAt(a, b, i)
    decreases |a|
  {
    i := 0;
    if a != "" && a[0] == b[0] {
      var j := LessMeansDiffers(a[1..], b[1..]);
      i := j + 1;
      assert a[..i] == [a[0]] + a[1..][..j] && b[..i] == [b[0]] + b[1..][..j];
    }
  }

  lemma {:induction false} StrLessLexicographic(a: string, b: string)
    ensures StrLess(a, b) <==> Lexicographic(a, b)
  {
    if StrLess(a, b) {
      var i := LessMeansDiffers(a, b);
    }
    if Lexicographic(a, b) {
      var i: nat :| i <= |a| && i <= |b| && DiffersAt(a, b, i);
      DiffersMeansLess(a, b, i);
    }
  }

  /** At every step the comparator is a strict total order on nodes with distinct IDs. */
  lemma CandidateOrder(a: NodeInfo, b: NodeInfo, c: NodeInfo, working: Counts, packing: Counts)
    ensures !CandidateLess(a, a, working, packing)
    ensures a.id != b.id ==> (CandidateLess(a, b, working, packing) <==> !CandidateLess(b, a, working, packing))
    ensures CandidateLess(a, b, working, packing) && CandidateLess(b, c, working, packing) ==>
            CandidateLess(a, c, working, packing)
  {
    StrLessTotal(a.id, a.id);
    StrLessTotal(a.id, b.id);
    if StrLess(a.id, b.id) && StrLess(b.id, c.id) {
      StrLessTransitive(a.id, b.id, c.id);
    }
  }

  // ----- greedy selection on a set of nodes: the specification -----

  ghost predicate DistinctIds(nodes: set<NodeInfo>) {
    forall a, b :: a in nodes && b in nodes && a.id == b.id ==> a == b
  }

  ghost predicate IsBest(p: NodeInfo, free: set<NodeInfo>, working: Counts, packing: Counts) {
    p in free && forall n :: n in free && n != p ==> CandidateLess(p, n, working, packing)
  }

  lemma BestUnique(p: NodeInfo, q: NodeInfo, free: set<NodeInfo>, working: Counts, packing: Counts)
    requires IsBest(p, free, working, packing) && IsBest(q, free, working, packing)
    ensures p == q
  {
    if p != q {
      CandidateOrder(p, q, p, working, packing);
      CandidateOrder(p, p, p, working, packing);
    }
  }

  ghost function Picked(picks: seq<NodeInfo>): set<NodeInfo> {
    set n | n in picks
  }

  /** The datacenter counts and the node counts once the picks are counted. */
  ghost function Working(base: Counts, picks: seq<NodeInfo>): Counts {
    if picks == [] then base
    else Bump(Working(base, picks[..|picks| - 1]), DatacenterOf(picks[|picks| - 1]))
  }

  ghost function Packing(base: Counts, picks: seq<NodeInfo>): Counts {
    if picks == [] then base
    else Bump(Packing(base, picks[..|picks| - 1]), picks[|picks| - 1].id)
  }

  /** Pick k is the best of the nodes left, given the counts at that point. */
  ghost predicate BestAt(picks: seq<NodeInfo>, k: nat, free: set<NodeInfo>, dcCounts: Counts, allocCounts: Counts)
    requires k < |picks|
  {
    IsBest(picks[k], free - Picked(picks[..k]), Working(dcCounts, picks[..k]), Packing(allocCounts, picks[..k]))
  }

  ghost predicate GreedySoFar(picks: seq<NodeInfo>, free: set<NodeInfo>, dcCounts: Counts, allocCounts: Counts) {
    forall k :: 0 <= k < |picks| ==> BestAt(picks, k, free, dcCounts, allocCounts)
  }

  /** Repeatedly the best node, until enough are picked or none is left. */
  ghost predicate Greedy(picks: seq<NodeInfo>, free: set<NodeInfo>, dcCounts: Counts, allocCounts: Counts,
      needed: int) {
    && GreedySoFar(picks, free, dcCounts, allocCounts)
    && |picks| == if needed <= 0 then 0 else if needed < |free| then needed else |free|
  }

  lemma GreedyExtends(picks: seq<NodeInfo>, p: NodeInfo, free: set<NodeInfo>, dcCounts: Counts, allocCounts: Counts)
    requires GreedySoFar(picks, free, dcCounts, allocCounts)
    requires IsBest(p, free - Picked(picks), Working(dcCounts, picks), Packing(allocCounts, picks))
    ensures GreedySoFar(picks + [p], free, dcCounts, allocCounts)
  {
    var picks' := picks + [p];
    assert picks'[..|picks|] == picks;
    forall k | 0 <= k < |picks'| ensures BestAt(picks', k, free, dcCounts, allocCounts) {
      if k < |picks| {
        assert BestAt(picks, k, free, dcCounts, allocCounts);
        assert picks'[..k] == picks[..k];
      }
    }
  }

  /** The greedy choice is unique: any two runs over the same set of nodes, listed in
      whatever order, pick the same nodes in the same order. */
  lemma {:induction false} GreedyUnique(p: seq<NodeInfo>, q: seq<NodeInfo>, free: set<NodeInfo>, dcCounts: Counts,
      allocCounts: Counts, needed: int)
    requires Greedy(p, free, dcCounts, allocCounts, needed) && Greedy(q, free, dcCounts, allocCounts, needed)
    ensures p == q
  {
    SamePrefix(p, q, free, dcCounts, allocCounts, |p|);
    assert p[..|p|] == p && q[..|p|] == q;
  }

  lemma {:induction false} SamePrefix(p: seq<NodeInfo>, q: seq<NodeInfo>, free: set<NodeInfo>, dcCounts: Counts,
      allocCounts: Counts, k: nat)
    requires GreedySoFar(p, free, dcCounts, allocCounts) && GreedySoFar(q, free, dcCounts, allocCounts) && k <= |p|
            && k <= |q|
    ensures p[..k] == q[..k]
  {
    if k > 0 {
      SamePrefix(p, q, free, dcCounts, allocCounts, k - 1);
      assert BestAt(p, k - 1, free, dcCounts, allocCounts) && BestAt(q, k - 1, free, dcCounts, allocCounts);
      BestUnique(p[k - 1], q[k - 1], free - Picked(p[..k - 1]), Working(dcCounts, p[..k - 1]),
          Packing(allocCounts, p[..k - 1]));
      assert p[..k] == p[..k - 1] + [p[k - 1]] && q[..k] == q[..k - 1] + [q[k - 1]];
    }
  }

  // ----- balance and optimality -----

  ghost function InDc(nodes: set<NodeInfo>, dc: string): set<NodeInfo> {
    set n | n in nodes && DatacenterOf(n) == dc
  }

  /** A node that names no datacenter counts towards "default". */
  lemma InDcExactly(nodes: set<NodeInfo>, dc: string)
    ensures InDc(nodes, dc) == set n | n in nodes && (if dc == "default" then n.datacenter == "" || n.datacenter == dc
                                                      else n.datacenter == dc != "")
  {
  }

  /** Copies in a datacenter once the given nodes received one each. */
  ghost function Load(base: Counts, chosen: set<NodeInfo>, dc: string): nat {
    At(base, dc) + |InDc(chosen, dc)|
  }

  lemma LoadGrows(base: Counts, chosen: set<NodeInfo>, p: NodeInfo, dc: string)
    requires p !in chosen
    ensures Load(base, chosen + {p}, dc) == Load(base, chosen, dc) + if DatacenterOf(p) == dc then 1 else 0
  {
    if DatacenterOf(p) == dc {
      assert InDc(chosen + {p}, dc) == InDc(chosen, dc) + {p};
    } else {
      assert InDc(chosen + {p}, dc) == InDc(chosen, dc);
    }
  }

  lemma PickedSnoc(picks: seq<NodeInfo>, k: nat)
    requires k < |picks|
    ensures Picked(picks[..k + 1]) == Picked(picks[..k]) + {picks[k]}
  {
  }

  /** Pick k goes to a least loaded datacenter among those with nodes left. */
  ghost predicate LeastLoaded(picks: seq<NodeInfo>, k: nat, free: set<NodeInfo>, base: Counts)
    requires k < |picks|
  {
    && picks[k] in free - Picked(picks[..k])
    && forall n :: n in free - Picked(picks[..k]) ==>
         Load(base, Picked(picks[..k]), DatacenterOf(picks[k])) <= Load(base, Picked(picks[..k]), DatacenterOf(n))
  }

  ghost predicate LeastFirst(picks: seq<NodeInfo>, free: set<NodeInfo>, base: Counts) {
    forall k :: 0 <= k < |picks| ==> LeastLoaded(picks, k, free, base)
  }

  /** The counts the loop keeps are the loads. */
  lemma {:induction false} WorkingIsLoad(picks: seq<NodeInfo>, base: Counts, dc: string)
    requires forall k :: 0 <= k < |picks| ==> picks[k] !in Picked(picks[..k])
    ensures At(Working(base, picks), dc) == Load(base, Picked(picks), dc)
  {
    if picks == [] {
      assert InDc(Picked(picks), dc) == {};
    } else {
      var k := |picks| - 1;
      forall i | 0 <= i < k ensures picks[..k][i] !in Picked(picks[..k][..i]) {
        assert picks[..k][..i] == picks[..i];
      }
      WorkingIsLoad(picks[..k], base, dc);
      PickedSnoc(picks, k);
      assert picks[..k + 1] == picks;
      LoadGrows(base, Picked(picks[..k]), picks[k], dc);
    }
  }

  lemma GreedyLeastFirst(picks: seq<NodeInfo>, free: set<NodeInfo>, dcCounts: Counts, allocCounts: Counts)
    requires GreedySoFar(picks, free, dcCounts, allocCounts)
    ensures LeastFirst(picks, free, dcCounts)
  {
    forall k | 0 <= k < |picks| ensures LeastLoaded(picks, k, free, dcCounts) {
      GreedyLeastLoaded(picks, k, free, dcCounts, allocCounts);
    }
  }

  lemma GreedyLeastLoaded(picks: seq<NodeInfo>, k: nat, free: set<NodeInfo>, dcCounts: Counts, allocCounts: Counts)
    requires GreedySoFar(picks, free, dcCounts, allocCounts) && k < |picks|
    ensures LeastLoaded(picks, k, free, dcCounts)
  {
    var sofar := picks[..k];
    forall i | 0 <= i < k ensures sofar[i] !in Picked(sofar[..i]) {
      assert BestAt(picks, i, free, dcCounts, allocCounts);
      assert sofar[..i] == picks[..i];
    }
    assert BestAt(picks, k, free, dcCounts, allocCounts);
    forall n | n in free - Picked(sofar)
      ensures Load(dcCounts, Picked(sofar), DatacenterOf(picks[k])) <= Load(dcCounts, Picked(sofar), DatacenterOf(n))
    {
      WorkingIsLoad(sofar, dcCounts, DatacenterOf(picks[k]));
      WorkingIsLoad(sofar, dcCounts, DatacenterOf(n));
      assert n != picks[k] ==> CandidateLess(picks[k], n, Working(dcCounts, sofar), Packing(allocCounts, sofar));
    }
  }

  // ----- the four criteria, one after the other -----

  /**
   * The choice of `p` among the nodes `left` once the nodes `chosen` have got a copy: a least loaded
   * datacenter; among the nodes of equally loaded ones the most allocations; among those the most free
   * memory; among those the first ID.
   */
  ghost predicate Preferred(p: NodeInfo, left: set<NodeInfo>, dcCounts: Counts, chosen: set<NodeInfo>,
      allocCounts: Counts) {
    && p in left
    && (forall n :: n in left ==> Load(dcCounts, chosen, DatacenterOf(p)) <= Load(dcCounts, chosen, DatacenterOf(n)))
    && (forall n :: n in left && Load(dcCounts, chosen, DatacenterOf(n)) == Load(dcCounts, chosen, DatacenterOf(p)) ==>
          && At(allocCounts, p.id) >= At(allocCounts, n.id)
          && (At(allocCounts, n.id) == At(allocCounts, p.id) ==> p.memoryAvailable >= n.memoryAvailable)
          && (At(allocCounts, n.id) == At(allocCounts, p.id) && n.memoryAvailable == p.memoryAvailable && n != p ==>
                Lexicographic(p.id, n.id)))
  }

  /** The comparator's best node is the preferred one, whenever its counts are the loads and the allocations. */
  lemma BestIsPreferred(p: NodeInfo, left: set<NodeInfo>, working: Counts, packing: Counts, dcCounts: Counts,
      chosen: set<NodeInfo>, allocCounts: Counts)
    requires forall n :: n in left ==> At(working, DatacenterOf(n)) == Load(dcCounts, chosen, DatacenterOf(n))
    requires forall n :: n in left ==> At(packing, n.id) == At(allocCounts, n.id)
    ensures IsBest(p, left, working, packing) <==> Preferred(p, left, dcCounts, chosen, allocCounts)
  {
    forall n | n in left ensures StrLess(p.id, n.id) <==> Lexicographic(p.id, n.id) {
      StrLessLexicographic(p.id, n.id);
    }
  }

  /** The picks do not count towards the nodes that are left. */
  lemma {:induction false} PackingElsewhere(base: Counts, picks: seq<NodeInfo>, id: string)
    requires forall n :: n in picks ==> n.id != id
    ensures At(Packing(base, picks), id) == At(base, id)
  {
    if picks != [] {
      PackingElsewhere(base, picks[..|picks| - 1], id);
    }
  }

  ghost predicate PreferredAt(picks: seq<NodeInfo>, k: nat, free: set<NodeInfo>, dcCounts: Counts,
      allocCounts: Counts)
    requires k < |picks|
  {
    Preferred(picks[k], free - Picked(picks[..k]), dcCounts, Picked(picks[..k]), allocCounts)
  }

  /** The picks so far are different nodes of `free`; pick k is then best exactly when it is preferred. */
  lemma PickExactly(picks: seq<NodeInfo>, k: nat, free: set<NodeInfo>, dcCounts: Counts, allocCounts: Counts)
    requires DistinctIds(free) && k < |picks|
    requires forall i :: 0 <= i < k ==> picks[i] in free - Picked(picks[..i])
    ensures BestAt(picks, k, free, dcCounts, allocCounts) <==> PreferredAt(picks, k, free, dcCounts, allocCounts)
  {
    var sofar := picks[..k];
    var left := free - Picked(sofar);
    forall n | n in left
      ensures At(Working(dcCounts, sofar), DatacenterOf(n)) == Load(dcCounts, Picked(sofar), DatacenterOf(n))
      ensures At(Packing(allocCounts, sofar), n.id) == At(allocCounts, n.id)
    {
      forall i | 0 <= i < k ensures sofar[i] !in Picked(sofar[..i]) {
        assert sofar[..i] == picks[..i];
      }
      WorkingIsLoad(sofar, dcCounts, DatacenterOf(n));
      PackingElsewhere(allocCounts, sofar, n.id);
    }
    BestIsPreferred(picks[k], left, Working(dcCounts, sofar), Packing(allocCounts, sofar), dcCounts, Picked(sofar),
        allocCounts);
  }

  /** The greedy sequences are exactly those whose every pick is the preferred node of those left. */
  lemma {:induction false} GreedyExactly(picks: seq<NodeInfo>, free: set<NodeInfo>, dcCounts: Counts,
      allocCounts: Counts)
    requires DistinctIds(free)
    ensures GreedySoFar(picks, free, dcCounts, allocCounts)
       <==> forall k :: 0 <= k < |picks| ==> PreferredAt(picks, k, free, dcCounts, allocCounts)
  {
    if GreedySoFar(picks, free, dcCounts, allocCounts) {
      forall k | 0 <= k < |picks| ensures PreferredAt(picks, k, free, dcCounts, allocCounts) {
        forall i | 0 <= i < k ensures picks[i] in free - Picked(picks[..i]) {
          assert BestAt(picks, i, free, dcCounts, allocCounts);
        }
        assert BestAt(picks, k, free, dcCounts, allocCounts);
        PickExactly(picks, k, free, dcCounts, allocCounts);
      }
    }
    if forall k :: 0 <= k < |picks| ==> PreferredAt(picks, k, free, dcCounts, allocCounts) {
      forall k | 0 <= k < |picks| ensures BestAt(picks, k, free, dcCounts, allocCounts) {
        forall i | 0 <= i < k ensures picks[i] in free - Picked(picks[..i]) {
          assert PreferredAt(picks, i, free, dcCounts, allocCounts);
        }
        assert PreferredAt(picks, k, free, dcCounts, allocCounts);
        PickExactly(picks, k, free, dcCounts, allocCounts);
      }
    }
  }

  lemma {:induction false} LeastFirstPicks(picks: seq<NodeInfo>, free: set<NodeInfo>, base: Counts, k: nat)
    requires LeastFirst(picks, free, base) && k <= |picks|
    ensures Picked(picks[..k]) <= free && |Picked(picks[..k])| == k
  {
    if k == 0 {
      assert Picked(picks[..0]) == {};
    } else {
      LeastFirstPicks(picks, free, base, k - 1);
      assert LeastLoaded(picks, k - 1, free, base);
      PickedSnoc(picks, k - 1);
    }
  }

  /** After any number of picks: a datacenter that received one is at most one above any
      datacenter that still has an unpicked eligible node. */
  lemma {:induction false} Balanced(picks: seq<NodeInfo>, k: nat, free: set<NodeInfo>, base: Counts, got: NodeInfo,
      left: NodeInfo)
    requires LeastFirst(picks, free, base) && k <= |picks|
    requires got in Picked(picks[..k]) && left in free - Picked(picks[..k])
    ensures Load(base, Picked(picks[..k]), DatacenterOf(got)) <= Load(base, Picked(picks[..k]), DatacenterOf(left)) + 1
  {
    var j := k - 1;
    var before := Picked(picks[..j]);
    assert LeastLoaded(picks, j, free, base);
    PickedSnoc(picks, j);
    LoadGrows(base, before, picks[j], DatacenterOf(got));
    LoadGrows(base, before, picks[j], DatacenterOf(left));
    if DatacenterOf(picks[j]) != DatacenterOf(got) {
      Balanced(picks, j, free, base, got, left);
    }
  }

  // The comparison of two choices, datacenter by datacenter.

  ghost predicate Distinct(dcs: seq<string>) {
    forall i, j :: 0 <= i < j < |dcs| ==> dcs[i] != dcs[j]
  }

  ghost predicate Covers(dcs: seq<string>, nodes: set<NodeInfo>) {
    forall n :: n in nodes ==> DatacenterOf(n) in dcs
  }

  function Over(load: nat, level: nat): nat {
    if load > level then load - level else 0
  }

  /** How much the loads exceed a level, summed over datacenters. */
  ghost function Excess(base: Counts, chosen: set<NodeInfo>, dcs: seq<string>, level: nat): nat {
    if dcs == [] then 0
    else Excess(base, chosen, dcs[1..], level) + Over(Load(base, chosen, dcs[0]), level)
  }

  ghost function CountIn(chosen: set<NodeInfo>, dcs: seq<string>): nat {
    if dcs == [] then 0 else CountIn(chosen, dcs[1..]) + |InDc(chosen, dcs[0])|
  }

  lemma {:induction false} CountInAll(chosen: set<NodeInfo>, dcs: seq<string>)
    requires Distinct(dcs)
    ensures CountIn(chosen, dcs) == |set n | n in chosen && DatacenterOf(n) in dcs|
  {
    var all := set n | n in chosen && DatacenterOf(n) in dcs;
    if dcs == [] {
      assert all == {};
    } else {
      CountInAll(chosen, dcs[1..]);
      var rest := set n | n in chosen && DatacenterOf(n) in dcs[1..];
      assert all == rest + InDc(chosen, dcs[0]) && rest !! InDc(chosen, dcs[0]);
    }
  }

  /** Where the other choice puts more into a datacenter, all of the surplus counts
      against it: greedy left a node unpicked there, so it was not below the level. */
  ghost predicate Pointwise(base: Counts, picks: set<NodeInfo>, other: set<NodeInfo>, dc: string, level: nat) {
    Over(Load(base, other, dc), level) - Over(Load(base, picks, dc), level) >= |InDc(other, dc)| - |InDc(picks, dc)|
  }

  lemma {:induction false} SumPointwise(base: Counts, picks: set<NodeInfo>, other: set<NodeInfo>, dcs: seq<string>,
      level: nat)
    requires forall dc :: dc in dcs ==> Pointwise(base, picks, other, dc, level)
    ensures Excess(base, other, dcs, level) - Excess(base, picks, dcs, level) >=
            CountIn(other, dcs) - CountIn(picks, dcs)
  {
    if dcs != [] {
      assert dcs[0] in dcs;
      SumPointwise(base, picks, other, dcs[1..], level);
    }
  }

  lemma {:induction false} ExcessGrows(base: Counts, picks: set<NodeInfo>, other: set<NodeInfo>, dcs: seq<string>,
      level: nat)
    requires forall dc :: dc in dcs ==> Over(Load(base, picks, dc), level) <= Over(Load(base, other, dc), level)
    ensures Excess(base, picks, dcs, level) <= Excess(base, other, dcs, level)
  {
    if dcs != [] {
      assert dcs[0] in dcs;
      ExcessGrows(base, picks, other, dcs[1..], level);
    }
  }

  lemma MoreMeansUnpicked(picks: set<NodeInfo>, other: set<NodeInfo>, dc: string) returns (left: NodeInfo)
    requires |InDc(other, dc)| > |InDc(picks, dc)|
    ensures left in other - picks && DatacenterOf(left) == dc
  {
    if InDc(other, dc) <= InDc(picks, dc) {
      SubsetSize(InDc(other, dc), InDc(picks, dc));
    }
    left :| left in InDc(other, dc) && left !in InDc(picks, dc);
  }

  lemma SubsetSize<T>(a: set<T>, b: set<T>)
    requires a <= b
    ensures |a| <= |b|
  {
    assert b == a + (b - a);
  }

  /** Some datacenter that received a pick stands above the level: then so does, up to
      one copy, every datacenter with a node left, and any surplus elsewhere counts. */
  lemma OptimalAboveLevel(picks: seq<NodeInfo>, free: set<NodeInfo>, base: Counts, other: set<NodeInfo>,
      dcs: seq<string>, level: nat, got: NodeInfo)
    requires LeastFirst(picks, free, base) && other <= free && |other| == |picks|
    requires Distinct(dcs) && Covers(dcs, free)
    requires got in Picked(picks) && Load(base, Picked(picks), DatacenterOf(got)) > level
    ensures Excess(base, Picked(picks), dcs, level) <= Excess(base, other, dcs, level)
  {
    var chosen := Picked(picks);
    assert picks[..|picks|] == picks;
    LeastFirstPicks(picks, free, base, |picks|);
    forall dc | dc in dcs ensures Pointwise(base, chosen, other, dc, level) {
      if |InDc(other, dc)| > |InDc(chosen, dc)| {
        var left := MoreMeansUnpicked(chosen, other, dc);
        Balanced(picks, |picks|, free, base, got, left);
      }
    }
    SumPointwise(base, chosen, other, dcs, level);
    CountInAll(chosen, dcs);
    CountInAll(other, dcs);
    assert (set n | n in chosen && DatacenterOf(n) in dcs) == chosen;
    assert (set n | n in other && DatacenterOf(n) in dcs) == other;
  }

  /** Least-loaded-first is optimal: its loads are majorized by those of every other
      choice of as many eligible nodes. At every level, no other choice has less load
      above that level. */
  lemma LeastFirstOptimal(picks: seq<NodeInfo>, free: set<NodeInfo>, base: Counts, other: set<NodeInfo>,
      dcs: seq<string>, level: nat)
    requires LeastFirst(picks, free, base) && other <= free && |other| == |picks|
    requires Distinct(dcs) && Covers(dcs, free)
    ensures Excess(base, Picked(picks), dcs, level) <= Excess(base, other, dcs, level)
  {
    var chosen := Picked(picks);
    if got :| got in chosen && Load(base, chosen, DatacenterOf(got)) > level {
      OptimalAboveLevel(picks, free, base, other, dcs, level, got);
    } else {
      forall dc | dc in dcs
        ensures Over(Load(base, chosen, dc), level) <= Over(Load(base, other, dc), level)
      {
        if n :| n in InDc(chosen, dc) {
          assert Load(base, chosen, DatacenterOf(n)) <= level;
        } else {
          assert InDc(chosen, dc) == {};
        }
      }
      ExcessGrows(base, chosen, other, dcs, level);
    }
  }

  ghost predicate PeakAtMost(base: Counts, chosen: set<NodeInfo>, dcs: seq<string>, peak: nat) {
    forall dc :: dc in dcs ==> Load(base, chosen, dc) <= peak
  }

  lemma {:induction false} NoExcess(base: Counts, chosen: set<NodeInfo>, dcs: seq<string>, level: nat)
    ensures Excess(base, chosen, dcs, level) == 0 <==> PeakAtMost(base, chosen, dcs, level)
  {
    if dcs != [] {
      NoExcess(base, chosen, dcs[1..], level);
      assert forall dc :: dc in dcs <==> dc == dcs[0] || dc in dcs[1..];
    }
  }

  /** What PickCandidates chooses is min(needed, eligible) different eligible nodes; no
      other choice of as many has less load above any level, so in particular none has a
      lower fullest datacenter; and the result is balanced. */
  lemma GreedyOptimal(picks: seq<NodeInfo>, free: set<NodeInfo>, base: Counts, packing: Counts, needed: int,
      other: set<NodeInfo>, dcs: seq<string>)
    requires Greedy(picks, free, base, packing, needed)
    requires other <= free && |other| == |picks|
    requires Distinct(dcs) && Covers(dcs, free)
    ensures Picked(picks) <= free && |Picked(picks)| == |picks|
    ensures forall level :: Excess(base, Picked(picks), dcs, level) <= Excess(base, other, dcs, level)
    ensures forall peak :: PeakAtMost(base, other, dcs, peak) ==> PeakAtMost(base, Picked(picks), dcs, peak)
    ensures forall got, left :: got in Picked(picks) && left in free - Picked(picks) ==>
              Load(base, Picked(picks), DatacenterOf(got)) <= Load(base, Picked(picks), DatacenterOf(left)) + 1
  {
    assert picks[..|picks|] == picks;
    GreedyLeastFirst(picks, free, base, packing);
    LeastFirstPicks(picks, free, base, |picks|);
    forall level ensures Excess(base, Picked(picks), dcs, level) <= Excess(base, other, dcs, level) {
      LeastFirstOptimal(picks, free, base, other, dcs, level);
    }
    forall peak | PeakAtMost(base, other, dcs, peak)
      ensures PeakAtMost(base, Picked(picks), dcs, peak)
    {
      NoExcess(base, other, dcs, peak);
      NoExcess(base, Picked(picks), dcs, peak);
    }
    forall got, left | got in Picked(picks) && left in free - Picked(picks)
      ensures Load(base, Picked(picks), DatacenterOf(got)) <= Load(base, Picked(picks), DatacenterOf(left)) + 1
    {
      Balanced(picks, |picks|, free, base, got, left);
    }
  }

  // ----- the scheduler's own loop -----

  ghost predicate DistinctSeq(nodes: seq<NodeInfo>) {
    forall i, j :: 0 <= i < j < |nodes| ==> nodes[i].id != nodes[j].id
  }

  lemma SeqIds(nodes: seq<NodeInfo>)
    requires DistinctSeq(nodes)
    ensures DistinctIds(Picked(nodes))
  {
  }

  lemma {:induction false} SeqSize(nodes: seq<NodeInfo>)
    requires DistinctSeq(nodes)
    ensures |Picked(nodes)| == |nodes|
  {
    if nodes == [] {
      assert Picked(nodes) == {};
    } else {
      SeqSize(nodes[1..]);
      assert nodes == [nodes[0]] + nodes[1..];
      assert Picked(nodes) == Picked(nodes[1..]) + {nodes[0]};
    }
  }

  lemma LessIsOrder(working: Counts, packing: Counts)
    ensures StrictWeakOrder((a, b) => CandidateLess(a, b, working, packing))
  {
    forall a: NodeInfo, b: NodeInfo
      ensures !(CandidateLess(a, b, working, packing) && CandidateLess(b, a, working, packing))
    {
      StrLessTotal(a.id, b.id);
    }
    forall a: NodeInfo, b: NodeInfo, c: NodeInfo | CandidateLess(a, c, working, packing)
      ensures CandidateLess(a, b, working, packing) || CandidateLess(b, c, working, packing)
    {
      StrLessTotal(a.id, b.id);
      StrLessTotal(b.id, c.id);
      if StrLess(b.id, a.id) && StrLess(a.id, c.id) {
        StrLessTransitive(b.id, a.id, c.id);
      }
    }
  }

  /** Sorts the free nodes for one round: the first one is then the best. */
  method SortCandidates(free: seq<NodeInfo>, working: Counts, packing: Counts) returns (r: seq<NodeInfo>)
    requires free != [] && DistinctSeq(free)
    ensures |r| == |free| && DistinctSeq(r) && Picked(r) == Picked(free)
    ensures IsBest(r[0], Picked(free), working, packing)
  {
    SeqIds(free);
    LessIsOrder(working, packing);
    r := SortBy(free, (a, b) => CandidateLess(a, b, working, packing));
    assert |r| == |multiset(r)| == |free|;
    forall n ensures n in r <==> n in free { assert n in multiset(r) <==> n in multiset(free); }
    assert Picked(r) == Picked(free);
    SortedHead(r, working, packing);
  }

  lemma SortedHead(r: seq<NodeInfo>, working: Counts, packing: Counts)
    requires r != [] && NoDuplicates(r) && DistinctIds(Picked(r))
    requires Ordered(r, (a, b) => CandidateLess(a, b, working, packing))
    ensures DistinctSeq(r) && IsBest(r[0], Picked(r), working, packing)
  {
    forall i, j | 0 <= i < j < |r| ensures r[i].id != r[j].id {
      assert r[i] in Picked(r) && r[j] in Picked(r);
    }
    forall n | n in Picked(r) && n != r[0] ensures CandidateLess(r[0], n, working, packing) {
      var i :| 0 <= i < |r| && r[i] == n;
      CandidateOrder(r[0], n, n, working, packing);
    }
  }

  /** Filters out occupied nodes and nodes without room, keeping the order. */
  method EligibleNodes(healthy: seq<NodeInfo>, occupied: set<string>, required: Resources, reserved: Resources)
      returns (out: seq<NodeInfo>)
    requires DistinctSeq(healthy)
    ensures DistinctSeq(out)
    ensures Picked(out) == EligibleSet(Picked(healthy), occupied, required, reserved)
    ensures forall n :: n in out <==>
              && n in healthy && n.id !in occupied
              && n.cpuAvailable >= required.cpu + reserved.cpu
              && n.memoryAvailable >= required.memory + reserved.memory
  {
    out := [];
    var i := 0;
    while i < |healthy|
      invariant 0 <= i <= |healthy|
      invariant Picked(out) == EligibleSet(Picked(healthy[..i]), occupied, required, reserved)
      invariant DistinctSeq(out)
    {
      assert Picked(healthy[..i + 1]) == Picked(healthy[..i]) + {healthy[i]} by {
        assert healthy[..i + 1] == healthy[..i] + [healthy[i]];
      }
      if Eligible(healthy[i], occupied, required, reserved) {
        forall n | n in out ensures n.id != healthy[i].id {
          assert n in Picked(out);
        }
        assert Picked(out + [healthy[i]]) == Picked(out) + {healthy[i]};
        out := out + [healthy[i]];
      }
      i := i + 1;
    }
    assert healthy[..i] == healthy;
    assert forall n :: n in out <==> n in Picked(out);
  }

  /** One round: the best node and the others. */
  method PickOne(free: seq<NodeInfo>, working: Counts, packing: Counts) returns (pick: NodeInfo, rest: seq<NodeInfo>)
    requires free != [] && DistinctSeq(free)
    ensures IsBest(pick, Picked(free), working, packing)
    ensures |rest| == |free| - 1 && DistinctSeq(rest) && Picked(rest) == Picked(free) - {pick}
  {
    var sorted := SortCandidates(free, working, packing);
    pick, rest := sorted[0], sorted[1..];
    assert sorted == [pick] + rest;
    assert pick !in rest;
  }

  lemma CountsSnoc(picks: seq<NodeInfo>, p: NodeInfo, dcCounts: Counts, allocCounts: Counts)
    ensures Working(dcCounts, picks + [p]) == Bump(Working(dcCounts, picks), DatacenterOf(p))
    ensures Packing(allocCounts, picks + [p]) == Bump(Packing(allocCounts, picks), p.id)
    ensures Picked(picks + [p]) == Picked(picks) + {p}
  {
  }

  /** PickCandidates. By GreedyUnique the result depends only on the set of nodes, not on
      the order they are listed in. */
  method PickCandidates(healthy: seq<NodeInfo>, occupied: set<string>, dcCounts: Counts, allocCounts: Counts,
      needed: int, required: Resources, reserved: Resources) returns (picked: seq<NodeInfo>)
    requires DistinctSeq(healthy)
    ensures Greedy(picked, EligibleSet(Picked(healthy), occupied, required, reserved), dcCounts, allocCounts, needed)
    ensures forall k :: 0 <= k < |picked| ==>
              PreferredAt(picked, k, EligibleSet(Picked(healthy), occupied, required, reserved), dcCounts, allocCounts)
  {
    var free := EligibleNodes(healthy, occupied, required, reserved);
    ghost var eligible := Picked(free);
    SeqSize(free);
    SeqIds(free);
    var working, packing := dcCounts, allocCounts;
    picked := [];
    while |picked| < needed && |free| > 0
      invariant DistinctSeq(free) && Picked(free) == eligible - Picked(picked)
      invariant working == Working(dcCounts, picked) && packing == Packing(allocCounts, picked)
      invariant GreedySoFar(picked, eligible, dcCounts, allocCounts)
      invariant |picked| + |free| == |eligible| && (needed >= 0 ==> |picked| <= needed) && (needed < 0 ==> picked == [])
      decreases |free|
    {
      var pick, rest := PickOne(free, working, packing);
      GreedyExtends(picked, pick, eligible, dcCounts, allocCounts);
      CountsSnoc(picked, pick, dcCounts, allocCounts);
      working, packing := Bump(working, DatacenterOf(pick)), Bump(packing, pick.id);
      picked, free := picked + [pick], rest;
    }
    GreedyExactly(picked, eligible, dcCounts, allocCounts);
  }
}
