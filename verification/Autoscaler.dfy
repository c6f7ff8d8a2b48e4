/**
 * The autoscaler of one regular service, next to the scheduler that reconciles the same records.
 * Times are instants with 0 for Go's zero time.
 */
module Autoscaler {
  import opened Wrappers
  import opened Sorting
  import opened Placement
  import opened Reconcile
  import Cooldowns

  type Cooldown = Cooldowns.Cooldown

  datatype Config = Config(
    maxCopies: int, targetCpu: int, targetMemory: int, cooldownUp: int, cooldownDown: int, idleHold: int)

  datatype Decision = Stay | Up(node: string) | Down(node: string)

  /** Go's integer division: truncation toward zero. */
  function Div(a: int, b: int): int
    requires b != 0
  {
    if a >= 0 then a / b else -((-a) / b)
  }

  lemma {:induction false} Scale(x: int, y: int, b: int)
    requires x <= y && b > 0
    ensures x * b <= y * b
  {
    assert (y - x) * b >= 0;
  }

  /** A quotient q with remainder below b exceeds t exactly when a reaches the next multiple after t. */
  lemma {:induction false} QuotientAbove(a: int, b: int, q: int, t: int)
    requires b > 0 && q * b <= a < q * b + b
    ensures q > t <==> a >= t * b + b
  {
    if q > t {
      Scale(t + 1, q, b);
      assert (t + 1) * b == t * b + b;
    } else {
      Scale(q, t, b);
    }
  }

  lemma EuclidBounds(a: nat, b: int)
    requires b > 0
    ensures (a / b) * b <= a < (a / b) * b + b && a / b >= 0
  {
    assert a == a / b * b + a % b;
  }

  /** A truncated quotient exceeds a bound exactly when the dividend passes its multiple. */
  lemma {:induction false} DivAbove(a: int, b: int, t: int)
    requires b > 0
    ensures Div(a, b) > t <==> if t >= 0 then a >= t * b + b else a > t * b
  {
    if a >= 0 {
      EuclidBounds(a, b);
      QuotientAbove(a, b, a / b, t);
      if t < 0 {
        Scale(t, -1, b);
      }
    } else {
      EuclidBounds(-a, b);
      QuotientAbove(-a, b, (-a) / b, -t - 1);
      assert (-t - 1) * b == -(t * b) - b;
      if t >= 0 {
        Scale(0, t, b);
      }
    }
  }

  // ----- cooldown.go -----

  /** The later of the two recorded actions, if any. */
  function LastActionAt(c: Cooldown): Option<int> {
    if c.lastScaleUp != 0 && c.lastScaleDown != 0 then
      Some(if c.lastScaleUp > c.lastScaleDown then c.lastScaleUp else c.lastScaleDown)
    else if c.lastScaleUp != 0 then Some(c.lastScaleUp)
    else if c.lastScaleDown != 0 then Some(c.lastScaleDown)
    else None
  }

  function Window(cfg: Config): int {
    if cfg.cooldownUp > cfg.cooldownDown then cfg.cooldownUp else cfg.cooldownDown
  }

  predicate InCooldown(cfg: Config, c: Cooldown, now: int) {
    LastActionAt(c).Some? && now - LastActionAt(c).value < Window(cfg)
  }

  /** A recorded action holds the service back for either cooldown. */
  predicate Recent(cfg: Config, stamp: int, now: int) {
    stamp != 0 && (now - stamp < cfg.cooldownUp || now - stamp < cfg.cooldownDown)
  }

  lemma CooldownExactly(cfg: Config, c: Cooldown, now: int)
    ensures InCooldown(cfg, c, now) <==> Recent(cfg, c.lastScaleUp, now) || Recent(cfg, c.lastScaleDown, now)
  {
  }

  /**
   * The KV operations of one pass that fail: reading the gates, the last action and the idle marker,
   * writing the marker, listing the nodes for a scale-down, writing the decision and stamping it.
   */
  datatype Faults = Faults(
    gateRead: bool, lastRead: bool, idleRead: bool, markWrite: bool, listNodes: bool, write: bool, stamp: bool)

  const NO_FAULTS := Faults(false, false, false, false, false, false, false)

  /** An unreadable record counts as no gate and no cooldown. */
  predicate BlockedWith(f: Faults, cfg: Config, c: Cooldown, now: int) {
    || (!f.gateRead && (c.rollbackFailed || c.deployInProgress))
    || (!f.lastRead && InCooldown(cfg, c, now))
  }

  predicate Blocked(cfg: Config, c: Cooldown, now: int) {
    BlockedWith(NO_FAULTS, cfg, c, now)
  }

  // ----- what the evaluation looks at -----

  predicate Runs(a: Alloc) {
    a.status == Running && a.pid > 0
  }

  function RunningOn(a: Allocs): set<string> {
    set id | id in a && Runs(a[id])
  }

  predicate Overloaded(cfg: Config, memory: int, a: Alloc) {
    && a.status == Running && a.pid != 0
    && (a.cpuUsage > cfg.targetCpu || (memory > 0 && Div(a.memoryUsage * 100, memory) > cfg.targetMemory))
  }

  /** A copy is hot when it uses more CPU than its target, or a whole percent more of the required memory. */
  lemma OverloadedExactly(cfg: Config, memory: int, a: Alloc)
    ensures Overloaded(cfg, memory, a) <==>
              && a.status == Running && a.pid != 0
              && (a.cpuUsage > cfg.targetCpu
                  || (memory > 0 && if cfg.targetMemory >= 0
                                    then a.memoryUsage * 100 >= cfg.targetMemory * memory + memory
                                    else a.memoryUsage * 100 > cfg.targetMemory * memory))
  {
    if memory > 0 {
      DivAbove(a.memoryUsage * 100, memory, cfg.targetMemory);
    }
  }

  function Cpu(s: seq<Alloc>): int {
    if s == [] then 0 else Cpu(s[..|s| - 1]) + s[|s| - 1].cpuUsage
  }

  function Memory(s: seq<Alloc>): int {
    if s == [] then 0 else Memory(s[..|s| - 1]) + s[|s| - 1].memoryUsage
  }

  /** Both are sums over the copies, in whatever order they are listed. */
  lemma {:induction false} SumsAdd(s: seq<Alloc>, t: seq<Alloc>)
    ensures Cpu(s + t) == Cpu(s) + Cpu(t) && Memory(s + t) == Memory(s) + Memory(t)
    ensures |t| == 1 ==> Cpu(t) == t[0].cpuUsage && Memory(t) == t[0].memoryUsage
  {
    if t == [] {
      assert s + t == s;
    } else {
      var n := |t| - 1;
      SumsAdd(s, t[..n]);
      assert (s + t)[..|s + t| - 1] == s + t[..n];
    }
  }

  const IDLE_FLOOR_DIVISOR := 2

  /** The average use of the running copies is at most half of each target. */
  predicate Idle(cfg: Config, memory: int, running: seq<Alloc>) {
    var n := if |running| == 0 then 1 else |running|;
    && Div(Cpu(running), n) <= Div(cfg.targetCpu, IDLE_FLOOR_DIVISOR)
    && (memory > 0 ==> Div(Div(Memory(running), n) * 100, memory) <= Div(cfg.targetMemory, IDLE_FLOOR_DIVISOR))
  }

  /** Idle on CPU: the total stays below one more than half the target (rounded down) per copy. */
  lemma {:induction false} IdleExactly(cfg: Config, memory: int, running: seq<Alloc>, halfCpu: int, halfMemory: int,
      average: int)
    requires running != [] && halfCpu >= 0 && halfMemory >= 0 && average >= 0
    requires 2 * halfCpu <= cfg.targetCpu <= 2 * halfCpu + 1 && 2 * halfMemory <= cfg.targetMemory <= 2 * halfMemory + 1
    requires average * |running| <= Memory(running) < average * |running| + |running|
    ensures Idle(cfg, memory, running) <==>
              && Cpu(running) < halfCpu * |running| + |running|
              && (memory > 0 ==> average * 100 < halfMemory * memory + memory)
  {
    var n := |running|;
    DivAbove(Cpu(running), n, halfCpu);
    assert Div(Memory(running), n) == average by {
      Scale(0, average, n);
      EuclidBounds(Memory(running), n);
      QuotientAbove(Memory(running), n, Memory(running) / n, average);
      QuotientAbove(Memory(running), n, average, Memory(running) / n);
    }
    if memory > 0 {
      DivAbove(average * 100, memory, halfMemory);
    }
  }

  /** The running copies in the order they are listed, and their records. */
  function RunningIds(ids: seq<string>, a: Allocs): (r: seq<string>)
    ensures forall id :: id in r <==> id in ids && id in RunningOn(a)
  {
    if ids == [] then []
    else
      var rest, id := RunningIds(ids[..|ids| - 1], a), ids[|ids| - 1];
      assert ids == ids[..|ids| - 1] + [id];
      if id in RunningOn(a) then rest + [id] else rest
  }

  function Records(ids: seq<string>, a: Allocs): seq<Alloc>
    requires forall id :: id in ids ==> id in a
  {
    seq(|ids|, i requires 0 <= i < |ids| => a[ids[i]])
  }

  /** `ids` is the list of the service's records in the order KV returned it. */
  ghost predicate Lists(ids: seq<string>, a: Allocs) {
    NoDuplicates(ids) && forall id :: id in ids <==> id in a
  }

  // ----- which copy goes -----

  /** nodeDC[id]: a node that is not listed reads as the empty string. */
  function NodeDc(nodes: seq<NodeInfo>, id: string): string {
    if nodes == [] then ""
    else if nodes[|nodes| - 1].id == id then DatacenterOf(nodes[|nodes| - 1])
    else NodeDc(nodes[..|nodes| - 1], id)
  }

  function Crowd(live: seq<string>, nodes: seq<NodeInfo>, dc: string): nat {
    if live == [] then 0
    else Crowd(live[..|live| - 1], nodes, dc) + if NodeDc(nodes, live[|live| - 1]) == dc then 1 else 0
  }

  /** Copies in crowded datacenters go first; the node ID decides ties. */
  predicate GoesBefore(live: seq<string>, nodes: seq<NodeInfo>, x: string, y: string) {
    var cx, cy := Crowd(live, nodes, NodeDc(nodes, x)), Crowd(live, nodes, NodeDc(nodes, y));
    if cx != cy then cx > cy else StrLess(x, y)
  }

  lemma GoesBeforeOrder(live: seq<string>, nodes: seq<NodeInfo>)
    ensures StrictWeakOrder((x: string, y: string) => GoesBefore(live, nodes, x, y))
    ensures StrictWeakOrder((x: string, y: string) => StrLess(x, y))
  {
    forall x: string, y: string ensures !(StrLess(x, y) && StrLess(y, x)) {
      StrLessTotal(x, y);
    }
    forall x: string, y: string, z: string | StrLess(x, z) ensures StrLess(x, y) || StrLess(y, z) {
      StrLessTotal(x, y);
      if StrLess(y, x) {
        StrLessTransitive(y, x, z);
      }
    }
  }

  ghost function CopiesIn(live: seq<string>, nodes: seq<NodeInfo>, dc: string): set<string> {
    set y | y in live && NodeDc(nodes, y) == dc
  }

  /** The copies that are in the same datacenter as the one on `x`. */
  ghost function Neighbours(live: seq<string>, nodes: seq<NodeInfo>, x: string): set<string> {
    CopiesIn(live, nodes, NodeDc(nodes, x))
  }

  lemma {:induction false} NodeDcExactly(nodes: seq<NodeInfo>, id: string)
    requires DistinctSeq(nodes)
    ensures forall n :: n in nodes && n.id == id ==> NodeDc(nodes, id) == DatacenterOf(n)
    ensures (forall n :: n in nodes ==> n.id != id) ==> NodeDc(nodes, id) == ""
  {
    if nodes != [] {
      var front, last := nodes[..|nodes| - 1], nodes[|nodes| - 1];
      NodeDcExactly(front, id);
      assert nodes == front + [last];
    }
  }

  lemma {:induction false} CrowdIsSize(live: seq<string>, nodes: seq<NodeInfo>, dc: string)
    requires NoDuplicates(live)
    ensures Crowd(live, nodes, dc) == |CopiesIn(live, nodes, dc)|
  {
    if live == [] {
      assert CopiesIn(live, nodes, dc) == {};
    } else {
      var front, last := live[..|live| - 1], live[|live| - 1];
      CrowdIsSize(front, nodes, dc);
      assert live == front + [last] && last !in front;
      assert CopiesIn(live, nodes, dc) == CopiesIn(front, nodes, dc) + if NodeDc(nodes, last) == dc then {last} else {};
    }
  }

  /** The removal order: the copy with more neighbours, and among equals the one on the first node ID. */
  ghost predicate Sooner(live: seq<string>, nodes: seq<NodeInfo>, x: string, y: string) {
    || |Neighbours(live, nodes, x)| > |Neighbours(live, nodes, y)|
    || (|Neighbours(live, nodes, x)| == |Neighbours(live, nodes, y)| && Lexicographic(x, y))
  }

  lemma GoesBeforeExactly(live: seq<string>, nodes: seq<NodeInfo>, x: string, y: string)
    requires NoDuplicates(live)
    ensures GoesBefore(live, nodes, x, y) <==> Sooner(live, nodes, x, y)
  {
    CrowdIsSize(live, nodes, NodeDc(nodes, x));
    CrowdIsSize(live, nodes, NodeDc(nodes, y));
    StrLessLexicographic(x, y);
  }

  ghost predicate IsVictim(live: seq<string>, nodes: seq<NodeInfo>, victim: string) {
    victim in live && forall u :: u in live && u != victim ==> Sooner(live, nodes, victim, u)
  }

  /** PickRemovalVictims: n copies, none of which should have stayed instead of one that stays. */
  method PickRemovalVictims(live: seq<string>, nodes: seq<NodeInfo>, n: int) returns (victims: seq<string>)
    requires NoDuplicates(live)
    ensures |victims| == if n <= 0 then 0 else if n < |live| then n else |live|
    ensures NoDuplicates(victims) && forall v :: v in victims ==> v in live
    ensures forall v, u :: v in victims && u in live && u !in victims ==> Sooner(live, nodes, v, u)
  {
    if n <= 0 || |live| == 0 {
      return [];
    }
    GoesBeforeOrder(live, nodes);
    if n >= |live| {
      victims := SortBy(live, (x: string, y: string) => StrLess(x, y));
      forall v ensures v in victims <==> v in live {
        assert v in victims <==> v in multiset(victims);
      }
      assert |multiset(victims)| == |victims|;
      return;
    }
    var less := (x: string, y: string) => GoesBefore(live, nodes, x, y);
    var sorted := SortBy(live, less);
    SortedCut(live, nodes, sorted, less, n);
    victims := sorted[..n];
    forall v, u | v in victims && u in live && u !in victims ensures Sooner(live, nodes, v, u) {
      GoesBeforeExactly(live, nodes, v, u);
    }
  }

  lemma SortedCut(live: seq<string>, nodes: seq<NodeInfo>, sorted: seq<string>, less: (string, string) -> bool, n: nat)
    requires less == ((x: string, y: string) => GoesBefore(live, nodes, x, y))
    requires NoDuplicates(sorted) && multiset(sorted) == multiset(live) && Ordered(sorted, less) && n < |live|
    ensures |sorted| == |live| && NoDuplicates(sorted[..n]) && forall v :: v in sorted[..n] ==> v in live
    ensures forall v, u :: v in sorted[..n] && u in live && u !in sorted[..n] ==> GoesBefore(live, nodes, v, u)
  {
    assert |multiset(sorted)| == |sorted| && |multiset(live)| == |live|;
    forall v ensures v in sorted <==> v in live {
      assert v in sorted <==> v in multiset(sorted);
    }
    forall v, u | v in sorted[..n] && u in live && u !in sorted[..n] ensures GoesBefore(live, nodes, v, u) {
      var i, j :| 0 <= i < n && sorted[i] == v && 0 <= j < |sorted| && sorted[j] == u;
      assert i < j && !less(u, v);
      StrLessTotal(u, v);
    }
  }

  // ----- the decision -----

  /** Some ready node has traffic but no copy, or some copy is hot and a node is free. */
  ghost predicate WantsUp(cfg: Config, w: World, a: Allocs, traffic: set<string>) {
    && (cfg.maxCopies > 0 ==> |Live(a)| < cfg.maxCopies)
    && (|| (exists n :: n in Healthy(w) && n.id !in Live(a) && n.id in traffic)
        || ((exists id :: id in Live(a) && Overloaded(cfg, w.required.memory, a[id]))
            && EligibleSet(Healthy(w), Live(a), w.required, w.reserved) != {}))
  }

  /** More copies run than the floor asks for, and they are idle. */
  ghost predicate Spare(cfg: Config, w: World, a: Allocs, ids: seq<string>) {
    && |RunningOn(a)| > Floor(w.minCopies, w.scale)
    && Idle(cfg, w.required.memory, Records(RunningIds(ids, a), a))
  }

  predicate WindowOver(cfg: Config, c: Cooldown, now: int) {
    cfg.idleHold <= 0 || (c.idleSince != 0 && now - c.idleSince >= cfg.idleHold)
  }

  /** The idle marker after an evaluation that got as far as the idle test. */
  function Marked(cfg: Config, c: Cooldown, spare: bool, now: int): Cooldown {
    if !spare then c.(idleSince := 0)
    else if cfg.idleHold > 0 && c.idleSince == 0 then c.(idleSince := now)
    else c
  }

  /** An unreadable marker counts as a window that is not over. */
  predicate WindowOverWith(f: Faults, cfg: Config, c: Cooldown, now: int) {
    WindowOver(cfg, c, now) && (cfg.idleHold <= 0 || !f.idleRead)
  }

  function MarkedWith(f: Faults, cfg: Config, c: Cooldown, spare: bool, now: int): Cooldown {
    if f.idleRead || f.markWrite then c else Marked(cfg, c, spare, now)
  }

  /** What EvaluateService decides, and what it does to the cooldown record, in terms of its inputs. */
  ghost predicate DecidesWith(f: Faults, cfg: Config, w: World, nodes: seq<NodeInfo>, a: Allocs, ids: seq<string>,
                              traffic: set<string>, c: Cooldown, now: int, d: Decision, c': Cooldown) {
    if BlockedWith(f, cfg, c, now) then d == Stay && c' == c
    else if WantsUp(cfg, w, a, traffic) then
      d.Up? && d.node in Ids(Healthy(w)) && d.node !in Live(a) && c' == c
    else
      && c' == MarkedWith(f, cfg, c, Spare(cfg, w, a, ids), now)
      && (if Spare(cfg, w, a, ids) && WindowOverWith(f, cfg, c, now) && !f.listNodes
          then d.Down? && IsVictim(RunningIds(ids, a), nodes, d.node)
          else d == Stay)
  }

  /** The same with every KV operation succeeding. */
  ghost predicate Decides(cfg: Config, w: World, nodes: seq<NodeInfo>, a: Allocs, ids: seq<string>,
      traffic: set<string>, c: Cooldown, now: int, d: Decision, c': Cooldown) {
    DecidesWith(NO_FAULTS, cfg, w, nodes, a, ids, traffic, c, now, d, c')
  }

  /** When a pass acts, and what it leaves of the idle marker, with every KV operation succeeding. */
  lemma DecidesExactly(cfg: Config, w: World, nodes: seq<NodeInfo>, a: Allocs, ids: seq<string>, traffic: set<string>,
      c: Cooldown, now: int, d: Decision, c': Cooldown)
    requires Decides(cfg, w, nodes, a, ids, traffic, c, now, d, c')
    ensures var free := !c.rollbackFailed && !c.deployInProgress
                        && !Recent(cfg, c.lastScaleUp, now) && !Recent(cfg, c.lastScaleDown, now);
            && (d.Up? <==> free && WantsUp(cfg, w, a, traffic))
            && (d.Down? <==>
                  && free && !WantsUp(cfg, w, a, traffic) && Spare(cfg, w, a, ids)
                  && (cfg.idleHold > 0 ==> c.idleSince != 0 && now - c.idleSince >= cfg.idleHold))
            && c'.idleSince == (if !free || WantsUp(cfg, w, a, traffic) then c.idleSince
                                else if !Spare(cfg, w, a, ids) then 0
                                else if cfg.idleHold > 0 && c.idleSince == 0 then now
                                else c.idleSince)
            && c' == c.(idleSince := c'.idleSince)
  {
    CooldownExactly(cfg, c, now);
  }

  predicate HasTraffic(n: NodeInfo, a: Allocs, traffic: set<string>) {
    n.status == Ready && n.id !in Live(a) && n.id in traffic
  }

  /** Where a scale-up goes: the first listed node with traffic, or else the scheduler's best free node. */
  ghost predicate GrowsOn(w: World, nodes: seq<NodeInfo>, a: Allocs, traffic: set<string>, allocCounts: Counts,
      node: string) {
    if exists n :: n in nodes && HasTraffic(n, a, traffic) then
      exists i :: 0 <= i < |nodes| && HasTraffic(nodes[i], a, traffic) && nodes[i].id == node
                  && forall j :: 0 <= j < i ==> !HasTraffic(nodes[j], a, traffic)
    else exists n: NodeInfo :: n.id == node && BestFree(w, a, allocCounts, n)
  }

  ghost predicate BestFree(w: World, a: Allocs, allocCounts: Counts, n: NodeInfo) {
    exists counts :: CountsOccupied(counts, Healthy(w), Live(a))
                     && Preferred(n, EligibleSet(Healthy(w), Live(a), w.required, w.reserved), counts, {}, allocCounts)
  }

  /** ExecuteScalingDecision, with KV writes succeeding at time `done`. */
  function Executed(a: Allocs, d: Decision): Allocs {
    match d
    case Stay => a
    case Up(node) => a[node := FRESH]
    case Down(node) => a - {node}
  }

  function Stamped(c: Cooldown, d: Decision, done: int): Cooldown {
    match d
    case Stay => c
    case Up(_) => c.(lastScaleUp := done)
    case Down(_) => c.(lastScaleDown := done)
  }

  // ----- the code -----

  method FindNodeWithTraffic(nodes: seq<NodeInfo>, a: Allocs, traffic: set<string>) returns (found: Option<NodeInfo>)
    ensures found.None? ==> forall i :: 0 <= i < |nodes| ==> !HasTraffic(nodes[i], a, traffic)
    ensures found.Some? ==> exists i :: 0 <= i < |nodes| && nodes[i] == found.value && HasTraffic(nodes[i], a, traffic)
                                        && forall j :: 0 <= j < i ==> !HasTraffic(nodes[j], a, traffic)
  {
    for i := 0 to |nodes|
      invariant forall j :: 0 <= j < i ==> !HasTraffic(nodes[j], a, traffic)
    {
      if HasTraffic(nodes[i], a, traffic) {
        return Some(nodes[i]);
      }
    }
    return None;
  }

  method FindOverloaded(cfg: Config, memory: int, ids: seq<string>, a: Allocs) returns (found: bool)
    requires Lists(ids, a)
    ensures found <==> exists id :: id in Live(a) && Overloaded(cfg, memory, a[id])
  {
    for i := 0 to |ids|
      invariant forall id :: id in ids[..i] && id in Live(a) ==> !Overloaded(cfg, memory, a[id])
    {
      assert ids[..i + 1] == ids[..i] + [ids[i]];
      assert ids[i] in ids;
      if a[ids[i]].status.IsLive() && Overloaded(cfg, memory, a[ids[i]]) {
        return true;
      }
    }
    assert ids[..|ids|] == ids;
    return false;
  }

  method PickFreeNode(w: World, nodes: seq<NodeInfo>, a: Allocs, allocCounts: Counts) returns (target: Option<NodeInfo>)
    requires DistinctSeq(nodes) && w.nodes == Picked(nodes)
    ensures target.Some? <==> EligibleSet(Healthy(w), Live(a), w.required, w.reserved) != {}
    ensures target.Some? ==> target.value in Healthy(w) && Eligible(target.value, Live(a), w.required, w.reserved)
    ensures target.Some? ==> BestFree(w, a, allocCounts, target.value)
  {
    var healthy := FilterHealthy(nodes);
    ghost var free := EligibleSet(Healthy(w), Live(a), w.required, w.reserved);
    var counts := CountOccupied(healthy, Live(a));
    var picks := PickCandidates(healthy, Live(a), counts, allocCounts, 1, w.required, w.reserved);
    if |picks| == 0 {
      return None;
    }
    assert PreferredAt(picks, 0, free, counts, allocCounts);
    assert Picked(picks[..0]) == {};
    assert CountsOccupied(counts, Healthy(w), Live(a)) && Preferred(picks[0], free, counts, {}, allocCounts);
    return Some(picks[0]);
  }

  method EvaluateScaleUp(cfg: Config, w: World, nodes: seq<NodeInfo>, a: Allocs, ids: seq<string>,
      traffic: set<string>, allocCounts: Counts)
    returns (d: Decision)
    requires DistinctSeq(nodes) && w.nodes == Picked(nodes) && Lists(ids, a)
    ensures d == Stay || d.Up?
    ensures d.Up? <==> WantsUp(cfg, w, a, traffic)
    ensures d.Up? ==> d.node in Ids(Healthy(w)) && d.node !in Live(a)
    ensures d.Up? ==> GrowsOn(w, nodes, a, traffic, allocCounts, d.node)
  {
    var live := Live(a);
    if cfg.maxCopies > 0 && |live| >= cfg.maxCopies {
      return Stay;
    }
    var node := FindNodeWithTraffic(nodes, a, traffic);
    if node.Some? {
      assert node.value in nodes && node.value in Healthy(w);
      return Up(node.value.id);
    }
    assert forall n :: n in Healthy(w) ==> n in nodes;
    var hot := FindOverloaded(cfg, w.required.memory, ids, a);
    if hot {
      var target := PickFreeNode(w, nodes, a, allocCounts);
      if target.Some? {
        return Up(target.value.id);
      }
    }
    return Stay;
  }

  method LiveRunning(ids: seq<string>, a: Allocs) returns (running: seq<string>)
    requires Lists(ids, a)
    ensures running == RunningIds(ids, a) && NoDuplicates(running) && |running| == |RunningOn(a)|
    ensures forall id :: id in running <==> id in a && a[id].status == Running && a[id].pid > 0
  {
    running := [];
    for i := 0 to |ids|
      invariant running == RunningIds(ids[..i], a) && NoDuplicates(running)
    {
      assert ids[..i + 1][..i] == ids[..i];
      assert ids[i] in ids;
      assert ids[i] !in ids[..i];
      if Runs(a[ids[i]]) {
        running := running + [ids[i]];
      }
    }
    assert ids[..|ids|] == ids;
    SizeOf(running, RunningOn(a));
  }

  lemma {:induction false} SizeOf(s: seq<string>, all: set<string>)
    requires NoDuplicates(s) && forall x :: x in s <==> x in all
    ensures |s| == |all|
  {
    if s != [] {
      var last, front := s[|s| - 1], s[..|s| - 1];
      assert s == front + [last];
      assert last !in front;
      SizeOf(front, all - {last});
    }
  }

  method AverageUsage(s: seq<Alloc>) returns (cpu: int, mem: int)
    ensures s == [] ==> cpu == mem == 0
    ensures s != [] ==> cpu == Div(Cpu(s), |s|) && mem == Div(Memory(s), |s|)
  {
    cpu, mem := 0, 0;
    if |s| == 0 {
      return;
    }
    for i := 0 to |s|
      invariant cpu == Cpu(s[..i]) && mem == Memory(s[..i])
    {
      assert s[..i + 1][..i] == s[..i];
      cpu, mem := cpu + s[i].cpuUsage, mem + s[i].memoryUsage;
    }
    assert s[..|s|] == s;
    cpu, mem := Div(cpu, |s|), Div(mem, |s|);
  }

  class Autoscaler {
    var allocs: Allocs
    var cooldown: Cooldown

    constructor (allocs: Allocs, cooldown: Cooldown)
      ensures this.allocs == allocs && this.cooldown == cooldown
    {
      this.allocs, this.cooldown := allocs, cooldown;
    }

    method IdleWindowSatisfied(f: Faults, cfg: Config, now: int) returns (over: bool)
      modifies this`cooldown
      ensures cooldown == MarkedWith(f, cfg, old(cooldown), true, now)
      ensures over == WindowOverWith(f, cfg, old(cooldown), now)
    {
      if cfg.idleHold <= 0 {
        return true;
      }
      if f.idleRead {
        return false;
      }
      if cooldown.idleSince == 0 {
        if !f.markWrite {
          cooldown := cooldown.(idleSince := now);
        }
        return false;
      }
      return now - cooldown.idleSince >= cfg.idleHold;
    }

    method ClearIdleMarker(f: Faults)
      modifies this`cooldown
      ensures cooldown == if f.idleRead || f.markWrite then old(cooldown) else old(cooldown).(idleSince := 0)
    {
      if !f.idleRead && cooldown.idleSince != 0 && !f.markWrite {
        cooldown := cooldown.(idleSince := 0);
      }
    }

    method EvaluateScaleDown(f: Faults, cfg: Config, w: World, nodes: seq<NodeInfo>, ids: seq<string>, now: int)
        returns (d: Decision)
      requires Lists(ids, allocs)
      modifies this`cooldown
      ensures cooldown == MarkedWith(f, cfg, old(cooldown), Spare(cfg, w, allocs, ids), now)
      ensures if Spare(cfg, w, allocs, ids) && WindowOverWith(f, cfg, old(cooldown), now) && !f.listNodes
              then d.Down? && IsVictim(RunningIds(ids, allocs), nodes, d.node)
              else d == Stay
    {
      var floor := Floor(w.minCopies, w.scale);
      RunningIsLive(allocs);
      if |Live(allocs)| <= floor {
        ClearIdleMarker(f);
        return Stay;
      }
      var running := LiveRunning(ids, allocs);
      if |running| <= floor {
        ClearIdleMarker(f);
        return Stay;
      }
      var cpu, mem := AverageUsage(Records(running, allocs));
      if cpu > Div(cfg.targetCpu, IDLE_FLOOR_DIVISOR) {
        ClearIdleMarker(f);
        return Stay;
      }
      if w.required.memory > 0 && Div(mem * 100, w.required.memory) > Div(cfg.targetMemory, IDLE_FLOOR_DIVISOR) {
        ClearIdleMarker(f);
        return Stay;
      }
      var over := IdleWindowSatisfied(f, cfg, now);
      if !over || f.listNodes {
        return Stay;
      }
      var victims := PickRemovalVictims(running, nodes, 1);
      assert victims == [victims[0]];
      return Decision.Down(victims[0]);
    }

    method EvaluateService(f: Faults, cfg: Config, w: World, nodes: seq<NodeInfo>, ids: seq<string>,
        traffic: set<string>, allocCounts: Counts, now: int) returns (d: Decision)
      requires DistinctSeq(nodes) && w.nodes == Picked(nodes) && Lists(ids, allocs)
      modifies this`cooldown
      ensures DecidesWith(f, cfg, w, nodes, allocs, ids, traffic, old(cooldown), now, d, cooldown)
      ensures d.Up? ==> GrowsOn(w, nodes, allocs, traffic, allocCounts, d.node)
    {
      if !f.gateRead && (cooldown.rollbackFailed || cooldown.deployInProgress) {
        return Stay;
      }
      if !f.lastRead && InCooldown(cfg, cooldown, now) {
        return Stay;
      }
      d := EvaluateScaleUp(cfg, w, nodes, allocs, ids, traffic, allocCounts);
      if d == Stay {
        d := EvaluateScaleDown(f, cfg, w, nodes, ids, now);
      }
    }

    /** A failed write changes nothing; a failed stamp leaves the action without its cooldown. */
    method ExecuteScalingDecision(f: Faults, d: Decision, done: int) returns (ok: bool)
      modifies this
      ensures ok <==> d == Stay || !f.write
      ensures allocs == if f.write then old(allocs) else Executed(old(allocs), d)
      ensures cooldown == if f.write || f.stamp then old(cooldown) else Stamped(old(cooldown), d, done)
      ensures !f.write && d.Up? ==> allocs == old(allocs)[d.node := Alloc(Pending, 0, 0, 0)]
      ensures !f.write && d.Down? ==> allocs == old(allocs) - {d.node}
      ensures !f.write && !f.stamp ==>
                && cooldown.lastScaleUp == (if d.Up? then done else old(cooldown).lastScaleUp)
                && cooldown.lastScaleDown == (if d.Down? then done else old(cooldown).lastScaleDown)
                && cooldown.idleSince == old(cooldown).idleSince
    {
      match d {
        case Stay =>
          return true;
        case Up(node) =>
          if f.write {
            return false;
          }
          allocs := allocs[node := FRESH];
          if !f.stamp {
            cooldown := cooldown.(lastScaleUp := done);
          }
        case Down(node) =>
          if f.write {
            return false;
          }
          allocs := allocs - {node};
          if !f.stamp {
            cooldown := cooldown.(lastScaleDown := done);
          }
      }
      ok := true;
    }
  }

  lemma RunningIsLive(a: Allocs)
    ensures RunningOn(a) <= Live(a) && |RunningOn(a)| <= |Live(a)|
  {
    SubsetSize(RunningOn(a), Live(a));
  }
}

/** Runs of reconcile passes, autoscaler passes and outside changes on one regular service. */
module ScalingRuns {
  import opened Wrappers
  import opened Placement
  import opened Reconcile
  import opened Autoscaler
  import Cooldowns

  /** An autoscaler action: when it was decided and when its cooldown stamp was written. */
  datatype Action = Action(decided: int, done: int)

  datatype State = State(allocs: Allocs, cooldown: Cooldown, now: int, actions: seq<Action>)

  datatype Step =
    | Reconciled(w: World, chosen: set<NodeInfo>)
    | Autoscaled(w: World, nodes: seq<NodeInfo>, ids: seq<string>, traffic: set<string>, d: Decision,
        marked: Cooldown, done: int)
    | Drifted

  predicate FloorFits(cfg: Config, w: World) {
    cfg.maxCopies > 0 ==> Floor(w.minCopies, w.scale) <= cfg.maxCopies
  }

  /**
   * One pass, with KV operations succeeding, on nodes, usage, traffic and operator settings that may
   * differ from pass to pass. Between passes copies may change or die and the deployer may flip its
   * flags, but nobody else revives a copy, stamps an action or moves the idle marker.
   */
  ghost predicate Next(cfg: Config, s: State, t: State, step: Step) {
    && s.now <= t.now
    && match step
       case Reconciled(w, chosen) =>
         && w.kind.Regular? && NoFailures(w) && DistinctIds(w.nodes) && FloorFits(cfg, w)
         && Effect(w, s.allocs, t.allocs, chosen)
         && t.cooldown == s.cooldown && t.actions == s.actions
       case Autoscaled(w, nodes, ids, traffic, d, marked, done) =>
         && Decides(cfg, w, nodes, s.allocs, ids, traffic, s.cooldown, s.now, d, marked)
         && s.now <= done <= t.now
         && t.allocs == Executed(s.allocs, d) && t.cooldown == Stamped(marked, d, done)
         && t.actions == if d == Stay then s.actions else s.actions + [Action(s.now, done)]
       case Drifted =>
         && Live(t.allocs) <= Live(s.allocs)
         && t.cooldown.lastScaleUp == s.cooldown.lastScaleUp && t.cooldown.lastScaleDown == s.cooldown.lastScaleDown
         && t.cooldown.idleSince == s.cooldown.idleSince
         && t.actions == s.actions
  }

  ghost predicate IsRun(cfg: Config, run: seq<State>, steps: seq<Step>) {
    && |run| == |steps| + 1 && run[0].now > 0 && run[0].actions == []
    && forall k :: 0 <= k < |steps| ==> Next(cfg, run[k], run[k + 1], steps[k])
  }

  lemma ExecutedLive(a: Allocs, d: Decision)
    requires d.Up? ==> d.node !in Live(a)
    requires d.Down? ==> d.node in Live(a)
    ensures |Live(Executed(a, d))| == |Live(a)| + (if d.Up? then 1 else if d.Down? then -1 else 0)
  {
    var b := Executed(a, d);
    if d.Up? {
      assert FRESH.status.IsLive();
      assert Live(b) == Live(a) + {d.node};
    } else if d.Down? {
      assert Live(b) == Live(a) - {d.node};
    }
  }

  lemma DecisionFits(cfg: Config, w: World, nodes: seq<NodeInfo>, a: Allocs, ids: seq<string>, traffic: set<string>,
      c: Cooldown, now: int, d: Decision, c': Cooldown)
    requires Decides(cfg, w, nodes, a, ids, traffic, c, now, d, c')
    ensures d.Up? ==> d.node !in Live(a) && (cfg.maxCopies > 0 ==> |Live(a)| < cfg.maxCopies)
    ensures d.Down? ==> d.node in RunningOn(a) && d.node in Live(a) && |Live(a)| > Floor(w.minCopies, w.scale)
    ensures d != Stay ==> !InCooldown(cfg, c, now)
    ensures c'.lastScaleUp == c.lastScaleUp && c'.lastScaleDown == c.lastScaleDown
  {
    RunningIsLive(a);
  }

  /** A reconcile pass lifts the live count to the floor at most. */
  lemma PassFits(cfg: Config, w: World, before: Allocs, after: Allocs, chosen: set<NodeInfo>)
    requires w.kind.Regular? && NoFailures(w) && DistinctIds(w.nodes) && Effect(w, before, after, chosen)
    ensures |Live(after)| <= |Live(before)| || |Live(after)| <= Floor(w.minCopies, w.scale)
  {
    var known := OnKnown(w, before);
    assert Live(known) <= Live(before);
    SubsetSize(Live(known), Live(before));
    if Healthy(w) == {} {
      EffectPlaces(w, before, after, chosen);
      assert Ids(chosen) == {};
      assert Live(after) == Live(known);
    } else {
      RegularReaches(w, before, after, chosen);
    }
  }

  lemma {:induction false} CopiesStep(cfg: Config, s: State, t: State, step: Step)
    requires Next(cfg, s, t, step) && cfg.maxCopies > 0 && |Live(s.allocs)| <= cfg.maxCopies
    ensures |Live(t.allocs)| <= cfg.maxCopies
  {
    match step
    case Reconciled(w, chosen) => PassFits(cfg, w, s.allocs, t.allocs, chosen);
    case Autoscaled(w, nodes, ids, traffic, d, marked, done) =>
      DecisionFits(cfg, w, nodes, s.allocs, ids, traffic, s.cooldown, s.now, d, marked);
      ExecutedLive(s.allocs, d);
    case Drifted => SubsetSize(Live(t.allocs), Live(s.allocs));
  }

  /** The two loops together never push a service above MaxCopies. */
  lemma {:induction false} CopiesBounded(cfg: Config, run: seq<State>, steps: seq<Step>, k: nat)
    requires IsRun(cfg, run, steps) && k < |run|
    requires cfg.maxCopies > 0 && |Live(run[0].allocs)| <= cfg.maxCopies
    ensures |Live(run[k].allocs)| <= cfg.maxCopies
  {
    if k > 0 {
      CopiesBounded(cfg, run, steps, k - 1);
      assert Next(cfg, run[k - 1], run[k - 1 + 1], steps[k - 1]);
      CopiesStep(cfg, run[k - 1], run[k], steps[k - 1]);
    }
  }

  ghost predicate Spaced(cfg: Config, s: State) {
    && s.now > 0
    && (forall i :: 0 <= i < |s.actions| ==>
          s.actions[i].decided <= s.actions[i].done <= s.now && LastActionAt(s.cooldown).Some?
          && s.actions[i].done <= LastActionAt(s.cooldown).value)
    && (forall i, j :: 0 <= i < j < |s.actions| ==> s.actions[j].decided - s.actions[i].done >= Window(cfg))
  }

  /** Any two autoscaler actions are at least the larger cooldown apart. */
  lemma {:induction false} ActionsSpaced(cfg: Config, run: seq<State>, steps: seq<Step>, k: nat)
    requires IsRun(cfg, run, steps) && k < |run|
    ensures Spaced(cfg, run[k])
  {
    if k > 0 {
      ActionsSpaced(cfg, run, steps, k - 1);
      assert Next(cfg, run[k - 1], run[k - 1 + 1], steps[k - 1]);
      SpacedStep(cfg, run[k - 1], run[k], steps[k - 1]);
    }
  }

  lemma SpacedStep(cfg: Config, s: State, t: State, step: Step)
    requires Spaced(cfg, s) && Next(cfg, s, t, step)
    ensures Spaced(cfg, t)
  {
    if step.Autoscaled? && step.d != Stay {
      DecisionFits(cfg, step.w, step.nodes, s.allocs, step.ids, step.traffic, s.cooldown, s.now, step.d, step.marked);
      SpacedMore(cfg, s, t, step.d, step.marked, step.done);
    } else {
      SpacedStill(cfg, s, t, step);
    }
  }

  lemma SpacedStill(cfg: Config, s: State, t: State, step: Step)
    requires Spaced(cfg, s) && Next(cfg, s, t, step) && (step.Autoscaled? ==> step.d == Stay)
    ensures Spaced(cfg, t)
  {
    if step.Autoscaled? {
      DecisionFits(cfg, step.w, step.nodes, s.allocs, step.ids, step.traffic, s.cooldown, s.now, step.d, step.marked);
    }
    assert LastActionAt(t.cooldown) == LastActionAt(s.cooldown);
  }

  /** One more action, taken outside the cooldown and stamped after everything before it. */
  lemma SpacedMore(cfg: Config, s: State, t: State, d: Decision, marked: Cooldown, done: int)
    requires Spaced(cfg, s) && d != Stay && !InCooldown(cfg, s.cooldown, s.now) && s.now <= done <= t.now
    requires marked.lastScaleUp == s.cooldown.lastScaleUp && marked.lastScaleDown == s.cooldown.lastScaleDown
    requires t.cooldown == Stamped(marked, d, done) && t.actions == s.actions + [Action(s.now, done)]
    ensures Spaced(cfg, t)
  {
    assert LastActionAt(t.cooldown).Some? && LastActionAt(t.cooldown).value >= done;
  }

  // ----- the two loops do not fight -----

  /** A scale-down removes one copy and stops at the floor. */
  lemma {:induction false} ScaleDownKeepsFloor(cfg: Config, w: World, nodes: seq<NodeInfo>, a: Allocs,
      ids: seq<string>, traffic: set<string>,
      c: Cooldown, now: int, d: Decision, c': Cooldown)
    requires Decides(cfg, w, nodes, a, ids, traffic, c, now, d, c') && d.Down?
    ensures |Live(Executed(a, d))| == |Live(a)| - 1 >= Floor(w.minCopies, w.scale)
  {
    DecisionFits(cfg, w, nodes, a, ids, traffic, c, now, d, c');
    ExecutedLive(a, d);
  }

  /**
   * The reconcile pass right after a scale-down, on the same nodes and settings, places nothing exactly
   * when the live copies on known nodes, without the one removed, still meet the target, or no node is free.
   */
  lemma {:induction false} UndoneExactly(w: World, a: Allocs, d: Decision, after: Allocs, chosen: set<NodeInfo>)
    requires w.kind.Regular? && NoFailures(w) && Healthy(w) != {} && d.Down?
    requires Effect(w, Executed(a, d), after, chosen)
    ensures chosen == {} <==>
            || |Live(OnKnown(w, a)) - {d.node}| >= TargetCopies(w, |Healthy(w)|)
            || EligibleSet(Healthy(w), Occupied(OnKnown(w, a)) - {d.node}, w.required, w.reserved) == {}
  {
    var b := Executed(a, d);
    assert OnKnown(w, b) == OnKnown(w, a) - {d.node};
    assert Live(OnKnown(w, b)) == Live(OnKnown(w, a)) - {d.node};
    assert Occupied(OnKnown(w, b)) == Occupied(OnKnown(w, a)) - {d.node};
  }

  /** A pass over a service that meets its floor on known nodes places nothing. */
  lemma {:induction false} NothingPlaced(w: World, b: Allocs, after: Allocs, chosen: set<NodeInfo>)
    requires w.kind.Regular? && NoFailures(w) && Live(b) <= Ids(w.nodes) && |Live(b)| >= Floor(w.minCopies, w.scale)
    requires Effect(w, b, after, chosen)
    ensures chosen == {} && Live(after) == Live(b)
  {
    assert Live(OnKnown(w, b)) == Live(b);
    NoneChosen(w, b, after, chosen);
    EffectPlaces(w, b, after, chosen);
    assert Ids(chosen) == {};
  }

  lemma {:induction false} NoneChosen(w: World, b: Allocs, after: Allocs, chosen: set<NodeInfo>)
    requires w.kind.Regular? && |Live(OnKnown(w, b))| >= Floor(w.minCopies, w.scale) && Effect(w, b, after, chosen)
    ensures chosen == {}
  {
    if Healthy(w) != {} {
      assert TargetCopies(w, |Healthy(w)|) <= Floor(w.minCopies, w.scale);
    }
  }

  /** With every live copy on a known node, the scheduler does not undo a scale-down. */
  lemma {:induction false} NoFight(cfg: Config, w: World, nodes: seq<NodeInfo>, a: Allocs, ids: seq<string>,
      traffic: set<string>, c: Cooldown, now: int, d: Decision, c': Cooldown, after: Allocs, chosen: set<NodeInfo>)
    requires Decides(cfg, w, nodes, a, ids, traffic, c, now, d, c') && d.Down?
    requires w.kind.Regular? && NoFailures(w) && Live(a) <= Ids(w.nodes)
    requires Effect(w, Executed(a, d), after, chosen)
    ensures chosen == {} && Live(after) == Live(a) - {d.node}
  {
    var b := Executed(a, d);
    ScaleDownKeepsFloor(cfg, w, nodes, a, ids, traffic, c, now, d, c');
    assert Live(b) == Live(a) - {d.node};
    NothingPlaced(w, b, after, chosen);
  }

  /**
   * A ghost breaks it: two idle copies, one of them on a node that has left. The copy that goes is the one
   * that the reconcile pass then wants back.
   */
  lemma GhostFight(cfg: Config, here: string, gone: string, dc: string)
      returns (w: World, nodes: seq<NodeInfo>, a: Allocs, ids: seq<string>, d: Decision, after: Allocs,
               chosen: set<NodeInfo>)
    requires cfg.maxCopies == 0 && cfg.targetCpu >= 0 && cfg.targetMemory >= 0 && cfg.idleHold <= 0
    requires StrLess(here, gone) && here != gone && dc != ""
    ensures Decides(cfg, w, nodes, a, ids, {}, Cooldowns.ZERO, 1, d, Cooldowns.ZERO) && d.Down?
    ensures w.kind.Regular? && NoFailures(w) && DistinctIds(w.nodes) && w.nodes == Picked(nodes)
    ensures Effect(w, Executed(a, d), after, chosen) && chosen != {}
  {
    var copy, n := Alloc(Running, 1, 0, 0), NodeInfo(here, dc, Ready, 0, 0);
    nodes, ids, d := [n], [here, gone], Decision.Down(here);
    w := World({n}, Regular, Resources(0, 0), Resources(0, 0), 1, None, {}, {});
    a := map[here := copy, gone := copy];
    chosen, after := {n}, map[here := FRESH];
    GhostEvaluation(cfg, w, nodes, a, ids, copy, n, here, gone);
    assert Executed(a, d) == map[gone := copy];
    GhostReconcile(w, copy, n, gone);
  }

  lemma GhostReconcile(w: World, copy: Alloc, n: NodeInfo, gone: string)
    requires n.status == Ready && n.cpuAvailable == 0 && n.memoryAvailable == 0 && n.id != gone
    requires w == World({n}, Regular, Resources(0, 0), Resources(0, 0), 1, None, {}, {})
    ensures Effect(w, map[gone := copy], map[n.id := FRESH], {n})
  {
    var b: Allocs := map[gone := copy];
    assert Healthy(w) == {n} && Ids(w.nodes) == {n.id} && OnKnown(w, b) == map[] && Reaped(w, b) == map[];
    assert Live(OnKnown(w, b)) == {} && Free(w, b) == {n};
    assert Ids({n}) - w.failedCreates == {n.id};
  }

  lemma GhostEvaluation(cfg: Config, w: World, nodes: seq<NodeInfo>, a: Allocs, ids: seq<string>, copy: Alloc,
      n: NodeInfo, here: string, gone: string)
    requires cfg.maxCopies == 0 && cfg.targetCpu >= 0 && cfg.targetMemory >= 0 && cfg.idleHold <= 0
    requires copy == Alloc(Running, 1, 0, 0) && n.id == here && n.datacenter != "" && nodes == [n]
    requires w == World({n}, Regular, Resources(0, 0), Resources(0, 0), 1, None, {}, {})
    requires a == map[here := copy, gone := copy] && ids == [here, gone] && StrLess(here, gone) && here != gone
    ensures Decides(cfg, w, nodes, a, ids, {}, Cooldowns.ZERO, 1, Decision.Down(here), Cooldowns.ZERO)
  {
    GhostVictim(nodes, a, ids, copy, n, here, gone);
    assert RunningOn(a) == {here, gone} && |RunningOn(a)| == 2;
    var r := Records(ids, a);
    assert r[..1] == [copy] && [copy][..0] == [];
    assert Cpu([copy][..0]) == 0 && Memory([copy][..0]) == 0;
    assert Cpu([copy]) == 0 && Memory([copy]) == 0;
    assert !WantsUp(cfg, w, a, {}) by {
      assert forall id :: id in Live(a) ==> a[id] == copy;
    }
  }

  lemma GhostVictim(nodes: seq<NodeInfo>, a: Allocs, ids: seq<string>, copy: Alloc, n: NodeInfo, here: string,
      gone: string)
    requires Runs(copy) && n.id == here && n.datacenter != "" && nodes == [n]
    requires a == map[here := copy, gone := copy] && ids == [here, gone] && StrLess(here, gone) && here != gone
    ensures RunningIds(ids, a) == ids && IsVictim(ids, nodes, here)
  {
    GhostRunning(a, ids, copy, here, gone);
    GhostCrowd(nodes, ids, n, here, gone);
    forall u | u in ids && u != here ensures Sooner(ids, nodes, here, u) {
      assert u == gone;
      GoesBeforeExactly(ids, nodes, here, gone);
    }
  }

  lemma GhostRunning(a: Allocs, ids: seq<string>, copy: Alloc, here: string, gone: string)
    requires Runs(copy) && a == map[here := copy, gone := copy] && ids == [here, gone]
    ensures RunningIds(ids, a) == ids
  {
    var one := [here];
    assert here in RunningOn(a) && gone in RunningOn(a);
    assert one[..0] == [] && RunningIds(one[..0], a) == [];
    assert RunningIds(one, a) == one && ids[..1] == one;
  }

  lemma GhostCrowd(nodes: seq<NodeInfo>, ids: seq<string>, n: NodeInfo, here: string, gone: string)
    requires n.id == here && n.datacenter != "" && nodes == [n] && ids == [here, gone] && here != gone
    ensures Crowd(ids, nodes, NodeDc(nodes, here)) == Crowd(ids, nodes, NodeDc(nodes, gone)) == 1
  {
    var one, none := [here], nodes[..0];
    assert none == [] && NodeDc(none, gone) == "";
    assert NodeDc(nodes, here) == n.datacenter && NodeDc(nodes, gone) == "";
    assert ids[..1] == one && one[..0] == [];
    assert Crowd(one[..0], nodes, n.datacenter) == 0 && Crowd(one[..0], nodes, "") == 0;
    assert Crowd(one, nodes, n.datacenter) == 1 && Crowd(one, nodes, "") == 0;
  }
}

/** The arithmetic behind the idle floor. */
module Hysteresis {
  import Reconcile
  import Autoscaler

  function Sum(s: seq<nat>): nat {
    if s == [] then 0 else Sum(s[..|s| - 1]) + s[|s| - 1]
  }

  /** The CPU half of the idle test: the integer average is at most half the target. */
  predicate Idle(load: seq<nat>, target: nat) {
    |load| > 0 && Sum(load) / |load| <= target / 2
  }

  /** The same total on one copy fewer, spread as evenly as whole points allow. */
  ghost predicate Respread(load: seq<nat>, after: seq<nat>) {
    && |after| == |load| - 1 && Sum(after) == Sum(load)
    && forall i, j :: 0 <= i < |after| && 0 <= j < |after| ==> after[i] <= after[j] + 1
  }

  ghost predicate NoneAbove(after: seq<nat>, limit: nat) {
    forall i :: 0 <= i < |after| ==> after[i] <= limit
  }

  lemma {:induction false} SumBounds(s: seq<nat>, low: nat, at: nat)
    requires at < |s| && forall i :: 0 <= i < |s| ==> s[i] >= low
    ensures Sum(s) >= (|s| - 1) * low + s[at]
  {
    var front := s[..|s| - 1];
    if |s| > 1 {
      if at < |s| - 1 {
        SumBounds(front, low, at);
        assert (|s| - 1) * low == (|front| - 1) * low + low;
      } else {
        SumBounds(front, low, 0);
        assert (|s| - 1) * low == (|front| - 1) * low + low;
      }
    } else {
      assert Sum(front) == 0;
      assert (|s| - 1) * low == 0;
    }
  }

  /** After removing one of k >= 2 idle copies no copy is more than one point over the target. */
  lemma {:induction false} ExcessAtMostOne(load: seq<nat>, after: seq<nat>, target: nat)
    requires |load| >= 2 && Idle(load, target) && Respread(load, after)
    ensures NoneAbove(after, target + 1)
    ensures Safe(|load|, target) ==> NoneAbove(after, target)
  {
    var k, h := |load|, target / 2;
    forall i | 0 <= i < |after|
      ensures after[i] <= target + 1 && (Safe(k, target) ==> after[i] <= target)
    {
      assert forall j :: 0 <= j < |after| ==> after[i] <= after[j] + 1;
      if after[i] > 0 {
        SumBounds(after, after[i] - 1, i);
        Spread(k, h, target, Sum(load), after[i]);
      }
    }
  }

  /** When no total that passes the idle test can overload k-1 copies. */
  predicate Safe(k: nat, target: nat) {
    target % 2 == 1 || (k >= 3 && target >= 4)
  }

  lemma Spread(k: nat, h: nat, target: nat, sum: nat, top: nat)
    requires k >= 2 && h == target / 2 && sum / k <= h && top > 0
    requires sum >= (k - 2) * (top - 1) + top
    ensures top <= target + 1
    ensures Safe(k, target) ==> top <= target
  {
    TotalAtMost(k, h, sum);
    Distribute(k - 2, top - 1);
    if top > target + 1 || (Safe(k, target) && top > target) {
      TooMuch(k, h, top - 1);
    }
  }

  lemma TotalAtMost(k: nat, h: nat, sum: nat)
    requires k > 0 && sum / k <= h
    ensures sum <= k * h + k - 1
  {
  }

  lemma Distribute(k: nat, x: nat)
    ensures k * x + x == (k + 1) * x
  {
  }

  /** k-1 copies at x or more, one of them above x, carry more than k idle copies can. */
  lemma TooMuch(k: nat, h: nat, x: nat)
    requires k >= 2 && (x >= 2 * h + 1 || (x >= 2 * h && h >= 2 && k >= 3))
    ensures (k - 1) * x + 1 > k * h + k - 1
  {
    var y := if x > 2 * h then 2 * h + 1 else 2 * h;
    MulMono(y, x, k - 1);
    Doubled(k, h);
    if x > 2 * h {
      MulMono(0, h, k - 2);
    } else {
      MulMono(2, h, k - 2);
    }
  }

  lemma Doubled(k: nat, h: nat)
    requires k >= 2
    ensures (k - 1) * (2 * h) == k * h + (k - 2) * h
    ensures (k - 1) * (2 * h + 1) == k * h + (k - 2) * h + (k - 1)
  {
  }

  lemma MulMono(a: int, b: int, k: nat)
    requires a <= b
    ensures k * a <= k * b
  {
  }

  function Repeat(n: nat, v: nat): (s: seq<nat>)
    ensures |s| == n && forall i :: 0 <= i < n ==> s[i] == v
  {
    seq(n, i => v)
  }

  lemma {:induction false} SumRepeat(n: nat, v: nat, extra: nat)
    ensures Sum(Repeat(n, v)) == n * v && Sum(Repeat(n, v) + [extra]) == n * v + extra
  {
    if n > 0 {
      SumRepeat(n - 1, v, extra);
      assert Repeat(n, v)[..n - 1] == Repeat(n - 1, v);
      assert n * v == (n - 1) * v + v;
    } else {
      assert Repeat(0, v) == [];
      assert n * v == 0;
    }
    assert (Repeat(n, v) + [extra])[..n] == Repeat(n, v);
  }

  /** The heaviest load of k copies that passes the idle test. */
  lemma HeaviestIdle(k: nat, target: nat) returns (load: seq<nat>)
    requires k >= 2
    ensures |load| == k && Idle(load, target) && Sum(load) == k * (target / 2) + k - 1
  {
    var h := target / 2;
    load := Repeat(k - 1, h) + [h + k - 1];
    SumRepeat(k - 1, h, h + k - 1);
    Distribute(k - 1, h);
    DivExact(k, h, k - 1);
  }

  lemma Overflowing(k: nat, h: nat) returns (after: seq<nat>)
    requires k >= 2 && (k == 2 || h <= 1)
    ensures |after| == k - 1 && Sum(after) == k * h + k - 1 && !NoneAbove(after, 2 * h)
    ensures forall i, j :: 0 <= i < |after| && 0 <= j < |after| ==> after[i] <= after[j] + 1
  {
    if h == 0 {
      after := Repeat(k - 1, 1);
      SumRepeat(k - 1, 1, 0);
      assert after[0] == 1;
    } else {
      after := Repeat(k - 2, 2 * h) + [2 * h + 1];
      SumRepeat(k - 2, 2 * h, 2 * h + 1);
      assert after[k - 2] == 2 * h + 1;
    }
  }

  /** Outside Safe, some idle load overloads a copy once one is removed. */
  lemma UnsafeBreaks(k: nat, target: nat) returns (load: seq<nat>, after: seq<nat>)
    requires k >= 2 && !Safe(k, target)
    ensures |load| == k && Idle(load, target) && Respread(load, after) && !NoneAbove(after, target)
  {
    load := HeaviestIdle(k, target);
    after := Overflowing(k, target / 2);
  }

  lemma DivExact(k: nat, h: nat, r: nat)
    requires r < k
    ensures (k * h + r) / k == h
  {
    var q := (k * h + r) / k;
    var m := (k * h + r) % k;
    assert k * (q - h) == r - m;
    if q > h {
      MulMono(1, q - h, k);
    } else if q < h {
      MulMono(q - h, -1, k);
    }
  }

  /**
   * Removing one of k idle copies never makes the evenly spread load trigger the CPU overload test
   * exactly when the target is odd, or at least 4 with three or more copies.
   */
  lemma {:induction false} HysteresisExact(k: nat, target: nat)
    requires k >= 2
    ensures Safe(k, target) <==>
            forall load, after :: |load| == k && Idle(load, target) && Respread(load, after) ==>
                NoneAbove(after, target)
  {
    if Safe(k, target) {
      forall load, after | |load| == k && Idle(load, target) && Respread(load, after) ensures NoneAbove(after, target) {
        ExcessAtMostOne(load, after, target);
      }
    } else {
      var load, after := UnsafeBreaks(k, target);
    }
  }

  // ----- in terms of the records -----

  /** The CPU points of some copies; usage is never negative. */
  function Points(s: seq<Reconcile.Alloc>): seq<nat>
    requires forall i :: 0 <= i < |s| ==> s[i].cpuUsage >= 0
  {
    seq(|s|, i requires 0 <= i < |s| => s[i].cpuUsage)
  }

  lemma {:induction false} PointsSum(s: seq<Reconcile.Alloc>)
    requires forall i :: 0 <= i < |s| ==> s[i].cpuUsage >= 0
    ensures Sum(Points(s)) == Autoscaler.Cpu(s)
  {
    if s != [] {
      PointsSum(s[..|s| - 1]);
      assert Points(s)[..|s| - 1] == Points(s[..|s| - 1]);
    }
  }

  /** Removing an idle copy makes no survivor trigger the CPU overload test in the safe cases. */
  lemma {:induction false} NoFlap(cfg: Autoscaler.Config, memory: int, running: seq<Reconcile.Alloc>,
      after: seq<Reconcile.Alloc>)
    requires |running| >= 2 && cfg.targetCpu >= 0 && Autoscaler.Idle(cfg, memory, running)
    requires forall i :: 0 <= i < |running| ==> running[i].cpuUsage >= 0
    requires forall i :: 0 <= i < |after| ==> after[i].cpuUsage >= 0
    requires Respread(Points(running), Points(after))
    ensures Safe(|running|, cfg.targetCpu) ==>
              forall i :: 0 <= i < |after| ==> !Autoscaler.Overloaded(cfg, 0, after[i])
    ensures forall i :: 0 <= i < |after| ==> after[i].cpuUsage <= cfg.targetCpu + 1
  {
    PointsSum(running);
    ExcessAtMostOne(Points(running), Points(after), cfg.targetCpu);
    forall i | 0 <= i < |after|
      ensures after[i].cpuUsage <= cfg.targetCpu + 1
              && (Safe(|running|, cfg.targetCpu) ==> after[i].cpuUsage <= cfg.targetCpu)
    {
      assert Points(after)[i] == after[i].cpuUsage;
    }
  }
}

/** What a scale-down says about the time since the idle marker was stamped. */
module IdleWindow {
  import opened Wrappers
  import opened Placement
  import opened Reconcile
  import opened Autoscaler
  import opened ScalingRuns
  import Cooldowns

  /** The evaluation got as far as the idle test. */
  ghost predicate Reached(cfg: Config, s: State, step: Step) {
    step.Autoscaled? && !Blocked(cfg, s.cooldown, s.now) && !WantsUp(cfg, step.w, s.allocs, step.traffic)
  }

  /** The records and settings the evaluation looked at left copies to spare. */
  ghost predicate SpareAt(cfg: Config, s: State, step: Step)
    requires step.Autoscaled?
  {
    Spare(cfg, step.w, s.allocs, step.ids)
  }

  /** No evaluation of the steps from..to that reached the idle test found the service busy. */
  ghost predicate NoneBusy(cfg: Config, run: seq<State>, steps: seq<Step>, from: nat, to: nat)
    requires from <= to <= |steps| < |run|
  {
    forall j :: from <= j < to && Reached(cfg, run[j], steps[j]) ==> SpareAt(cfg, run[j], steps[j])
  }

  /** Step i stamped the marker that state k holds, and no evaluation that reached the test was busy since. */
  ghost predicate Opened(cfg: Config, run: seq<State>, steps: seq<Step>, i: nat, k: nat)
    requires k <= |steps| < |run|
  {
    && i < k && Reached(cfg, run[i], steps[i]) && run[i].now == run[k].cooldown.idleSince
    && NoneBusy(cfg, run, steps, i, k)
  }

  /** The marker was there from the beginning, and no evaluation that reached the test was busy. */
  ghost predicate Carried(cfg: Config, run: seq<State>, steps: seq<Step>, k: nat)
    requires k <= |steps| < |run|
  {
    run[k].cooldown.idleSince == run[0].cooldown.idleSince && NoneBusy(cfg, run, steps, 0, k)
  }

  /** One step leaves the marker alone, clears it on a busy service or stamps it on an idle one. */
  lemma MarkerStep(cfg: Config, s: State, t: State, step: Step)
    requires Next(cfg, s, t, step)
    ensures t.cooldown.idleSince ==
              if !Reached(cfg, s, step) then s.cooldown.idleSince
              else Marked(cfg, s.cooldown, SpareAt(cfg, s, step), s.now).idleSince
  {
  }

  lemma {:induction false} MarkerOrigin(cfg: Config, run: seq<State>, steps: seq<Step>, k: nat)
    requires IsRun(cfg, run, steps) && k <= |steps| && run[k].cooldown.idleSince != 0
    ensures Carried(cfg, run, steps, k) || exists i: nat :: Opened(cfg, run, steps, i, k)
  {
    if k > 0 {
      var s, step := run[k - 1], steps[k - 1];
      assert Next(cfg, run[k - 1], run[k - 1 + 1], step);
      MarkerStep(cfg, s, run[k], step);
      if s.cooldown.idleSince != 0 {
        MarkerOrigin(cfg, run, steps, k - 1);
        MarkerStays(cfg, run, steps, k - 1, k);
      } else {
        assert Opened(cfg, run, steps, k - 1, k);
      }
    }
  }

  lemma MarkerStays(cfg: Config, run: seq<State>, steps: seq<Step>, m: nat, k: nat)
    requires k == m + 1 <= |steps| < |run| && run[k].cooldown.idleSince == run[m].cooldown.idleSince
    requires Reached(cfg, run[m], steps[m]) ==> SpareAt(cfg, run[m], steps[m])
    requires Carried(cfg, run, steps, m) || exists i: nat :: Opened(cfg, run, steps, i, m)
    ensures Carried(cfg, run, steps, k) || exists i: nat :: Opened(cfg, run, steps, i, k)
  {
    if !Carried(cfg, run, steps, m) {
      var i: nat :| Opened(cfg, run, steps, i, m);
      assert Opened(cfg, run, steps, i, k);
    }
  }

  /**
   * A scale-down under IdleHold comes at least IdleHold after the evaluation that stamped the marker, with
   * no evaluation since then that reached the idle test and found the service busy.
   */
  lemma {:induction false} ScaleDownWaits(cfg: Config, run: seq<State>, steps: seq<Step>, k: nat)
    requires IsRun(cfg, run, steps) && k < |steps| && steps[k].Autoscaled? && steps[k].d.Down? && cfg.idleHold > 0
    ensures run[k].now - run[k].cooldown.idleSince >= cfg.idleHold && Reached(cfg, run[k], steps[k])
    ensures SpareAt(cfg, run[k], steps[k])
    ensures Carried(cfg, run, steps, k) || exists i: nat :: Opened(cfg, run, steps, i, k)
  {
    assert Next(cfg, run[k], run[k + 1], steps[k]);
    MarkerOrigin(cfg, run, steps, k);
  }

  // ----- idle all along, or not -----

  /** For each evaluation of the steps from..to, whether it stopped before the idle test. */
  ghost function Early(cfg: Config, run: seq<State>, steps: seq<Step>, from: nat, to: nat): seq<bool>
    requires to <= |steps| < |run|
  {
    if to <= from then []
    else
      Early(cfg, run, steps, from, to - 1) +
      if steps[to - 1].Autoscaled? then [!Reached(cfg, run[to - 1], steps[to - 1])] else []
  }

  /** Every evaluation from the stamp to the scale-down found copies to spare. */
  ghost predicate SpareThroughout(cfg: Config, run: seq<State>, steps: seq<Step>, i: nat, k: nat)
    requires k < |steps| < |run|
  {
    forall j :: i <= j <= k && steps[j].Autoscaled? ==> SpareAt(cfg, run[j], steps[j])
  }

  /** A window: stamped by step i, over with the scale-down of step k, its evaluations early or not as given. */
  ghost predicate IsWindow(cfg: Config, run: seq<State>, steps: seq<Step>, i: nat, k: nat, early: seq<bool>) {
    && IsRun(cfg, run, steps) && i < k < |steps| && Opened(cfg, run, steps, i, k)
    && steps[k].Autoscaled? && steps[k].d.Down? && Early(cfg, run, steps, i + 1, k) == early
  }

  lemma {:induction false} EarlyAt(cfg: Config, run: seq<State>, steps: seq<Step>, from: nat, to: nat, j: nat)
    requires to <= |steps| < |run| && from <= j < to && steps[j].Autoscaled? && !Reached(cfg, run[j], steps[j])
    ensures true in Early(cfg, run, steps, from, to)
  {
    if j < to - 1 {
      EarlyAt(cfg, run, steps, from, to - 1, j);
    }
  }

  lemma {:induction false} EarlyPrefix(cfg: Config, run: seq<State>, steps: seq<Step>, run': seq<State>,
      steps': seq<Step>, from: nat, to: nat)
    requires to <= |steps| < |run| && run <= run' && steps <= steps' && |steps'| < |run'|
    ensures Early(cfg, run', steps', from, to) == Early(cfg, run, steps, from, to)
  {
    if to > from {
      EarlyPrefix(cfg, run, steps, run', steps', from, to - 1);
    }
  }

  /** One copy on one node, no other node, floor zero. */
  function OneCopy(cpu: int): Allocs {
    map["a" := Alloc(Running, 1, cpu, 0)]
  }

  const HOST := NodeInfo("a", "x", Ready, 0, 0)
  const ALONE := World({HOST}, Regular, Resources(0, 0), Resources(0, 0), 0, None, {}, {})

  lemma OneCopySpare(cfg: Config, cpu: int)
    ensures !WantsUp(cfg, ALONE, OneCopy(cpu), {})
    ensures Spare(cfg, ALONE, OneCopy(cpu), ["a"]) <==> cpu <= Div(cfg.targetCpu, IDLE_FLOOR_DIVISOR)
    ensures IsVictim(RunningIds(["a"], OneCopy(cpu)), [HOST], "a")
  {
    var a, ids := OneCopy(cpu), ["a"];
    assert RunningOn(a) == {"a"} && |RunningOn(a)| == 1;
    assert Healthy(ALONE) == {HOST} && "a" in Live(a);
    assert EligibleSet(Healthy(ALONE), Live(a), ALONE.required, ALONE.reserved) == {};
    assert ids[..0] == [] && RunningIds(ids[..0], a) == [] && RunningIds(ids, a) == ids;
    var r := Records(ids, a);
    assert r == [a["a"]] && r[..0] == [] && Cpu(r[..0]) == 0 && Cpu(r) == cpu;
  }

  /** The marker stands at instant 1; a deploy may be in progress, and the copy may be busy. */
  function At(cfg: Config, busy: bool, deploying: bool, marker: int, now: int): State {
    State(OneCopy(Div(cfg.targetCpu, IDLE_FLOOR_DIVISOR) + if busy then 1 else 0),
          Cooldowns.ZERO.(idleSince := marker, deployInProgress := deploying), now, [])
  }

  function Evaluate(s: State, d: Decision, marker: int): Step {
    Autoscaled(ALONE, [HOST], ["a"], {}, d, s.cooldown.(idleSince := marker), s.now)
  }

  lemma AtMoves(cfg: Config)
    requires cfg.idleHold > 0
    ensures var idle, busy := At(cfg, false, false, 1, 1), At(cfg, true, true, 1, 1);
            && Next(cfg, At(cfg, false, false, 0, 1), idle, Evaluate(At(cfg, false, false, 0, 1), Stay, 1))
            && Next(cfg, idle, idle, Evaluate(idle, Stay, 1)) && Reached(cfg, idle, Evaluate(idle, Stay, 1))
            && SpareAt(cfg, idle, Evaluate(idle, Stay, 1))
            && Next(cfg, idle, busy, Drifted) && Next(cfg, busy, idle, Drifted)
            && Next(cfg, busy, busy, Evaluate(busy, Stay, 1)) && !Reached(cfg, busy, Evaluate(busy, Stay, 1))
            && !SpareAt(cfg, busy, Evaluate(busy, Stay, 1))
            && Reached(cfg, At(cfg, false, false, 0, 1), Evaluate(At(cfg, false, false, 0, 1), Stay, 1))
            && SpareAt(cfg, At(cfg, false, false, 0, 1), Evaluate(At(cfg, false, false, 0, 1), Stay, 1))
  {
    OneCopySpare(cfg, Div(cfg.targetCpu, IDLE_FLOOR_DIVISOR));
    OneCopySpare(cfg, Div(cfg.targetCpu, IDLE_FLOOR_DIVISOR) + 1);
  }

  /** A run whose first step stamped the marker it still holds, its early evaluations all met by a busy service. */
  ghost predicate Playing(cfg: Config, run: seq<State>, steps: seq<Step>) {
    && IsRun(cfg, run, steps) && |steps| > 0 && Opened(cfg, run, steps, 0, |steps|)
    && forall j :: 0 <= j < |steps| ==> EarlyIsBusy(cfg, run[j], steps[j])
  }

  ghost predicate EarlyIsBusy(cfg: Config, s: State, step: Step) {
    step.Autoscaled? ==> (Reached(cfg, s, step) <==> SpareAt(cfg, s, step))
  }

  lemma Append(cfg: Config, run: seq<State>, steps: seq<Step>, t: State, step: Step)
      returns (run': seq<State>, steps': seq<Step>)
    requires Playing(cfg, run, steps) && Next(cfg, run[|steps|], t, step)
    requires t.cooldown.idleSince == run[|steps|].cooldown.idleSince && EarlyIsBusy(cfg, run[|steps|], step)
    ensures run' == run + [t] && steps' == steps + [step] && Playing(cfg, run', steps')
    ensures Early(cfg, run', steps', 1, |steps'|) ==
              Early(cfg, run, steps, 1, |steps|) + if step.Autoscaled? then [!Reached(cfg, run[|steps|], step)] else []
  {
    run', steps' := run + [t], steps + [step];
    StillPlaying(cfg, run, steps, t, step);
    EarlyPrefix(cfg, run, steps, run', steps', 1, |steps|);
  }

  lemma StillPlaying(cfg: Config, run: seq<State>, steps: seq<Step>, t: State, step: Step)
    requires Playing(cfg, run, steps) && Next(cfg, run[|steps|], t, step)
    requires t.cooldown.idleSince == run[|steps|].cooldown.idleSince && EarlyIsBusy(cfg, run[|steps|], step)
    ensures Playing(cfg, run + [t], steps + [step])
  {
  }

  /** A deploy starts, an evaluation of the busy service stops early, and the deploy ends. */
  lemma PlayEarly(cfg: Config, run: seq<State>, steps: seq<Step>) returns (run': seq<State>, steps': seq<Step>)
    requires cfg.idleHold > 0 && Playing(cfg, run, steps) && run[|steps|] == At(cfg, false, false, 1, 1)
    ensures Playing(cfg, run', steps') && run'[|steps'|] == At(cfg, false, false, 1, 1)
    ensures Early(cfg, run', steps', 1, |steps'|) == Early(cfg, run, steps, 1, |steps|) + [true]
  {
    AtMoves(cfg);
    var idle, busy := At(cfg, false, false, 1, 1), At(cfg, true, true, 1, 1);
    run', steps' := Append(cfg, run, steps, busy, Drifted);
    run', steps' := Append(cfg, run', steps', busy, Evaluate(busy, Stay, 1));
    run', steps' := Append(cfg, run', steps', idle, Drifted);
  }

  /** For every pattern of evaluations there is a run in which exactly the early ones meet a busy service. */
  lemma {:induction false} Play(cfg: Config, early: seq<bool>) returns (run: seq<State>, steps: seq<Step>)
    requires cfg.idleHold > 0
    ensures Playing(cfg, run, steps) && run[|steps|] == At(cfg, false, false, 1, 1)
    ensures Early(cfg, run, steps, 1, |steps|) == early
  {
    var idle := At(cfg, false, false, 1, 1);
    AtMoves(cfg);
    if early == [] {
      run, steps := [At(cfg, false, false, 0, 1), idle], [Evaluate(At(cfg, false, false, 0, 1), Stay, 1)];
    } else {
      run, steps := Play(cfg, early[..|early| - 1]);
      if early[|early| - 1] {
        run, steps := PlayEarly(cfg, run, steps);
      } else {
        run, steps := Append(cfg, run, steps, idle, Evaluate(idle, Stay, 1));
      }
    }
  }

  lemma FinalDown(cfg: Config)
    requires cfg.idleHold > 0
    ensures var idle, later := At(cfg, false, false, 1, 1), At(cfg, false, false, 1, 1 + cfg.idleHold);
            var down := Evaluate(later, Decision.Down("a"), 1);
            && Next(cfg, idle, later, Drifted)
            && Next(cfg, later, State(map[], later.cooldown.(lastScaleDown := later.now), later.now,
                [Action(later.now, later.now)]), down)
            && Reached(cfg, later, down) && SpareAt(cfg, later, down)
  {
    OneCopySpare(cfg, Div(cfg.targetCpu, IDLE_FLOOR_DIVISOR));
    assert Executed(OneCopy(Div(cfg.targetCpu, IDLE_FLOOR_DIVISOR)), Decision.Down("a")) == map[];
  }

  /** The service need not have been idle: any pattern with an early evaluation has a window with a busy one. */
  lemma BusyUnnoticed(cfg: Config, early: seq<bool>) returns (run: seq<State>, steps: seq<Step>, k: nat)
    requires cfg.idleHold > 0
    ensures IsWindow(cfg, run, steps, 0, k, early)
    ensures true in early ==> !SpareThroughout(cfg, run, steps, 0, k)
  {
    run, steps := Play(cfg, early);
    FinalDown(cfg);
    var later := At(cfg, false, false, 1, 1 + cfg.idleHold);
    run, steps := Append(cfg, run, steps, later, Drifted);
    k := |steps|;
    if true in early {
      var j := EarlyIndex(cfg, run, steps, 1, k);
      assert EarlyIsBusy(cfg, run[j], steps[j]);
    }
    var last := State(map[], later.cooldown.(lastScaleDown := later.now), later.now, [Action(later.now, later.now)]);
    run, steps := Append(cfg, run, steps, last, Evaluate(later, Decision.Down("a"), 1));
    EarlyPrefix(cfg, run[..k + 1], steps[..k], run, steps, 1, k);
  }

  lemma {:induction false} EarlyIndex(cfg: Config, run: seq<State>, steps: seq<Step>, from: nat, to: nat)
      returns (j: nat)
    requires to <= |steps| < |run| && true in Early(cfg, run, steps, from, to)
    ensures from <= j < to && steps[j].Autoscaled? && !Reached(cfg, run[j], steps[j])
  {
    if steps[to - 1].Autoscaled? && !Reached(cfg, run[to - 1], steps[to - 1]) {
      j := to - 1;
    } else {
      j := EarlyIndex(cfg, run, steps, from, to - 1);
    }
  }

  /**
   * Every evaluation from the stamp to the scale-down found copies to spare, whatever the usage was, if
   * and only if none of them was blocked or wanted to scale up.
   */
  lemma {:induction false} IdleThroughoutExactly(cfg: Config, early: seq<bool>)
    requires cfg.idleHold > 0
    ensures (forall run: seq<State>, steps: seq<Step>, i: nat, k: nat :: IsWindow(cfg, run, steps, i, k, early) ==>
               SpareThroughout(cfg, run, steps, i, k))
            <==> true !in early
  {
    if true in early {
      var run, steps, k := BusyUnnoticed(cfg, early);
      assert IsWindow(cfg, run, steps, 0, k, early) && !SpareThroughout(cfg, run, steps, 0, k);
    } else {
      forall run: seq<State>, steps: seq<Step>, i: nat, k: nat | IsWindow(cfg, run, steps, i, k, early)
        ensures SpareThroughout(cfg, run, steps, i, k)
      {
        forall j | i <= j <= k && steps[j].Autoscaled? ensures SpareAt(cfg, run[j], steps[j]) {
          if j == k {
            ScaleDownWaits(cfg, run, steps, k);
          } else if !Reached(cfg, run[j], steps[j]) {
            EarlyAt(cfg, run, steps, i + 1, k, j);
          }
        }
      }
    }
  }
}
