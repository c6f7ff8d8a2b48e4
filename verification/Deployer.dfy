/** The rollout state machine of asty/internal/ops/deployer: canary, rolling waves
    and automatic revert of one service. Every KV write, restart command, health
    wait and cancellation check may fail, as an arbitrary schedule of fates says. */
module Deployer {

  type NodeId = string

  /** A version string; the empty one and "unknown" are told apart from real tags. */
  datatype Version = NoVersion | Unknown | Tag(name: string)

  datatype Strategy = Strategy(maxParallel: int, autoRevert: bool, canary: int, canaryRetries: int)

  /** allocs are the nodes of the live allocations, one record per node. */
  datatype Plan = Plan(service: string, current: Version, target: Version, strategy: Strategy, allocs: seq<NodeId>)
  {
    /** A zero MaxParallel would never finish; allocation records are keyed by node. */
    ghost predicate Valid() {
      && strategy.maxParallel > 0
      && forall i, j :: 0 <= i < j < |allocs| ==> allocs[i] != allocs[j]
    }

    function Canaries(): (k: nat)
      ensures k <= |allocs| && (strategy.canary <= 0 ==> k == 0)
      ensures 0 <= strategy.canary <= |allocs| ==> k == strategy.canary
      ensures strategy.canary > |allocs| ==> k == |allocs|
    {
      if strategy.canary <= 0 then 0 else Min(strategy.canary, |allocs|)
    }

    /** The largest number of copies allowed to run the new version unproven. */
    function Radius(): nat
      requires strategy.maxParallel > 0
    {
      Max(strategy.canary, strategy.maxParallel)
    }
  }

  function Min(a: int, b: int): int { if a < b then a else b }
  function Max(a: int, b: int): int { if a < b then b else a }

  /** How one operation ends: without an error, or with an error that hides whether it
      took effect. A health wait or cancellation check that is not Done is negative. */
  datatype Fate = Done | Applied | Dropped

  /** The schedule of fates; what comes after its end goes well. */
  function FateAt(fates: seq<Fate>, i: nat): Fate {
    if i < |fates| then fates[i] else Done
  }

  datatype Pin = Pin(current: Version, previous: Version)
  datatype State = Running | Completed | Failed | Reverted | RollbackFailed
  datatype Phase = Canary | Rolling | Complete | Revert
  datatype Status = Status(state: State, phase: Phase, updated: int, total: int, canaryHealthy: bool)
  datatype Action = MarkedPending | SentUpdate | WaitedHealth
  /** node is empty for the verdict of the final health wait. */
  datatype RollbackStep = RollbackStep(node: NodeId, action: Action, ok: bool)
  datatype Outcome = InFlight | Finished(status: Status)

  /** One copy of the service: the version in its KV record, the version its agent was
      last told to run, and whether it passed a health wait since it was last marked. */
  datatype Copy = Copy(version: Version, told: Version, proven: bool)
  {
    predicate Runs(v: Version) { version == told == v }
  }

  type Copies = map<NodeId, Copy>

  /** One observable moment of a run: the copies recorded as dispatched, of which the
      first `settled` have passed their health wait, and the state of every copy. */
  datatype Snap = Snap(reverting: bool, touched: seq<NodeId>, settled: nat, copies: Copies)

  /** Only touched copies, and the one next in line whose dispatch may have failed half
      way, can differ from how they started; the latter only if there is room for it. */
  ghost predicate Contained(plan: Plan, start: Copies, s: Snap, room: bool) {
    && s.touched <= plan.allocs
    && s.copies.Keys == start.Keys
    && (forall i :: 0 <= i < |s.touched| ==> s.touched[i] in start)
    && (forall n {:trigger s.copies[n]} :: n in start && n !in s.touched ==>
          || s.copies[n] == start[n]
          || (room && NextUp(plan, s, n) && s.copies[n].version in {start[n].version, plan.target}
              && s.copies[n].told in {start[n].told, plan.target}))
  }

  ghost predicate NextUp(plan: Plan, s: Snap, n: NodeId) {
    |s.touched| < |plan.allocs| && n == plan.allocs[|s.touched|]
  }

  /** Rolling out: every touched copy was told the target version, and the ones not yet
      proven, with the one next in line if it was reached, form one block no longer than
      the radius. */
  ghost predicate Forward(plan: Plan, start: Copies, s: Snap)
    requires plan.Valid()
  {
    && !s.reverting
    && Contained(plan, start, s, |s.touched| < s.settled + plan.Radius())
    && s.settled <= |s.touched| <= s.settled + plan.Radius()
    && (forall i :: 0 <= i < |s.touched| ==> s.copies[s.touched[i]].Runs(plan.target))
    && (forall i :: 0 <= i < s.settled ==> s.copies[s.touched[i]].proven)
  }

  ghost predicate Backward(plan: Plan, start: Copies, s: Snap) {
    && s.reverting
    && Contained(plan, start, s, true)
    && (forall i :: 0 <= i < |s.touched| ==>
          && s.copies[s.touched[i]].version in {plan.target, plan.current}
          && s.copies[s.touched[i]].told in {plan.target, plan.current})
  }

  /** The first k touched copies were sent back to the current version. */
  ghost predicate Back(plan: Plan, s: Snap, k: nat) {
    && k <= |s.touched|
    && forall i :: 0 <= i < k ==> s.touched[i] in s.copies && s.copies[s.touched[i]].Runs(plan.current)
  }

  /** A trace goes on, and everything new in it is a sound forward moment. */
  ghost predicate GoesForward(plan: Plan, start: Copies, before: seq<Snap>, after: seq<Snap>)
    requires plan.Valid()
  {
    && before <= after
    && forall i :: |before| <= i < |after| ==> Forward(plan, start, after[i])
  }

  ghost predicate GoesBackward(plan: Plan, start: Copies, before: seq<Snap>, after: seq<Snap>) {
    && before <= after
    && forall i :: |before| <= i < |after| ==> Backward(plan, start, after[i])
  }

  /** A trace goes on: forward up to `turn`, backward from there on. */
  ghost predicate Turns(plan: Plan, start: Copies, before: seq<Snap>, after: seq<Snap>, turn: nat)
    requires plan.Valid()
  {
    && |before| <= turn <= |after|
    && GoesForward(plan, start, before, after[..turn])
    && GoesBackward(plan, start, after[..turn], after)
  }

  lemma TurnsAt(plan: Plan, start: Copies, before: seq<Snap>, mid: seq<Snap>, after: seq<Snap>)
    requires plan.Valid() && GoesForward(plan, start, before, mid) && GoesBackward(plan, start, mid, after)
    ensures Turns(plan, start, before, after, |mid|)
  {
    assert after[..|mid|] == mid;
  }

  /** Is there a version to go back to? */
  predicate KnownVersion(v: Version) {
    v.Tag?
  }

  lemma ForwardBegins(plan: Plan, start: Copies)
    requires plan.Valid()
    ensures Forward(plan, start, Snap(false, [], 0, start))
  {
  }

  lemma ForwardTouches(plan: Plan, start: Copies, s: Snap, i: nat, c: Copy)
    requires plan.Valid() && Forward(plan, start, s) && s.settled <= i < |plan.allocs| && i <= |s.touched|
    requires plan.allocs[i] in s.copies && c.version == plan.target
    requires c.told in {s.copies[plan.allocs[i]].told, plan.target} && i + 1 <= s.settled + plan.Radius()
    ensures Forward(plan, start, s.(copies := s.copies[plan.allocs[i] := c]))
  {
  }

  /** The blast radius: apart from copies that have proven healthy, only a block of at
      most Radius() consecutive copies of the plan differs from how it started. */
  lemma BlastRadius(plan: Plan, start: Copies, s: Snap, n: NodeId)
    requires plan.Valid() && Forward(plan, start, s) && n in start && s.copies[n] != start[n]
    ensures exists i :: 0 <= i < |plan.allocs| && plan.allocs[i] == n && i < s.settled + plan.Radius()
                        && (i < s.settled ==> s.copies[n].proven)
  {
    if n in s.touched {
      var i :| 0 <= i < |s.touched| && s.touched[i] == n;
      assert plan.allocs[i] == n;
    } else {
      assert plan.allocs[|s.touched|] == n;
    }
  }

  lemma ForwardRecords(plan: Plan, start: Copies, s: Snap, i: nat)
    requires plan.Valid() && Forward(plan, start, s) && i < |plan.allocs| && i <= |s.touched|
    requires i + 1 <= s.settled + plan.Radius()
    requires plan.allocs[i] in s.copies && s.copies[plan.allocs[i]].Runs(plan.target)
    ensures plan.allocs[i] in s.touched <==> i < |s.touched|
    ensures i == |s.touched| ==> Forward(plan, start, s.(touched := s.touched + [plan.allocs[i]]))
  {
  }

  lemma ProvenOutside(plan: Plan, start: Copies, s: Snap, hi: nat)
    requires plan.Valid() && Forward(plan, start, s) && s.settled <= hi <= |s.touched|
    ensures var copies' := Proven(s.copies, plan.allocs[s.settled..hi]);
            copies'.Keys == start.Keys && forall n :: n in start && n !in s.touched ==> copies'[n] == s.copies[n]
  {
    assert plan.allocs[s.settled..hi] == s.touched[s.settled..hi];
  }

  lemma ProvenInside(plan: Plan, start: Copies, s: Snap, hi: nat, i: nat)
    requires plan.Valid() && Forward(plan, start, s) && s.settled <= hi <= |s.touched| && i < |s.touched|
    ensures var copies' := Proven(s.copies, plan.allocs[s.settled..hi]);
            var n := s.touched[i];
            n in copies' && copies'[n].Runs(plan.target) && (i < hi ==> copies'[n].proven)
  {
    var batch := plan.allocs[s.settled..hi];
    assert s.touched[i] in start && s.copies[s.touched[i]].Runs(plan.target);
    if s.settled <= i < hi {
      assert s.touched[i] == batch[i - s.settled];
    }
  }

  lemma ForwardProven(plan: Plan, start: Copies, s: Snap, hi: nat, copies': Copies)
    requires plan.Valid() && Forward(plan, start, s) && s.settled <= hi <= |s.touched|
    requires copies' == Proven(s.copies, plan.allocs[s.settled..hi])
    ensures Forward(plan, start, s.(copies := copies', settled := hi))
  {
    ProvenOutside(plan, start, s, hi);
    forall i | 0 <= i < |s.touched|
      ensures copies'[s.touched[i]].Runs(plan.target) && (i < hi ==> copies'[s.touched[i]].proven)
    {
      ProvenInside(plan, start, s, hi, i);
    }
  }

  lemma BackwardBegins(plan: Plan, start: Copies, s: Snap)
    requires plan.Valid() && Forward(plan, start, s)
    ensures Backward(plan, start, s.(reverting := true))
  {
  }

  lemma BackwardTouches(plan: Plan, start: Copies, s: Snap, i: nat, c: Copy)
    requires plan.Valid() && Backward(plan, start, s) && Back(plan, s, i) && i < |s.touched|
            && c.version == plan.current
    requires c.told in {s.copies[s.touched[i]].told, plan.current}
    ensures var s' := s.(copies := s.copies[s.touched[i] := c]);
            Backward(plan, start, s') && Back(plan, s', i) && (c.told == plan.current ==> Back(plan, s', i + 1))
  {
  }

  lemma TraceGrows(plan: Plan, start: Copies, before: seq<Snap>, after: seq<Snap>, s: Snap)
    requires plan.Valid()
    ensures GoesForward(plan, start, before, after) && Forward(plan, start, s) ==>
            GoesForward(plan, start, before, after + [s])
    ensures GoesBackward(plan, start, before, after) && Backward(plan, start, s) ==>
            GoesBackward(plan, start, before, after + [s])
  {
  }

  /** The dispatch of one copy whose record is there: mark and restart both go through. */
  predicate Lands(fates: seq<Fate>, records: set<NodeId>, node: NodeId, at: nat) {
    node in records && FateAt(fates, at).Done? && FateAt(fates, at + 1).Done?
  }

  /** No copy is ever dispatched: there is none, the first dispatch meets an error, or,
      without canaries, the deploy is cancelled before its first wave. */
  predicate NothingLands(plan: Plan, fates: seq<Fate>, records: set<NodeId>, at: nat) {
    plan.allocs == [] ||
    if plan.strategy.canary > 0 then !Lands(fates, records, plan.allocs[0], at)
    else !FateAt(fates, at).Done? || !Lands(fates, records, plan.allocs[0], at + 1)
  }

  // ----- where a schedule of fates leads -----

  /** How far a deploy has come: whether all went well, the next operation, and how many
      copies were dispatched. */
  datatype Pos = Pos(ok: bool, tick: nat, touched: nat)

  /** Dispatching the copies lo..hi of the plan, up to the first error. */
  function DispatchTo(plan: Plan, records: set<NodeId>, fates: seq<Fate>, lo: nat, hi: nat, p: Pos): Pos
    requires lo <= hi <= |plan.allocs|
    decreases hi - lo
  {
    if lo == hi then p.(ok := true)
    else if plan.allocs[lo] !in records || !FateAt(fates, p.tick).Done? then Pos(false, p.tick + 1, p.touched)
    else if !FateAt(fates, p.tick + 1).Done? then Pos(false, p.tick + 2, p.touched)
    else DispatchTo(plan, records, fates, lo + 1, hi, Pos(true, p.tick + 2, Max(p.touched, lo + 1)))
  }

  lemma DispatchNext(plan: Plan, records: set<NodeId>, fates: seq<Fate>, lo: nat, hi: nat, p: Pos)
    requires lo < hi <= |plan.allocs|
    ensures DispatchTo(plan, records, fates, lo, hi, p) ==
              if Lands(fates, records, plan.allocs[lo], p.tick)
              then DispatchTo(plan, records, fates, lo + 1, hi, Pos(true, p.tick + 2, Max(p.touched, lo + 1)))
              else Pos(false, p.tick + if plan.allocs[lo] in records && FateAt(fates, p.tick).Done? then 2 else 1,
                       p.touched)
  {
  }

  /** A dispatch that goes through has touched every copy of its batch; one that does not has touched no more. */
  lemma {:induction false} DispatchEnds(plan: Plan, records: set<NodeId>, fates: seq<Fate>, lo: nat, hi: nat, p: Pos)
    requires lo <= hi <= |plan.allocs| && lo <= p.touched
    ensures var d := DispatchTo(plan, records, fates, lo, hi, p);
            p.touched <= d.touched <= Max(p.touched, hi) && (d.ok ==> d.touched == Max(p.touched, hi))
    decreases hi - lo
  {
    if lo < hi {
      DispatchEnds(plan, records, fates, lo + 1, hi, Pos(true, p.tick + 2, Max(p.touched, lo + 1)));
    }
  }

  function AwaitTo(fates: seq<Fate>, p: Pos): Pos {
    Pos(FateAt(fates, p.tick).Done?, p.tick + 1, p.touched)
  }

  function WaveTo(plan: Plan, records: set<NodeId>, fates: seq<Fate>, lo: nat, hi: nat, p: Pos): Pos
    requires lo <= hi <= |plan.allocs|
  {
    if !FateAt(fates, p.tick).Done? then Pos(false, p.tick + 1, p.touched)
    else
      var d := DispatchTo(plan, records, fates, lo, hi, p.(tick := p.tick + 1));
      if d.ok then AwaitTo(fates, d) else d
  }

  function RollTo(plan: Plan, records: set<NodeId>, fates: seq<Fate>, next: nat, p: Pos): Pos
    requires plan.strategy.maxParallel > 0
    decreases |plan.allocs| - next
  {
    if next >= |plan.allocs| then p.(ok := true)
    else
      var end := Min(next + plan.strategy.maxParallel, |plan.allocs|);
      var w := WaveTo(plan, records, fates, next, end, p);
      if w.ok then RollTo(plan, records, fates, end, w) else w
  }

  lemma RollNext(plan: Plan, records: set<NodeId>, fates: seq<Fate>, next: nat, end: nat, p: Pos)
    requires plan.strategy.maxParallel > 0 && next < |plan.allocs|
    requires end == Min(next + plan.strategy.maxParallel, |plan.allocs|)
    ensures var w := WaveTo(plan, records, fates, next, end, p);
            RollTo(plan, records, fates, next, p) == if w.ok then RollTo(plan, records, fates, end, w) else w
  {
  }

  function CanaryTo(plan: Plan, records: set<NodeId>, fates: seq<Fate>, attempts: nat, p: Pos): Pos
    decreases attempts
  {
    if attempts == 0 then p.(ok := false)
    else
      var d := DispatchTo(plan, records, fates, 0, plan.Canaries(), p);
      if !d.ok then d
      else if AwaitTo(fates, d).ok then AwaitTo(fates, d)
      else CanaryTo(plan, records, fates, attempts - 1, AwaitTo(fates, d).(ok := true))
  }

  lemma CanaryNext(plan: Plan, records: set<NodeId>, fates: seq<Fate>, attempts: nat, p: Pos)
    requires attempts > 0
    ensures var d := DispatchTo(plan, records, fates, 0, plan.Canaries(), p);
            var w := if d.ok then AwaitTo(fates, d) else d;
            CanaryTo(plan, records, fates, attempts, p) ==
              if d.ok && !w.ok then CanaryTo(plan, records, fates, attempts - 1, w.(ok := true)) else w
  {
  }

  function Attempts(plan: Plan): nat {
    Max(plan.strategy.canaryRetries + 1, 1)
  }

  /** The forward half from its first operation on. */
  function AdvanceTo(plan: Plan, records: set<NodeId>, fates: seq<Fate>, tick: nat): Pos
    requires plan.strategy.maxParallel > 0
  {
    var c := if plan.strategy.canary > 0 then CanaryTo(plan, records, fates, Attempts(plan), Pos(true, tick, 0))
             else Pos(true, tick, 0);
    if c.ok then RollTo(plan, records, fates, plan.Canaries(), c) else c
  }

  /** Walking back over `left` copies. */
  function BackTo(fates: seq<Fate>, left: nat, tick: nat): Pos {
    if left == 0 then Pos(true, tick, 0)
    else if !FateAt(fates, tick).Done? then Pos(false, tick + 1, 0)
    else if !FateAt(fates, tick + 1).Done? then Pos(false, tick + 2, 0)
    else BackTo(fates, left - 1, tick + 2)
  }

  lemma BackNext(fates: seq<Fate>, left: nat, tick: nat)
    requires left > 0
    ensures if FateAt(fates, tick).Done? && FateAt(fates, tick + 1).Done?
            then BackTo(fates, left, tick) == BackTo(fates, left - 1, tick + 2)
            else !BackTo(fates, left, tick).ok
  {
  }

  /** How a deploy that got as far as `p` without completing ends. */
  function FailedState(plan: Plan, fates: seq<Fate>, touched: nat, tick: nat): State {
    if !plan.strategy.autoRevert || !KnownVersion(plan.current) then Failed
    else if touched == 0 then Reverted
    else
      var b := BackTo(fates, touched, tick);
      if b.ok && FateAt(fates, b.tick).Done? then Reverted else RollbackFailed
  }

  function FinalState(plan: Plan, records: set<NodeId>, fates: seq<Fate>, tick: nat): State
    requires plan.strategy.maxParallel > 0
  {
    var a := AdvanceTo(plan, records, fates, tick);
    if a.ok then Completed else FailedState(plan, fates, a.touched, a.tick)
  }

  function Proven(copies: Copies, nodes: seq<NodeId>): Copies {
    map n | n in copies :: if n in nodes then copies[n].(proven := true) else copies[n]
  }

  lemma {:induction false} DispatchKeeps(plan: Plan, records: set<NodeId>, fates: seq<Fate>, lo: nat, hi: nat, p: Pos)
    requires lo <= hi <= |plan.allocs|
    ensures DispatchTo(plan, records, fates, lo, hi, p).touched >= p.touched
    ensures lo < hi && p.touched == 0 ==>
              (DispatchTo(plan, records, fates, lo, hi, p).touched == 0 <==>
                  !Lands(fates, records, plan.allocs[lo], p.tick))
    decreases hi - lo
  {
    if lo < hi {
      DispatchKeeps(plan, records, fates, lo + 1, hi, Pos(true, p.tick + 2, Max(p.touched, lo + 1)));
    }
  }

  lemma {:induction false} RollKeeps(plan: Plan, records: set<NodeId>, fates: seq<Fate>, next: nat, p: Pos)
    requires plan.strategy.maxParallel > 0
    ensures RollTo(plan, records, fates, next, p).touched >= p.touched
    decreases |plan.allocs| - next
  {
    if next < |plan.allocs| {
      var end := Min(next + plan.strategy.maxParallel, |plan.allocs|);
      DispatchKeeps(plan, records, fates, next, end, p.(tick := p.tick + 1));
      RollKeeps(plan, records, fates, end, WaveTo(plan, records, fates, next, end, p));
    }
  }

  lemma {:induction false} CanaryKeeps(plan: Plan, records: set<NodeId>, fates: seq<Fate>, attempts: nat, p: Pos)
    ensures CanaryTo(plan, records, fates, attempts, p).touched >= p.touched
  {
    if attempts > 0 {
      DispatchKeeps(plan, records, fates, 0, plan.Canaries(), p);
      var d := DispatchTo(plan, records, fates, 0, plan.Canaries(), p);
      CanaryKeeps(plan, records, fates, attempts - 1, AwaitTo(fates, d).(ok := true));
    }
  }

  /** Nothing is dispatched exactly when the first dispatch cannot go through. */
  lemma {:induction false} NothingLandsExactly(plan: Plan, records: set<NodeId>, fates: seq<Fate>, tick: nat)
    requires plan.strategy.maxParallel > 0
    ensures AdvanceTo(plan, records, fates, tick).touched == 0 <==> NothingLands(plan, fates, records, tick)
  {
    var p, k := Pos(true, tick, 0), plan.Canaries();
    if plan.allocs == [] {
      NoCopies(plan, records, fates, Attempts(plan), p);
    } else if plan.strategy.canary > 0 {
      var d := DispatchTo(plan, records, fates, 0, k, p);
      DispatchKeeps(plan, records, fates, 0, k, p);
      CanaryKeeps(plan, records, fates, Attempts(plan) - 1, AwaitTo(fates, d).(ok := true));
      RollKeeps(plan, records, fates, k, CanaryTo(plan, records, fates, Attempts(plan), p));
    } else {
      var end := Min(plan.strategy.maxParallel, |plan.allocs|);
      DispatchKeeps(plan, records, fates, 0, end, p.(tick := tick + 1));
      RollKeeps(plan, records, fates, end, WaveTo(plan, records, fates, 0, end, p));
    }
  }

  lemma {:induction false} NoCopies(plan: Plan, records: set<NodeId>, fates: seq<Fate>, attempts: nat, p: Pos)
    requires plan.allocs == []
    ensures CanaryTo(plan, records, fates, attempts, p).touched == p.touched
  {
    if attempts > 0 {
      NoCopies(plan, records, fates, attempts - 1, AwaitTo(fates, p).(ok := true));
    }
  }

  ghost predicate AllWell(fates: seq<Fate>, from: nat) {
    forall i :: from <= i < |fates| ==> fates[i].Done?
  }

  lemma {:induction false} DispatchWell(plan: Plan, records: set<NodeId>, fates: seq<Fate>, lo: nat, hi: nat, p: Pos)
    requires lo <= hi <= |plan.allocs| && forall n :: n in plan.allocs ==> n in records
    requires forall i :: p.tick <= i < p.tick + 2 * (hi - lo) ==> FateAt(fates, i).Done?
    ensures var d := DispatchTo(plan, records, fates, lo, hi, p);
            d.ok && d.tick == p.tick + 2 * (hi - lo) && d.touched == if lo < hi then Max(p.touched, hi) else p.touched
    decreases hi - lo
  {
    if lo < hi {
      DispatchWell(plan, records, fates, lo + 1, hi, Pos(true, p.tick + 2, Max(p.touched, lo + 1)));
    }
  }

  lemma {:induction false} RollWell(plan: Plan, records: set<NodeId>, fates: seq<Fate>, next: nat, p: Pos)
    requires plan.strategy.maxParallel > 0 && AllWell(fates, p.tick) && forall n :: n in plan.allocs ==> n in records
    ensures RollTo(plan, records, fates, next, p).ok
    decreases |plan.allocs| - next
  {
    if next < |plan.allocs| {
      var end := Min(next + plan.strategy.maxParallel, |plan.allocs|);
      DispatchWell(plan, records, fates, next, end, p.(tick := p.tick + 1));
      RollWell(plan, records, fates, end, WaveTo(plan, records, fates, next, end, p));
    }
  }

  /** With every record there and no operation failing, a deploy completes. */
  lemma {:induction false} FaultlessCompletes(plan: Plan, records: set<NodeId>, fates: seq<Fate>, tick: nat)
    requires plan.strategy.maxParallel > 0 && AllWell(fates, tick) && forall n :: n in plan.allocs ==> n in records
    ensures FinalState(plan, records, fates, tick) == Completed
  {
    var p := Pos(true, tick, 0);
    if plan.strategy.canary > 0 {
      DispatchWell(plan, records, fates, 0, plan.Canaries(), p);
      var d := DispatchTo(plan, records, fates, 0, plan.Canaries(), p);
      RollWell(plan, records, fates, plan.Canaries(), AwaitTo(fates, d));
    } else {
      RollWell(plan, records, fates, 0, p);
    }
  }

  lemma {:induction false} BackWell(fates: seq<Fate>, left: nat, tick: nat)
    requires AllWell(fates, tick)
    ensures BackTo(fates, left, tick).ok && BackTo(fates, left, tick).tick == tick + 2 * left
  {
    if left > 0 {
      BackWell(fates, left - 1, tick + 2);
    }
  }

  /** A failed deploy with AutoRevert and a version to go back to is reverted if nothing
      fails any more from the failure on. */
  lemma {:induction false} FaultlessReverts(plan: Plan, records: set<NodeId>, fates: seq<Fate>, tick: nat)
    requires plan.strategy.maxParallel > 0 && plan.strategy.autoRevert && KnownVersion(plan.current)
    requires var a := AdvanceTo(plan, records, fates, tick); !a.ok && AllWell(fates, a.tick)
    ensures FinalState(plan, records, fates, tick) == Reverted
  {
    var a := AdvanceTo(plan, records, fates, tick);
    BackWell(fates, a.touched, a.tick);
  }

  /** r canary attempts of k copies each whose dispatches go through and whose waits do not. */
  function Unhealthy(k: nat, r: nat): seq<Fate> {
    if r == 0 then [] else seq(2 * k, i => Done) + [Dropped] + Unhealthy(k, r - 1)
  }

  lemma {:induction false} RetryFrom(plan: Plan, records: set<NodeId>, before: seq<Fate>, r: nat, n: nat, touched: nat)
    requires forall x :: x in plan.allocs ==> x in records
    ensures var fates := before + Unhealthy(plan.Canaries(), r);
            CanaryTo(plan, records, fates, n, Pos(true, |before|, touched)).ok <==> r < n
    decreases n
  {
    var k := plan.Canaries();
    var fates := before + Unhealthy(k, r);
    if n > 0 {
      forall i | |before| <= i < |before| + 2 * k ensures FateAt(fates, i).Done? {
        if r > 0 {
          assert fates[i] == Unhealthy(k, r)[i - |before|];
        }
      }
      DispatchWell(plan, records, fates, 0, k, Pos(true, |before|, touched));
      var d := DispatchTo(plan, records, fates, 0, k, Pos(true, |before|, touched));
      if r > 0 {
        var block := seq(2 * k, i => Done) + [Dropped];
        assert fates == (before + block) + Unhealthy(k, r - 1);
        assert fates[|before| + 2 * k] == block[2 * k] == Dropped;
        RetryFrom(plan, records, before + block, r - 1, n - 1, d.touched);
      }
    }
  }

  /** The retry budget: with everything else going well, a canary that turns healthy after r unhealthy
      waits passes exactly when r is within CanaryRetries. */
  lemma {:induction false} RetryBudget(plan: Plan, records: set<NodeId>, before: seq<Fate>, r: nat)
    requires plan.strategy.maxParallel > 0 && plan.strategy.canary > 0 && forall x :: x in plan.allocs ==> x in records
    ensures var fates := before + Unhealthy(plan.Canaries(), r);
            CanaryTo(plan, records, fates, Attempts(plan), Pos(true, |before|, 0)).ok <==>
              r == 0 || r <= plan.strategy.canaryRetries
  {
    RetryFrom(plan, records, before, r, Attempts(plan), 0);
  }

  // ----- the audit trail of a rollback -----

  function Audited(node: NodeId): seq<RollbackStep> {
    [RollbackStep(node, MarkedPending, true), RollbackStep(node, SentUpdate, true)]
  }

  /** The trail of a rollback that went through the given copies without error. */
  function Audit(nodes: seq<NodeId>): seq<RollbackStep> {
    if nodes == [] then [] else Audit(nodes[..|nodes| - 1]) + Audited(nodes[|nodes| - 1])
  }

  /** The trail of a rollback that was given up: an error, and only at the end. */
  ghost predicate OneError(steps: seq<RollbackStep>) {
    && steps != [] && !steps[|steps| - 1].ok
    && forall i :: 0 <= i < |steps| - 1 ==> steps[i].ok
  }

  lemma {:induction false} AuditOk(nodes: seq<NodeId>)
    ensures forall i :: 0 <= i < |Audit(nodes)| ==> Audit(nodes)[i].ok
  {
    if nodes != [] {
      AuditOk(nodes[..|nodes| - 1]);
    }
  }

  lemma AuditVerdict(nodes: seq<NodeId>)
    ensures OneError(Audit(nodes) + [RollbackStep("", WaitedHealth, false)])
  {
    AuditOk(nodes);
  }

  lemma AuditGrows(nodes: seq<NodeId>, i: nat)
    requires i < |nodes|
    ensures Audit(nodes[..i + 1]) == Audit(nodes[..i]) + Audited(nodes[i])
    ensures OneError(Audit(nodes[..i]) + [RollbackStep(nodes[i], MarkedPending, false)])
    ensures OneError(Audit(nodes[..i]) +
                     [RollbackStep(nodes[i], MarkedPending, true), RollbackStep(nodes[i], SentUpdate, false)])
  {
    assert nodes[..i + 1][..i] == nodes[..i];
    AuditOk(nodes[..i]);
  }

  // ----- what each final state means -----

  /** Whether the last write of the pin, of the autoscaler gate and of the rollback-failed
      flag met an error. */
  datatype Lost = Lost(pin: bool, gate: bool, flag: bool)

  /** The deploy ended without touching anything on its way back. */
  predicate NoRollback(r: Status, touched: seq<NodeId>) {
    r.state == Completed || r.state == Failed || touched == []
  }

  /** A completed deployment: every copy was told the target version, has it in its
      record and was proven healthy, and the pin names only that version. */
  ghost predicate Rolled(plan: Plan, now: Snap, r: Status, pin: Pin, pinLost: bool) {
    && now.touched == plan.allocs && now.settled == |plan.allocs|
    && r.updated == r.total == |plan.allocs|
    && (forall n :: n in plan.allocs ==> n in now.copies && now.copies[n].Runs(plan.target) && now.copies[n].proven)
    && (pin == Pin(plan.target, NoVersion) || pinLost)
  }

  /** A deployment that did not complete, from a failure with the pin at `entry`. */
  ghost predicate Unwound(plan: Plan, revert: bool, now: Snap, r: Status, steps: seq<RollbackStep>,
                          entry: Pin, pin: Pin, flagged: bool, pinLost: bool, flagLost: bool)
  {
    && r.state in {Failed, Reverted, RollbackFailed}
    && (r.state == Failed <==> !revert || !KnownVersion(plan.current))
    && (r.state == Failed ==> pin == entry || pinLost)
    && (r.state == Reverted && now.touched == [] ==> pin == entry || pinLost)
    && (r.state == Reverted && now.touched != [] ==>
          && Back(plan, now, |now.touched|)
          && (forall n :: n in now.touched ==> n in now.copies && now.copies[n].proven)
          && steps == Audit(now.touched) + [RollbackStep("", WaitedHealth, true)]
          && (pin == Pin(plan.current, NoVersion) || pinLost))
    && (r.state == RollbackFailed ==>
          && OneError(steps) && now.touched != []
          && (flagged || flagLost)
          && (pin == entry || pinLost))
  }

  /** An error of the first pin write is no matter once the pin was restored, and excuses
      the pin where no second write followed. */
  lemma UnwoundFrom(plan: Plan, revert: bool, now: Snap, r: Status, steps: seq<RollbackStep>,
                    was: Pin, entry: Pin, pin: Pin, flagged: bool, pinLost: bool, flagLost: bool)
    requires Unwound(plan, revert, now, r, steps, was, pin, flagged, pinLost, flagLost)
    requires pinLost || (r.state == Reverted && now.touched != [])
    ensures Unwound(plan, revert, now, r, steps, entry, pin, flagged, pinLost, flagLost)
  {
  }

  /** True of every number. A sealed predicate is known as a whole and spelled out only
      where this is mentioned, which keeps the loops below from taking it apart. */
  ghost predicate Seal(k: int) {
    true
  }

  class Rollout {
    var inFlight: set<string>
    var touched: seq<NodeId>
    var rollbackSteps: seq<RollbackStep>

    // KV records and agents of the service being deployed: its copies, the version
    // pin, the autoscaler gate and the rollback-failed flag.
    var copies: Copies
    var pin: Pin
    var gate: bool
    var rollbackFailed: bool

    ghost var settled: nat
    ghost var trace: seq<Snap>
    ghost var reverting: bool
    ghost var lost: Lost

    /** How the operations end, in the order they are carried out, and the next one. */
    const fates: seq<Fate>
    var tick: nat

    ghost function Now(): Snap
      reads this`reverting, this`touched, this`settled, this`copies
    {
      Snap(reverting, touched, settled, copies)
    }

    /** The deploy goes forward and has done so since the trace was `t0`. Sealed. */
    ghost predicate Going(plan: Plan, start: Copies, t0: seq<Snap>)
      reads this`reverting, this`touched, this`settled, this`copies, this`trace
    {
      forall k {:trigger Seal(k)} :: Seal(k) ==>
        plan.Valid() && Forward(plan, start, Now()) && GoesForward(plan, start, t0, trace)
    }

    /** The deploy goes backward, has done so since the trace was `t0`, and has sent back
        the first i touched copies. Sealed. */
    ghost predicate Returning(plan: Plan, start: Copies, t0: seq<Snap>, i: nat)
      reads this`reverting, this`touched, this`settled, this`copies, this`trace
    {
      forall k {:trigger Seal(k)} :: Seal(k) ==>
        Backward(plan, start, Now()) && Back(plan, Now(), i) && GoesBackward(plan, start, t0, trace)
    }

    constructor (copies: Copies, fates: seq<Fate>)
      ensures inFlight == {} && touched == [] && this.copies == copies && pin == Pin(NoVersion, NoVersion) && !gate
      ensures this.fates == fates && tick == 0
    {
      this.fates, tick := fates, 0;
      inFlight, touched, rollbackSteps := {}, [], [];
      this.copies, pin, gate, rollbackFailed := copies, Pin(NoVersion, NoVersion), false, false;
      settled, trace, reverting, lost := 0, [], false, Lost(false, false, false);
    }

    method Claim(svc: string) returns (ok: bool)
      modifies this`inFlight
      ensures ok <==> svc !in old(inFlight)
      ensures inFlight == old(inFlight) + {svc}
    {
      ok := svc !in inFlight;
      inFlight := inFlight + {svc};
    }

    /** Carries out one operation: reads how it ends. */
    method Attempt() returns (f: Fate)
      modifies this`tick
      ensures f == FateAt(fates, old(tick)) && tick == old(tick) + 1
    {
      f := FateAt(fates, tick);
      tick := tick + 1;
    }

    method PinVersion(v: Pin)
      modifies this`pin, this`lost, this`tick
      ensures tick == old(tick) + 1 && lost == old(lost).(pin := !FateAt(fates, old(tick)).Done?)
      ensures pin == if FateAt(fates, old(tick)).Dropped? then old(pin) else v
    {
      var f := Attempt();
      if !f.Dropped? {
        pin := v;
      }
      lost := lost.(pin := !f.Done?);
    }

    method SetDeployGate(active: bool)
      modifies this`gate, this`lost, this`tick
      ensures tick == old(tick) + 1 && lost == old(lost).(gate := !FateAt(fates, old(tick)).Done?)
      ensures gate == if FateAt(fates, old(tick)).Dropped? then old(gate) else active
    {
      var f := Attempt();
      if !f.Dropped? {
        gate := active;
      }
      lost := lost.(gate := !f.Done?);
    }

    /** Appends unless the allocation is recorded already. */
    method RecordTouched(node: NodeId)
      modifies this`touched, this`trace
      ensures touched == if node in old(touched) then old(touched) else old(touched) + [node]
      ensures trace == old(trace) + [Now()]
    {
      var i := 0;
      while i < |touched|
        invariant 0 <= i <= |touched| && node !in touched[..i]
        invariant touched == old(touched) && trace == old(trace)
      {
        if touched[i] == node {
          trace := trace + [Now()];
          return;
        }
        i := i + 1;
      }
      touched := touched + [node];
      trace := trace + [Now()];
    }

    /** CAS-pins one record to a version; a missing record is an error. */
    method MarkPending(node: NodeId, version: Version) returns (ok: bool)
      modifies this`copies, this`trace, this`tick
      ensures tick == old(tick) + 1 && (ok <==> node in old(copies) && FateAt(fates, old(tick)).Done?)
      ensures copies == if node !in old(copies) || FateAt(fates, old(tick)).Dropped? then old(copies)
                        else old(copies)[node := Copy(version, old(copies)[node].told, false)]
      ensures trace == old(trace) + [Now()]
    {
      var f := Attempt();
      ok := false;
      if node in copies {
        ok := f.Done?;
        if !f.Dropped? {
          copies := copies[node := Copy(version, copies[node].told, false)];
        }
      }
      trace := trace + [Now()];
    }

    /** Tells the agent to restart at a version. */
    method SendUpdateCommand(node: NodeId, version: Version) returns (ok: bool)
      requires node in copies
      modifies this`copies, this`trace, this`tick
      ensures tick == old(tick) + 1 && (ok <==> FateAt(fates, old(tick)).Done?)
      ensures copies == if FateAt(fates, old(tick)).Dropped? then old(copies)
                        else old(copies)[node := old(copies)[node].(told := version)]
      ensures trace == old(trace) + [Now()]
    {
      var f := Attempt();
      ok := f.Done?;
      if !f.Dropped? {
        copies := copies[node := copies[node].(told := version)];
      }
      trace := trace + [Now()];
    }

    /** True only if the whole batch has proven healthy (see HealthWait). */
    method WaitForBatchHealth(batch: seq<NodeId>) returns (ok: bool)
      modifies this`copies, this`tick
      ensures tick == old(tick) + 1 && (ok <==> FateAt(fates, old(tick)).Done?)
      ensures copies == if ok then Proven(old(copies), batch) else old(copies)
    {
      var f := Attempt();
      ok := f.Done?;
      if ok {
        copies := Proven(copies, batch);
      }
    }

    method MarkForward(plan: Plan, i: nat, ghost start: Copies, ghost t0: seq<Snap>) returns (ok: bool)
      requires plan.Valid() && Going(plan, start, t0)
      requires settled <= i < |plan.allocs| && i <= |touched| && i + 1 <= settled + plan.Radius()
      modifies this`copies, this`trace, this`tick
      ensures Going(plan, start, t0)
      ensures tick == old(tick) + 1 && (ok <==> plan.allocs[i] in start && FateAt(fates, old(tick)).Done?)
      ensures ok ==> plan.allocs[i] in copies && copies[plan.allocs[i]].version == plan.target
    {
      assert Seal(0);
      var node := plan.allocs[i];
      ghost var before := Now();
      assert i < |touched| ==> touched[i] == node && before.copies[node].told == plan.target;
      ok := MarkPending(node, plan.target);
      if copies != before.copies {
        ForwardTouches(plan, start, before, i, Copy(plan.target, before.copies[node].told, false));
      }
      assert Now() == before.(copies := copies);
      TraceGrows(plan, start, t0, old(trace), Now());
    }

    method SendForward(plan: Plan, i: nat, ghost start: Copies, ghost t0: seq<Snap>) returns (ok: bool)
      requires plan.Valid() && Going(plan, start, t0)
      requires settled <= i < |plan.allocs| && i <= |touched| && i + 1 <= settled + plan.Radius()
      requires plan.allocs[i] in copies && copies[plan.allocs[i]].version == plan.target
      modifies this`copies, this`trace, this`tick
      ensures Going(plan, start, t0)
      ensures tick == old(tick) + 1 && (ok <==> FateAt(fates, old(tick)).Done?)
      ensures ok ==> plan.allocs[i] in copies && copies[plan.allocs[i]].Runs(plan.target)
    {
      assert Seal(0);
      var node := plan.allocs[i];
      ghost var before := Now();
      ok := SendUpdateCommand(node, plan.target);
      if copies != before.copies {
        ForwardTouches(plan, start, before, i, before.copies[node].(told := plan.target));
      }
      assert Now() == before.(copies := copies);
      TraceGrows(plan, start, t0, old(trace), Now());
    }

    /** Records the copy, unless an earlier attempt already did. */
    method RecordForward(plan: Plan, i: nat, ghost start: Copies, ghost t0: seq<Snap>)
      requires plan.Valid() && Going(plan, start, t0)
      requires i < |plan.allocs| && i <= |touched|
      requires i + 1 <= settled + plan.Radius()
      requires plan.allocs[i] in copies && copies[plan.allocs[i]].Runs(plan.target)
      modifies this`touched, this`trace
      ensures Going(plan, start, t0)
      ensures |touched| == Max(|old(touched)|, i + 1)
    {
      assert Seal(0);
      ghost var before := Now();
      ForwardRecords(plan, start, before, i);
      RecordTouched(plan.allocs[i]);
      assert Now() == before.(touched := touched);
      TraceGrows(plan, start, t0, old(trace), Now());
    }

    /** Marks and restarts the copy. */
    method Restart(plan: Plan, i: nat, ghost start: Copies, ghost t0: seq<Snap>) returns (ok: bool)
      requires plan.Valid() && Going(plan, start, t0)
      requires settled <= i < |plan.allocs| && i <= |touched| && i + 1 <= settled + plan.Radius()
      modifies this`copies, this`trace, this`tick
      ensures Going(plan, start, t0)
      ensures ok <==> Lands(fates, start.Keys, plan.allocs[i], old(tick))
      ensures tick == old(tick) + if plan.allocs[i] in start && FateAt(fates, old(tick)).Done? then 2 else 1
      ensures ok ==> plan.allocs[i] in copies && copies[plan.allocs[i]].Runs(plan.target)
    {
      ok := MarkForward(plan, i, start, t0);
      if ok {
        ok := SendForward(plan, i, start, t0);
      }
    }

    /** One copy: mark, restart and record. */
    method Dispatch(plan: Plan, i: nat, ghost hi: nat, ghost start: Copies, ghost t0: seq<Snap>) returns (ok: bool)
      requires plan.Valid() && Going(plan, start, t0) && settled <= i < |plan.allocs| && i <= |touched|
      requires i + 1 <= settled + plan.Radius() && i < hi <= |plan.allocs|
      modifies this`touched, this`copies, this`trace, this`tick
      ensures Going(plan, start, t0)
      ensures |old(touched)| <= |touched| <= Max(|old(touched)|, i + 1)
      ensures ok ==> |touched| == Max(|old(touched)|, i + 1)
      ensures !ok ==> touched == old(touched)
      ensures DispatchTo(plan, start.Keys, fates, i, hi, Pos(true, old(tick), |old(touched)|)) ==
                if ok then DispatchTo(plan, start.Keys, fates, i + 1, hi, Pos(true, tick, |touched|))
                else Pos(false, tick, |touched|)
    {
      DispatchNext(plan, start.Keys, fates, i, hi, Pos(true, tick, |touched|));
      ok := Restart(plan, i, start, t0);
      if ok {
        RecordForward(plan, i, start, t0);
      }
    }

    /** The canary loop and one rolling batch alike. */
    method DispatchBatch(plan: Plan, lo: nat, hi: nat, ghost start: Copies, ghost t0: seq<Snap>) returns (ok: bool)
      requires plan.Valid() && Going(plan, start, t0)
      requires settled <= lo <= |touched| && lo <= hi <= |plan.allocs| && hi <= settled + plan.Radius()
      modifies this`touched, this`copies, this`trace, this`tick
      ensures Going(plan, start, t0)
      ensures |old(touched)| <= |touched| <= Max(|old(touched)|, hi)
      ensures ok ==> |touched| == Max(|old(touched)|, hi)
      ensures Pos(ok, tick, |touched|) ==
                DispatchTo(plan, start.Keys, fates, lo, hi, Pos(true, old(tick), |old(touched)|))
    {
      DispatchEnds(plan, start.Keys, fates, lo, hi, Pos(true, tick, |touched|));
      ghost var goal := DispatchTo(plan, start.Keys, fates, lo, hi, Pos(true, tick, |touched|));
      var i := lo;
      while i < hi
        invariant lo <= i <= hi && i <= |touched|
        invariant Going(plan, start, t0)
        invariant |old(touched)| <= |touched|
        invariant DispatchTo(plan, start.Keys, fates, i, hi, Pos(true, tick, |touched|)) == goal
      {
        ok := Dispatch(plan, i, hi, start, t0);
        if !ok {
          return;
        }
        i := i + 1;
      }
      ok := true;
    }

    /** Waits for the batch dispatched last; once healthy it is settled. */
    method AwaitBatch(plan: Plan, lo: nat, hi: nat, ghost start: Copies, ghost t0: seq<Snap>) returns (ok: bool)
      requires plan.Valid() && Going(plan, start, t0) && settled == lo <= hi <= |touched|
      modifies this`copies, this`settled, this`trace, this`tick
      ensures Going(plan, start, t0)
      ensures settled == if ok then hi else lo
      ensures tick == old(tick) + 1 && (ok <==> FateAt(fates, old(tick)).Done?)
    {
      assert Seal(0);
      ghost var before := Now();
      ok := WaitForBatchHealth(plan.allocs[lo..hi]);
      if ok {
        ForwardProven(plan, start, before, hi, copies);
        settled := hi;
        trace := trace + [Now()];
      }
    }

    method DeployCanary(plan: Plan, ghost start: Copies, ghost t0: seq<Snap>) returns (healthy: bool, err: bool)
      requires plan.Valid() && Going(plan, start, t0)
      requires settled == 0 && |touched| <= plan.Canaries()
      modifies this`touched, this`copies, this`settled, this`trace, this`tick
      ensures Going(plan, start, t0)
      ensures |old(touched)| <= |touched| <= plan.Canaries()
      ensures !err ==> |touched| == plan.Canaries()
      ensures settled == if healthy && !err then plan.Canaries() else 0
      ensures plan.strategy.canary <= 0 ==> healthy && !err && tick == old(tick) && copies == old(copies)
      ensures plan.strategy.canary > 0 ==>
                var d := DispatchTo(plan, start.Keys, fates, 0, plan.Canaries(), Pos(true, old(tick), |old(touched)|));
                && (err <==> !d.ok)
                && Pos(healthy && !err, tick, |touched|) == if d.ok then AwaitTo(fates, d) else d
    {
      if plan.strategy.canary <= 0 {
        return true, false;
      }
      var sent := DispatchBatch(plan, 0, plan.Canaries(), start, t0);
      if !sent {
        return false, true;
      }
      healthy := AwaitBatch(plan, 0, plan.Canaries(), start, t0);
      err := false;
    }

    method DeployCanaryWithRetries(plan: Plan, ghost start: Copies, ghost t0: seq<Snap>)
        returns (healthy: bool, err: bool)
      requires plan.Valid() && Going(plan, start, t0)
      requires settled == 0 && touched == []
      modifies this`touched, this`copies, this`settled, this`trace, this`tick
      ensures Going(plan, start, t0)
      ensures |touched| <= plan.Canaries()
      ensures healthy && !err ==> |touched| == plan.Canaries() == settled
      ensures !err && !healthy ==> plan.strategy.canary > 0 && |touched| == plan.Canaries()
      ensures plan.strategy.canary <= 0 ==> healthy && !err && tick == old(tick) && copies == old(copies)
      ensures plan.strategy.canary > 0 ==>
                CanaryTo(plan, start.Keys, fates, Attempts(plan), Pos(true, old(tick), 0)) ==
                Pos(healthy && !err, tick, |touched|)
    {
      var attempts := Max(plan.strategy.canaryRetries + 1, 1);
      ghost var goal, left := CanaryTo(plan, start.Keys, fates, attempts, Pos(true, tick, 0)), attempts;
      var i := 0;
      while i < attempts
        invariant Going(plan, start, t0)
        invariant 0 <= i <= attempts && |touched| <= plan.Canaries() && settled == 0
        invariant i == 0 ==> touched == [] && copies == old(copies) && tick == old(tick)
        invariant i > 0 ==> plan.strategy.canary > 0 && |touched| == plan.Canaries()
        invariant left == attempts - i
        invariant plan.strategy.canary > 0 ==>
                    CanaryTo(plan, start.Keys, fates, left, Pos(true, tick, |touched|)) == goal
      {
        CanaryNext(plan, start.Keys, fates, left, Pos(true, tick, |touched|));
        left := left - 1;
        healthy, err := DeployCanary(plan, start, t0);
        if err || healthy {
          return;
        }
        i := i + 1;
      }
      healthy, err := false, false;
    }

    /** One wave: check for cancellation, dispatch, wait. */
    method Wave(plan: Plan, end: nat, ghost start: Copies, ghost t0: seq<Snap>) returns (ok: bool)
      requires plan.Valid() && Going(plan, start, t0) && |touched| == settled < end <= |plan.allocs|
      requires end == Min(settled + plan.strategy.maxParallel, |plan.allocs|)
      modifies this`touched, this`copies, this`settled, this`trace, this`tick
      ensures Going(plan, start, t0)
      ensures settled == if ok then end else old(settled)
      ensures |old(touched)| <= |touched| && (ok ==> |touched| == end)
      ensures Pos(ok, tick, |touched|) ==
                WaveTo(plan, start.Keys, fates, old(settled), end, Pos(true, old(tick), |old(touched)|))
    {
      var next := |touched|;
      var live := Attempt();
      if !live.Done? {
        return false;
      }
      ok := DispatchBatch(plan, next, end, start, t0);
      if ok {
        ok := AwaitBatch(plan, next, end, start, t0);
      }
    }

    method RollingUpdate(plan: Plan, status: Status, ghost start: Copies, ghost t0: seq<Snap>)
        returns (ok: bool, status': Status)
      requires plan.Valid() && Going(plan, start, t0)
      requires |touched| == plan.Canaries() == settled
      requires status.updated == 0 && status.total == |plan.allocs|
      modifies this`touched, this`copies, this`settled, this`trace, this`tick
      ensures Going(plan, start, t0)
      ensures status' == status.(updated := settled)
      ensures ok ==> settled == |plan.allocs|
      ensures |old(touched)| <= |touched|
      ensures Pos(ok, tick, |touched|) ==
                RollTo(plan, start.Keys, fates, plan.Canaries(), Pos(true, old(tick), |old(touched)|))
    {
      ghost var goal := RollTo(plan, start.Keys, fates, plan.Canaries(), Pos(true, tick, |touched|));
      var next := plan.Canaries();
      status' := status.(updated := next);
      while next < |plan.allocs|
        invariant next <= |plan.allocs| && |touched| == next == settled && plan.Canaries() <= next
        invariant Going(plan, start, t0)
        invariant status' == status.(updated := settled)
        invariant RollTo(plan, start.Keys, fates, next, Pos(true, tick, |touched|)) == goal
      {
        var end := Min(next + plan.strategy.maxParallel, |plan.allocs|);
        RollNext(plan, start.Keys, fates, next, end, Pos(true, tick, |touched|));
        ok := Wave(plan, end, start, t0);
        if !ok {
          return;
        }
        status' := status'.(updated := status'.updated + (end - next));
        next := end;
      }
      ok := true;
    }

    method RecordRollbackStep(node: NodeId, action: Action, ok: bool)
      modifies this`rollbackSteps
      ensures rollbackSteps == old(rollbackSteps) + [RollbackStep(node, action, ok)]
    {
      rollbackSteps := rollbackSteps + [RollbackStep(node, action, ok)];
    }

    method FailDeployment(status: Status) returns (r: Status)
      ensures r == status.(state := Failed)
    {
      r := status.(state := Failed);
    }

    method MarkRollbackFailed(status: Status) returns (r: Status)
      modifies this`rollbackFailed, this`lost, this`tick
      ensures rollbackFailed == (old(rollbackFailed) || !FateAt(fates, old(tick)).Dropped?)
      ensures lost == old(lost).(flag := !FateAt(fates, old(tick)).Done?)
      ensures r == status.(state := RollbackFailed)
    {
      var f := Attempt();
      if !f.Dropped? {
        rollbackFailed := true;
      }
      lost := lost.(flag := !f.Done?);
      r := status.(state := RollbackFailed);
    }

    method MarkBack(plan: Plan, i: nat, ghost start: Copies, ghost t0: seq<Snap>) returns (ok: bool)
      requires plan.Valid() && Returning(plan, start, t0, i) && i < |touched|
      modifies this`copies, this`trace, this`tick
      ensures Returning(plan, start, t0, i)
      ensures ok ==> touched[i] in copies && copies[touched[i]].version == plan.current
      ensures tick == old(tick) + 1 && (ok <==> FateAt(fates, old(tick)).Done?)
    {
      assert Seal(0);
      ghost var before := Now();
      ok := MarkPending(touched[i], plan.current);
      BackwardTouches(plan, start, before, i, Copy(plan.current, before.copies[touched[i]].told, false));
      TraceGrows(plan, start, t0, old(trace), Now());
    }

    method SendBack(plan: Plan, i: nat, ghost start: Copies, ghost t0: seq<Snap>) returns (ok: bool)
      requires plan.Valid() && Returning(plan, start, t0, i) && i < |touched|
      requires touched[i] in copies && copies[touched[i]].version == plan.current
      modifies this`copies, this`trace, this`tick
      ensures Returning(plan, start, t0, i)
      ensures ok ==> Returning(plan, start, t0, i + 1)
      ensures tick == old(tick) + 1 && (ok <==> FateAt(fates, old(tick)).Done?)
    {
      assert Seal(0);
      ghost var before := Now();
      ok := SendUpdateCommand(touched[i], plan.current);
      BackwardTouches(plan, start, before, i, before.copies[touched[i]].(told := plan.current));
      TraceGrows(plan, start, t0, old(trace), Now());
    }

    /** One round of the revert loop. */
    method RevertOne(plan: Plan, i: nat, ghost start: Copies, ghost t0: seq<Snap>) returns (ok: bool)
      requires plan.Valid() && Returning(plan, start, t0, i) && i < |touched|
      modifies this`copies, this`trace, this`rollbackSteps, this`tick
      ensures Returning(plan, start, t0, if ok then i + 1 else i)
      ensures ok ==> rollbackSteps == old(rollbackSteps) + Audited(touched[i])
      ensures !ok ==>
                || rollbackSteps == old(rollbackSteps) + [RollbackStep(touched[i], MarkedPending, false)]
                || rollbackSteps == old(rollbackSteps) +
                     [RollbackStep(touched[i], MarkedPending, true), RollbackStep(touched[i], SentUpdate, false)]
      ensures ok <==> FateAt(fates, old(tick)).Done? && FateAt(fates, old(tick) + 1).Done?
      ensures ok ==> tick == old(tick) + 2
    {
      ok := MarkBack(plan, i, start, t0);
      RecordRollbackStep(touched[i], MarkedPending, ok);
      if ok {
        ok := SendBack(plan, i, start, t0);
        RecordRollbackStep(touched[i], SentUpdate, ok);
      }
    }

    /** The revert loop: one touched copy after the other is marked and restarted at
        the current version; the first error stops it and is the last audit step. */
    method WalkBack(plan: Plan, ghost start: Copies, ghost t0: seq<Snap>) returns (ok: bool)
      requires plan.Valid() && Returning(plan, start, t0, 0) && rollbackSteps == []
      modifies this`copies, this`trace, this`rollbackSteps, this`tick
      ensures exists i: nat :: Returning(plan, start, t0, i)
      ensures ok ==> Returning(plan, start, t0, |touched|) && rollbackSteps == Audit(touched)
      ensures !ok ==> OneError(rollbackSteps)
      ensures ok == BackTo(fates, |touched|, old(tick)).ok
      ensures ok ==> tick == BackTo(fates, |touched|, old(tick)).tick
    {
      ghost var goal, left := BackTo(fates, |touched|, tick), |touched|;
      var i := 0;
      while i < |touched|
        invariant 0 <= i <= |touched|
        invariant Returning(plan, start, t0, i)
        invariant rollbackSteps == Audit(touched[..i])
        invariant left == |touched| - i && BackTo(fates, left, tick) == goal
      {
        AuditGrows(touched, i);
        BackNext(fates, left, tick);
        ok := RevertOne(plan, i, start, t0);
        left := left - 1;
        if !ok {
          return;
        }
        i := i + 1;
      }
      assert touched[..i] == touched;
      ok := true;
    }

    /** Turns around and walks back. */
    method Undo(plan: Plan, ghost start: Copies) returns (ok: bool)
      requires plan.Valid() && Forward(plan, start, Now()) && rollbackSteps == []
      modifies this`copies, this`trace, this`reverting, this`rollbackSteps, this`tick
      ensures Backward(plan, start, Now()) && GoesBackward(plan, start, old(trace), trace)
      ensures ok ==> Back(plan, Now(), |touched|) && rollbackSteps == Audit(touched)
      ensures !ok ==> OneError(rollbackSteps)
      ensures ok == BackTo(fates, |touched|, old(tick)).ok
      ensures ok ==> tick == BackTo(fates, |touched|, old(tick)).tick
    {
      reverting := true;
      BackwardBegins(plan, start, old(Now()));
      assert Returning(plan, start, old(trace), 0);
      ok := WalkBack(plan, start, old(trace));
      assert Seal(0);
    }

    /** Every touched copy was sent back: wait for the batch and settle the outcome. */
    method ConfirmRevert(plan: Plan, status: Status, ghost start: Copies) returns (r: Status)
      requires Backward(plan, start, Now()) && Back(plan, Now(), |touched|) && touched != []
      requires rollbackSteps == Audit(touched) && KnownVersion(plan.current)
      modifies this`copies, this`rollbackSteps, this`rollbackFailed, this`lost, this`pin, this`tick
      ensures Contained(plan, start, Now(), true)
      ensures Unwound(plan, true, Now(), r, rollbackSteps, old(pin), pin, rollbackFailed, lost.pin, lost.flag)
      ensures r.state == Reverted || (pin == old(pin) && lost.pin == old(lost).pin)
      ensures r.state == Reverted <==> FateAt(fates, old(tick)).Done?
    {
      AuditVerdict(touched);
      var healthy := WaitForBatchHealth(touched);
      RecordRollbackStep("", WaitedHealth, healthy);
      if !healthy {
        r := MarkRollbackFailed(status);
        return;
      }
      assert forall n :: n in start && n !in touched ==> copies[n] == old(copies)[n];
      r := status.(state := Reverted);
      PinVersion(Pin(plan.current, NoVersion));
    }

    /** The revert stopped at its first error. */
    method AbandonRevert(plan: Plan, status: Status) returns (r: Status)
      requires OneError(rollbackSteps) && KnownVersion(plan.current) && touched != []
      modifies this`rollbackFailed, this`lost, this`tick
      ensures lost.pin == old(lost).pin
      ensures r.state == RollbackFailed
      ensures Unwound(plan, true, Now(), r, rollbackSteps, pin, pin, rollbackFailed, lost.pin, lost.flag)
    {
      r := MarkRollbackFailed(status);
    }

    method RollBack(plan: Plan, status: Status, ghost start: Copies) returns (r: Status)
      requires plan.Valid() && Forward(plan, start, Now()) && rollbackSteps == []
      requires KnownVersion(plan.current) && touched != []
      modifies this`copies, this`trace, this`reverting, this`rollbackSteps, this`rollbackFailed, this`lost, this`pin,
          this`tick
      ensures GoesBackward(plan, start, old(trace), trace) && Contained(plan, start, Now(), true)
      ensures Unwound(plan, true, Now(), r, rollbackSteps, old(pin), pin, rollbackFailed, lost.pin, lost.flag)
      ensures r.state == Reverted || (pin == old(pin) && lost.pin == old(lost).pin)
      ensures var b := BackTo(fates, |touched|, old(tick));
              r.state == Reverted <==> b.ok && FateAt(fates, b.tick).Done?
    {
      var ok := Undo(plan, start);
      if ok {
        r := ConfirmRevert(plan, status, start);
      } else {
        r := AbandonRevert(plan, status);
      }
    }

    method RevertDeployment(plan: Plan, status: Status, ghost start: Copies) returns (r: Status)
      requires plan.Valid() && Forward(plan, start, Now()) && rollbackSteps == []
      modifies this`copies, this`trace, this`reverting, this`rollbackSteps, this`rollbackFailed, this`lost, this`pin,
          this`tick
      ensures GoesBackward(plan, start, old(trace), trace) && Contained(plan, start, Now(), true)
      ensures Unwound(plan, true, Now(), r, rollbackSteps, old(pin), pin, rollbackFailed, lost.pin, lost.flag)
      ensures (r.state == Reverted && touched != []) || (pin == old(pin) && lost.pin == old(lost).pin)
      ensures r.state == Failed || touched == [] ==> trace == old(trace) && Now() == old(Now())
      ensures plan.strategy.autoRevert ==> r.state == FailedState(plan, fates, |touched|, old(tick))
    {
      if !KnownVersion(plan.current) {
        r := FailDeployment(status.(phase := Revert));
      } else if |touched| == 0 {
        r := status.(phase := Revert, state := Reverted);
      } else {
        r := RollBack(plan, status.(phase := Revert), start);
      }
    }

    /** Reverts or fails, as the plan says. */
    method HandleFailure(plan: Plan, status: Status, ghost start: Copies) returns (r: Status)
      requires plan.Valid() && Forward(plan, start, Now()) && rollbackSteps == []
      modifies this`copies, this`trace, this`reverting, this`rollbackSteps, this`rollbackFailed, this`lost, this`pin,
          this`tick
      ensures GoesBackward(plan, start, old(trace), trace) && Contained(plan, start, Now(), true)
      ensures Unwound(plan, plan.strategy.autoRevert, Now(), r, rollbackSteps, old(pin), pin, rollbackFailed,
              lost.pin, lost.flag)
      ensures (r.state == Reverted && touched != []) || (pin == old(pin) && lost.pin == old(lost).pin)
      ensures r.state == Failed || touched == [] ==> trace == old(trace) && Now() == old(Now())
      ensures r.state == FailedState(plan, fates, |touched|, old(tick))
    {
      if plan.strategy.autoRevert {
        r := RevertDeployment(plan, status, start);
      } else {
        r := FailDeployment(status);
      }
    }

    /** The forward half: canary, then rolling waves. */
    method Advance(plan: Plan, status: Status, ghost start: Copies) returns (ok: bool, r: Status)
      requires plan.Valid() && Forward(plan, start, Now()) && touched == [] && settled == 0
      requires status.updated == 0 && status.total == |plan.allocs|
      modifies this`touched, this`copies, this`settled, this`trace, this`tick
      ensures Forward(plan, start, Now()) && GoesForward(plan, start, old(trace), trace)
      ensures 0 <= r.updated <= r.total == |plan.allocs|
      ensures ok ==> settled == |plan.allocs| == r.updated
      ensures Pos(ok, tick, |touched|) == AdvanceTo(plan, start.Keys, fates, old(tick))
    {
      assert Going(plan, start, old(trace));
      r := status;
      if plan.strategy.canary > 0 {
        var healthy, err := DeployCanaryWithRetries(plan, start, old(trace));
        if err || !healthy {
          assert Seal(0);
          return false, r;
        }
        r := r.(canaryHealthy := true);
      }
      ok, r := RollingUpdate(plan, r.(phase := Rolling), start, old(trace));
      assert Seal(0);
    }

    /** Everything between raising and lowering the autoscaler gate. */
    method Run(plan: Plan, status: Status, ghost start: Copies) returns (r: Status, ghost turn: nat)
      requires plan.Valid() && Forward(plan, start, Now()) && touched == [] && settled == 0 && rollbackSteps == []
      requires status.updated == 0 && status.total == |plan.allocs|
      modifies this`touched, this`copies, this`settled, this`trace, this`tick
      modifies this`reverting, this`rollbackSteps, this`rollbackFailed, this`lost, this`pin
      ensures Turns(plan, start, old(trace), trace, turn) && Contained(plan, start, Now(), true)
      ensures NoRollback(r, touched) ==> turn == |trace| && Forward(plan, start, Now())
      ensures |touched| == AdvanceTo(plan, start.Keys, fates, old(tick)).touched
      ensures r.state == FinalState(plan, start.Keys, fates, old(tick))
      ensures r.state == Completed || (r.state == Reverted && touched != []) || lost.pin == old(lost).pin
      ensures r.state == Completed ==> Rolled(plan, Now(), r, pin, lost.pin)
      ensures r.state != Completed ==>
                Unwound(plan, plan.strategy.autoRevert, Now(), r, rollbackSteps, old(pin), pin, rollbackFailed,
                    lost.pin, lost.flag)
    {
      var ok;
      ok, r := Advance(plan, status, start);
      ghost var forward := trace;
      turn := |trace|;
      if ok {
        assert touched == plan.allocs;
        r := r.(phase := Complete, state := Completed);
        PinVersion(Pin(plan.target, NoVersion));
      } else {
        r := HandleFailure(plan, r, start);
      }
      TurnsAt(plan, start, old(trace), forward, trace);
    }

    /** Clears the traces of the deploy before, pins both versions and raises the gate. */
    method Prepare(plan: Plan)
      requires plan.Valid()
      modifies this`touched, this`settled, this`tick, this`gate, this`reverting, this`rollbackSteps, this`lost, this`pin
      ensures touched == [] && settled == 0 && rollbackSteps == [] && tick == old(tick) + 2
      ensures Forward(plan, copies, Now())
      ensures lost.pin == !FateAt(fates, old(tick)).Done? && (pin == Pin(plan.target, plan.current) || lost.pin)
    {
      touched, rollbackSteps := [], [];
      settled, reverting, lost := 0, false, Lost(false, false, false);
      PinVersion(Pin(plan.target, plan.current));
      SetDeployGate(true);
      ForwardBegins(plan, copies);
    }

    /** A claimed deployment, from the first pin to the lowered gate. */
    method Launch(plan: Plan) returns (r: Status, ghost turn: nat)
      requires plan.Valid()
      modifies this`touched, this`copies, this`settled, this`trace, this`tick, this`gate
      modifies this`reverting, this`rollbackSteps, this`rollbackFailed, this`lost, this`pin
      ensures Turns(plan, old(copies), old(trace), trace, turn) && Contained(plan, old(copies), Now(), true)
      ensures NoRollback(r, touched) ==> turn == |trace| && Forward(plan, old(copies), Now())
      ensures !gate || lost.gate
      ensures |touched| == AdvanceTo(plan, old(copies).Keys, fates, old(tick) + 2).touched
      ensures r.state == FinalState(plan, old(copies).Keys, fates, old(tick) + 2)
      ensures touched == [] && r.state != Completed ==> lost.pin == !FateAt(fates, old(tick)).Done?
      ensures r.state == Completed ==> Rolled(plan, Now(), r, pin, lost.pin)
      ensures r.state != Completed ==>
                Unwound(plan, plan.strategy.autoRevert, Now(), r, rollbackSteps,
                        Pin(plan.target, plan.current), pin, rollbackFailed, lost.pin, lost.flag)
    {
      Prepare(plan);
      ghost var entry, was := pin, lost.pin;
      r, turn := Run(plan, Status(Running, Canary, 0, |plan.allocs|, false), old(copies));
      if r.state != Completed && was {
        UnwoundFrom(plan, plan.strategy.autoRevert, Now(), r, rollbackSteps,
                    entry, Pin(plan.target, plan.current), pin, rollbackFailed, lost.pin, lost.flag);
      }
      SetDeployGate(false);
    }

    /** One whole deployment.

        It goes forward up to some moment and backward from there on, and forward to the
        end unless it rolled something back. Going forward, the touched list is a prefix
        of the plan, at most the one copy after it can be at the target version besides,
        and no more than Radius() copies are unproven (see BlastRadius). At the end the
        status determines the copies and the pin, unless the last write of the pin met an
        error; after a revert the pin is restored exactly when some dispatch had gone
        through. */
    method Deploy(plan: Plan) returns (r: Outcome, ghost turn: nat)
      requires plan.Valid()
      modifies this
      ensures inFlight == old(inFlight)
      ensures r == InFlight <==> plan.service in old(inFlight)
      ensures r == InFlight ==> copies == old(copies) && pin == old(pin) && touched == old(touched) && gate == old(gate)
      ensures r.Finished? ==>
                && Turns(plan, old(copies), old(trace), trace, turn) && Contained(plan, old(copies), Now(), true)
                && (NoRollback(r.status, touched) ==> turn == |trace| && Forward(plan, old(copies), Now()))
                && (!gate || lost.gate)
                && |touched| == AdvanceTo(plan, old(copies).Keys, fates, old(tick) + 2).touched
                && r.status.state == FinalState(plan, old(copies).Keys, fates, old(tick) + 2)
                && (touched == [] <==> NothingLands(plan, fates, old(copies).Keys, old(tick) + 2))
      ensures r.Finished? && r.status.state == Completed ==> Rolled(plan, Now(), r.status, pin, lost.pin)
      ensures r.Finished? && r.status.state != Completed ==>
                Unwound(plan, plan.strategy.autoRevert, Now(), r.status, rollbackSteps,
                        Pin(plan.target, plan.current), pin, rollbackFailed, lost.pin, lost.flag)
      ensures r.Finished? && r.status.state != Completed && touched == [] ==>
              lost.pin == !FateAt(fates, old(tick)).Done?
      ensures r.Finished? && r.status.state == Reverted && !lost.pin ==>
                (pin == Pin(plan.current, NoVersion) <==> !NothingLands(plan, fates, old(copies).Keys, old(tick) + 2))
    {
      turn := |trace|;
      var claimed := Claim(plan.service);
      if !claimed {
        r := InFlight;
        return;
      }
      NothingLandsExactly(plan, copies.Keys, fates, tick + 2);
      var status;
      status, turn := Launch(plan);
      inFlight := inFlight - {plan.service};
      r := Finished(status);
    }
  }

  /** A deploy completes, with the pin at the target alone, for every plan whose copies have
      their records, whatever becomes of the first pin and gate, if nothing else fails. */
  method FaultlessDeployCompletes(plan: Plan, copies: Copies, fates: seq<Fate>) returns (d: Rollout, r: Outcome)
    requires plan.Valid() && AllWell(fates, 2) && forall n :: n in plan.allocs ==> n in copies
    ensures r.Finished? && r.status.state == Completed && d.touched == plan.allocs
  {
    d := new Rollout(copies, fates);
    FaultlessCompletes(plan, copies.Keys, fates, 2);
    ghost var turn;
    r, turn := d.Deploy(plan);
  }

  /** A revert with nothing dispatched keeps the new pin: for every plan with AutoRevert,
      copies and a version to go back to, when only the first dispatch meets an error. */
  method UntouchedRevertKeepsPin(plan: Plan, copies: Copies) returns (d: Rollout, r: Outcome)
    requires plan.Valid() && plan.strategy.autoRevert && KnownVersion(plan.current) && plan.allocs != []
    ensures r.Finished? && r.status.state == Reverted && d.touched == [] && !d.lost.pin
    ensures d.pin == Pin(plan.target, plan.current) && d.pin != Pin(plan.current, NoVersion)
  {
    d := new Rollout(copies, if plan.strategy.canary > 0 then [Done, Done, Dropped] else [Done, Done, Done, Dropped]);
    ghost var turn;
    r, turn := d.Deploy(plan);
  }
}
