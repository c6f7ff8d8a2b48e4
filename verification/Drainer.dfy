/**
 * Draining one node: every copy on it is either migrated (a replacement must run elsewhere before the
 * copy is stopped) or dismantled in place, all concurrently. Goroutines are tasks that move one step at
 * a time in any order; agents, the controller and other writers change the allocation records freely
 * between any two steps. Waits are watches over the history of those records.
 */
module Drainer {
  import opened Wrappers
  import Placement
  import Reconcile

  type AllocStatus = Reconcile.AllocStatus

  datatype Place = Place(svc: string, node: string)

  type Kv = map<Place, AllocStatus>

  datatype Job = Job(svc: string, system: bool)

  // ----- the counters the API shows -----

  datatype Phase = Draining | Drained | Stuck

  datatype Status = Status(phase: Phase, total: nat, migrated: nat, remaining: int, errors: seq<string>)

  function Bumped(st: Status, total: nat): Status {
    st.(migrated := st.migrated + 1, remaining := total - (st.migrated + 1))
  }

  function Completed(st: Status): Status {
    st.(phase := if |st.errors| > 0 then Stuck else Drained, remaining := 0)
  }

  /** drainOp with the mutex held around each update. */
  class DrainOp {
    var status: Status

    constructor (total: nat)
      ensures status == Status(if total == 0 then Drained else Draining, total, 0, total, [])
    {
      status := Status(if total == 0 then Drained else Draining, total, 0, total, []);
    }

    method BumpMigrated(total: nat)
      modifies this
      ensures status == Bumped(old(status), total)
    {
      status := status.(migrated := status.migrated + 1);
      status := status.(remaining := total - status.migrated);
    }

    method RecordError(name: string)
      modifies this
      ensures status == old(status).(errors := old(status).errors + [name])
    {
      status := status.(errors := status.errors + [name]);
    }

    method CompleteNodeDrain()
      modifies this
      ensures status == Completed(old(status))
    {
      var stuck := |status.errors| > 0;
      status := status.(phase := if stuck then Stuck else Drained);
      status := status.(remaining := 0);
    }
  }

  // ----- one allocation's way through the drain -----

  datatype End = Migrated | FellBack | Abandoned | Skipped

  /**
   * How a migration made room for the replacement, and the index of the record history that its own
   * write appended: a pending copy put on a target, or the local record released to the controller.
   */
  datatype Made = Placed(target: string, since: nat) | Released(since: nat)

  datatype Pc =
    | Queued
    | Placing
    | Watching(made: Made)
    | Healthy(made: Made)
    | Stopping(made: Made)
    | Confirming(since: nat)
    | Tidying
    | Counting
    | Finished(end: End)

  /**
   * `hasty` and `blind` record that the health watch or the stop watch was closed underneath the task,
   * `stopAt` and `tidyAt` how long the record history was when Stop was sent and when tidying up began.
   */
  datatype Task = Task(job: Job, pc: Pc, hasty: bool, blind: bool, stopAt: nat, tidyAt: nat)

  /** A Stop command, with the length of the record history when it was sent and what went before it. */
  datatype Stop = Stop(task: nat, at: nat, made: Option<Made>)

  datatype Drain = Drain(
    node: string, peer: bool, tasks: seq<Task>, sem: int, hist: seq<Kv>, stops: seq<Stop>,
    status: Status, cancelled: bool)

  const MAX_CONCURRENT_MIGRATIONS := 4

  /** System copies, and every copy when no other node is ready, are stopped where they are. */
  predicate InPlace(s: Drain, j: nat)
    requires j < |s.tasks|
  {
    s.tasks[j].job.system || !s.peer
  }

  predicate RunsAt(kv: Kv, svc: string, node: string) {
    Place(svc, node) in kv && kv[Place(svc, node)] == Reconcile.Running
  }

  predicate DownAt(kv: Kv, svc: string, node: string) {
    Place(svc, node) in kv ==>
      kv[Place(svc, node)] == Reconcile.Stopped || kv[Place(svc, node)] == Reconcile.Failed
  }

  datatype Step =
    | Acquire(j: nat)
    | Skip(j: nat)
    | PlaceOn(j: nat, target: string)
    | FallBack(j: nat)
    | PlaceFails(j: nat)
    | SeesTarget(j: nat, m: nat)
    | SeesAny(j: nat, m: nat, other: string)
    | HealthWatchCloses(j: nat)
    | WaitFails(j: nat)
    | SendStop(j: nat)
    | Bump(j: nat)
    | SeesDown(j: nat, m: nat)
    | StopWatchCloses(j: nat)
    | ConfirmFails(j: nat)
    | Tidy(j: nat, deleted: bool)
    | Others(kv: Kv)
    | Cancel
    | Complete

  predicate Global(step: Step) {
    step.Others? || step.Cancel? || step.Complete?
  }

  predicate Enabled(s: Drain, step: Step) {
    if Global(step) then
      step.Complete? ==>
        !s.cancelled && s.status.phase == Draining && forall j :: 0 <= j < |s.tasks| ==> s.tasks[j].pc.Finished?
    else
      step.j < |s.tasks| && Ready(s, step, s.tasks[step.j])
  }

  predicate Ready(s: Drain, step: Step, t: Task)
    requires !Global(step) && step.j < |s.tasks|
  {
    var pc := t.pc;
    match step
    case Acquire(j) => pc.Queued? && !InPlace(s, j) && s.sem < MAX_CONCURRENT_MIGRATIONS
    case Skip(j) => pc.Queued? && !InPlace(s, j) && s.cancelled
    case PlaceOn(_, target) => pc.Placing? && target != s.node
    case FallBack(_) => pc.Placing?
    case PlaceFails(_) => pc.Placing?
    case SeesTarget(_, m) =>
      pc.Watching? && pc.made.Placed? && pc.made.since <= m < |s.hist| && RunsAt(s.hist[m], t.job.svc, pc.made.target)
    case SeesAny(_, m, other) =>
      && pc.Watching? && pc.made.Released? && pc.made.since <= m < |s.hist|
      && other != s.node && RunsAt(s.hist[m], t.job.svc, other)
    case HealthWatchCloses(_) => pc.Watching? && pc.made.Placed?
    case WaitFails(_) => pc.Watching?
    case SendStop(j) => pc.Healthy? || (pc.Queued? && InPlace(s, j))
    case Bump(_) => pc.Stopping? || pc.Counting?
    case SeesDown(_, m) => pc.Confirming? && pc.since <= m < |s.hist| && DownAt(s.hist[m], t.job.svc, s.node)
    case StopWatchCloses(_) => pc.Confirming?
    case ConfirmFails(_) => pc.Confirming?
    case Tidy(_, _) => pc.Tidying?
  }

  /** What one task step does: to its task, the records, the counters, the semaphore and the agent. */
  datatype Effect = Effect(pc: Pc, hasty: bool, blind: bool, write: Option<Kv>, error: bool, bump: bool, stop: bool,
      tidy: bool, sem: int)

  function To(pc: Pc): Effect {
    Effect(pc, false, false, None, false, false, false, false, 0)
  }

  function EffectOf(s: Drain, step: Step): Effect
    requires !Global(step) && Enabled(s, step) && |s.hist| > 0
  {
    var t, kv, now := s.tasks[step.j], s.hist[|s.hist| - 1], |s.hist|;
    var here := Place(t.job.svc, s.node);
    match step
    case Acquire(_) => To(Placing).(sem := 1)
    case Skip(_) => To(Finished(Skipped))
    case PlaceOn(_, target) =>
      To(Watching(Placed(target, now))).(write := Some(kv[Place(t.job.svc, target) := Reconcile.Pending]))
    case FallBack(_) => To(Watching(Released(now))).(write := Some(kv - {here}))
    case PlaceFails(_) => To(Finished(Abandoned)).(error := true, sem := -1)
    case SeesTarget(_, _) => To(Healthy(t.pc.made))
    case SeesAny(_, _, _) => To(Healthy(t.pc.made))
    case HealthWatchCloses(_) => To(Healthy(t.pc.made)).(hasty := true)
    case WaitFails(_) => To(Finished(Abandoned)).(error := true, sem := -1)
    case SendStop(j) => To(if t.pc.Healthy? then Stopping(t.pc.made) else Confirming(now - 1)).(stop := true)
    case Bump(_) =>
      if t.pc.Counting? then To(Finished(Migrated)).(bump := true)
      else if t.pc.made.Released? then To(Finished(FellBack)).(bump := true, sem := -1)
      else To(Confirming(now - 1)).(bump := true)
    case SeesDown(_, _) => To(Tidying)
    case StopWatchCloses(_) => To(Tidying).(blind := true)
    case ConfirmFails(_) => To(Tidying).(error := true)
    case Tidy(j, deleted) =>
      (if InPlace(s, j) then To(Counting) else To(Finished(Migrated)).(sem := -1))
        .(tidy := true, write := if deleted then Some(kv - {here}) else None)
  }

  function Perform(s: Drain, j: nat, e: Effect): Drain
    requires j < |s.tasks|
  {
    var t := s.tasks[j];
    var st := if e.error then s.status.(errors := s.status.errors + [t.job.svc]) else s.status;
    var now := |s.hist|;
    s.(tasks := s.tasks[j := t.(pc := e.pc, hasty := t.hasty || e.hasty, blind := t.blind || e.blind,
                                stopAt := if e.stop then now else t.stopAt,
                                tidyAt := if e.tidy then now else t.tidyAt)],
       sem := s.sem + e.sem,
       hist := if e.write.Some? then s.hist + [e.write.value] else s.hist,
       stops := if e.stop then s.stops + [Stop(j, now, if t.pc.Healthy? then Some(t.pc.made) else None)] else s.stops,
       status := if e.bump then Bumped(st, |s.tasks|) else st)
  }

  function Apply(s: Drain, step: Step): Drain
    requires Enabled(s, step) && |s.hist| > 0
  {
    match step
    case Others(kv) => s.(hist := s.hist + [kv])
    case Cancel => s.(cancelled := true)
    case Complete => s.(status := Completed(s.status))
    case _ => Perform(s, step.j, EffectOf(s, step))
  }

  ghost predicate IsStart(s: Drain) {
    && |s.hist| > 0 && s.sem == 0 && s.stops == [] && !s.cancelled
    && (forall j :: 0 <= j < |s.tasks| ==> s.tasks[j].pc.Queued? && !s.tasks[j].hasty && !s.tasks[j].blind)
    && s.status == Status(if s.tasks == [] then Drained else Draining, |s.tasks|, 0, |s.tasks|, [])
  }

  ghost predicate Moves(s: Drain, t: Drain) {
    |s.hist| > 0 && exists step :: Enabled(s, step) && t == Apply(s, step)
  }

  ghost predicate IsRun(run: seq<Drain>) {
    && |run| > 0 && IsStart(run[0])
    && forall k :: 0 <= k < |run| - 1 ==> Moves(run[k], run[k + 1])
  }

  // ----- the invariant -----

  predicate Holds(pc: Pc) {
    pc.Placing? || pc.Watching? || pc.Healthy? || pc.Stopping?
  }

  /** The task has a semaphore slot. */
  predicate Holding(inPlace: bool, pc: Pc) {
    Holds(pc) || (!inPlace && (pc.Confirming? || pc.Tidying?))
  }

  predicate Counted(inPlace: bool, pc: Pc) {
    || (pc.Finished? && (pc.end == Migrated || pc.end == FellBack))
    || (!inPlace && (pc.Confirming? || pc.Tidying?))
  }

  predicate WasStopped(pc: Pc) {
    || pc.Stopping? || pc.Confirming? || pc.Tidying? || pc.Counting?
    || (pc.Finished? && (pc.end == Migrated || pc.end == FellBack))
  }

  function One(b: bool): nat {
    if b then 1 else 0
  }

  ghost function Count(tasks: seq<Task>, f: Task -> bool): nat {
    if tasks == [] then 0 else Count(tasks[..|tasks| - 1], f) + One(f(tasks[|tasks| - 1]))
  }

  lemma {:induction false} CountUpdate(tasks: seq<Task>, f: Task -> bool, j: nat, t: Task)
    requires j < |tasks|
    ensures Count(tasks[j := t], f) + One(f(tasks[j])) == Count(tasks, f) + One(f(t))
  {
    var now := tasks[j := t];
    if j < |tasks| - 1 {
      CountUpdate(tasks[..|tasks| - 1], f, j, t);
      assert now[..|now| - 1] == tasks[..|tasks| - 1][j := t];
    } else {
      assert now[..|now| - 1] == tasks[..|tasks| - 1];
    }
  }

  lemma {:induction false} CountAll(tasks: seq<Task>, f: Task -> bool)
    ensures Count(tasks, f) <= |tasks|
    ensures Count(tasks, f) == |tasks| <==> forall j :: 0 <= j < |tasks| ==> f(tasks[j])
    ensures Count(tasks, f) == 0 <==> forall j :: 0 <= j < |tasks| ==> !f(tasks[j])
  {
    if tasks != [] {
      var front := tasks[..|tasks| - 1];
      CountAll(front, f);
      assert forall j :: 0 <= j < |front| ==> front[j] == tasks[j];
    }
  }

  function HoldingOf(peer: bool): Task -> bool {
    (t: Task) => Holding(t.job.system || !peer, t.pc)
  }

  function CountedOf(peer: bool): Task -> bool {
    (t: Task) => Counted(t.job.system || !peer, t.pc)
  }

  function StoppedOf(): Task -> bool {
    (t: Task) => WasStopped(t.pc)
  }

  /** The write that made room is in the history: the pending copy on another node, or the released record. */
  ghost predicate MadeAt(hist: seq<Kv>, svc: string, node: string, made: Made) {
    && made.since < |hist|
    && match made
       case Placed(target, since) =>
         target != node && Place(svc, target) in hist[since] && hist[since][Place(svc, target)] == Reconcile.Pending
       case Released(since) => Place(svc, node) !in hist[since]
  }

  /**
   * After room was made and before the given moment a copy of the service ran in its place: on the very
   * target where it had been put as pending, or on any other node once the local record was released.
   */
  ghost predicate Replaced(hist: seq<Kv>, before: nat, svc: string, node: string, made: Made) {
    exists m, other :: made.since <= m < before && m < |hist| && other != node && RunsAt(hist[m], svc, other)
                       && (made.Placed? ==> made.since < m && other == made.target)
  }

  /** From the Stop on, and before the given moment, the copy's record was down or gone. */
  ghost predicate SeenDown(hist: seq<Kv>, stopAt: nat, before: nat, svc: string, node: string) {
    exists m :: stopAt - 1 <= m < before && 0 <= m < |hist| && DownAt(hist[m], svc, node)
  }

  ghost predicate TaskOk(node: string, peer: bool, hist: seq<Kv>, errors: seq<string>, cancelled: bool, t: Task) {
    var inPlace := t.job.system || !peer;
    match t.pc
    case Queued => true
    case Placing => !inPlace
    case Watching(made) => !inPlace && MadeAt(hist, t.job.svc, node, made)
    case Healthy(made) =>
      && !inPlace && MadeAt(hist, t.job.svc, node, made)
      && (t.hasty || Replaced(hist, |hist|, t.job.svc, node, made))
    case Stopping(_) => !inPlace && 1 <= t.stopAt <= |hist|
    case Confirming(since) => 1 <= t.stopAt <= since + 1 <= |hist|
    case Tidying => 1 <= t.stopAt && Settled(node, hist, errors, |hist|, t)
    case Counting => inPlace && t.tidyAt <= |hist| && Settled(node, hist, errors, t.tidyAt, t)
    case Finished(end) =>
      match end
      case Migrated => t.tidyAt <= |hist| && Settled(node, hist, errors, t.tidyAt, t)
      case FellBack => !inPlace
      case Abandoned => t.job.svc in errors
      case Skipped => cancelled
  }

  /** The copy was seen down in time, or the failure to see it is on record, or the stop watch was closed. */
  ghost predicate Settled(node: string, hist: seq<Kv>, errors: seq<string>, before: nat, t: Task) {
    t.blind || t.job.svc in errors || SeenDown(hist, t.stopAt, before, t.job.svc, node)
  }

  /** What was true when a Stop was sent to a copy that is not dismantled in place. */
  ghost predicate StopDue(hist: seq<Kv>, at: nat, made: Option<Made>, node: string, t: Task) {
    && made.Some? && made.value.since < at && MadeAt(hist, t.job.svc, node, made.value)
    && (t.hasty || Replaced(hist, at, t.job.svc, node, made.value))
  }

  ghost predicate StopOk(s: Drain, a: nat)
    requires a < |s.stops|
  {
    var stop := s.stops[a];
    && stop.task < |s.tasks| && WasStopped(s.tasks[stop.task].pc)
    && s.tasks[stop.task].stopAt == stop.at <= |s.hist|
    && (InPlace(s, stop.task) || StopDue(s.hist, stop.at, stop.made, s.node, s.tasks[stop.task]))
  }

  ghost predicate Tallies(s: Drain) {
    && s.sem == Count(s.tasks, HoldingOf(s.peer)) <= MAX_CONCURRENT_MIGRATIONS
    && s.status.migrated == Count(s.tasks, CountedOf(s.peer))
    && |s.stops| == Count(s.tasks, StoppedOf())
    && s.status.total == |s.tasks|
    && (s.status.phase == Draining ==> s.status.migrated + s.status.remaining == s.status.total)
  }

  ghost predicate Concluded(s: Drain) {
    s.status.phase != Draining ==>
      && s.status.remaining == 0
      && (forall j :: 0 <= j < |s.tasks| ==> s.tasks[j].pc.Finished? && s.tasks[j].pc.end != Skipped)
      && (s.status.phase == Drained <==> s.status.errors == [])
  }

  ghost predicate Inv(s: Drain) {
    && |s.hist| > 0
    && Tallies(s)
    && Concluded(s)
    && (forall j :: 0 <= j < |s.tasks| ==> TaskOk(s.node, s.peer, s.hist, s.status.errors, s.cancelled, s.tasks[j]))
    && (forall a :: 0 <= a < |s.stops| ==> StopOk(s, a))
    && (forall a, b :: 0 <= a < b < |s.stops| ==> s.stops[a].task != s.stops[b].task)
  }

  // ----- every step keeps it -----

  ghost predicate Grows(h: seq<Kv>, h': seq<Kv>) {
    |h| <= |h'| && forall m :: 0 <= m < |h| ==> h'[m] == h[m]
  }

  ghost predicate Keeps(e: seq<string>, e': seq<string>) {
    forall x :: x in e ==> x in e'
  }

  lemma ReplacedKeeps(h: seq<Kv>, h': seq<Kv>, before: nat, before': nat, svc: string, node: string, made: Made)
    requires Grows(h, h') && before <= before' && Replaced(h, before, svc, node, made)
    ensures Replaced(h', before', svc, node, made)
  {
  }

  lemma DownKeeps(h: seq<Kv>, h': seq<Kv>, stopAt: nat, before: nat, before': nat, svc: string, node: string)
    requires Grows(h, h') && before <= before' && SeenDown(h, stopAt, before, svc, node)
    ensures SeenDown(h', stopAt, before', svc, node)
  {
  }

  /** More history, more errors and a cancel take nothing away from a task. */
  lemma TaskKeeps(node: string, peer: bool, h: seq<Kv>, e: seq<string>, c: bool, h': seq<Kv>, e': seq<string>,
      c': bool, t: Task)
    requires TaskOk(node, peer, h, e, c, t) && Grows(h, h') && Keeps(e, e') && (c ==> c')
    ensures TaskOk(node, peer, h', e', c', t)
  {
  }

  /** What a task step must satisfy on its own for the whole drain to stay in order. */
  ghost predicate EffectOk(s: Drain, j: nat, e: Effect)
    requires j < |s.tasks|
  {
    var pc, inPlace := s.tasks[j].pc, InPlace(s, j);
    var t := Perform(s, j, e);
    && !pc.Finished?
    && e.sem == One(Holding(inPlace, e.pc)) - One(Holding(inPlace, pc))
    && s.sem + e.sem <= MAX_CONCURRENT_MIGRATIONS
    && One(e.bump) == One(Counted(inPlace, e.pc)) - One(Counted(inPlace, pc))
    && One(e.stop) == One(WasStopped(e.pc)) - One(WasStopped(pc))
    && (e.stop ==> inPlace || (pc.Healthy? && StopDue(s.hist, |s.hist|, Some(pc.made), s.node, s.tasks[j])))
    && TaskOk(s.node, s.peer, t.hist, t.status.errors, s.cancelled, t.tasks[j])
  }

  lemma {:induction false} PerformTallies(s: Drain, j: nat, e: Effect)
    requires Tallies(s) && j < |s.tasks| && EffectOk(s, j, e)
    ensures Tallies(Perform(s, j, e))
  {
    var t := Perform(s, j, e).tasks[j];
    CountUpdate(s.tasks, HoldingOf(s.peer), j, t);
    CountUpdate(s.tasks, CountedOf(s.peer), j, t);
    CountUpdate(s.tasks, StoppedOf(), j, t);
  }

  lemma {:induction false} PerformTasks(s: Drain, j: nat, e: Effect)
    requires Inv(s) && j < |s.tasks| && EffectOk(s, j, e)
    ensures var t := Perform(s, j, e);
            forall i :: 0 <= i < |t.tasks| ==> TaskOk(t.node, t.peer, t.hist, t.status.errors, t.cancelled, t.tasks[i])
  {
    var t := Perform(s, j, e);
    forall i | 0 <= i < |t.tasks|
      ensures TaskOk(t.node, t.peer, t.hist, t.status.errors, t.cancelled, t.tasks[i])
    {
      if i != j {
        TaskKeeps(s.node, s.peer, s.hist, s.status.errors, s.cancelled, t.hist, t.status.errors, t.cancelled,
            s.tasks[i]);
      }
    }
  }

  lemma {:induction false} StopKeeps(s: Drain, t: Drain, a: nat)
    requires a < |s.stops| <= |t.stops| && t.stops[a] == s.stops[a] && StopOk(s, a)
    requires t.node == s.node && t.peer == s.peer && Grows(s.hist, t.hist) && |t.tasks| == |s.tasks|
    requires var i := s.stops[a].task;
             && t.tasks[i].job == s.tasks[i].job && (s.tasks[i].hasty ==> t.tasks[i].hasty)
             && WasStopped(t.tasks[i].pc) && t.tasks[i].stopAt == s.tasks[i].stopAt
    ensures StopOk(t, a)
  {
  }

  lemma {:induction false} PerformStops(s: Drain, j: nat, e: Effect)
    requires Inv(s) && j < |s.tasks| && EffectOk(s, j, e)
    ensures var t := Perform(s, j, e);
            && (forall a :: 0 <= a < |t.stops| ==> StopOk(t, a))
            && (forall a, b :: 0 <= a < b < |t.stops| ==> t.stops[a].task != t.stops[b].task)
  {
    var t := Perform(s, j, e);
    forall a | 0 <= a < |t.stops| ensures StopOk(t, a) {
      if a < |s.stops| {
        assert StopOk(s, a);
        StopKeeps(s, t, a);
      } else if !InPlace(s, j) && !s.tasks[j].hasty {
        ReplacedKeeps(s.hist, t.hist, |s.hist|, |s.hist|, s.tasks[j].job.svc, s.node, s.tasks[j].pc.made);
      }
    }
    assert forall a :: 0 <= a < |s.stops| && e.stop ==> StopOk(s, a) && s.stops[a].task != j;
  }

  lemma {:induction false} PerformInv(s: Drain, j: nat, e: Effect)
    requires Inv(s) && j < |s.tasks| && EffectOk(s, j, e)
    ensures Inv(Perform(s, j, e))
  {
    PerformTallies(s, j, e);
    PerformTasks(s, j, e);
    PerformStops(s, j, e);
  }

  /** The part of the invariant a task's own step rests on. */
  ghost predicate TaskReady(s: Drain, j: nat) {
    && |s.hist| > 0 && s.sem <= MAX_CONCURRENT_MIGRATIONS && j < |s.tasks|
    && TaskOk(s.node, s.peer, s.hist, s.status.errors, s.cancelled, s.tasks[j])
  }

  lemma {:induction false} HealthySteps(s: Drain, step: Step)
    requires !Global(step) && Enabled(s, step) && (step.SeesTarget? || step.SeesAny?)
    requires TaskReady(s, step.j)
    ensures EffectOk(s, step.j, EffectOf(s, step))
  {
  }

  lemma {:induction false} TidyKeeps(s: Drain, step: Step)
    requires Enabled(s, step) && step.Tidy?
    requires TaskReady(s, step.j)
    ensures EffectOk(s, step.j, EffectOf(s, step))
  {
    var t, h := s.tasks[step.j], Perform(s, step.j, EffectOf(s, step)).hist;
    if SeenDown(s.hist, t.stopAt, |s.hist|, t.job.svc, s.node) {
      DownKeeps(s.hist, h, t.stopAt, |s.hist|, |s.hist|, t.job.svc, s.node);
    }
  }

  lemma {:induction false} PlacingSteps(s: Drain, step: Step)
    requires Enabled(s, step)
    requires step.Acquire? || step.Skip? || step.PlaceOn? || step.FallBack? || step.HealthWatchCloses?
    requires TaskReady(s, step.j)
    ensures EffectOk(s, step.j, EffectOf(s, step))
  {
  }

  lemma {:induction false} FailingSteps(s: Drain, step: Step)
    requires Enabled(s, step) && (step.PlaceFails? || step.WaitFails? || step.ConfirmFails?)
    requires TaskReady(s, step.j)
    ensures EffectOk(s, step.j, EffectOf(s, step))
  {
  }

  lemma {:induction false} StoppingSteps(s: Drain, step: Step)
    requires Enabled(s, step) && (step.SendStop? || step.Bump?)
    requires TaskReady(s, step.j)
    ensures EffectOk(s, step.j, EffectOf(s, step))
  {
  }

  lemma {:induction false} DownSteps(s: Drain, step: Step)
    requires Enabled(s, step) && (step.SeesDown? || step.StopWatchCloses?)
    requires TaskReady(s, step.j)
    ensures EffectOk(s, step.j, EffectOf(s, step))
  {
    assert step.SeesDown? ==> DownAt(s.hist[step.m], s.tasks[step.j].job.svc, s.node);
  }

  lemma {:induction false} StepEffect(s: Drain, step: Step)
    requires Inv(s) && !Global(step) && Enabled(s, step)
    ensures EffectOk(s, step.j, EffectOf(s, step))
  {
    assert TaskReady(s, step.j);
    if step.SeesTarget? || step.SeesAny? {
      HealthySteps(s, step);
    } else if step.Acquire? || step.Skip? || step.PlaceOn? || step.FallBack? || step.HealthWatchCloses? {
      PlacingSteps(s, step);
    } else if step.PlaceFails? || step.WaitFails? || step.ConfirmFails? {
      FailingSteps(s, step);
    } else if step.SendStop? || step.Bump? {
      StoppingSteps(s, step);
    } else if step.SeesDown? || step.StopWatchCloses? {
      DownSteps(s, step);
    } else {
      TidyKeeps(s, step);
    }
  }

  lemma {:induction false} GlobalTasks(s: Drain, step: Step)
    requires Inv(s) && Global(step) && Enabled(s, step)
    ensures var t := Apply(s, step);
            && (forall i :: 0 <= i < |t.tasks| ==>
                TaskOk(t.node, t.peer, t.hist, t.status.errors, t.cancelled, t.tasks[i]))
            && (forall a :: 0 <= a < |t.stops| ==> StopOk(t, a))
  {
    var t := Apply(s, step);
    forall i | 0 <= i < |t.tasks|
      ensures TaskOk(t.node, t.peer, t.hist, t.status.errors, t.cancelled, t.tasks[i])
    {
      TaskKeeps(s.node, s.peer, s.hist, s.status.errors, s.cancelled, t.hist, t.status.errors, t.cancelled, s.tasks[i]);
    }
    forall a | 0 <= a < |t.stops| ensures StopOk(t, a) {
      assert StopOk(s, a);
      StopKeeps(s, t, a);
    }
  }

  lemma {:induction false} GlobalInv(s: Drain, step: Step)
    requires Inv(s) && Global(step) && Enabled(s, step)
    ensures Inv(Apply(s, step))
  {
    GlobalTasks(s, step);
    if step.Complete? {
      assert forall j :: 0 <= j < |s.tasks| ==>
               TaskOk(s.node, s.peer, s.hist, s.status.errors, s.cancelled, s.tasks[j]);
    }
  }

  lemma {:induction false} RunInv(run: seq<Drain>, k: nat)
    requires IsRun(run) && k < |run|
    ensures Inv(run[k])
  {
    if k == 0 {
      CountAll(run[0].tasks, HoldingOf(run[0].peer));
      CountAll(run[0].tasks, CountedOf(run[0].peer));
      CountAll(run[0].tasks, StoppedOf());
    } else {
      RunInv(run, k - 1);
      assert Moves(run[k - 1], run[k - 1 + 1]);
      var step :| Enabled(run[k - 1], step) && run[k] == Apply(run[k - 1], step);
      if Global(step) {
        GlobalInv(run[k - 1], step);
      } else {
        StepEffect(run[k - 1], step);
        PerformInv(run[k - 1], step.j, EffectOf(run[k - 1], step));
      }
    }
  }

  // ----- what a drain promises, in every state of every run -----

  /**
   * Make before break: a copy migrated off the node is sent Stop once at most. Before that the drain put a
   * pending copy on a target and then saw it running there, or released the record and then saw a copy
   * running elsewhere, unless the health watch on the target was closed underneath the wait.
   */
  lemma {:induction false} MakeBeforeBreak(run: seq<Drain>, k: nat, a: nat)
    requires IsRun(run) && k < |run| && a < |run[k].stops|
    ensures var s := run[k];
            var stop := s.stops[a];
            && stop.task < |s.tasks|
            && (!InPlace(s, stop.task) ==>
                  var t := s.tasks[stop.task];
                  && stop.made.Some? && stop.made.value.since < stop.at <= |s.hist|
                  && MadeAt(s.hist, t.job.svc, s.node, stop.made.value)
                  && (t.hasty || Replaced(s.hist, stop.at, t.job.svc, s.node, stop.made.value)))
            && forall b :: 0 <= b < |s.stops| && s.stops[b].task == stop.task ==> b == a
  {
    RunInv(run, k);
    assert StopOk(run[k], a);
  }

  /** At most four migrations are between taking and returning a slot, and with fewer the next may start. */
  lemma {:induction false} AtMostFourMigrate(run: seq<Drain>, k: nat)
    requires IsRun(run) && k < |run|
    ensures Count(run[k].tasks, HoldingOf(run[k].peer)) <= 4
    ensures forall j :: 0 <= j < |run[k].tasks| && run[k].tasks[j].pc.Queued? && !InPlace(run[k], j) ==>
              (Enabled(run[k], Acquire(j)) <==> Count(run[k].tasks, HoldingOf(run[k].peer)) < 4)
  {
    RunInv(run, k);
  }

  /** The counters add up while the drain runs, and Migrated counts distinct tasks whose copy was sent Stop. */
  lemma {:induction false} CountersAddUp(run: seq<Drain>, k: nat)
    requires IsRun(run) && k < |run|
    ensures var s := run[k];
            && s.status.migrated <= |s.stops| <= s.status.total == |s.tasks|
            && (s.status.phase == Draining ==> s.status.migrated + s.status.remaining == s.status.total)
  {
    RunInv(run, k);
    CountAll(run[k].tasks, StoppedOf());
    CountLess(run[k].tasks, CountedOf(run[k].peer), StoppedOf());
  }

  lemma {:induction false} CountLess(tasks: seq<Task>, f: Task -> bool, g: Task -> bool)
    requires forall t :: f(t) ==> g(t)
    ensures Count(tasks, f) <= Count(tasks, g)
  {
    if tasks != [] {
      CountLess(tasks[..|tasks| - 1], f, g);
    }
  }

  /**
   * The task ended as migrated or fallen back. A migrated copy's record was down or gone at some moment from
   * its Stop on and before the drain itself tidied up, unless its stop watch closed.
   */
  ghost predicate Cleared(s: Drain, j: nat)
    requires j < |s.tasks|
  {
    var t := s.tasks[j];
    && t.pc.Finished?
    && (t.pc.end == FellBack
        || (t.pc.end == Migrated && t.tidyAt <= |s.hist|
            && (t.blind || SeenDown(s.hist, t.stopAt, t.tidyAt, t.job.svc, s.node))))
  }

  /** Status drained: nothing was lost, skipped or failed, and every copy was sent exactly one Stop. */
  lemma {:induction false} DrainedMeansAll(run: seq<Drain>, k: nat)
    requires IsRun(run) && k < |run| && run[k].status.phase == Drained
    ensures var s := run[k];
            && s.status.errors == [] && s.status.migrated == s.status.total == |s.tasks| == |s.stops|
            && (forall j :: 0 <= j < |s.tasks| ==> Cleared(s, j))
            && (forall a :: 0 <= a < |s.stops| ==>
                  s.stops[a].task < |s.tasks| && s.tasks[s.stops[a].task].stopAt == s.stops[a].at)
  {
    RunInv(run, k);
    var s := run[k];
    forall j | 0 <= j < |s.tasks| ensures Cleared(s, j) && CountedOf(s.peer)(s.tasks[j]) && StoppedOf()(s.tasks[j]) {
      assert TaskOk(s.node, s.peer, s.hist, s.status.errors, s.cancelled, s.tasks[j]);
    }
    CountAll(s.tasks, CountedOf(s.peer));
    CountAll(s.tasks, StoppedOf());
    forall a | 0 <= a < |s.stops|
      ensures s.stops[a].task < |s.tasks| && s.tasks[s.stops[a].task].stopAt == s.stops[a].at
    {
      assert StopOk(s, a);
    }
  }

  /** Status stuck: exactly the drains that completed with an error on record. */
  lemma {:induction false} StuckMeansErrors(run: seq<Drain>, k: nat)
    requires IsRun(run) && k < |run| && run[k].status.phase != Draining
    ensures run[k].status.phase == Stuck <==> run[k].status.errors != []
    ensures forall j :: 0 <= j < |run[k].tasks| ==>
              run[k].tasks[j].pc.Finished?
              && (run[k].tasks[j].pc.end == Abandoned ==> run[k].tasks[j].job.svc in run[k].status.errors)
  {
    RunInv(run, k);
    var s := run[k];
    assert forall j :: 0 <= j < |s.tasks| ==> TaskOk(s.node, s.peer, s.hist, s.status.errors, s.cancelled, s.tasks[j]);
  }

  lemma Extend(run: seq<Drain>, step: Step) returns (next: seq<Drain>)
    requires IsRun(run) && |run[|run| - 1].hist| > 0 && Enabled(run[|run| - 1], step)
    ensures IsRun(next) && run <= next && next[|next| - 1] == Apply(run[|run| - 1], step)
  {
    next := run + [Apply(run[|run| - 1], step)];
    forall k | 0 <= k < |next| - 1 ensures Moves(next[k], next[k + 1]) {
      if k < |run| - 1 {
        assert Moves(run[k], run[k + 1]);
      }
    }
  }

  /** A drain of one regular copy that has just placed its replacement. */
  function JustPlaced(svc: string, node: string, other: string): Drain {
    Drain(node, true, [Task(Job(svc, false), Watching(Placed(other, 1)), false, false, 0, 0)], 1,
          [map[], map[Place(svc, other) := Reconcile.Pending]], [], Status(Draining, 1, 0, 1, []), false)
  }

  lemma ReachPlaced(svc: string, node: string, other: string) returns (run: seq<Drain>)
    requires other != node
    ensures IsRun(run) && run[|run| - 1] == JustPlaced(svc, node, other)
  {
    var job, st := Job(svc, false), Status(Draining, 1, 0, 1, []);
    run := [Drain(node, true, [Task(job, Queued, false, false, 0, 0)], 0, [map[]], [], st, false)];
    run := Extend(run, Acquire(0));
    assert run[|run| - 1] == Drain(node, true, [Task(job, Placing, false, false, 0, 0)], 1, [map[]], [], st, false);
    run := Extend(run, PlaceOn(0, other));
  }

  /** The exception is real: a closed watch lets Stop go out with no copy running anywhere. */
  lemma ClosedWatchBreaks(svc: string, node: string, other: string) returns (run: seq<Drain>)
    requires other != node
    ensures IsRun(run)
    ensures var s := run[|run| - 1];
            && |s.stops| == 1 && s.stops[0].task == 0 && |s.tasks| == 1 && !InPlace(s, 0)
            && forall m, n :: 0 <= m < |s.hist| ==> !RunsAt(s.hist[m], svc, n)
  {
    run := ReachPlaced(svc, node, other);
    run := Extend(run, HealthWatchCloses(0));
    run := Extend(run, SendStop(0));
    var s := run[|run| - 1];
    assert s.hist == JustPlaced(svc, node, other).hist;
  }

  // ----- what leads where: runs with their steps -----

  ghost predicate IsRunBy(run: seq<Drain>, steps: seq<Step>) {
    && |run| == |steps| + 1 && IsStart(run[0])
    && forall k :: 0 <= k < |steps| ==>
         |run[k].hist| > 0 && Enabled(run[k], steps[k]) && run[k + 1] == Apply(run[k], steps[k])
  }

  lemma StepsRun(run: seq<Drain>, steps: seq<Step>)
    requires IsRunBy(run, steps)
    ensures IsRun(run)
  {
    forall k | 0 <= k < |run| - 1 ensures Moves(run[k], run[k + 1]) {
      assert Enabled(run[k], steps[k]) && run[k + 1] == Apply(run[k], steps[k]);
    }
  }

  predicate Fails(step: Step) {
    step.PlaceFails? || step.WaitFails? || step.ConfirmFails?
  }

  /** The services whose tasks met a failure in the first k steps, in order. */
  ghost function Blamed(run: seq<Drain>, steps: seq<Step>, k: nat): seq<string>
    requires IsRunBy(run, steps) && k <= |steps|
  {
    if k == 0 then []
    else
      assert Enabled(run[k - 1], steps[k - 1]);
      Blamed(run, steps, k - 1)
      + if Fails(steps[k - 1]) then [run[k - 1].tasks[steps[k - 1].j].job.svc] else []
  }

  /** Errors come from failures and from nothing else: one per failure, in order. */
  lemma {:induction false} ErrorsExactly(run: seq<Drain>, steps: seq<Step>, k: nat)
    requires IsRunBy(run, steps) && k <= |steps|
    ensures run[k].status.errors == Blamed(run, steps, k)
  {
    if k > 0 {
      ErrorsExactly(run, steps, k - 1);
      assert Enabled(run[k - 1], steps[k - 1]) && run[k] == Apply(run[k - 1], steps[k - 1]);
      ErrorStep(run[k - 1], steps[k - 1]);
    }
  }

  lemma ErrorStep(s: Drain, step: Step)
    requires |s.hist| > 0 && Enabled(s, step)
    ensures Apply(s, step).status.errors ==
            s.status.errors + if Fails(step) then [s.tasks[step.j].job.svc] else []
  {
  }

  ghost predicate SomeFailed(steps: seq<Step>, k: nat)
    requires k <= |steps|
  {
    exists i :: 0 <= i < k && Fails(steps[i])
  }

  lemma SomeFailedNext(steps: seq<Step>, k: nat)
    requires k < |steps|
    ensures SomeFailed(steps, k + 1) <==> SomeFailed(steps, k) || Fails(steps[k])
  {
  }

  lemma {:induction false} BlamedExactly(run: seq<Drain>, steps: seq<Step>, k: nat)
    requires IsRunBy(run, steps) && k <= |steps|
    ensures Blamed(run, steps, k) != [] <==> SomeFailed(steps, k)
  {
    if k > 0 {
      BlamedExactly(run, steps, k - 1);
      SomeFailedNext(steps, k - 1);
    }
  }

  /** A drain that has completed is stuck exactly when some step failed, and drained otherwise. */
  lemma {:induction false} StuckExactly(run: seq<Drain>, steps: seq<Step>, k: nat)
    requires IsRunBy(run, steps) && k <= |steps| && run[k].status.phase != Draining
    ensures run[k].status.phase == if SomeFailed(steps, k) then Stuck else Drained
  {
    StepsRun(run, steps);
    StuckMeansErrors(run, k);
    ErrorsExactly(run, steps, k);
    BlamedExactly(run, steps, k);
  }

  /** What each step writes to the records, and that it writes nothing else. */
  lemma HistoryExactly(run: seq<Drain>, steps: seq<Step>, k: nat)
    requires IsRunBy(run, steps) && k < |steps|
    ensures var s, h := run[k], run[k].hist;
            && |h| > 0 && (!Global(steps[k]) ==> steps[k].j < |s.tasks|)
            && match steps[k]
               case PlaceOn(j, target) =>
                 run[k + 1].hist == h + [h[|h| - 1][Place(s.tasks[j].job.svc, target) := Reconcile.Pending]]
               case FallBack(j) => run[k + 1].hist == h + [h[|h| - 1] - {Place(s.tasks[j].job.svc, s.node)}]
               case Tidy(j, deleted) =>
                 run[k + 1].hist == if deleted then h + [h[|h| - 1] - {Place(s.tasks[j].job.svc, s.node)}] else h
               case Others(kv) => run[k + 1].hist == h + [kv]
               case _ => run[k + 1].hist == h
  {
    assert Enabled(run[k], steps[k]) && run[k + 1] == Apply(run[k], steps[k]);
  }

  /** A Stop for the task is on record. */
  ghost predicate HasStop(s: Drain, j: nat) {
    exists a :: 0 <= a < |s.stops| && s.stops[a].task == j
  }

  /** The replacement was seen, and the task is about to send Stop or has sent it. */
  ghost predicate StopsNext(s: Drain, j: nat) {
    && j < |s.tasks|
    && (s.tasks[j].pc.Healthy? || (WasStopped(s.tasks[j].pc) && HasStop(s, j)))
  }

  lemma StopsNextKeeps(s: Drain, step: Step, j: nat)
    requires |s.hist| > 0 && Enabled(s, step) && StopsNext(s, j)
    ensures StopsNext(Apply(s, step), j)
  {
    var t := Apply(s, step);
    if HasStop(s, j) {
      var a :| 0 <= a < |s.stops| && s.stops[a].task == j;
      assert t.stops[a].task == j;
    } else if step.SendStop? && step.j == j {
      assert t.stops[|s.stops|].task == j;
    }
  }

  /**
   * A migration that has seen its replacement run goes on to stop the old copy: whatever happens from then on,
   * sending Stop is the task's next step, or Stop is on record.
   */
  lemma {:induction false} SeenMeansStop(run: seq<Drain>, steps: seq<Step>, k: nat, j: nat, later: nat)
    requires IsRunBy(run, steps) && k < later <= |steps|
    requires (steps[k].SeesTarget? || steps[k].SeesAny?) && steps[k].j == j
    ensures StopsNext(run[later], j)
  {
    SeenNow(run, steps, k);
    StopsNextAlong(run, steps, j);
    Persists(run, j, k + 1, later);
  }

  lemma StopsNextAlong(run: seq<Drain>, steps: seq<Step>, j: nat)
    requires IsRunBy(run, steps)
    ensures forall i :: 0 <= i < |run| - 1 && StopsNext(run[i], j) ==> StopsNext(run[i + 1], j)
  {
    forall i | 0 <= i < |run| - 1 && StopsNext(run[i], j) ensures StopsNext(run[i + 1], j) {
      StopsNextKeeps(run[i], steps[i], j);
    }
  }

  lemma {:induction false} Persists(run: seq<Drain>, j: nat, from: nat, to: nat)
    requires from <= to < |run| && StopsNext(run[from], j)
    requires forall i :: 0 <= i < |run| - 1 && StopsNext(run[i], j) ==> StopsNext(run[i + 1], j)
    ensures StopsNext(run[to], j)
  {
    if from < to {
      Persists(run, j, from, to - 1);
      assert StopsNext(run[to - 1 + 1], j);
    }
  }

  lemma SeenNow(run: seq<Drain>, steps: seq<Step>, k: nat)
    requires IsRunBy(run, steps) && k < |steps| && (steps[k].SeesTarget? || steps[k].SeesAny?)
    ensures StopsNext(run[k + 1], steps[k].j)
  {
    assert Enabled(run[k], steps[k]) && run[k + 1] == Apply(run[k], steps[k]);
  }

  // ----- every drain can be completed -----

  function Rank(pc: Pc): nat {
    match pc
    case Queued => 8
    case Placing => 7
    case Watching(_) => 6
    case Healthy(_) => 5
    case Stopping(_) => 4
    case Confirming(_) => 3
    case Tidying => 2
    case Counting => 1
    case Finished(_) => 0
  }

  /** Only task j has moved; nothing failed, no watch closed, and nobody cancelled. */
  ghost predicate OnlyMoved(s: Drain, t: Drain, j: nat) {
    && t.node == s.node && t.peer == s.peer && t.cancelled == s.cancelled
    && t.status.errors == s.status.errors && t.status.phase == s.status.phase
    && j < |s.tasks| == |t.tasks|
    && (forall i :: 0 <= i < |s.tasks| && i != j ==> t.tasks[i] == s.tasks[i])
    && t.tasks[j].job == s.tasks[j].job && t.tasks[j].hasty == s.tasks[j].hasty && t.tasks[j].blind == s.tasks[j].blind
  }

  /** The task's next step when all goes well; `other` is where a replacement is put. */
  function NextStep(s: Drain, j: nat, other: string): Step
    requires |s.hist| > 0 && j < |s.tasks| && !s.tasks[j].pc.Finished?
  {
    match s.tasks[j].pc
    case Queued => if InPlace(s, j) then SendStop(j) else Acquire(j)
    case Placing => PlaceOn(j, other)
    case Watching(made) => if made.Placed? then SeesTarget(j, |s.hist| - 1) else SeesAny(j, |s.hist| - 1, other)
    case Healthy(_) => SendStop(j)
    case Stopping(_) => Bump(j)
    case Confirming(_) => SeesDown(j, |s.hist| - 1)
    case Tidying => Tidy(j, true)
    case Counting => Bump(j)
  }

  /** What the agents report for that step to be possible. */
  function Report(s: Drain, j: nat, other: string): Kv
    requires j < |s.tasks|
  {
    var t := s.tasks[j];
    match t.pc
    case Watching(Placed(target, _)) => map[Place(t.job.svc, target) := Reconcile.Running]
    case Watching(Released(_)) => map[Place(t.job.svc, other) := Reconcile.Running]
    case _ => map[]
  }

  function Reported(s: Drain, j: nat, other: string): Drain
    requires j < |s.tasks|
  {
    s.(hist := s.hist + [Report(s, j, other)])
  }

  lemma {:induction false} StepOn(s: Drain, j: nat, other: string)
    requires TaskReady(s, j) && !s.tasks[j].pc.Finished? && other != s.node
    requires s.tasks[j].pc.Queued? ==> InPlace(s, j) || s.sem < MAX_CONCURRENT_MIGRATIONS
    ensures var mid := Reported(s, j, other);
            var step := NextStep(mid, j, other);
            && !Global(step) && step.j == j && Enabled(mid, step)
            && var e := EffectOf(mid, step);
            && !e.error && !e.hasty && !e.blind && Rank(e.pc) < Rank(s.tasks[j].pc)
            && (e.pc.Finished? ==> e.pc.end == Migrated || e.pc.end == FellBack)
  {
  }

  lemma PerformMoves(s: Drain, mid: Drain, j: nat, e: Effect)
    requires j < |s.tasks| && !e.error && !e.hasty && !e.blind && mid == s.(hist := mid.hist)
    ensures var t := Perform(mid, j, e); OnlyMoved(s, t, j) && t.tasks[j].pc == e.pc
  {
  }

  /** One task moves one step closer to its end. */
  lemma {:induction false} MoveOn(run: seq<Drain>, j: nat, other: string) returns (next: seq<Drain>)
    requires IsRun(run) && j < |run[|run| - 1].tasks| && !run[|run| - 1].tasks[j].pc.Finished?
    requires var s := run[|run| - 1];
             other != s.node && (s.tasks[j].pc.Queued? ==> InPlace(s, j) || s.sem < MAX_CONCURRENT_MIGRATIONS)
    ensures IsRun(next) && run <= next
    ensures var s, t := run[|run| - 1], next[|next| - 1];
            && OnlyMoved(s, t, j) && Rank(t.tasks[j].pc) < Rank(s.tasks[j].pc)
            && (t.tasks[j].pc.Finished? ==> t.tasks[j].pc.end == Migrated || t.tasks[j].pc.end == FellBack)
  {
    RunInv(run, |run| - 1);
    var s := run[|run| - 1];
    assert TaskReady(s, j);
    StepOn(s, j, other);
    var mid := Reported(s, j, other);
    var step := NextStep(mid, j, other);
    PerformMoves(s, mid, j, EffectOf(mid, step));
    next := Extend(run, Others(Report(s, j, other)));
    assert next[|next| - 1] == mid;
    next := Extend(next, step);
    assert next[|next| - 1] == Perform(mid, j, EffectOf(mid, step));
  }

  /** One task is taken to its end. */
  lemma {:induction false} FinishOne(run: seq<Drain>, j: nat, other: string) returns (next: seq<Drain>)
    requires IsRun(run) && j < |run[|run| - 1].tasks| && !run[|run| - 1].tasks[j].pc.Finished?
    requires var s := run[|run| - 1];
             other != s.node && (s.tasks[j].pc.Queued? ==> InPlace(s, j) || s.sem < MAX_CONCURRENT_MIGRATIONS)
    ensures IsRun(next) && run <= next && OnlyMoved(run[|run| - 1], next[|next| - 1], j)
    ensures var t := next[|next| - 1].tasks[j];
            t.pc.Finished? && (t.pc.end == Migrated || t.pc.end == FellBack)
    decreases Rank(run[|run| - 1].tasks[j].pc)
  {
    next := MoveOn(run, j, other);
    if !next[|next| - 1].tasks[j].pc.Finished? {
      next := FinishOne(next, j, other);
    }
  }

  /** Every task of `t` is over; those that were not in `s` are migrated or fell back, the others stay as they were. */
  ghost predicate AllOver(s: Drain, t: Drain) {
    && t.node == s.node && t.peer == s.peer && !t.cancelled
    && t.status.errors == s.status.errors && |s.tasks| == |t.tasks|
    && forall i :: 0 <= i < |s.tasks| ==>
         && t.tasks[i].job == s.tasks[i].job && t.tasks[i].pc.Finished?
         && t.tasks[i].hasty == s.tasks[i].hasty && t.tasks[i].blind == s.tasks[i].blind
         && (if s.tasks[i].pc.Finished? then t.tasks[i] == s.tasks[i]
             else t.tasks[i].pc.end == Migrated || t.tasks[i].pc.end == FellBack)
  }

  function Unfinished(): Task -> bool {
    (t: Task) => !t.pc.Finished?
  }

  /** A task that can move now: one that has begun, or else any, since all slots are free then. */
  lemma {:induction false} Movable(s: Drain) returns (j: nat)
    requires Inv(s) && exists i :: 0 <= i < |s.tasks| && !s.tasks[i].pc.Finished?
    ensures j < |s.tasks| && !s.tasks[j].pc.Finished?
    ensures s.tasks[j].pc.Queued? ==> s.sem < MAX_CONCURRENT_MIGRATIONS
  {
    if i :| 0 <= i < |s.tasks| && !s.tasks[i].pc.Finished? && !s.tasks[i].pc.Queued? {
      j := i;
    } else {
      j :| 0 <= j < |s.tasks| && !s.tasks[j].pc.Finished?;
      CountAll(s.tasks, HoldingOf(s.peer));
    }
  }

  lemma {:induction false} FinishAll(run: seq<Drain>, other: string) returns (next: seq<Drain>)
    requires IsRun(run) && !run[|run| - 1].cancelled && other != run[|run| - 1].node
    ensures IsRun(next) && run <= next && AllOver(run[|run| - 1], next[|next| - 1])
    ensures next[|next| - 1].status.phase == run[|run| - 1].status.phase
    decreases Count(run[|run| - 1].tasks, Unfinished())
  {
    var s := run[|run| - 1];
    next := run;
    if exists i :: 0 <= i < |s.tasks| && !s.tasks[i].pc.Finished? {
      var j, mid := FinishSome(run, other);
      next := FinishAll(mid, other);
      ThenOver(s, mid[|mid| - 1], next[|next| - 1], j);
    }
  }

  lemma {:induction false} FinishSome(run: seq<Drain>, other: string) returns (j: nat, next: seq<Drain>)
    requires IsRun(run) && other != run[|run| - 1].node
    requires var s := run[|run| - 1]; exists i :: 0 <= i < |s.tasks| && !s.tasks[i].pc.Finished?
    ensures IsRun(next) && run <= next && OnlyMoved(run[|run| - 1], next[|next| - 1], j)
    ensures !run[|run| - 1].tasks[j].pc.Finished?
    ensures var t := next[|next| - 1].tasks[j];
            t.pc.Finished? && (t.pc.end == Migrated || t.pc.end == FellBack)
    ensures Count(next[|next| - 1].tasks, Unfinished()) < Count(run[|run| - 1].tasks, Unfinished())
  {
    var s := run[|run| - 1];
    RunInv(run, |run| - 1);
    j := Movable(s);
    next := FinishOne(run, j, other);
    var t := next[|next| - 1];
    assert t.tasks == s.tasks[j := t.tasks[j]];
    CountUpdate(s.tasks, Unfinished(), j, t.tasks[j]);
  }

  lemma ThenOver(s: Drain, t: Drain, u: Drain, j: nat)
    requires OnlyMoved(s, t, j) && AllOver(t, u) && !s.tasks[j].pc.Finished?
    requires t.tasks[j].pc.Finished? && (t.tasks[j].pc.end == Migrated || t.tasks[j].pc.end == FellBack)
    ensures AllOver(s, u)
  {
  }

  ghost function Indices(tasks: seq<Task>, f: Task -> bool): set<nat> {
    set i: nat | i < |tasks| && f(tasks[i])
  }

  lemma {:induction false} CountIsSize(tasks: seq<Task>, f: Task -> bool)
    ensures Count(tasks, f) == |Indices(tasks, f)|
  {
    if tasks == [] {
      assert Indices(tasks, f) == {};
    } else {
      var n := |tasks| - 1;
      CountIsSize(tasks[..n], f);
      assert Indices(tasks, f) == Indices(tasks[..n], f) + if f(tasks[n]) then {n} else {};
    }
  }

  ghost function Sent(stops: seq<Stop>): set<nat> {
    set a | 0 <= a < |stops| :: stops[a].task
  }

  lemma {:induction false} SentSize(stops: seq<Stop>)
    requires forall a, b :: 0 <= a < b < |stops| ==> stops[a].task != stops[b].task
    ensures |Sent(stops)| == |stops|
  {
    if stops == [] {
      assert Sent(stops) == {};
    } else {
      var n := |stops| - 1;
      SentSize(stops[..n]);
      assert Sent(stops) == Sent(stops[..n]) + {stops[n].task};
      assert stops[n].task !in Sent(stops[..n]);
    }
  }

  /** Every task past its Stop has that Stop on record. */
  lemma {:induction false} StoppedHasStop(s: Drain, j: nat)
    requires Inv(s) && j < |s.tasks| && WasStopped(s.tasks[j].pc)
    ensures HasStop(s, j)
  {
    CountIsSize(s.tasks, StoppedOf());
    SentSize(s.stops);
    var sent, stopped := Sent(s.stops), Indices(s.tasks, StoppedOf());
    forall i | i in sent ensures i in stopped {
      var a :| 0 <= a < |s.stops| && s.stops[a].task == i;
      assert StopOk(s, a);
    }
    if j !in sent {
      assert sent <= stopped - {j};
      Placement.SubsetSize(sent, stopped - {j});
    }
  }

  /**
   * From every reachable state of a drain that is neither cancelled nor over there is a way to its end on
   * which nothing fails and no watch closes: every task not yet over is migrated or falls back with its Stop
   * on record, and the drain is drained, or stuck if an error was on record before.
   */
  lemma {:induction false} DrainCompletes(run: seq<Drain>, other: string) returns (next: seq<Drain>)
    requires IsRun(run) && !run[|run| - 1].cancelled && run[|run| - 1].status.phase == Draining
    requires other != run[|run| - 1].node
    ensures IsRun(next) && run <= next
    ensures var s, t := run[|run| - 1], next[|next| - 1];
            && AllOver(s, t) && t.status.phase == (if s.status.errors == [] then Drained else Stuck)
            && forall j :: 0 <= j < |s.tasks| && !s.tasks[j].pc.Finished? ==> HasStop(t, j)
  {
    var over := FinishAll(run, other);
    next := Conclude(run[|run| - 1], over);
    StopsSent(run[|run| - 1], next[|next| - 1]);
  }

  /** completeNodeDrain, once every task is over. */
  lemma {:induction false} Conclude(s: Drain, run: seq<Drain>) returns (next: seq<Drain>)
    requires IsRun(run) && AllOver(s, run[|run| - 1]) && run[|run| - 1].status.phase == Draining
    ensures IsRun(next) && run <= next && AllOver(s, next[|next| - 1]) && Inv(next[|next| - 1])
    ensures next[|next| - 1].status.phase == if s.status.errors == [] then Drained else Stuck
  {
    RunInv(run, |run| - 1);
    next := Extend(run, Complete);
    RunInv(next, |next| - 1);
  }

  lemma {:induction false} StopsSent(s: Drain, t: Drain)
    requires Inv(t) && AllOver(s, t)
    ensures forall j :: 0 <= j < |s.tasks| && !s.tasks[j].pc.Finished? ==> HasStop(t, j)
  {
    forall j | 0 <= j < |s.tasks| && !s.tasks[j].pc.Finished? ensures HasStop(t, j) {
      StoppedHasStop(t, j);
    }
  }

  /** Every list of jobs can be drained: all copies are sent Stop and counted as migrated. */
  lemma {:induction false} EveryListDrains(jobs: seq<Job>, node: string, peer: bool, kv: Kv, other: string)
      returns (run: seq<Drain>)
    requires other != node
    ensures IsRun(run) && run[0].node == node && run[0].peer == peer && run[0].hist == [kv]
    ensures |run[0].tasks| == |jobs| && forall j :: 0 <= j < |jobs| ==> run[0].tasks[j].job == jobs[j]
    ensures var t := run[|run| - 1];
            && t.status.phase == Drained && t.status.errors == []
            && t.status.migrated == t.status.total == |t.stops| == |jobs|
  {
    var tasks := seq(|jobs|, j requires 0 <= j < |jobs| => Task(jobs[j], Queued, false, false, 0, 0));
    var st := Status(if jobs == [] then Drained else Draining, |jobs|, 0, |jobs|, []);
    run := [Drain(node, peer, tasks, 0, [kv], [], st, false)];
    if jobs != [] {
      run := DrainCompletes(run, other);
    }
    DrainedMeansAll(run, |run| - 1);
  }

  // ----- the waits -----

  datatype Event = Initialised | Removed | Garbled | Record(status: AllocStatus)

  predicate Fires(fn: Option<AllocStatus> -> bool, e: Event) {
    match e
    case Initialised => false
    case Garbled => false
    case Removed => fn(None)
    case Record(status) => fn(Some(status))
  }

  /** What the select of WatchAllocation can receive; a context is over by cancellation or by its deadline. */
  datatype Signal = Update(event: Event) | ChannelClosed | ContextDone(cancelled: bool)

  /** How the watch ended, if it did. Its caller sees nil in each case. */
  datatype WatchEnd = Open | Accepted | Closed | Over(cancelled: bool)

  function EndOf(fn: Option<AllocStatus> -> bool, s: Signal): WatchEnd {
    match s
    case Update(e) => if Fires(fn, e) then Accepted else Open
    case ChannelClosed => Closed
    case ContextDone(cancelled) => Over(cancelled)
  }

  /** WatchAllocation ends at the first signal that closes it, ends its context or satisfies its callback. */
  method WatchAllocation(feed: seq<Signal>, fn: Option<AllocStatus> -> bool) returns (end: WatchEnd, n: nat)
    ensures n <= |feed| && (end == Open <==> n == |feed|)
    ensures n < |feed| ==> end == EndOf(fn, feed[n])
    ensures forall i :: 0 <= i < n ==> EndOf(fn, feed[i]) == Open
  {
    n := 0;
    while n < |feed|
      invariant 0 <= n <= |feed|
      invariant forall j :: 0 <= j < n ==> EndOf(fn, feed[j]) == Open
    {
      end := EndOf(fn, feed[n]);
      if end != Open {
        return;
      }
      n := n + 1;
    }
    end := Open;
  }

  datatype Waited = StillWaiting | Succeeded | Erred

  /** The contexts are consulted after the watch; one that ended it is over by then. */
  function Verdict(end: WatchEnd, cancelled: bool, expired: bool): Waited {
    if end == Open then StillWaiting
    else if cancelled || expired || end.Over? then Erred
    else Succeeded
  }

  const RUNS: Option<AllocStatus> -> bool := (a: Option<AllocStatus>) => a == Some(Reconcile.Running)

  const IS_DOWN: Option<AllocStatus> -> bool :=
    (a: Option<AllocStatus>) => a == None || a == Some(Reconcile.Stopped) || a == Some(Reconcile.Failed)

  /**
   * waitForHealthyOnNode, with the contexts as they are when the watch returns. It succeeds on the first
   * Running, and also on a channel that closes before any Running was delivered: the step HealthWatchCloses.
   */
  method WaitForHealthyOnNode(feed: seq<Signal>, cancelled: bool, expired: bool) returns (r: Waited, n: nat)
    ensures n <= |feed| && (r == StillWaiting <==> n == |feed|)
    ensures r == Succeeded <==>
              n < |feed| && !cancelled && !expired
                  && (feed[n] == Update(Record(Reconcile.Running)) || feed[n].ChannelClosed?)
    ensures forall i :: 0 <= i < n ==> feed[i].Update? && feed[i] != Update(Record(Reconcile.Running))
  {
    var end;
    end, n := WatchAllocation(feed, RUNS);
    r := Verdict(end, cancelled, expired);
  }

  /** The record is gone, or says that the copy is stopped or failed. */
  predicate ReportsDown(s: Signal) {
    s == Update(Removed) || s == Update(Record(Reconcile.Stopped)) || s == Update(Record(Reconcile.Failed))
  }

  /** waitForStopped: the first report that the copy is gone, stopped or failed, or a closed channel. */
  method WaitForStopped(feed: seq<Signal>, cancelled: bool, expired: bool) returns (r: Waited, n: nat)
    ensures n <= |feed| && (r == StillWaiting <==> n == |feed|)
    ensures r == Succeeded <==>
              n < |feed| && !cancelled && !expired
              && (feed[n].ChannelClosed? || ReportsDown(feed[n]))
    ensures forall i :: 0 <= i < n ==> feed[i].Update? && !ReportsDown(feed[i])
  {
    var end;
    end, n := WatchAllocation(feed, IS_DOWN);
    r := Verdict(end, cancelled, expired);
  }

  /** healthyReplacementExists over a listing of the service's records. */
  method HealthyReplacementExists(allocs: seq<(string, AllocStatus)>, drained: string) returns (found: bool)
    ensures found <==> exists i :: 0 <= i < |allocs| && allocs[i].0 != drained && allocs[i].1 == Reconcile.Running
  {
    var i := 0;
    while i < |allocs|
      invariant 0 <= i <= |allocs|
      invariant forall j :: 0 <= j < i ==> !(allocs[j].0 != drained && allocs[j].1 == Reconcile.Running)
    {
      if allocs[i].0 != drained && allocs[i].1 == Reconcile.Running {
        return true;
      }
      i := i + 1;
    }
    return false;
  }
}
