/** The per-field cooldown writes: helpers on different fields commute, and the last write per field wins. */
module Cooldowns {
  import opened Wrappers
  import opened CasStore
  import opened CasSystem

  datatype Cooldown = Cooldown(
    lastScaleUp: int, lastScaleDown: int, idleSince: int, rollbackFailed: bool, deployInProgress: bool)

  const ZERO := Cooldown(0, 0, 0, false, false)

  datatype Write =
    | MarkScaleUp(when: int)
    | MarkScaleDown(when: int)
    | MarkIdleSince(when: int)
    | SetRollbackFailed(flag: bool)
    | SetDeployInProgress(flag: bool)

  function Set(c: Cooldown, w: Write): Cooldown {
    match w
    case MarkScaleUp(when) => c.(lastScaleUp := when)
    case MarkScaleDown(when) => c.(lastScaleDown := when)
    case MarkIdleSince(when) => c.(idleSince := when)
    case SetRollbackFailed(flag) => c.(rollbackFailed := flag)
    case SetDeployInProgress(flag) => c.(deployInProgress := flag)
  }

  /** A cooldown helper never declines and starts a missing record from ZERO. */
  function Callback(w: Write): Call<Cooldown> {
    Call((seen: seq<Cooldown>) => if seen == [] then None else Some(Set(seen[|seen| - 1], w)), Some(ZERO))
  }

  function Helpers(write: nat -> Write): nat -> Call<Cooldown> {
    (id: nat) => Callback(write(id))
  }

  // ----- the record, field by field -----

  datatype Field = ScaleUp | ScaleDown | Idle | Rollback | Gate

  function FieldOf(w: Write): Field {
    match w
    case MarkScaleUp(_) => ScaleUp
    case MarkScaleDown(_) => ScaleDown
    case MarkIdleSince(_) => Idle
    case SetRollbackFailed(_) => Rollback
    case SetDeployInProgress(_) => Gate
  }

  datatype Content = Time(when: int) | Flag(flag: bool)

  function ContentOf(w: Write): Content {
    match w
    case SetRollbackFailed(flag) => Flag(flag)
    case SetDeployInProgress(flag) => Flag(flag)
    case _ => Time(w.when)
  }

  function At(c: Cooldown, f: Field): Content {
    match f
    case ScaleUp => Time(c.lastScaleUp)
    case ScaleDown => Time(c.lastScaleDown)
    case Idle => Time(c.idleSince)
    case Rollback => Flag(c.rollbackFailed)
    case Gate => Flag(c.deployInProgress)
  }

  lemma FieldsMakeRecord(c: Cooldown, d: Cooldown)
    requires forall f :: At(c, f) == At(d, f)
    ensures c == d
  {
    assert At(c, ScaleUp) == At(d, ScaleUp) && At(c, ScaleDown) == At(d, ScaleDown) && At(c, Idle) == At(d, Idle);
    assert At(c, Rollback) == At(d, Rollback) && At(c, Gate) == At(d, Gate);
  }

  /** The writes that committed, in log order, and those among them that touch one field. */
  ghost function Writes(write: nat -> Write, log: seq<Entry<Cooldown>>): (ws: seq<Write>)
    requires AllCommits(log)
    ensures |ws| == |log|
  {
    if log == [] then [] else Writes(write, log[..|log| - 1]) + [write(log[|log| - 1].id)]
  }

  ghost predicate AllCommits(log: seq<Entry<Cooldown>>) {
    forall i :: 0 <= i < |log| ==> log[i].Commit?
  }

  ghost function OnField(ws: seq<Write>, f: Field): (on: seq<Write>)
    ensures forall w :: w in on ==> FieldOf(w) == f
  {
    if ws == [] then []
    else
      var on := OnField(ws[..|ws| - 1], f);
      if FieldOf(ws[|ws| - 1]) == f then on + [ws[|ws| - 1]] else on
  }

  ghost function Record(ws: seq<Write>): Cooldown {
    if ws == [] then ZERO else Set(Record(ws[..|ws| - 1]), ws[|ws| - 1])
  }

  /** The last write to a field decides it, whatever the writers of other fields did around it. */
  lemma {:induction false} LastWriteWins(ws: seq<Write>, f: Field)
    ensures var on := OnField(ws, f);
            At(Record(ws), f) == if on == [] then At(ZERO, f) else ContentOf(on[|on| - 1])
  {
    if ws != [] {
      LastWriteWins(ws[..|ws| - 1], f);
    }
  }

  lemma {:induction false} FoldIsRecord(write: nat -> Write, log: seq<Entry<Cooldown>>)
    requires AllCommits(log)
    ensures Fold(Helpers(write), log) == if log == [] then None else Some(Record(Writes(write, log)))
  {
    if log != [] {
      var front, last := log[..|log| - 1], log[|log| - 1];
      FoldIsRecord(write, front);
      var c := Record(Writes(write, front));
      var ws := Writes(write, log);
      assert ws[..|ws| - 1] == Writes(write, front);
      assert (last.earlier + [c])[|last.earlier|] == c;
    }
  }

  /** GetServiceCooldown: a missing key reads as the zero record. */
  function GetServiceCooldown(cell: Cell<Cooldown>): Cooldown {
    if cell.Live? then cell.value else ZERO
  }

  /** Over every run of cooldown helpers with no blind write, each field reads as the last commit to it. */
  lemma {:induction false} CooldownRun(write: nat -> Write, run: seq<Sys<Cooldown>>, k: nat, f: Field)
    requires IsRun(Helpers(write), run) && k < |run| && AllCommits(run[k].log)
    ensures var on := OnField(Writes(write, run[k].log), f);
            At(GetServiceCooldown(run[k].cell), f) == if on == [] then At(ZERO, f) else ContentOf(on[|on| - 1])
  {
    NoLostUpdate(Helpers(write), run, k);
    FoldIsRecord(write, run[k].log);
    LastWriteWins(Writes(write, run[k].log), f);
  }

  /** A helper neither declines nor misses its key: nil means its one write is in the log. */
  lemma {:induction false} HelperAnswers(write: nat -> Write, run: seq<Sys<Cooldown>>, k: nat, id: nat)
    requires IsRun(Helpers(write), run) && k < |run| && id in run[k].procs && run[k].procs[id].pc.Done?
    ensures match run[k].procs[id].pc.outcome
            case Committed => Commits(run[k].log, id) == 1
            case Exhausted => Commits(run[k].log, id) == 0
            case Failed => Commits(run[k].log, id) <= 1
            case _ => false
  {
    Returned(Helpers(write), run, k, id);
    assert Helpers(write)(id) == Callback(write(id));
  }

  /** The record after one helper, written out. */
  ghost predicate Stored(w: Write, was: Cooldown, now: Cooldown) {
    && now.lastScaleUp == (if w.MarkScaleUp? then w.when else was.lastScaleUp)
    && now.lastScaleDown == (if w.MarkScaleDown? then w.when else was.lastScaleDown)
    && now.idleSince == (if w.MarkIdleSince? then w.when else was.idleSince)
    && now.rollbackFailed == (if w.SetRollbackFailed? then w.flag else was.rollbackFailed)
    && now.deployInProgress == (if w.SetDeployInProgress? then w.flag else was.deployInProgress)
  }

  /**
   * From every reachable state a helper that runs alone commits, on a missing key as on a live one, and the
   * record read afterwards differs from the one read before in its own field only.
   */
  lemma {:induction false} HelperCommits(write: nat -> Write, run: seq<Sys<Cooldown>>, id: nat)
      returns (next: seq<Sys<Cooldown>>)
    requires IsRun(Helpers(write), run) && id !in run[|run| - 1].procs
    ensures IsRun(Helpers(write), next) && run <= next
    ensures var s, t := run[|run| - 1], next[|next| - 1];
            && id in t.procs && t.procs[id].pc.Done? && t.procs[id].pc.outcome == Committed
            && t.log == s.log + [Commit(id, [])] && t.cell.Live?
            && Stored(write(id), GetServiceCooldown(s.cell), GetServiceCooldown(t.cell))
  {
    next := FreshFinishes(Helpers(write), run, id);
    assert Helpers(write)(id) == Callback(write(id));
  }

  /** Commuting helpers: two runs whose commits agree on each single field leave the same record. */
  lemma {:induction false} HelpersCommute(
    f: nat -> Write, r: seq<Sys<Cooldown>>, i: nat, g: nat -> Write, q: seq<Sys<Cooldown>>, j: nat)
    requires IsRun(Helpers(f), r) && i < |r| && AllCommits(r[i].log)
    requires IsRun(Helpers(g), q) && j < |q| && AllCommits(q[j].log)
    requires forall d :: OnField(Writes(f, r[i].log), d) == OnField(Writes(g, q[j].log), d)
    ensures GetServiceCooldown(r[i].cell) == GetServiceCooldown(q[j].cell)
  {
    forall d ensures At(GetServiceCooldown(r[i].cell), d) == At(GetServiceCooldown(q[j].cell), d) {
      CooldownRun(f, r, i, d);
      CooldownRun(g, q, j, d);
    }
    FieldsMakeRecord(GetServiceCooldown(r[i].cell), GetServiceCooldown(q[j].cell));
  }
}

/**
 * dispatchOne of the reconciler: a guard moves an allocation from pending to starting, and a captured
 * flag tells whether to send the start command. The flag outlives a lost attempt.
 */
module DispatchGuard {
  import opened Wrappers
  import opened CasStore
  import opened CasSystem

  datatype Status = Pending | Starting | Other

  const GUARD: Call<Status> :=
    Call((seen: seq<Status>) => if seen != [] && seen[|seen| - 1] == Status.Pending then Some(Starting) else None, None)

  const DISPATCHERS: nat -> Call<Status> := (id: nat) => GUARD

  predicate Nil(p: Proc<Status>) {
    p.pc.Done? && (p.pc.outcome == Committed || p.pc.outcome == Declined)
  }

  /** The captured flag: some attempt found the allocation pending. */
  predicate Advanced(p: Proc<Status>) {
    Status.Pending in p.seen
  }

  /** No write but this call's own landed while it ran. */
  ghost predicate Undisturbed(log: seq<Entry<Status>>, id: nat, p: Proc<Status>)
    requires p.pc.Done?
  {
    forall i :: p.start <= i < p.pc.end && i < |log| ==> By(log[i], id)
  }

  /**
   * Between the call's first read and its last only others wrote, and they did; what the last read found
   * was not pending any more.
   */
  ghost predicate Overtook(log: seq<Entry<Status>>, id: nat, p: Proc<Status>) {
    && |p.at| > 0 && p.at[0] < p.at[|p.at| - 1] <= |log|
    && (forall i :: p.at[0] <= i < p.at[|p.at| - 1] ==> !By(log[i], id))
    && Fold(DISPATCHERS, log[..p.at[|p.at| - 1]]) != Some(Status.Pending)
  }

  /**
   * The start command is sent without a transition of the call's own exactly when others overtook it
   * between its first read and its last; an undisturbed call sends it exactly when it committed.
   */
  lemma {:induction false} DispatchIsExact(run: seq<Sys<Status>>, k: nat, id: nat)
    requires IsRun(DISPATCHERS, run) && k < |run| && id in run[k].procs && Nil(run[k].procs[id])
    ensures var p := run[k].procs[id];
            && (Advanced(p) && Commits(run[k].log, id) != 1 <==> Overtook(run[k].log, id, p))
            && (Overtook(run[k].log, id, p) <==> p.pc.outcome == Declined && |p.seen| > 1)
            && (Commits(run[k].log, id) == 1 ==> Advanced(p))
            && (Undisturbed(run[k].log, id, p) ==> (Advanced(p) <==> Commits(run[k].log, id) == 1))
  {
    RunInv(DISPATCHERS, run, k);
    Returned(DISPATCHERS, run, k, id);
    var s, p := run[k], run[k].procs[id];
    assert CallOk(DISPATCHERS, s, id);
    if p.pc.outcome == Declined {
      DeclinedReads(s, id, p);
    } else {
      CommittedReads(s, id, p);
    }
  }

  /** A declined call found pending on every attempt but the last, and met a foreign write per lost attempt. */
  lemma {:induction false} DeclinedReads(s: Sys<Status>, id: nat, p: Proc<Status>)
    requires ProcOk(DISPATCHERS, s.log, s.rev, s.cell, id, p) && p.pc.Done? && p.pc.outcome == Declined
    ensures Advanced(p) <==> |p.seen| > 1
    ensures |p.seen| > 1 ==> !Undisturbed(s.log, id, p)
    ensures |p.seen| > 1 <==> Overtook(s.log, id, p)
  {
    assert DISPATCHERS(id) == GUARD;
    assert SawAt(DISPATCHERS, s.log, id, p, |p.seen| - 1);
    if |p.seen| > 1 {
      assert GUARD.fn(p.seen[..1]).Some?;
      assert p.seen[0] == Status.Pending;
      AtSpread(DISPATCHERS, s.log, id, p, |p.seen| - 1);
      assert p.start < p.pc.end && !By(s.log[p.start], id);
      AtRises(s.log, id, p, |p.seen| - 1);
    } else {
      assert p.seen == [p.seen[0]];
    }
  }

  lemma {:induction false} CommittedReads(s: Sys<Status>, id: nat, p: Proc<Status>)
    requires ProcOk(DISPATCHERS, s.log, s.rev, s.cell, id, p) && p.slot.Some?
    ensures Advanced(p) && !Overtook(s.log, id, p)
  {
    assert DISPATCHERS(id) == GUARD;
    assert SawAt(DISPATCHERS, s.log, id, p, |p.seen| - 1);
  }

  lemma {:induction false} AtRises(log: seq<Entry<Status>>, id: nat, p: Proc<Status>, k: nat)
    requires Saw(DISPATCHERS, log, id, p) && 0 < k < |p.at|
    ensures p.at[0] < p.at[k]
  {
    if k > 1 {
      AtRises(log, id, p, k - 1);
    }
  }

  /** A dispatcher that runs alone moves a pending allocation to starting, and leaves every other one as it is. */
  lemma {:induction false} DispatchAlone(run: seq<Sys<Status>>, id: nat) returns (next: seq<Sys<Status>>)
    requires IsRun(DISPATCHERS, run) && id !in run[|run| - 1].procs
    ensures IsRun(DISPATCHERS, next) && run <= next
    ensures var s, t := run[|run| - 1], next[|next| - 1];
            && id in t.procs && t.procs[id].pc.Done?
            && match s.cell
               case Absent => t.procs[id].pc.outcome == NotFound && t.cell == s.cell
               case Live(Pending, _) =>
                 t.procs[id].pc.outcome == Committed && View(t.cell) == Some(Starting) && Advanced(t.procs[id])
               case Live(_, _) =>
                 t.procs[id].pc.outcome == Declined && t.cell == s.cell && !Advanced(t.procs[id])
  {
    next := FreshFinishes(DISPATCHERS, run, id);
    assert DISPATCHERS(id) == GUARD;
  }

  /** A dispatcher that has read a pending record and sent its write. */
  function Sent(cell: Cell<Status>, now: nat): Proc<Status> {
    Proc(Waiting, 0, [Status.Pending], Some(Request(cell, Starting)), now, now, [now], None)
  }

  lemma ReadStarts(run: seq<Sys<Status>>, id: nat) returns (next: seq<Sys<Status>>)
    requires IsRun(DISPATCHERS, run) && id !in run[|run| - 1].procs
    ensures IsRun(DISPATCHERS, next)
    ensures var s := run[|run| - 1];
            next[|next| - 1] == s.(procs := s.procs[id := Get(Fresh(|s.log|), s.cell, |s.log|)])
  {
    next := Extend(DISPATCHERS, run, Begin(id));
    next := Extend(DISPATCHERS, next, ServeGet(id));
  }

  lemma ReadPending(run: seq<Sys<Status>>, id: nat) returns (next: seq<Sys<Status>>)
    requires IsRun(DISPATCHERS, run)
    requires var s := run[|run| - 1]; id !in s.procs && s.cell.Live? && s.cell.value == Status.Pending
    ensures IsRun(DISPATCHERS, next)
    ensures var s := run[|run| - 1];
            next[|next| - 1] == s.(procs := s.procs[id := Sent(s.cell, |s.log|)])
  {
    var s := run[|run| - 1];
    next := ReadStarts(run, id);
    next := Extend(DISPATCHERS, next, CasSystem.Callback(id));
    assert Decide(GUARD, Get(Fresh(|s.log|), s.cell, |s.log|), s.cell, |s.log|) == Sent(s.cell, |s.log|);
  }

  /** The second dispatcher has committed while the first holds the pending record it read. */
  function Overtaken(): Sys<Status> {
    var pending := Live(Status.Pending, 1);
    Sys(Live(Starting, 2), 2, [Put(Status.Pending), Commit(1, [])],
        map[0 := Sent(pending, 1), 1 := Sent(pending, 1).(req := None, slot := Some(1), pc := Done(Committed, 2))])
  }

  lemma ReachOvertaken() returns (run: seq<Sys<Status>>)
    ensures IsRun(DISPATCHERS, run) && run[|run| - 1] == Overtaken()
  {
    run := Extend(DISPATCHERS, [Start()], BlindPut(Status.Pending));
    run := ReadPending(run, 0);
    run := ReadPending(run, 1);
    run := Extend(DISPATCHERS, run, Serve(1));
    run := Extend(DISPATCHERS, run, Reply(1));
  }

  /** The first dispatcher after its lost write: it has found the record starting and declined. */
  lemma LoseAndDecline(run: seq<Sys<Status>>) returns (next: seq<Sys<Status>>)
    requires IsRun(DISPATCHERS, run) && run[|run| - 1] == Overtaken()
    ensures IsRun(DISPATCHERS, next)
    ensures var s, p := Overtaken(), Sent(Live(Status.Pending, 1), 1);
            next[|next| - 1] == s.(procs := s.procs[0 :=
              p.(pc := Done(Declined, 2), attempt := 1, req := None, read := 2, seen := [Status.Pending, Starting],
                  at := [1, 2])])
  {
    next := Extend(DISPATCHERS, run, Serve(0));
    next := Extend(DISPATCHERS, next, Reply(0));
    next := Extend(DISPATCHERS, next, ServeGet(0));
    next := Extend(DISPATCHERS, next, CasSystem.Callback(0));
    assert [Status.Pending] + [Starting] == [Status.Pending, Starting] && [1] + [2] == [1, 2];
    assert next[|next| - 1].procs[0].seen == [Status.Pending, Starting];
  }

  /** Two dispatchers read the pending record; one commits, the other declines on its retry: both send a start. */
  lemma TwoStartCommands() returns (run: seq<Sys<Status>>)
    ensures IsRun(DISPATCHERS, run)
    ensures var s := run[|run| - 1];
            && 0 in s.procs && 1 in s.procs
            && Nil(s.procs[0]) && Nil(s.procs[1]) && Advanced(s.procs[0]) && Advanced(s.procs[1])
            && Commits(s.log, 0) == 0 && Commits(s.log, 1) == 1
  {
    run := ReachOvertaken();
    run := LoseAndDecline(run);
    Returned(DISPATCHERS, run, |run| - 1, 0);
    Returned(DISPATCHERS, run, |run| - 1, 1);
  }
}
