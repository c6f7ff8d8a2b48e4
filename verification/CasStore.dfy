/**
 * The compare-and-swap write loops over one KV key: MutateAllocation, which refuses a missing key,
 * and mutateCooldown, which starts a missing key from the zero record with Create.
 *
 * A callback may run once per attempt and may keep what it saw (Go closures capture variables), so it
 * is a function of all values it has been given so far. Every write to the key is an entry of a log;
 * a commit names its call and the values that call had seen before, never the value it wrote.
 */
module CasStore {
  import opened Wrappers

  datatype Cell<+V> = Absent | Live(value: V, rev: nat)

  datatype Call<!V> = Call(fn: seq<V> -> Option<V>, zero: Option<V>)

  datatype Entry<+V> = Commit(id: nat, earlier: seq<V>) | Put(value: V) | Delete

  const MAX_RETRIES: nat := 8

  function View<V>(c: Cell<V>): Option<V> {
    if c.Live? then Some(c.value) else None
  }

  /** What the callback is handed when the key holds `now`. */
  function Given<V>(call: Call<V>, now: Option<V>): Option<V> {
    if now.Some? then now else call.zero
  }

  /** The value of the key after one write, computed from the value just before it. */
  function After<V>(calls: nat -> Call<V>, now: Option<V>, e: Entry<V>): Option<V> {
    match e
    case Put(v) => Some(v)
    case Delete => None
    case Commit(id, earlier) =>
      var given := Given(calls(id), now);
      if given.None? then None else calls(id).fn(earlier + [given.value])
  }

  /** The value of the key as the callbacks, applied one after the other in log order, leave it. */
  ghost function Fold<V>(calls: nat -> Call<V>, log: seq<Entry<V>>): Option<V> {
    if log == [] then None else After(calls, Fold(calls, log[..|log| - 1]), log[|log| - 1])
  }

  lemma FoldSnoc<V>(calls: nat -> Call<V>, log: seq<Entry<V>>, e: Entry<V>)
    ensures Fold(calls, log + [e]) == After(calls, Fold(calls, log), e)
  {
  }

  /** Update succeeds on the revision it was given; Create succeeds on a key with no live value. */
  predicate Accepts<V>(base: Cell<V>, now: Cell<V>) {
    if base.Live? then now.Live? && now.rev == base.rev else now.Absent?
  }

  // ----- one call -----

  datatype Outcome = Committed | Declined | NotFound | Exhausted | Failed

  datatype Request<+V> = Request(base: Cell<V>, next: V)

  /** Reading: the Get is on its way. Fetched: it was served, and its answer is on its way or in hand. */
  datatype Pc<+V> =
    | Reading
    | Fetched(base: Cell<V>)
    | Waiting
    | Answered(ok: bool)
    | Done(outcome: Outcome, end: nat)

  /**
   * `start` and `end` are log lengths when the call began and returned, `read` and `at[k]` the log
   * lengths when its last and its k-th Get were served and `slot` the place of its commit; they record
   * history and steer nothing.
   */
  datatype Proc<+V> = Proc(
    pc: Pc<V>, attempt: nat, seen: seq<V>, req: Option<Request<V>>,
    start: nat, read: nat, at: seq<nat>, slot: Option<nat>)

  function Fresh<V>(now: nat): Proc<V> {
    Proc(Reading, 0, [], None, now, now, [], None)
  }

  /** What the callback was handed on the attempts before the current one. */
  function Earlier<V>(p: Proc<V>): seq<V> {
    if p.seen == [] then [] else p.seen[..|p.seen| - 1]
  }

  /** The bucket serves the Get. */
  function Get<V>(p: Proc<V>, cell: Cell<V>, now: nat): Proc<V> {
    p.(pc := Fetched(cell), read := now)
  }

  /** The answer arrives: unmarshal, run the callback, and return or send the write. */
  function Decide<V>(call: Call<V>, p: Proc<V>, base: Cell<V>, now: nat): Proc<V> {
    var given := Given(call, View(base));
    if given.None? then p.(pc := Done(NotFound, now))
    else
      var seen := p.seen + [given.value];
      var q := p.(seen := seen, at := p.at + [p.read]);
      var next := call.fn(seen);
      if next.None? then q.(pc := Done(Declined, now))
      else q.(pc := Waiting, req := Some(Request(base, next.value)))
  }

  /** The caller learns whether its write was accepted; a conflict counts one attempt. */
  function Receive<V>(p: Proc<V>, ok: bool, now: nat): Proc<V> {
    if ok then p.(pc := Done(Committed, now))
    else if p.attempt + 1 < MAX_RETRIES then p.(pc := Reading, attempt := p.attempt + 1)
    else p.(pc := Done(Exhausted, now), attempt := p.attempt + 1)
  }

  // ----- what is true of a call, whatever the others do -----

  /** `slot` is the only place of the log where `id` committed. */
  ghost predicate OnlyAt<V>(log: seq<Entry<V>>, id: nat, slot: Option<nat>) {
    && (slot.Some? ==> slot.value < |log|)
    && forall i :: 0 <= i < |log| ==> (By(log[i], id) <==> slot == Some(i))
  }

  /** The k-th value the callback was handed was current when the log had length at[k]. */
  ghost predicate SawAt<V>(calls: nat -> Call<V>, log: seq<Entry<V>>, id: nat, p: Proc<V>, k: nat)
    requires k < |p.seen| == |p.at|
  {
    && p.start <= p.at[k] <= |log|
    && Given(calls(id), Fold(calls, log[..p.at[k]])) == Some(p.seen[k])
  }

  ghost predicate Saw<V>(calls: nat -> Call<V>, log: seq<Entry<V>>, id: nat, p: Proc<V>) {
    && |p.at| == |p.seen|
    && (forall k :: 0 <= k < |p.at| ==> p.at[k] <= |log|)
    && (forall k :: 0 <= k < |p.seen| ==> SawAt(calls, log, id, p, k))
    && (forall k :: 0 < k < |p.seen| ==> p.at[k - 1] < p.at[k])
    && (forall k :: 0 < k < |p.seen| ==> calls(id).fn(p.seen[..k]).Some?)
  }

  /** What a returned call has done: how often it committed, and when. */
  ghost predicate Settled<V>(calls: nat -> Call<V>, log: seq<Entry<V>>, id: nat, p: Proc<V>)
    requires p.pc.Done? && |p.at| == |p.seen|
  {
    var end := p.pc.end;
    && p.start <= end <= |log|
    && (forall k :: 0 <= k < |p.at| ==> p.at[k] <= end)
    && |p.seen| <= MAX_RETRIES
    && match p.pc.outcome
       case Committed => p.slot.Some? && p.start <= p.slot.value < end && p.req.None?
       case Declined =>
         p.slot.None? && p.req.None? && |p.seen| > 0 && calls(id).fn(p.seen).None?
       case NotFound =>
         && p.slot.None? && p.req.None? && calls(id).zero.None?
         && p.start <= p.read <= end && Fold(calls, log[..p.read]).None?
       case Exhausted =>
         p.slot.None? && p.req.None? && end >= p.start + MAX_RETRIES
       case Failed =>
         (p.slot.Some? ==> p.start <= p.slot.value && p.req.None?)
  }

  /** `base` was the key when the log had length `at`, and a write based on it is accepted only on its value. */
  ghost predicate Basis<V>(log: seq<Entry<V>>, rev: nat, cell: Cell<V>, base: Cell<V>, at: nat) {
    && (base.Live? ==> base.rev <= rev)
    && (Accepts(base, cell) ==> View(cell) == View(base))
    && (at == |log| ==> Accepts(base, cell))
  }

  /** A write on its way: it will be accepted only on the value its callback was handed last. */
  ghost predicate Pending<V>(calls: nat -> Call<V>, log: seq<Entry<V>>, rev: nat, cell: Cell<V>, id: nat, p: Proc<V>)
    requires p.req.Some?
  {
    var base := p.req.value.base;
    && p.slot.None? && |p.seen| > 0 && |p.at| == |p.seen|
    && Given(calls(id), View(base)) == Some(p.seen[|p.seen| - 1])
    && calls(id).fn(p.seen) == Some(p.req.value.next)
    && Basis(log, rev, cell, base, p.at[|p.at| - 1])
  }

  /** A Get that was served: the value was current then, and the log had grown since the read before. */
  ghost predicate Served<V>(calls: nat -> Call<V>, log: seq<Entry<V>>, rev: nat, cell: Cell<V>, id: nat, p: Proc<V>)
    requires p.pc.Fetched? && |p.at| == |p.seen|
  {
    && p.start <= p.read <= |log| && View(p.pc.base) == Fold(calls, log[..p.read])
    && Basis(log, rev, cell, p.pc.base, p.read)
    && (|p.at| > 0 ==> p.at[|p.at| - 1] < p.read && calls(id).fn(p.seen).Some?)
  }

  ghost predicate ProcOk<V>(calls: nat -> Call<V>, log: seq<Entry<V>>, rev: nat, cell: Cell<V>, id: nat, p: Proc<V>) {
    && OnlyAt(log, id, p.slot)
    && (p.slot.Some? ==> calls(id).fn(p.seen).Some?)
    && p.start <= |log|
    && Saw(calls, log, id, p)
    && (p.req.Some? ==>
          && Pending(calls, log, rev, cell, id, p)
          && (p.pc.Waiting? || (p.pc.Done? && p.pc.outcome == Failed)))
    && match p.pc
       case Reading =>
         p.attempt < MAX_RETRIES && |p.seen| == p.attempt && p.slot.None? && Spent(calls, log, id, p)
       case Fetched(_) =>
         && p.attempt < MAX_RETRIES && |p.seen| == p.attempt && p.slot.None?
         && Served(calls, log, rev, cell, id, p)
       case Waiting => p.attempt < MAX_RETRIES && |p.seen| == p.attempt + 1 && p.req.Some?
       case Answered(ok) =>
         && p.attempt < MAX_RETRIES && |p.seen| == p.attempt + 1
         && (ok <==> p.slot.Some?) && (ok ==> p.start <= p.slot.value) && (!ok ==> Spent(calls, log, id, p))
       case Done(_, _) => Settled(calls, log, id, p)
  }

  /** The last read led to a write, and the log has grown since. */
  ghost predicate Spent<V>(calls: nat -> Call<V>, log: seq<Entry<V>>, id: nat, p: Proc<V>)
    requires |p.at| == |p.seen|
  {
    |p.at| > 0 ==> p.at[|p.at| - 1] < |log| && calls(id).fn(p.seen).Some?
  }

  lemma {:induction false} AtSpread<V>(calls: nat -> Call<V>, log: seq<Entry<V>>, id: nat, p: Proc<V>, k: nat)
    requires Saw(calls, log, id, p) && k < |p.at|
    ensures p.at[k] >= p.start + k
  {
    assert SawAt(calls, log, id, p, k);
    if k > 0 {
      AtSpread(calls, log, id, p, k - 1);
    }
  }

  predicate By<V>(e: Entry<V>, id: nat) {
    e.Commit? && e.id == id
  }

  /** One more write, under a revision never used before. */
  ghost predicate Grew<V>(log: seq<Entry<V>>, rev: nat, log': seq<Entry<V>>, cell': Cell<V>) {
    && |log'| == |log| + 1 && log'[..|log|] == log
    && (cell'.Live? ==> cell'.rev > rev)
  }

  /** Another write lands, or a revision is spent on another key. */
  lemma {:induction false} KeepOk<V>(
    calls: nat -> Call<V>, log: seq<Entry<V>>, rev: nat, cell: Cell<V>, id: nat, p: Proc<V>,
    log': seq<Entry<V>>, rev': nat, cell': Cell<V>)
    requires ProcOk(calls, log, rev, cell, id, p)
    requires rev <= rev'
    requires (log' == log && cell' == cell) || (Grew(log, rev, log', cell') && !By(log'[|log|], id))
    ensures ProcOk(calls, log', rev', cell', id, p)
  {
    assert |log| <= |log'| && log == log'[..|log|];
    forall k | 0 <= k < |p.seen| ensures SawAt(calls, log', id, p, k) {
      assert SawAt(calls, log, id, p, k);
      assert log'[..p.at[k]] == log[..p.at[k]];
    }
    if p.read <= |log| {
      assert log'[..p.read] == log[..p.read];
    }
    if |p.at| > 0 {
      assert SawAt(calls, log, id, p, |p.at| - 1);
    }
  }

  lemma {:induction false} GetOk<V>(calls: nat -> Call<V>, log: seq<Entry<V>>, rev: nat, cell: Cell<V>, id: nat,
      p: Proc<V>)
    requires ProcOk(calls, log, rev, cell, id, p) && p.pc.Reading?
    requires View(cell) == Fold(calls, log) && (cell.Live? ==> cell.rev <= rev)
    ensures ProcOk(calls, log, rev, cell, id, Get(p, cell, |log|))
  {
    var q := Get(p, cell, |log|);
    assert log[..|log|] == log;
    forall k | 0 <= k < |q.seen| ensures SawAt(calls, log, id, q, k) {
      assert SawAt(calls, log, id, p, k);
    }
  }

  lemma {:induction false} DecideOk<V>(calls: nat -> Call<V>, log: seq<Entry<V>>, rev: nat, cell: Cell<V>, id: nat,
      p: Proc<V>)
    requires ProcOk(calls, log, rev, cell, id, p) && p.pc.Fetched?
    ensures ProcOk(calls, log, rev, cell, id, Decide(calls(id), p, p.pc.base, |log|))
  {
    var q := Decide(calls(id), p, p.pc.base, |log|);
    forall k | 0 <= k < |q.seen| ensures SawAt(calls, log, id, q, k) {
      if k < |p.seen| {
        assert SawAt(calls, log, id, p, k);
      }
    }
    forall k | 0 < k < |q.seen| ensures calls(id).fn(q.seen[..k]).Some? {
      assert q.seen[..k] == p.seen[..k];
      assert k == |p.seen| ==> p.seen[..k] == p.seen;
    }
  }

  lemma {:induction false} ReceiveOk<V>(calls: nat -> Call<V>, log: seq<Entry<V>>, rev: nat, cell: Cell<V>, id: nat,
      p: Proc<V>)
    requires ProcOk(calls, log, rev, cell, id, p) && p.pc.Answered?
    ensures ProcOk(calls, log, rev, cell, id, Receive(p, p.pc.ok, |log|))
  {
    var q := Receive(p, p.pc.ok, |log|);
    forall k | 0 <= k < |q.seen| ensures SawAt(calls, log, id, q, k) {
      assert SawAt(calls, log, id, p, k);
    }
    AtSpread(calls, log, id, p, |p.at| - 1);
  }

  /** The caller stops waiting; an unserved request may still arrive later. */
  lemma {:induction false} GiveUpOk<V>(calls: nat -> Call<V>, log: seq<Entry<V>>, rev: nat, cell: Cell<V>, id: nat,
      p: Proc<V>)
    requires ProcOk(calls, log, rev, cell, id, p) && !p.pc.Done?
    ensures ProcOk(calls, log, rev, cell, id, p.(pc := Done(Failed, |log|)))
  {
    var q := p.(pc := Done(Failed, |log|));
    forall k | 0 <= k < |q.seen| ensures SawAt(calls, log, id, q, k) {
      assert SawAt(calls, log, id, p, k);
    }
  }

  /** The key after a request of `id` reached it, and the call's own bookkeeping. */
  function Written<V>(p: Proc<V>, ok: bool, now: nat): Proc<V>
    requires p.req.Some?
  {
    p.(req := None, slot := if ok then Some(now) else p.slot, pc := if p.pc.Waiting? then Answered(ok) else p.pc)
  }

  lemma {:induction false} RefusedOk<V>(calls: nat -> Call<V>, log: seq<Entry<V>>, rev: nat, cell: Cell<V>, id: nat,
      p: Proc<V>)
    requires ProcOk(calls, log, rev, cell, id, p) && p.req.Some? && !Accepts(p.req.value.base, cell)
    ensures ProcOk(calls, log, rev, cell, id, Written(p, false, |log|))
  {
    var q := Written(p, false, |log|);
    forall k | 0 <= k < |q.seen| ensures SawAt(calls, log, id, q, k) {
      assert SawAt(calls, log, id, p, k);
    }
    assert SawAt(calls, log, id, p, |p.seen| - 1);
  }

  /** What a call saw stays true as the log grows. */
  lemma {:induction false} SawKeeps<V>(
    calls: nat -> Call<V>, log: seq<Entry<V>>, log': seq<Entry<V>>, id: nat, p: Proc<V>)
    requires Saw(calls, log, id, p) && log <= log'
    ensures Saw(calls, log', id, p)
  {
    forall k | 0 <= k < |p.seen| ensures SawAt(calls, log', id, p, k) {
      assert SawAt(calls, log, id, p, k);
      assert log'[..p.at[k]] == log[..p.at[k]];
    }
  }

  lemma {:induction false} AcceptedOk<V>(
    calls: nat -> Call<V>, log: seq<Entry<V>>, rev: nat, cell: Cell<V>, id: nat, p: Proc<V>, rev': nat, e: Entry<V>)
    requires ProcOk(calls, log, rev, cell, id, p) && p.req.Some? && Accepts(p.req.value.base, cell)
    requires View(cell) == Fold(calls, log)
    requires e == Commit(id, Earlier(p))
    ensures ProcOk(calls, log + [e], rev', Live(p.req.value.next, rev'), id, Written(p, true, |log|))
    ensures Fold(calls, log + [e]) == Some(p.req.value.next)
  {
    var q, log' := Written(p, true, |log|), log + [e];
    FoldSnoc(calls, log, e);
    assert p.seen[..|p.seen| - 1] + [p.seen[|p.seen| - 1]] == p.seen;
    SawKeeps(calls, log, log', id, p);
    forall k | 0 <= k < |q.seen| ensures SawAt(calls, log', id, q, k) {
      assert SawAt(calls, log', id, p, k);
    }
    if p.read <= |log| {
      assert log'[..p.read] == log[..p.read];
    }
  }

  // ----- the loop itself, among interfering writers -----

  /** What happens around one message: the writes of others that land meanwhile, and whether it is lost. */
  datatype Gust<+V> = Gust(writes: seq<Entry<V>>, broken: bool)

  /** `weather[g]` is met by the g-th message; the messages after its end are undisturbed. */
  class Bucket<V> {
    var cell: Cell<V>
    var rev: nat
    ghost var log: seq<Entry<V>>
    const weather: seq<Gust<V>>
    var tick: nat

    constructor (weather: seq<Gust<V>>)
      ensures this.weather == weather && tick == 0 && cell == Absent && rev == 0 && log == []
    {
      this.weather, tick, cell, rev, log := weather, 0, Absent, 0, [];
    }

    predicate Broken(g: nat) {
      g < |weather| && weather[g].broken
    }

    /** A message was lost between the ticks `a` and `b`. */
    ghost predicate Storm(a: nat, b: nat) {
      exists g :: a <= g < b && Broken(g)
    }

    /** No other writer and no lost message in the next `n` ticks. */
    ghost predicate Calm(a: nat, n: nat) {
      forall g :: a <= g < a + n && g < |weather| ==> weather[g] == Gust([], false)
    }

    ghost predicate Valid(calls: nat -> Call<V>)
      reads this
    {
      View(cell) == Fold(calls, log) && (cell.Live? ==> cell.rev <= rev)
    }

    ghost predicate Holds(calls: nat -> Call<V>, id: nat, p: Proc<V>)
      reads this
    {
      Valid(calls) && ProcOk(calls, log, rev, cell, id, p)
    }

    /** One write by someone else: blind, or the commit of another call. */
    method Foreign(calls: nat -> Call<V>, e: Entry<V>, id: nat, ghost p: Proc<V>)
      requires Holds(calls, id, p) && !By(e, id)
      modifies this`cell, this`rev, this`log
      ensures Holds(calls, id, p)
      ensures log == old(log) + [e] && rev > old(rev)
    {
      ghost var log0, rev0, cell0 := log, rev, cell;
      var next := After(calls, View(cell), e);
      cell := if next.Some? then Live(next.value, rev + 1) else Absent;
      rev := rev + 1;
      log := log + [e];
      FoldSnoc(calls, log0, e);
      KeepOk(calls, log0, rev0, cell0, id, p, log, rev, cell);
    }

    /** The writes of the others around one message; no entry of theirs is a commit of this call. */
    method Others(calls: nat -> Call<V>, id: nat, ghost p: Proc<V>)
      requires Holds(calls, id, p)
      modifies this`cell, this`rev, this`log
      ensures Holds(calls, id, p)
      ensures old(log) <= log
      ensures Calm(tick, 1) ==> cell == old(cell) && rev == old(rev) && log == old(log)
    {
      var writes := if tick < |weather| then weather[tick].writes else [];
      for k := 0 to |writes|
        invariant Holds(calls, id, p) && old(log) <= log
        invariant k == 0 ==> cell == old(cell) && rev == old(rev) && log == old(log)
      {
        if !By(writes[k], id) {
          Foreign(calls, writes[k], id, p);
        }
      }
    }

    /** The CAS write: Update on a live base, Create on an absent one. */
    method Write(calls: nat -> Call<V>, id: nat, ghost p: Proc<V>, base: Cell<V>, next: V, ghost earlier: seq<V>)
      returns (ok: bool)
      requires Holds(calls, id, p) && p.req == Some(Request(base, next)) && earlier == Earlier(p)
      modifies this`cell, this`rev, this`log
      ensures ok == Accepts(base, old(cell))
      ensures if ok then View(cell) == Some(next) else cell == old(cell)
      ensures Holds(calls, id, Written(p, ok, |old(log)|))
      ensures log == if ok then old(log) + [Commit(id, earlier)] else old(log)
    {
      ok := Accepts(base, cell);
      if ok {
        AcceptedOk(calls, log, rev, cell, id, p, rev + 1, Commit(id, earlier));
        log := log + [Commit(id, earlier)];
        rev := rev + 1;
        cell := Live(next, rev);
      } else {
        RefusedOk(calls, log, rev, cell, id, p);
      }
    }

    /** One message is on its way; if it is lost, the caller gives up on a request that may still arrive. */
    method Break(calls: nat -> Call<V>, id: nat, ghost p: Proc<V>) returns (broken: bool, ghost q: Proc<V>)
      requires Holds(calls, id, p) && !p.pc.Done?
      modifies this
      ensures Holds(calls, id, q) && old(log) <= log
      ensures tick == old(tick) + 1 && broken == Storm(old(tick), tick)
      ensures q == if broken then p.(pc := Done(Failed, |log|)) else p
      ensures Calm(old(tick), 1) ==> cell == old(cell) && log == old(log)
    {
      Others(calls, id, p);
      broken := Broken(tick);
      tick := tick + 1;
      q := p;
      if broken {
        GiveUpOk(calls, log, rev, cell, id, p);
        q := p.(pc := Done(Failed, |log|));
      }
    }

    /** The bucket serves the Get. */
    ghost method ServeGet(calls: nat -> Call<V>, id: nat, p: Proc<V>) returns (q: Proc<V>)
      requires Holds(calls, id, p) && p.pc.Reading?
      ensures Holds(calls, id, q) && q.pc == Fetched(cell)
      ensures q.start == p.start && q.attempt == p.attempt && q.seen == p.seen
    {
      GetOk(calls, log, rev, cell, id, p);
      q := Get(p, cell, |log|);
    }

    /** The Get and its answer; others may write before it is served and before the answer is in hand. */
    method Retrieve(calls: nat -> Call<V>, id: nat, ghost p: Proc<V>)
        returns (base: Cell<V>, broken: bool, ghost q: Proc<V>)
      requires Holds(calls, id, p) && p.pc.Reading?
      modifies this
      ensures Holds(calls, id, q) && old(log) <= log
      ensures old(tick) < tick && broken == Storm(old(tick), tick)
      ensures q.start == p.start && q.attempt == p.attempt && q.seen == p.seen
      ensures q.pc == if broken then Done(Failed, |log|) else Fetched(base)
      ensures Calm(old(tick), 2) ==>
                !broken && tick == old(tick) + 2 && base == cell == old(cell) && log == old(log)
    {
      broken, q := Break(calls, id, p);
      base := cell;
      if !broken {
        q := ServeGet(calls, id, q);
        broken, q := Break(calls, id, q);
        StormSplits(old(tick), old(tick) + 1, tick);
        CalmSplits(old(tick), 1, 1);
      }
    }

    /** Get and the callback; `next` is None when the call returns here. */
    method Fetch(calls: nat -> Call<V>, id: nat, seen: seq<V>, ghost p: Proc<V>)
      returns (out: Outcome, next: Option<V>, base: Cell<V>, now: seq<V>, ghost q: Proc<V>)
      requires Holds(calls, id, p) && p.pc.Reading? && seen == p.seen
      modifies this
      ensures Holds(calls, id, q) && old(log) <= log && old(tick) < tick
      ensures q.start == p.start && q.attempt == p.attempt && q.seen == now
      ensures next.None? ==> q.pc.Done? && q.pc.outcome == out
      ensures next.Some? ==> q.pc.Waiting? && q.req == Some(Request(base, next.value))
      ensures Storm(old(tick), tick) <==> next.None? && out == Failed
      ensures !Storm(old(tick), tick) ==>
                && (base.Absent? && calls(id).zero.None? ==> next.None? && out == NotFound && now == seen)
                && (base.Live? ==> now == seen + [base.value])
                && (base.Absent? && calls(id).zero.Some? ==> now == seen + [calls(id).zero.value])
                && (base.Live? || calls(id).zero.Some? ==>
                      next == calls(id).fn(now) && (next.None? ==> out == Declined))
      ensures Calm(old(tick), 2) ==>
                !Storm(old(tick), tick) && tick == old(tick) + 2 && base == cell == old(cell) && log == old(log)
    {
      var broken;
      base, broken, q := Retrieve(calls, id, p);
      out, next, now := Failed, None, seen;
      if !broken {
        DecideOk(calls, log, rev, cell, id, q);
        q := Decide(calls(id), q, base, |log|);
        var given := Given(calls(id), View(base));
        if given.None? {
          out := NotFound;
        } else {
          now := seen + [given.value];
          next := calls(id).fn(now);
          out := Declined;
        }
      }
    }

    /** The write arrives. */
    method Send(calls: nat -> Call<V>, id: nat, base: Cell<V>, next: V, ghost p: Proc<V>)
        returns (ok: bool, ghost q: Proc<V>)
      requires Holds(calls, id, p) && p.pc.Waiting? && p.req == Some(Request(base, next))
      modifies this`cell, this`rev, this`log
      ensures Holds(calls, id, q) && old(log) <= log && ok == Accepts(base, old(cell))
      ensures ok ==> View(cell) == Some(next) && log == old(log) + [Commit(id, Earlier(p))]
      ensures q.start == p.start && q.seen == p.seen && q.attempt == p.attempt && q.pc == Answered(ok)
    {
      ok := Write(calls, id, p, base, next, Earlier(p));
      q := Written(p, ok, if ok then |log| - 1 else |log|);
    }

    /** The reply is lost, or ends the attempt. */
    method Hear(calls: nat -> Call<V>, id: nat, ok: bool, ghost p: Proc<V>) returns (failed: bool, ghost q: Proc<V>)
      requires Holds(calls, id, p) && p.pc == Answered(ok)
      modifies this
      ensures Holds(calls, id, q) && old(log) <= log && q.start == p.start && q.seen == p.seen
      ensures tick == old(tick) + 1 && failed == Storm(old(tick), tick)
      ensures failed ==> q.pc.Done? && q.pc.outcome == Failed
      ensures !failed && ok ==> q.pc.Done? && q.pc.outcome == Committed
      ensures !failed && !ok ==> q.attempt == p.attempt + 1
      ensures !failed && !ok ==>
                if q.attempt < MAX_RETRIES then q.pc.Reading? else q.pc.Done? && q.pc.outcome == Exhausted
      ensures Calm(old(tick), 1) ==> cell == old(cell) && log == old(log)
    {
      failed, q := Break(calls, id, p);
      if !failed {
        ReceiveOk(calls, log, rev, cell, id, q);
        q := Receive(q, ok, |log|);
      }
    }

    /** The write and its reply. */
    method Push(calls: nat -> Call<V>, id: nat, base: Cell<V>, next: V, ghost p: Proc<V>)
      returns (failed: bool, ok: bool, ghost q: Proc<V>)
      requires Holds(calls, id, p) && p.pc.Waiting? && p.req == Some(Request(base, next))
      modifies this
      ensures Holds(calls, id, q) && old(log) <= log
      ensures old(tick) < tick && failed == Storm(old(tick), tick)
      ensures q.start == p.start && q.seen == p.seen
      ensures failed ==> q.pc.Done? && q.pc.outcome == Failed
      ensures !failed && ok ==> q.pc.Done? && q.pc.outcome == Committed
      ensures !failed && !ok ==> q.attempt == p.attempt + 1
      ensures !failed && !ok ==>
                if q.attempt < MAX_RETRIES then q.pc.Reading? else q.pc.Done? && q.pc.outcome == Exhausted
      ensures Calm(old(tick), 2) ==> !failed && ok == Accepts(base, old(cell))
      ensures Calm(old(tick), 2) && ok ==> View(cell) == Some(next) && log == old(log) + [Commit(id, Earlier(p))]
    {
      ok := false;
      failed, q := Break(calls, id, p);
      if !failed {
        ok, q := Send(calls, id, base, next, q);
        failed, q := Hear(calls, id, ok, q);
      }
    }

    /** What an undisturbed attempt leaves whose callback is handed `given`, after `seen` on earlier attempts. */
    ghost predicate Ran(calls: nat -> Call<V>, id: nat, seen: seq<V>, given: V, out: Outcome, was: Cell<V>,
        before: seq<Entry<V>>)
      reads this
    {
      match calls(id).fn(seen + [given])
      case None => out == Declined && cell == was && log == before
      case Some(next) => out == Committed && View(cell) == Some(next) && log == before + [Commit(id, seen)]
    }

    /** An undisturbed attempt: it returns, with the answer that the key and the callback call for. */
    ghost predicate Alone(calls: nat -> Call<V>, id: nat, seen: seq<V>, out: Outcome, was: Cell<V>,
        before: seq<Entry<V>>)
      reads this
    {
      match was
      case Live(value, _) => Ran(calls, id, seen, value, out, was, before)
      case Absent =>
        if calls(id).zero.Some? then Ran(calls, id, seen, calls(id).zero.value, out, was, before)
        else out == NotFound && cell == was && log == before
    }

    /** One attempt; `done` when the call returns after it. */
    method Attempt(calls: nat -> Call<V>, id: nat, seen: seq<V>, ghost p: Proc<V>)
        returns (done: bool, out: Outcome, now: seq<V>, ghost q: Proc<V>)
      requires Holds(calls, id, p) && p.pc.Reading? && seen == p.seen
      modifies this
      ensures Holds(calls, id, q) && old(log) <= log && old(tick) < tick
      ensures q.start == p.start && q.seen == now
      ensures done ==> q.pc.Done? && q.pc.outcome == out && (out == Failed <==> Storm(old(tick), tick))
      ensures !done ==> q.attempt == p.attempt + 1 && !Storm(old(tick), tick)
      ensures !done ==> if q.attempt < MAX_RETRIES then q.pc.Reading? else q.pc.Done? && q.pc.outcome == Exhausted
      ensures Calm(old(tick), 4) ==> done && Alone(calls, id, seen, out, old(cell), old(log))
    {
      var next, base, failed, ok;
      CalmSplits(tick, 2, 2);
      out, next, base, now, q := Fetch(calls, id, seen, p);
      done := true;
      if next.Some? {
        ghost var t1 := tick;
        assert Earlier(q) == seen;
        failed, ok, q := Push(calls, id, base, next.value, q);
        StormSplits(old(tick), t1, tick);
        done := failed || ok;
        out := if failed then Failed else Committed;
      }
    }

    /**
     * MutateAllocation (no zero record) and mutateCooldown (zero record): read, run the callback,
     * write on the revision read, and start over on a conflict. `p` is the call's history; ProcOk of
     * a returned call says what its outcome promises. The call fails exactly when a message of its own
     * is lost, and a call whose first four messages go undisturbed does what its callback says.
     */
    method Mutate(calls: nat -> Call<V>, id: nat) returns (out: Outcome, ghost p: Proc<V>)
      requires Valid(calls) && OnlyAt(log, id, None)
      modifies this
      ensures Holds(calls, id, p)
      ensures p.pc.Done? && p.pc.outcome == out && p.start == |old(log)| && old(log) <= log
      ensures out == Failed <==> Storm(old(tick), tick)
      ensures Calm(old(tick), 4) ==> Alone(calls, id, [], out, old(cell), old(log))
    {
      p := Fresh(|log|);
      var seen, attempt := [], 0;
      while attempt < MAX_RETRIES
        invariant Holds(calls, id, p) && old(log) <= log && p.start == |old(log)|
        invariant attempt == p.attempt <= MAX_RETRIES && seen == p.seen
        invariant if attempt < MAX_RETRIES then p.pc.Reading? else p.pc.Done? && p.pc.outcome == Exhausted
        invariant old(tick) <= tick && !Storm(old(tick), tick)
        invariant attempt > 0 ==> !Calm(old(tick), 4)
        invariant attempt == 0 ==> tick == old(tick) && cell == old(cell) && log == old(log) && seen == []
      {
        ghost var t1 := tick;
        var done;
        done, out, seen, p := Attempt(calls, id, seen, p);
        StormSplits(old(tick), t1, tick);
        if done {
          return;
        }
        attempt := attempt + 1;
      }
      out := Exhausted;
    }

    lemma StormSplits(a: nat, b: nat, c: nat)
      requires a <= b <= c
      ensures Storm(a, c) <==> Storm(a, b) || Storm(b, c)
    {
    }

    lemma CalmSplits(a: nat, m: nat, n: nat)
      ensures Calm(a, m + n) <==> Calm(a, m) && Calm(a + m, n)
      ensures Calm(a, m) ==> !Storm(a, a + m)
    {
    }
  }
}

/** Any number of calls, blind writes and lost replies on one key, in any order. */
module CasSystem {
  import opened Wrappers
  import opened CasStore

  datatype Sys<+V> = Sys(cell: Cell<V>, rev: nat, log: seq<Entry<V>>, procs: map<nat, Proc<V>>)

  datatype Step<+V> =
    | Begin(id: nat)
    | ServeGet(id: nat)
    | Callback(id: nat)
    | Serve(id: nat)
    | Reply(id: nat)
    | GiveUp(id: nat)
    | BlindPut(value: V)
    | BlindDelete
    | Elsewhere

  predicate Enabled<V>(s: Sys<V>, step: Step<V>) {
    match step
    case Begin(id) => id !in s.procs
    case ServeGet(id) => id in s.procs && s.procs[id].pc.Reading?
    case Callback(id) => id in s.procs && s.procs[id].pc.Fetched?
    case Serve(id) => id in s.procs && s.procs[id].req.Some?
    case Reply(id) => id in s.procs && s.procs[id].pc.Answered?
    case GiveUp(id) => id in s.procs && !s.procs[id].pc.Done?
    case BlindPut(_) => true
    case BlindDelete => true
    case Elsewhere => true
  }

  function Append<V>(s: Sys<V>, cell: Cell<V>, e: Entry<V>): Sys<V> {
    s.(cell := cell, rev := s.rev + 1, log := s.log + [e])
  }

  function Apply<V>(calls: nat -> Call<V>, s: Sys<V>, step: Step<V>): Sys<V>
    requires Enabled(s, step)
  {
    var now := |s.log|;
    match step
    case Begin(id) => s.(procs := s.procs[id := Fresh(now)])
    case ServeGet(id) => s.(procs := s.procs[id := Get(s.procs[id], s.cell, now)])
    case Callback(id) => s.(procs := s.procs[id := Decide(calls(id), s.procs[id], s.procs[id].pc.base, now)])
    case Serve(id) =>
      var p := s.procs[id];
      if Accepts(p.req.value.base, s.cell) then
        Append(s, Live(p.req.value.next, s.rev + 1), Commit(id, Earlier(p)))
          .(procs := s.procs[id := Written(p, true, now)])
      else s.(procs := s.procs[id := Written(p, false, now)])
    case Reply(id) => s.(procs := s.procs[id := Receive(s.procs[id], s.procs[id].pc.ok, now)])
    case GiveUp(id) => s.(procs := s.procs[id := s.procs[id].(pc := Done(Failed, now))])
    case BlindPut(v) => Append(s, Live(v, s.rev + 1), Put(v))
    case BlindDelete => Append(s, Absent, Delete)
    case Elsewhere => s.(rev := s.rev + 1)
  }

  function Start<V>(): Sys<V> {
    Sys(Absent, 0, [], map[])
  }

  ghost predicate IsRun<V(!new)>(calls: nat -> Call<V>, run: seq<Sys<V>>) {
    && |run| > 0 && run[0] == Start()
    && forall k :: 0 <= k < |run| - 1 ==> Moves(calls, run[k], run[k + 1])
  }

  ghost predicate Moves<V(!new)>(calls: nat -> Call<V>, s: Sys<V>, t: Sys<V>) {
    exists step :: Enabled(s, step) && t == Apply(calls, s, step)
  }

  ghost predicate CallOk<V>(calls: nat -> Call<V>, s: Sys<V>, id: nat)
    requires id in s.procs
  {
    ProcOk(calls, s.log, s.rev, s.cell, id, s.procs[id])
  }

  ghost predicate Inv<V>(calls: nat -> Call<V>, s: Sys<V>) {
    && View(s.cell) == Fold(calls, s.log)
    && (s.cell.Live? ==> s.cell.rev <= s.rev)
    && (forall i :: 0 <= i < |s.log| && s.log[i].Commit? ==> s.log[i].id in s.procs)
    && (forall id :: id in s.procs ==> CallOk(calls, s, id))
  }

  /** Every call but `id` is unaffected by what `id` or a blind writer did to the key. */
  lemma {:induction false} OthersKeep<V>(calls: nat -> Call<V>, s: Sys<V>, t: Sys<V>, id: nat)
    requires Inv(calls, s)
    requires s.rev <= t.rev && s.procs.Keys <= t.procs.Keys
    requires forall j :: j in s.procs && j != id ==> t.procs[j] == s.procs[j]
    requires (t.log == s.log && t.cell == s.cell)
          || (Grew(s.log, s.rev, t.log, t.cell) && (t.log[|s.log|].Commit? ==> t.log[|s.log|].id == id))
    ensures forall j :: j in s.procs && j != id ==> CallOk(calls, t, j)
  {
    forall j | j in s.procs && j != id ensures CallOk(calls, t, j) {
      assert CallOk(calls, s, j);
      KeepOk(calls, s.log, s.rev, s.cell, j, s.procs[j], t.log, t.rev, t.cell);
    }
  }

  /** Putting the one call that moved back among the others. */
  lemma {:induction false} Together<V>(calls: nat -> Call<V>, s: Sys<V>, t: Sys<V>, id: nat)
    requires View(t.cell) == Fold(calls, t.log) && (t.cell.Live? ==> t.cell.rev <= t.rev)
    requires t.procs.Keys == s.procs.Keys + {id}
    requires forall i :: 0 <= i < |t.log| && t.log[i].Commit? ==> t.log[i].id in t.procs
    requires forall j :: j in s.procs && j != id ==> CallOk(calls, t, j)
    requires ProcOk(calls, t.log, t.rev, t.cell, id, t.procs[id])
    ensures Inv(calls, t)
  {
  }

  /** A call moves without touching the key. */
  lemma {:induction false} LocalInv<V>(calls: nat -> Call<V>, s: Sys<V>, id: nat, q: Proc<V>)
    requires Inv(calls, s) && ProcOk(calls, s.log, s.rev, s.cell, id, q)
    ensures Inv(calls, s.(procs := s.procs[id := q]))
  {
  }

  /** The committing call itself, and the key it leaves. */
  lemma {:induction false} CommitSelf<V>(calls: nat -> Call<V>, s: Sys<V>, id: nat)
    requires View(s.cell) == Fold(calls, s.log) && Enabled(s, Serve(id)) && CallOk(calls, s, id)
    requires Accepts(s.procs[id].req.value.base, s.cell)
    ensures var t := Apply(calls, s, Serve(id));
            && id in t.procs && ProcOk(calls, t.log, t.rev, t.cell, id, t.procs[id])
            && View(t.cell) == Fold(calls, t.log) && Grew(s.log, s.rev, t.log, t.cell) && By(t.log[|s.log|], id)
  {
    var p := s.procs[id];
    AcceptedOk(calls, s.log, s.rev, s.cell, id, p, s.rev + 1, Commit(id, Earlier(p)));
  }

  lemma {:induction false} CommitInv<V>(calls: nat -> Call<V>, s: Sys<V>, id: nat)
    requires Inv(calls, s) && Enabled(s, Serve(id)) && Accepts(s.procs[id].req.value.base, s.cell)
    ensures Inv(calls, Apply(calls, s, Serve(id)))
  {
    var t := Apply(calls, s, Serve(id));
    assert CallOk(calls, s, id);
    CommitSelf(calls, s, id);
    CommitOthers(calls, s, t, id);
    Together(calls, s, t, id);
  }

  lemma {:induction false} CommitOthers<V>(calls: nat -> Call<V>, s: Sys<V>, t: Sys<V>, id: nat)
    requires Inv(calls, s) && id in s.procs && Grew(s.log, s.rev, t.log, t.cell) && By(t.log[|s.log|], id)
    requires s.rev <= t.rev && id in t.procs && t.procs == s.procs[id := t.procs[id]]
    ensures forall j :: j in s.procs && j != id ==> CallOk(calls, t, j)
    ensures forall i :: 0 <= i < |t.log| && t.log[i].Commit? ==> t.log[i].id in t.procs
  {
    OthersKeep(calls, s, t, id);
    forall i | 0 <= i < |t.log| && t.log[i].Commit? ensures t.log[i].id in t.procs {
      if i < |s.log| {
        assert t.log[i] == t.log[..|s.log|][i] == s.log[i];
      }
    }
  }

  lemma {:induction false} ProcNext<V>(calls: nat -> Call<V>, s: Sys<V>, id: nat, step: Step<V>)
    requires View(s.cell) == Fold(calls, s.log) && (s.cell.Live? ==> s.cell.rev <= s.rev)
    requires Enabled(s, step) && id in s.procs && CallOk(calls, s, id)
    requires step == ServeGet(id) || step == Callback(id) || step == Reply(id) || step == GiveUp(id)
          || (step == Serve(id) && !Accepts(s.procs[id].req.value.base, s.cell))
    ensures ProcOk(calls, s.log, s.rev, s.cell, id, Apply(calls, s, step).procs[id])
  {
    match step
    case ServeGet(_) => GetOk(calls, s.log, s.rev, s.cell, id, s.procs[id]);
    case Callback(_) => DecideOk(calls, s.log, s.rev, s.cell, id, s.procs[id]);
    case Reply(_) => ReceiveOk(calls, s.log, s.rev, s.cell, id, s.procs[id]);
    case GiveUp(_) => GiveUpOk(calls, s.log, s.rev, s.cell, id, s.procs[id]);
    case Serve(_) => RefusedOk(calls, s.log, s.rev, s.cell, id, s.procs[id]);
  }

  lemma {:induction false} ProcInv<V>(calls: nat -> Call<V>, s: Sys<V>, step: Step<V>)
    requires Inv(calls, s) && Enabled(s, step)
    requires step.Begin? || step.ServeGet? || step.Callback? || step.Reply? || step.GiveUp?
          || (step.Serve? && !Accepts(s.procs[step.id].req.value.base, s.cell))
    ensures Inv(calls, Apply(calls, s, step))
  {
    if step.Begin? {
      assert ProcOk(calls, s.log, s.rev, s.cell, step.id, Fresh(|s.log|));
    } else {
      assert CallOk(calls, s, step.id);
      ProcNext(calls, s, step.id, step);
    }
    LocalInv(calls, s, step.id, Apply(calls, s, step).procs[step.id]);
  }

  /** A blind Put or Delete, whatever the calls are doing. */
  lemma {:induction false} BlindInv<V>(calls: nat -> Call<V>, s: Sys<V>, cell: Cell<V>, e: Entry<V>)
    requires Inv(calls, s) && !e.Commit? && View(cell) == After(calls, View(s.cell), e)
    requires cell.Live? ==> cell.rev == s.rev + 1
    ensures Inv(calls, Append(s, cell, e))
  {
    var t := Append(s, cell, e);
    FoldSnoc(calls, s.log, e);
    BlindOthers(calls, s, cell, e);
  }

  lemma {:induction false} BlindOthers<V>(calls: nat -> Call<V>, s: Sys<V>, cell: Cell<V>, e: Entry<V>)
    requires Inv(calls, s) && !e.Commit? && (cell.Live? ==> cell.rev == s.rev + 1)
    ensures forall j :: j in s.procs ==> CallOk(calls, Append(s, cell, e), j)
  {
    var t := Append(s, cell, e);
    forall j | j in s.procs ensures CallOk(calls, t, j) {
      assert CallOk(calls, s, j);
      KeepOk(calls, s.log, s.rev, s.cell, j, s.procs[j], t.log, t.rev, t.cell);
    }
  }

  lemma {:induction false} PutInv<V>(calls: nat -> Call<V>, s: Sys<V>, v: V)
    requires Inv(calls, s)
    ensures Inv(calls, Apply(calls, s, BlindPut(v)))
  {
    BlindInv(calls, s, Live(v, s.rev + 1), Put(v));
    assert Apply(calls, s, BlindPut(v)) == Append(s, Live(v, s.rev + 1), Put(v));
  }

  lemma {:induction false} DeleteInv<V>(calls: nat -> Call<V>, s: Sys<V>)
    requires Inv(calls, s)
    ensures Inv(calls, Apply(calls, s, BlindDelete))
  {
    BlindInv(calls, s, Absent, Delete);
    assert Apply(calls, s, BlindDelete) == Append(s, Absent, Delete);
  }

  /** A revision is spent on another key. */
  lemma {:induction false} ElsewhereInv<V>(calls: nat -> Call<V>, s: Sys<V>)
    requires Inv(calls, s)
    ensures Inv(calls, Apply(calls, s, Elsewhere))
  {
    var t := s.(rev := s.rev + 1);
    forall j | j in s.procs ensures CallOk(calls, t, j) {
      assert CallOk(calls, s, j);
      KeepOk(calls, s.log, s.rev, s.cell, j, s.procs[j], t.log, t.rev, t.cell);
    }
  }

  lemma {:induction false} StepInv<V>(calls: nat -> Call<V>, s: Sys<V>, step: Step<V>)
    requires Inv(calls, s) && Enabled(s, step)
    ensures Inv(calls, Apply(calls, s, step))
  {
    if step.BlindPut? {
      PutInv(calls, s, step.value);
    } else if step.BlindDelete? {
      DeleteInv(calls, s);
    } else if step.Elsewhere? {
      ElsewhereInv(calls, s);
    } else if step.Serve? && Accepts(s.procs[step.id].req.value.base, s.cell) {
      CommitInv(calls, s, step.id);
    } else {
      ProcInv(calls, s, step);
    }
  }

  lemma {:induction false} RunInv<V(!new)>(calls: nat -> Call<V>, run: seq<Sys<V>>, k: nat)
    requires IsRun(calls, run) && k < |run|
    ensures Inv(calls, run[k])
  {
    if k > 0 {
      RunInv(calls, run, k - 1);
      assert Moves(calls, run[k - 1], run[k - 1 + 1]);
      var step :| Enabled(run[k - 1], step) && run[k] == Apply(calls, run[k - 1], step);
      StepInv(calls, run[k - 1], step);
    }
  }

  // ----- what callers may rely on -----

  ghost function Commits<V>(log: seq<Entry<V>>, id: nat): nat {
    if log == [] then 0 else Commits(log[..|log| - 1], id) + if By(log[|log| - 1], id) then 1 else 0
  }

  lemma {:induction false} CommitsOnly<V>(log: seq<Entry<V>>, id: nat, slot: Option<nat>)
    requires OnlyAt(log, id, slot)
    ensures Commits(log, id) == if slot.Some? then 1 else 0
  {
    if log != [] {
      var front := log[..|log| - 1];
      var before := if slot == Some(|log| - 1) then None else slot;
      forall i | 0 <= i < |front| ensures By(front[i], id) <==> before == Some(i) {
        assert front[i] == log[i];
      }
      CommitsOnly(front, id, before);
      assert By(log[|log| - 1], id) <==> slot == Some(|log| - 1);
    }
  }

  /**
   * No lost update: at every moment of every run the key holds exactly what the committed callbacks
   * make of it when each is handed the value its predecessor left.
   */
  lemma NoLostUpdate<V(!new)>(calls: nat -> Call<V>, run: seq<Sys<V>>, k: nat)
    requires IsRun(calls, run) && k < |run|
    ensures View(run[k].cell) == Fold(calls, run[k].log)
  {
    RunInv(calls, run, k);
  }

  /** What a call's answer tells its caller about the key. */
  ghost predicate Promise<V>(calls: nat -> Call<V>, log: seq<Entry<V>>, id: nat, p: Proc<V>)
    requires p.pc.Done?
  {
    && |p.at| == |p.seen| <= MAX_RETRIES
    && p.start <= p.pc.end <= |log|
    && match p.pc.outcome
       case Committed =>
         Commits(log, id) == 1 && exists i :: p.start <= i < p.pc.end && By(log[i], id)
       case Declined =>
         && Commits(log, id) == 0 && |p.seen| > 0 && calls(id).fn(p.seen).None?
         && exists m :: p.start <= m <= p.pc.end
                        && Given(calls(id), Fold(calls, log[..m])) == Some(p.seen[|p.seen| - 1])
       case NotFound =>
         && Commits(log, id) == 0 && calls(id).zero.None?
         && exists m :: p.start <= m <= p.pc.end && Fold(calls, log[..m]).None?
       case Exhausted =>
         && Commits(log, id) == 0 && p.pc.end - p.start >= MAX_RETRIES
         && forall i :: p.start <= i < p.pc.end ==> !By(log[i], id)
       case Failed => Commits(log, id) <= 1
  }

  /**
   * A nil answer means one commit inside the call, or a decline of a value current at some moment of the
   * call. Not-found means a moment without the key and no commit; exhaustion means none either and needs
   * eight foreign writes during the call. Any other error leaves at most one commit, possibly after the return.
   */
  lemma {:induction false} Returned<V(!new)>(calls: nat -> Call<V>, run: seq<Sys<V>>, k: nat, id: nat)
    requires IsRun(calls, run) && k < |run| && id in run[k].procs && run[k].procs[id].pc.Done?
    ensures Promise(calls, run[k].log, id, run[k].procs[id])
  {
    RunInv(calls, run, k);
    assert CallOk(calls, run[k], id);
    var s, p := run[k], run[k].procs[id];
    CommitsOnly(s.log, id, p.slot);
    if p.pc.outcome == Committed {
      assert By(s.log[p.slot.value], id);
    }
    if p.pc.outcome == Declined {
      assert SawAt(calls, s.log, id, p, |p.seen| - 1);
    }
  }

  /** Commits respect real time: a call that returned before another began comes first in the log. */
  lemma {:induction false} RealTimeOrder<V(!new)>(calls: nat -> Call<V>, run: seq<Sys<V>>, k: nat, a: nat, b: nat,
      i: nat, j: nat)
    requires IsRun(calls, run) && k < |run| && a in run[k].procs && b in run[k].procs
    requires var p := run[k].procs[a]; p.pc.Done? && p.pc.outcome == Committed && p.pc.end <= run[k].procs[b].start
    requires i < |run[k].log| && j < |run[k].log| && By(run[k].log[i], a) && By(run[k].log[j], b)
    ensures i < j
  {
    RunInv(calls, run, k);
    assert CallOk(calls, run[k], a);
    assert CallOk(calls, run[k], b);
  }

  // ----- what a call does do: runs with their steps -----

  ghost predicate IsRunBy<V(!new)>(calls: nat -> Call<V>, run: seq<Sys<V>>, steps: seq<Step<V>>) {
    && |run| == |steps| + 1 && run[0] == Start()
    && forall k :: 0 <= k < |steps| ==> Enabled(run[k], steps[k]) && run[k + 1] == Apply(calls, run[k], steps[k])
  }

  lemma StepsRun<V(!new)>(calls: nat -> Call<V>, run: seq<Sys<V>>, steps: seq<Step<V>>)
    requires IsRunBy(calls, run, steps)
    ensures IsRun(calls, run)
  {
    forall k | 0 <= k < |run| - 1 ensures Moves(calls, run[k], run[k + 1]) {
      assert Enabled(run[k], steps[k]) && run[k + 1] == Apply(calls, run[k], steps[k]);
    }
  }

  /** A call returns an error other than not-found and exhaustion only after it gave up on a message. */
  lemma {:induction false} FailedGaveUp<V(!new)>(
    calls: nat -> Call<V>, run: seq<Sys<V>>, steps: seq<Step<V>>, k: nat, id: nat)
    requires IsRunBy(calls, run, steps) && k < |run| && id in run[k].procs
    requires run[k].procs[id].pc.Done? && run[k].procs[id].pc.outcome == Failed
    ensures exists j :: 0 <= j < k && steps[j] == GiveUp(id)
  {
    assert k > 0;
    assert Enabled(run[k - 1], steps[k - 1]) && run[k] == Apply(calls, run[k - 1], steps[k - 1]);
    if id in run[k - 1].procs && run[k - 1].procs[id].pc.Done? && run[k - 1].procs[id].pc.outcome == Failed {
      FailedGaveUp(calls, run, steps, k - 1, id);
    } else {
      FailsNow(calls, run[k - 1], steps[k - 1], id);
    }
  }

  lemma FailsNow<V>(calls: nat -> Call<V>, s: Sys<V>, step: Step<V>, id: nat)
    requires Enabled(s, step)
    requires var t := Apply(calls, s, step); id in t.procs && t.procs[id].pc.Done? && t.procs[id].pc.outcome == Failed
    requires !(id in s.procs && s.procs[id].pc.Done? && s.procs[id].pc.outcome == Failed)
    ensures step == GiveUp(id)
  {
  }

  /**
   * What the callback makes of a read, in every run: the value the key had at a moment `m` of the call, or
   * the zero record for a missing key, is handed over after those of the earlier attempts, and the answer
   * is sent as a write of exactly that value. A missing key without a zero record ends the call.
   */
  ghost predicate CallbackRan<V>(call: Call<V>, held: Option<V>, p: Proc<V>, q: Proc<V>, now: nat) {
    && q.start == p.start && q.attempt == p.attempt
    && match held
       case None =>
         if call.zero.None? then q.pc == Done(NotFound, now) && q.seen == p.seen && q.req.None?
         else q.seen == p.seen + [call.zero.value] && Sends(call, q, now)
       case Some(v) => q.seen == p.seen + [v] && Sends(call, q, now)
  }

  ghost predicate Sends<V>(call: Call<V>, q: Proc<V>, now: nat) {
    match call.fn(q.seen)
    case None => q.pc == Done(Declined, now) && q.req.None?
    case Some(next) => q.pc == Waiting && q.req.Some? && q.req.value.next == next
  }

  lemma {:induction false} CallbackExactly<V(!new)>(
    calls: nat -> Call<V>, run: seq<Sys<V>>, steps: seq<Step<V>>, k: nat, id: nat)
    requires IsRunBy(calls, run, steps) && k < |steps| && steps[k] == Callback(id)
    ensures id in run[k].procs && id in run[k + 1].procs
    ensures var p := run[k].procs[id];
            && p.start <= p.read <= |run[k].log|
            && CallbackRan(calls(id), Fold(calls, run[k].log[..p.read]), p, run[k + 1].procs[id], |run[k].log|)
    ensures run[k + 1] == run[k].(procs := run[k].procs[id := run[k + 1].procs[id]])
  {
    StepsRun(calls, run, steps);
    RunInv(calls, run, k);
    assert Enabled(run[k], steps[k]) && run[k + 1] == Apply(calls, run[k], steps[k]);
    assert CallOk(calls, run[k], id);
  }

  /**
   * What becomes of a write, in every run: on a key that nobody wrote since the call's last read it commits,
   * the log gains the commit, and the key holds what the callback returned. Otherwise nothing changes.
   */
  lemma {:induction false} ServeExactly<V(!new)>(
    calls: nat -> Call<V>, run: seq<Sys<V>>, steps: seq<Step<V>>, k: nat, id: nat)
    requires IsRunBy(calls, run, steps) && k < |steps| && steps[k] == Serve(id)
    ensures id in run[k].procs && id in run[k + 1].procs
    ensures var s, t := run[k], run[k + 1];
            var p, q := s.procs[id], t.procs[id];
            && |p.seen| == |p.at| > 0 && p.slot.None? && calls(id).fn(p.seen).Some?
            && (p.at[|p.at| - 1] == |s.log| ==> q.slot.Some?)
            && (q.slot.Some? ==> View(t.cell) == calls(id).fn(p.seen) && q.slot == Some(|s.log|)
                                 && t.log == s.log + [Commit(id, p.seen[..|p.seen| - 1])])
            && (q.slot.None? ==> t.cell == s.cell && t.log == s.log)
            && (p.pc.Waiting? ==> q == p.(pc := Answered(q.slot.Some?), req := None, slot := q.slot))
            && t.procs == s.procs[id := q]
  {
    StepsRun(calls, run, steps);
    RunInv(calls, run, k);
    assert Enabled(run[k], steps[k]) && run[k + 1] == Apply(calls, run[k], steps[k]);
    assert CallOk(calls, run[k], id);
  }

  /** What a reply tells its caller, in every run: the commit on record, or a conflict and another attempt. */
  lemma {:induction false} ReplyExactly<V(!new)>(
    calls: nat -> Call<V>, run: seq<Sys<V>>, steps: seq<Step<V>>, k: nat, id: nat)
    requires IsRunBy(calls, run, steps) && k < |steps| && steps[k] == Reply(id)
    ensures id in run[k].procs && id in run[k + 1].procs
    ensures var p, q, now := run[k].procs[id], run[k + 1].procs[id], |run[k].log|;
            && (Commits(run[k].log, id) == 1 ==> q == p.(pc := Done(Committed, now)))
            && (Commits(run[k].log, id) != 1 ==>
                  && q.attempt == p.attempt + 1 == |p.seen| && q.seen == p.seen
                  && (|p.seen| < MAX_RETRIES ==> q.pc == Reading)
                  && (|p.seen| == MAX_RETRIES ==> q.pc == Done(Exhausted, now)))
    ensures run[k + 1] == run[k].(procs := run[k].procs[id := run[k + 1].procs[id]])
  {
    StepsRun(calls, run, steps);
    RunInv(calls, run, k);
    assert Enabled(run[k], steps[k]) && run[k + 1] == Apply(calls, run[k], steps[k]);
    assert CallOk(calls, run[k], id);
    CommitsOnly(run[k].log, id, run[k].procs[id].slot);
  }

  lemma Extend<V(!new)>(calls: nat -> Call<V>, run: seq<Sys<V>>, step: Step<V>) returns (next: seq<Sys<V>>)
    requires IsRun(calls, run) && Enabled(run[|run| - 1], step)
    ensures IsRun(calls, next) && run <= next
    ensures |next| == |run| + 1 && next[|run|] == Apply(calls, run[|run| - 1], step)
  {
    next := run + [Apply(calls, run[|run| - 1], step)];
    forall k | 0 <= k < |next| - 1 ensures Moves(calls, next[k], next[k + 1]) {
      if k < |run| - 1 {
        assert Moves(calls, run[k], run[k + 1]);
      }
    }
  }

  /** A call has returned with `out`, has not touched the key, and no other call has moved. */
  ghost predicate Left<V>(s: Sys<V>, t: Sys<V>, id: nat, out: Outcome) {
    && t.procs.Keys == s.procs.Keys + {id}
    && (forall j :: j in s.procs && j != id ==> t.procs[j] == s.procs[j])
    && t.procs[id].pc.Done? && t.procs[id].pc.outcome == out
    && t.log == s.log && t.cell == s.cell
  }

  /** A call has committed `next` on top of `s`, and no other call has moved. */
  ghost predicate Wrote<V>(s: Sys<V>, t: Sys<V>, id: nat, seen: seq<V>, next: V) {
    && t.procs.Keys == s.procs.Keys + {id}
    && (forall j :: j in s.procs && j != id ==> t.procs[j] == s.procs[j])
    && t.procs[id].pc.Done? && t.procs[id].pc.outcome == Committed
    && t.log == s.log + [Commit(id, seen)] && View(t.cell) == Some(next)
  }

  /** What a call that is handed `given` on top of `seen` makes of `s`. */
  ghost predicate Acted<V>(call: Call<V>, s: Sys<V>, t: Sys<V>, id: nat, seen: seq<V>, given: V) {
    && id in t.procs && t.procs[id].seen == seen + [given]
    && match call.fn(seen + [given])
       case None => Left(s, t, id, Declined)
       case Some(next) => Wrote(s, t, id, seen, next)
  }

  /** What a call that runs alone from `s` on leaves: `seen` is what its callback was handed before. */
  ghost predicate Finished<V>(call: Call<V>, s: Sys<V>, t: Sys<V>, id: nat, seen: seq<V>) {
    match s.cell
    case Live(value, _) => Acted(call, s, t, id, seen, value)
    case Absent =>
      if call.zero.Some? then Acted(call, s, t, id, seen, call.zero.value) else Left(s, t, id, NotFound)
  }

  /** From every reachable state a call about to read, left alone, returns what the key and its callback call for. */
  lemma {:induction false} AloneFinishes<V(!new)>(calls: nat -> Call<V>, run: seq<Sys<V>>, id: nat)
      returns (next: seq<Sys<V>>)
    requires IsRun(calls, run) && id in run[|run| - 1].procs && run[|run| - 1].procs[id].pc.Reading?
    ensures IsRun(calls, next) && run <= next
    ensures var s := run[|run| - 1]; Finished(calls(id), s, next[|next| - 1], id, s.procs[id].seen)
  {
    var s := run[|run| - 1];
    next := Extend(calls, run, ServeGet(id));
    next := Extend(calls, next, Callback(id));
    var t := next[|next| - 1];
    if t.procs[id].pc.Waiting? {
      assert Earlier(t.procs[id]) == s.procs[id].seen;
      next := Extend(calls, next, Serve(id));
      next := Extend(calls, next, Reply(id));
    }
  }

  /** From every reachable state a call that has not begun, run alone, does the same. */
  lemma {:induction false} FreshFinishes<V(!new)>(calls: nat -> Call<V>, run: seq<Sys<V>>, id: nat)
      returns (next: seq<Sys<V>>)
    requires IsRun(calls, run) && id !in run[|run| - 1].procs
    ensures IsRun(calls, next) && run <= next
    ensures Finished(calls(id), run[|run| - 1], next[|next| - 1], id, [])
  {
    next := Extend(calls, run, Begin(id));
    next := AloneFinishes(calls, next, id);
  }
}
