/**
 * The reconciler's work queue. Every operation runs under one mutex, so a run is a sequence of
 * operations by any number of workers.
 */
module Workqueue {
  import opened Wrappers
  import Sorting

  datatype Wq = Wq(queue: seq<string>, dirty: set<string>, processing: set<string>, closed: bool)

  function Added(q: Wq, k: string): Wq {
    if q.closed || k in q.dirty then q
    else if k in q.processing then q.(dirty := q.dirty + {k})
    else q.(dirty := q.dirty + {k}, queue := q.queue + [k])
  }

  function Taken(q: Wq): Wq
    requires q.queue != []
  {
    var k := q.queue[0];
    q.(queue := q.queue[1..], dirty := q.dirty - {k}, processing := q.processing + {k})
  }

  function Finished(q: Wq, k: string): Wq {
    var p := q.(processing := q.processing - {k});
    if k in q.dirty then p.(dirty := q.dirty - {k}, queue := q.queue + [k]) else p
  }

  /** A Get on an empty queue waits or reports the shutdown; neither changes anything. */
  datatype Op = Add(key: string) | Get | Done(key: string) | ShutDown

  function Apply(q: Wq, op: Op): Wq {
    match op
    case Add(k) => Added(q, k)
    case Get => if q.queue == [] then q else Taken(q)
    case Done(k) => Finished(q, k)
    case ShutDown => q.(closed := true)
  }

  /** The operation hands out k. */
  predicate Hands(q: Wq, op: Op, k: string) {
    op.Get? && q.queue != [] && q.queue[0] == k
  }

  ghost predicate IsRun(run: seq<Wq>, ops: seq<Op>) {
    && |run| == |ops| + 1
    && run[0] == Wq([], {}, {}, false)
    && forall i :: 0 <= i < |ops| ==> run[i + 1] == Apply(run[i], ops[i])
  }

  // ----- no Add is lost -----

  ghost predicate Inv(q: Wq) {
    forall k :: k in q.dirty ==> k in q.queue || k in q.processing
  }

  ghost predicate Owed(q: Wq, k: string) {
    k in q.queue || (k in q.processing && k in q.dirty)
  }

  lemma {:induction false} ApplyInv(q: Wq, op: Op)
    requires Inv(q)
    ensures Inv(Apply(q, op))
  {
  }

  lemma {:induction false} RunInv(run: seq<Wq>, ops: seq<Op>, i: nat)
    requires IsRun(run, ops) && i < |run|
    ensures Inv(run[i])
  {
    if i > 0 {
      RunInv(run, ops, i - 1);
      assert run[i - 1 + 1] == Apply(run[i - 1], ops[i - 1]);
      ApplyInv(run[i - 1], ops[i - 1]);
    }
  }

  lemma {:induction false} OwedKeeps(q: Wq, op: Op, k: string)
    requires Owed(q, k) && !Hands(q, op, k)
    ensures Owed(Apply(q, op), k)
  {
  }

  /** After Add(k) on an open queue, k is owed at every later moment until some Get hands it out. */
  lemma {:induction false} AddNeverLost(run: seq<Wq>, ops: seq<Op>, i: nat, j: nat, k: string)
    requires IsRun(run, ops) && i < j <= |ops| && ops[i] == Add(k) && !run[i].closed
    requires forall m :: i < m < j ==> !Hands(run[m], ops[m], k)
    ensures Owed(run[j], k)
  {
    assert run[j - 1 + 1] == Apply(run[j - 1], ops[j - 1]);
    if j == i + 1 {
      RunInv(run, ops, i);
    } else {
      AddNeverLost(run, ops, i, j - 1, k);
      OwedKeeps(run[j - 1], ops[j - 1], k);
    }
  }

  /** Successful Gets among the operations from..to of a run. */
  ghost function Gets(run: seq<Wq>, ops: seq<Op>, from: nat, to: nat): nat
    requires from <= to <= |ops| < |run|
  {
    if from == to then 0
    else Gets(run, ops, from, to - 1) + if ops[to - 1].Get? && run[to - 1].queue != [] then 1 else 0
  }

  /** One operation moves a waiting key up by one place, or leaves it where it is. */
  lemma MovesUp(q: Wq, op: Op, p: nat)
    requires p < |q.queue| && !Hands(q, op, q.queue[p])
    ensures var g := if op.Get? then 1 else 0;
            g <= p && p - g < |Apply(q, op).queue| && Apply(q, op).queue[p - g] == q.queue[p]
  {
  }

  /** First in, first out: a key at index p is still waiting after p Gets at most. */
  lemma {:induction false} OutInTurn(run: seq<Wq>, ops: seq<Op>, i: nat, j: nat, p: nat)
    requires IsRun(run, ops) && i <= j <= |ops| && p < |run[i].queue|
    requires forall m :: i <= m < j ==> !Hands(run[m], ops[m], run[i].queue[p])
    ensures Gets(run, ops, i, j) <= p
    ensures p - Gets(run, ops, i, j) < |run[j].queue| && run[j].queue[p - Gets(run, ops, i, j)] == run[i].queue[p]
  {
    if i < j {
      OutInTurn(run, ops, i, j - 1, p);
      assert !Hands(run[j - 1], ops[j - 1], run[i].queue[p]);
      MovesUp(run[j - 1], ops[j - 1], p - Gets(run, ops, i, j - 1));
      assert run[j - 1 + 1] == Apply(run[j - 1], ops[j - 1]);
    }
  }

  // ----- when the queue also de-duplicates -----

  ghost predicate Clean(q: Wq) {
    && Sorting.NoDuplicates(q.queue)
    && (forall k :: k in q.queue <==> k in q.dirty)
    && q.dirty !! q.processing
  }

  /** An Add that lands while its key is being processed. */
  predicate Overlaps(q: Wq, op: Op) {
    op.Add? && !q.closed && op.key in q.processing
  }

  lemma {:induction false} CleanStep(q: Wq, op: Op)
    requires Clean(q) && (op.Done? ==> op.key in q.processing)
    ensures Clean(Apply(q, op)) <==> !Overlaps(q, op)
  {
  }

  /**
   * With workers that only finish what they were handed, the queue stays free of duplicates, equal to
   * dirty and apart from processing throughout a run exactly when no Add lands on a key in process.
   */
  lemma {:induction false} CleanExactly(run: seq<Wq>, ops: seq<Op>)
    requires IsRun(run, ops)
    requires forall i :: 0 <= i < |ops| && ops[i].Done? ==> ops[i].key in run[i].processing
    ensures (forall i :: 0 <= i < |run| ==> Clean(run[i])) <==>
            (forall i :: 0 <= i < |ops| ==> !Overlaps(run[i], ops[i]))
  {
    if forall i :: 0 <= i < |run| ==> Clean(run[i]) {
      forall i | 0 <= i < |ops| ensures !Overlaps(run[i], ops[i]) {
        assert run[i + 1] == Apply(run[i], ops[i]);
        assert Clean(run[i]) && Clean(run[i + 1]);
        CleanStep(run[i], ops[i]);
      }
    }
    if forall i :: 0 <= i < |ops| ==> !Overlaps(run[i], ops[i]) {
      forall i | 0 <= i < |run| ensures Clean(run[i]) {
        CleanWhile(run, ops, i);
      }
    }
  }

  lemma {:induction false} CleanWhile(run: seq<Wq>, ops: seq<Op>, i: nat)
    requires IsRun(run, ops) && i < |run|
    requires forall m :: 0 <= m < |ops| && ops[m].Done? ==> ops[m].key in run[m].processing
    requires forall m :: 0 <= m < |ops| ==> !Overlaps(run[m], ops[m])
    ensures Clean(run[i])
  {
    if i > 0 {
      CleanWhile(run, ops, i - 1);
      assert run[i - 1 + 1] == Apply(run[i - 1], ops[i - 1]);
      CleanStep(run[i - 1], ops[i - 1]);
    }
  }

  /** n copies of one key, all waiting, and the key also marked dirty. */
  ghost predicate Piled(q: Wq, k: string, n: nat) {
    && |q.queue| == n && (forall i :: 0 <= i < n ==> q.queue[i] == k)
    && q.dirty == {k} && q.processing == {} && !q.closed
  }

  lemma Extend(run: seq<Wq>, ops: seq<Op>, op: Op) returns (run': seq<Wq>, ops': seq<Op>)
    requires IsRun(run, ops)
    ensures IsRun(run', ops') && run'[|ops'|] == Apply(run[|ops|], op)
  {
    run', ops' := run + [Apply(run[|ops|], op)], ops + [op];
  }

  /** Done clears dirty when it re-appends, so re-adding during processing piles up copies without bound. */
  lemma {:induction false} DuplicatesPileUp(k: string, n: nat) returns (run: seq<Wq>, ops: seq<Op>)
    requires n > 0
    ensures IsRun(run, ops) && Piled(run[|ops|], k, n)
  {
    if n == 1 {
      run, ops := [Wq([], {}, {}, false)], [];
      run, ops := Extend(run, ops, Add(k));
    } else {
      run, ops := DuplicatesPileUp(k, n - 1);
      run, ops := Extend(run, ops, Get);
      run, ops := Extend(run, ops, Add(k));
      run, ops := Extend(run, ops, Done(k));
      run, ops := Extend(run, ops, Add(k));
    }
  }

  // ----- back-off -----

  function Pow2(n: nat): nat {
    if n == 0 then 1 else 2 * Pow2(n - 1)
  }

  lemma {:induction false} Pow2Grows(m: nat, n: nat)
    requires m <= n
    ensures 1 <= Pow2(m) <= Pow2(n)
  {
    if m < n {
      Pow2Grows(m, n - 1);
    } else if m > 0 {
      Pow2Grows(m - 1, m - 1);
    }
  }

  lemma Doubled(base: int, i: nat)
    ensures base * Pow2(i + 1) == base * Pow2(i) * 2
  {
  }

  lemma Scaled(base: nat, i: nat, n: nat)
    requires i <= n
    ensures base * Pow2(i) <= base * Pow2(n)
  {
  }

  /** The n-th back-off is the base doubled n times, capped. */
  method RateLimitedDelay(n: int, base: int, max: int) returns (delay: int)
    ensures base >= 0 && n >= 0 ==> delay == if base * Pow2(n) < max then base * Pow2(n) else max
    ensures delay <= max
  {
    delay := base;
    var i := 0;
    while i < n && delay < max
      invariant 0 <= i && (n >= 0 ==> i <= n)
      invariant delay == base * Pow2(i)
    {
      Doubled(base, i);
      delay := delay * 2;
      i := i + 1;
    }
    if base >= 0 && n >= 0 {
      Scaled(base, i, n);
    }
    if delay > max {
      delay := max;
    }
  }

  // ----- the queue in place -----

  datatype Item = Item(key: string, ready: int)

  /** Adding the keys of some items, one after the other. */
  function AddAll(q: Wq, items: seq<Item>): Wq {
    if items == [] then q else Added(AddAll(q, items[..|items| - 1]), items[|items| - 1].key)
  }

  ghost predicate InOrder(items: seq<Item>) {
    forall i, j :: 0 <= i < j < |items| ==> items[i].ready <= items[j].ready
  }

  /** heap.Push on a heap kept in the order heap.Pop would empty it; a closed queue takes nothing. */
  ghost predicate Pushed(before: seq<Item>, after: seq<Item>, closed: bool, it: Item) {
    if closed then after == before else multiset(after) == multiset(before) + multiset{it}
  }

  const EARLIER_THAN: (Item, Item) -> bool := (x: Item, y: Item) => x.ready < y.ready

  class Queue {
    var queue: seq<string>
    var dirty: set<string>
    var processing: set<string>
    var closed: bool
    var delayed: seq<Item>
    var failures: map<string, nat>
    const baseDelay: int
    const maxDelay: int

    constructor (baseDelay: int, maxDelay: int)
      ensures State() == Wq([], {}, {}, false) && delayed == [] && failures == map[]
      ensures this.baseDelay == baseDelay && this.maxDelay == maxDelay
    {
      queue, dirty, processing, closed, delayed, failures := [], {}, {}, false, [], map[];
      this.baseDelay, this.maxDelay := baseDelay, maxDelay;
    }

    function State(): Wq
      reads this
    {
      Wq(queue, dirty, processing, closed)
    }

    method Add(key: string)
      modifies this`queue, this`dirty
      ensures State() == Apply(old(State()), Op.Add(key))
    {
      if closed {
        return;
      }
      if key in dirty {
        return;
      }
      dirty := dirty + {key};
      if key in processing {
        return;
      }
      queue := queue + [key];
    }

    /** Get once its wait is over. */
    method Get() returns (key: Option<string>)
      requires queue != [] || closed
      modifies this`queue, this`dirty, this`processing
      ensures State() == Apply(old(State()), Op.Get)
      ensures key == if old(queue) == [] then None else Some(old(queue)[0])
    {
      if |queue| == 0 {
        return None;
      }
      key := Some(queue[0]);
      queue := queue[1..];
      dirty := dirty - {key.value};
      processing := processing + {key.value};
    }

    method Done(key: string)
      modifies this`queue, this`dirty, this`processing
      ensures State() == Apply(old(State()), Op.Done(key))
    {
      processing := processing - {key};
      if key in dirty {
        dirty := dirty - {key};
        queue := queue + [key];
      }
    }

    method Close()
      modifies this`closed
      ensures State() == Apply(old(State()), ShutDown)
    {
      closed := true;
    }

    method AddAfter(key: string, delay: int, now: int)
      requires InOrder(delayed)
      modifies this`queue, this`dirty, this`delayed
      ensures InOrder(delayed)
      ensures delay <= 0 ==> State() == Apply(old(State()), Op.Add(key)) && delayed == old(delayed)
      ensures delay > 0 ==> State() == old(State())
      ensures delay > 0 ==> Pushed(old(delayed), delayed, closed, Item(key, now + delay))
    {
      if delay <= 0 {
        Add(key);
        return;
      }
      if closed {
        return;
      }
      ghost var i;
      i, delayed := Sorting.InsertSorted(Item(key, now + delay), delayed, EARLIER_THAN);
    }

    method AddRateLimited(key: string, now: int)
      requires InOrder(delayed)
      modifies this
      ensures InOrder(delayed)
      ensures var n := if key in old(failures) then old(failures)[key] else 0;
              var delay := if baseDelay * Pow2(n) < maxDelay then baseDelay * Pow2(n) else maxDelay;
              && failures == old(failures)[key := n + 1]
              && (baseDelay > 0 && maxDelay > 0 ==> State() == old(State()))
              && (baseDelay > 0 && maxDelay > 0 ==> Pushed(old(delayed), delayed, closed, Item(key, now + delay)))
    {
      var n := if key in failures then failures[key] else 0;
      failures := failures[key := n + 1];
      var delay := RateLimitedDelay(n, baseDelay, maxDelay);
      if baseDelay > 0 {
        Scaled(baseDelay, 0, n);
      }
      AddAfter(key, delay, now);
    }

    method Forget(key: string)
      modifies this`failures
      ensures failures == old(failures) - {key}
    {
      failures := failures - {key};
    }

    /**
     * One turn of delayedLoop: exactly the items that are due leave the heap, and their keys are added
     * in the order they became due.
     */
    method FireDelayed(now: int) returns (n: nat)
      requires InOrder(delayed)
      modifies this`queue, this`dirty, this`delayed
      ensures n <= |old(delayed)| && delayed == old(delayed)[n..] && InOrder(delayed)
      ensures State() == AddAll(old(State()), old(delayed)[..n])
      ensures forall i :: 0 <= i < |old(delayed)| ==> (old(delayed)[i].ready <= now <==> i < n)
    {
      n := 0;
      while |delayed| > 0 && delayed[0].ready <= now
        invariant n <= |old(delayed)| && delayed == old(delayed)[n..]
        invariant State() == AddAll(old(State()), old(delayed)[..n])
        invariant forall i :: 0 <= i < n ==> old(delayed)[i].ready <= now
        decreases |delayed|
      {
        var it := delayed[0];
        delayed := delayed[1..];
        Add(it.key);
        assert old(delayed)[..n + 1][..n] == old(delayed)[..n];
        n := n + 1;
      }
    }
  }

  /** On an open queue every key that came due is owed to the workers afterwards. */
  lemma {:induction false} FiredIsOwed(q: Wq, items: seq<Item>, i: nat)
    requires Inv(q) && !q.closed && i < |items|
    ensures Owed(AddAll(q, items), items[i].key) && Inv(AddAll(q, items)) && !AddAll(q, items).closed
  {
    var front := items[..|items| - 1];
    var last := items[|items| - 1].key;
    if |items| > 1 {
      FiredIsOwed(q, front, if i < |front| then i else 0);
    } else {
      assert AddAll(q, front) == q;
    }
    ApplyInv(AddAll(q, front), Add(last));
    if i < |front| {
      OwedKeeps(AddAll(q, front), Add(last), items[i].key);
    }
  }
}
