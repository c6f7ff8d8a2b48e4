/** The per-IP table of the gateway's rate limiter: a map and a recency list that bound each other. */
module IpTable {
  import opened Wrappers
  import Sorting

  /** A client address as the gateway spells it. */
  type Ip = string

  /** One IP and when it was last seen. A table is a list of rows, the most recent first. */
  datatype Row = Row(ip: Ip, last: int)

  function Find(rows: seq<Row>, ip: Ip): (i: nat)
    ensures i <= |rows| && (i < |rows| ==> rows[i].ip == ip)
    ensures forall j :: 0 <= j < i ==> rows[j].ip != ip
  {
    if rows == [] || rows[0].ip == ip then 0 else 1 + Find(rows[1..], ip)
  }

  predicate Holds(rows: seq<Row>, ip: Ip) {
    Find(rows, ip) < |rows|
  }

  function Without(rows: seq<Row>, ip: Ip): seq<Row> {
    var i := Find(rows, ip);
    if i < |rows| then rows[..i] + rows[i + 1..] else rows
  }

  /** The rows seen at or after the cutoff. */
  function Since(rows: seq<Row>, cutoff: int): seq<Row> {
    if rows == [] then []
    else if rows[|rows| - 1].last < cutoff then Since(rows[..|rows| - 1], cutoff)
    else Since(rows[..|rows| - 1], cutoff) + [rows[|rows| - 1]]
  }

  // ----- the simple table and the bounded one -----

  datatype Op = Seen(ip: Ip, now: int) | Sweep(cutoff: int)

  /** A table without a bound: it remembers every IP until a sweep forgets it. */
  function Plain(rows: seq<Row>, op: Op): seq<Row> {
    match op
    case Seen(ip, now) => [Row(ip, now)] + Without(rows, ip)
    case Sweep(cutoff) => Since(rows, cutoff)
  }

  /** get and cleanupExpired: insertion into a full table drops the back; a sweep pops from the back. */
  function Bounded(rows: seq<Row>, maxIps: int, op: Op): seq<Row> {
    match op
    case Seen(ip, now) =>
      if Holds(rows, ip) then [Row(ip, now)] + Without(rows, ip)
      else if |rows| >= maxIps && rows != [] then [Row(ip, now)] + rows[..|rows| - 1]
      else [Row(ip, now)] + rows
    case Sweep(cutoff) => Popped(rows, cutoff)
  }

  /** How many rows are left once rows older than the cutoff were popped off the back. */
  function Keep(rows: seq<Row>, cutoff: int): (n: nat)
    ensures n <= |rows| && (n > 0 ==> rows[n - 1].last >= cutoff)
    ensures forall i :: n <= i < |rows| ==> rows[i].last < cutoff
  {
    if rows == [] || rows[|rows| - 1].last >= cutoff then |rows| else Keep(rows[..|rows| - 1], cutoff)
  }

  function Popped(rows: seq<Row>, cutoff: int): seq<Row> {
    rows[..Keep(rows, cutoff)]
  }

  function Capacity(maxIps: int): nat {
    if maxIps < 1 then 1 else maxIps
  }

  function Take(rows: seq<Row>, n: nat): seq<Row> {
    if |rows| <= n then rows else rows[..n]
  }

  // ----- recency order -----

  ghost predicate InOrder(rows: seq<Row>, now: int) {
    && (forall i, j :: 0 <= i < j < |rows| ==> rows[i].ip != rows[j].ip)
    && (forall i, j :: 0 <= i < j < |rows| ==> rows[i].last >= rows[j].last)
    && (forall i :: 0 <= i < |rows| ==> rows[i].last <= now)
  }

  ghost function Clock(op: Op, now: int): int {
    if op.Seen? && op.now > now then op.now else now
  }

  /** The early-stopping sweep removes exactly the rows last seen before the cutoff. */
  lemma SweepIsExact(rows: seq<Row>, cutoff: int, now: int)
    requires InOrder(rows, now)
    ensures forall i :: 0 <= i < |rows| ==> (rows[i].last >= cutoff <==> i < |Popped(rows, cutoff)|)
  {
  }

  lemma {:induction false} SincePrefix(rows: seq<Row>, cutoff: int, n: nat)
    requires n <= |rows| && forall i :: 0 <= i < |rows| ==> (rows[i].last >= cutoff <==> i < n)
    ensures Since(rows, cutoff) == rows[..n]
  {
    if rows != [] {
      var front := rows[..|rows| - 1];
      var m := if n == |rows| then n - 1 else n;
      SincePrefix(front, cutoff, m);
      assert front[..m] == rows[..m];
      assert n == |rows| ==> rows[..n] == rows[..m] + [rows[|rows| - 1]];
    }
  }

  /** On an ordered table, stopping at the first row that is recent enough loses nothing. */
  lemma SinceIsPopped(rows: seq<Row>, cutoff: int, now: int)
    requires InOrder(rows, now)
    ensures Since(rows, cutoff) == Popped(rows, cutoff)
  {
    SweepIsExact(rows, cutoff, now);
    SincePrefix(rows, cutoff, Keep(rows, cutoff));
  }

  lemma {:induction false} WithoutOrdered(rows: seq<Row>, ip: Ip, now: int)
    requires InOrder(rows, now)
    ensures InOrder(Without(rows, ip), now)
    ensures forall i :: 0 <= i < |Without(rows, ip)| ==> Without(rows, ip)[i].ip != ip
  {
    var i, out := Find(rows, ip), Without(rows, ip);
    if i < |rows| {
      assert forall j :: 0 <= j < |out| ==> out[j] == if j < i then rows[j] else rows[j + 1];
      forall j | 0 <= j < |out| ensures out[j].ip != ip {
        assert rows[i].ip == ip;
      }
    }
  }

  lemma ConsOrdered(rows: seq<Row>, ip: Ip, last: int, now: int)
    requires InOrder(rows, last) && last <= now && forall i :: 0 <= i < |rows| ==> rows[i].ip != ip
    ensures InOrder([Row(ip, last)] + rows, now)
  {
  }

  /** The simple table stays in recency order while the clock does not go back. */
  lemma {:induction false} PlainOrdered(rows: seq<Row>, op: Op, now: int)
    requires InOrder(rows, now) && (op.Seen? ==> op.now >= now)
    ensures InOrder(Plain(rows, op), Clock(op, now))
  {
    match op
    case Seen(ip, t) =>
      WithoutOrdered(rows, ip, t);
      ConsOrdered(Without(rows, ip), ip, t, t);
    case Sweep(cutoff) => SinceIsPopped(rows, cutoff, now);
  }

  // ----- the bounded table is the recent end of the simple one -----

  lemma {:induction false} FindTake(rows: seq<Row>, n: nat, ip: Ip)
    ensures Find(Take(rows, n), ip) == if Find(rows, ip) < n then Find(rows, ip) else |Take(rows, n)|
  {
  }

  lemma TakeCons(r: Row, rows: seq<Row>, c: nat)
    requires c > 0
    ensures Take([r] + rows, c) == [r] + Take(rows, c - 1)
  {
  }

  lemma CutTake(rows: seq<Row>, i: nat, c: nat)
    requires i < |rows| && 0 < c
    ensures i < c ==> var few := Take(rows, c); Take(rows[..i] + rows[i + 1..], c - 1) == few[..i] + few[i + 1..]
    ensures i >= c ==> Take(rows[..i] + rows[i + 1..], c - 1) == rows[..c - 1]
  {
  }

  /** What the simple table keeps of its recent end when an IP moves to the front. */
  lemma RestTake(rows: seq<Row>, ip: Ip, c: nat)
    requires c > 0
    ensures var few := Take(rows, c);
            Take(Without(rows, ip), c - 1) ==
              if Holds(few, ip) then Without(few, ip) else if |few| == c then few[..c - 1] else few
  {
    var i := Find(rows, ip);
    FindTake(rows, c, ip);
    if i < |rows| {
      CutTake(rows, i, c);
    }
  }

  lemma {:induction false} SeenCommutes(rows: seq<Row>, maxIps: int, ip: Ip, now: int)
    ensures Bounded(Take(rows, Capacity(maxIps)), maxIps, Seen(ip, now)) ==
            Take(Plain(rows, Seen(ip, now)), Capacity(maxIps))
  {
    var c := Capacity(maxIps);
    var few := Take(rows, c);
    RestTake(rows, ip, c);
    TakeCons(Row(ip, now), Without(rows, ip), c);
    assert |few| <= c;
    assert |few| >= maxIps && few != [] <==> |few| == c;
  }

  lemma {:induction false} SweepCommutes(rows: seq<Row>, n: nat, cutoff: int, now: int)
    requires InOrder(rows, now)
    ensures Popped(Take(rows, n), cutoff) == Take(Since(rows, cutoff), n)
  {
    SinceIsPopped(rows, cutoff, now);
    SweepIsExact(rows, cutoff, now);
    SweepIsExact(Take(rows, n), cutoff, now);
    var k, m := Keep(rows, cutoff), Keep(Take(rows, n), cutoff);
    if m < |Take(rows, n)| {
      assert Take(rows, n)[m] == rows[m];
    }
    if k < |Take(rows, n)| {
      assert Take(rows, n)[k] == rows[k];
    }
  }

  function PlainRun(ops: seq<Op>): seq<Row> {
    if ops == [] then [] else Plain(PlainRun(ops[..|ops| - 1]), ops[|ops| - 1])
  }

  function BoundedRun(maxIps: int, ops: seq<Op>): seq<Row> {
    if ops == [] then [] else Bounded(BoundedRun(maxIps, ops[..|ops| - 1]), maxIps, ops[|ops| - 1])
  }

  ghost predicate ClockForward(ops: seq<Op>) {
    forall i, j :: 0 <= i < j < |ops| && ops[i].Seen? && ops[j].Seen? ==> ops[i].now <= ops[j].now
  }

  ghost predicate After(ops: seq<Op>, now: int) {
    forall i :: 0 <= i < |ops| && ops[i].Seen? ==> ops[i].now <= now
  }

  lemma {:induction false} RunOrdered(ops: seq<Op>, now: int)
    requires ClockForward(ops) && After(ops, now)
    ensures InOrder(PlainRun(ops), now)
  {
    if ops != [] {
      var front, op := ops[..|ops| - 1], ops[|ops| - 1];
      var t := if op.Seen? then op.now else now;
      RunOrdered(front, t);
      PlainOrdered(PlainRun(front), op, t);
    }
  }

  lemma TakeOrdered(rows: seq<Row>, n: nat, now: int)
    requires InOrder(rows, now)
    ensures InOrder(Take(rows, n), now) && |Take(rows, n)| <= n
  {
  }

  lemma OpCommutes(rows: seq<Row>, maxIps: int, op: Op, now: int)
    requires InOrder(rows, now)
    ensures Bounded(Take(rows, Capacity(maxIps)), maxIps, op) == Take(Plain(rows, op), Capacity(maxIps))
  {
    match op
    case Seen(ip, t) => SeenCommutes(rows, maxIps, ip, t);
    case Sweep(cutoff) => SweepCommutes(rows, Capacity(maxIps), cutoff, now);
  }

  /**
   * Refinement: after any lookups and sweeps on a clock that does not go back, the table holds exactly
   * the most recent rows of the table without a bound, as many as fit.
   */
  lemma {:induction false} LruRefines(maxIps: int, ops: seq<Op>, now: int)
    requires ClockForward(ops) && After(ops, now)
    ensures BoundedRun(maxIps, ops) == Take(PlainRun(ops), Capacity(maxIps))
    ensures InOrder(BoundedRun(maxIps, ops), now) && |BoundedRun(maxIps, ops)| <= Capacity(maxIps)
  {
    if ops != [] {
      var front, op := ops[..|ops| - 1], ops[|ops| - 1];
      LruRefines(maxIps, front, now);
      RunOrdered(front, now);
      OpCommutes(PlainRun(front), maxIps, op, now);
    }
    RunOrdered(ops, now);
    TakeOrdered(PlainRun(ops), Capacity(maxIps), now);
  }

  // ----- what the simple table remembers -----

  ghost predicate OncePerIp(rows: seq<Row>) {
    forall i, j :: 0 <= i < j < |rows| ==> rows[i].ip != rows[j].ip
  }

  lemma {:induction false} WithoutExactly(rows: seq<Row>, ip: Ip)
    requires OncePerIp(rows)
    ensures OncePerIp(Without(rows, ip))
    ensures forall r :: r in Without(rows, ip) <==> r in rows && r.ip != ip
  {
    var i, out := Find(rows, ip), Without(rows, ip);
    if i < |rows| {
      assert forall j :: 0 <= j < |out| ==> out[j] == if j < i then rows[j] else rows[j + 1];
      forall r | r in rows && r.ip != ip ensures r in out {
        var j :| 0 <= j < |rows| && rows[j] == r;
        assert out[if j < i then j else j - 1] == r;
      }
    }
  }

  lemma {:induction false} SinceExactly(rows: seq<Row>, cutoff: int)
    requires OncePerIp(rows)
    ensures OncePerIp(Since(rows, cutoff))
    ensures forall r :: r in Since(rows, cutoff) <==> r in rows && r.last >= cutoff
  {
    if rows != [] {
      var front, last := rows[..|rows| - 1], rows[|rows| - 1];
      SinceExactly(front, cutoff);
      assert rows == front + [last];
      forall i | 0 <= i < |Since(front, cutoff)| ensures Since(front, cutoff)[i].ip != last.ip {
        assert Since(front, cutoff)[i] in front;
      }
    }
  }

  /** The operation leaves a row of this IP, last seen at t, in the table. */
  predicate Spares(op: Op, ip: Ip, t: int) {
    match op
    case Seen(other, _) => other != ip
    case Sweep(cutoff) => cutoff <= t
  }

  /** The IP's last contact was at t, and no later sweep reached it. */
  ghost predicate Remembered(ops: seq<Op>, ip: Ip, t: int) {
    exists k :: 0 <= k < |ops| && LastContact(ops, k, ip, t)
  }

  ghost predicate LastContact(ops: seq<Op>, k: nat, ip: Ip, t: int)
    requires k < |ops|
  {
    ops[k] == Seen(ip, t) && forall j :: k < j < |ops| ==> Spares(ops[j], ip, t)
  }

  lemma {:induction false} RememberedNext(front: seq<Op>, op: Op, ip: Ip, t: int)
    ensures Remembered(front + [op], ip, t) <==> op == Seen(ip, t) || (Remembered(front, ip, t) && Spares(op, ip, t))
  {
    var ops := front + [op];
    if Remembered(front, ip, t) && Spares(op, ip, t) {
      var k :| 0 <= k < |front| && LastContact(front, k, ip, t);
      assert LastContact(ops, k, ip, t);
    }
    if op == Seen(ip, t) {
      assert LastContact(ops, |front|, ip, t);
    }
    if Remembered(ops, ip, t) && op != Seen(ip, t) {
      var k :| 0 <= k < |ops| && LastContact(ops, k, ip, t);
      assert Spares(ops[|front|], ip, t);
      assert forall j :: k < j < |front| ==> Spares(ops[j], ip, t) && ops[j] == front[j];
      assert LastContact(front, k, ip, t);
    }
  }

  /** The table without a bound holds a row exactly for the IPs whose last contact no later sweep reached. */
  lemma {:induction false} PlainExactly(ops: seq<Op>, ip: Ip, t: int)
    ensures OncePerIp(PlainRun(ops))
    ensures Row(ip, t) in PlainRun(ops) <==> Remembered(ops, ip, t)
  {
    if ops != [] {
      var front, op := ops[..|ops| - 1], ops[|ops| - 1];
      PlainExactly(front, ip, t);
      assert ops == front + [op];
      RememberedNext(front, op, ip, t);
      match op
      case Seen(other, now) => WithoutExactly(PlainRun(front), other);
      case Sweep(cutoff) => SinceExactly(PlainRun(front), cutoff);
    }
  }

  // ----- the table in place -----

  /** A row's limiter, known by its identity, and when the IP was last seen. */
  datatype Entry = Entry(limiter: nat, lastSeen: int)

  /** The list enumerates the map's keys, each once. */
  ghost predicate Enumerates(m: map<Ip, Entry>, lst: seq<Ip>) {
    multiset(lst) == multiset(m.Keys)
  }

  function LastSeen(m: map<Ip, Entry>, ip: Ip): int {
    if ip in m then m[ip].lastSeen else 0
  }

  ghost function RowsOf(m: map<Ip, Entry>, lst: seq<Ip>): (rows: seq<Row>)
    ensures |rows| == |lst| && forall i :: 0 <= i < |lst| ==> rows[i] == Row(lst[i], LastSeen(m, lst[i]))
  {
    seq(|lst|, i requires 0 <= i < |lst| => Row(lst[i], LastSeen(m, lst[i])))
  }

  lemma Sizes(m: map<Ip, Entry>, lst: seq<Ip>)
    requires Enumerates(m, lst)
    ensures |m| == |lst| && forall i :: 0 <= i < |lst| ==> lst[i] in m
  {
    assert |multiset(lst)| == |lst| && |multiset(m.Keys)| == |m|;
    forall i | 0 <= i < |lst| ensures lst[i] in m {
      assert lst[i] in multiset(lst);
    }
  }

  class Table {
    var m: map<Ip, Entry>
    var lst: seq<Ip>

    ghost predicate Valid()
      reads this
    {
      Enumerates(m, lst)
    }

    ghost function Rows(): seq<Row>
      reads this
    {
      RowsOf(m, lst)
    }

    constructor ()
      ensures Valid() && Rows() == []
    {
      m, lst := map[], [];
    }

    /** get: the IP's limiter, `created` being the one a first contact makes. */
    method Get(ip: Ip, now: int, maxIps: int, created: nat) returns (limiter: nat)
      requires Valid()
      modifies this
      ensures Valid() && Rows() == Bounded(old(Rows()), maxIps, Seen(ip, now))
      ensures limiter == if ip in old(m) then old(m)[ip].limiter else created
      ensures ip in m && m[ip].limiter == limiter
      ensures forall x :: x in m && x != ip ==> x in old(m) && m[x] == old(m)[x]
      ensures m[ip].lastSeen == now && (ip in old(m) || |old(m)| < maxIps ==> old(m).Keys <= m.Keys)
    {
      if ip in m {
        Touch(ip, now);
        return m[ip].limiter;
      }
      Sizes(m, lst);
      AbsentRows(m, lst, ip);
      if |m| >= maxIps && |lst| > 0 {
        DropBack();
      }
      PushRows(m, lst, ip, Entry(created, now));
      lst := [ip] + lst;
      m := m[ip := Entry(created, now)];
      return created;
    }

    /** A hit: the entry is stamped and its list element moves to the front. */
    method Touch(ip: Ip, now: int)
      requires Valid() && ip in m
      modifies this
      ensures Valid() && Rows() == [Row(ip, now)] + Without(old(Rows()), ip) && Holds(old(Rows()), ip)
      ensures m == old(m)[ip := old(m)[ip].(lastSeen := now)]
    {
      assert ip in lst by {
        assert ip in multiset(lst);
      }
      var i := IndexOf(lst, ip);
      OnlyOnce(m, lst, i);
      MoveRows(m, lst, i, now);
      m := m[ip := m[ip].(lastSeen := now)];
      lst := [ip] + (lst[..i] + lst[i + 1..]);
    }

    /** Removes the least recently seen entry. */
    method DropBack()
      requires Valid() && |lst| > 0
      modifies this
      ensures Valid() && lst == old(lst)[..|old(lst)| - 1] && m == old(m) - {old(lst)[|old(lst)| - 1]}
      ensures Rows() == old(Rows())[..|old(lst)| - 1]
    {
      DropRows(m, lst);
      var oldest := lst[|lst| - 1];
      lst := lst[..|lst| - 1];
      m := m - {oldest};
    }

    method CleanupExpired(cutoff: int)
      requires Valid()
      modifies this
      ensures Valid() && Rows() == Popped(old(Rows()), cutoff)
      ensures forall x :: x in m ==> x in old(m) && m[x] == old(m)[x]
    {
      ghost var rows := Rows();
      assert rows[..|rows|] == rows;
      while |lst| > 0 && LastSeen(m, lst[|lst| - 1]) < cutoff
        invariant Valid() && |lst| <= |rows| && Rows() == rows[..|lst|]
        invariant Keep(rows[..|lst|], cutoff) == Keep(rows, cutoff)
        invariant forall x :: x in m ==> x in old(m) && m[x] == old(m)[x]
        decreases |lst|
      {
        KeepFront(rows, |lst|, cutoff);
        DropBack();
      }
    }
  }

  lemma KeepFront(rows: seq<Row>, n: nat, cutoff: int)
    requires 0 < n <= |rows| && rows[n - 1].last < cutoff && Keep(rows[..n], cutoff) == Keep(rows, cutoff)
    ensures Keep(rows[..n - 1], cutoff) == Keep(rows, cutoff) && rows[..n][..n - 1] == rows[..n - 1]
  {
  }

  method IndexOf(lst: seq<Ip>, ip: Ip) returns (i: nat)
    requires ip in lst
    ensures i < |lst| && lst[i] == ip && forall j :: 0 <= j < i ==> lst[j] != ip
  {
    i := 0;
    while lst[i] != ip
      invariant i < |lst| && ip in lst[i..] && forall j :: 0 <= j < i ==> lst[j] != ip
      decreases |lst| - i
    {
      assert lst[i..] == [lst[i]] + lst[i + 1..];
      i := i + 1;
    }
  }

  lemma AbsentRows(m: map<Ip, Entry>, lst: seq<Ip>, ip: Ip)
    requires Enumerates(m, lst) && ip !in m
    ensures !Holds(RowsOf(m, lst), ip)
  {
    forall j | 0 <= j < |lst| ensures lst[j] != ip {
      assert lst[j] in multiset(lst);
    }
  }

  lemma OnlyOnce(m: map<Ip, Entry>, lst: seq<Ip>, i: nat)
    requires Enumerates(m, lst) && i < |lst|
    ensures forall j :: i < j < |lst| ==> lst[j] != lst[i]
  {
    var x, rest := lst[i], lst[..i] + lst[i + 1..];
    assert lst == lst[..i] + [x] + lst[i + 1..];
    assert multiset(lst) == multiset(rest) + multiset{x};
    assert multiset(m.Keys)[x] <= 1;
    assert x !in multiset(rest);
    forall j | i < j < |lst| ensures lst[j] != x {
      assert rest[j - 1] == lst[j];
    }
  }

  lemma MoveEnumerates(m: map<Ip, Entry>, lst: seq<Ip>, i: nat, e: Entry)
    requires Enumerates(m, lst) && i < |lst| && lst[i] in m
    ensures Enumerates(m[lst[i] := e], [lst[i]] + (lst[..i] + lst[i + 1..]))
  {
    assert lst == lst[..i] + [lst[i]] + lst[i + 1..];
    assert m[lst[i] := e].Keys == m.Keys;
  }

  lemma FindRow(m: map<Ip, Entry>, lst: seq<Ip>, i: nat)
    requires i < |lst| && forall j :: 0 <= j < i ==> lst[j] != lst[i]
    ensures Find(RowsOf(m, lst), lst[i]) == i
  {
  }

  lemma MoveRows(m: map<Ip, Entry>, lst: seq<Ip>, i: nat, now: int)
    requires Enumerates(m, lst) && i < |lst| && lst[i] in m && forall j :: 0 <= j < |lst| && j != i ==> lst[j] != lst[i]
    ensures var ip := lst[i];
            var m', lst' := m[ip := m[ip].(lastSeen := now)], [ip] + (lst[..i] + lst[i + 1..]);
            && Enumerates(m', lst') && Holds(RowsOf(m, lst), ip)
            && RowsOf(m', lst') == [Row(ip, now)] + Without(RowsOf(m, lst), ip)
  {
    var ip := lst[i];
    var m', rest := m[ip := m[ip].(lastSeen := now)], lst[..i] + lst[i + 1..];
    MoveEnumerates(m, lst, i, m[ip].(lastSeen := now));
    FindRow(m, lst, i);
    RestRows(m, m', lst, i);
    ConsRows(m', ip, rest);
  }

  lemma RestRows(m: map<Ip, Entry>, m': map<Ip, Entry>, lst: seq<Ip>, i: nat)
    requires i < |lst| && forall j :: 0 <= j < |lst| && j != i ==> LastSeen(m', lst[j]) == LastSeen(m, lst[j])
    ensures RowsOf(m', lst[..i] + lst[i + 1..]) == RowsOf(m, lst)[..i] + RowsOf(m, lst)[i + 1..]
  {
  }

  lemma DropRows(m: map<Ip, Entry>, lst: seq<Ip>)
    requires Enumerates(m, lst) && lst != []
    ensures var m', lst' := m - {lst[|lst| - 1]}, lst[..|lst| - 1];
            Enumerates(m', lst') && RowsOf(m', lst') == RowsOf(m, lst)[..|lst| - 1]
  {
    var last, front := lst[|lst| - 1], lst[..|lst| - 1];
    assert lst == front + [last];
    assert multiset(lst) == multiset(front) + multiset{last};
    assert multiset(m.Keys)[last] == 1 by {
      assert last in multiset(lst);
    }
    assert multiset((m - {last}).Keys) == multiset(m.Keys) - multiset{last};
    forall j | 0 <= j < |front| ensures front[j] != last {
      assert front[j] in multiset(front);
    }
  }

  lemma PushEnumerates(m: map<Ip, Entry>, lst: seq<Ip>, ip: Ip, e: Entry)
    requires Enumerates(m, lst) && ip !in m
    ensures Enumerates(m[ip := e], [ip] + lst)
    ensures forall j :: 0 <= j < |lst| ==> lst[j] != ip
  {
    assert m[ip := e].Keys == m.Keys + {ip};
    forall j | 0 <= j < |lst| ensures lst[j] != ip {
      assert lst[j] in multiset(lst);
    }
  }

  lemma SameRows(m: map<Ip, Entry>, m': map<Ip, Entry>, lst: seq<Ip>)
    requires forall j :: 0 <= j < |lst| ==> LastSeen(m', lst[j]) == LastSeen(m, lst[j])
    ensures RowsOf(m', lst) == RowsOf(m, lst)
  {
  }

  lemma ConsRows(m: map<Ip, Entry>, ip: Ip, lst: seq<Ip>)
    ensures RowsOf(m, [ip] + lst) == [Row(ip, LastSeen(m, ip))] + RowsOf(m, lst)
  {
  }

  lemma PushRows(m: map<Ip, Entry>, lst: seq<Ip>, ip: Ip, e: Entry)
    requires Enumerates(m, lst) && ip !in m
    ensures Enumerates(m[ip := e], [ip] + lst)
    ensures RowsOf(m[ip := e], [ip] + lst) == [Row(ip, e.lastSeen)] + RowsOf(m, lst)
  {
    PushEnumerates(m, lst, ip, e);
    SameRows(m, m[ip := e], lst);
    ConsRows(m[ip := e], ip, lst);
  }

  // ----- which rule applies -----

  datatype Rule = Rule(prefix: string, rate: real, burst: int)

  predicate Usable(r: Rule) {
    r.prefix != "" && r.rate > 0.0 && r.burst > 0
  }

  predicate Matches(path: string, r: Rule) {
    r.prefix <= path
  }

  const LONGER_FIRST: (Rule, Rule) -> bool := (a: Rule, b: Rule) => |a.prefix| > |b.prefix|

  /** The compiled rules of newRateLimiter: the usable ones, longest prefix first. */
  method CompileRules(declared: seq<Rule>) returns (rules: seq<Rule>)
    ensures Sorting.Ordered(rules, LONGER_FIRST)
    ensures forall r :: r in rules <==> r in declared && Usable(r)
  {
    var usable: seq<Rule> := [];
    for i := 0 to |declared|
      invariant forall r :: r in usable <==> r in declared[..i] && Usable(r)
    {
      assert declared[..i + 1] == declared[..i] + [declared[i]];
      if Usable(declared[i]) {
        usable := usable + [declared[i]];
      }
    }
    assert declared[..|declared|] == declared;
    rules := Sorting.SortBy(usable, LONGER_FIRST);
    forall r ensures r in rules <==> r in usable {
      assert r in rules <==> r in multiset(rules);
    }
  }

  /** allowPath: the rule that decides is a longest usable declared prefix of the path, if there is one. */
  method RuleFor(declared: seq<Rule>, path: string) returns (rule: Option<Rule>)
    ensures rule.None? <==>
              forall r :: r in declared && r.rate > 0.0 && r.burst > 0 && r.prefix <= path ==> r.prefix == ""
    ensures rule.Some? ==>
              var r := rule.value;
              r in declared && r.rate > 0.0 && r.burst > 0 && r.prefix != "" && r.prefix <= path
    ensures rule.Some? ==> forall r :: r in declared && r.rate > 0.0 && r.burst > 0 && r.prefix <= path ==>
              |r.prefix| <= |rule.value.prefix|
  {
    var rules := CompileRules(declared);
    for i := 0 to |rules|
      invariant forall j :: 0 <= j < i ==> !Matches(path, rules[j])
    {
      if Matches(path, rules[i]) {
        forall r | r in declared && Usable(r) && Matches(path, r) ensures |r.prefix| <= |rules[i].prefix| {
          assert r in rules;
          var j :| 0 <= j < |rules| && rules[j] == r;
          assert j > i ==> !LONGER_FIRST(rules[j], rules[i]);
        }
        assert rules[i] in rules;
        return Some(rules[i]);
      }
    }
    forall r | r in declared && Usable(r) ensures !Matches(path, r) {
      assert r in rules;
    }
    return None;
  }
}
