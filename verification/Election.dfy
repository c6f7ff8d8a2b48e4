/** One node's half of the KV leader election: the `Election` object of
    asty/internal/ops/leader, and the leader bucket it talks to. */
module Election {
  import opened Wrappers

  // Durations are in milliseconds.
  const LEADER_TTL: nat := 30_000
  const CAMPAIGN_INTERVAL: nat := LEADER_TTL * 3 / 4
  const KV_OP_TIMEOUT: nat := 10_000
  /** math.MaxUint64: "no lease held by us". */
  const NO_LEASE_SEQ: nat := 0xFFFF_FFFF_FFFF_FFFF

  type NodeId = string

  datatype Role = Candidate | Leader
  datatype Callback = Became | Lost
  datatype Reply = Ok(rev: nat) | Err

  // ----- the bucket -----

  datatype Entry = Entry(rev: nat, writer: NodeId, writtenAt: nat)
  datatype Event = Wrote(rev: nat, who: NodeId) | Removed(rev: nat)

  /** The leader key: its live entry, the last stream sequence used, and every
      write and removal in order. */
  datatype Store = Store(live: Option<Entry>, lastRev: nat, log: seq<Event>)

  function Put(s: Store, who: NodeId, now: nat): Store {
    var rev := s.lastRev + 1;
    Store(Some(Entry(rev, who, now)), rev, s.log + [Wrote(rev, who)])
  }

  /** Create succeeds only on an empty slot. */
  function Create(s: Store, who: NodeId, now: nat): (Store, Reply) {
    if s.live.None? then (Put(s, who, now), Ok(s.lastRev + 1)) else (s, Err)
  }

  /** Update succeeds only on the expected revision. */
  function Update(s: Store, who: NodeId, expected: nat, now: nat): (Store, Reply) {
    if s.live.Some? && s.live.value.rev == expected
    then (Put(s, who, now), Ok(s.lastRev + 1)) else (s, Err)
  }

  /** Delete checks nothing; its marker takes a sequence number of its own. */
  function Delete(s: Store): Store {
    Store(None, s.lastRev + 1, s.log + [Removed(s.lastRev + 1)])
  }

  function Expire(s: Store): Store {
    Store(None, s.lastRev, s.log + [Removed(s.lastRev)])
  }

  // ----- one node -----

  datatype View = View(role: Role, lastSeq: nat, callbacks: seq<Callback>)

  const FRESH_VIEW := View(Candidate, NO_LEASE_SEQ, [])

  function CampaignStep(v: View, r: Reply): View {
    match r
    case Err => v
    case Ok(rev) => View(Leader, rev, v.callbacks + [Became])
  }

  function MaintainStep(v: View, r: Reply): View {
    match r
    case Err => View(Candidate, NO_LEASE_SEQ, v.callbacks + [Lost])
    case Ok(rev) => v.(lastSeq := rev)
  }

  function TryStep(v: View, r: Reply): View {
    if v.role.Leader? then MaintainStep(v, r) else CampaignStep(v, r)
  }

  /** What stepDown does under the mutex; the lost callback comes after the Delete. */
  function Abdicate(v: View): View {
    v.(role := Candidate, lastSeq := NO_LEASE_SEQ)
  }

  /** What became of one KV request: executed and answered, executed with the
      answer lost, or never executed. */
  datatype Fate = Answered | AnswerLost | NotExecuted

  function Seen(fate: Fate, r: Reply): Reply {
    if fate.Answered? then r else Err
  }

  /** The live entry is the one written as revision `seq`. */
  predicate HoldsLease(s: Store, seq': nat) {
    s.live.Some? && s.live.value.rev == seq'
  }

  class Bucket {
    var store: Store
    constructor ()
      ensures store == Store(None, 0, [])
    {
      store := Store(None, 0, []);
    }
  }

  class Elector {
    const nodeID: NodeId
    var role: Role
    var lastSeq: nat
    var callbacks: seq<Callback>

    ghost function Abs(): View
      reads this
    {
      View(role, lastSeq, callbacks)
    }

    constructor (nodeID: NodeId)
      ensures this.nodeID == nodeID && Abs() == FRESH_VIEW
    {
      this.nodeID := nodeID;
      role, lastSeq, callbacks := Candidate, NO_LEASE_SEQ, [];
    }

    method CampaignForLeadership(bucket: Bucket, now: nat, fate: Fate)
      modifies this, bucket
      ensures Abs() == CampaignStep(old(Abs()), Seen(fate, Create(old(bucket.store), nodeID, now).1))
      ensures bucket.store == if fate.NotExecuted? then old(bucket.store) else Create(old(bucket.store), nodeID, now).0
      ensures fate.Answered? && old(bucket.store).live.None? ==>
                && role == Leader && callbacks == old(callbacks) + [Became]
                && bucket.store.live == Some(Entry(lastSeq, nodeID, now)) && lastSeq > old(bucket.store).lastRev
      ensures !fate.Answered? || old(bucket.store).live.Some? ==> Abs() == old(Abs())
    {
      var (store', reply) := Create(bucket.store, nodeID, now);
      if !fate.NotExecuted? {
        bucket.store := store';
      }
      if fate.Answered? && reply.Ok? {
        role := Leader;
        lastSeq := reply.rev;
        callbacks := callbacks + [Became];
      }
    }

    method MaintainLeadership(bucket: Bucket, now: nat, fate: Fate)
      modifies this, bucket
      ensures Abs() == MaintainStep(old(Abs()), Seen(fate, Update(old(bucket.store), nodeID, old(lastSeq), now).1))
      ensures bucket.store == if fate.NotExecuted? then old(bucket.store)
              else Update(old(bucket.store), nodeID, old(lastSeq), now).0
      ensures fate.Answered? && HoldsLease(old(bucket.store), old(lastSeq)) ==>
                && role == old(role) && callbacks == old(callbacks)
                && bucket.store.live == Some(Entry(lastSeq, nodeID, now)) && lastSeq > old(bucket.store).lastRev
      ensures !fate.Answered? || !HoldsLease(old(bucket.store), old(lastSeq)) ==>
                role == Candidate && lastSeq == NO_LEASE_SEQ && callbacks == old(callbacks) + [Lost]
    {
      var (store', reply) := Update(bucket.store, nodeID, lastSeq, now);
      if !fate.NotExecuted? {
        bucket.store := store';
      }
      if !fate.Answered? || reply.Err? {
        role := Candidate;
        lastSeq := NO_LEASE_SEQ;
        callbacks := callbacks + [Lost];
        return;
      }
      lastSeq := reply.rev;
    }

    method Try(bucket: Bucket, now: nat, fate: Fate)
      modifies this, bucket
      ensures Abs() == TryStep(old(Abs()), Seen(fate, Request(old(bucket.store), nodeID, old(Abs()), now).1))
      ensures bucket.store == if fate.NotExecuted? then old(bucket.store)
              else Request(old(bucket.store), nodeID, old(Abs()), now).0
      ensures old(role) == Leader && fate.Answered? && HoldsLease(old(bucket.store), old(lastSeq)) ==>
                && role == Leader && callbacks == old(callbacks)
                && bucket.store.live.Some? && lastSeq == bucket.store.live.value.rev
      ensures old(role) == Leader && (!fate.Answered? || !HoldsLease(old(bucket.store), old(lastSeq))) ==>
                role == Candidate && lastSeq == NO_LEASE_SEQ && callbacks == old(callbacks) + [Lost]
      ensures old(role) == Candidate && fate.Answered? && old(bucket.store).live.None? ==>
                && role == Leader && callbacks == old(callbacks) + [Became]
                && bucket.store.live.Some? && lastSeq == bucket.store.live.value.rev
      ensures old(role) == Candidate && (!fate.Answered? || old(bucket.store).live.Some?) ==> Abs() == old(Abs())
    {
      if role == Leader {
        MaintainLeadership(bucket, now, fate);
      } else {
        CampaignForLeadership(bucket, now, fate);
      }
    }

    method StepDown(bucket: Bucket, fate: Fate)
      modifies this, bucket
      ensures old(role).Leader? ==>
                && Abs() == Abdicate(old(Abs())).(callbacks := old(callbacks) + [Lost])
                && bucket.store == if fate.NotExecuted? then old(bucket.store) else Delete(old(bucket.store))
      ensures old(role).Candidate? ==> Abs() == Abdicate(old(Abs())) && bucket.store == old(bucket.store)
    {
      var wasLeader := role == Leader;
      role := Candidate;
      lastSeq := NO_LEASE_SEQ;
      if !wasLeader {
        return;
      }
      if !fate.NotExecuted? {
        bucket.store := Delete(bucket.store);
      }
      callbacks := callbacks + [Lost];
    }
  }

  /** The request one try sends, executed on the store: a CAS refresh by a leader,
      a claim by anyone else. */
  function Request(s: Store, who: NodeId, v: View, now: nat): (Store, Reply) {
    if v.role.Leader? then Update(s, who, v.lastSeq, now) else Create(s, who, now)
  }
}

/** Any number of nodes racing on the leader key over a network that delays,
    drops and reorders requests and loses replies. */
module ElectionCluster {
  import opened Wrappers
  import opened Election

  /** The KV requests of the protocol. `lease` and `leaseAt` of a Delete are the
      revision its sender held and the time that revision was committed. */
  datatype Kind =
    | CreateReq
    | UpdateReq(expected: nat)
    | DeleteReq(lease: nat, leaseAt: nat)

  datatype Msg = Msg(id: nat, from: NodeId, kind: Kind)
  datatype Answer = Answer(from: NodeId, reply: Reply, at: nat)

  /** Trying: inside try, holding the mutex. Releasing: inside stepDown, after the
      mutex was dropped, before the lost callback. */
  datatype Phase = Idle | Trying(id: nat) | Releasing

  datatype Node = Node(view: View, phase: Phase, leaseAt: nat)

  datatype Sys = Sys(
    now: nat,
    store: Store,
    msgs: set<Msg>,
    answers: map<nat, Answer>,
    nextId: nat,
    nodes: map<NodeId, Node>)

  datatype Step =
    | StartTry(n: NodeId)
    | Execute(m: Msg)
    | Drop(m: Msg)
    | Receive(n: NodeId)
    | GiveUp(n: NodeId)
    | StepDown(n: NodeId)
    | Released(n: NodeId)
    | Sweep
    | Advance(d: nat)

  ghost predicate Init(s: Sys) {
    && s.store.live.None? && s.store.log == []
    && s.msgs == {} && s.answers == map[]
    && forall n :: n in s.nodes ==> s.nodes[n].view == FRESH_VIEW && s.nodes[n].phase == Idle
  }

  ghost predicate Enabled(s: Sys, st: Step) {
    match st
    case StartTry(n) => n in s.nodes && s.nodes[n].phase.Idle?
    case Execute(m) => m in s.msgs && s.store.lastRev + 1 < NO_LEASE_SEQ
    case Drop(m) => m in s.msgs
    case Receive(n) => n in s.nodes && s.nodes[n].phase.Trying? && s.nodes[n].phase.id in s.answers
    case GiveUp(n) => n in s.nodes && s.nodes[n].phase.Trying?
    case StepDown(n) => n in s.nodes && s.nodes[n].phase.Idle?
    case Released(n) => n in s.nodes && s.nodes[n].phase.Releasing?
    case Sweep => s.store.live.Some? && s.now >= s.store.live.value.writtenAt + LEADER_TTL
    case Advance(d) => true
  }

  ghost function Apply(s: Sys, st: Step): Sys
    requires Enabled(s, st)
  {
    match st
    case StartTry(n) =>
      var node := s.nodes[n];
      var kind := if node.view.role.Leader? then UpdateReq(node.view.lastSeq) else CreateReq;
      s.(msgs := s.msgs + {Msg(s.nextId, n, kind)}, nextId := s.nextId + 1,
         nodes := s.nodes[n := node.(phase := Trying(s.nextId))])
    case Execute(m) =>
      var (store', reply) := Executed(s, m);
      s.(store := store', msgs := s.msgs - {m}, answers := s.answers[m.id := Answer(m.from, reply, s.now)])
    case Drop(m) => s.(msgs := s.msgs - {m})
    case Receive(n) =>
      var node := s.nodes[n];
      var a := s.answers[node.phase.id];
      s.(answers := s.answers - {node.phase.id},
         nodes := s.nodes[n := Node(TryStep(node.view, a.reply), Idle, if a.reply.Ok? then a.at else node.leaseAt)])
    case GiveUp(n) =>
      var node := s.nodes[n];
      s.(nodes := s.nodes[n := Node(TryStep(node.view, Err), Idle, node.leaseAt)])
    case StepDown(n) =>
      var node := s.nodes[n];
      if node.view.role.Candidate? then
        s.(nodes := s.nodes[n := node.(view := Abdicate(node.view))])
      else
        s.(msgs := s.msgs + {Msg(s.nextId, n, DeleteReq(node.view.lastSeq, node.leaseAt))}, nextId := s.nextId + 1,
           nodes := s.nodes[n := node.(view := Abdicate(node.view), phase := Releasing)])
    case Released(n) =>
      var node := s.nodes[n];
      s.(nodes := s.nodes[n := node.(view := node.view.(callbacks := node.view.callbacks + [Lost]), phase := Idle)])
    case Sweep => s.(store := Expire(s.store))
    case Advance(d) => s.(now := s.now + d)
  }

  ghost function Executed(s: Sys, m: Msg): (Store, Reply) {
    match m.kind
    case CreateReq => Create(s.store, m.from, s.now)
    case UpdateReq(expected) => Update(s.store, m.from, expected, s.now)
    case DeleteReq(_, _) => (Delete(s.store), Err)
  }

  /** IsLeader takes the mutex, so it is read only between tries. */
  ghost predicate IsLeader(s: Sys, n: NodeId) {
    n in s.nodes && !s.nodes[n].phase.Trying? && s.nodes[n].view.role.Leader?
  }

  ghost predicate AtMostOneLeader(s: Sys) {
    forall n, m :: IsLeader(s, n) && IsLeader(s, m) ==> n == m
  }

  ghost predicate IsRun(states: seq<Sys>, steps: seq<Step>) {
    && |states| == |steps| + 1
    && Init(states[0])
    && forall i :: 0 <= i < |steps| ==> Enabled(states[i], steps[i]) && states[i + 1] == Apply(states[i], steps[i])
  }

  // ----- fencing: what holds with no timing assumption at all -----

  ghost predicate LogOk(s: Store) {
    && (forall i :: 0 <= i < |s.log| ==> s.log[i].rev <= s.lastRev)
    && (forall i, j :: 0 <= i < j < |s.log| && s.log[j].Wrote? ==> s.log[i].rev < s.log[j].rev)
    && (s.live.Some? ==> s.log != [] && s.log[|s.log| - 1] == Wrote(s.live.value.rev, s.live.value.writer))
  }

  ghost predicate WroteBy(s: Store, rev: nat, n: NodeId) {
    Wrote(rev, n) in s.log
  }

  function Mentions(m: Msg): Option<nat> {
    match m.kind
    case CreateReq => None
    case UpdateReq(e) => Some(e)
    case DeleteReq(l, _) => Some(l)
  }

  ghost predicate Unmentioned(s: Sys, rev: nat) {
    forall m :: m in s.msgs ==> Mentions(m) != Some(rev)
  }

  ghost predicate Alternating(cbs: seq<Callback>) {
    forall i :: 0 <= i < |cbs| ==> cbs[i] == if i % 2 == 0 then Became else Lost
  }

  /** What a try sends: a leader refreshes its own lease, anyone else claims. */
  function Asks(v: View): Kind {
    if v.role.Leader? then UpdateReq(v.lastSeq) else CreateReq
  }

  /** A node leads exactly while it holds a lease sequence, which it wrote itself;
      its become and lose callbacks alternate. */
  ghost predicate NodeOk(s: Sys, n: NodeId)
    requires n in s.nodes
  {
    var node := s.nodes[n];
    && (node.view.role.Leader? <==> node.view.lastSeq != NO_LEASE_SEQ)
    && (node.view.role.Leader? ==> WroteBy(s.store, node.view.lastSeq, n) && !node.phase.Releasing?)
    && Alternating(node.view.callbacks)
    && (|node.view.callbacks| % 2 == 1 <==> node.view.role.Leader? || node.phase.Releasing?)
    && (node.view.role.Leader? && node.phase.Idle? ==> Unmentioned(s, node.view.lastSeq))
    && (node.phase.Trying? ==> node.phase.id < s.nextId)
    && (node.view.role.Leader? && node.phase.Trying? ==>
          forall m :: m in s.msgs && Mentions(m) == Some(node.view.lastSeq) ==>
            m.kind.UpdateReq? && m.id == node.phase.id)
    && (node.phase.Trying? && node.phase.id in s.answers ==> s.answers[node.phase.id].from == n)
    && (node.phase.Trying? ==> forall m :: m in s.msgs && m.id == node.phase.id ==> m == Msg(m.id, n, Asks(node.view)))
  }

  ghost predicate MsgOk(s: Sys, m: Msg) {
    && m.id < s.nextId
    && m.id !in s.answers
    && (m.kind.UpdateReq? ==> WroteBy(s.store, m.kind.expected, m.from))
    && (m.kind.DeleteReq? ==> WroteBy(s.store, m.kind.lease, m.from))
  }

  ghost predicate AnswerOk(s: Sys, id: nat)
    requires id in s.answers
  {
    var a := s.answers[id];
    && id < s.nextId
    && (a.reply.Ok? ==>
          && WroteBy(s.store, a.reply.rev, a.from)
          && Unmentioned(s, a.reply.rev)
          && forall n :: n in s.nodes ==> s.nodes[n].view.lastSeq != a.reply.rev)
  }

  /** Two requests that could be one: the same number, or the same lease. */
  predicate Rival(m: Msg, m': Msg) {
    m.id == m'.id || (Mentions(m).Some? && Mentions(m) == Mentions(m'))
  }

  predicate SameGrant(a: Answer, b: Answer) {
    a.reply.Ok? && a.reply == b.reply
  }

  ghost predicate Inv(s: Sys) {
    && (s.store.log != [] ==> s.store.lastRev < NO_LEASE_SEQ)
    && LogOk(s.store)
    && (forall n :: n in s.nodes ==> NodeOk(s, n))
    && (forall m :: m in s.msgs ==> MsgOk(s, m))
    && (forall m, m' :: m in s.msgs && m' in s.msgs && Rival(m, m') ==> m == m')
    && (forall id :: id in s.answers ==> AnswerOk(s, id))
    && (forall i, j :: i in s.answers && j in s.answers && SameGrant(s.answers[i], s.answers[j]) ==> i == j)
  }

  lemma OneWriter(s: Store, rev: nat, n: NodeId, m: NodeId)
    requires LogOk(s) && WroteBy(s, rev, n) && WroteBy(s, rev, m)
    ensures n == m && rev <= s.lastRev
  {
  }

  lemma InitInv(s: Sys)
    requires Init(s)
    ensures Inv(s)
  {
  }

  lemma StartTryNodes(s: Sys, n: NodeId)
    requires Inv(s) && Enabled(s, StartTry(n))
    ensures var s' := Apply(s, StartTry(n)); forall k :: k in s'.nodes ==> NodeOk(s', k)
  {
  }

  lemma StartTryInv(s: Sys, n: NodeId)
    requires Inv(s) && Enabled(s, StartTry(n))
    ensures Inv(Apply(s, StartTry(n)))
  {
    var s' := Apply(s, StartTry(n));
    StartTryNodes(s, n);
    assert NodeOk(s, n);
    forall m | m in s'.msgs ensures MsgOk(s', m) { if m in s.msgs { assert MsgOk(s, m); } }
    forall i | i in s'.answers ensures AnswerOk(s', i) { assert AnswerOk(s, i); }
  }

  /** s' comes after s on the same key: nothing logged is forgotten. */
  ghost predicate Extends(s: Store, s': Store) {
    && s.lastRev <= s'.lastRev
    && forall r, n :: WroteBy(s, r, n) ==> WroteBy(s', r, n)
  }

  lemma StoreSteps(s: Store, who: NodeId, now: nat)
    requires LogOk(s)
    ensures LogOk(Put(s, who, now)) && Extends(s, Put(s, who, now)) && WroteBy(Put(s, who, now), s.lastRev + 1, who)
    ensures LogOk(Delete(s)) && Extends(s, Delete(s))
    ensures LogOk(Expire(s)) && Extends(s, Expire(s))
  {
  }

  /** Changing only the store, by extending it, breaks nothing. */
  lemma StoreInv(s: Sys, store': Store)
    requires Inv(s) && LogOk(store') && Extends(s.store, store') && store'.lastRev < NO_LEASE_SEQ
    ensures Inv(s.(store := store'))
  {
    var s' := s.(store := store');
    forall n | n in s'.nodes ensures NodeOk(s', n) { assert NodeOk(s, n); }
    forall m | m in s'.msgs ensures MsgOk(s', m) { assert MsgOk(s, m); }
    forall id | id in s'.answers ensures AnswerOk(s', id) { assert AnswerOk(s, id); }
  }

  lemma DropInv(s: Sys, m: Msg)
    requires Inv(s)
    ensures Inv(s.(msgs := s.msgs - {m}))
  {
  }

  /** Recording an answer is safe when a granted revision is new to everyone. */
  lemma AnswerInv(s: Sys, id: nat, a: Answer)
    requires Inv(s) && id < s.nextId && id !in s.answers
    requires forall m :: m in s.msgs ==> m.id != id
    requires forall n :: n in s.nodes && s.nodes[n].phase == Trying(id) ==> n == a.from
    requires a.reply.Ok? ==>
               && WroteBy(s.store, a.reply.rev, a.from) && Unmentioned(s, a.reply.rev)
               && (forall n :: n in s.nodes ==> s.nodes[n].view.lastSeq != a.reply.rev)
               && (forall i :: i in s.answers ==> s.answers[i].reply != a.reply)
    ensures Inv(s.(answers := s.answers[id := a]))
  {
  }

  /** No revision anyone knows of lies beyond the last sequence. */
  lemma RevisionsAreOld(s: Sys)
    requires Inv(s) && s.store.lastRev + 1 < NO_LEASE_SEQ
    ensures Unmentioned(s, s.store.lastRev + 1)
    ensures forall n :: n in s.nodes ==> s.nodes[n].view.lastSeq != s.store.lastRev + 1
    ensures forall i :: i in s.answers ==> s.answers[i].reply != Ok(s.store.lastRev + 1)
  {
  }

  /** A request leaves the network and its effect reaches the store. */
  lemma ConsumeInv(s: Sys, m: Msg)
    requires Inv(s) && Enabled(s, Execute(m))
    ensures Inv(s.(msgs := s.msgs - {m}, store := Executed(s, m).0))
  {
    StoreSteps(s.store, m.from, s.now);
    DropInv(s, m);
    var s1 := s.(msgs := s.msgs - {m});
    if Executed(s, m).0 != s.store {
      StoreInv(s1, Executed(s, m).0);
    }
  }

  lemma ExecuteInv(s: Sys, m: Msg)
    requires Inv(s) && Enabled(s, Execute(m))
    ensures Inv(Apply(s, Execute(m)))
  {
    var (store', reply) := Executed(s, m);
    StoreSteps(s.store, m.from, s.now);
    RevisionsAreOld(s);
    assert MsgOk(s, m);
    forall n | n in s.nodes && s.nodes[n].phase == Trying(m.id) ensures n == m.from { assert NodeOk(s, n); }
    ConsumeInv(s, m);
    var s2 := s.(msgs := s.msgs - {m}, store := store');
    AnswerInv(s2, m.id, Answer(m.from, reply, s.now));
    assert s2.(answers := s2.answers[m.id := Answer(m.from, reply, s.now)]) == Apply(s, Execute(m));
  }

  lemma ReceiveInv(s: Sys, n: NodeId)
    requires Inv(s) && Enabled(s, Receive(n))
    ensures Inv(Apply(s, Receive(n)))
  {
    var s' := Apply(s, Receive(n));
    assert NodeOk(s, n);
    var id := s.nodes[n].phase.id;
    assert AnswerOk(s, id);
    forall k | k in s'.nodes ensures NodeOk(s', k) {
      assert NodeOk(s, k);
    }
    forall m | m in s'.msgs ensures MsgOk(s', m) { assert MsgOk(s, m); }
    forall i | i in s'.answers ensures AnswerOk(s', i) { assert AnswerOk(s, i); }
  }

  lemma GiveUpInv(s: Sys, n: NodeId)
    requires Inv(s) && Enabled(s, GiveUp(n))
    ensures Inv(Apply(s, GiveUp(n)))
  {
    var s' := Apply(s, GiveUp(n));
    assert NodeOk(s, n);
    forall k | k in s'.nodes ensures NodeOk(s', k) {
      assert NodeOk(s, k);
    }
    forall m | m in s'.msgs ensures MsgOk(s', m) { assert MsgOk(s, m); }
    forall i | i in s'.answers ensures AnswerOk(s', i) { assert AnswerOk(s, i); }
  }

  lemma StepDownInv(s: Sys, n: NodeId)
    requires Inv(s) && Enabled(s, StepDown(n))
    ensures Inv(Apply(s, StepDown(n)))
  {
    var s' := Apply(s, StepDown(n));
    assert NodeOk(s, n);
    forall k | k in s'.nodes ensures NodeOk(s', k) {
      assert NodeOk(s, k);
      if k != n && s.nodes[n].view.role.Leader? && s.nodes[k].view.lastSeq == s.nodes[n].view.lastSeq {
        OneWriter(s.store, s.nodes[n].view.lastSeq, n, k);
      }
    }
    forall m | m in s'.msgs ensures MsgOk(s', m) { if m in s.msgs { assert MsgOk(s, m); } }
    forall i | i in s'.answers ensures AnswerOk(s', i) { assert AnswerOk(s, i); }
  }

  lemma ReleasedInv(s: Sys, n: NodeId)
    requires Inv(s) && Enabled(s, Released(n))
    ensures Inv(Apply(s, Released(n)))
  {
    var s' := Apply(s, Released(n));
    assert NodeOk(s, n);
    forall k | k in s'.nodes ensures NodeOk(s', k) { assert NodeOk(s, k); }
    forall m | m in s'.msgs ensures MsgOk(s', m) { assert MsgOk(s, m); }
    forall i | i in s'.answers ensures AnswerOk(s', i) { assert AnswerOk(s, i); }
  }

  lemma StepInv(s: Sys, st: Step)
    requires Inv(s) && Enabled(s, st)
    ensures Inv(Apply(s, st))
  {
    match st
    case StartTry(n) => StartTryInv(s, n);
    case Execute(m) => ExecuteInv(s, m);
    case Drop(m) => DropInv(s, m);
    case Receive(n) => ReceiveInv(s, n);
    case GiveUp(n) => GiveUpInv(s, n);
    case StepDown(n) => StepDownInv(s, n);
    case Released(n) => ReleasedInv(s, n);
    case Sweep =>
      StoreSteps(s.store, "", 0);
      StoreInv(s, Expire(s.store));
    case Advance(d) =>
      var s' := Apply(s, st);
      forall k | k in s'.nodes ensures NodeOk(s', k) { assert NodeOk(s, k); }
      forall m | m in s'.msgs ensures MsgOk(s', m) { assert MsgOk(s, m); }
      forall i | i in s'.answers ensures AnswerOk(s', i) { assert AnswerOk(s, i); }
  }

  lemma {:induction false} RunInv(states: seq<Sys>, steps: seq<Step>, i: nat)
    requires IsRun(states, steps) && i < |states|
    ensures Inv(states[i])
  {
    if i == 0 {
      InitInv(states[0]);
    } else {
      RunInv(states, steps, i - 1);
      StepInv(states[i - 1], steps[i - 1]);
    }
  }

  /** Fencing, with no timing assumption: in every state of every run a node leads
      exactly while it holds a lease sequence that it wrote itself, no two nodes hold
      the live revision, callbacks alternate, and a refresh that succeeds directly
      follows the same node's previous write in the key's history. */
  lemma Fencing(states: seq<Sys>, steps: seq<Step>, i: nat)
    requires IsRun(states, steps) && i < |states|
    ensures var s := states[i];
            && (forall n :: n in s.nodes ==>
                  && (s.nodes[n].view.role.Leader? <==> s.nodes[n].view.lastSeq != NO_LEASE_SEQ)
                  && (s.nodes[n].view.role.Leader? ==> WroteBy(s.store, s.nodes[n].view.lastSeq, n))
                  && Alternating(s.nodes[n].view.callbacks))
            && (forall n, k | n in s.nodes && k in s.nodes && s.store.live.Some? ::
                  s.nodes[n].view.lastSeq == s.store.live.value.rev == s.nodes[k].view.lastSeq ==> n == k)
    ensures i < |steps| && steps[i].Execute? && steps[i].m.kind.UpdateReq? && Executed(states[i], steps[i].m).1.Ok? ==>
              var log := states[i].store.log;
              log != [] && log[|log| - 1] == Wrote(steps[i].m.kind.expected, steps[i].m.from)
  {
    RunInv(states, steps, i);
    var s := states[i];
    forall n | n in s.nodes
      ensures (s.nodes[n].view.role.Leader? <==> s.nodes[n].view.lastSeq != NO_LEASE_SEQ)
      ensures s.nodes[n].view.role.Leader? ==> WroteBy(s.store, s.nodes[n].view.lastSeq, n)
      ensures Alternating(s.nodes[n].view.callbacks)
    {
      assert NodeOk(s, n);
    }
    forall n, k | n in s.nodes && k in s.nodes && s.store.live.Some?
                  && s.nodes[n].view.lastSeq == s.store.live.value.rev == s.nodes[k].view.lastSeq
      ensures n == k
    {
      var e := s.store.live.value;
      assert s.store.log[|s.store.log| - 1] == Wrote(e.rev, e.writer);
      assert e.rev <= s.store.lastRev;
      OneWriter(s.store, e.rev, n, k);
    }
    if i < |steps| && steps[i].Execute? && steps[i].m.kind.UpdateReq? && Executed(s, steps[i].m).1.Ok? {
      var m := steps[i].m;
      assert MsgOk(s, m);
      OneWriter(s.store, m.kind.expected, m.from, s.store.live.value.writer);
    }
  }

  // ----- what an answer does -----

  /** The bucket grants a claim exactly on an empty slot and a refresh exactly on the live revision; a grant
      makes the sender the writer of the live entry. */
  lemma GrantedExactly(s: Sys, m: Msg)
    requires Enabled(s, Execute(m)) && !m.kind.DeleteReq?
    ensures var s' := Apply(s, Execute(m));
            && m.id in s'.answers && s'.answers[m.id].at == s.now && s'.answers[m.id].from == m.from
            && (s'.answers[m.id].reply.Ok? <==>
                  if m.kind.CreateReq? then s.store.live.None? else HoldsLease(s.store, m.kind.expected))
            && (s'.answers[m.id].reply.Ok? ==> s'.store.live == Some(Entry(s'.answers[m.id].reply.rev, m.from, s.now)))
            && (s'.answers[m.id].reply.Err? ==> s'.store == s.store)
  {
  }

  /** A grant makes or keeps its node leader with the granted revision, anything else leaves or makes it a
      candidate; only a change of role fires a callback. */
  lemma AnswerExactly(s: Sys, n: NodeId, st: Step)
    requires Enabled(s, st) && (st == Receive(n) || st == GiveUp(n))
    ensures var v, v' := s.nodes[n].view, Apply(s, st).nodes[n].view;
            var granted := st == Receive(n) && s.answers[s.nodes[n].phase.id].reply.Ok?;
            && Apply(s, st).nodes[n].phase.Idle?
            && (granted ==> v'.role == Leader && v'.lastSeq == s.answers[s.nodes[n].phase.id].reply.rev)
            && (!granted ==> v'.role.Candidate? && (v.role.Leader? ==> v'.lastSeq == NO_LEASE_SEQ))
            && v'.callbacks == v.callbacks + if v.role == v'.role then [] else if granted then [Became] else [Lost]
  {
  }

  // ----- timed mutual exclusion -----

  /** Every node starts its next try less than `gap` after its last lease write was
      committed. */
  ghost predicate LeadersTimely(s: Sys, gap: nat) {
    forall n :: IsLeader(s, n) ==> s.now < s.nodes[n].leaseAt + gap
  }

  /** A step-down Delete is executed less than `late` after the lease it gives up
      was committed. */
  ghost predicate DeleteTimely(s: Sys, st: Step, late: nat) {
    st.Execute? && st.m.kind.DeleteReq? ==> s.now < st.m.kind.leaseAt + late
  }

  ghost predicate Timely(states: seq<Sys>, steps: seq<Step>, gap: nat, late: nat)
    requires IsRun(states, steps)
  {
    && (forall i :: 0 <= i < |states| ==> LeadersTimely(states[i], gap))
    && (forall i :: 0 <= i < |steps| ==> DeleteTimely(states[i], steps[i], late))
  }

  /** A lease committed at `at` as revision `rev` is still the live entry, unless its
      time is over. */
  ghost predicate Held(s: Sys, rev: nat, at: nat) {
    s.now < at + LEADER_TTL ==>
      s.store.live.Some? && s.store.live.value.rev == rev && s.store.live.value.writtenAt == at
  }

  ghost predicate LeaseInv(s: Sys) {
    && (forall n :: n in s.nodes && s.nodes[n].phase.Idle? && s.nodes[n].view.role.Leader? ==>
          Held(s, s.nodes[n].view.lastSeq, s.nodes[n].leaseAt))
    && (forall m :: m in s.msgs && m.kind.DeleteReq? ==> Held(s, m.kind.lease, m.kind.leaseAt))
    && (forall id :: id in s.answers && s.answers[id].reply.Ok? ==> Held(s, s.answers[id].reply.rev, s.answers[id].at))
  }

  lemma ExecuteLease(s: Sys, m: Msg)
    requires Inv(s) && LeaseInv(s) && Enabled(s, Execute(m)) && DeleteTimely(s, Execute(m), LEADER_TTL)
    ensures LeaseInv(Apply(s, Execute(m)))
  {
    var s' := Apply(s, Execute(m));
    forall n | n in s'.nodes && s'.nodes[n].phase.Idle? && s'.nodes[n].view.role.Leader?
      ensures Held(s', s'.nodes[n].view.lastSeq, s'.nodes[n].leaseAt)
    {
      assert NodeOk(s, n);
      assert Mentions(m) != Some(s.nodes[n].view.lastSeq);
    }
    forall d | d in s'.msgs && d.kind.DeleteReq?
      ensures Held(s', d.kind.lease, d.kind.leaseAt)
    {
      assert d in s.msgs && d != m;
      assert Mentions(d) != Mentions(m);
    }
    forall id | id in s'.answers && s'.answers[id].reply.Ok?
      ensures Held(s', s'.answers[id].reply.rev, s'.answers[id].at)
    {
      if id != m.id {
        assert AnswerOk(s, id);
        assert Mentions(m) != Some(s.answers[id].reply.rev);
      }
    }
  }

  lemma StepLease(s: Sys, st: Step)
    requires Inv(s) && LeaseInv(s) && Enabled(s, st) && DeleteTimely(s, st, LEADER_TTL)
    ensures LeaseInv(Apply(s, st))
  {
    if st.Execute? {
      ExecuteLease(s, st.m);
    } else if st.Receive? {
      assert NodeOk(s, st.n);
    }
  }

  lemma {:induction false} RunLease(states: seq<Sys>, steps: seq<Step>, i: nat, gap: nat)
    requires IsRun(states, steps) && Timely(states, steps, gap, LEADER_TTL) && i < |states|
    ensures LeaseInv(states[i])
  {
    if i > 0 {
      RunLease(states, steps, i - 1, gap);
      RunInv(states, steps, i - 1);
      StepLease(states[i - 1], steps[i - 1]);
    }
  }

  /** Mutual exclusion under timely refreshes and timely step-down Deletes: whoever
      reads true from IsLeader holds the live entry, so there is at most one. */
  lemma TimedExclusion(states: seq<Sys>, steps: seq<Step>, i: nat)
    requires IsRun(states, steps) && Timely(states, steps, LEADER_TTL, LEADER_TTL) && i < |states|
    ensures AtMostOneLeader(states[i])
    ensures forall n :: IsLeader(states[i], n) ==>
              states[i].store.live.Some? && states[i].store.live.value.writer == n
  {
    var s := states[i];
    RunInv(states, steps, i);
    RunLease(states, steps, i, LEADER_TTL);
    assert LeadersTimely(s, LEADER_TTL);
    forall n | IsLeader(s, n)
      ensures s.store.live.Some? && s.store.live.value.writer == n
    {
      assert NodeOk(s, n);
      assert Held(s, s.nodes[n].view.lastSeq, s.nodes[n].leaseAt);
      OneWriter(s.store, s.store.live.value.rev, n, s.store.live.value.writer);
    }
  }

  // ----- leading without a break -----

  /** n leads; its lease is held until it runs out, and a refresh that was executed was granted. */
  ghost predicate Leads(s: Sys, n: NodeId) {
    && n in s.nodes && s.nodes[n].view.role == Leader
    && (if s.nodes[n].phase.Trying? && s.nodes[n].phase.id in s.answers
        then s.answers[s.nodes[n].phase.id].reply.Ok?
        else Held(s, s.nodes[n].view.lastSeq, s.nodes[n].leaseAt))
  }

  /** n neither steps down nor gives up on a request, and its refreshes are executed before the lease ends. */
  ghost predicate Diligent(s: Sys, st: Step, n: NodeId) {
    && st != StepDown(n) && st != GiveUp(n)
    && (st.Execute? && n in s.nodes && s.nodes[n].phase == Trying(st.m.id) ==> s.now < s.nodes[n].leaseAt + LEADER_TTL)
  }

  /** A refresh of the current lease, executed in time, is granted. */
  lemma OwnRefresh(s: Sys, m: Msg, n: NodeId)
    requires Inv(s) && Leads(s, n) && Enabled(s, Execute(m)) && s.nodes[n].phase == Trying(m.id)
    requires s.now < s.nodes[n].leaseAt + LEADER_TTL
    ensures Leads(Apply(s, Execute(m)), n)
  {
    assert NodeOk(s, n) && MsgOk(s, m);
  }

  /** Nobody else's request takes an unexpired lease away. */
  lemma OthersRequest(s: Sys, m: Msg, n: NodeId)
    requires Inv(s) && LeaseInv(s) && Leads(s, n) && Enabled(s, Execute(m)) && s.nodes[n].phase != Trying(m.id)
    requires DeleteTimely(s, Execute(m), LEADER_TTL)
    ensures Leads(Apply(s, Execute(m)), n)
  {
    assert NodeOk(s, n) && MsgOk(s, m);
    assert Held(s, s.nodes[n].view.lastSeq, s.nodes[n].leaseAt) ==> Mentions(m) != Some(s.nodes[n].view.lastSeq);
  }

  lemma LeadsStep(s: Sys, st: Step, n: NodeId)
    requires Inv(s) && LeaseInv(s) && Leads(s, n) && Enabled(s, st)
    requires DeleteTimely(s, st, LEADER_TTL) && Diligent(s, st, n)
    ensures Leads(Apply(s, st), n) && Apply(s, st).nodes[n].view.callbacks == s.nodes[n].view.callbacks
  {
    assert NodeOk(s, n);
    if st.Execute? {
      if s.nodes[n].phase == Trying(st.m.id) {
        OwnRefresh(s, st.m, n);
      } else {
        OthersRequest(s, st.m, n);
      }
    } else if st.StartTry? && st.n == n {
      assert forall id :: id in s.answers ==> AnswerOk(s, id);
    }
  }

  /** A leader that goes on refreshing in time leads without a break: whatever the others and the network do,
      it is never demoted and fires no callback. */
  lemma {:induction false} LeadsThroughout(states: seq<Sys>, steps: seq<Step>, n: NodeId, i: nat, j: nat)
    requires IsRun(states, steps) && Timely(states, steps, LEADER_TTL, LEADER_TTL) && i <= j < |states|
    requires IsLeader(states[i], n)
    requires forall k :: i <= k < j ==> Diligent(states[k], steps[k], n)
    ensures Leads(states[j], n) && states[j].nodes[n].view.callbacks == states[i].nodes[n].view.callbacks
  {
    if i == j {
      LeadsFrom(states, steps, n, i);
    } else {
      LeadsThroughout(states, steps, n, i, j - 1);
      LeadsOn(states, steps, n, j - 1);
    }
  }

  lemma LeadsFrom(states: seq<Sys>, steps: seq<Step>, n: NodeId, i: nat)
    requires IsRun(states, steps) && Timely(states, steps, LEADER_TTL, LEADER_TTL) && i < |states|
    requires IsLeader(states[i], n)
    ensures Leads(states[i], n)
  {
    RunInv(states, steps, i);
    RunLease(states, steps, i, LEADER_TTL);
    assert NodeOk(states[i], n);
  }

  lemma LeadsOn(states: seq<Sys>, steps: seq<Step>, n: NodeId, k: nat)
    requires IsRun(states, steps) && Timely(states, steps, LEADER_TTL, LEADER_TTL) && k < |steps|
    requires Leads(states[k], n) && Diligent(states[k], steps[k], n)
    ensures Leads(states[k + 1], n) && states[k + 1].nodes[n].view.callbacks == states[k].nodes[n].view.callbacks
  {
    RunInv(states, steps, k);
    RunLease(states, steps, k, LEADER_TTL);
    assert DeleteTimely(states[k], steps[k], LEADER_TTL);
    LeadsStep(states[k], steps[k], n);
  }

  // ----- and the exact bounds under which it holds -----

  ghost predicate Exclusive(gap: nat, late: nat) {
    forall states, steps, i ::
      IsRun(states, steps) && Timely(states, steps, gap, late) && 0 <= i < |states| ==> AtMostOneLeader(states[i])
  }

  lemma ExclusiveMonotone(states: seq<Sys>, steps: seq<Step>, gap: nat, late: nat)
    requires IsRun(states, steps) && Timely(states, steps, gap, late) && gap <= LEADER_TTL && late <= LEADER_TTL
    ensures Timely(states, steps, LEADER_TTL, LEADER_TTL)
  {
  }

  ghost predicate Reaches(s: Sys, gap: nat, late: nat) {
    exists states, steps :: IsRun(states, steps) && Timely(states, steps, gap, late) && states[|states| - 1] == s
  }

  lemma Extend(s: Sys, st: Step, gap: nat, late: nat)
    requires Reaches(s, gap, late) && Enabled(s, st) && DeleteTimely(s, st, late) && LeadersTimely(Apply(s, st), gap)
    ensures Reaches(Apply(s, st), gap, late)
  {
    var states, steps :| IsRun(states, steps) && Timely(states, steps, gap, late) && states[|states| - 1] == s;
    var states', steps' := states + [Apply(s, st)], steps + [st];
    assert IsRun(states', steps') && Timely(states', steps', gap, late) && states'[|states'| - 1] == Apply(s, st);
  }

  lemma ReachesInv(s: Sys, gap: nat, late: nat)
    requires Reaches(s, gap, late)
    ensures Inv(s)
  {
    var states, steps :| IsRun(states, steps) && Timely(states, steps, gap, late) && states[|states| - 1] == s;
    RunInv(states, steps, |states| - 1);
  }

  /** A candidate claims an empty slot, all in one instant. */
  lemma Claim(s: Sys, n: NodeId, gap: nat, late: nat) returns (s': Sys)
    requires gap > 0 && Reaches(s, gap, late) && LeadersTimely(s, gap)
    requires n in s.nodes && s.nodes[n].phase.Idle? && s.nodes[n].view.role.Candidate?
    requires s.store.live.None? && s.store.lastRev + 1 < NO_LEASE_SEQ
    ensures Reaches(s', gap, late) && LeadersTimely(s', gap) && IsLeader(s', n)
    ensures s'.now == s.now == s'.nodes[n].leaseAt && s'.nodes[n].phase.Idle?
    ensures s'.nodes.Keys == s.nodes.Keys && forall k :: k in s.nodes && k != n ==> s'.nodes[k] == s.nodes[k]
    ensures s'.msgs == s.msgs && s'.store.lastRev == s.store.lastRev + 1
    ensures s'.store.live.Some? && s'.store.live.value.writtenAt == s.now
    ensures s'.store.live.value.rev == s'.nodes[n].view.lastSeq
    ensures s'.nodes[n].view.callbacks == s.nodes[n].view.callbacks + [Became]
  {
    var m := Msg(s.nextId, n, CreateReq);
    ReachesInv(s, gap, late);
    assert m !in s.msgs by { assert forall m' :: m' in s.msgs ==> m'.id < s.nextId; }
    Extend(s, StartTry(n), gap, late);
    var s1 := Apply(s, StartTry(n));
    Extend(s1, Execute(m), gap, late);
    var s2 := Apply(s1, Execute(m));
    Extend(s2, Receive(n), gap, late);
    s' := Apply(s2, Receive(n));
  }

  /** n is the only leader, between two tries, and its lease is the live entry, written at `at`. */
  ghost predicate Reigns(s: Sys, n: NodeId, at: nat) {
    && n in s.nodes && s.nodes[n].phase.Idle? && s.nodes[n].view.role.Leader? && s.nodes[n].leaseAt == at
    && HoldsLease(s.store, s.nodes[n].view.lastSeq)
    && forall k :: k in s.nodes && s.nodes[k].view.role.Leader? ==> k == n
  }

  /** The interval passes and the leader sends its refresh. */
  lemma SendRefresh(s: Sys, n: NodeId, gap: nat, late: nat) returns (s': Sys, m: Msg)
    requires gap > CAMPAIGN_INTERVAL && Reaches(s, gap, late) && Reigns(s, n, s.now)
    ensures Reaches(s', gap, late) && m in s'.msgs && m == Msg(m.id, n, UpdateReq(s.nodes[n].view.lastSeq))
    ensures s' == s.(now := s.now + CAMPAIGN_INTERVAL, msgs := s.msgs + {m}, nextId := s.nextId + 1,
                     nodes := s.nodes[n := s.nodes[n].(phase := Trying(m.id))])
  {
    var s1 := Apply(s, Advance(CAMPAIGN_INTERVAL));
    m := Msg(s.nextId, n, UpdateReq(s.nodes[n].view.lastSeq));
    assert LeadersTimely(s1, gap);
    Extend(s, Advance(CAMPAIGN_INTERVAL), gap, late);
    s' := Apply(s1, StartTry(n));
    assert LeadersTimely(s', gap);
    Extend(s1, StartTry(n), gap, late);
  }

  /** One refresh on the campaign schedule. */
  lemma Refresh(s: Sys, n: NodeId, gap: nat, late: nat) returns (s': Sys)
    requires gap > CAMPAIGN_INTERVAL && Reaches(s, gap, late) && s.store.lastRev + 1 < NO_LEASE_SEQ
    requires Reigns(s, n, s.now)
    ensures Reaches(s', gap, late) && s'.now == s.now + CAMPAIGN_INTERVAL && s'.store.lastRev == s.store.lastRev + 1
    ensures Reigns(s', n, s'.now) && s'.nodes[n].view.callbacks == s.nodes[n].view.callbacks
  {
    var s2, m := SendRefresh(s, n, gap, late);
    var s3 := Apply(s2, Execute(m));
    assert LeadersTimely(s3, gap);
    Extend(s2, Execute(m), gap, late);
    s' := Apply(s3, Receive(n));
    assert LeadersTimely(s', gap);
    Extend(s3, Receive(n), gap, late);
  }

  lemma FirstReign(gap: nat, late: nat) returns (s: Sys)
    requires gap > 0
    ensures Reaches(s, gap, late) && Reigns(s, "a", 0) && s.now == 0 && s.store.lastRev == 1
    ensures s.nodes["a"].view.callbacks == [Became]
  {
    QuietReached(gap, late);
    s := Claim(Quiet(), "a", gap, late);
    assert s.nodes.Keys == Quiet().nodes.Keys;
  }

  /** For every number of rounds there is a run on the campaign schedule in which the node that won the
      election refreshes that often and has fired no callback but the first. */
  lemma {:induction false} RefreshesForever(rounds: nat, gap: nat, late: nat) returns (s: Sys, n: NodeId)
    requires gap > CAMPAIGN_INTERVAL && rounds + 2 < NO_LEASE_SEQ
    ensures Reaches(s, gap, late) && Reigns(s, n, s.now) && s.now == rounds * CAMPAIGN_INTERVAL
    ensures s.nodes[n].view.callbacks == [Became] && s.store.lastRev == rounds + 1
  {
    if rounds == 0 {
      s := FirstReign(gap, late);
      n := "a";
    } else {
      s, n := RefreshesForever(rounds - 1, gap, late);
      s := Refresh(s, n, gap, late);
    }
  }

  ghost function Quiet(): Sys {
    var node := Node(FRESH_VIEW, Idle, 0);
    Sys(0, Store(None, 0, []), {}, map[], 0, map["a" := node, "b" := node, "c" := node])
  }

  lemma QuietReached(gap: nat, late: nat)
    ensures Reaches(Quiet(), gap, late) && LeadersTimely(Quiet(), gap)
  {
    var states: seq<Sys>, steps: seq<Step> := [Quiet()], [];
    assert IsRun(states, steps) && Timely(states, steps, gap, late) && states[|states| - 1] == Quiet();
  }

  /** Refresh gaps beyond the TTL admit two leaders. */
  lemma SlowRefreshSplits(gap: nat, late: nat)
    requires gap > LEADER_TTL
    ensures exists s :: Reaches(s, gap, late) && !AtMostOneLeader(s)
  {
    QuietReached(gap, late);
    var s1 := Claim(Quiet(), "a", gap, late);
    Extend(s1, Advance(LEADER_TTL), gap, late);
    var s2 := Apply(s1, Advance(LEADER_TTL));
    Extend(s2, Sweep, gap, late);
    var s3 := Apply(s2, Sweep);
    var s4 := Claim(s3, "b", gap, late);
    assert IsLeader(s4, "a") && IsLeader(s4, "b");
  }

  ghost predicate Candidate(s: Sys, n: NodeId) {
    n in s.nodes && s.nodes[n].phase.Idle? && s.nodes[n].view.role.Candidate?
  }

  /** "a" led and has stepped down, with its Delete still on the way. */
  lemma PendingDelete(gap: nat, late: nat) returns (s: Sys, m: Msg)
    requires gap > 0
    ensures Reaches(s, gap, late) && forall n :: !IsLeader(s, n)
    ensures m in s.msgs && m.kind.DeleteReq? && m.kind.leaseAt == 0 && s.now == 0
    ensures s.store.live.Some? && s.store.live.value.writtenAt == 0 && s.store.lastRev == 1
    ensures Candidate(s, "b") && Candidate(s, "c")
  {
    QuietReached(gap, late);
    var s1 := Claim(Quiet(), "a", gap, late);
    s := Apply(s1, StepDown("a"));
    m := Msg(s1.nextId, "a", DeleteReq(s1.nodes["a"].view.lastSeq, 0));
    assert s.nodes.Keys == Quiet().nodes.Keys;
    Extend(s1, StepDown("a"), gap, late);
  }

  /** The lease has expired besides. */
  lemma StaleDelete(gap: nat, late: nat) returns (s: Sys, m: Msg)
    requires gap > 0
    ensures Reaches(s, gap, late) && LeadersTimely(s, gap)
    ensures m in s.msgs && m.kind.DeleteReq? && m.kind.leaseAt == 0 && s.now == LEADER_TTL
    ensures s.store.live.None? && s.store.lastRev == 1
    ensures Candidate(s, "b") && Candidate(s, "c") && !IsLeader(s, "a")
  {
    var s2;
    s2, m := PendingDelete(gap, late);
    var s3 := Apply(s2, Advance(LEADER_TTL));
    s := Apply(s3, Sweep);
    assert forall n :: (IsLeader(s3, n) ==> IsLeader(s2, n)) && (IsLeader(s, n) ==> IsLeader(s2, n));
    Extend(s2, Advance(LEADER_TTL), gap, late);
    Extend(s3, Sweep, gap, late);
  }

  /** A Delete executed after its sender's lease ran out removes someone else's. */
  lemma LateDeleteSplits(gap: nat, late: nat)
    requires gap > 0 && late > LEADER_TTL
    ensures exists s :: Reaches(s, gap, late) && !AtMostOneLeader(s)
  {
    var s4, m := StaleDelete(gap, late);
    var s5 := Claim(s4, "b", gap, late);
    Extend(s5, Execute(m), gap, late);
    var s6 := Apply(s5, Execute(m));
    var s7 := Claim(s6, "c", gap, late);
    assert IsLeader(s7, "b") && IsLeader(s7, "c");
  }

  /** Exclusion holds for every run that keeps to the bounds exactly when neither
      bound exceeds the TTL. */
  lemma ExclusionBounds(gap: nat, late: nat)
    requires gap > 0
    ensures Exclusive(gap, late) <==> gap <= LEADER_TTL && late <= LEADER_TTL
  {
    if gap <= LEADER_TTL && late <= LEADER_TTL {
      forall states, steps, i | IsRun(states, steps) && Timely(states, steps, gap, late) && 0 <= i < |states|
        ensures AtMostOneLeader(states[i])
      {
        ExclusiveMonotone(states, steps, gap, late);
        TimedExclusion(states, steps, i);
      }
    } else {
      if gap > LEADER_TTL {
        SlowRefreshSplits(gap, late);
      } else {
        LateDeleteSplits(gap, late);
      }
      var s :| Reaches(s, gap, late) && !AtMostOneLeader(s);
      var states, steps :| IsRun(states, steps) && Timely(states, steps, gap, late) && states[|states| - 1] == s;
      assert !AtMostOneLeader(states[|states| - 1]);
    }
  }

  /** The schedule the code keeps. Tries driven by a running ticker start within
      CAMPAIGN_INTERVAL plus some delay of the previous try's start, hence of its
      commit: exclusion tolerates any delay up to a quarter of the TTL. The first
      ticker starts only after the first try returned, up to KV_OP_TIMEOUT after its
      commit: that schedule alone does not give exclusion. */
  lemma CampaignSchedule(delay: nat)
    ensures Exclusive(CAMPAIGN_INTERVAL + delay, LEADER_TTL) <==> delay <= LEADER_TTL / 4
    ensures !Exclusive(KV_OP_TIMEOUT + CAMPAIGN_INTERVAL, LEADER_TTL)
  {
    ExclusionBounds(CAMPAIGN_INTERVAL + delay, LEADER_TTL);
    ExclusionBounds(KV_OP_TIMEOUT + CAMPAIGN_INTERVAL, LEADER_TTL);
  }
}
