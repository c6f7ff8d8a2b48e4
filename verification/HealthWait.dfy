/** The batch health wait of asty/internal/ops/deployer: the tracker fed by status
    events, and the select loop that turns it into a verdict. */
module HealthWait {
  import opened Wrappers

  type Key = string
  datatype Status = Unseen | Pending | Starting | Running | Restarting | Stopping | Stopped | Failed | Deleted

  /** What the tracker sees, in order: a status read or delivered for one allocation,
      or the end of the initial scan. */
  datatype Obs = Delivered(key: Key, status: Status, at: nat) | Scanned(at: nat)

  datatype Tracker = Tracker(statuses: map<Key, Status>, healthyAt: Option<nat>)

  ghost predicate AllRunning(statuses: map<Key, Status>) {
    forall k :: k in statuses ==> statuses[k] == Running
  }

  ghost function Track(t: Tracker, o: Obs): Tracker {
    match o
    case Delivered(k, s, at) =>
      var statuses := t.statuses[k := s];
      Tracker(statuses, if !AllRunning(statuses) then None else if t.healthyAt.None? then Some(at) else t.healthyAt)
    case Scanned(at) =>
      if AllRunning(t.statuses) && t.healthyAt.None? then t.(healthyAt := Some(at)) else t
  }

  function Satisfied(healthyAt: Option<nat>, minHealthy: int, now: nat): bool {
    healthyAt.Some? && now - healthyAt.value >= minHealthy
  }

  /** How long to sleep, 0 meaning until the next event. */
  function Until(healthyAt: Option<nat>, minHealthy: int, now: nat): (d: nat)
    ensures d == 0 <==> healthyAt.None?
  {
    if healthyAt.None? then 0
    else
      var d := minHealthy - (now - healthyAt.value);
      if d <= 0 then 1 else d
  }

  /** The timer of one select round: when it fires, if it is armed at all. */
  function Alarm(healthyAt: Option<nat>, minHealthy: int, now: nat): Option<nat> {
    var until := Until(healthyAt, minHealthy, now);
    if until > 0 then Some(now + until) else None
  }

  /** A timer is armed exactly during a healthy period, and it is due at the first moment after it was armed
      at which that period, if unbroken, is long enough. */
  lemma TimerHits(healthyAt: Option<nat>, minHealthy: int, armedAt: nat, at: nat)
    ensures Alarm(healthyAt, minHealthy, armedAt).Some? <==> healthyAt.Some?
    ensures healthyAt.Some? && at > armedAt ==>
              (at >= Alarm(healthyAt, minHealthy, armedAt).value <==> at - healthyAt.value >= minHealthy)
    ensures healthyAt.Some? ==> Alarm(healthyAt, minHealthy, armedAt).value > armedAt
    ensures Satisfied(healthyAt, minHealthy, at) <==> healthyAt.Some? && at - healthyAt.value >= minHealthy
  {
  }

  class HealthTracker {
    var statuses: map<Key, Status>
    var healthyAt: Option<nat>
    const minHealthy: int

    ghost function Abs(): Tracker
      reads this
    {
      Tracker(statuses, healthyAt)
    }

    constructor (keys: set<Key>, minHealthy: int)
      ensures Abs() == Tracker(map k | k in keys :: Unseen, None) && this.minHealthy == minHealthy
    {
      statuses := map k | k in keys :: Unseen;
      healthyAt := None;
      this.minHealthy := minHealthy;
    }

    method AllRunningLocked() returns (r: bool)
      ensures r <==> AllRunning(statuses)
    {
      var rest := statuses.Keys;
      while rest != {}
        invariant rest <= statuses.Keys
        invariant forall k :: k in statuses && k !in rest ==> statuses[k] == Running
      {
        var k :| k in rest;
        if statuses[k] != Running {
          return false;
        }
        rest := rest - {k};
      }
      r := true;
    }

    method Update(key: Key, status: Status, now: nat)
      modifies this
      ensures Abs() == Track(old(Abs()), Delivered(key, status, now))
    {
      statuses := statuses[key := status];
      var all := AllRunningLocked();
      if !all {
        healthyAt := None;
        return;
      }
      if healthyAt.None? {
        healthyAt := Some(now);
      }
    }

    method MarkHealthyNow(now: nat)
      modifies this
      ensures Abs() == Track(old(Abs()), Scanned(now))
    {
      var all := AllRunningLocked();
      if all && healthyAt.None? {
        healthyAt := Some(now);
      }
    }
  }

  // ----- the event history as the specification -----

  /** The last delivered status of every batch member after the given observations. */
  ghost function Known(keys: set<Key>, hist: seq<Obs>): map<Key, Status> {
    if hist == [] then map k | k in keys :: Unseen
    else
      var m := Known(keys, hist[..|hist| - 1]);
      var o := hist[|hist| - 1];
      if o.Delivered? then m[o.key := o.status] else m
  }

  /** Since observation j, made at time h, every batch member was last seen running, without a break; and j is
      where that period began. */
  ghost predicate RunningSince(keys: set<Key>, hist: seq<Obs>, h: nat, j: nat) {
    && 1 <= j <= |hist|
    && hist[j - 1].at == h
    && (j > 1 ==> !AllRunning(Known(keys, hist[..j - 1])))
    && forall i :: j <= i <= |hist| ==> AllRunning(Known(keys, hist[..i]))
  }

  /** healthyAt is the start of the current unbroken running period, and it is set exactly while one lasts. */
  ghost predicate Tracks(keys: set<Key>, hist: seq<Obs>, t: Tracker) {
    && t.statuses == Known(keys, hist)
    && (t.healthyAt.Some? ==> exists j: nat :: RunningSince(keys, hist, t.healthyAt.value, j))
    && (t.healthyAt.Some? <==> hist != [] && AllRunning(t.statuses))
  }

  lemma RunsOn(keys: set<Key>, hist: seq<Obs>, h: nat, j: nat, o: Obs)
    requires RunningSince(keys, hist, h, j) && AllRunning(Known(keys, hist + [o]))
    ensures RunningSince(keys, hist + [o], h, j)
  {
    var hist' := hist + [o];
    assert hist'[..j - 1] == hist[..j - 1];
    forall i | j <= i <= |hist'| ensures AllRunning(Known(keys, hist'[..i])) {
      if i < |hist'| {
        assert hist'[..i] == hist[..i];
      } else {
        assert hist'[..i] == hist';
      }
    }
  }

  lemma RunsFrom(keys: set<Key>, hist: seq<Obs>, o: Obs)
    requires AllRunning(Known(keys, hist + [o])) && (hist != [] ==> !AllRunning(Known(keys, hist)))
    ensures RunningSince(keys, hist + [o], o.at, |hist| + 1)
  {
    assert (hist + [o])[..|hist| + 1] == hist + [o] && (hist + [o])[..|hist|] == hist;
  }

  lemma TrackTracks(keys: set<Key>, hist: seq<Obs>, t: Tracker, o: Obs)
    requires Tracks(keys, hist, t)
    ensures Tracks(keys, hist + [o], Track(t, o))
  {
    var t' := Track(t, o);
    KnownNext(keys, hist, o);
    if t'.healthyAt.Some? {
      if t.healthyAt.Some? {
        var j: nat :| RunningSince(keys, hist, t.healthyAt.value, j);
        RunsOn(keys, hist, t.healthyAt.value, j, o);
      } else {
        RunsFrom(keys, hist, o);
      }
    }
  }

  lemma KnownNext(keys: set<Key>, hist: seq<Obs>, o: Obs)
    ensures Known(keys, hist + [o]) ==
            if o.Delivered? then Known(keys, hist)[o.key := o.status] else Known(keys, hist)
  {
    assert (hist + [o])[..|hist|] == hist;
  }

  // ----- the select loop -----

  /** What the loop can be handed: a watch event for a batch member (seen by the
      tracker, and noted in the one-slot updates channel), that channel's signal, its
      own timer, or the end of its patience. */
  datatype Event = Watched(key: Key, status: Status, at: nat) | Woken(at: nat) | TimerFired(at: nat) | Ended

  datatype Verdict = Healthy(at: nat) | GaveUp | StillWaiting

  /** One record of the initial scan, with the moment it was read. */
  datatype Read = Read(key: Key, status: Status, at: nat)

  /** Everything the loop holds between two rounds: `signal` is the one-slot updates
      channel, `timer` the instant its timer fires. */
  datatype Loop = Loop(tracker: Tracker, signal: bool, timer: Option<nat>, armedAt: nat)

  /** The timer event is the loop's own timer and finds the batch satisfied. */
  ghost predicate Fires(minHealthy: int, l: Loop, e: Event) {
    && e.TimerFired? && l.timer.Some? && e.at >= l.timer.value
    && Satisfied(l.tracker.healthyAt, minHealthy, e.at)
  }

  /** One round of the select loop that does not end it. */
  ghost function Turn(keys: set<Key>, minHealthy: int, l: Loop, e: Event): Loop {
    match e
    case Watched(k, s, at) =>
      if k in keys then l.(tracker := Track(l.tracker, Delivered(k, s, at)), signal := true) else l
    case Woken(at) =>
      if l.signal then Loop(l.tracker, false, Alarm(l.tracker.healthyAt, minHealthy, at), at) else l
    case TimerFired(at) =>
      if l.timer.Some? && at >= l.timer.value
      then l.(timer := Alarm(l.tracker.healthyAt, minHealthy, at), armedAt := at) else l
    case Ended => l
  }

  /** What the tracker observes of the initial scan, which ends at t0. */
  ghost function Scan(seed: seq<Read>, t0: nat): seq<Obs> {
    seq(|seed|, i requires 0 <= i < |seed| => Delivered(seed[i].key, seed[i].status, seed[i].at)) + [Scanned(t0)]
  }

  /** What one event adds: watch events of the batch only. */
  ghost function Observed(keys: set<Key>, e: Event): seq<Obs> {
    if e.Watched? && e.key in keys then [Delivered(e.key, e.status, e.at)] else []
  }

  ghost function Deliveries(keys: set<Key>, events: seq<Event>): seq<Obs> {
    if events == [] then [] else Deliveries(keys, events[..|events| - 1]) + Observed(keys, events[|events| - 1])
  }

  /** The loop after some events, from the tracker the scan left. */
  ghost function After(keys: set<Key>, minHealthy: int, start: Loop, events: seq<Event>): Loop {
    if events == [] then start
    else Turn(keys, minHealthy, After(keys, minHealthy, start, events[..|events| - 1]), events[|events| - 1])
  }

  ghost function Begin(t: Tracker, minHealthy: int, t0: nat): Loop {
    Loop(t, false, Alarm(t.healthyAt, minHealthy, t0), t0)
  }

  /** No wake-up is ever lost: unless a signal is pending, the timer is armed for the
      healthy period the tracker is in. */
  ghost predicate Armed(minHealthy: int, l: Loop) {
    !l.signal ==> l.timer == Alarm(l.tracker.healthyAt, minHealthy, l.armedAt)
  }

  /** The batch has been running without a break for at least minHealthy. */
  ghost predicate LongHealthy(keys: set<Key>, hist: seq<Obs>, minHealthy: int, at: nat) {
    exists h: nat, j: nat :: RunningSince(keys, hist, h, j) && at - h >= minHealthy
  }

  lemma {:induction false} LoopTracks(keys: set<Key>, minHealthy: int, scan: seq<Obs>, start: Loop, events: seq<Event>)
    requires Tracks(keys, scan, start.tracker) && Armed(minHealthy, start)
    ensures var l := After(keys, minHealthy, start, events);
            Tracks(keys, scan + Deliveries(keys, events), l.tracker) && Armed(minHealthy, l)
  {
    if events == [] {
      assert scan + [] == scan;
    } else {
      var front, e := events[..|events| - 1], events[|events| - 1];
      LoopTracks(keys, minHealthy, scan, start, front);
      var hist := scan + Deliveries(keys, front);
      assert scan + Deliveries(keys, events) == hist + Observed(keys, e);
      TurnTracks(keys, minHealthy, hist, After(keys, minHealthy, start, front), e);
    }
  }

  lemma TurnTracks(keys: set<Key>, minHealthy: int, hist: seq<Obs>, l: Loop, e: Event)
    requires Tracks(keys, hist, l.tracker) && Armed(minHealthy, l)
    ensures var l' := Turn(keys, minHealthy, l, e);
            Tracks(keys, hist + Observed(keys, e), l'.tracker) && Armed(minHealthy, l')
  {
    if e.Watched? && e.key in keys {
      TrackTracks(keys, hist, l.tracker, Delivered(e.key, e.status, e.at));
    } else {
      assert hist + [] == hist;
    }
  }

  /** A healthy verdict is sound: every batch member's last delivered status was
      running, without a break, for at least minHealthy. */
  lemma {:induction false} HealthySound(keys: set<Key>, minHealthy: int, scan: seq<Obs>, start: Loop,
      events: seq<Event>, e: Event)
    requires Tracks(keys, scan, start.tracker) && Armed(minHealthy, start)
    requires Fires(minHealthy, After(keys, minHealthy, start, events), e)
    ensures LongHealthy(keys, scan + Deliveries(keys, events), minHealthy, e.at)
  {
    LoopTracks(keys, minHealthy, scan, start, events);
  }

  /** Once armed, the timer ends the wait at exactly the moments at least minHealthy after h. */
  ghost predicate FiresFrom(minHealthy: int, l: Loop, h: nat) {
    forall at: nat :: at > l.armedAt ==> (Fires(minHealthy, l, TimerFired(at)) <==> at - h >= minHealthy)
  }

  ghost predicate FiresInTime(keys: set<Key>, hist: seq<Obs>, minHealthy: int, l: Loop) {
    exists h: nat, j: nat :: RunningSince(keys, hist, h, j) && FiresFrom(minHealthy, l, h)
  }

  /** And complete: whenever every member was last seen running and no signal waits in the channel, the timer is
      armed, and after that it brings the healthy verdict at every moment at which the running period is
      long enough, and at no other. */
  lemma {:induction false} HealthyComplete(keys: set<Key>, minHealthy: int, scan: seq<Obs>, start: Loop,
      events: seq<Event>)
    requires Tracks(keys, scan, start.tracker) && Armed(minHealthy, start) && scan != []
    requires var l := After(keys, minHealthy, start, events);
             !l.signal && AllRunning(Known(keys, scan + Deliveries(keys, events)))
    ensures var l := After(keys, minHealthy, start, events);
            l.timer.Some? && FiresInTime(keys, scan + Deliveries(keys, events), minHealthy, l)
  {
    LoopTracks(keys, minHealthy, scan, start, events);
    var l, hist := After(keys, minHealthy, start, events), scan + Deliveries(keys, events);
    TimerHits(l.tracker.healthyAt, minHealthy, l.armedAt, 0);
    var h := l.tracker.healthyAt.value;
    var j: nat :| RunningSince(keys, hist, h, j);
    forall at: nat | at > l.armedAt ensures Fires(minHealthy, l, TimerFired(at)) <==> at - h >= minHealthy {
      TimerHits(l.tracker.healthyAt, minHealthy, l.armedAt, at);
    }
    assert RunningSince(keys, hist, h, j) && FiresFrom(minHealthy, l, h);
  }

  /** Seeds a tracker with the KV records that could be read. */
  method SeedTracker(keys: set<Key>, seed: seq<Read>, t0: nat, minHealthy: int) returns (tracker: HealthTracker)
    requires forall i :: 0 <= i < |seed| ==> seed[i].key in keys
    ensures fresh(tracker) && tracker.minHealthy == minHealthy
    ensures Tracks(keys, Scan(seed, t0), tracker.Abs())
  {
    tracker := new HealthTracker(keys, minHealthy);
    ghost var hist: seq<Obs> := [];
    var i := 0;
    while i < |seed|
      invariant 0 <= i == |hist| <= |seed|
      invariant Tracks(keys, hist, tracker.Abs())
      invariant forall j :: 0 <= j < i ==> hist[j] == Delivered(seed[j].key, seed[j].status, seed[j].at)
    {
      var r := seed[i];
      TrackTracks(keys, hist, tracker.Abs(), Delivered(r.key, r.status, r.at));
      hist := hist + [Delivered(r.key, r.status, r.at)];
      tracker.Update(r.key, r.status, r.at);
      i := i + 1;
    }
    TrackTracks(keys, hist, tracker.Abs(), Scanned(t0));
    assert hist + [Scanned(t0)] == Scan(seed, t0);
    tracker.MarkHealthyNow(t0);
  }

  /** One round of the select loop. */
  method Round(keys: set<Key>, tracker: HealthTracker, e: Event, signal: bool, timer: Option<nat>, ghost armedAt: nat)
    returns (v: Verdict, signal': bool, timer': Option<nat>, ghost armedAt': nat)
    modifies tracker
    ensures var l := old(Loop(tracker.Abs(), signal, timer, armedAt));
            && (v.GaveUp? <==> e.Ended?)
            && (v.Healthy? <==> Fires(tracker.minHealthy, l, e)) && (v.Healthy? ==> v.at == e.at)
            && (v.StillWaiting? ==>
                  Loop(tracker.Abs(), signal', timer', armedAt') == Turn(keys, tracker.minHealthy, l, e))
  {
    v, signal', timer', armedAt' := StillWaiting, signal, timer, armedAt;
    match e {
      case Ended =>
        v := GaveUp;
      case Watched(k, s, at) =>
        if k in keys {
          tracker.Update(k, s, at);
          signal' := true;
        }
      case Woken(at) =>
        if signal {
          signal', armedAt' := false, at;
          timer' := Alarm(tracker.healthyAt, tracker.minHealthy, at);
        }
      case TimerFired(at) =>
        if timer.Some? && at >= timer.value {
          if Satisfied(tracker.healthyAt, tracker.minHealthy, at) {
            v := Healthy(at);
          } else {
            armedAt' := at;
            timer' := Alarm(tracker.healthyAt, tracker.minHealthy, at);
          }
        }
    }
  }

  /** The verdict falls at the first event that ends the loop's patience or is its own
      timer finding the batch satisfied; by HealthySound and HealthyComplete that means
      an unbroken healthy period, and no such period is missed. n is the number of
      events consumed before the verdict. */
  method WaitBatch(keys: set<Key>, seed: seq<Read>, t0: nat, minHealthy: int, events: seq<Event>)
    returns (v: Verdict, n: nat, ghost start: Loop)
    requires forall i :: 0 <= i < |seed| ==> seed[i].key in keys
    ensures Tracks(keys, Scan(seed, t0), start.tracker) && start == Begin(start.tracker, minHealthy, t0)
    ensures n <= |events| && (v.StillWaiting? <==> n == |events|)
    ensures forall i :: 0 <= i < n ==>
              !events[i].Ended? && !Fires(minHealthy, After(keys, minHealthy, start, events[..i]), events[i])
    ensures n < |events| && events[n].Ended? ==> v == GaveUp
    ensures n < |events| && !events[n].Ended? ==>
              v == Healthy(events[n].at) && Fires(minHealthy, After(keys, minHealthy, start, events[..n]), events[n])
    ensures v.Healthy? ==> LongHealthy(keys, Scan(seed, t0) + Deliveries(keys, events[..n]), minHealthy, v.at)
  {
    var tracker := SeedTracker(keys, seed, t0, minHealthy);
    start := Begin(tracker.Abs(), minHealthy, t0);
    var signal, timer := false, Alarm(tracker.healthyAt, minHealthy, t0);
    ghost var armedAt := t0;
    v, n := StillWaiting, 0;
    while n < |events|
      invariant n <= |events| && v.StillWaiting? && tracker.minHealthy == minHealthy
      invariant Loop(tracker.Abs(), signal, timer, armedAt) == After(keys, minHealthy, start, events[..n])
      invariant forall i :: 0 <= i < n ==>
                  !events[i].Ended? && !Fires(minHealthy, After(keys, minHealthy, start, events[..i]), events[i])
    {
      v, signal, timer, armedAt := Round(keys, tracker, events[n], signal, timer, armedAt);
      if !v.StillWaiting? {
        if v.Healthy? {
          HealthySound(keys, minHealthy, Scan(seed, t0), start, events[..n], events[n]);
        }
        return;
      }
      assert events[..n + 1][..n] == events[..n];
      n := n + 1;
    }
  }
}
