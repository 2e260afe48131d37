/** Who waits for an answer, and for whom: what every object that waits waits for,
    when all are answered, and which meta-sensors wait for ever. */
module ThermalWaiting {
  import opened ThermalRequests

  // ----- meta-sensors that never get an answer

  /** While `k` waits, answers cannot make `a` be read: thermal_manager_have_
      pending_sensor_update finds it, even when it is `a` itself. */
  predicate Blocks(sensors: seq<Sensor>, k: nat, a: nat)
    requires k < |sensors| && a < |sensors|
  {
    DependsOn(sensors, a, k) && sensors[k].name != sensors[a].dependsOn.name
  }

  /** `a` cannot be read before somebody in `group` has been answered: all its
      sources are in it, or somebody that blocks it is. */
  predicate Held(sensors: seq<Sensor>, a: nat, group: set<nat>)
    requires a < |sensors|
  {
    && sensors[a].dependsOn.On?
    && (|| (forall j :: 0 <= j < |sensors| && DependsOn(sensors, a, j) ==> j in group)
        || exists b :: b in group && b < |sensors| && Blocks(sensors, b, a))
  }

  /** They wait, and no callback is scheduled for them. */
  predicate Asleep(s: Net, group: set<nat>) {
    forall k :: k in group ==> k < |s.pending| && s.pending[k] && k !in s.notifying
  }

  /** Meta-sensors that all wait, with no callback scheduled, and hold one another. */
  predicate Stuck(sensors: seq<Sensor>, s: Net, group: set<nat>)
    requires Fits(sensors, s)
  {
    Asleep(s, group) && forall k :: k in group ==> k < |sensors| && Held(sensors, k, group)
  }

  lemma {:induction false} RevisitKeepsStuck(sensors: seq<Sensor>, s: Net, changed: nat, k: nat, r: Reads,
                                             group: set<nat>)
    requires Fits(sensors, s) && changed < |sensors| && k <= |sensors|
    requires Stuck(sensors, s, group) && changed !in group
    ensures Stuck(sensors, Revisited(sensors, s, changed, k, r), group)
    decreases k
  {
    if k > 0 {
      RevisitKeepsStuck(sensors, s, changed, k - 1, r, group);
      var t := Revisited(sensors, s, changed, k - 1, r);
      if k - 1 in group {
        HeldIsNotRevisited(sensors, t, changed, k - 1, group);
      } else {
        ReadLeavesAsleep(sensors, t, k - 1, r, group);
      }
    }
  }

  lemma ReadLeavesAsleep(sensors: seq<Sensor>, s: Net, j: nat, r: Reads, group: set<nat>)
    requires Fits(sensors, s) && j < |sensors| && j !in group && Asleep(s, group)
    ensures Asleep(ReadOrCancel(sensors, s, j, r), group)
  {
  }

  lemma HeldIsNotRevisited(sensors: seq<Sensor>, s: Net, changed: nat, k: nat, group: set<nat>)
    requires Fits(sensors, s) && changed < |sensors| && k in group && Stuck(sensors, s, group) && changed !in group
    ensures !Revisits(sensors, s.pending, changed, k)
  {
    assert Held(sensors, k, group);
    assert sensors[k].dependsOn.On? && NameLike(sensors[changed].name, sensors[k].dependsOn.name) <==>
           DependsOn(sensors, k, changed);
  }

  lemma AnswerKeepsStuck(sensors: seq<Sensor>, s: Net, i: nat, r: Reads, group: set<nat>)
    requires Fits(sensors, s) && i < |sensors| && Stuck(sensors, s, group) && i !in group
    ensures Stuck(sensors, Answered(sensors, s, i, r), group)
  {
    if s.pending[i] {
      var t := s.(pending := s.pending[i := false], polled := s.polled + {i});
      RevisitKeepsStuck(sensors, t, i, |sensors|, r, group);
    }
  }

  lemma {:induction false} RequestKeepsStuck(sensors: seq<Sensor>, s: Net, i: nat, r: Reads, group: set<nat>)
    requires Fits(sensors, s) && i < |sensors| && Stuck(sensors, s, group)
    ensures Stuck(sensors, Requested(sensors, s, i, r), group)
    decreases Idle(s.pending)
  {
    if !s.pending[i] {
      IdleDrops(s.pending, i);
      var t := Asked(s, i);
      assert Stuck(sensors, t, group);
      match sensors[i].dependsOn {
        case On(name) =>
          var j := FirstLike(sensors, name, 0);
          if j == |sensors| {
            AnswerKeepsStuck(sensors, t, i, r, group);
          } else {
            RequestKeepsStuck(sensors, t, j, r, group);
          }
        case Real =>
          var u := Read(sensors, t, i, r);
          assert Stuck(sensors, u, group);
          if i !in r.readable { AnswerKeepsStuck(sensors, u, i, r, group); }
      }
    }
  }

  /** A request of any kind, a scheduled poll, or an idle callback. */
  datatype Event = Request(i: nat, during: Reads) | Poll(i: nat, during: Reads) | Notify(i: nat, during: Reads)

  function Happens(sensors: seq<Sensor>, s: Net, e: Event): (t: Net)
    requires Fits(sensors, s) && e.i < |sensors|
    ensures Fits(sensors, t)
  {
    match e
    case Request(i, r) => Requested(sensors, s, i, r)
    case Poll(i, r) => Polled(sensors, s, i, r)
    case Notify(i, r) => Notified(sensors, s, i, r)
  }

  function RunNet(sensors: seq<Sensor>, s: Net, run: seq<Event>): (t: Net)
    requires Fits(sensors, s) && forall e :: e in run ==> e.i < |sensors|
    ensures Fits(sensors, t)
    decreases |run|
  {
    if run == [] then s else RunNet(sensors, Happens(sensors, s, run[0]), run[1..])
  }

  /** Once stuck, a group of meta-sensors waits for ever, whatever is requested
      and whatever other sensors answer. */
  lemma {:induction false} StuckForEver(sensors: seq<Sensor>, s: Net, run: seq<Event>, group: set<nat>)
    requires Fits(sensors, s) && (forall e :: e in run ==> e.i < |sensors|) && Stuck(sensors, s, group)
    ensures Stuck(sensors, RunNet(sensors, s, run), group)
    decreases |run|
  {
    if run != [] {
      EventKeepsStuck(sensors, s, run[0], group);
      StuckForEver(sensors, Happens(sensors, s, run[0]), run[1..], group);
    }
  }

  lemma EventKeepsStuck(sensors: seq<Sensor>, s: Net, e: Event, group: set<nat>)
    requires Fits(sensors, s) && e.i < |sensors| && Stuck(sensors, s, group)
    ensures Stuck(sensors, Happens(sensors, s, e), group)
  {
    match e
    case Request(i, r) => RequestKeepsStuck(sensors, s, i, r, group);
    case Poll(i, r) =>
      if i in s.polled { RequestKeepsStuck(sensors, s.(polled := s.polled - {i}), i, r, group); }
    case Notify(i, r) =>
      if i in s.notifying { AnswerKeepsStuck(sensors, s.(notifying := s.notifying - {i}), i, r, group); }
  }

  predicate SoleSource(sensors: seq<Sensor>, a: nat, b: nat)
    requires a < |sensors|
  {
    && sensors[a].dependsOn.On?
    && forall j :: 0 <= j < |sensors| ==> (NameLike(sensors[j].name, sensors[a].dependsOn.name) <==> j == b)
  }

  /** Meta-sensors each of which depends on the next one, and the last on the first. */
  predicate IsCycle(sensors: seq<Sensor>, c: seq<nat>) {
    && c != [] && Simple(c)
    && (forall k :: 0 <= k < |c| ==> c[k] < |sensors|)
    && (forall k :: 0 <= k < |c| ==> SoleSource(sensors, c[k], c[if k < |c| - 1 then k + 1 else 0]))
  }

  lemma {:induction false} ChainOfCycle(sensors: seq<Sensor>, pending: seq<bool>, c: seq<nat>, m: nat)
    requires |pending| == |sensors| && IsCycle(sensors, c) && m < |c|
    requires forall k :: 0 <= k < |c| ==> (pending[c[k]] <==> k < m)
    ensures Chain(sensors, pending, c[m]) == c[m..]
    decreases |c| - m
  {
    IdleDrops(pending, c[m]);
    CycleNext(sensors, c, m);
    if m < |c| - 1 {
      var p := pending[c[m] := true];
      assert forall k :: 0 <= k < |c| ==> (p[c[k]] <==> k < m + 1);
      ChainOfCycle(sensors, p, c, m + 1);
    }
    assert c[m..] == [c[m]] + c[m + 1..];
  }

  /** A request is passed on along a cycle. */
  lemma CycleNext(sensors: seq<Sensor>, c: seq<nat>, m: nat)
    requires IsCycle(sensors, c) && m < |c|
    ensures sensors[c[m]].dependsOn.On?
    ensures FirstLike(sensors, sensors[c[m]].dependsOn.name, 0) == c[if m < |c| - 1 then m + 1 else 0] < |sensors|
  {
    var next := if m < |c| - 1 then m + 1 else 0;
    assert SoleSource(sensors, c[m], c[next]);
    assert NameLike(sensors[c[next]].name, sensors[c[m]].dependsOn.name);
  }

  /** A cycle of any length gets stuck by the first request, whatever else waits. */
  lemma CycleSticks(sensors: seq<Sensor>, s: Net, c: seq<nat>, r: Reads)
    requires Fits(sensors, s) && IsCycle(sensors, c)
    requires forall k :: 0 <= k < |c| ==> !s.pending[c[k]] && c[k] !in s.notifying
    ensures Stuck(sensors, Requested(sensors, s, c[0], r), set k | k in c)
  {
    CycleIsMarked(sensors, s, c, r);
    CycleHolds(sensors, c);
    assert Asleep(Marks(s, c), set k | k in c);
  }

  /** The request comes back to where it was made, and everybody on the way waits. */
  lemma CycleIsMarked(sensors: seq<Sensor>, s: Net, c: seq<nat>, r: Reads)
    requires Fits(sensors, s) && IsCycle(sensors, c)
    requires forall k :: 0 <= k < |c| ==> !s.pending[c[k]] && c[k] !in s.notifying
    ensures Requested(sensors, s, c[0], r) == Marks(s, c)
  {
    ChainOfCycle(sensors, s.pending, c, 0);
    RequestFollowsChain(sensors, s, c[0], r);
    assert c[0..] == c;
    CycleNext(sensors, c, |c| - 1);
  }

  lemma CycleHolds(sensors: seq<Sensor>, c: seq<nat>)
    requires IsCycle(sensors, c)
    ensures forall k :: k in c ==> Held(sensors, k, set j | j in c)
  {
    forall k | k in c
      ensures Held(sensors, k, set j | j in c)
    {
      var m :| 0 <= m < |c| && c[m] == k;
      assert SoleSource(sensors, c[m], c[if m < |c| - 1 then m + 1 else 0]);
    }
  }

  /** A meta-sensor that belongs to the group on which it depends, without having the
      very name of it, blocks itself: whatever else happens, it never gets an answer
      once it has been requested. */
  lemma OwnGroupSticks(sensors: seq<Sensor>, s: Net, k: nat, r: Reads)
    requires Fits(sensors, s) && k < |sensors| && Blocks(sensors, k, k) && !s.pending[k] && k !in s.notifying
    ensures Stuck(sensors, Requested(sensors, s, k, r), {k})
  {
    IdleDrops(s.pending, k);
    var t := Asked(s, k);
    assert Held(sensors, k, {k}) && Stuck(sensors, t, {k});
    RequestKeepsStuck(sensors, t, FirstLike(sensors, sensors[k].dependsOn.name, 0), r, {k});
  }

  /** A meta-sensor over one real sensor is dropped - it neither waits nor is read
      nor has a poll scheduled - if and only if that sensor cannot be read. */
  lemma FailedSourceAbandons(sensors: seq<Sensor>, s: Net, a: nat, b: nat, r: Reads)
    requires Fits(sensors, s) && a < |sensors| && b < |sensors| && a != b
    requires SoleSource(sensors, a, b) && sensors[b].dependsOn.Real? && sensors[a].name != sensors[b].name
    requires !s.pending[a] && !s.pending[b] && a !in s.notifying && a !in s.polled
    ensures var t := Requested(sensors, s, a, r);
            (!t.pending[a] && a !in t.notifying && a !in t.polled) <==> b !in r.readable
  {
    var p := s.pending[a := true];
    IdleDrops(s.pending, a);
    IdleDrops(p, b);
    assert FirstLike(sensors, sensors[a].dependsOn.name, 0) == b;
    if b !in r.readable {
      var asked := Asked(Asked(s, a), b);
      var u := asked.(pending := p[b := true][b := false], polled := s.polled + {b}, valid := s.valid - {b});
      assert u.pending == p;
      CancelsDependent(sensors, u, b, |sensors|, r, a);
    }
  }

  lemma {:induction false} CancelsDependent(sensors: seq<Sensor>, s: Net, b: nat, k: nat, r: Reads, a: nat)
    requires Fits(sensors, s) && a < |sensors| && b < |sensors| && k <= |sensors| && a != b
    requires SoleSource(sensors, a, b) && sensors[a].name != sensors[b].name && s.pending[a] && !s.pending[b]
    requires b !in s.valid
    ensures var t := Revisited(sensors, s, b, k, r);
            t.pending[a] == (k <= a) && (a in t.notifying <==> a in s.notifying) && b !in t.valid
    decreases k
  {
    if k > 0 {
      CancelsDependent(sensors, s, b, k - 1, r, a);
      var t := Revisited(sensors, s, b, k - 1, r);
      assert !HavePending(sensors, t.pending, sensors[a].dependsOn.name);
    }
  }

  // ----- what everybody waits for

  /** tsg_objects_add_object never makes two objects of one name. */
  predicate UniqueNames(sensors: seq<Sensor>) {
    forall a, b :: 0 <= a < b < |sensors| ==> sensors[a].name != sensors[b].name
  }

  /** `b` has not answered its last request. */
  predicate Owes(s: Net, b: nat) {
    b < |s.pending| && (s.pending[b] || b in s.cancelled)
  }

  predicate WaitsFor(sensors: seq<Sensor>, s: Net, k: nat, b: nat)
    requires k < |sensors| && b < |sensors|
  {
    DependsOn(sensors, k, b) && Owes(s, b)
  }

  /** Its callback is scheduled, or something on which it depends owes an answer. */
  predicate HasReason(sensors: seq<Sensor>, s: Net, k: nat)
    requires k < |sensors|
  {
    k in s.notifying || exists b :: 0 <= b < |sensors| && WaitsFor(sensors, s, k, b)
  }

  /** It waits, its last request was cancelled, or its next poll is scheduled. */
  predicate Attended(s: Net, k: nat) {
    Owes(s, k) || k in s.polled
  }

  /** Nobody waits without a reason, and nobody is forgotten but by a cancel. */
  predicate Sound(sensors: seq<Sensor>, s: Net) {
    && Fits(sensors, s)
    && (forall k :: 0 <= k < |sensors| && s.pending[k] ==> HasReason(sensors, s, k))
    && (forall k :: 0 <= k < |sensors| ==> Attended(s, k))
  }

  /** What no event takes away but an answer. */
  ghost predicate Carries(s: Net, t: Net) {
    && |s.pending| == |t.pending| && s.notifying <= t.notifying
    && (forall k :: Owes(s, k) ==> Owes(t, k))
    && (forall k :: Attended(s, k) ==> Attended(t, k))
  }

  lemma ReasonCarried(sensors: seq<Sensor>, s: Net, t: Net, k: nat)
    requires k < |sensors| && HasReason(sensors, s, k) && Carries(s, t)
    ensures HasReason(sensors, t, k)
  {
    if k !in s.notifying {
      var b :| 0 <= b < |sensors| && WaitsFor(sensors, s, k, b);
      assert WaitsFor(sensors, t, k, b);
    }
  }

  lemma ReadCarries(sensors: seq<Sensor>, s: Net, k: nat, r: Reads)
    requires Fits(sensors, s) && k < |sensors|
    ensures var t := ReadOrCancel(sensors, s, k, r);
            && Carries(s, t) && (t.pending[k] ==> !s.pending[k] || k in t.notifying)
            && forall j :: 0 <= j < |sensors| && j != k ==> t.pending[j] == s.pending[j]
  {
  }

  /** While the dependents of `x`, which has just answered, are visited one after the
      other, those visited have a reason to wait or do not wait any more. */
  lemma {:induction false} RevisitAccounts(sensors: seq<Sensor>, s: Net, x: nat, k: nat, r: Reads)
    requires Fits(sensors, s) && UniqueNames(sensors) && x < |sensors| && !s.pending[x] && k <= |sensors|
    requires forall j :: 0 <= j < |sensors| && s.pending[j] ==> HasReason(sensors, s, j) || DependsOn(sensors, j, x)
    ensures var t := Revisited(sensors, s, x, k, r);
            && Carries(s, t)
            && forall j :: 0 <= j < |sensors| && t.pending[j] ==>
                             HasReason(sensors, t, j) || (k <= j && DependsOn(sensors, j, x))
    decreases k
  {
    if k > 0 {
      RevisitAccounts(sensors, s, x, k - 1, r);
      var t, t' := Revisited(sensors, s, x, k - 1, r), Revisited(sensors, s, x, k, r);
      if Revisits(sensors, t.pending, x, k - 1) {
        ReadCarries(sensors, t, k - 1, r);
      }
      assert Carries(t, t');
      forall j | 0 <= j < |sensors| && t'.pending[j]
        ensures HasReason(sensors, t', j) || (k <= j && DependsOn(sensors, j, x))
      {
        if HasReason(sensors, t, j) {
          ReasonCarried(sensors, t, t', j);
        } else if j == k - 1 && !Revisits(sensors, t.pending, x, j) {
          BlockedHasReason(sensors, t, x, j);
        }
      }
    }
  }

  lemma BlockedHasReason(sensors: seq<Sensor>, s: Net, x: nat, j: nat)
    requires Fits(sensors, s) && UniqueNames(sensors) && x < |sensors| && j < |sensors|
    requires !s.pending[x] && s.pending[j] && DependsOn(sensors, j, x) && !Revisits(sensors, s.pending, x, j)
    ensures HasReason(sensors, s, j)
  {
    var name := sensors[j].dependsOn.name;
    var b :| 0 <= b < |sensors| && s.pending[b] && NameLike(sensors[b].name, name) && sensors[b].name != name;
    assert WaitsFor(sensors, s, j, b);
  }

  /** An answer of `x` leaves everybody else who waits with a reason. */
  lemma AnswerAccounts(sensors: seq<Sensor>, s: Net, x: nat, r: Reads)
    requires Fits(sensors, s) && UniqueNames(sensors) && x < |sensors|
    requires forall j :: 0 <= j < |sensors| && s.pending[j] && j != x ==> HasReason(sensors, s, j)
    ensures var t := Answered(sensors, s, x, r);
            && (forall j :: 0 <= j < |sensors| && t.pending[j] ==> HasReason(sensors, t, j))
            && (forall j :: Attended(s, j) ==> Attended(t, j))
  {
    if s.pending[x] {
      var u := s.(pending := s.pending[x := false], polled := s.polled + {x});
      forall j | 0 <= j < |sensors| && u.pending[j]
        ensures HasReason(sensors, u, j) || DependsOn(sensors, j, x)
      {
        if j !in s.notifying {
          var b :| 0 <= b < |sensors| && WaitsFor(sensors, s, j, b);
          assert b != x ==> WaitsFor(sensors, u, j, b);
        }
      }
      RevisitAccounts(sensors, u, x, |sensors|, r);
    }
  }

  /** A request, made for whoever depends on `i`. */
  lemma {:induction false} RequestAccounts(sensors: seq<Sensor>, s: Net, i: nat, r: Reads)
    requires Fits(sensors, s) && UniqueNames(sensors) && i < |sensors|
    requires forall j :: 0 <= j < |sensors| && s.pending[j] ==> HasReason(sensors, s, j) || DependsOn(sensors, j, i)
    ensures var t := Requested(sensors, s, i, r);
            && (forall j :: 0 <= j < |sensors| && t.pending[j] ==> HasReason(sensors, t, j))
            && (forall j :: Attended(s, j) ==> Attended(t, j)) && Attended(t, i)
    decreases Idle(s.pending)
  {
    var t := if s.pending[i] then s else Asked(s, i);
    forall j | 0 <= j < |sensors| && t.pending[j] && j != i
      ensures HasReason(sensors, t, j)
    {
      if HasReason(sensors, s, j) {
        ReasonCarried(sensors, s, t, j);
      } else {
        assert WaitsFor(sensors, t, j, i);
      }
    }
    if s.pending[i] {
      assert DependsOn(sensors, i, i) ==> WaitsFor(sensors, s, i, i);
    } else {
      IdleDrops(s.pending, i);
      match sensors[i].dependsOn {
        case On(name) =>
          var j := FirstLike(sensors, name, 0);
          if j == |sensors| {
            AnswerAccounts(sensors, t, i, r);
          } else {
            assert DependsOn(sensors, i, j);
            RequestAccounts(sensors, t, j, r);
          }
        case Real =>
          var u := Read(sensors, t, i, r);
          assert Carries(t, u);
          forall j | 0 <= j < |sensors| && u.pending[j] && j != i
            ensures HasReason(sensors, u, j)
          {
            ReasonCarried(sensors, t, u, j);
          }
          if i !in r.readable { AnswerAccounts(sensors, u, i, r); }
      }
    }
  }

  lemma EventKeepsSound(sensors: seq<Sensor>, s: Net, e: Event)
    requires Sound(sensors, s) && UniqueNames(sensors) && e.i < |sensors|
    ensures Sound(sensors, Happens(sensors, s, e))
  {
    match e
    case Request(i, r) => RequestAccounts(sensors, s, i, r);
    case Poll(i, r) =>
      var u := s.(polled := s.polled - {i});
      forall j | 0 <= j < |sensors| && u.pending[j]
        ensures HasReason(sensors, u, j)
      {
        assert HasReason(sensors, s, j);
        if j !in s.notifying {
          var b :| 0 <= b < |sensors| && WaitsFor(sensors, s, j, b);
          assert WaitsFor(sensors, u, j, b);
        }
      }
      RequestAccounts(sensors, u, i, r);
      assert forall j :: j != i && Attended(s, j) ==> Attended(u, j);
    case Notify(i, r) =>
      var u := s.(notifying := s.notifying - {i});
      forall j | 0 <= j < |sensors| && u.pending[j] && j != i
        ensures HasReason(sensors, u, j)
      {
        assert HasReason(sensors, s, j);
        if j !in s.notifying {
          var b :| 0 <= b < |sensors| && WaitsFor(sensors, s, j, b);
          assert WaitsFor(sensors, u, j, b);
        }
      }
      assert forall j :: Attended(s, j) ==> Attended(u, j);
      if i in s.notifying { AnswerAccounts(sensors, u, i, r); }
  }

  lemma {:induction false} RunKeepsSound(sensors: seq<Sensor>, s: Net, run: seq<Event>)
    requires Sound(sensors, s) && UniqueNames(sensors) && forall e :: e in run ==> e.i < |sensors|
    ensures Sound(sensors, RunNet(sensors, s, run))
    decreases |run|
  {
    if run != [] {
      EventKeepsSound(sensors, s, run[0]);
      RunKeepsSound(sensors, Happens(sensors, s, run[0]), run[1..]);
    }
  }

  /** A registered object joins: it is requested, and nobody else is affected. */
  lemma JoinKeepsSound(sensors: seq<Sensor>, s: Net, candidate: Sensor, judged: bool, r: Reads)
    requires Sound(sensors, s) && UniqueNames(sensors + [candidate])
    ensures Sound(sensors + [candidate], Requested(sensors + [candidate], Joined(s, judged), |sensors|, r))
  {
    var all, t, n := sensors + [candidate], Joined(s, judged), |sensors|;
    forall j | 0 <= j < n && t.pending[j]
      ensures HasReason(all, t, j)
    {
      assert HasReason(sensors, s, j);
      if j !in s.notifying {
        var b :| 0 <= b < n && WaitsFor(sensors, s, j, b);
        assert WaitsFor(all, t, j, b);
      }
    }
    assert forall j :: Attended(s, j) ==> Attended(t, j);
    RequestAccounts(all, t, n, r);
  }

  // ----- when all callbacks have been made

  /** A callback that is scheduled brings the end of the callbacks nearer: somebody
      stops waiting, or one callback less is scheduled for the same objects. */
  lemma CallbacksEnd(sensors: seq<Sensor>, s: Net, i: nat, r: Reads)
    requires Fits(sensors, s) && i < |sensors| && i in s.notifying
    ensures var t := Notified(sensors, s, i, r);
            Idle(s.pending) < Idle(t.pending) || (t.pending == s.pending && t.notifying == s.notifying - {i})
  {
    if s.pending[i] {
      var p := s.pending[i := false];
      IdleDrops(p, i);
      assert p[i := true] == s.pending;
      var t := Notified(sensors, s, i, r);
      IdleGrows(p, t.pending);
    }
  }

  lemma {:induction false} IdleGrows(p: seq<bool>, q: seq<bool>)
    requires |p| == |q| && forall k :: 0 <= k < |p| && q[k] ==> p[k]
    ensures Idle(p) <= Idle(q)
  {
    if p != [] {
      IdleGrows(p[1..], q[1..]);
    }
  }

  /** A cancel, or a dependency on oneself or on a later object, which only a group
      can cause in a list where every meta-sensor has a source in front of it. */
  predicate Trouble(sensors: seq<Sensor>, s: Net, a: nat, b: nat)
    requires Fits(sensors, s) && a < |sensors| && b < |sensors|
  {
    s.pending[a] && DependsOn(sensors, a, b) && (b in s.cancelled || (s.pending[b] && a <= b))
  }

  /** When no callback is scheduled any more and somebody waits, then somebody waits
      for an object whose request was cancelled, or for itself or a later object. */
  lemma {:induction false} WaitingNeedsTrouble(sensors: seq<Sensor>, s: Net, k: nat)
    requires Sound(sensors, s) && s.notifying == {} && k < |sensors| && s.pending[k]
    ensures exists a, b :: 0 <= a < |sensors| && 0 <= b < |sensors| && Trouble(sensors, s, a, b)
    decreases k
  {
    assert HasReason(sensors, s, k);
    var b :| 0 <= b < |sensors| && WaitsFor(sensors, s, k, b);
    if b in s.cancelled || k <= b {
      assert Trouble(sensors, s, k, b);
    } else {
      WaitingNeedsTrouble(sensors, s, b);
    }
  }

  predicate NoGroups(sensors: seq<Sensor>) {
    forall k, a, b :: 0 <= k < |sensors| && 0 <= a < |sensors| && 0 <= b < |sensors| ==>
      DependsOn(sensors, k, a) && DependsOn(sensors, k, b) ==> a == b
  }

  /** Every request is answered, whoever else waits and in whatever order callbacks
      are made, as long as no read fails and no meta-sensor depends on a group: once
      no callback is scheduled any more nobody waits, and everybody has been answered
      and has its next poll scheduled. */
  lemma AllAnswered(sensors: seq<Sensor>, s: Net)
    requires Sound(sensors, s) && Ordered(sensors) && NoGroups(sensors) && s.notifying == {} && s.cancelled == {}
    ensures forall k :: 0 <= k < |sensors| ==> !s.pending[k] && k in s.polled
  {
    NoGroupsNoTrouble(sensors, s);
    forall k | 0 <= k < |sensors|
      ensures !s.pending[k] && k in s.polled
    {
      assert Attended(s, k);
      if s.pending[k] {
        WaitingNeedsTrouble(sensors, s, k);
      }
    }
  }

  lemma NoGroupsNoTrouble(sensors: seq<Sensor>, s: Net)
    requires Fits(sensors, s) && Ordered(sensors) && NoGroups(sensors) && s.cancelled == {}
    ensures forall a, b :: 0 <= a < |sensors| && 0 <= b < |sensors| ==> !Trouble(sensors, s, a, b)
  {
    forall a, b | 0 <= a < |sensors| && 0 <= b < |sensors|
      ensures !Trouble(sensors, s, a, b)
    {
      if DependsOn(sensors, a, b) {
        var j :| 0 <= j < a && DependsOn(sensors, a, j);
      }
    }
  }

  // ----- abandoned

  /** They have neither poll nor callback scheduled, and those that wait have their
      sources among them or are blocked by one of them that waits. */
  predicate Shut(sensors: seq<Sensor>, s: Net, group: set<nat>)
    requires Fits(sensors, s)
  {
    forall k :: k in group ==>
      && k < |sensors| && k !in s.polled && k !in s.notifying
      && (s.pending[k] ==> HeldBy(sensors, s, k, group))
  }

  /** Nobody else passes requests on to them. */
  predicate Unasked(sensors: seq<Sensor>, group: set<nat>) {
    forall j :: 0 <= j < |sensors| && j !in group && sensors[j].dependsOn.On? ==>
      FirstLike(sensors, sensors[j].dependsOn.name, 0) !in group
  }

  /** No poll, no callback and no object outside the group ever makes one of these be
      requested or read. */
  predicate Abandoned(sensors: seq<Sensor>, s: Net, group: set<nat>)
    requires Fits(sensors, s)
  {
    Shut(sensors, s, group) && Unasked(sensors, group)
  }

  predicate HeldBy(sensors: seq<Sensor>, s: Net, a: nat, group: set<nat>)
    requires Fits(sensors, s) && a < |sensors|
  {
    && sensors[a].dependsOn.On?
    && (|| (forall j :: 0 <= j < |sensors| && DependsOn(sensors, a, j) ==> j in group)
        || exists b :: b in group && b < |sensors| && s.pending[b] && Blocks(sensors, b, a))
  }

  /** The members of the group look the same in both. */
  predicate SameOn(s: Net, t: Net, group: set<nat>) {
    && |s.pending| == |t.pending|
    && forall k :: k in group && k < |s.pending| ==>
         && s.pending[k] == t.pending[k] && (k in s.notifying <==> k in t.notifying)
         && (k in s.polled <==> k in t.polled)
  }

  lemma SameIsShut(sensors: seq<Sensor>, s: Net, t: Net, group: set<nat>)
    requires Fits(sensors, s) && Fits(sensors, t) && Shut(sensors, s, group) && SameOn(s, t, group)
    ensures Shut(sensors, t, group)
  {
    forall k | k in group && t.pending[k]
      ensures HeldBy(sensors, t, k, group)
    {
      assert HeldBy(sensors, s, k, group);
    }
  }

  lemma {:induction false} RevisitLeavesShut(sensors: seq<Sensor>, s: Net, x: nat, k: nat, r: Reads, group: set<nat>)
    requires Fits(sensors, s) && x < |sensors| && k <= |sensors| && Shut(sensors, s, group) && x !in group
    ensures SameOn(s, Revisited(sensors, s, x, k, r), group)
    decreases k
  {
    if k > 0 {
      RevisitLeavesShut(sensors, s, x, k - 1, r, group);
      VisitLeavesSame(sensors, s, Revisited(sensors, s, x, k - 1, r), x, k - 1, r, group);
    }
  }

  lemma VisitLeavesSame(sensors: seq<Sensor>, s: Net, t: Net, x: nat, j: nat, r: Reads, group: set<nat>)
    requires Fits(sensors, s) && x < |sensors| && j < |sensors| && Shut(sensors, s, group) && x !in group
    requires Fits(sensors, t) && SameOn(s, t, group)
    ensures SameOn(s, if Revisits(sensors, t.pending, x, j) then ReadOrCancel(sensors, t, j, r) else t, group)
  {
    SameIsShut(sensors, s, t, group);
    if j in group {
      ShutIsNotRevisited(sensors, t, x, j, group);
    } else {
      ReadLeavesSame(sensors, t, j, r, group);
      SameForAll(s, t, ReadOrCancel(sensors, t, j, r), group);
    }
  }

  lemma SameForAll(s: Net, t: Net, u: Net, group: set<nat>)
    requires SameOn(s, t, group) && SameOn(t, u, group)
    ensures SameOn(s, u, group)
  {
  }

  lemma ReadLeavesSame(sensors: seq<Sensor>, s: Net, j: nat, r: Reads, group: set<nat>)
    requires Fits(sensors, s) && j < |sensors| && j !in group
    ensures SameOn(s, ReadOrCancel(sensors, s, j, r), group)
  {
  }

  lemma ShutIsNotRevisited(sensors: seq<Sensor>, s: Net, x: nat, k: nat, group: set<nat>)
    requires Fits(sensors, s) && x < |sensors| && k in group && Shut(sensors, s, group) && x !in group
    ensures !Revisits(sensors, s.pending, x, k)
  {
    if s.pending[k] {
      assert HeldBy(sensors, s, k, group);
      assert sensors[k].dependsOn.On? && NameLike(sensors[x].name, sensors[k].dependsOn.name) <==>
             DependsOn(sensors, k, x);
    }
  }

  lemma AnswerLeavesShut(sensors: seq<Sensor>, s: Net, x: nat, r: Reads, group: set<nat>)
    requires Fits(sensors, s) && x < |sensors| && Shut(sensors, s, group) && x !in group
    ensures SameOn(s, Answered(sensors, s, x, r), group)
  {
    if s.pending[x] {
      var u := s.(pending := s.pending[x := false], polled := s.polled + {x});
      SameIsShut(sensors, s, u, group);
      RevisitLeavesShut(sensors, u, x, |sensors|, r, group);
    }
  }

  lemma {:induction false} RequestLeavesAbandoned(sensors: seq<Sensor>, s: Net, i: nat, r: Reads, group: set<nat>)
    requires Fits(sensors, s) && i < |sensors| && Abandoned(sensors, s, group) && i !in group
    ensures SameOn(s, Requested(sensors, s, i, r), group)
    decreases Idle(s.pending)
  {
    if !s.pending[i] {
      IdleDrops(s.pending, i);
      var t := Asked(s, i);
      SameIsShut(sensors, s, t, group);
      match sensors[i].dependsOn {
        case On(name) =>
          var j := FirstLike(sensors, name, 0);
          if j == |sensors| {
            AnswerLeavesShut(sensors, t, i, r, group);
          } else {
            RequestLeavesAbandoned(sensors, t, j, r, group);
          }
        case Real =>
          var u := Read(sensors, t, i, r);
          SameIsShut(sensors, t, u, group);
          if i !in r.readable { AnswerLeavesShut(sensors, u, i, r, group); }
      }
    }
  }

  /** After registration requests come from polls only. */
  predicate NoFreeRequests(run: seq<Event>, n: nat) {
    forall e :: e in run ==> e.i < n && !e.Request?
  }

  /** Abandoned objects stay as they are for ever, those that wait and those that have
      been dropped. */
  lemma {:induction false} AbandonedForEver(sensors: seq<Sensor>, s: Net, run: seq<Event>, group: set<nat>)
    requires Fits(sensors, s) && NoFreeRequests(run, |sensors|) && Abandoned(sensors, s, group)
    ensures var t := RunNet(sensors, s, run); Abandoned(sensors, t, group) && SameOn(s, t, group)
    decreases |run|
  {
    if run != [] {
      var e := run[0];
      var t := Happens(sensors, s, e);
      if e.Poll? && e.i in s.polled {
        var u := s.(polled := s.polled - {e.i});
        SameIsShut(sensors, s, u, group);
        RequestLeavesAbandoned(sensors, u, e.i, e.during, group);
      } else if e.Notify? && e.i in s.notifying {
        var u := s.(notifying := s.notifying - {e.i});
        SameIsShut(sensors, s, u, group);
        AnswerLeavesShut(sensors, u, e.i, e.during, group);
      }
      SameIsShut(sensors, s, t, group);
      AbandonedForEver(sensors, t, run[1..], group);
    }
  }
}
