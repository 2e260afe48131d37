/** Update requests between thermal objects: thermal_object_request_update,
    thermal_object_handle_update and the sensor half of modules/thermalmanager.c.
    Meta-sensors take their value from other sensors, possibly in a cycle. */
module ThermalRequests {

  datatype Dependency = Real | On(name: string)

  /** A registered object: its name and what it depends on. */
  datatype Sensor = Sensor(name: string, dependsOn: Dependency)

  /** Who waits for an answer, whose idle callback is scheduled, who has a poll
      scheduled, whose last read gave a valid status, and whose last request has been
      cancelled without an answer. */
  datatype Net = Net(pending: seq<bool>, notifying: set<nat>, polled: set<nat>, valid: set<nat>, cancelled: set<nat>)

  /** What the world does to reads at one moment: the real sensors that can be
      read, and the objects whose temperature lies in one of the levels. */
  datatype Reads = Reads(readable: set<nat>, judged: set<nat>)

  /** thermal_object_has_name_like: "core" matches "core", "core0" and "core:x". */
  predicate NameLike(have: string, name: string) {
    && |name| <= |have| && have[..|name|] == name
    && (|have| == |name| || have[|name|] == ':' || '0' <= have[|name|] <= '9')
  }

  /** What may follow the name in the names that are like it. */
  lemma NameLikeMeans(name: string, rest: string)
    ensures NameLike(name + rest, name) <==>
              || rest == []
              || rest[0] in {':', '0', '1', '2', '3', '4', '5', '6', '7', '8', '9'}
  {
    assert (name + rest)[..|name|] == name;
    assert rest != [] ==> (name + rest)[|name|] == rest[0];
  }

  /** Every name that is like it starts with it. */
  lemma NameLikeStarts(have: string, name: string)
    requires NameLike(have, name)
    ensures exists rest :: have == name + rest
  {
    assert have == name + have[|name|..];
  }

  predicate Fits(sensors: seq<Sensor>, s: Net) {
    |s.pending| == |sensors|
  }

  /** Number of objects that are not waiting. */
  function Idle(pending: seq<bool>): nat {
    if pending == [] then 0 else (if pending[0] then 0 else 1) + Idle(pending[1..])
  }

  lemma {:induction false} IdleDrops(pending: seq<bool>, i: nat)
    requires i < |pending| && !pending[i]
    ensures Idle(pending[i := true]) < Idle(pending)
  {
    if i > 0 {
      IdleDrops(pending[1..], i - 1);
      assert pending[i := true][1..] == pending[1..][i - 1 := true];
    } else {
      assert pending[0 := true][1..] == pending[1..];
    }
  }

  /** First registered object, from `at` on, whose name is like `name`. */
  function FirstLike(sensors: seq<Sensor>, name: string, at: nat): (i: nat)
    requires at <= |sensors|
    ensures at <= i <= |sensors|
    ensures i < |sensors| ==> NameLike(sensors[i].name, name)
    ensures forall k :: at <= k < i ==> !NameLike(sensors[k].name, name)
    decreases |sensors| - at
  {
    if at == |sensors| || NameLike(sensors[at].name, name) then at else FirstLike(sensors, name, at + 1)
  }

  /** thermal_manager_have_pending_sensor_update: exact names do not count. */
  predicate HavePending(sensors: seq<Sensor>, pending: seq<bool>, name: string)
    requires |pending| == |sensors|
  {
    exists k :: 0 <= k < |sensors| && pending[k] && NameLike(sensors[k].name, name) && sensors[k].name != name
  }

  /** thermal_manager_get_sensor_status succeeds when some object of that name or
      group has a valid cached status. */
  predicate HasStatus(sensors: seq<Sensor>, valid: set<nat>, name: string) {
    exists k :: 0 <= k < |sensors| && k in valid && NameLike(sensors[k].name, name)
  }

  /** A meta-sensor can be read when what it depends on has a status. */
  predicate Succeeds(sensors: seq<Sensor>, s: Net, i: nat, r: Reads)
    requires i < |sensors|
  {
    match sensors[i].dependsOn
    case Real => i in r.readable
    case On(name) => HasStatus(sensors, s.valid, name)
  }

  /** A read: its outcome is cached, and a successful one schedules the callback. */
  function Read(sensors: seq<Sensor>, s: Net, i: nat, r: Reads): Net
    requires i < |sensors|
  {
    if Succeeds(sensors, s, i, r)
    then s.(notifying := s.notifying + {i}, valid := if i in r.judged then s.valid + {i} else s.valid - {i})
    else s.(valid := s.valid - {i})
  }

  /** Whether an answer of `changed` makes object `k` read its sensor. */
  predicate Revisits(sensors: seq<Sensor>, pending: seq<bool>, changed: nat, k: nat)
    requires |pending| == |sensors| && changed < |sensors| && k < |sensors|
  {
    && pending[k] && sensors[k].dependsOn.On?
    && NameLike(sensors[changed].name, sensors[k].dependsOn.name)
    && sensors[k].name != sensors[changed].name
    && !HavePending(sensors, pending, sensors[k].dependsOn.name)
  }

  /** A waiting dependent is read, or cancelled when that fails. */
  function ReadOrCancel(sensors: seq<Sensor>, s: Net, i: nat, r: Reads): (t: Net)
    requires Fits(sensors, s) && i < |sensors|
    ensures Fits(sensors, t)
  {
    var t := Read(sensors, s, i, r);
    if Succeeds(sensors, s, i, r) then t
    else t.(pending := t.pending[i := false], cancelled := t.cancelled + {i})
  }

  /** thermal_manager_handle_sensor_update up to object `k`: dependents whose read
      fails are cancelled. */
  function Revisited(sensors: seq<Sensor>, s: Net, changed: nat, k: nat, r: Reads): (t: Net)
    requires Fits(sensors, s) && changed < |sensors| && k <= |sensors|
    ensures Fits(sensors, t) && t.polled == s.polled
    ensures forall j :: 0 <= j < |sensors| && t.pending[j] ==> s.pending[j]
  {
    if k == 0 then s
    else
      var t := Revisited(sensors, s, changed, k - 1, r);
      if !Revisits(sensors, t.pending, changed, k - 1) then t
      else ReadOrCancel(sensors, t, k - 1, r)
  }

  /** thermal_object_handle_update: the answer to a pending request. */
  function Answered(sensors: seq<Sensor>, s: Net, i: nat, r: Reads): (t: Net)
    requires Fits(sensors, s) && i < |sensors|
    ensures Fits(sensors, t)
  {
    if !s.pending[i] then s
    else
      Revisited(sensors, s.(pending := s.pending[i := false], polled := s.polled + {i}), i, |sensors|, r)
  }

  /** `i` starts to wait for an answer. */
  function Asked(s: Net, i: nat): Net
    requires i < |s.pending|
  {
    s.(pending := s.pending[i := true], cancelled := s.cancelled - {i})
  }

  /** thermal_object_request_update. The recursion ends on every dependency graph,
      cycles included: each level makes one more object wait. */
  function Requested(sensors: seq<Sensor>, s: Net, i: nat, r: Reads): (t: Net)
    requires Fits(sensors, s) && i < |sensors|
    ensures Fits(sensors, t)
    decreases Idle(s.pending)
  {
    if s.pending[i] then s
    else
      IdleDrops(s.pending, i);
      var t := Asked(s, i);
      match sensors[i].dependsOn
      case On(name) =>
        var j := FirstLike(sensors, name, 0);
        if j == |sensors| then Answered(sensors, t, i, r) else Requested(sensors, t, j, r)
      case Real =>
        var u := Read(sensors, t, i, r);
        if Succeeds(sensors, t, i, r) then u else Answered(sensors, u, i, r)
  }

  /** The idle callback of the sensor backend. */
  function Notified(sensors: seq<Sensor>, s: Net, i: nat, r: Reads): (t: Net)
    requires Fits(sensors, s) && i < |sensors|
    ensures Fits(sensors, t)
  {
    if i !in s.notifying then s
    else Answered(sensors, s.(notifying := s.notifying - {i}), i, r)
  }

  /** The next poll of an object: thermal_manager_request_object_update when the
      scheduled wakeup arrives. */
  function Polled(sensors: seq<Sensor>, s: Net, i: nat, r: Reads): (t: Net)
    requires Fits(sensors, s) && i < |sensors|
    ensures Fits(sensors, t)
  {
    if i !in s.polled then s else Requested(sensors, s.(polled := s.polled - {i}), i, r)
  }

  /** One more object, with the outcome of its first read. */
  function Joined(s: Net, judged: bool): Net {
    s.(pending := s.pending + [false], valid := if judged then s.valid + {|s.pending|} else s.valid - {|s.pending|})
  }

  predicate DependsOn(sensors: seq<Sensor>, k: nat, j: nat)
    requires k < |sensors| && j < |sensors|
  {
    sensors[k].dependsOn.On? && NameLike(sensors[j].name, sensors[k].dependsOn.name)
  }

  /** Every meta-sensor has a possible source in front of it. */
  predicate Ordered(sensors: seq<Sensor>) {
    forall k :: 0 <= k < |sensors| && sensors[k].dependsOn.On? ==> exists j :: 0 <= j < k && DependsOn(sensors, k, j)
  }

  // ----- what a request leads to

  /** The objects that a request makes wait, in order. */
  function Chain(sensors: seq<Sensor>, pending: seq<bool>, i: nat): (c: seq<nat>)
    requires |pending| == |sensors| && i < |sensors|
    ensures forall k :: k in c ==> k < |sensors| && !pending[k]
    ensures forall k :: 0 <= k < |c| ==> c[k] < |sensors|
    decreases Idle(pending)
  {
    if pending[i] then []
    else
      IdleDrops(pending, i);
      [i] + match sensors[i].dependsOn
            case Real => []
            case On(name) =>
              var j := FirstLike(sensors, name, 0);
              if j == |sensors| then [] else Chain(sensors, pending[i := true], j)
  }

  function Marked(pending: seq<bool>, c: seq<nat>): (r: seq<bool>)
    requires forall k :: k in c ==> k < |pending|
    ensures |r| == |pending| && forall k :: 0 <= k < |r| ==> r[k] == (pending[k] || k in c)
  {
    seq(|pending|, k requires 0 <= k < |pending| => pending[k] || k in c)
  }

  /** All of `c` has been requested. */
  function Marks(s: Net, c: seq<nat>): Net
    requires forall k :: k in c ==> k < |s.pending|
  {
    s.(pending := Marked(s.pending, c), cancelled := s.cancelled - set k | k in c)
  }

  /** The request is passed on to another object. */
  predicate PassedOn(sensors: seq<Sensor>, i: nat)
    requires i < |sensors|
  {
    sensors[i].dependsOn.On? && FirstLike(sensors, sensors[i].dependsOn.name, 0) < |sensors|
  }

  predicate Simple(c: seq<nat>) {
    forall a, b :: 0 <= a < b < |c| ==> c[a] != c[b]
  }

  lemma SimpleCons(i: nat, c: seq<nat>)
    requires Simple(c) && i !in c
    ensures Simple([i] + c)
  {
  }

  /** No object occurs twice in a chain, so it is never longer than the number of
      objects that were idle. */
  lemma {:induction false} ChainIsSimple(sensors: seq<Sensor>, pending: seq<bool>, i: nat)
    requires |pending| == |sensors| && i < |sensors|
    ensures Simple(Chain(sensors, pending, i)) && |Chain(sensors, pending, i)| <= Idle(pending)
    decreases Idle(pending)
  {
    if !pending[i] {
      var p := pending[i := true];
      IdleDrops(pending, i);
      var j := if sensors[i].dependsOn.On? then FirstLike(sensors, sensors[i].dependsOn.name, 0) else |sensors|;
      if j < |sensors| {
        var rest := Chain(sensors, p, j);
        ChainIsSimple(sensors, p, j);
        assert i !in rest by { assert p[i]; }
        SimpleCons(i, rest);
        assert Chain(sensors, pending, i) == [i] + rest;
      }
    }
  }

  /** What a request does at the end of its chain `c`. */
  function AtChainEnd(sensors: seq<Sensor>, s: Net, c: seq<nat>, r: Reads): Net
    requires Fits(sensors, s) && forall k :: k in c ==> k < |sensors|
  {
    if c == [] then s
    else
      var last := c[|c| - 1];
      assert last in c;
      var marked := Marks(s, c);
      if PassedOn(sensors, last) then marked
      else if sensors[last].dependsOn.On? then Answered(sensors, marked, last, r)
      else
        var read := Read(sensors, marked, last, r);
        if last in r.readable then read else Answered(sensors, read, last, r)
  }

  lemma MarksCons(s: Net, i: nat, rest: seq<nat>)
    requires i < |s.pending| && forall k :: k in rest ==> k < |s.pending|
    ensures var t := Asked(s, i);
            && Marks(s, [i] + rest) == Marks(t, rest)
            && (rest == [] ==> Marks(t, rest) == t)
  {
    var t := Asked(s, i);
    assert Marked(s.pending, [i] + rest) == Marked(t.pending, rest);
    assert s.cancelled - (set k | k in [i] + rest) == t.cancelled - set k | k in rest;
    assert rest == [] ==> Marked(t.pending, rest) == t.pending;
  }

  lemma ChainEndCons(sensors: seq<Sensor>, s: Net, i: nat, rest: seq<nat>, r: Reads)
    requires Fits(sensors, s) && i < |sensors| && rest != [] && forall k :: k in rest ==> k < |sensors|
    ensures AtChainEnd(sensors, s, [i] + rest, r)
            == AtChainEnd(sensors, Asked(s, i), rest, r)
  {
    MarksCons(s, i, rest);
    assert ([i] + rest)[|[i] + rest| - 1] == rest[|rest| - 1];
  }

  /** A request makes the objects of its chain wait. At most the last of them
      reads its sensor; only when that fails is an answer handled at once, and
      then only for the last one. */
  lemma {:induction false} RequestFollowsChain(sensors: seq<Sensor>, s: Net, i: nat, r: Reads)
    requires Fits(sensors, s) && i < |sensors|
    ensures Requested(sensors, s, i, r) == AtChainEnd(sensors, s, Chain(sensors, s.pending, i), r)
    decreases Idle(s.pending)
  {
    if !s.pending[i] {
      IdleDrops(s.pending, i);
      var t := Asked(s, i);
      var j := if sensors[i].dependsOn.On? then FirstLike(sensors, sensors[i].dependsOn.name, 0) else |sensors|;
      var rest := if j == |sensors| then [] else Chain(sensors, t.pending, j);
      assert Chain(sensors, s.pending, i) == [i] + rest;
      if rest == [] {
        MarksCons(s, i, rest);
        assert [i] + rest == [i];
      } else {
        RequestFollowsChain(sensors, t, j, r);
        ChainEndCons(sensors, s, i, rest, r);
      }
    }
  }
}
