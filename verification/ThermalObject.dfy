/** The debounced thermal status of modules/thermalobject.c and the level
    classification of modules/thermalsensor_generic.c. */
module ThermalObject {

  datatype Status = Low | Normal | Warning | Alert | Fatal | Invalid

  const TRANSITION_DELAY := 5 * 5 / 2
  const IGNORE_BELOW := -50
  const IGNORE_ABOVE := 200
  const STATUS_COUNT := 6

  // ----- classification of a temperature

  function FromIndex(i: nat): Status
    requires i < STATUS_COUNT
  {
    [Low, Normal, Warning, Alert, Fatal, Invalid][i]
  }

  function Index(s: Status): (i: nat)
    ensures i < STATUS_COUNT && FromIndex(i) == s
  {
    match s
    case Low => 0 case Normal => 1 case Warning => 2 case Alert => 3 case Fatal => 4 case Invalid => 5
  }

  /** thermal_sensor_generic_is_valid demands ascending limits. */
  predicate Ascending(mintemp: seq<int>) {
    |mintemp| == STATUS_COUNT && forall i :: 1 <= i < STATUS_COUNT ==> mintemp[i - 1] <= mintemp[i]
  }

  /** The status with the highest limit the temperature reaches; INVALID below
      them all. */
  predicate HighestReached(temp: int, mintemp: seq<int>, status: Status)
    requires |mintemp| == STATUS_COUNT
  {
    && (forall i :: Index(status) < i < STATUS_COUNT ==> temp < mintemp[i])
    && (temp < mintemp[Index(status)] ==> status == Invalid && forall i :: 0 <= i < STATUS_COUNT ==> temp < mintemp[i])
  }

  /** thermal_sensor_generic_read_sensor, the level loop. */
  method Classify(temp: int, mintemp: seq<int>) returns (status: Status)
    requires |mintemp| == STATUS_COUNT
    ensures HighestReached(temp, mintemp, status)
  {
    status := Invalid;
    var i := 0;
    while i < STATUS_COUNT
      invariant 0 <= i <= STATUS_COUNT
      invariant forall k :: 0 <= k < i && (temp < mintemp[Index(status)] || Index(status) < k) ==> temp < mintemp[k]
      invariant temp < mintemp[Index(status)] || Index(status) >= i ==> status == Invalid
    {
      if temp >= mintemp[i] {
        status := FromIndex(i);
      }
      i := i + 1;
    }
  }

  /** With the ascending limits of a valid sensor, the levels split the scale into
      adjacent bands, and a hotter reading never gets a lower status. */
  lemma LevelsAreBands(temp: int, hotter: int, mintemp: seq<int>, status: Status, statusHotter: Status)
    requires Ascending(mintemp) && temp <= hotter
    requires HighestReached(temp, mintemp, status) && HighestReached(hotter, mintemp, statusHotter)
    ensures status == Low <==> mintemp[0] <= temp < mintemp[1]
    ensures status == Normal <==> mintemp[1] <= temp < mintemp[2]
    ensures status == Warning <==> mintemp[2] <= temp < mintemp[3]
    ensures status == Alert <==> mintemp[3] <= temp < mintemp[4]
    ensures status == Fatal <==> mintemp[4] <= temp < mintemp[5]
    ensures status == Invalid <==> temp < mintemp[0] || mintemp[5] <= temp
    ensures mintemp[0] <= temp ==> Index(status) <= Index(statusHotter)
  {
    AscendingAll(mintemp);
    forall i | 0 <= i < STATUS_COUNT - 1
      ensures status == FromIndex(i) <==> mintemp[i] <= temp < mintemp[i + 1]
    {
      assert status == FromIndex(i) <==> Index(status) == i;
      var k := Index(status);
      assert k > i ==> mintemp[i + 1] <= mintemp[k];
    }
  }

  lemma AscendingAll(mintemp: seq<int>)
    requires Ascending(mintemp)
    ensures forall i, j :: 0 <= i <= j < STATUS_COUNT ==> mintemp[i] <= mintemp[j]
  {
    assert mintemp[0] <= mintemp[1] <= mintemp[2] <= mintemp[3] <= mintemp[4] <= mintemp[5];
  }

  // ----- debouncing

  /** The debounced part of a thermal object. */
  datatype Object = Object(curr: Status, next: Status, started: int) {

    /** thermal_object_status_in_transition */
    predicate InTransition() {
      started > 0
    }
  }

  const CREATED := Object(Normal, Normal, 0)

  /** What an in-range reading of `status` at time `now` does. */
  function Debounced(o: Object, status: Status, now: int): Object {
    if status == o.curr then Object(o.curr, o.curr, 0)
    else if status != o.next then Object(o.curr, status, now)
    else if now <= o.started + TRANSITION_DELAY then o
    else Object(status, status, 0)
  }

  class ThermalObjectRecord {
    var curr: Status
    var next: Status
    var temperature: int
    var started: int
    var pending: bool

    /** The readings that were in range, with the times of their answers. */
    ghost var history: seq<Reading>

    /** The object is what the readings so far make of it. */
    ghost predicate Valid()
      reads this
    {
      Now() == After(history) && InOrder(history)
    }

    constructor ()
      ensures Valid() && history == [] && !pending && temperature == -9999
    {
      curr, next, temperature, started, pending := Normal, Normal, -9999, 0, false;
      history := [];
    }

    function Now(): Object
      reads this
    {
      Object(curr, next, started)
    }

    /** thermal_object_handle_update up to the notifications; `ok`, `status` and
        `temp` are the sensor backend's answer, `notify` tells whether an answer
        was awaited. */
    method HandleUpdate(ok: bool, status: Status, temp: int, now: int) returns (notify: bool)
      requires Valid() && (history != [] ==> history[|history| - 1].at <= now)
      modifies this
      ensures Valid() && notify == old(pending) && !pending
      ensures history == if old(pending) && ok && -50 <= temp <= 200
                         then old(history) + [Reading(now, status)] else old(history)
      ensures Now() == if old(pending) && ok && -50 <= temp <= 200
                       then Debounced(old(Now()), status, now) else old(Now())
      ensures temperature == if old(pending) && ok && -50 <= temp <= 200
                             then temp else old(temperature)
    {
      notify := false;
      if !pending {
        return;
      }
      pending, notify := false, true;
      if !ok {
        return;
      }
      if temp < IGNORE_BELOW || temp > IGNORE_ABOVE {
        return;
      }
      temperature := temp;
      assert (history + [Reading(now, status)])[..|history|] == history;
      history := history + [Reading(now, status)];
      if curr == status {
        next, started := status, 0;
        return;
      }
      if next != status {
        next, started := status, now;
        return;
      }
      var limit := started + TRANSITION_DELAY;
      if now <= limit {
        return;
      }
      curr, next, started := status, status, 0;
    }

    /** The debounce law of the object: a long enough unbroken run of readings of a
        status that goes on up to now has been accepted, and a status that the last
        reading brought in had such a run. */
    lemma Debounces(s: Status)
      requires Valid() && history != []
      ensures var h := history; var last := h[|h| - 1];
              && ((exists m: nat :: Steady(h, m, s) && last.at - h[m].at > 12) ==> curr == s)
              && (curr == s && After(h[..|h| - 1]).curr != s ==>
                    exists m: nat :: Steady(h, m, s) && last.at - h[m].at > 12)
    {
      DebounceLaw(history, s);
    }
  }

  // ----- what the debouncing means for a history of readings

  datatype Reading = Reading(at: int, status: Status)

  function After(h: seq<Reading>): Object {
    if h == [] then CREATED
    else Debounced(After(h[..|h| - 1]), h[|h| - 1].status, h[|h| - 1].at)
  }

  /** Start of the longest run of equal readings at the end of the history. */
  function RunStart(h: seq<Reading>): nat
    requires h != []
    ensures RunStart(h) < |h|
  {
    if |h| >= 2 && h[|h| - 2].status == h[|h| - 1].status then RunStart(h[..|h| - 1]) else |h| - 1
  }

  predicate InOrder(h: seq<Reading>) {
    forall i, j :: 0 <= i < j < |h| ==> h[i].at <= h[j].at
  }

  /** All readings from `m` on report `s`. */
  predicate Steady(h: seq<Reading>, m: nat, s: Status) {
    m < |h| && forall k :: m <= k < |h| ==> h[k].status == s
  }

  lemma {:induction false} RunStartIsLongest(h: seq<Reading>, s: Status)
    requires h != [] && s == h[|h| - 1].status
    ensures Steady(h, RunStart(h), s)
    ensures RunStart(h) > 0 ==> h[RunStart(h) - 1].status != s
    ensures forall m: nat :: Steady(h, m, s) ==> RunStart(h) <= m
  {
    if |h| >= 2 && h[|h| - 2].status == h[|h| - 1].status {
      var init := h[..|h| - 1];
      RunStartIsLongest(init, s);
      forall m: nat | Steady(h, m, s)
        ensures RunStart(h) <= m
      {
        if m < |init| {
          assert Steady(init, m, s);
        }
      }
    }
  }

  /** The object remembers just the last reading and the start of its run. */
  lemma {:induction false} ObjectSummarises(h: seq<Reading>)
    requires h != []
    ensures var o := After(h); var last := h[|h| - 1]; var first := h[RunStart(h)];
            && o.next == last.status
            && o.started == (if o.curr == o.next then 0 else first.at)
            && o.curr == (if last.at - first.at > TRANSITION_DELAY then last.status else After(h[..|h| - 1]).curr)
  {
    var init := h[..|h| - 1];
    if init != [] {
      ObjectSummarises(init);
      RunStartIsLongest(h, h[|h| - 1].status);
    }
  }

  /** The debounce law. A new status is accepted only at the end of an unbroken
      run of readings of it that is longer than the transition delay, and the end
      of every such run finds it accepted. */
  lemma DebounceLaw(h: seq<Reading>, s: Status)
    requires InOrder(h) && h != []
    ensures After(h).curr == s && After(h[..|h| - 1]).curr != s ==>
              exists m: nat :: Steady(h, m, s) && h[|h| - 1].at - h[m].at > 12
    ensures (exists m: nat :: Steady(h, m, s) && h[|h| - 1].at - h[m].at > 12) ==> After(h).curr == s
  {
    ObjectSummarises(h);
    RunStartIsLongest(h, h[|h| - 1].status);
    if m: nat :| Steady(h, m, s) && h[|h| - 1].at - h[m].at > TRANSITION_DELAY {
      assert Steady(h, m, h[|h| - 1].status);
      assert h[RunStart(h)].at <= h[m].at;
    }
  }

  /** With readings at most 5 s apart, the poll limit in transition, an accepted
      status was confirmed by at least three more readings after the first. */
  lemma AcceptedNeedsSamples(h: seq<Reading>, s: Status)
    requires InOrder(h) && h != [] && After(h).curr == s && After(h[..|h| - 1]).curr != s
    requires forall k :: 1 <= k < |h| ==> h[k].at - h[k - 1].at <= 5
    ensures exists m: nat :: m + 3 < |h| && Steady(h, m, s)
  {
    DebounceLaw(h, s);
    var m: nat :| Steady(h, m, s) && h[|h| - 1].at - h[m].at > TRANSITION_DELAY;
    SpanBound(h, m);
  }

  lemma {:induction false} SpanBound(h: seq<Reading>, m: nat)
    requires m < |h| && forall k :: 1 <= k < |h| ==> h[k].at - h[k - 1].at <= 5
    ensures h[|h| - 1].at - h[m].at <= 5 * (|h| - 1 - m)
    decreases |h| - m
  {
    if m < |h| - 1 {
      SpanBound(h, m + 1);
      assert h[m + 1].at - h[(m + 1) - 1].at <= 5;
    }
  }

  /** "In transition" means that the candidate differs from the accepted status,
      except for a run that began while the clock still read zero. */
  lemma TransitionFlag(h: seq<Reading>)
    requires h != [] && forall r :: r in h ==> r.at >= 0
    ensures After(h).InTransition() <==> After(h).curr != After(h).next && h[RunStart(h)].at != 0
  {
  }

  /** A reading of WARNING at clock zero starts a transition that is not seen. */
  lemma HiddenTransition()
    ensures var o := After([Reading(0, Warning)]);
            o.curr == Normal && o.next == Warning && !o.InTransition()
  {
    assert [Reading(0, Warning)][..0] == [];
  }

  /** A status that never lasts longer than the delay is never accepted, however
      often it is reported. */
  lemma {:induction false} GlitchesIgnored(h: seq<Reading>, s: Status)
    requires InOrder(h) && s != Normal
    requires forall n: nat, m: nat :: m < n <= |h| && Steady(h[..n], m, s) ==> h[n - 1].at - h[m].at <= 12
    ensures After(h).curr != s
  {
    if h != [] {
      var init := h[..|h| - 1];
      assert forall n :: 0 <= n <= |init| ==> init[..n] == h[..n];
      GlitchesIgnored(init, s);
      DebounceLaw(h, s);
      assert h[..|h|] == h;
    }
  }
}
