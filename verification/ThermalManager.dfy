/** The overall thermal status of modules/thermalmanager.c: a cached aggregate of
    the registered objects and the broadcasts that announce its changes. */
module ThermalManager {
  import opened ThermalObject

  /** FATAL > ALERT > LOW > WARNING > NORMAL; invalid objects do not count. */
  function Severity(s: Status): int {
    match s
    case Normal => 0 case Warning => 1 case Low => 2 case Alert => 3 case Fatal => 4 case Invalid => -1
  }

  function Worse(a: Status, b: Status): Status {
    if Severity(a) < Severity(b) then b else a
  }

  /** The most severe of NORMAL and the given statuses. */
  function Worst(ss: seq<Status>): Status {
    if ss == [] then Normal else Worse(Worst(ss[..|ss| - 1]), ss[|ss| - 1])
  }

  lemma {:induction false} WorstIsMaximum(ss: seq<Status>)
    ensures Worst(ss) == Normal || Worst(ss) in ss
    ensures Worst(ss) != Invalid
    ensures forall s :: s in ss ==> Severity(s) <= Severity(Worst(ss))
  {
    if ss != [] {
      var init := ss[..|ss| - 1];
      WorstIsMaximum(init);
      assert ss == init + [ss[|ss| - 1]];
    }
  }

  /** The overall status does not depend on the order of the list, only on which
      statuses occur in it. */
  lemma WorstIgnoresOrder(a: seq<Status>, b: seq<Status>)
    requires forall s :: s in a <==> s in b
    ensures Worst(a) == Worst(b)
  {
    WorstIsMaximum(a);
    WorstIsMaximum(b);
    assert Severity(Worst(a)) == Severity(Worst(b));
  }

  /** FATAL decides over everything, then ALERT, then LOW, then WARNING. */
  lemma {:induction false} WorstMeans(ss: seq<Status>)
    ensures Worst(ss) == Fatal <==> Fatal in ss
    ensures Worst(ss) == Alert <==> Alert in ss && Fatal !in ss
    ensures Worst(ss) == Low <==> Low in ss && Alert !in ss && Fatal !in ss
    ensures Worst(ss) == Warning <==> Warning in ss && Low !in ss && Alert !in ss && Fatal !in ss
    ensures Worst(ss) == Normal <==> Warning !in ss && Low !in ss && Alert !in ss && Fatal !in ss
  {
    if ss != [] {
      var init, last := ss[..|ss| - 1], ss[|ss| - 1];
      WorstMeans(init);
      assert ss == init + [last];
    }
  }

  lemma WorstAppend(ss: seq<Status>, s: Status)
    ensures Worst(ss + [s]) == Worse(Worst(ss), s)
  {
  }

  lemma NormalChangesNothing(ss: seq<Status>)
    ensures Worst(ss + [Normal]) == Worst(ss)
  {
    WorstAppend(ss, Normal);
    WorstIsMaximum(ss);
  }

  /** What the shutdown policy is told. */
  datatype Level = LowTemp | NormalTemp | Overheated

  function ToLevel(s: Status): Level {
    match s
    case Low => LowTemp
    case Fatal => Overheated
    case _ => NormalTemp
  }

  /** A row of announcements, the first of which differs from `before` and each
      later one from its predecessor. */
  predicate Alternates<T(==)>(before: T, row: seq<T>) {
    row == [] ||
    (Alternates(before, row[..|row| - 1]) && row[|row| - 1] != LastOf(before, row[..|row| - 1]))
  }

  lemma AlternatesAppend<T>(before: T, row: seq<T>, x: T)
    requires Alternates(before, row) && x != LastOf(before, row)
    ensures Alternates(before, row + [x]) && LastOf(before, row + [x]) == x
  {
  }

  lemma {:induction false} AlternatesAt<T>(before: T, row: seq<T>, i: nat)
    requires Alternates(before, row) && i < |row|
    ensures row[i] != if i == 0 then before else row[i - 1]
  {
    if i < |row| - 1 {
      AlternatesAt(before, row[..|row| - 1], i);
    }
  }

  function LastOf<T>(before: T, row: seq<T>): T {
    if row == [] then before else row[|row| - 1]
  }

  class Manager {
    var objects: seq<ThermalObjectRecord>
    var currentStatus: Status
    var prevLevel: Level
    /** Signals sent over D-Bus, messages sent within dsme, polls scheduled. */
    var signals: seq<Status>
    var messages: seq<Level>
    var polls: seq<ThermalObjectRecord>

    /** An object has left, or joined with a history, since the last update. */
    ghost var stale: bool

    function Statuses(): (ss: seq<Status>)
      reads this`objects, objects
      ensures |ss| == |objects| && forall k :: 0 <= k < |objects| ==> ss[k] == objects[k].curr
    {
      var os := objects;
      seq(|os|, i requires 0 <= i < |os| reads os => os[i].curr)
    }

    ghost predicate Valid()
      reads this, objects
    {
      && (forall i, j :: 0 <= i < j < |objects| ==> objects[i] != objects[j])
      && (!stale ==> currentStatus == Worst(Statuses()))
      && Announced()
    }

    /** Consecutive broadcasts always differ and the last one is in force. */
    ghost predicate Announced()
      reads this`signals, this`messages, this`currentStatus, this`prevLevel
    {
      && Alternates(Normal, signals) && LastOf(Normal, signals) == currentStatus
      && Alternates(NormalTemp, messages) && LastOf(NormalTemp, messages) == prevLevel == ToLevel(currentStatus)
    }

    constructor ()
      ensures Valid() && !stale && objects == [] && signals == [] && messages == []
    {
      objects, currentStatus, prevLevel := [], Normal, NormalTemp;
      signals, messages, polls, stale := [], [], [], false;
    }

    /** thermal_manager_register_object up to the first update request */
    method RegisterObject(o: ThermalObjectRecord)
      requires Valid()
      modifies this
      ensures Valid()
      ensures objects == if o in old(objects) then old(objects) else old(objects) + [o]
      ensures stale == (old(stale) || (o !in old(objects) && o.curr != Normal))
      ensures currentStatus == old(currentStatus) && signals == old(signals) && messages == old(messages)
    {
      if o in objects {
        return;
      }
      ghost var ss := Statuses();
      NormalChangesNothing(ss);
      stale := stale || o.curr != Normal;
      objects := objects + [o];
      ghost var after := Statuses();
      assert after == ss + [o.curr];
      if !stale {
        assert after == ss + [Normal];
        assert Worst(after) == Worst(ss);
      }
    }

    /** thermal_manager_unregister_object */
    method UnregisterObject(o: ThermalObjectRecord)
      requires Valid()
      modifies this
      ensures Valid() && o !in objects
      ensures o !in old(objects) ==> objects == old(objects)
      ensures forall k :: 0 <= k < |old(objects)| && old(objects)[k] == o ==>
                            objects == old(objects)[..k] + old(objects)[k + 1..]
      ensures stale == (old(stale) || o in old(objects))
      ensures currentStatus == old(currentStatus) && signals == old(signals) && messages == old(messages)
    {
      var i := 0;
      while i < |objects|
        invariant 0 <= i <= |objects| && o !in objects[..i] && unchanged(this)
      {
        if objects[i] == o {
          stale := true;
          objects := objects[..i] + objects[i + 1..];
          return;
        }
        i := i + 1;
      }
    }

    /** thermal_manager_broadcast_status_dbus and ..._dsme */
    method BroadcastStatus(status: Status)
      requires Announced()
      modifies this`currentStatus, this`signals, this`messages, this`prevLevel
      ensures Announced() && currentStatus == status
      ensures signals == old(signals) + if status == old(currentStatus) then [] else [status]
      ensures messages == old(messages) +
                          if ToLevel(status) == ToLevel(old(currentStatus)) then [] else [ToLevel(status)]
    {
      if currentStatus == status {
        return;
      }
      AlternatesAppend(Normal, signals, status);
      currentStatus := status;
      signals := signals + [status];
      if prevLevel != ToLevel(status) {
        AlternatesAppend(NormalTemp, messages, ToLevel(status));
        prevLevel := ToLevel(status);
        messages := messages + [ToLevel(status)];
      }
    }

    /** The loop of thermal_manager_handle_object_update. */
    method OverallStatus() returns (overall: Status)
      ensures overall == Worst(Statuses())
    {
      var highest, lowest := Normal, Normal;
      ghost var ss := Statuses();
      var i := 0;
      while i < |objects|
        invariant 0 <= i <= |objects|
        invariant highest != Low && highest != Invalid && (lowest == Low || lowest == Normal)
        invariant Worst(ss[..i]) == if lowest == Low && Severity(highest) < Severity(Alert) then Low else highest
      {
        var status := objects[i].curr;
        assert ss[..i + 1] == ss[..i] + [status];
        WorstAppend(ss[..i], status);
        if status != Invalid {
          if Index(highest) < Index(status) {
            highest := status;
          }
          if Index(lowest) > Index(status) {
            lowest := status;
          }
        }
        i := i + 1;
      }
      assert ss[..i] == ss;
      overall := if Index(lowest) < Index(Normal) && Index(highest) < Index(Alert) then lowest else highest;
    }

    /** What the shutdown policy has been told last, in terms of the objects: overheated
        while some object is FATAL, low temperature while some object is LOW and none
        is ALERT or FATAL, and normal otherwise, as at the start. */
    lemma LevelMeans()
      requires Valid() && !stale
      ensures var last := LastOf(NormalTemp, messages);
              && (last == Overheated <==> exists k :: 0 <= k < |objects| && objects[k].curr == Fatal)
              && (last == LowTemp <==>
                    && (exists k :: 0 <= k < |objects| && objects[k].curr == Low)
                    && forall k :: 0 <= k < |objects| ==> objects[k].curr != Alert && objects[k].curr != Fatal)
    {
      WorstMeans(Statuses());
    }

    /** thermal_manager_handle_object_update: with the objects as they are now, the
        cached status is the worst of them, whatever it was before. */
    method HandleObjectUpdate(changed: ThermalObjectRecord)
      requires (forall i, j :: 0 <= i < j < |objects| ==> objects[i] != objects[j]) && Announced()
      modifies this
      ensures changed !in objects ==> unchanged(this)
      ensures changed in objects ==>
                && Valid() && !stale && currentStatus == Worst(Statuses())
                && polls == old(polls) + [changed]
                && signals == old(signals) + if currentStatus == old(currentStatus) then [] else [currentStatus]
      ensures changed in objects ==>
                var last := LastOf(NormalTemp, messages);
                && (last == Overheated <==> exists k :: 0 <= k < |objects| && objects[k].curr == Fatal)
                && (last == LowTemp <==>
                      && (exists k :: 0 <= k < |objects| && objects[k].curr == Low)
                      && forall k :: 0 <= k < |objects| ==> objects[k].curr != Alert && objects[k].curr != Fatal)
      ensures objects == old(objects)
    {
      if changed !in objects {
        return;
      }
      var overall := OverallStatus();
      BroadcastStatus(overall);
      polls := polls + [changed];
      stale := false;
      LevelMeans();
    }

    /** thermal_object_handle_update of a registered or unregistered object: every
        answer re-establishes the cached status, so that LevelMeans holds, and schedules
        the next poll. */
    method ObjectAnswers(o: ThermalObjectRecord, ok: bool, status: Status, temp: int, now: int)
      requires Valid() && o.Valid() && (o.history != [] ==> o.history[|o.history| - 1].at <= now)
      modifies this, o
      ensures Valid() && o.Valid() && objects == old(objects)
      ensures !stale ==> currentStatus == Worst(Statuses())
      ensures old(o.pending) && o in objects ==> !stale && polls == old(polls) + [o]
      ensures !old(stale) ==> !stale
    {
      var notify := o.HandleUpdate(ok, status, temp, now);
      if notify {
        HandleObjectUpdate(o);
      }
      assert !(notify && o in objects) ==> Statuses() == old(Statuses());
    }
  }
}
