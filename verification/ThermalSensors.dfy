/** The thermal objects as the manager and the generic sensor backend keep them: the
    list of registered objects, their registration, polls, update requests, answers
    and idle callbacks. */
module ThermalSensors {
  import opened ThermalRequests
  import opened ThermalWaiting

  class Requests {
    var sensors: seq<Sensor>
    var net: Net

    /** Every meta-sensor has a source in front of it, nobody waits without a reason,
        and nobody is forgotten but by a cancel. */
    predicate Valid()
      reads this
    {
      Ordered(sensors) && UniqueNames(sensors) && Sound(sensors, net)
    }

    constructor ()
      ensures Valid() && sensors == [] && net == Net([], {}, {}, {}, {})
    {
      sensors, net := [], Net([], {}, {}, {}, {});
    }

    /** One turn of the loop of tsg_objects_register_all: an object that can be read
        now is added at the end of the list and its first update is requested, any
        other is deleted. Objects have different names. */
    method RegisterObject(candidate: Sensor, readable: bool, judged: bool, r: Reads) returns (ack: bool)
      requires Valid() && UniqueNames(sensors + [candidate])
      modifies this
      ensures Valid()
      ensures ack == match candidate.dependsOn
                     case Real => readable
                     case On(name) => HasStatus(old(sensors), old(net).valid, name)
      ensures sensors == if ack then old(sensors) + [candidate] else old(sensors)
      ensures net == if ack then Requested(sensors, Joined(old(net), judged), |old(sensors)|, r) else old(net)
    {
      match candidate.dependsOn {
        case Real => ack := readable;
        case On(name) => ack := GetSensorStatus(name);
      }
      if ack {
        OrderedGrows(sensors, candidate);
        JoinKeepsSound(sensors, net, candidate, judged, r);
        net := Joined(net, judged);
        sensors := sensors + [candidate];
        RequestUpdate(|sensors| - 1, r);
      }
    }

    /** The wakeup that thermal_manager_schedule_object_poll has asked for arrives. */
    method PollObject(i: nat, r: Reads)
      requires Valid() && i < |sensors|
      modifies this`net
      ensures Valid() && net == Polled(sensors, old(net), i, r)
    {
      EventKeepsSound(sensors, net, Poll(i, r));
      if i in net.polled {
        net := net.(polled := net.polled - {i});
        RequestUpdate(i, r);
      }
    }

    /** thermal_sensor_generic_sensor_notify_cb */
    method SensorNotify(i: nat, r: Reads)
      requires Valid() && i < |sensors|
      modifies this`net
      ensures Valid() && net == Notified(sensors, old(net), i, r)
    {
      EventKeepsSound(sensors, net, Notify(i, r));
      if i in net.notifying {
        net := net.(notifying := net.notifying - {i});
        HandleUpdate(i, r);
      }
    }

    /** When no callback is scheduled any more, no request was cancelled and no
        meta-sensor depends on a group, everybody has been answered. */
    lemma Answers()
      requires Valid() && NoGroups(sensors) && net.notifying == {} && net.cancelled == {}
      ensures forall k :: 0 <= k < |sensors| ==> !net.pending[k] && k in net.polled
    {
      AllAnswered(sensors, net);
    }

    /** thermal_manager_get_sensor_status, as far as its success goes. */
    method GetSensorStatus(name: string) returns (ack: bool)
      requires Fits(sensors, net)
      ensures ack <==> HasStatus(sensors, net.valid, name)
    {
      ack := false;
      var k := 0;
      while k < |sensors|
        invariant 0 <= k <= |sensors|
        invariant ack <==> exists j :: 0 <= j < k && j in net.valid && NameLike(sensors[j].name, name)
      {
        if NameLike(sensors[k].name, name) && k in net.valid {
          ack := true;
        }
        k := k + 1;
      }
    }

    method HavePendingSensorUpdate(name: string) returns (pending: bool)
      requires Fits(sensors, net)
      ensures pending == HavePending(sensors, net.pending, name)
    {
      pending := false;
      var k := 0;
      while k < |sensors|
        invariant 0 <= k <= |sensors| && !pending
        invariant forall j :: 0 <= j < k ==>
                    !(net.pending[j] && NameLike(sensors[j].name, name) && sensors[j].name != name)
      {
        if net.pending[k] && NameLike(sensors[k].name, name) && sensors[k].name != name {
          pending := true;
          break;
        }
        k := k + 1;
      }
    }

    /** thermal_sensor_generic_read_sensor_cb: the outcome is cached, the answer
        comes by idle callback. */
    method ReadSensor(i: nat, r: Reads) returns (ack: bool)
      requires Fits(sensors, net) && i < |sensors|
      modifies this`net
      ensures Fits(sensors, net) && ack == Succeeds(sensors, old(net), i, r) && net == Read(sensors, old(net), i, r)
    {
      match sensors[i].dependsOn {
        case Real => ack := i in r.readable;
        case On(name) => ack := GetSensorStatus(name);
      }
      net := net.(valid := if ack && i in r.judged then net.valid + {i} else net.valid - {i});
      if ack {
        net := net.(notifying := net.notifying + {i});
      }
    }

    method HandleSensorUpdate(changed: nat, r: Reads)
      requires Fits(sensors, net) && changed < |sensors|
      modifies this`net
      ensures Fits(sensors, net) && net == Revisited(sensors, old(net), changed, |sensors|, r)
    {
      var k := 0;
      while k < |sensors|
        invariant 0 <= k <= |sensors| && Fits(sensors, net)
        invariant net == Revisited(sensors, old(net), changed, k, r)
      {
        if net.pending[k] && sensors[k].dependsOn.On?
           && NameLike(sensors[changed].name, sensors[k].dependsOn.name) && sensors[k].name != sensors[changed].name {
          var busy := HavePendingSensorUpdate(sensors[k].dependsOn.name);
          if !busy {
            var ack := ReadSensor(k, r);
            if !ack {
              net := net.(pending := net.pending[k := false], cancelled := net.cancelled + {k});
            }
          }
        }
        k := k + 1;
      }
    }

    method HandleUpdate(i: nat, r: Reads)
      requires Fits(sensors, net) && i < |sensors|
      modifies this`net
      ensures Fits(sensors, net) && net == Answered(sensors, old(net), i, r)
    {
      if !net.pending[i] {
        return;
      }
      net := net.(pending := net.pending[i := false], polled := net.polled + {i});
      HandleSensorUpdate(i, r);
    }

    /** thermal_manager_request_sensor_update: the first match only. */
    method RequestSensorUpdate(name: string, r: Reads) returns (ack: bool)
      requires Fits(sensors, net)
      modifies this`net
      ensures Fits(sensors, net) && ack == (FirstLike(sensors, name, 0) < |sensors|)
      ensures net == if ack then Requested(sensors, old(net), FirstLike(sensors, name, 0), r) else old(net)
      decreases Idle(net.pending), 1
    {
      ack := false;
      var j := 0;
      while j < |sensors|
        invariant 0 <= j <= |sensors| && !ack && net == old(net)
        invariant FirstLike(sensors, name, 0) == FirstLike(sensors, name, j)
      {
        if NameLike(sensors[j].name, name) {
          RequestUpdate(j, r);
          ack := true;
          break;
        }
        j := j + 1;
      }
    }

    method RequestUpdate(i: nat, r: Reads)
      requires Fits(sensors, net) && i < |sensors|
      modifies this`net
      ensures Fits(sensors, net) && net == Requested(sensors, old(net), i, r)
      decreases Idle(net.pending), 0
    {
      if net.pending[i] {
        return;
      }
      IdleDrops(net.pending, i);
      net := net.(pending := net.pending[i := true], cancelled := net.cancelled - {i});
      var success;
      match sensors[i].dependsOn {
        case On(name) => success := RequestSensorUpdate(name, r);
        case Real => success := ReadSensor(i, r);
      }
      if !success {
        HandleUpdate(i, r);
      }
    }
  }

  lemma OrderedGrows(sensors: seq<Sensor>, candidate: Sensor)
    requires Ordered(sensors)
    requires candidate.dependsOn.On? ==>
               exists j :: 0 <= j < |sensors| && NameLike(sensors[j].name, candidate.dependsOn.name)
    ensures Ordered(sensors + [candidate])
  {
    var all := sensors + [candidate];
    forall k | 0 <= k < |all| && all[k].dependsOn.On?
      ensures exists j :: 0 <= j < k && DependsOn(all, k, j)
    {
      var j :| 0 <= j < k && NameLike(all[j].name, all[k].dependsOn.name) by {
        if k < |sensors| {
          var i :| 0 <= i < k && DependsOn(sensors, k, i);
          assert all[i] == sensors[i] && all[k] == sensors[k];
        } else {
          var i :| 0 <= i < |sensors| && NameLike(sensors[i].name, candidate.dependsOn.name);
          assert all[i] == sensors[i];
        }
      }
      assert DependsOn(all, k, j);
    }
  }
}
