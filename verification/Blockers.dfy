/** The shutdown blockers: the D-Bus client tracker of modules/dsme_dbus.c and the
    messages that modules/dbusproxy.c posts when the number of clients changes. */
module Blockers {
  import opened DeviceState

  datatype Name = Null | Name(text: string)

  /** The tracked clients, the cached count and what has been posted. */
  datatype Tracked = Tracked(clients: set<string>, count: nat)

  /** shutdown_blocker_count_changed: only the counts 0 and 1 post a message. */
  function CountMessage(count: nat): seq<Event> {
    if count == 1 then [BlockShutdown(true)]
    else if count == 0 then [AllowShutdown(true)]
    else []
  }

  /** Messages posted when the client set becomes `clients`. */
  function Notices(t: Tracked, clients: set<string>): seq<Event> {
    if |clients| == t.count then [] else CountMessage(|clients|)
  }

  class Tracker {
    var clients: set<string>
    var count: nat
    var posted: seq<Event>

    function Now(): Tracked
      reads this
    {
      Tracked(clients, count)
    }

    /** The cached count is the size of the table. */
    predicate Valid()
      reads this
    {
      count == |clients|
    }

    constructor ()
      ensures Valid() && clients == {} && posted == []
    {
      clients, count, posted := {}, 0, [];
    }

    /** dsme_dbus_tracker_update_client_count with the dbusproxy callback */
    method UpdateClientCount(ghost before: Tracked)
      requires before.count == count
      modifies this`count, this`posted
      ensures Valid() && posted == old(posted) + Notices(before, clients)
    {
      var cnt := |clients|;
      if count != cnt {
        count := cnt;
        match count {
          case 1 => posted := posted + [BlockShutdown(true)];
          case 0 => posted := posted + [AllowShutdown(true)];
          case _ =>
        }
      }
    }

    /** dsme_dbus_tracker_add_client */
    method AddClient(name: Name)
      requires Valid()
      modifies this
      ensures Valid() && clients == old(clients) + if name.Name? then {name.text} else {}
      ensures posted == old(posted) + Notices(old(Now()), clients)
    {
      if name.Null? {
        return;
      }
      if name.text !in clients {
        clients := clients + {name.text};
        UpdateClientCount(old(Now()));
      }
      assert clients == old(clients) + {name.text};
    }

    /** dsme_dbus_tracker_remove_client, also for a dropped name */
    method RemoveClient(name: Name)
      requires Valid()
      modifies this
      ensures Valid() && clients == old(clients) - if name.Name? then {name.text} else {}
      ensures posted == old(posted) + Notices(old(Now()), clients)
    {
      if name.Null? {
        return;
      }
      if name.text in clients {
        clients := clients - {name.text};
        UpdateClientCount(old(Now()));
      }
      assert clients == old(clients) - {name.text};
    }

    /** dsme_dbus_tracker_flush_clients, when the bus connection is lost */
    method FlushClients()
      requires Valid()
      modifies this
      ensures Valid() && clients == {} && posted == old(posted) + Notices(old(Now()), {})
    {
      clients := {};
      UpdateClientCount(old(Now()));
    }
  }
}
