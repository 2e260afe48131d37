/** The imperative scheduler of modules/iphb.c: client records updated in place
    with struct timeval arithmetic, a client list and two timers. Every method
    is tied to the microsecond model of IphbScan and IphbRuns. */
module Iphb {
  import opened TimeVals
  import opened IphbRequest
  import opened IphbScan
  import opened IphbRuns

  const HEARTBEAT_INTERVAL := 20 - 8
  const NO_SLEEP := TimeVal(INT_MAX, 0)

  /** struct _iphb_wait_req_t: times are split into 16-bit halves. */
  datatype WaitReq = WaitReq(version: nat, mintime: nat, mintimeHi: nat, maxtime: nat, maxtimeHi: nat,
                             wakeup: bool, pid: int)

  /** `lo | (hi << 16)` as a 32-bit int. */
  function Joined(lo: nat, hi: nat): int {
    var u := (hi % 0x1_0000) * 0x1_0000 + lo % 0x1_0000;
    if u < 0x8000_0000 then u else u - 0x1_0000_0000
  }

  /** Any 32-bit number comes back from the two halves it has been split into. */
  lemma JoinedHalves(v: int)
    requires -0x8000_0000 <= v < 0x8000_0000
    ensures Joined(v % 0x1_0000, v / 0x1_0000 % 0x1_0000) == v
  {
  }

  /** The wait that a request asks for. */
  function Asked(req: WaitReq, external: bool, wakeup: bool): Wait {
    Wait(if req.version >= 1 then Joined(req.mintime, req.mintimeHi) else req.mintime % 0x1_0000,
         if req.version >= 1 then Joined(req.maxtime, req.maxtimeHi) else req.maxtime % 0x1_0000,
         if req.version >= 1 || !external then req.wakeup else wakeup)
  }

  /** Seconds from `nowSec` to the next multiple of the period `p`. */
  function SlotDelay(p: int, nowSec: int): int
    requires p > 0
  {
    p - (p + nowSec) % p
  }

  lemma SlotTime(now: TimeVal, m: int)
    requires now.Normal() && now.sec >= 0 && m != 0
    ensures TimeVal(now.sec + SlotDelay(AdjustPeriod(m), now.sec), 0).Micros()
            == RequestWindow(now.Micros(), m, m).from == RequestWindow(now.Micros(), m, m).until
  {
    SecondsOf(now);
    SlotIsAhead(now.sec, AdjustPeriod(m));
  }

  class ClientRecord {
    const id: nat
    const external: bool
    var wakeup: bool
    var pid: int
    var reqtime: TimeVal
    var mintime: TimeVal
    var maxtime: TimeVal

    constructor (id: nat, external: bool)
      ensures View() == NewClient(id, external) && Normal() && pid == 0
      ensures wakeup == external && !reqtime.IsSet()
    {
      this.id, this.external := id, external;
      wakeup, pid := external, 0;
      reqtime, mintime, maxtime := CLEARED, CLEARED, CLEARED;
    }

    function View(): Client
      reads this
    {
      Client(id, external, wakeup, reqtime.Micros(), mintime.Micros(), maxtime.Micros())
    }

    predicate Normal()
      reads this
    {
      reqtime.Normal() && mintime.Normal() && maxtime.Normal()
    }

    /** The time range part of client_handle_wait_req. */
    method SetWindow(mintime: int, maxtime: int, now: TimeVal)
      requires now.Normal() && now.sec >= 0
      modifies this`reqtime, this`mintime, this`maxtime
      ensures Normal()
      ensures Window(reqtime.Micros(), this.mintime.Micros(), this.maxtime.Micros())
              == RequestWindow(now.Micros(), mintime, maxtime)
    {
      var min, max := mintime, maxtime;
      reqtime, this.mintime, this.maxtime := now, now, now;
      if min == 0 && max == 0 {
        reqtime := CLEARED;
      } else if min == max {
        SlotTime(now, min);
        min := SlotDelay(AdjustPeriod(min), now.sec);
        max := min;
        this.mintime := this.mintime.(usec := 0);
        this.maxtime := this.maxtime.(usec := 0);
      } else {
        min := AdjustMintime(min, max);
      }
      this.mintime := this.mintime.(sec := this.mintime.sec + min);
      this.maxtime := this.maxtime.(sec := this.maxtime.sec + max);
    }

    /** client_handle_wait_req */
    method HandleWaitReq(req: WaitReq, now: TimeVal) returns (woken: bool)
      requires Normal() && now.Normal() && now.sec >= 0
      modifies this
      ensures Normal()
      ensures View() == Request(old(View()), Asked(req, external, old(wakeup)), now.Micros())
      ensures woken <==> Asked(req, external, old(wakeup)).mintime == 0 == Asked(req, external, old(wakeup)).maxtime
                         && old(pid) != 0
      ensures pid == req.pid
      ensures wakeup <==> if req.version >= 1 || !external then req.wakeup else old(wakeup)
      ensures var min := if req.version >= 1 then Joined(req.mintime, req.mintimeHi) else req.mintime % 0x1_0000;
              var max := if req.version >= 1 then Joined(req.maxtime, req.maxtimeHi) else req.maxtime % 0x1_0000;
              Window(reqtime.Micros(), mintime.Micros(), maxtime.Micros()) == RequestWindow(now.Micros(), min, max)
    {
      var min, max := req.mintime % 0x1_0000, req.maxtime % 0x1_0000;
      if req.version >= 1 {
        min, max := Joined(req.mintime, req.mintimeHi), Joined(req.maxtime, req.maxtimeHi);
        wakeup := req.wakeup;
      }
      SetWindow(min, max, now);
      woken := min == 0 && max == 0 && pid != 0;
      pid := req.pid;
      if !external {
        wakeup := req.wakeup;
      }
    }
  }

  class Scheduler {
    var clients: seq<ClientRecord>
    var wakeupTimer: Timer
    var laterTimer: Timer
    var kernelOpen: bool
    var alarmPowerup: int
    var alarmResume: int
    var rtcDelay: int
    /** Wakeup messages sent so far: client and seconds slept. */
    var sent: seq<(nat, int)>

    /** The client list as values. */
    ghost var list: seq<Client>

    ghost predicate Valid()
      reads this`clients, this`list, clients
    {
      && Shows(clients, list)
      && Distinct(clients)
      && DistinctIds(list)
    }

    constructor ()
      ensures Valid() && list == [] && wakeupTimer == Off && laterTimer == Off && sent == []
    {
      clients, list, sent := [], [], [];
      wakeupTimer, laterTimer, kernelOpen := Off, Off, false;
      alarmPowerup, alarmResume, rtcDelay := 0, 0, 0;
    }

    /** clientlist_add_client: at the end of the list. */
    method AddClient(client: ClientRecord)
      requires Valid() && client.Normal() && client !in clients && !HasId(list, client.id)
      modifies this
      ensures Valid() && list == old(list) + [client.View()] && clients == old(clients) + [client]
      ensures unchanged(`wakeupTimer) && unchanged(`laterTimer) && unchanged(`sent)
    {
      AppendedIsDistinct(list, client.View());
      clients := clients + [client];
      list := list + [client.View()];
    }

    /** clientlist_remove_client: the record, not its neighbours of equal value. */
    method RemoveClient(client: ClientRecord)
      requires Valid()
      modifies this
      ensures Valid()
      ensures client !in old(clients) ==> list == old(list)
      ensures forall k :: 0 <= k < |old(clients)| && old(clients)[k] == client ==>
                            list == old(list)[..k] + old(list)[k + 1..]
      ensures unchanged(`wakeupTimer) && unchanged(`laterTimer) && unchanged(`sent)
    {
      var i := 0;
      while i < |clients|
        invariant 0 <= i <= |clients| && client !in clients[..i]
        invariant unchanged(this)
      {
        if clients[i] == client {
          clients := clients[..i] + clients[i + 1..];
          list := list[..i] + list[i + 1..];
          return;
        }
        i := i + 1;
      }
    }

    /** clientlist_wakeup_clients_later */
    method WakeupClientsLater(now: TimeVal)
      requires Valid() && now.Normal()
      modifies this`laterTimer
      ensures Valid()
      ensures laterTimer == if old(laterTimer).At? then old(laterTimer) else At(now.Micros() + LATER)
    {
      if laterTimer == Off {
        laterTimer := At(now.Micros() + 200 * 1000);
      }
    }

    /** The first pass of clientlist_wakeup_clients_now. */
    method MustWakeSomeone(now: TimeVal) returns (must: bool)
      requires Valid() && now.Normal()
      ensures must <==> exists c :: c in list && c.wakeup && c.asked != 0 && c.from <= now.Micros()
                                    && c.until - now.Micros() < 12 * MILLION
      ensures must == MustWake(list, now.Micros())
    {
      MustWakeMeans(list, now.Micros());
      must := false;
      var i := 0;
      while i < |clients|
        invariant 0 <= i <= |clients| && !must
        invariant forall k :: 0 <= k < i ==> !(list[k].wakeup && list[k].Due(now.Micros()))
      {
        var client := clients[i];
        TimesOf(client, list[i], now);
        if client.reqtime.IsSet() && client.wakeup && !now.Before(client.mintime)
           && client.maxtime.Minus(now).sec < HEARTBEAT_INTERVAL {
          must := true;
          assert list[i] in list;
          break;
        }
        i := i + 1;
      }
    }

    /** The body of the second pass for one client: wakes it when due, and tells
        whether to keep it, whether it needs a timer before the next heartbeat
        and whether it is left waiting. */
    method Visit(client: ClientRecord, ghost c: Client, now: TimeVal, must: bool, failing: set<nat>)
      returns (kept: bool, timer: bool, toMax: TimeVal, left: bool)
      requires Shown(client, c) && now.Normal()
      modifies this`sent, client`reqtime
      ensures ScanOne(c, now.Micros(), must, failing) == if kept then [client.View()] else []
      ensures client.Normal()
      ensures sent == old(sent) + SentTo(c, now.Micros(), must)
      ensures timer <==> c.NeedsTimer(now.Micros())
      ensures toMax.Normal() && toMax.Micros() == c.until - now.Micros()
      ensures left <==> LeftOut(c, now.Micros(), must)
    {
      TimesOf(client, c, now);
      kept, timer, left, toMax := true, false, false, client.maxtime.Minus(now);
      if client.reqtime.IsSet() {
        if now.Before(client.mintime) {
          timer := toMax.sec < HEARTBEAT_INTERVAL && client.wakeup;
          left := client.external;
        } else if !must && toMax.sec >= HEARTBEAT_INTERVAL {
          left := client.external;
        } else {
          sent := sent + [(client.id, now.Minus(client.reqtime).sec)];
          client.reqtime := CLEARED;
          kept := !(client.external && client.id in failing);
        }
      }
    }

    /** One turn of the second pass: visits a client, keeps it or not, and adds
        it to the tally of the clients visited before it. */
    method VisitNext(todo: seq<ClientRecord>, kept: seq<ClientRecord>, ghost l: seq<Client>, j: nat, now: TimeVal,
                     must: bool, failing: set<nat>, tally: Tally, ghost out: Outcome)
      returns (keptNow: seq<ClientRecord>, next: Tally, ghost after: Outcome)
      requires j < |todo| && Sweeping(todo, kept, l, j, out) && now.Normal()
      requires Swept(l[..j], now.Micros(), must, failing, tally, out)
      modifies this`sent, todo`reqtime
      ensures Sweeping(todo, keptNow, l, j + 1, after)
      ensures Swept(l[..j + 1], now.Micros(), must, failing, next, after)
      ensures out.woken <= after.woken && sent == old(sent) + after.woken[|out.woken|..]
    {
      var keep, timer, toMax, left := Visit(todo[j], l[j], now, must, failing);
      next := Tally(if timer && toMax.Before(tally.sleepTime) then toMax else tally.sleepTime,
                    if left then tally.externalsLeft + 1 else tally.externalsLeft);
      after := Outcome(out.list + ScanOne(l[j], now.Micros(), must, failing),
                       out.woken + SentTo(l[j], now.Micros(), must));
      SweptStep(l, j, now.Micros(), must, failing, tally, out, timer, toMax, left);
      keptNow := if keep then kept + [todo[j]] else kept;
    }

    /** The second pass: wakes clients, drops the unreachable ones and finds the
        earliest deadline that needs a timer. */
    method WakeThem(now: TimeVal, must: bool, failing: set<nat>) returns (tally: Tally)
      requires Valid() && now.Normal()
      modifies this`clients, this`list, this`sent, clients`reqtime
      ensures Valid()
      ensures list == ScanList(old(list), now.Micros(), must, failing)
      ensures sent == old(sent) + WokenList(old(list), now.Micros(), must)
      ensures tally.sleepTime.Normal() && TimerFor(tally.sleepTime, now.Micros()) == TimerAfter(old(list), now.Micros())
      ensures tally.externalsLeft == LeftCount(old(list), now.Micros(), must)
    {
      ghost var l, out := list, Outcome([], []);
      var todo, kept: seq<ClientRecord> := clients, [];
      tally := Tally(NO_SLEEP, 0);
      var j := 0;
      while j < |todo|
        invariant 0 <= j <= |todo| && Sweeping(todo, kept, l, j, out)
        invariant Swept(l[..j], now.Micros(), must, failing, tally, out)
        invariant sent == old(sent) + out.woken
      {
        kept, tally, out := VisitNext(todo, kept, l, j, now, must, failing, tally, out);
        j := j + 1;
      }
      assert l[..j] == l;
      SweptAll(l, now.Micros(), must, failing, tally, out);
      clients := kept;
      list := out.list;
    }

    /** clientlist_get_alarm_time at system time `sys`: zero if and only if no alarm
        of timed is coming, otherwise the seconds to the first that is. */
    method GetAlarmTime(sys: int) returns (res: int)
      ensures res == 0 <==> !Coming(alarmPowerup, sys) && !Coming(alarmResume, sys)
      ensures res != 0 ==> res > 0 && (sys + res == alarmPowerup || sys + res == alarmResume) && Coming(sys + res, sys)
      ensures res != 0 && Coming(alarmPowerup, sys) ==> sys + res <= alarmPowerup
      ensures res != 0 && Coming(alarmResume, sys) ==> sys + res <= alarmResume
      ensures res == AlarmTime(sys, alarmPowerup, alarmResume)
    {
      res := INT_MAX;
      if alarmPowerup > sys && alarmPowerup < res {
        res := alarmPowerup;
      }
      if alarmResume > sys && alarmResume < res {
        res := alarmResume;
      }
      if res > sys && res < INT_MAX {
        res := res - sys;
      } else {
        res := 0;
      }
    }

    /** The loop of clientlist_rethink_rtc_wakeup. */
    method NextWakeup(now: TimeVal) returns (wakeup: TimeVal)
      requires Valid() && now.Normal()
      ensures wakeup.Normal() && wakeup.Micros() == NextDeadline(list, now.Micros())
    {
      wakeup := TimeVal(INT_MAX, 0);
      var i := 0;
      while i < |clients|
        invariant 0 <= i <= |clients|
        invariant wakeup.Normal() && wakeup.Micros() == NextDeadline(list[..i], now.Micros())
      {
        var client := clients[i];
        assert Shown(client, list[i]);
        assert list[..i + 1][..i] == list[..i];
        BeforeIsLess(now, client.maxtime);
        BeforeIsLess(client.maxtime, wakeup);
        SecondsOf(client.reqtime);
        if client.wakeup && client.reqtime.IsSet() && now.Before(client.maxtime) && client.maxtime.Before(wakeup) {
          wakeup := client.maxtime;
        }
        i := i + 1;
      }
      assert list[..i] == list;
    }

    /** clientlist_rethink_rtc_wakeup */
    method RethinkRtcWakeup(now: TimeVal, sys: int)
      requires Valid() && now.Normal()
      modifies this`rtcDelay
      ensures rtcDelay == RtcDelay(list, now.Micros(), AlarmTime(sys, alarmPowerup, alarmResume))
    {
      var wakeup := NextWakeup(now);
      var sleeptime := INT_MAX;
      SecondsOf(now);
      SecondsOf(wakeup);
      BeforeIsLess(now, wakeup);
      BeforeIsLess(wakeup, NO_SLEEP);
      if now.Before(wakeup) && wakeup.Before(NO_SLEEP) {
        sleeptime := wakeup.sec - now.sec;
      }
      var alarmtime := GetAlarmTime(sys);
      if alarmtime > 0 && sleeptime > alarmtime {
        sleeptime := alarmtime;
      }
      if sleeptime < 0 || sleeptime > RTC_MAXIMUM {
        sleeptime := RTC_MAXIMUM;
      }
      if sleeptime < 0 || sleeptime >= INT_MAX {
        sleeptime := 0;
      }
      rtcDelay := sleeptime;
    }

    /** clientlist_start_wakeup_timeout */
    method StartWakeupTimeout(sleepTime: TimeVal, now: TimeVal)
      requires sleepTime.Normal() && sleepTime.sec < INT_MAX
      modifies this`wakeupTimer
      ensures wakeupTimer == if old(wakeupTimer).At? then old(wakeupTimer) else TimerFor(sleepTime, now.Micros())
    {
      if wakeupTimer == Off {
        var ms := sleepTime.sec * 1000 + sleepTime.usec / 1000;
        assert ms == sleepTime.Micros() / 1000;
        wakeupTimer := At(now.Micros() + ms * 1000);
      }
    }

    /** Pending timers are cancelled, and one is armed when there is a sleep time. */
    method Rearm(sleepTime: TimeVal, now: TimeVal)
      requires sleepTime.Normal()
      modifies this`wakeupTimer, this`laterTimer
      ensures laterTimer == Off && wakeupTimer == TimerFor(sleepTime, now.Micros())
    {
      laterTimer, wakeupTimer := Off, Off;
      if sleepTime.sec < INT_MAX {
        StartWakeupTimeout(sleepTime, now);
      }
    }

    /** Both passes of clientlist_wakeup_clients_now: pending timers are cancelled,
        clients woken, and a timer armed for what cannot wait for the heartbeat. */
    method ScanAndArm(now: TimeVal, failing: set<nat>) returns (externalsLeft: nat)
      requires Valid() && now.Normal()
      modifies this`clients, this`list, this`sent, this`wakeupTimer, this`laterTimer, clients`reqtime
      ensures Valid()
      ensures list == Scanned(old(list), now.Micros(), failing)
      ensures sent == old(sent) + Woken(old(list), now.Micros())
      ensures wakeupTimer == TimerAfter(old(list), now.Micros()) && laterTimer == Off
      ensures externalsLeft == LeftCount(old(list), now.Micros(), MustWake(old(list), now.Micros()))
    {
      ghost var l := list;
      var must := MustWakeSomeone(now);
      var tally := WakeThem(now, must, failing);
      assert Valid() && list == Scanned(l, now.Micros(), failing);
      Rearm(tally.sleepTime, now);
      externalsLeft := tally.externalsLeft;
    }

    /** clientlist_wakeup_clients_now: refines the scan of the model, with the
        timer it leaves behind and the rtc alarm it programs. */
    method WakeupClientsNow(now: TimeVal, sys: int, failing: set<nat>)
      requires Valid() && now.Normal()
      modifies this, clients`reqtime
      ensures Valid()
      ensures list == Scanned(old(list), now.Micros(), failing)
      ensures sent == old(sent) + Woken(old(list), now.Micros())
      ensures wakeupTimer == TimerAfter(old(list), now.Micros()) && laterTimer == Off
      ensures rtcDelay == RtcDelay(list, now.Micros(), AlarmTime(sys, alarmPowerup, alarmResume))
      ensures kernelOpen <==> exists c :: c in list && c.external && c.asked != 0
      ensures unchanged(`alarmPowerup) && unchanged(`alarmResume)
    {
      LeftCountMeans(list, now.Micros(), MustWake(list, now.Micros()), failing);
      var externalsLeft := ScanAndArm(now, failing);
      kernelOpen := externalsLeft > 0;
      RethinkRtcWakeup(now, sys);
    }

    /** The state of the model that the fields stand for. */
    ghost function Model(now: int, lastBeat: int): Sched
      reads this
    {
      Sched(now, lastBeat, list, wakeupTimer, laterTimer)
    }

    /** The scan as a step of the model: timers that were pending do not matter. */
    method ScanStep(now: TimeVal, sys: int, failing: set<nat>, ghost s: Sched)
      requires Valid() && now.Normal() && s.now == now.Micros() && s.clients == list
      modifies this, clients`reqtime
      ensures Valid() && Model(s.now, s.lastBeat) == WakeupNow(s, failing)
      ensures sent == old(sent) + Woken(old(list), now.Micros())
      ensures rtcDelay == RtcDelay(list, now.Micros(), AlarmTime(sys, alarmPowerup, alarmResume))
      ensures kernelOpen <==> exists c :: c in list && c.external && c.asked != 0
    {
      WakeupClientsNow(now, sys, failing);
    }

    /** A heartbeat, and likewise a dispatched timer, is the step of the model
        that NeverOverdue speaks about. */
    method HandleHeartbeat(now: TimeVal, sys: int, failing: set<nat>, ghost lastBeat: int)
      requires Valid() && now.Normal()
      modifies this, clients`reqtime
      ensures Valid()
      ensures Model(now.Micros(), now.Micros()) == Apply(old(Model(now.Micros(), lastBeat)), Heartbeat(failing))
      ensures sent == old(sent) + Woken(old(list), now.Micros())
      ensures rtcDelay == RtcDelay(list, now.Micros(), AlarmTime(sys, alarmPowerup, alarmResume))
      ensures kernelOpen <==> exists c :: c in list && c.external && c.asked != 0
    {
      ScanStep(now, sys, failing, Model(now.Micros(), now.Micros()));
    }

    /** clientlist_handle_wakeup_timeout: a cancelled timer does nothing. */
    method HandleWakeupTimeout(now: TimeVal, sys: int, failing: set<nat>, ghost lastBeat: int)
      requires Valid() && now.Normal()
      modifies this, clients`reqtime
      ensures Valid()
      ensures old(wakeupTimer) == Off ==> unchanged(this)
      ensures old(wakeupTimer) != Off ==>
                Model(now.Micros(), lastBeat) == Apply(old(Model(now.Micros(), lastBeat)), WakeTimerFires(failing))
      ensures old(wakeupTimer) != Off ==>
                && sent == old(sent) + Woken(old(list), now.Micros())
                && rtcDelay == RtcDelay(list, now.Micros(), AlarmTime(sys, alarmPowerup, alarmResume))
                && (kernelOpen <==> exists c :: c in list && c.external && c.asked != 0)
    {
      if wakeupTimer == Off {
        return;
      }
      ghost var before := Model(now.Micros(), lastBeat);
      wakeupTimer := Off;
      ScanStep(now, sys, failing, before);
    }

    /** clientlist_wakeup_clients_cb */
    method HandleLaterTimeout(now: TimeVal, sys: int, failing: set<nat>, ghost lastBeat: int)
      requires Valid() && now.Normal()
      modifies this, clients`reqtime
      ensures Valid()
      ensures old(laterTimer) == Off ==> unchanged(this)
      ensures old(laterTimer) != Off ==>
                Model(now.Micros(), lastBeat) == Apply(old(Model(now.Micros(), lastBeat)), LaterTimerFires(failing))
      ensures old(laterTimer) != Off ==>
                && sent == old(sent) + Woken(old(list), now.Micros())
                && rtcDelay == RtcDelay(list, now.Micros(), AlarmTime(sys, alarmPowerup, alarmResume))
                && (kernelOpen <==> exists c :: c in list && c.external && c.asked != 0)
    {
      if laterTimer == Off {
        return;
      }
      ghost var before := Model(now.Micros(), lastBeat);
      laterTimer := Off;
      ScanStep(now, sys, failing, before);
    }

    /** A wait request of a known client: the WAIT handler for an internal one,
        the epoll callback for an external one. */
    method HandleWait(i: nat, req: WaitReq, now: TimeVal, ghost lastBeat: int)
      requires Valid() && now.Normal() && now.sec >= 0 && i < |clients|
      modifies this, clients
      ensures Valid()
      ensures var c := old(list[i]); var wait := Asked(req, c.external, c.wakeup);
              Model(now.Micros(), lastBeat) ==
              Apply(old(Model(now.Micros(), lastBeat)),
                    if c.external then ExternalWait(c.id, wait) else InternalWait(c.id, wait))
    {
      var client := clients[i];
      assert Shown(client, list[i]) && list[i] in list;
      RequestAtOne(list, i, Asked(req, client.external, client.wakeup), now.Micros());
      var woken := client.HandleWaitReq(req, now);
      list := list[i := client.View()];
      if client.external || client.wakeup {
        WakeupClientsLater(now);
      }
    }

    /** The WAIT handler for an internal client seen for the first time. */
    method HandleFirstWait(id: nat, req: WaitReq, now: TimeVal, ghost lastBeat: int)
      requires Valid() && now.Normal() && now.sec >= 0 && !HasId(list, id)
      modifies this, clients
      ensures Valid()
      ensures Model(now.Micros(), lastBeat) ==
              Apply(old(Model(now.Micros(), lastBeat)), InternalWait(id, Asked(req, false, false)))
    {
      var client := new ClientRecord(id, false);
      ghost var before := list;
      AddClient(client);
      assert list[..|before|] == before && list[|before|] == NewClient(id, false);
      HandleWait(|clients| - 1, req, now, lastBeat);
    }

    /** A new connection is accepted: listenfd_handle_connect and the check that
        the epoll callback schedules. */
    method HandleConnect(id: nat, now: TimeVal, ghost lastBeat: int)
      requires Valid() && now.Normal() && !HasId(list, id)
      modifies this
      ensures Valid()
      ensures Model(now.Micros(), lastBeat) == Apply(old(Model(now.Micros(), lastBeat)), Connect(id))
    {
      var client := new ClientRecord(id, true);
      AddClient(client);
      WakeupClientsLater(now);
    }

    /** A client disappears or breaks the protocol: clientlist_delete_client and the
        same check. */
    method HandleDisconnect(i: nat, now: TimeVal, ghost lastBeat: int)
      requires Valid() && now.Normal() && i < |clients|
      modifies this
      ensures Valid()
      ensures Model(now.Micros(), lastBeat) == Apply(old(Model(now.Micros(), lastBeat)), Disconnect(old(list[i].id)))
    {
      WithoutAt(list, i);
      RemoveClient(clients[i]);
      WakeupClientsLater(now);
    }
  }

  lemma RequestAtOne(cs: seq<Client>, i: nat, wait: Wait, now: int)
    requires i < |cs| && DistinctIds(cs)
    ensures RequestAt(cs, cs[i].id, wait, now) == cs[i := Request(cs[i], wait, now)]
  {
  }

  lemma {:induction false} WithoutAt(cs: seq<Client>, i: nat)
    requires i < |cs| && DistinctIds(cs)
    ensures Without(cs, cs[i].id) == cs[..i] + cs[i + 1..]
  {
    if i > 0 {
      WithoutAt(cs[1..], i - 1);
    }
  }

  ghost predicate Distinct(cs: seq<ClientRecord>) {
    forall i, j :: 0 <= i < j < |cs| ==> cs[i] != cs[j]
  }

  /** The local variables of the second pass. */
  datatype Tally = Tally(sleepTime: TimeVal, externalsLeft: nat)

  /** Its effects: the clients kept so far and the messages sent. */
  datatype Outcome = Outcome(list: seq<Client>, woken: seq<(nat, int)>)

  /** The records kept so far show the list kept so far, those still to visit
      are untouched, and no record occurs twice. */
  ghost predicate Sweeping(todo: seq<ClientRecord>, kept: seq<ClientRecord>, l: seq<Client>, j: nat, out: Outcome)
    reads todo, kept
  {
    && j <= |todo| == |l|
    && Shows(kept, out.list)
    && (forall k :: j <= k < |todo| ==> Shown(todo[k], l[k]))
    && (forall a, k :: 0 <= a < |kept| && j <= k < |todo| ==> kept[a] != todo[k])
    && Distinct(kept) && Distinct(todo)
  }

  /** What the second pass has computed from the clients visited so far. */
  predicate Swept(visited: seq<Client>, now: int, must: bool, failing: set<nat>, tally: Tally, out: Outcome) {
    && out.list == ScanList(visited, now, must, failing)
    && out.woken == WokenList(visited, now, must)
    && SleepsUntil(tally.sleepTime, visited, now)
    && tally.externalsLeft == LeftCount(visited, now, must)
  }

  lemma SweptStep(l: seq<Client>, j: nat, now: int, must: bool, failing: set<nat>, tally: Tally, out: Outcome,
                  timer: bool, toMax: TimeVal, left: bool)
    requires j < |l| && Swept(l[..j], now, must, failing, tally, out)
    requires toMax.Normal() && toMax.Micros() == l[j].until - now && (timer <==> l[j].NeedsTimer(now))
    requires left <==> LeftOut(l[j], now, must)
    ensures Swept(l[..j + 1], now, must, failing,
                  Tally(if timer && toMax.Before(tally.sleepTime) then toMax else tally.sleepTime,
                        if left then tally.externalsLeft + 1 else tally.externalsLeft),
                  Outcome(out.list + ScanOne(l[j], now, must, failing), out.woken + SentTo(l[j], now, must)))
  {
    assert l[..j + 1][..j] == l[..j];
    SleepStep(tally.sleepTime, toMax, timer, l, j, now);
  }

  lemma SweptAll(l: seq<Client>, now: int, must: bool, failing: set<nat>, tally: Tally, out: Outcome)
    requires Swept(l, now, must, failing, tally, out) && DistinctIds(l)
    ensures DistinctIds(out.list)
    ensures TimerFor(tally.sleepTime, now) == TimerAfter(l, now)
  {
    ScanKeepsDistinct(l, now, must, failing);
    TimerOf(tally.sleepTime, l, now);
  }

  /** A record shows a value. */
  ghost predicate Shown(client: ClientRecord, c: Client)
    reads client
  {
    client.View() == c && client.Normal()
  }

  ghost predicate Shows(clients: seq<ClientRecord>, list: seq<Client>)
    reads clients
  {
    |clients| == |list| && forall k :: 0 <= k < |list| ==> Shown(clients[k], list[k])
  }

  function SentTo(c: Client, now: int, must: bool): seq<(nat, int)> {
    if Wakes(c, now, must) then [(c.id, (now - c.asked) / MILLION)] else []
  }

  /** A waiting external client that the scan does not wake. */
  predicate LeftOut(c: Client, now: int, must: bool) {
    c.external && c.Waiting() && !Wakes(c, now, must)
  }

  function LeftCount(cs: seq<Client>, now: int, must: bool): nat {
    if cs == [] then 0
    else LeftCount(cs[..|cs| - 1], now, must) + if LeftOut(cs[|cs| - 1], now, must) then 1 else 0
  }

  /** Somebody external is left waiting exactly when the scanned list shows one. */
  lemma {:induction false} LeftCountMeans(cs: seq<Client>, now: int, must: bool, failing: set<nat>)
    ensures LeftCount(cs, now, must) > 0 <==>
            exists c :: c in ScanList(cs, now, must, failing) && c.external && c.asked != 0
  {
    if cs != [] {
      var init, last := cs[..|cs| - 1], cs[|cs| - 1];
      LeftCountMeans(init, now, must, failing);
      var out, one := ScanList(init, now, must, failing), ScanOne(last, now, must, failing);
      if LeftOut(last, now, must) {
        assert last in one;
      }
      if c :| c in out && c.external && c.asked != 0 {
        assert c in ScanList(cs, now, must, failing);
      }
    }
  }

  predicate SleepsUntil(sleepTime: TimeVal, list: seq<Client>, now: int) {
    && sleepTime.Normal()
    && if SleepTime(list, now) >= HEARTBEAT then sleepTime == NO_SLEEP
       else sleepTime.Micros() == SleepTime(list, now)
  }

  /** What the timeval comparisons of the scan mean in microseconds. */
  lemma TimesOf(client: ClientRecord, c: Client, now: TimeVal)
    requires Shown(client, c) && now.Normal()
    ensures client.reqtime.IsSet() <==> c.Waiting()
    ensures now.Before(client.mintime) <==> now.Micros() < c.from
    ensures client.maxtime.Minus(now).Normal() && client.maxtime.Minus(now).Micros() == c.until - now.Micros()
    ensures client.maxtime.Minus(now).sec >= HEARTBEAT_INTERVAL <==> c.until - now.Micros() >= HEARTBEAT
    ensures now.Minus(client.reqtime).sec == (now.Micros() - c.asked) / MILLION
  {
  }

  /** The timer for a sleep time, cut to milliseconds; none for NO_SLEEP. */
  function TimerFor(sleepTime: TimeVal, now: int): Timer {
    if sleepTime.sec < INT_MAX then At(now + sleepTime.Micros() / 1000 * 1000) else Off
  }

  lemma TimerOf(sleepTime: TimeVal, list: seq<Client>, now: int)
    requires SleepsUntil(sleepTime, list, now)
    ensures TimerFor(sleepTime, now) == TimerAfter(list, now)
  {
  }

  /** Taking one more client into account keeps the sleep time right. */
  lemma SleepStep(sleepTime: TimeVal, toMax: TimeVal, timer: bool, list: seq<Client>, j: nat, now: int)
    requires j < |list| && SleepsUntil(sleepTime, list[..j], now) && toMax.Normal()
    requires toMax.Micros() == list[j].until - now && (timer <==> list[j].NeedsTimer(now))
    ensures SleepsUntil(if timer && toMax.Before(sleepTime) then toMax else sleepTime, list[..j + 1], now)
  {
    assert list[..j + 1][..j] == list[..j];
    SleepTimeIsLeast(list[..j], now);
    BeforeIsLess(toMax, sleepTime);
  }
}
