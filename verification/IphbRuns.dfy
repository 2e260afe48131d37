/** Whole runs of the iphb scheduler: wait requests, heartbeats, timers and
    departing clients in any order and at any time, with the deadline guarantee
    that holds in all of them. */
module IphbRuns {
  import opened TimeVals
  import opened IphbRequest
  import opened IphbScan

  const LATER := 200_000

  datatype Sched = Sched(now: int, lastBeat: int, clients: seq<Client>, wakeTimer: Timer, laterTimer: Timer)

  /** A wait request after its 16-bit halves have been put together. */
  datatype Wait = Wait(mintime: int, maxtime: int, wakeup: bool)

  datatype Event =
    | Pass(us: nat)
    | Heartbeat(failing: set<nat>)
    | WakeTimerFires(failing: set<nat>)
    | LaterTimerFires(failing: set<nat>)
    | Connect(id: nat)
    | ExternalWait(id: nat, req: Wait)
    | InternalWait(id: nat, req: Wait)
    | Disconnect(id: nat)
    | OtherWakeup

  predicate InTime(t: Timer, now: int, jitter: nat) {
    t.At? ==> now <= t.due + jitter
  }

  /** What may happen next. The environment is prompt: heartbeats come at most
      12 s apart and a timer is dispatched within `jitter` of its due time, so
      time cannot pass beyond those points. */
  predicate Enabled(s: Sched, e: Event, jitter: nat) {
    match e
    case Pass(us) =>
      && s.now + us <= s.lastBeat + HEARTBEAT
      && InTime(s.wakeTimer, s.now + us, jitter)
      && InTime(s.laterTimer, s.now + us, jitter)
    case WakeTimerFires(_) => s.wakeTimer.At? && s.wakeTimer.due <= s.now
    case LaterTimerFires(_) => s.laterTimer.At? && s.laterTimer.due <= s.now
    case Connect(id) => !HasId(s.clients, id)
    case ExternalWait(id, _) => exists c :: c in s.clients && c.id == id && c.external
    case InternalWait(id, _) => forall c :: c in s.clients && c.id == id ==> !c.external
    case _ => true
  }

  /** clientlist_wakeup_clients_now */
  function WakeupNow(s: Sched, failing: set<nat>): Sched {
    s.(clients := Scanned(s.clients, s.now, failing),
       wakeTimer := TimerAfter(s.clients, s.now),
       laterTimer := Off)
  }

  /** clientlist_wakeup_clients_later: one pending check is enough. */
  function WakeupLater(s: Sched): Sched {
    if s.laterTimer.At? then s else s.(laterTimer := At(s.now + LATER))
  }

  /** client_handle_wait_req */
  function Request(c: Client, req: Wait, now: int): Client {
    var w := RequestWindow(now, req.mintime, req.maxtime);
    c.(wakeup := req.wakeup, asked := w.asked, from := w.from, until := w.until)
  }

  function RequestAt(cs: seq<Client>, id: nat, req: Wait, now: int): seq<Client> {
    seq(|cs|, i requires 0 <= i < |cs| => if cs[i].id == id then Request(cs[i], req, now) else cs[i])
  }

  function Without(cs: seq<Client>, id: nat): seq<Client> {
    if cs == [] then []
    else if cs[0].id == id then cs[1..]
    else [cs[0]] + Without(cs[1..], id)
  }

  function NewClient(id: nat, external: bool): Client {
    Client(id, external, external, 0, 0, 0)
  }

  function Apply(s: Sched, e: Event): Sched {
    match e
    case Pass(us) => s.(now := s.now + us)
    case Heartbeat(failing) => WakeupNow(s, failing).(lastBeat := s.now)
    case WakeTimerFires(failing) => WakeupNow(s, failing)
    case LaterTimerFires(failing) => WakeupNow(s, failing)
    case Connect(id) => WakeupLater(s.(clients := s.clients + [NewClient(id, true)]))
    case ExternalWait(id, req) => WakeupLater(s.(clients := RequestAt(s.clients, id, req, s.now)))
    case InternalWait(id, req) =>
      var cs := if HasId(s.clients, id) then s.clients else s.clients + [NewClient(id, false)];
      var t := s.(clients := RequestAt(cs, id, req, s.now));
      if req.wakeup then WakeupLater(t) else t
    case Disconnect(id) => WakeupLater(s.(clients := Without(s.clients, id)))
    case OtherWakeup => WakeupLater(s)
  }

  predicate Reaches(s: Sched, run: seq<Event>, t: Sched, jitter: nat)
    decreases |run|
  {
    if run == [] then s == t
    else Enabled(s, run[0], jitter) && Reaches(Apply(s, run[0]), run[1..], t, jitter)
  }

  /** The scheduler starts without clients, at a heartbeat, with a running clock. */
  predicate Initial(s: Sched) {
    s.now > 0 && s.lastBeat == s.now && s.clients == [] && s.wakeTimer == Off && s.laterTimer == Off
  }

  // ----- invariant

  /** One of the three wakeup sources scans the list in time for the client. */
  predicate Covered(s: Sched, c: Client) {
    || (s.laterTimer.At? && s.laterTimer.due <= c.asked + LATER)
    || (s.wakeTimer.At? && s.wakeTimer.due <= c.until)
    || s.lastBeat + HEARTBEAT <= c.until
  }

  predicate ClientInv(s: Sched, c: Client) {
    c.Waiting() ==>
      && c.asked <= s.now && c.from <= c.until
      && s.lastBeat <= Max(c.until, c.asked)
      && (c.wakeup ==> Covered(s, c))
  }

  predicate Inv(s: Sched, jitter: nat) {
    && DistinctIds(s.clients)
    && s.lastBeat <= s.now <= s.lastBeat + HEARTBEAT
    && InTime(s.wakeTimer, s.now, jitter)
    && InTime(s.laterTimer, s.now, jitter)
    && (s.laterTimer.At? ==> s.laterTimer.due <= s.now + LATER)
    && (forall c :: c in s.clients ==> ClientInv(s, c))
  }

  lemma WakeupNowInv(s: Sched, failing: set<nat>, jitter: nat, lastBeat: int)
    requires Inv(s, jitter)
    requires lastBeat == s.lastBeat || lastBeat == s.now
    ensures Inv(WakeupNow(s, failing).(lastBeat := lastBeat), jitter)
  {
    var t := WakeupNow(s, failing).(lastBeat := lastBeat);
    ScanKeepsDistinct(s.clients, s.now, MustWake(s.clients, s.now), failing);
    SleepTimeIsLeast(s.clients, s.now);
    TimerAhead(s.clients, s.now);
    forall c | c in t.clients
      ensures ClientInv(t, c)
    {
      if c.Waiting() {
        LeftWaiting(s.clients, s.now, failing, c);
        assert ClientInv(s, c);
        if c.wakeup && c.until - s.now < HEARTBEAT {
          assert c.NeedsTimer(s.now);
        }
      }
    }
  }

  /** The timer is due within the last millisecond before the deadline it is for. */
  lemma TimerAhead(cs: seq<Client>, now: int)
    ensures TimerAfter(cs, now).At? ==>
              now + SleepTime(cs, now) - 1000 < TimerAfter(cs, now).due <= now + SleepTime(cs, now)
    ensures TimerAfter(cs, now).At? && SleepTime(cs, now) >= 0 ==> now <= TimerAfter(cs, now).due
  {
  }

  /** A request is covered by the pending check that it makes sure exists. */
  lemma RequestInv(t: Sched, c: Client, req: Wait)
    requires req.wakeup ==> t.laterTimer.At? && t.laterTimer.due <= t.now + LATER
    requires t.lastBeat <= t.now
    ensures ClientInv(t, Request(c, req, t.now))
  {
  }

  lemma {:induction false} WithoutIsSubset(cs: seq<Client>, id: nat)
    ensures forall c :: c in Without(cs, id) ==> c in cs
    ensures DistinctIds(cs) ==> DistinctIds(Without(cs, id))
  {
    if cs != [] && cs[0].id != id {
      WithoutIsSubset(cs[1..], id);
      var rest := Without(cs[1..], id);
      if DistinctIds(cs) {
        forall j | 0 <= j < |rest|
          ensures rest[j].id != cs[0].id
        {
          assert rest[j] in cs[1..];
        }
      }
    }
  }

  /** A new client at the end of the list is told apart from all others. */
  lemma AppendedIsDistinct(cs: seq<Client>, c: Client)
    requires DistinctIds(cs) && !HasId(cs, c.id)
    ensures DistinctIds(cs + [c])
  {
    forall k | 0 <= k < |cs|
      ensures cs[k].id != c.id
    {
      assert cs[k] in cs;
    }
  }

  /** What was covered stays covered when a check is added or time passes. */
  lemma StaysCovered(s: Sched, t: Sched, c: Client)
    requires ClientInv(s, c) && s.now <= t.now && t.lastBeat == s.lastBeat && t.wakeTimer == s.wakeTimer
    requires s.laterTimer == Off || t.laterTimer == s.laterTimer
    ensures ClientInv(t, c)
  {
  }

  lemma RequestListInv(s: Sched, cs: seq<Client>, id: nat, req: Wait, t: Sched)
    requires forall c :: c in cs ==> ClientInv(s, c)
    requires s.now == t.now && t.lastBeat == s.lastBeat <= s.now && t.wakeTimer == s.wakeTimer
    requires s.laterTimer == Off || t.laterTimer == s.laterTimer
    requires req.wakeup ==> t.laterTimer.At? && t.laterTimer.due <= t.now + LATER
    requires t.clients == RequestAt(cs, id, req, s.now)
    ensures forall c :: c in t.clients ==> ClientInv(t, c)
  {
    forall i | 0 <= i < |t.clients|
      ensures ClientInv(t, t.clients[i])
    {
      assert cs[i] in cs;
      if cs[i].id == id {
        RequestInv(t, cs[i], req);
      } else {
        StaysCovered(s, t, cs[i]);
      }
    }
  }

  lemma SubsetInv(s: Sched, t: Sched)
    requires forall c :: c in s.clients ==> ClientInv(s, c)
    requires forall c :: c in t.clients && c.Waiting() ==> c in s.clients
    requires s.now <= t.now && t.lastBeat == s.lastBeat && t.wakeTimer == s.wakeTimer
    requires s.laterTimer == Off || t.laterTimer == s.laterTimer
    ensures forall c :: c in t.clients ==> ClientInv(t, c)
  {
  }

  lemma StepInv(s: Sched, e: Event, jitter: nat)
    requires Inv(s, jitter) && Enabled(s, e, jitter)
    ensures Inv(Apply(s, e), jitter)
  {
    var t := Apply(s, e);
    match e
    case Connect(id) =>
      AppendedIsDistinct(s.clients, NewClient(id, true));
      SubsetInv(s, t);
    case Heartbeat(failing) => WakeupNowInv(s, failing, jitter, s.now);
    case WakeTimerFires(failing) => WakeupNowInv(s, failing, jitter, s.lastBeat);
    case LaterTimerFires(failing) => WakeupNowInv(s, failing, jitter, s.lastBeat);
    case ExternalWait(id, req) => RequestListInv(s, s.clients, id, req, t);
    case InternalWait(id, req) =>
      var cs := if HasId(s.clients, id) then s.clients else s.clients + [NewClient(id, false)];
      if !HasId(s.clients, id) { AppendedIsDistinct(s.clients, NewClient(id, false)); }
      RequestListInv(s, cs, id, req, t);
    case Disconnect(id) =>
      WithoutIsSubset(s.clients, id);
      SubsetInv(s, t);
    case _ => SubsetInv(s, t);
  }

  lemma {:induction false} RunInv(s: Sched, run: seq<Event>, t: Sched, jitter: nat)
    requires Inv(s, jitter) && Reaches(s, run, t, jitter)
    ensures Inv(t, jitter)
    decreases |run|
  {
    if run != [] {
      StepInv(s, run[0], jitter);
      RunInv(Apply(s, run[0]), run[1..], t, jitter);
    }
  }

  // ----- the guarantees

  /** When the next scan of the client list happens at the latest. */
  function NextScan(s: Sched): int {
    var beat := s.lastBeat + HEARTBEAT;
    var a := if s.wakeTimer.At? then Least(beat, s.wakeTimer.due) else beat;
    if s.laterTimer.At? then Least(a, s.laterTimer.due) else a
  }

  /** The deadline guarantee. In every run, for every waiting client that wants
      to be woken from suspend, a scan is due no later than its deadline or
      200 ms after it asked, whichever is later. With prompt dispatching it is
      thus never left waiting beyond that point. */
  lemma NeverOverdue(s: Sched, run: seq<Event>, t: Sched, jitter: nat)
    requires Initial(s) && Reaches(s, run, t, jitter)
    ensures forall c :: c in t.clients && c.Waiting() && c.wakeup ==>
                          && NextScan(t) <= Max(c.until, c.asked + LATER)
                          && t.now <= Max(c.until, c.asked + LATER) + jitter
  {
    RunInv(s, run, t, jitter);
    forall c | c in t.clients && c.Waiting() && c.wakeup
      ensures NextScan(t) <= Max(c.until, c.asked + LATER)
      ensures t.now <= Max(c.until, c.asked + LATER) + jitter
    {
      assert ClientInv(t, c) && Covered(t, c);
    }
  }

  /** A client that does not wake the device from suspend waits at most until the
      heartbeat after its deadline, whichever scans happen in between. */
  lemma NobodyIsForgotten(s: Sched, run: seq<Event>, t: Sched, jitter: nat)
    requires Initial(s) && Reaches(s, run, t, jitter)
    ensures forall c :: c in t.clients && c.Waiting() ==> t.now <= Max(c.until, c.asked) + HEARTBEAT
  {
    RunInv(s, run, t, jitter);
    forall c | c in t.clients && c.Waiting()
      ensures t.now <= Max(c.until, c.asked) + HEARTBEAT
    {
      assert ClientInv(t, c);
    }
  }

  /** The other half: no scan of any run wakes a client before its window opens, nor -
      as long as no wake-from-suspend client in its window has less than a heartbeat
      left - one with at least a heartbeat left; and a scan at or past a client's
      deadline does wake it. */
  lemma WokenInWindow(s: Sched, run: seq<Event>, t: Sched, jitter: nat, failing: set<nat>, c: Client)
    requires Initial(s) && Reaches(s, run, t, jitter) && c in t.clients && c.Waiting()
    ensures t.now < c.from ==> c in WakeupNow(t, failing).clients
    ensures c.until - t.now >= 12 * MILLION
            && !(exists d :: d in t.clients && d.wakeup && d.asked != 0 && d.from <= t.now
                             && d.until - t.now < 12 * MILLION)
            ==> c in WakeupNow(t, failing).clients
    ensures c.until - t.now < 12 * MILLION && c.from <= t.now ==> c !in WakeupNow(t, failing).clients
    ensures c.until <= t.now ==> c !in WakeupNow(t, failing).clients
  {
    RunInv(s, run, t, jitter);
    assert ClientInv(t, c);
    var must := MustWake(t.clients, t.now);
    MustWakeMeans(t.clients, t.now);
    ScanListMembers(t.clients, t.now, must, failing);
    if !Wakes(c, t.now, must) {
      assert c in ScanOne(c, t.now, must, failing);
    }
    if c in WakeupNow(t, failing).clients {
      LeftWaiting(t.clients, t.now, failing, c);
    }
  }
}
