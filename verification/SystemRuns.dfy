/** The state module, the D-Bus proxy and the message queue between them. */
module SystemRuns {
  import opened DeviceState
  import opened DeviceRuns
  import opened Blockers

  /** A message in the queue: one that the state module handles, or one that it
      has broadcast. */
  datatype Mail = ToState(event: Event) | FromState(out: Out)

  /** `proxyState` is the state that dbusproxy reports over D-Bus. */
  datatype Sys = Sys(bits: Bits, tracker: Tracked, proxyState: State, queue: seq<Mail>)

  datatype Act =
    | Inhibit(name: string)             // inhibit_shutdown(true) over D-Bus
    | Release(name: string)             // inhibit_shutdown(false), or the name vanished
    | Disconnect                        // the bus connection is closed
    | Post(event: Event)                // another module or a socket client posts a message
    | Fire(event: Event, env: Env)      // a timer of the state module expires
    | Deliver(env: Env)                 // the queue's first message is dispatched

  predicate IsTimer(e: Event) {
    e.OverheatFires? || e.ChargerFires? || e.BatteryFires? || e.ShutdownFires?
  }

  /** Only dbusproxy sends BLOCK and ALLOW from within dsme; what arrives from
      outside carries a socket connection and is ignored by the state module. */
  predicate Enabled(s: Sys, a: Act) {
    match a
    case Post(e) => !IsTimer(e) && (e.BlockShutdown? || e.AllowShutdown? ==> !e.internal)
    case Fire(e, _) => IsTimer(e) && CanHappen(s.bits, e)
    case Deliver(_) => s.queue != []
    case _ => true
  }

  function Mails(events: seq<Event>): seq<Mail> {
    seq(|events|, i requires 0 <= i < |events| => ToState(events[i]))
  }

  function Broadcast(out: seq<Out>): seq<Mail> {
    seq(|out|, i requires 0 <= i < |out| => FromState(out[i]))
  }

  function Track(s: Sys, clients: set<string>): Sys {
    s.(tracker := Tracked(clients, |clients|), queue := s.queue + Mails(Notices(s.tracker, clients)))
  }

  function Handled(s: Sys, e: Event, env: Env): Sys {
    var r := Handle(s.bits, e, env);
    s.(bits := r.bits, queue := s.queue + Broadcast(r.out))
  }

  function Apply(s: Sys, a: Act): Sys
    requires Enabled(s, a)
  {
    match a
    case Inhibit(name) => Track(s, s.tracker.clients + {name})
    case Release(name) => Track(s, s.tracker.clients - {name})
    case Disconnect => Track(s, {})
    case Post(e) => s.(queue := s.queue + [ToState(e)])
    case Fire(e, env) => Handled(s, e, env)
    case Deliver(env) =>
      var t := s.(queue := s.queue[1..]);
      match s.queue[0]
      case ToState(e) => Handled(t, e, env)
      case FromState(StateChange(state)) => t.(proxyState := state)
      case FromState(_) => t
  }

  predicate Reaches(s: Sys, run: seq<Act>, t: Sys)
    decreases |run|
  {
    if run == [] then s == t
    else Enabled(s, run[0]) && Reaches(Apply(s, run[0]), run[1..], t)
  }

  /** After the modules have been loaded, before the queue is first drained. */
  predicate LoadedAs(s: Sys, r: Res) {
    s == Sys(r.bits, Tracked({}, 0), NotSet, Broadcast(r.out))
  }

  // ----- invariant

  /** What `blocked` will be once the queue has been drained. */
  function BlockedAfter(blocked: bool, queue: seq<Mail>): bool {
    if queue == [] then blocked
    else
      var rest := BlockedAfter(blocked, queue[..|queue| - 1]);
      match queue[|queue| - 1]
      case ToState(BlockShutdown(internal)) => internal || rest
      case ToState(AllowShutdown(internal)) => !internal && rest
      case _ => rest
  }

  /** What dbusproxy will report once the queue has been drained. */
  function StateAfter(state: State, queue: seq<Mail>): State {
    if queue == [] then state
    else
      match queue[|queue| - 1]
      case FromState(StateChange(s)) => s
      case _ => StateAfter(state, queue[..|queue| - 1])
  }

  /** No timer expiry is ever queued. */
  predicate NoTimers(queue: seq<Mail>) {
    forall m :: m in queue && m.ToState? ==> !IsTimer(m.event)
  }

  predicate SysInv(s: Sys) {
    && Inv(s.bits)
    && NoTimers(s.queue)
    && s.tracker.count == |s.tracker.clients|
    && (BlockedAfter(s.bits.blocked, s.queue) <==> s.tracker.clients != {})
    && StateAfter(s.proxyState, s.queue) == s.bits.current
  }

  lemma {:induction false} AfterConcat(blocked: bool, state: State, a: seq<Mail>, b: seq<Mail>)
    ensures BlockedAfter(blocked, a + b) == BlockedAfter(BlockedAfter(blocked, a), b)
    ensures StateAfter(state, a + b) == StateAfter(StateAfter(state, a), b)
  {
    if b == [] {
      assert a + b == a;
    } else {
      assert (a + b)[..|a + b| - 1] == a + b[..|b| - 1];
      AfterConcat(blocked, state, a, b[..|b| - 1]);
    }
  }

  /** Taking the first message out of the queue. */
  lemma AfterFirst(blocked: bool, state: State, queue: seq<Mail>)
    requires queue != []
    ensures BlockedAfter(blocked, queue) == BlockedAfter(BlockedAfter(blocked, [queue[0]]), queue[1..])
    ensures StateAfter(state, queue) == StateAfter(StateAfter(state, [queue[0]]), queue[1..])
  {
    assert queue == [queue[0]] + queue[1..];
    AfterConcat(blocked, state, [queue[0]], queue[1..]);
  }

  lemma OneMail(blocked: bool, state: State, m: Mail)
    ensures BlockedAfter(blocked, [m]) ==
            if m.ToState? && m.event.BlockShutdown? then m.event.internal || blocked
            else if m.ToState? && m.event.AllowShutdown? then !m.event.internal && blocked
            else blocked
    ensures StateAfter(state, [m]) == if m.FromState? && m.out.StateChange? then m.out.state else state
  {
  }

  /** What the state module broadcasts says where it has gone, and blocks nothing. */
  lemma {:induction false} BroadcastAfter(blocked: bool, state: State, out: seq<Out>)
    ensures BlockedAfter(blocked, Broadcast(out)) == blocked
    ensures StateAfter(state, Broadcast(out)) == Final(state, out)
    decreases |out|
  {
    if out != [] {
      var q := Broadcast(out);
      assert q[0] == FromState(out[0]) && q[1..] == Broadcast(out[1..]);
      AfterFirst(blocked, state, q);
      OneMail(blocked, state, q[0]);
      BroadcastAfter(blocked, if out[0].StateChange? then out[0].state else state, out[1..]);
    }
  }

  lemma NoticesAfter(blocked: bool, state: State, t: Tracked, clients: set<string>)
    requires t.count == |t.clients| && (blocked <==> t.clients != {})
    requires |clients| <= |t.clients| + 1
    ensures BlockedAfter(blocked, Mails(Notices(t, clients))) <==> clients != {}
    ensures StateAfter(state, Mails(Notices(t, clients))) == state
  {
  }

  /** Only the two internal messages touch the blocked bit. */
  lemma HandleBlocked(b: Bits, e: Event, env: Env)
    ensures Handle(b, e, env).bits.blocked ==
            if e.BlockShutdown? then e.internal || b.blocked
            else if e.AllowShutdown? then !e.internal && b.blocked
            else b.blocked
  {
    match e
    case SetCharger(connected) => ChargerBlocked(StopCharger(b), connected, env);
    case ShutdownReq => RequestBlocked(b, e, env);
    case RebootReq => RequestBlocked(b, e, env);
    case PowerupReq => RequestBlocked(b, e, env);
    case ActdeadReq => RequestBlocked(b, e, env);
    case SetAlarm(pending) => SettledKeepsAlarms(b.Told(b.sense.(alarm := pending)), env);
    case SetThermal(_) => AlarmBlocked(b, env);
    case SetEmergency(ongoing) => CallBlocked(b, ongoing, env);
    case BatteryState(_) => AlarmBlocked(b, env);
    case AllowShutdown(internal) => AllowBlocked(b, internal, env);
    case OverheatFires => AlarmBlocked(b, env);
    case ChargerFires => SettledKeepsAlarms(b.Told(b.sense.(charger := Disconnected)), env);
    case BatteryFires => AlarmBlocked(b, env);
    case _ =>
  }

  lemma RequestBlocked(b: Bits, e: Event, env: Env)
    requires e.ShutdownReq? || e.RebootReq? || e.PowerupReq? || e.ActdeadReq?
    ensures Handle(b, e, env).bits.blocked == b.blocked
  {
    match e
    case ShutdownReq => SettledKeepsAlarms(b.Asks(b.asked.(shutdown := true, actdead := false)), env);
    case RebootReq => SettledKeepsAlarms(b.Asks(b.asked.(reboot := true, actdead := false)), env);
    case PowerupReq => SettledKeepsAlarms(b.Asks(b.asked.(shutdown := false, actdead := false)), env);
    case ActdeadReq => SettledKeepsAlarms(b.Asks(b.asked.(actdead := true)), env);
  }

  lemma AllowBlocked(b: Bits, internal: bool, env: Env)
    ensures Handle(b, AllowShutdown(internal), env).bits.blocked == (!internal && b.blocked)
  {
    SettledKeepsAlarms(b.(blocked := false).Asks(b.asked.(shutdown := false, reboot := false)), env);
  }

  lemma ChargerBlocked(b: Bits, connected: bool, env: Env)
    ensures ReportCharger(b, connected, env).bits.blocked == b.blocked
  {
    SettledKeepsAlarms(b.Told(b.sense.(charger := Disconnected)), env);
    SettledKeepsAlarms(b.Told(b.sense.(charger := if connected then Connected else Disconnected)), env);
  }

  lemma AlarmBlocked(b: Bits, env: Env)
    ensures Overheat(b, env).bits.blocked == BatteryDead(b, env).bits.blocked == b.blocked
  {
    SettledKeepsAlarms(b.(overheated := true), env);
    SettledKeepsAlarms(b.(batteryEmpty := true), env);
  }

  lemma CallBlocked(b: Bits, ongoing: bool, env: Env)
    ensures Handle(b, SetEmergency(ongoing), env).bits.blocked == b.blocked
  {
    SettledKeepsAlarms(b.(emergency := false), env);
    SettledKeepsAlarms(UpdateEmergency(b, ongoing, env).bits, env);
  }

  lemma SmallerSet(names: set<string>, name: string)
    ensures |names - {name}| <= |names| <= |names + {name}| <= |names| + 1
  {
  }

  lemma TrackInv(s: Sys, clients: set<string>)
    requires SysInv(s) && |clients| <= |s.tracker.clients| + 1
    ensures SysInv(Track(s, clients))
  {
    var news := Mails(Notices(s.tracker, clients));
    AfterConcat(s.bits.blocked, s.proxyState, s.queue, news);
    NoticesAfter(BlockedAfter(s.bits.blocked, s.queue), StateAfter(s.proxyState, s.queue), s.tracker, clients);
    NoticesAreNoTimers(s.queue, s.tracker, clients);
  }

  lemma NoticesAreNoTimers(queue: seq<Mail>, t: Tracked, clients: set<string>)
    requires NoTimers(queue)
    ensures NoTimers(queue + Mails(Notices(t, clients)))
  {
    var news := Mails(Notices(t, clients));
    assert forall i :: 0 <= i < |news| ==> news[i].ToState? && !IsTimer(news[i].event);
  }

  /** Handling an event while `s.queue` is what remains of the queue. */
  lemma HandledInv(s: Sys, e: Event, env: Env)
    requires Inv(s.bits) && CanHappen(s.bits, e) && NoTimers(s.queue) && s.tracker.count == |s.tracker.clients|
    requires StateAfter(s.proxyState, s.queue) == s.bits.current
    requires BlockedAfter(BlockedAfter(s.bits.blocked, [ToState(e)]), s.queue) <==> s.tracker.clients != {}
    ensures SysInv(Handled(s, e, env))
  {
    var r := Handle(s.bits, e, env);
    HandleStep(s.bits, e, env);
    HandleBlocked(s.bits, e, env);
    OneMail(s.bits.blocked, s.proxyState, ToState(e));
    AfterConcat(r.bits.blocked, s.proxyState, s.queue, Broadcast(r.out));
    BroadcastAfter(BlockedAfter(r.bits.blocked, s.queue), s.bits.current, r.out);
  }

  lemma StepInv(s: Sys, a: Act)
    requires SysInv(s) && Enabled(s, a)
    ensures SysInv(Apply(s, a))
  {
    match a
    case Inhibit(name) =>
      SmallerSet(s.tracker.clients, name);
      TrackInv(s, s.tracker.clients + {name});
    case Release(name) =>
      SmallerSet(s.tracker.clients, name);
      TrackInv(s, s.tracker.clients - {name});
    case Disconnect => TrackInv(s, {});
    case Post(e) =>
      AfterConcat(s.bits.blocked, s.proxyState, s.queue, [ToState(e)]);
      OneMail(BlockedAfter(s.bits.blocked, s.queue), StateAfter(s.proxyState, s.queue), ToState(e));
    case Fire(e, env) =>
      OneMail(s.bits.blocked, s.proxyState, ToState(e));
      HandledInv(s, e, env);
    case Deliver(env) =>
      var m := s.queue[0];
      var t := s.(queue := s.queue[1..]);
      AfterFirst(s.bits.blocked, s.proxyState, s.queue);
      OneMail(s.bits.blocked, s.proxyState, m);
      assert m in s.queue;
      if m.ToState? {
        HandledInv(t, m.event, env);
      }
  }

  lemma {:induction false} RunInv(s: Sys, run: seq<Act>, t: Sys)
    requires SysInv(s) && Reaches(s, run, t)
    ensures SysInv(t)
    decreases |run|
  {
    if run != [] {
      StepInv(s, run[0]);
      RunInv(Apply(s, run[0]), run[1..], t);
    }
  }

  lemma LoadedInv(b: Bits, r: Res, s: Sys)
    requires Step(b, r) && b.current == NotSet && !r.bits.blocked && LoadedAs(s, r)
    ensures SysInv(s)
  {
    BroadcastAfter(false, NotSet, r.out);
  }

  lemma StartInv(s: Sys, boot: BootState, env: Env)
    requires LoadedAs(s, Startup(boot, env))
    ensures SysInv(s)
  {
    StartupStep(boot, env);
    LoadedInv(InitialBits(boot), Startup(boot, env), s);
  }

  /** Whatever D-Bus clients, other modules, sockets and timers do, and however
      the deliveries are mixed with it: whenever the queue is drained the state
      module is blocked exactly while some D-Bus client inhibits shutdown, and
      dbusproxy reports the state the device is in. */
  lemma DrainedAgreement(boot: BootState, env: Env, s: Sys, run: seq<Act>, t: Sys)
    requires LoadedAs(s, Startup(boot, env)) && Reaches(s, run, t) && t.queue == []
    ensures t.bits.blocked <==> t.tracker.clients != {}
    ensures t.tracker.count == |t.tracker.clients|
    ensures t.proxyState == t.bits.current
  {
    StartInv(s, boot, env);
    RunInv(s, run, t);
  }

  /** At any moment, drained or not, the messages still in the queue lead there. */
  lemma QueuedAgreement(boot: BootState, env: Env, s: Sys, run: seq<Act>, t: Sys)
    requires LoadedAs(s, Startup(boot, env)) && Reaches(s, run, t)
    ensures BlockedAfter(t.bits.blocked, t.queue) <==> t.tracker.clients != {}
    ensures StateAfter(t.proxyState, t.queue) == t.bits.current
  {
    StartInv(s, boot, env);
    RunInv(s, run, t);
  }
}
