/** Whole runs of the device state machine, from module_init through any
    sequence of messages and timer expiries. */
module DeviceRuns {
  import opened DeviceState

  datatype Turn = Turn(event: Event, env: Env)

  /** The bits after a run and everything broadcast during it. */
  function Run(b: Bits, turns: seq<Turn>): Res
    decreases |turns|
  {
    if turns == [] then Res(b, [])
    else
      var r := Handle(b, turns[0].event, turns[0].env);
      Then(r, Run(r.bits, turns[1..]))
  }

  predicate Possible(b: Bits, turns: seq<Turn>)
    decreases |turns|
  {
    turns == [] ||
    (CanHappen(b, turns[0].event) && Possible(Handle(b, turns[0].event, turns[0].env).bits, turns[1..]))
  }

  /** A run of the module since it was loaded. */
  function FromStart(boot: BootState, env: Env, turns: seq<Turn>): Res {
    var r := Startup(boot, env);
    Then(r, Run(r.bits, turns))
  }

  predicate PossibleFromStart(boot: BootState, env: Env, turns: seq<Turn>) {
    Possible(Startup(boot, env).bits, turns)
  }

  // ----- the shape of what is broadcast

  /** Once the first state has been chosen, the only way is down. */
  predicate Edge(a: State, b: State) {
    a != b && (Off(b) || (a == NotSet && (b == User || b == ActDead || b == Test)))
  }

  /** The broadcasts `out`, made from state `from` on, follow the edges, and every
      SHUTDOWN message names the runlevel of the state it is sent in. */
  predicate Legal(from: State, out: seq<Out>)
    decreases |out|
  {
    out == [] ||
    match out[0]
    case StateChange(s) => Edge(from, s) && Legal(s, out[1..])
    case ShutdownNow(r) => Off(from) && r == ToRunlevel(from) && Legal(from, out[1..])
    case _ => Legal(from, out[1..])
  }

  /** The state announced last. */
  function Final(from: State, out: seq<Out>): State
    decreases |out|
  {
    if out == [] then from
    else Final(if out[0].StateChange? then out[0].state else from, out[1..])
  }

  lemma {:induction false} LegalConcat(from: State, a: seq<Out>, b: seq<Out>)
    ensures Legal(from, a + b) <==> Legal(from, a) && Legal(Final(from, a), b)
    ensures Final(from, a + b) == Final(Final(from, a), b)
    decreases |a|
  {
    if a == [] {
      assert a + b == b;
    } else {
      assert (a + b)[1..] == a[1..] + b;
      LegalConcat(if a[0].StateChange? then a[0].state else from, a[1..], b);
    }
  }

  // ----- invariant

  predicate Inv(b: Bits) {
    && (b.shutdownTimer ==> Off(b.current) && !b.emergency)
    && (!b.emergency && (b.overheated || b.batteryEmpty) ==> b.current == Shutdown)
  }

  /** What a step may do: legal broadcasts that end in the new state, sticky
      alarms, and nothing but waiting while a call is going on. */
  predicate Step(b: Bits, r: Res) {
    && Legal(b.current, r.out) && Final(b.current, r.out) == r.bits.current
    && (b.overheated ==> r.bits.overheated) && (b.batteryEmpty ==> r.bits.batteryEmpty)
    && Inv(r.bits)
  }

  predicate Silent(out: seq<Out>) {
    forall o :: o in out ==> !o.StateChange? && !o.ShutdownNow?
  }

  /** The part of the invariant that change_state_if_necessary restores. */
  predicate TimerOk(b: Bits) {
    b.shutdownTimer ==> Off(b.current) && !b.emergency
  }

  /** Events leave these bits alone unless they are about them. */
  predicate SameAlarms(b: Bits, c: Bits) {
    b.emergency == c.emergency && b.overheated == c.overheated && b.batteryEmpty == c.batteryEmpty
    && b.blocked == c.blocked
  }

  lemma EnterShape(b: Bits, s: State)
    requires Edge(b.current, s)
    ensures Legal(b.current, Enter(b, s).out) && Final(b.current, Enter(b, s).out) == s
  {
    var out := Enter(b, s).out;
    var last := [StateChange(s)];
    assert last[1..] == [] && last[0].state == s;
    assert Final(b.current, last) == Final(s, []) == s;
    if Off(s) {
      assert out[1..] == last;
    } else {
      assert out == last;
    }
  }

  lemma GoDownShape(b: Bits, s: State, env: Env)
    requires Off(s) && b.current != s && !b.emergency
    ensures var r := GoDown(b, s, env);
            && Legal(b.current, r.out) && Final(b.current, r.out) == s == r.bits.current
            && (r.bits.shutdownTimer || r.bits.extras.quit)
            && SameAlarms(b, r.bits)
  {
    EnterShape(b, s);
  }

  /** change_state_if_necessary restores the invariant, keeps the alarms, arms the
      timer when it goes down, and does nothing during a call or while blocked. */
  lemma SettleShape(b: Bits, env: Env)
    requires TimerOk(b)
    ensures var r := Settle(b, env);
            && Step(b, r) && SameAlarms(b, r.bits)
            && (b.emergency ==> r == Res(b, []))
            && (b.blocked && !b.overheated && !b.batteryEmpty ==> r == Res(b, []))
            && (Off(r.bits.current) && r.bits.current != b.current ==> r.bits.shutdownTimer || r.bits.extras.quit)
  {
    var next := Wanted(b, env);
    if next != b.current {
      if Off(next) {
        GoDownShape(b, next, env);
      } else if b.current == NotSet {
        EnterShape(b, next);
      } else if b.current == ActDead && b.sense.level >= MINIMUM_BATTERY_TO_USER {
        GoDownShape(b.With(b.extras.(userSwitchDone := false)), Reboot, env);
      } else if b.current == User {
        GoDownShape(b.With(b.extras.(actdeadSwitchDone := false)), if env.useReboot then Reboot else Shutdown, env);
      }
    }
  }

  lemma ThenStep(b: Bits, r: Res, s: Res)
    requires Step(b, r) && Step(r.bits, s)
    ensures Step(b, Then(r, s))
  {
    LegalConcat(b.current, r.out, s.out);
  }

  /** An event that only sets inputs, requests or an alarm and then settles. */
  lemma SettleStep(b: Bits, c: Bits, env: Env)
    requires Inv(b) && TimerOk(c) && c.current == b.current
    requires (b.overheated ==> c.overheated) && (b.batteryEmpty ==> c.batteryEmpty)
    ensures Step(b, Settle(c, env))
  {
    SettleShape(c, env);
  }

  /** ... and one that clears a timer afterwards. */
  lemma ClearStep(b: Bits, r: Res, extras: Extras)
    requires Step(b, r)
    ensures Step(b, r.(bits := r.bits.With(extras)))
  {
  }

  lemma ChargerStep(b: Bits, connected: bool, env: Env)
    requires Inv(b)
    ensures Step(b, Handle(b, SetCharger(connected), env))
  {
    var c := StopCharger(b);
    assert Inv(c);
    UnpluggedStep(c, env);
    SettleStep(c, c.Told(c.sense.(charger := if connected then Connected else Disconnected)), env);
    assert Step(c, ReportCharger(c, connected, env));
  }

  lemma UnpluggedStep(b: Bits, env: Env)
    requires Inv(b)
    ensures Step(b, Unplugged(b, env))
  {
    var r := Settle(b.Told(b.sense.(charger := Disconnected)), env);
    SettleStep(b, b.Told(b.sense.(charger := Disconnected)), env);
    ClearStep(b, r, r.bits.extras.(chargerTimer := NotPending));
  }

  lemma OverheatStep(b: Bits, env: Env)
    requires Inv(b)
    ensures Step(b, Overheat(b, env))
  {
    var r := Settle(b.(overheated := true), env);
    SettleStep(b, b.(overheated := true), env);
    ClearStep(b, r, r.bits.extras.(overheatTimer := false));
  }

  lemma BatteryDeadStep(b: Bits, env: Env)
    requires Inv(b)
    ensures Step(b, BatteryDead(b, env))
  {
    var r := Settle(b.(batteryEmpty := true), env);
    SettleStep(b, b.(batteryEmpty := true), env);
    ClearStep(b, r, r.bits.extras.(batteryTimer := false));
  }

  lemma BatteryStep(b: Bits, empty: bool, env: Env)
    requires Inv(b)
    ensures Step(b, Handle(b, BatteryState(empty), env))
  {
    if empty {
      var r := if b.extras.batteryTimer then Res(b, [])
               else if env.timerOk then Res(b.With(b.extras.(batteryTimer := true)), [])
               else BatteryDead(b, env);
      BatteryDeadStep(b, env);
      assert [BatteryEmptyInd][1..] == [];
      ThenStep(b, Res(b, [BatteryEmptyInd]), r);
    }
  }

  lemma EmergencyStep(b: Bits, ongoing: bool, env: Env)
    requires Inv(b)
    ensures Step(b, Handle(b, SetEmergency(ongoing), env))
  {
    var r := UpdateEmergency(b, ongoing, env);
    SettleStep(b, b.(emergency := false), env);
    assert Step(b, r);
    SettleStep(r.bits, r.bits, env);
    ThenStep(b, r, Settle(r.bits, env));
  }

  lemma DeniedStep(b: Bits, s: State)
    requires Inv(b)
    ensures Step(b, Res(b, [Denied(s)]))
  {
  }

  lemma ShutdownReqStep(b: Bits, env: Env)
    requires Inv(b)
    ensures Step(b, Handle(b, ShutdownReq, env))
  {
    DeniedStep(b, Shutdown);
    SettleStep(b, b.Asks(b.asked.(shutdown := true, actdead := false)), env);
  }

  lemma RebootReqStep(b: Bits, env: Env)
    requires Inv(b)
    ensures Step(b, Handle(b, RebootReq, env))
  {
    DeniedStep(b, Reboot);
    SettleStep(b, b.Asks(b.asked.(reboot := true, actdead := false)), env);
  }

  lemma AllowStep(b: Bits, internal: bool, env: Env)
    requires Inv(b)
    ensures Step(b, Handle(b, AllowShutdown(internal), env))
  {
    SettleStep(b, b.(blocked := false).Asks(b.asked.(shutdown := false, reboot := false)), env);
  }

  lemma ShutdownFiresStep(b: Bits, env: Env)
    requires Inv(b) && b.shutdownTimer
    ensures Step(b, Handle(b, ShutdownFires, env))
  {
  }

  /** Every message and timer keeps the invariant and the shape. */
  lemma HandleStep(b: Bits, e: Event, env: Env)
    requires Inv(b) && CanHappen(b, e)
    ensures Step(b, Handle(b, e, env))
  {
    match e
    case SetCharger(connected) => ChargerStep(b, connected, env);
    case ShutdownReq => ShutdownReqStep(b, env);
    case RebootReq => RebootReqStep(b, env);
    case PowerupReq => SettleStep(b, b.Asks(b.asked.(shutdown := false, actdead := false)), env);
    case ActdeadReq => SettleStep(b, b.Asks(b.asked.(actdead := true)), env);
    case SetAlarm(pending) => SettleStep(b, b.Told(b.sense.(alarm := pending)), env);
    case SetThermal(_) => OverheatStep(b, env);
    case SetEmergency(ongoing) => EmergencyStep(b, ongoing, env);
    case BatteryState(empty) => BatteryStep(b, empty, env);
    case AllowShutdown(internal) => AllowStep(b, internal, env);
    case OverheatFires => OverheatStep(b, env);
    case ChargerFires => UnpluggedStep(b, env);
    case BatteryFires => BatteryDeadStep(b, env);
    case ShutdownFires => ShutdownFiresStep(b, env);
    case _ =>
  }

  lemma {:induction false} RunStep(b: Bits, turns: seq<Turn>)
    requires Inv(b) && Possible(b, turns)
    ensures Step(b, Run(b, turns))
    decreases |turns|
  {
    if turns != [] {
      var r := Handle(b, turns[0].event, turns[0].env);
      HandleStep(b, turns[0].event, turns[0].env);
      RunStep(r.bits, turns[1..]);
      ThenStep(b, r, Run(r.bits, turns[1..]));
    }
  }

  lemma StartupStep(boot: BootState, env: Env)
    ensures Step(InitialBits(boot), Startup(boot, env)) && !Startup(boot, env).bits.blocked
    ensures Changes(Startup(boot, env).out) != []
  {
    var b := InitialBits(boot);
    var malf := if EntersMalf(boot, env) then [EnterMalf] else [];
    SettleShape(b, env);
    assert Step(b, Res(b, malf)) && Changes(malf) == [] by {
      assert [EnterMalf][1..] == [];
    }
    ThenStep(b, Res(b, malf), Settle(b, env));
    ChangesConcat(malf, Settle(b, env).out);
    LegalChanges(NotSet, Settle(b, env).out);
    assert Settle(b, env).bits.current != NotSet;
  }

  lemma {:induction false} RunSnoc(b: Bits, turns: seq<Turn>, t: Turn)
    requires Possible(b, turns) && CanHappen(Run(b, turns).bits, t.event)
    ensures Possible(b, turns + [t])
    ensures Run(b, turns + [t]) == Then(Run(b, turns), Handle(Run(b, turns).bits, t.event, t.env))
    decreases |turns|
  {
    if turns == [] {
      assert [t][1..] == [];
      var r := Handle(b, t.event, t.env);
      assert Run(b, [t]) == Then(r, Res(r.bits, []));
      assert r.out + [] == [] + r.out;
      assert turns + [t] == [t];
    } else {
      var r := Handle(b, turns[0].event, turns[0].env);
      assert (turns + [t])[1..] == turns[1..] + [t];
      RunSnoc(r.bits, turns[1..], t);
      var rest := Run(r.bits, turns[1..]);
      ThenAppends(r.out, rest, Handle(rest.bits, t.event, t.env));
    }
  }

  /** A run from the start goes on by one turn. */
  lemma FromStartSnoc(boot: BootState, env: Env, turns: seq<Turn>, t: Turn)
    requires PossibleFromStart(boot, env, turns) && CanHappen(FromStart(boot, env, turns).bits, t.event)
    ensures var r := FromStart(boot, env, turns);
            && PossibleFromStart(boot, env, turns + [t])
            && FromStart(boot, env, turns + [t]) == Then(r, Handle(r.bits, t.event, t.env))
  {
    var r := Startup(boot, env);
    var rest := Run(r.bits, turns);
    RunSnoc(r.bits, turns, t);
    ThenAppends(r.out, rest, Handle(rest.bits, t.event, t.env));
  }

  lemma StartStep(boot: BootState, env: Env, turns: seq<Turn>)
    requires PossibleFromStart(boot, env, turns)
    ensures Step(InitialBits(boot), FromStart(boot, env, turns))
  {
    var r := Startup(boot, env);
    StartupStep(boot, env);
    RunStep(r.bits, turns);
    ThenStep(InitialBits(boot), r, Run(r.bits, turns));
  }

  // ----- theorems

  /** The states announced, in order. */
  function Changes(out: seq<Out>): seq<State>
    decreases |out|
  {
    if out == [] then []
    else if out[0].StateChange? then [out[0].state] + Changes(out[1..])
    else Changes(out[1..])
  }

  predicate Walk(from: State, states: seq<State>)
    decreases |states|
  {
    states == [] || (Edge(from, states[0]) && Walk(states[0], states[1..]))
  }

  lemma {:induction false} LegalChanges(from: State, out: seq<Out>)
    requires Legal(from, out)
    ensures Walk(from, Changes(out))
    ensures Final(from, out) == if Changes(out) == [] then from else Changes(out)[|Changes(out)| - 1]
    decreases |out|
  {
    if out != [] {
      var next := if out[0].StateChange? then out[0].state else from;
      LegalChanges(next, out[1..]);
      assert out[0].StateChange? ==> Changes(out)[1..] == Changes(out[1..]);
    }
  }

  lemma {:induction false} WalkAt(from: State, states: seq<State>, i: nat)
    requires Walk(from, states) && i < |states|
    ensures Edge(if i == 0 then from else states[i - 1], states[i])
    decreases |states|
  {
    if i > 0 {
      WalkAt(states[0], states[1..], i - 1);
    }
  }

  lemma {:induction false} LegalShutdowns(from: State, out: seq<Out>)
    requires Legal(from, out)
    ensures forall o :: o in out && o.ShutdownNow? ==> o.runlevel == RunShutdown || o.runlevel == RunReboot
    decreases |out|
  {
    if out != [] {
      LegalShutdowns(if out[0].StateChange? then out[0].state else from, out[1..]);
    }
  }

  lemma ShapeOf(b: Bits, r: Res)
    requires Step(b, r) && b.current == NotSet
    ensures var states := Changes(r.out);
            && (forall i :: 1 <= i < |states| ==> Off(states[i]) && states[i] != states[i - 1])
            && (states != [] ==> states[0] in {User, ActDead, Test, Shutdown, Reboot}
                                 && r.bits.current == states[|states| - 1])
            && (forall o :: o in r.out && o.ShutdownNow? ==> o.runlevel == RunShutdown || o.runlevel == RunReboot)
  {
    LegalChanges(NotSet, r.out);
    LegalShutdowns(NotSet, r.out);
    var states := Changes(r.out);
    forall i | 1 <= i < |states|
      ensures Off(states[i]) && states[i] != states[i - 1]
    {
      WalkAt(NotSet, states, i);
      WalkAt(NotSet, states, i - 1);
    }
    if states != [] {
      WalkAt(NotSet, states, 0);
    }
  }

  /** The shape of every run: a state is announced, only the first state announced can be USER, ACTDEAD
      or TEST, every later one is SHUTDOWN or REBOOT and differs from the one
      before, and the last one announced is the current state. A SHUTDOWN message
      never carries a runlevel that the runlevel module rejects, and a shutdown
      timer is pending only in SHUTDOWN or REBOOT. */
  lemma RunShape(boot: BootState, env: Env, turns: seq<Turn>)
    requires PossibleFromStart(boot, env, turns)
    ensures var r := FromStart(boot, env, turns); var states := Changes(r.out);
            && (forall i :: 1 <= i < |states| ==> Off(states[i]) && states[i] != states[i - 1])
            && states != [] && states[0] in {User, ActDead, Test, Shutdown, Reboot}
            && r.bits.current == states[|states| - 1]
            && (forall o :: o in r.out && o.ShutdownNow? ==> o.runlevel == RunShutdown || o.runlevel == RunReboot)
            && (r.bits.shutdownTimer ==> Off(r.bits.current))
  {
    var start := Startup(boot, env);
    StartupStep(boot, env);
    ChangesConcat(start.out, Run(start.bits, turns).out);
    StartStep(boot, env, turns);
    ShapeOf(InitialBits(boot), FromStart(boot, env, turns));
  }

  /** At every point of every run: with no emergency call ongoing, overheating or
      an empty battery has put the device in SHUTDOWN; and no shutdown timer is
      pending during a call. Both alarms stay once raised. */
  lemma EmergencyPrecedence(boot: BootState, env: Env, turns: seq<Turn>)
    requires PossibleFromStart(boot, env, turns)
    ensures var b := FromStart(boot, env, turns).bits;
            && (!b.emergency && (b.overheated || b.batteryEmpty) ==> b.current == Shutdown)
            && (b.emergency ==> !b.shutdownTimer)
  {
    StartStep(boot, env, turns);
  }

  predicate CallGoesOn(turns: seq<Turn>) {
    forall t :: t in turns ==> t.event != SetEmergency(false)
  }

  /** Nothing is settled during a call, nor while blocked without an alarm. */
  predicate Frozen(b: Bits) {
    b.emergency || (b.blocked && !b.overheated && !b.batteryEmpty)
  }

  lemma FrozenSettles(b: Bits, env: Env)
    requires Frozen(b)
    ensures Settle(b, env) == Res(b, [])
  {
  }

  lemma HandleDuringCall(b: Bits, e: Event, env: Env)
    requires Inv(b) && CanHappen(b, e) && b.emergency && e != SetEmergency(false)
    ensures var r := Handle(b, e, env);
            Silent(r.out) && r.bits.current == b.current && r.bits.emergency && !r.bits.shutdownTimer
  {
    if e.SetCharger? {
      ChargerQuiet(b, e.connected, env);
    } else if e.SetEmergency? {
      FrozenSettles(b, env);
    }
  }

  /** While an emergency call is going on, whatever else happens, the state does
      not change, no shutdown is announced or started, and no timer for one is
      pending. */
  lemma {:induction false} EmergencyFreezes(b: Bits, turns: seq<Turn>)
    requires Inv(b) && b.emergency && Possible(b, turns) && CallGoesOn(turns)
    ensures var r := Run(b, turns);
            Silent(r.out) && r.bits.current == b.current && r.bits.emergency && !r.bits.shutdownTimer
    decreases |turns|
  {
    if turns != [] {
      var r := Handle(b, turns[0].event, turns[0].env);
      HandleDuringCall(b, turns[0].event, turns[0].env);
      HandleStep(b, turns[0].event, turns[0].env);
      EmergencyFreezes(r.bits, turns[1..]);
    }
  }

  /** The same over runs from the start: the call may begin at any point. */
  lemma EmergencyFreezesRuns(boot: BootState, env: Env, before: seq<Turn>, during: seq<Turn>)
    requires PossibleFromStart(boot, env, before)
    requires var b := FromStart(boot, env, before).bits;
             b.emergency && Possible(b, during) && CallGoesOn(during)
    ensures var b := FromStart(boot, env, before).bits; var r := Run(b, during);
            Silent(r.out) && r.bits.current == b.current && !r.bits.shutdownTimer
  {
    StartStep(boot, env, before);
    EmergencyFreezes(FromStart(boot, env, before).bits, during);
  }

  /** One event while blocked. */
  lemma HandleWhileBlocked(b: Bits, e: Event, env: Env)
    requires Inv(b) && CanHappen(b, e) && b.blocked && !(e.AllowShutdown? && e.internal)
    requires var r := Handle(b, e, env).bits; !r.overheated && !r.batteryEmpty
    ensures var r := Handle(b, e, env);
            Changes(r.out) == [] && r.bits.current == b.current && r.bits.blocked
  {
    HandleStep(b, e, env);
    NoChanges(b, e, env);
  }

  lemma NoChanges(b: Bits, e: Event, env: Env)
    requires b.blocked && !b.overheated && !b.batteryEmpty && !(e.AllowShutdown? && e.internal)
    requires var r := Handle(b, e, env).bits; !r.overheated && !r.batteryEmpty
    ensures var r := Handle(b, e, env); r.bits.current == b.current && r.bits.blocked
    ensures var out := Handle(b, e, env).out;
            out == [] || (|out| == 1 && !out[0].StateChange?)
    ensures Changes(Handle(b, e, env).out) == []
  {
    if e.SetEmergency? {
      var r := UpdateEmergency(b, e.ongoing, env);
      FrozenSettles(b.(emergency := false), env);
      FrozenSettles(r.bits, env);
    } else if e.BatteryState? {
      BatteryQuiet(b, e.empty, env);
    } else if e.SetCharger? {
      ChargerQuiet(b, e.connected, env);
    }
    var out := Handle(b, e, env).out;
    if |out| == 1 {
      assert out[1..] == [];
    }
  }

  lemma ChargerQuiet(b: Bits, connected: bool, env: Env)
    requires Frozen(b)
    ensures var r := Handle(b, SetCharger(connected), env);
            && r.out == [] && r.bits.current == b.current
            && SameAlarms(b, r.bits) && r.bits.shutdownTimer == b.shutdownTimer
  {
    PluggedQuiet(StopCharger(b), connected, env);
  }

  lemma PluggedQuiet(b: Bits, connected: bool, env: Env)
    requires Frozen(b)
    ensures var r := ReportCharger(b, connected, env);
            && r.out == [] && r.bits.current == b.current
            && SameAlarms(b, r.bits) && r.bits.shutdownTimer == b.shutdownTimer
  {
  }

  lemma BatteryQuiet(b: Bits, empty: bool, env: Env)
    requires !b.batteryEmpty && !Handle(b, BatteryState(empty), env).bits.batteryEmpty
    ensures var r := Handle(b, BatteryState(empty), env);
            && (r.out == [] || r.out == [BatteryEmptyInd])
            && r.bits.current == b.current && r.bits.blocked == b.blocked
  {
  }

  lemma SettledKeepsAlarms(b: Bits, env: Env)
    ensures SameAlarms(b, Settle(b, env).bits)
  {
  }

  lemma {:induction false} ChangesConcat(a: seq<Out>, b: seq<Out>)
    ensures Changes(a + b) == Changes(a) + Changes(b)
    decreases |a|
  {
    if a == [] {
      assert a + b == b;
    } else {
      assert (a + b)[1..] == a[1..] + b;
      ChangesConcat(a[1..], b);
    }
  }

  /** While D-Bus clients block shutdown, no request, charger or alarm event
      changes the state; only overheating and an empty battery do. */
  lemma {:induction false} BlockingHolds(b: Bits, turns: seq<Turn>)
    requires Inv(b) && b.blocked && Possible(b, turns)
    requires forall t :: t in turns ==> !(t.event.AllowShutdown? && t.event.internal)
    requires var r := Run(b, turns).bits; !r.overheated && !r.batteryEmpty
    ensures var r := Run(b, turns); Changes(r.out) == [] && r.bits.current == b.current && r.bits.blocked
    decreases |turns|
  {
    if turns != [] {
      var r := Handle(b, turns[0].event, turns[0].env);
      HandleStep(b, turns[0].event, turns[0].env);
      RunStep(r.bits, turns[1..]);
      HandleWhileBlocked(b, turns[0].event, turns[0].env);
      BlockingHolds(r.bits, turns[1..]);
      ChangesConcat(r.out, Run(r.bits, turns[1..]).out);
    }
  }

  /** A shutdown that was scheduled before an emergency call is cancelled by it.
      Whatever happens during the call, after it the shutdown is scheduled again if
      and only if the bits then call for the other one of SHUTDOWN and REBOOT. */
  lemma ShutdownAfterCall(b: Bits, start: Env, during: seq<Turn>, after: Env)
    requires Inv(b) && b.shutdownTimer && after.timerOk
    requires Possible(Handle(b, SetEmergency(true), start).bits, during) && CallGoesOn(during)
    ensures var c := Run(Handle(b, SetEmergency(true), start).bits, during).bits;
            var end := Handle(c, SetEmergency(false), after).bits;
            var next := Wanted(c.(emergency := false), after);
            && !c.shutdownTimer && c.current == b.current
            && (end.shutdownTimer <==> Off(next) && next != b.current)
  {
    var call := Handle(b, SetEmergency(true), start).bits;
    assert call == b.(emergency := true, shutdownTimer := false);
    HandleStep(b, SetEmergency(true), start);
    EmergencyFreezes(call, during);
    AfterCall(Run(call, during).bits, after);
  }

  lemma AfterCall(c: Bits, after: Env)
    requires c.emergency && !c.shutdownTimer && Off(c.current) && after.timerOk
    ensures var end := Handle(c, SetEmergency(false), after).bits;
            var next := Wanted(c.(emergency := false), after);
            end.shutdownTimer <==> Off(next) && next != c.current
  {
    var quiet := c.(emergency := false);
    SettleShape(quiet, after);
    SettleShape(Settle(quiet, after).bits, after);
  }

  /** The run ends in SHUTDOWN, overheated, without a shutdown timer. */
  predicate EndsStuck(b: Bits, turns: seq<Turn>) {
    && Possible(b, turns)
    && var c := Run(b, turns).bits;
       c.overheated && c.current == Shutdown && !c.shutdownTimer && !c.emergency
  }

  lemma StuckEarlier(b: Bits, t: Turn, rest: seq<Turn>, c: Bits)
    requires CanHappen(b, t.event) && Handle(b, t.event, t.env).bits == c && EndsStuck(c, rest)
    ensures EndsStuck(b, [t] + rest)
  {
  }

  /** So an overheated device whose shutdown an emergency call interrupted stays
      in SHUTDOWN with nothing left that would power it off. */
  lemma OverheatedAfterCall(b: Bits, env: Env)
    requires Inv(b) && !b.emergency && !b.extras.overheatTimer && env.timerOk
    ensures EndsStuck(b, [Turn(SetThermal(true), env)] + ([Turn(OverheatFires, env)] +
                         ([Turn(SetEmergency(true), env)] + ([Turn(SetEmergency(false), env)] + []))))
  {
    var rest := [Turn(SetEmergency(true), env)] + ([Turn(SetEmergency(false), env)] + []);
    var b1 := b.With(b.extras.(overheatTimer := true));
    var b2 := Overheat(b1, env).bits;
    OverheatedGoesDown(b1, env);
    StuckAfterCall(b2, env);
    StuckEarlier(b1, Turn(OverheatFires, env), rest, b2);
    StuckEarlier(b, Turn(SetThermal(true), env), [Turn(OverheatFires, env)] + rest, b1);
  }

  lemma OverheatedGoesDown(b: Bits, env: Env)
    requires Inv(b) && !b.emergency
    ensures var c := Overheat(b, env).bits; c.overheated && c.current == Shutdown && !c.emergency
  {
  }

  lemma StuckAfterCall(b: Bits, env: Env)
    requires b.overheated && b.current == Shutdown && !b.emergency
    ensures EndsStuck(b, [Turn(SetEmergency(true), env)] + ([Turn(SetEmergency(false), env)] + []))
  {
    var b3 := Cancel(b.(emergency := true));
    var b4 := b3.(emergency := false);
    FrozenSettles(b3, env);
    assert Settle(b4, env) == Res(b4, []);
    StuckEarlier(b3, Turn(SetEmergency(false), env), [], b4);
    StuckEarlier(b, Turn(SetEmergency(true), env), [Turn(SetEmergency(false), env)] + [], b3);
  }

  /** For example after an ordinary boot. */
  lemma OverheatedAfterBoot(env: Env)
    requires env.timerOk
    ensures EndsStuck(Startup(BootUser(false), env).bits,
                      [Turn(SetThermal(true), env)] + ([Turn(OverheatFires, env)] +
                      ([Turn(SetEmergency(true), env)] + ([Turn(SetEmergency(false), env)] + []))))
  {
    StartupStep(BootUser(false), env);
    OverheatedAfterCall(Startup(BootUser(false), env).bits, env);
  }

  /** Overheated, in SHUTDOWN, and without a shutdown timer. */
  predicate Dead(b: Bits) {
    b.overheated && b.current == Shutdown && !b.shutdownTimer
  }

  lemma DeadSettles(b: Bits, env: Env)
    requires b.overheated && b.current == Shutdown
    ensures Settle(b, env) == Res(b, [])
  {
  }

  lemma DeadCharger(b: Bits, connected: bool, env: Env)
    requires Dead(b)
    ensures var r := ReportCharger(b, connected, env); Dead(r.bits) && r.out == []
  {
    DeadSettles(b.Told(b.sense.(charger := Disconnected)), env);
    DeadSettles(b.Told(b.sense.(charger := if connected then Connected else Disconnected)), env);
  }

  lemma DeadCall(b: Bits, ongoing: bool, env: Env)
    requires Dead(b)
    ensures var r := Handle(b, SetEmergency(ongoing), env); Dead(r.bits) && r.out == []
  {
    DeadSettles(b.(emergency := false), env);
    DeadSettles(UpdateEmergency(b, ongoing, env).bits, env);
  }

  lemma DeadRequest(b: Bits, e: Event, env: Env)
    requires Dead(b) && (e.ShutdownReq? || e.RebootReq? || e.PowerupReq? || e.ActdeadReq? || e.AllowShutdown?)
    ensures var r := Handle(b, e, env); Dead(r.bits) && Silent(r.out)
  {
    match e
    case ShutdownReq => DeadSettles(b.Asks(b.asked.(shutdown := true, actdead := false)), env);
    case RebootReq => DeadSettles(b.Asks(b.asked.(reboot := true, actdead := false)), env);
    case PowerupReq => DeadSettles(b.Asks(b.asked.(shutdown := false, actdead := false)), env);
    case ActdeadReq => DeadSettles(b.Asks(b.asked.(actdead := true)), env);
    case AllowShutdown(_) =>
      DeadSettles(b.(blocked := false).Asks(b.asked.(shutdown := false, reboot := false)), env);
  }

  lemma DeadStep(b: Bits, e: Event, env: Env)
    requires Dead(b) && CanHappen(b, e)
    ensures var r := Handle(b, e, env); Dead(r.bits) && Silent(r.out)
  {
    match e
    case SetCharger(connected) => DeadCharger(StopCharger(b), connected, env);
    case ShutdownReq => DeadRequest(b, e, env);
    case RebootReq => DeadRequest(b, e, env);
    case PowerupReq => DeadRequest(b, e, env);
    case ActdeadReq => DeadRequest(b, e, env);
    case AllowShutdown(_) => DeadRequest(b, e, env);
    case SetAlarm(pending) => DeadSettles(b.Told(b.sense.(alarm := pending)), env);
    case SetThermal(_) => DeadSettles(b.(overheated := true), env);
    case SetEmergency(ongoing) => DeadCall(b, ongoing, env);
    case BatteryState(_) => DeadSettles(b.(batteryEmpty := true), env);
    case OverheatFires => DeadSettles(b.(overheated := true), env);
    case ChargerFires => DeadSettles(b.Told(b.sense.(charger := Disconnected)), env);
    case BatteryFires => DeadSettles(b.(batteryEmpty := true), env);
    case _ =>
  }

  /** Such a device stays as it is for ever: whatever happens later, no shutdown is
      started and no state announced. */
  lemma {:induction false} DeadForEver(b: Bits, turns: seq<Turn>)
    requires Dead(b) && Possible(b, turns)
    ensures var r := Run(b, turns); Dead(r.bits) && Silent(r.out)
    decreases |turns|
  {
    if turns != [] {
      DeadStep(b, turns[0].event, turns[0].env);
      DeadForEver(Handle(b, turns[0].event, turns[0].env).bits, turns[1..]);
    }
  }

  // ----- going down does lead to power-off

  predicate NoCalls(turns: seq<Turn>) {
    forall t :: t in turns ==> t.event != SetEmergency(true)
  }

  /** Power-off is under way: the shutdown timer runs, or the main loop is left. */
  predicate Going(b: Bits) {
    b.shutdownTimer || b.extras.quit
  }

  predicate Posted(out: seq<Out>) {
    exists o :: o in out && o.ShutdownNow?
  }

  /** A step of a device in which no call is going on: power-off, once under way,
      stays so until SHUTDOWN is sent, and is under way after going down. */
  predicate GoesOn(b: Bits, r: Res) {
    && !r.bits.emergency
    && (Going(b) ==> Going(r.bits) || Posted(r.out))
    && (Off(r.bits.current) ==> Off(b.current) || Going(r.bits))
  }

  lemma SettleGoes(b: Bits, c: Bits, env: Env)
    requires !c.emergency && c.current == b.current && c.shutdownTimer == b.shutdownTimer
    requires c.extras.quit == b.extras.quit
    ensures GoesOn(b, Settle(c, env)) && (Going(b) ==> Going(Settle(c, env).bits))
  {
  }

  lemma ChargerGoes(b: Bits, connected: bool, env: Env)
    requires !b.emergency
    ensures GoesOn(b, ReportCharger(b, connected, env))
  {
    SettleGoes(b, b.Told(b.sense.(charger := Disconnected)), env);
    SettleGoes(b, b.Told(b.sense.(charger := if connected then Connected else Disconnected)), env);
  }

  lemma CallEndGoes(b: Bits, env: Env)
    requires !b.emergency
    ensures GoesOn(b, Handle(b, SetEmergency(false), env))
  {
    SettleGoes(b, b, env);
  }

  lemma RequestGoes(b: Bits, e: Event, env: Env)
    requires !b.emergency && (e.ShutdownReq? || e.RebootReq? || e.PowerupReq? || e.ActdeadReq? || e.AllowShutdown?)
    ensures GoesOn(b, Handle(b, e, env))
  {
    match e
    case ShutdownReq => SettleGoes(b, b.Asks(b.asked.(shutdown := true, actdead := false)), env);
    case RebootReq => SettleGoes(b, b.Asks(b.asked.(reboot := true, actdead := false)), env);
    case PowerupReq => SettleGoes(b, b.Asks(b.asked.(shutdown := false, actdead := false)), env);
    case ActdeadReq => SettleGoes(b, b.Asks(b.asked.(actdead := true)), env);
    case AllowShutdown(_) =>
      SettleGoes(b, b.(blocked := false).Asks(b.asked.(shutdown := false, reboot := false)), env);
  }

  lemma AlarmGoes(b: Bits, env: Env)
    requires !b.emergency
    ensures GoesOn(b, Overheat(b, env)) && GoesOn(b, BatteryDead(b, env))
    ensures Going(b) ==> Going(Overheat(b, env).bits) && Going(BatteryDead(b, env).bits)
  {
    SettleGoes(b, b.(overheated := true), env);
    SettleGoes(b, b.(batteryEmpty := true), env);
  }

  lemma HandleGoes(b: Bits, e: Event, env: Env)
    requires !b.emergency && e != SetEmergency(true) && CanHappen(b, e)
    ensures GoesOn(b, Handle(b, e, env))
  {
    match e
    case SetCharger(connected) => ChargerGoes(StopCharger(b), connected, env);
    case ShutdownReq => RequestGoes(b, e, env);
    case RebootReq => RequestGoes(b, e, env);
    case PowerupReq => RequestGoes(b, e, env);
    case ActdeadReq => RequestGoes(b, e, env);
    case AllowShutdown(_) => RequestGoes(b, e, env);
    case SetAlarm(pending) => SettleGoes(b, b.Told(b.sense.(alarm := pending)), env);
    case SetThermal(_) => AlarmGoes(b, env);
    case SetEmergency(_) => CallEndGoes(b, env);
    case BatteryState(_) => AlarmGoes(b, env);
    case OverheatFires => AlarmGoes(b, env);
    case ChargerFires => SettleGoes(b, b.Told(b.sense.(charger := Disconnected)), env);
    case BatteryFires => AlarmGoes(b, env);
    case ShutdownFires => assert ShutdownNow(ToRunlevel(b.current)) in Handle(b, e, env).out;
    case _ =>
  }

  lemma PostedThen(r: Res, s: Res)
    ensures Posted(Then(r, s).out) <==> Posted(r.out) || Posted(s.out)
  {
    if o :| o in r.out && o.ShutdownNow? { assert o in Then(r, s).out; }
    if o :| o in s.out && o.ShutdownNow? { assert o in Then(r, s).out; }
  }

  lemma {:induction false} RunGoes(b: Bits, turns: seq<Turn>)
    requires !b.emergency && Possible(b, turns) && NoCalls(turns)
    ensures GoesOn(b, Run(b, turns)) || (Posted(Run(b, turns).out) && !Run(b, turns).bits.emergency)
    decreases |turns|
  {
    if turns != [] {
      var r := Handle(b, turns[0].event, turns[0].env);
      HandleGoes(b, turns[0].event, turns[0].env);
      RunGoes(r.bits, turns[1..]);
      PostedThen(r, Run(r.bits, turns[1..]));
    }
  }

  /** In every run without an emergency call, a device that is in SHUTDOWN or REBOOT
      has its shutdown timer running, leaves its main loop, or has sent SHUTDOWN. */
  lemma GoingDownPowersOff(boot: BootState, env: Env, turns: seq<Turn>)
    requires PossibleFromStart(boot, env, turns) && NoCalls(turns)
    ensures var r := FromStart(boot, env, turns); Off(r.bits.current) ==> Going(r.bits) || Posted(r.out)
  {
    var b, r := InitialBits(boot), Startup(boot, env);
    SettleGoes(b, b, env);
    RunGoes(r.bits, turns);
    PostedThen(r, Run(r.bits, turns));
  }
}
