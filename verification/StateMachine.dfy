/** The module modules/state.c: static variables, and the handlers that update them
    step by step. Each handler does what the transition function of DeviceState
    says; what DeviceRuns proves of whole runs thus holds of the module. */
module StateMachine {
  import opened DeviceState
  import opened DeviceRuns

  class StateModule {
    /** The static variables. */
    var bits: Bits
    /** Messages broadcast so far. */
    var posted: seq<Out>

    /** How the module was started, and what it has handled since. */
    ghost const boot: BootState
    ghost const startEnv: Env
    ghost var turns: seq<Turn>

    /** The module did what `r` says since `before` was posted. */
    predicate Did(before: seq<Out>, r: Res)
      reads this`bits, this`posted
    {
      bits == r.bits && posted == before + r.out
    }

    /** The module is where its run has taken it. */
    ghost predicate Valid()
      reads this
    {
      PossibleFromStart(boot, startEnv, turns) && Did([], FromStart(boot, startEnv, turns))
    }

    /** module_init */
    constructor (boot: BootState, env: Env)
      ensures Valid() && turns == [] && this.boot == boot && startEnv == env
    {
      this.boot, startEnv, turns := boot, env, [];
      bits, posted := InitialBits(BootUser(false)), [];
      new;
      SetInitialStateBits(boot, env);
      ChangeStateIfNecessary(env);
      assert Did([], Startup(boot, env));
    }

    /** set_initial_state_bits, on fresh bits */
    method SetInitialStateBits(boot: BootState, env: Env)
      requires bits == InitialBits(BootUser(false))
      modifies this`bits, this`posted
      ensures Did(old(posted), Res(InitialBits(boot), if EntersMalf(boot, env) then [EnterMalf] else []))
    {
      var malf := false;
      match boot {
        case BootShutdown =>
          bits := bits.Told(bits.sense.(charger := Disconnected));
          bits := bits.Asks(bits.asked.(shutdown := true));
        case BootUser(info) => malf := info && !env.rdMode;
        case BootActDead(info) =>
          bits := bits.Asks(bits.asked.(shutdown := true));
          malf := info && !env.rdMode;
        case BootReboot => bits := bits.Asks(bits.asked.(reboot := true));
        case BootTest => bits := bits.Asks(bits.asked.(test := true));
        case BootMalf => malf := true;
        case BootUnknown => malf := !env.rdMode;
      }
      if malf {
        posted := posted + [EnterMalf];
      }
    }

    /** select_state: a call keeps everything as it is, an alarm comes next, then
        the blockers; nothing but an alarm or a request leads down. */
    method SelectState(env: Env) returns (state: State)
      ensures bits.emergency ==> state == bits.current
      ensures !bits.emergency && (bits.overheated || bits.batteryEmpty) ==> state == Shutdown
      ensures bits.blocked && !bits.overheated && !bits.batteryEmpty ==> state == bits.current
      ensures Off(state) ==> state == bits.current || bits.overheated || bits.batteryEmpty
                             || bits.asked.shutdown || bits.asked.reboot
      ensures state == Wanted(bits, env)
    {
      state := bits.current;
      if bits.emergency {
      } else if bits.overheated {
        state := Shutdown;
      } else if bits.batteryEmpty {
        state := Shutdown;
      } else if bits.blocked {
      } else if bits.asked.test {
        state := Test;
      } else if bits.asked.actdead {
        state := ActDead;
      } else if bits.asked.shutdown || bits.asked.reboot {
        if bits.asked.shutdown && bits.sense.charger == Disconnected && (!bits.sense.alarm || env.homeEncrypted) {
          state := Shutdown;
        } else if bits.asked.reboot {
          state := Reboot;
        } else {
          state := ActDead;
        }
      } else {
        state := User;
      }
    }

    method ChangeState(s: State)
      modifies this`bits, this`posted
      ensures Did(old(posted), Enter(old(bits), s))
    {
      if s == Shutdown || s == Reboot {
        posted := posted + [SaveData];
      }
      posted := posted + [StateChange(s)];
      bits := bits.(current := s);
    }

    method StopDelayedRunlevelTimers()
      modifies this`bits
      ensures bits == Cancel(old(bits))
    {
      if bits.shutdownTimer {
        bits := bits.(shutdownTimer := false);
      }
    }

    method StartDelayedShutdownTimer(env: Env)
      modifies this`bits
      ensures bits == if old(bits).shutdownTimer then old(bits)
                      else if env.timerOk then old(bits).(shutdownTimer := true)
                      else old(bits).With(old(bits).extras.(quit := true))
    {
      if !bits.shutdownTimer {
        StopDelayedRunlevelTimers();
        if env.timerOk {
          bits := bits.(shutdownTimer := true);
        } else {
          bits := bits.With(bits.extras.(quit := true));
        }
      }
    }

    /** change_state to SHUTDOWN or REBOOT, always followed by the timer. */
    method GoingDown(s: State, env: Env)
      requires Off(s)
      modifies this`bits, this`posted
      ensures Did(old(posted), GoDown(old(bits), s, env))
    {
      ChangeState(s);
      StartDelayedShutdownTimer(env);
    }

    method TryToChangeState(s: State, env: Env)
      modifies this`bits, this`posted
      ensures Did(old(posted), Move(old(bits), s, env))
    {
      match s {
        case Shutdown | Reboot =>
          GoingDown(s, env);
        case User | ActDead =>
          if bits.current == NotSet {
            ChangeState(s);
          } else if bits.current == ActDead {
            if bits.sense.level < MINIMUM_BATTERY_TO_USER {
              bits := bits.Asks(bits.asked.(shutdown := true));
            } else {
              bits := bits.With(bits.extras.(userSwitchDone := false));
              GoingDown(Reboot, env);
            }
          } else if bits.current == User {
            bits := bits.With(bits.extras.(actdeadSwitchDone := false));
            GoingDown(if env.useReboot then Reboot else Shutdown, env);
          }
        case Test | Local =>
          if bits.current == NotSet {
            ChangeState(s);
          }
        case _ =>
      }
    }

    method ChangeStateIfNecessary(env: Env)
      modifies this`bits, this`posted
      ensures Did(old(posted), Settle(old(bits), env))
    {
      var next := SelectState(env);
      if bits.current != next {
        TryToChangeState(next, env);
      }
    }

    method UpdateEmergencyCallOngoing(value: bool, env: Env)
      modifies this`bits, this`posted
      ensures Did(old(posted), UpdateEmergency(old(bits), value, env))
    {
      if bits.emergency != value {
        bits := bits.(emergency := value);
        if bits.emergency {
          StopDelayedRunlevelTimers();
        } else {
          ChangeStateIfNecessary(env);
        }
      }
    }

    method UpdateShutdownBlocked(value: bool, env: Env)
      modifies this`bits, this`posted
      ensures Did(old(posted), Handle(old(bits), if value then BlockShutdown(true) else AllowShutdown(true), env))
    {
      if bits.blocked != value {
        bits := bits.(blocked := value);
        if !bits.blocked {
          bits := bits.Asks(bits.asked.(shutdown := false, reboot := false));
          ChangeStateIfNecessary(env);
        }
      }
    }

    method DelayedOverheat(env: Env)
      modifies this`bits, this`posted
      ensures Did(old(posted), Overheat(old(bits), env))
    {
      bits := bits.(overheated := true);
      ChangeStateIfNecessary(env);
      bits := bits.With(bits.extras.(overheatTimer := false));
    }

    method DelayedBatteryEmpty(env: Env)
      modifies this`bits, this`posted
      ensures Did(old(posted), BatteryDead(old(bits), env))
    {
      bits := bits.(batteryEmpty := true);
      ChangeStateIfNecessary(env);
      bits := bits.With(bits.extras.(batteryTimer := false));
    }

    method DelayedChargerDisconnect(env: Env)
      modifies this`bits, this`posted
      ensures Did(old(posted), Unplugged(old(bits), env))
    {
      bits := bits.Told(bits.sense.(charger := Disconnected));
      ChangeStateIfNecessary(env);
      bits := bits.With(bits.extras.(chargerTimer := NotPending));
    }

    method HandleChargerState(connected: bool, env: Env)
      modifies this`bits, this`posted
      ensures Did(old(posted), Handle(old(bits), SetCharger(connected), env))
    {
      var reported := if connected then Connected else Disconnected;
      if bits.extras.chargerTimer.Pending? {
        bits := bits.With(bits.extras.(chargerTimer := NotPending)).Told(bits.sense.(charger := Disconnected));
      }
      if bits.current == ActDead && reported == Disconnected {
        var delay := if bits.sense.charger == Unknown then CHARGER_DISCOVERY_TIMEOUT else CHARGER_DISCONNECT_TIMEOUT;
        if env.timerOk {
          bits := bits.With(bits.extras.(chargerTimer := Pending(delay)));
        } else {
          DelayedChargerDisconnect(env);
        }
      } else {
        bits := bits.Told(bits.sense.(charger := reported));
        ChangeStateIfNecessary(env);
      }
    }

    /** is_state_change_request_acceptable */
    method Acceptable(s: State) returns (ok: bool)
      modifies this`posted
      ensures ok <==> !(Off(s) && bits.sense.mounted)
      ensures posted == if ok then old(posted) else old(posted) + [Denied(s)]
    {
      ok := true;
      if (s == Shutdown || s == Reboot) && bits.sense.mounted {
        ok := false;
        posted := posted + [Denied(s)];
      }
    }

    method HandleTelinitShutdown(env: Env)
      modifies this`bits, this`posted
      ensures Did(old(posted), Handle(old(bits), ShutdownReq, env))
    {
      if env.privileged {
        var ok := Acceptable(Shutdown);
        if ok {
          bits := bits.Asks(bits.asked.(shutdown := true, actdead := false));
          ChangeStateIfNecessary(env);
        }
      }
    }

    method HandleTelinitReboot(env: Env)
      modifies this`bits, this`posted
      ensures Did(old(posted), Handle(old(bits), RebootReq, env))
    {
      if env.privileged {
        var ok := Acceptable(Reboot);
        if ok {
          bits := bits.Asks(bits.asked.(reboot := true, actdead := false));
          ChangeStateIfNecessary(env);
        }
      }
    }

    method HandleTelinitUser(env: Env)
      modifies this`bits, this`posted
      ensures Did(old(posted), Handle(old(bits), PowerupReq, env))
    {
      if env.privileged {
        bits := bits.Asks(bits.asked.(shutdown := false, actdead := false));
        ChangeStateIfNecessary(env);
      }
    }

    method HandleTelinitActdead(env: Env)
      modifies this`bits, this`posted
      ensures Did(old(posted), Handle(old(bits), ActdeadReq, env))
    {
      if env.privileged {
        var ok := Acceptable(ActDead);
        if ok {
          bits := bits.Asks(bits.asked.(actdead := true));
          ChangeStateIfNecessary(env);
        }
      }
    }

    method HandleThermalStatus(isHot: bool, env: Env)
      modifies this`bits, this`posted
      ensures Did(old(posted), Handle(old(bits), SetThermal(isHot), env))
    {
      if isHot && !bits.extras.overheatTimer {
        if env.timerOk {
          bits := bits.With(bits.extras.(overheatTimer := true));
        } else {
          DelayedOverheat(env);
        }
      }
    }

    method HandleBatteryState(empty: bool, env: Env)
      modifies this`bits, this`posted
      ensures Did(old(posted), Handle(old(bits), BatteryState(empty), env))
    {
      if empty {
        posted := posted + [BatteryEmptyInd];
        if !bits.extras.batteryTimer {
          if env.timerOk {
            bits := bits.With(bits.extras.(batteryTimer := true));
          } else {
            DelayedBatteryEmpty(env);
          }
        }
      } else if bits.extras.batteryTimer {
        bits := bits.With(bits.extras.(batteryTimer := false));
      }
    }

    method HandleEmergencyCall(ongoing: bool, env: Env)
      modifies this`bits, this`posted
      ensures Did(old(posted), Handle(old(bits), SetEmergency(ongoing), env))
    {
      UpdateEmergencyCallOngoing(ongoing, env);
      ghost var r := UpdateEmergency(old(bits), ongoing, env);
      ChangeStateIfNecessary(env);
      ThenAppends(old(posted), r, Settle(r.bits, env));
    }

    method DelayedShutdown()
      modifies this`bits, this`posted
      ensures Did(old(posted), Res(old(bits).(shutdownTimer := false), [ShutdownNow(ToRunlevel(old(bits.current)))]))
    {
      posted := posted + [ShutdownNow(ToRunlevel(bits.current))];
      bits := bits.(shutdownTimer := false);
    }

    /** The message handlers and timer callbacks. */
    method HandleEvent(e: Event, env: Env)
      requires CanHappen(bits, e)
      modifies this`bits, this`posted
      ensures Did(old(posted), Handle(old(bits), e, env))
    {
      match e {
        case SetCharger(connected) => HandleChargerState(connected, env);
        case SetUsb(m) => bits := bits.Told(bits.sense.(mounted := m));
        case ShutdownReq => HandleTelinitShutdown(env);
        case RebootReq => HandleTelinitReboot(env);
        case PowerupReq => HandleTelinitUser(env);
        case ActdeadReq => HandleTelinitActdead(env);
        case OtherTelinit =>
        case SetAlarm(pending) => bits := bits.Told(bits.sense.(alarm := pending)); ChangeStateIfNecessary(env);
        case SetThermal(hot) => HandleThermalStatus(hot, env);
        case SetEmergency(ongoing) => HandleEmergencyCall(ongoing, env);
        case BatteryLevel(l) => bits := bits.Told(bits.sense.(level := l));
        case BatteryState(empty) => HandleBatteryState(empty, env);
        case BlockShutdown(internal) => if internal { UpdateShutdownBlocked(true, env); }
        case AllowShutdown(internal) => if internal { UpdateShutdownBlocked(false, env); }
        case RunlevelSwitched(r) =>
          if r == RunActDead {
            bits := bits.With(bits.extras.(actdeadSwitchDone := true));
          } else if r == RunUser {
            bits := bits.With(bits.extras.(userSwitchDone := true));
          }
        case OverheatFires => DelayedOverheat(env);
        case ChargerFires => DelayedChargerDisconnect(env);
        case BatteryFires => DelayedBatteryEmpty(env);
        case ShutdownFires => DelayedShutdown();
      }
    }

    /** One message or timer is handled: the run goes on by one turn. While an
        emergency call is going on, nothing else than its end changes the state,
        announces or starts a shutdown. */
    method Dispatch(e: Event, env: Env)
      requires Valid() && CanHappen(bits, e)
      modifies this
      ensures Valid() && turns == old(turns) + [Turn(e, env)]
      ensures Did(old(posted), Handle(old(bits), e, env))
      ensures old(bits).emergency && e != SetEmergency(false) ==>
                && bits.current == old(bits).current && !bits.shutdownTimer
                && Silent(posted[|old(posted)|..])
    {
      ghost var before := FromStart(boot, startEnv, turns);
      StartStep(boot, startEnv, turns);
      FromStartSnoc(boot, startEnv, turns, Turn(e, env));
      HandleEvent(e, env);
      turns := turns + [Turn(e, env)];
      ThenAppends([], before, Handle(before.bits, e, env));
      if before.bits.emergency && e != SetEmergency(false) {
        HandleDuringCall(before.bits, e, env);
      }
    }

    /** What is known of the module at any time: a first state has been announced,
        only that one can be USER, ACTDEAD or TEST, and the last one is current. No
        SHUTDOWN message that the runlevel module would reject has been sent. */
    lemma Shape()
      requires Valid()
      ensures var states := Changes(posted);
              && states != [] && states[0] in {User, ActDead, Test, Shutdown, Reboot}
              && (forall i :: 1 <= i < |states| ==> Off(states[i]) && states[i] != states[i - 1])
              && bits.current == states[|states| - 1]
              && (forall o :: o in posted && o.ShutdownNow? ==> o.runlevel == RunShutdown || o.runlevel == RunReboot)
              && (bits.shutdownTimer ==> Off(bits.current) && !bits.emergency)
              && (!bits.emergency && (bits.overheated || bits.batteryEmpty) ==> bits.current == Shutdown)
    {
      RunShape(boot, startEnv, turns);
      EmergencyPrecedence(boot, startEnv, turns);
      assert posted == FromStart(boot, startEnv, turns).out;
    }
  }
}
