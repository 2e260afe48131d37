/** The device state machine of modules/state.c, in the default build without
    direct USER/ACTDEAD switching: the state bits, the rules that choose the
    overall state, and what every message and timer does. */
module DeviceState {

  datatype State = NotSet | Shutdown | User | ActDead | Reboot | Boot | Test | Malf | Local

  datatype Charger = Unknown | Connected | Disconnected

  datatype Runlevel = RunShutdown | RunReboot | RunUser | RunActDead | RunTest | RunLocal

  const MINIMUM_BATTERY_TO_USER := 3
  const LEVEL_UNKNOWN := -1
  const CHARGER_DISCONNECT_TIMEOUT: nat := 15
  const CHARGER_DISCOVERY_TIMEOUT: nat := 5

  /** What the module has been told about the device. */
  datatype Sense = Sense(charger: Charger, alarm: bool, mounted: bool, level: int)

  /** The requests that are in force. */
  datatype Requests = Requests(shutdown: bool, actdead: bool, reboot: bool, test: bool)

  /** The timer that a disconnected charger starts has one of two lengths. */
  datatype Delay = NotPending | Pending(seconds: nat)

  /** Bookkeeping that select_state does not look at. */
  datatype Extras = Extras(actdeadSwitchDone: bool, userSwitchDone: bool,
                           overheatTimer: bool, chargerTimer: Delay, batteryTimer: bool, quit: bool)

  /** The static variables of modules/state.c. */
  datatype Bits = Bits(
    emergency: bool, overheated: bool, batteryEmpty: bool, blocked: bool,
    sense: Sense, asked: Requests, current: State, shutdownTimer: bool, extras: Extras)
  {
    function Told(sense: Sense): Bits { this.(sense := sense) }

    function Asks(asked: Requests): Bits { this.(asked := asked) }

    function With(extras: Extras): Bits { this.(extras := extras) }
  }

  /** What the module asks of its surroundings while it handles one event. */
  datatype Env = Env(privileged: bool, homeEncrypted: bool, useReboot: bool, timerOk: bool, rdMode: bool)

  /** Messages the module broadcasts. */
  datatype Out =
    | SaveData
    | StateChange(state: State)
    | ShutdownNow(runlevel: Runlevel)
    | Denied(state: State)
    | BatteryEmptyInd
    | EnterMalf

  datatype Event =
    | SetCharger(connected: bool)
    | SetUsb(mounted: bool)
    | ShutdownReq | RebootReq | PowerupReq | ActdeadReq | OtherTelinit
    | SetAlarm(pending: bool)
    | SetThermal(overheated: bool)
    | SetEmergency(ongoing: bool)
    | BatteryLevel(level: int)
    | BatteryState(empty: bool)
    | BlockShutdown(internal: bool)
    | AllowShutdown(internal: bool)
    | RunlevelSwitched(runlevel: Runlevel)
    | OverheatFires | ChargerFires | BatteryFires | ShutdownFires

  /** New bits and the messages broadcast on the way. */
  datatype Res = Res(bits: Bits, out: seq<Out>)

  predicate Off(s: State) { s == Shutdown || s == Reboot }

  /** state2runlevel; the LOCAL case falls through to ACTDEAD. */
  function ToRunlevel(s: State): Runlevel {
    match s
    case Shutdown => RunShutdown
    case Test => RunTest
    case User => RunUser
    case Local => RunActDead
    case ActDead => RunActDead
    case Reboot => RunReboot
    case _ => RunShutdown
  }

  /** The state the bits call for: select_state. */
  function Wanted(b: Bits, env: Env): State {
    if b.emergency then b.current
    else if b.overheated || b.batteryEmpty then Shutdown
    else if b.blocked then b.current
    else if b.asked.test then Test
    else if b.asked.actdead then ActDead
    else if b.asked.shutdown && b.sense.charger == Disconnected && (!b.sense.alarm || env.homeEncrypted) then Shutdown
    else if b.asked.reboot then Reboot
    else if b.asked.shutdown then ActDead
    else User
  }

  /** change_state */
  function Enter(b: Bits, s: State): Res {
    Res(b.(current := s), (if Off(s) then [SaveData] else []) + [StateChange(s)])
  }

  /** Entering SHUTDOWN or REBOOT arms the delayed shutdown; when no timer can be
      created the main loop is left instead. */
  function GoDown(b: Bits, s: State, env: Env): Res {
    var r := Enter(b, s);
    if r.bits.shutdownTimer then r
    else if env.timerOk then r.(bits := r.bits.(shutdownTimer := true))
    else r.(bits := r.bits.With(r.bits.extras.(quit := true)))
  }

  /** try_to_change_state */
  function Move(b: Bits, s: State, env: Env): Res {
    if Off(s) then GoDown(b, s, env)
    else if b.current == NotSet && (s == User || s == ActDead || s == Test || s == Local) then Enter(b, s)
    else if (s == User || s == ActDead) && b.current == ActDead then
      if b.sense.level < MINIMUM_BATTERY_TO_USER then Res(b.Asks(b.asked.(shutdown := true)), [])
      else GoDown(b.With(b.extras.(userSwitchDone := false)), Reboot, env)
    else if (s == User || s == ActDead) && b.current == User then
      GoDown(b.With(b.extras.(actdeadSwitchDone := false)), if env.useReboot then Reboot else Shutdown, env)
    else Res(b, [])
  }

  /** change_state_if_necessary */
  function Settle(b: Bits, env: Env): Res {
    var next := Wanted(b, env);
    if next == b.current then Res(b, []) else Move(b, next, env)
  }

  function Then(r: Res, s: Res): Res {
    Res(s.bits, r.out + s.out)
  }

  lemma ThenAppends(before: seq<Out>, r: Res, s: Res)
    ensures before + r.out + s.out == before + Then(r, s).out
  {
  }

  /** stop_delayed_runlevel_timers */
  function Cancel(b: Bits): Bits {
    if b.shutdownTimer then b.(shutdownTimer := false) else b
  }

  /** stop_charger_disconnect_timer: what was last heard then holds. */
  function StopCharger(b: Bits): Bits {
    if b.extras.chargerTimer.Pending?
    then b.With(b.extras.(chargerTimer := NotPending)).Told(b.sense.(charger := Disconnected))
    else b
  }

  /** How long depends on whether the charger has been heard of before. */
  function DisconnectDelay(charger: Charger): nat {
    if charger == Unknown then CHARGER_DISCOVERY_TIMEOUT else CHARGER_DISCONNECT_TIMEOUT
  }

  /** In ACTDEAD a disconnected charger is believed only after a delay. */
  function ReportCharger(b: Bits, connected: bool, env: Env): Res {
    if b.current == ActDead && !connected then
      if env.timerOk then Res(b.With(b.extras.(chargerTimer := Pending(DisconnectDelay(b.sense.charger)))), [])
      else Unplugged(b, env)
    else Settle(b.Told(b.sense.(charger := if connected then Connected else Disconnected)), env)
  }

  /** The effect of one event on the bits. */
  function Handle(b: Bits, e: Event, env: Env): Res {
    match e
    case SetCharger(connected) => ReportCharger(StopCharger(b), connected, env)
    case SetUsb(mounted) => Res(b.Told(b.sense.(mounted := mounted)), [])
    case ShutdownReq =>
      if !env.privileged then Res(b, [])
      else if b.sense.mounted then Res(b, [Denied(Shutdown)])
      else Settle(b.Asks(b.asked.(shutdown := true, actdead := false)), env)
    case RebootReq =>
      if !env.privileged then Res(b, [])
      else if b.sense.mounted then Res(b, [Denied(Reboot)])
      else Settle(b.Asks(b.asked.(reboot := true, actdead := false)), env)
    case PowerupReq =>
      if !env.privileged then Res(b, [])
      else Settle(b.Asks(b.asked.(shutdown := false, actdead := false)), env)
    case ActdeadReq =>
      if !env.privileged then Res(b, [])
      else Settle(b.Asks(b.asked.(actdead := true)), env)
    case OtherTelinit => Res(b, [])
    case SetAlarm(pending) => Settle(b.Told(b.sense.(alarm := pending)), env)
    case SetThermal(overheated) =>
      if !overheated || b.extras.overheatTimer then Res(b, [])
      else if env.timerOk then Res(b.With(b.extras.(overheatTimer := true)), [])
      else Overheat(b, env)
    case SetEmergency(ongoing) =>
      var r := UpdateEmergency(b, ongoing, env);
      Then(r, Settle(r.bits, env))
    case BatteryLevel(level) => Res(b.Told(b.sense.(level := level)), [])
    case BatteryState(empty) =>
      if !empty then Res(if b.extras.batteryTimer then b.With(b.extras.(batteryTimer := false)) else b, [])
      else Then(Res(b, [BatteryEmptyInd]),
                if b.extras.batteryTimer then Res(b, [])
                else if env.timerOk then Res(b.With(b.extras.(batteryTimer := true)), [])
                else BatteryDead(b, env))
    case BlockShutdown(internal) => Res(if internal then b.(blocked := true) else b, [])
    case AllowShutdown(internal) =>
      if !internal || !b.blocked then Res(b, [])
      else Settle(b.(blocked := false).Asks(b.asked.(shutdown := false, reboot := false)), env)
    case RunlevelSwitched(runlevel) =>
      Res(if runlevel == RunActDead then b.With(b.extras.(actdeadSwitchDone := true))
          else if runlevel == RunUser then b.With(b.extras.(userSwitchDone := true))
          else b, [])
    case OverheatFires => Overheat(b, env)
    case ChargerFires => Unplugged(b, env)
    case BatteryFires => BatteryDead(b, env)
    case ShutdownFires => Res(b.(shutdownTimer := false), [ShutdownNow(ToRunlevel(b.current))])
  }

  /** update_emergency_call_ongoing */
  function UpdateEmergency(b: Bits, ongoing: bool, env: Env): Res {
    if ongoing == b.emergency then Res(b, [])
    else if ongoing then Res(Cancel(b.(emergency := true)), [])
    else Settle(b.(emergency := false), env)
  }

  function Unplugged(b: Bits, env: Env): Res {
    var r := Settle(b.Told(b.sense.(charger := Disconnected)), env);
    r.(bits := r.bits.With(r.bits.extras.(chargerTimer := NotPending)))
  }

  function Overheat(b: Bits, env: Env): Res {
    var r := Settle(b.(overheated := true), env);
    r.(bits := r.bits.With(r.bits.extras.(overheatTimer := false)))
  }

  function BatteryDead(b: Bits, env: Env): Res {
    var r := Settle(b.(batteryEmpty := true), env);
    r.(bits := r.bits.With(r.bits.extras.(batteryTimer := false)))
  }

  /** A timer fires only when it is pending. */
  predicate CanHappen(b: Bits, e: Event) {
    match e
    case OverheatFires => b.extras.overheatTimer
    case ChargerFires => b.extras.chargerTimer.Pending?
    case BatteryFires => b.extras.batteryTimer
    case ShutdownFires => b.shutdownTimer
    case _ => true
  }

  /** The boot states; USER and ACT_DEAD may come with malfunction information. */
  datatype BootState =
    | BootShutdown
    | BootUser(malf: bool)
    | BootActDead(malf: bool)
    | BootReboot
    | BootTest
    | BootMalf
    | BootUnknown

  /** Whether the malfunction state is entered at boot: never without information
      on it, and in R&D mode only when the boot state itself is MALF. */
  predicate EntersMalf(boot: BootState, env: Env) {
    match boot
    case BootUser(malf) => malf && !env.rdMode
    case BootActDead(malf) => malf && !env.rdMode
    case BootMalf => true
    case BootUnknown => !env.rdMode
    case _ => false
  }

  /** The bits that set_initial_state_bits sets. */
  function InitialBits(boot: BootState): Bits {
    var b := Bits(false, false, false, false, Sense(Unknown, false, false, LEVEL_UNKNOWN),
                  Requests(false, false, false, false), NotSet, false,
                  Extras(false, false, false, NotPending, false, false));
    match boot
    case BootShutdown => b.Told(b.sense.(charger := Disconnected)).Asks(b.asked.(shutdown := true))
    case BootActDead(_) => b.Asks(b.asked.(shutdown := true))
    case BootReboot => b.Asks(b.asked.(reboot := true))
    case BootTest => b.Asks(b.asked.(test := true))
    case _ => b
  }

  /** module_init */
  function Startup(boot: BootState, env: Env): Res {
    Then(Res(InitialBits(boot), if EntersMalf(boot, env) then [EnterMalf] else []), Settle(InitialBits(boot), env))
  }
}
