/** What every message and timer of the device state machine does, told by the bits it
    finds and the bits, state and broadcasts it leaves. */
module DeviceLaws {
  import opened DeviceState
  import opened DeviceRuns

  /** The device is on its way down to `s`, and has said so. */
  predicate GoesDown(r: Res, s: State) {
    && r.bits.current == s && (r.bits.shutdownTimer || r.bits.extras.quit)
    && r.out == [SaveData, StateChange(s)]
  }

  /** Nothing holds the device where it is, and no alarm takes it down. */
  predicate Unhindered(b: Bits) {
    !b.emergency && !b.overheated && !b.batteryEmpty && !b.blocked
  }

  // ----- requests

  /** An accepted reboot request in USER, with nothing else asked for, reboots. */
  lemma RebootReboots(b: Bits, env: Env)
    requires Unhindered(b) && b.current == User && env.privileged && !b.sense.mounted
    requires !b.asked.test && !b.asked.shutdown
    ensures GoesDown(Handle(b, RebootReq, env), Reboot)
  {
  }

  /** An accepted shutdown request in USER shuts down when the charger is known to be
      disconnected and no alarm is set, or the home is encrypted - even if a reboot has
      been asked for before. */
  lemma ShutdownShutsDown(b: Bits, env: Env)
    requires Unhindered(b) && b.current == User && env.privileged && !b.sense.mounted && !b.asked.test
    requires b.sense.charger == Disconnected && (!b.sense.alarm || env.homeEncrypted)
    ensures GoesDown(Handle(b, ShutdownReq, env), Shutdown)
  {
  }

  /** With a charger that may be connected, or an alarm set, the device is wanted in
      ACTDEAD: it reboots if that has been asked for or leads there, and else shuts
      down, to be started in ACTDEAD by the charger. */
  lemma ShutdownGoesToActDead(b: Bits, env: Env)
    requires Unhindered(b) && b.current == User && env.privileged && !b.sense.mounted && !b.asked.test
    requires b.sense.charger != Disconnected || (b.sense.alarm && !env.homeEncrypted)
    ensures GoesDown(Handle(b, ShutdownReq, env), if b.asked.reboot || env.useReboot then Reboot else Shutdown)
  {
  }

  lemma ActdeadFromUser(b: Bits, env: Env)
    requires Unhindered(b) && b.current == User && env.privileged && !b.asked.test
    ensures GoesDown(Handle(b, ActdeadReq, env), if env.useReboot then Reboot else Shutdown)
  {
  }

  /** In ACTDEAD a power-up request reboots to USER if the battery has 3 percent left.
      Otherwise the device stays, and shutdown counts as asked for again. */
  lemma PowerupFromActDead(b: Bits, env: Env)
    requires Unhindered(b) && b.current == ActDead && env.privileged && !b.asked.test && !b.asked.reboot
    ensures var r := Handle(b, PowerupReq, env);
            if b.sense.level < 3 then r.bits.current == ActDead && r.out == [] && r.bits.asked.shutdown
            else GoesDown(r, Reboot) && !r.bits.asked.shutdown && !r.bits.asked.actdead
  {
  }

  /** Requests of unprivileged clients do nothing, and neither SHUTDOWN nor REBOOT is
      accepted while the device is mounted by a PC. */
  lemma RequestsRefused(b: Bits, e: Event, env: Env)
    requires e.ShutdownReq? || e.RebootReq? || e.PowerupReq? || e.ActdeadReq? || e.OtherTelinit?
    ensures !env.privileged ==> Handle(b, e, env) == Res(b, [])
    ensures env.privileged && b.sense.mounted && e.ShutdownReq? ==> Handle(b, e, env) == Res(b, [Denied(Shutdown)])
    ensures env.privileged && b.sense.mounted && e.RebootReq? ==> Handle(b, e, env) == Res(b, [Denied(Reboot)])
    ensures e.OtherTelinit? ==> Handle(b, e, env) == Res(b, [])
  {
  }

  /** Held up by a call or a blocker, a request is remembered as it was made; a later
      shutdown or reboot request withdraws one for ACTDEAD, and a power-up request those
      for shutdown and ACTDEAD. */
  lemma RequestsRemembered(b: Bits, env: Env)
    requires (b.emergency || b.blocked) && !b.overheated && !b.batteryEmpty && env.privileged && !b.sense.mounted
    ensures Handle(b, ShutdownReq, env) == Res(b.Asks(b.asked.(shutdown := true, actdead := false)), [])
    ensures Handle(b, RebootReq, env) == Res(b.Asks(b.asked.(reboot := true, actdead := false)), [])
    ensures Handle(b, PowerupReq, env) == Res(b.Asks(b.asked.(shutdown := false, actdead := false)), [])
    ensures Handle(b, ActdeadReq, env) == Res(b.Asks(b.asked.(actdead := true)), [])
  {
  }

  /** Which state the bits call for, every branch by its own condition. */
  lemma WantedMeans(b: Bits, env: Env)
    ensures b.emergency ==> Wanted(b, env) == b.current
    ensures !b.emergency && (b.overheated || b.batteryEmpty) ==> Wanted(b, env) == Shutdown
    ensures b.blocked && !b.overheated && !b.batteryEmpty ==> Wanted(b, env) == b.current
    ensures var down := b.asked.shutdown && b.sense.charger == Disconnected && (!b.sense.alarm || env.homeEncrypted);
            Unhindered(b) ==>
              && (Wanted(b, env) == Test <==> b.asked.test)
              && (Wanted(b, env) == Shutdown <==> !b.asked.test && !b.asked.actdead && down)
              && (Wanted(b, env) == Reboot <==> !b.asked.test && !b.asked.actdead && !down && b.asked.reboot)
              && (Wanted(b, env) == User <==>
                    !b.asked.test && !b.asked.actdead && !b.asked.shutdown && !b.asked.reboot)
              && Wanted(b, env) in {Test, Shutdown, Reboot, User, ActDead}
  {
  }

  /** SHUTDOWN and REBOOT are entered from everywhere. */
  lemma MoveDown(b: Bits, s: State, env: Env)
    requires s == Shutdown || s == Reboot
    ensures GoesDown(Move(b, s, env), s)
  {
  }

  /** Other states are entered at the start only. */
  lemma MoveFirst(b: Bits, s: State, env: Env)
    requires b.current == NotSet && s in {User, ActDead, Test, Local}
    ensures Move(b, s, env) == Res(b.(current := s), [StateChange(s)])
  {
  }

  /** From ACTDEAD the way leads over REBOOT, if the battery has 3 percent left. */
  lemma MoveFromActDead(b: Bits, s: State, env: Env)
    requires b.current == ActDead && (s == User || s == ActDead)
    ensures b.sense.level >= 3 ==> GoesDown(Move(b, s, env), Reboot)
    ensures b.sense.level < 3 ==> Move(b, s, env) == Res(b.Asks(b.asked.(shutdown := true)), [])
  {
  }

  /** From USER it leads over REBOOT or SHUTDOWN, as the device is set up. */
  lemma MoveFromUser(b: Bits, s: State, env: Env)
    requires b.current == User && (s == User || s == ActDead)
    ensures GoesDown(Move(b, s, env), if env.useReboot then Reboot else Shutdown)
  {
    var without := b.With(b.extras.(actdeadSwitchDone := false));
    MoveDown(without, if env.useReboot then Reboot else Shutdown, env);
    assert Move(b, s, env) == Move(without, if env.useReboot then Reboot else Shutdown, env);
  }

  /** Everything else is not possible and changes nothing. */
  lemma MoveNowhere(b: Bits, s: State, env: Env)
    requires s != Shutdown && s != Reboot
    requires || s in {NotSet, Boot, Malf}
             || (s in {Test, Local} && b.current != NotSet)
             || b.current !in {NotSet, User, ActDead}
    ensures Move(b, s, env) == Res(b, [])
  {
  }

  /** Going down arms the shutdown timer, or leaves the main loop when none can be
      created; a timer that runs already goes on. */
  lemma GoingDownArms(b: Bits, s: State, env: Env)
    requires s == Shutdown || s == Reboot
    ensures var r := Move(b, s, env).bits;
            && (r.shutdownTimer <==> b.shutdownTimer || env.timerOk)
            && (r.extras.quit <==> b.extras.quit || (!b.shutdownTimer && !env.timerOk))
  {
  }

  // ----- the start

  /** The bits that are set at the start call for the state announced first. */
  lemma FirstWanted(boot: BootState, env: Env)
    ensures var b := InitialBits(boot);
            && Wanted(b, env) == (match boot
                                  case BootShutdown => Shutdown
                                  case BootActDead(_) => ActDead
                                  case BootReboot => Reboot
                                  case BootTest => Test
                                  case _ => User)
            && b.current == NotSet && !b.shutdownTimer && Unhindered(b)
  {
  }

  lemma FirstMove(b: Bits, env: Env)
    requires b.current == NotSet && !b.shutdownTimer && Unhindered(b)
    ensures var r := Settle(b, env); var s := Wanted(b, env);
            && r.bits.current == s && Unhindered(r.bits)
            && (r.bits.shutdownTimer <==> (s == Shutdown || s == Reboot) && env.timerOk)
            && r.out == (if s == Shutdown || s == Reboot then [SaveData] else []) + [StateChange(s)]
  {
  }

  lemma FirstOut(malf: bool, down: bool, s: State)
    ensures var out := (if malf then [EnterMalf] else []) + ((if down then [SaveData] else []) + [StateChange(s)]);
            Changes(out) == [s] && (EnterMalf in out <==> malf) && (SaveData in out <==> down)
  {
    ChangesConcat(if malf then [EnterMalf] else [], (if down then [SaveData] else []) + [StateChange(s)]);
    ChangesConcat(if down then [SaveData] else [], [StateChange(s)]);
    assert [EnterMalf][1..] == [] && [SaveData][1..] == [] && [StateChange(s)][1..] == [];
  }

  /** The first state that is announced, by the boot state, and nothing else but an
      order to enter MALF in front of it, and to save data on the way down. */
  lemma FirstState(boot: BootState, env: Env)
    ensures var r := Startup(boot, env);
            var first := match boot
                         case BootShutdown => Shutdown
                         case BootActDead(_) => ActDead
                         case BootReboot => Reboot
                         case BootTest => Test
                         case _ => User;
            && r.bits.current == first && Changes(r.out) == [first]
            && (SaveData in r.out <==> first == Shutdown || first == Reboot)
            && (EnterMalf in r.out <==>
                  || boot == BootMalf
                  || (!env.rdMode && boot in {BootUser(true), BootActDead(true), BootUnknown}))
            && (r.bits.shutdownTimer <==> (first == Shutdown || first == Reboot) && env.timerOk)
            && Unhindered(r.bits)
  {
    FirstWanted(boot, env);
    FirstMove(InitialBits(boot), env);
    var s := Wanted(InitialBits(boot), env);
    FirstOut(EntersMalf(boot, env), s == Shutdown || s == Reboot, s);
  }

  // ----- inputs

  /** A connected charger is believed at once. */
  lemma PluggedIn(b: Bits, env: Env)
    ensures Handle(b, SetCharger(true), env) == Settle(StopCharger(b).Told(b.sense.(charger := Connected)), env)
    ensures Handle(b, SetCharger(true), env).bits.sense.charger == Connected
  {
    SettledKeepsSense(StopCharger(b).Told(b.sense.(charger := Connected)), env);
  }

  /** So is a disconnected one, but not in ACTDEAD. */
  lemma UnpluggedElsewhere(b: Bits, env: Env)
    requires b.current != ActDead
    ensures Handle(b, SetCharger(false), env).bits.sense.charger == Disconnected
  {
    SettledKeepsSense(StopCharger(b).Told(StopCharger(b).sense.(charger := Disconnected)), env);
  }

  /** There it is believed after 5 s, or 15 s if the charger has been heard of before. */
  lemma UnpluggedLater(b: Bits, env: Env)
    requires b.current == ActDead && b.extras.chargerTimer == NotPending && env.timerOk
    ensures Handle(b, SetCharger(false), env)
            == Res(b.With(b.extras.(chargerTimer := Pending(if b.sense.charger == Unknown then 5 else 15))), [])
  {
  }

  lemma SettledKeepsSense(b: Bits, env: Env)
    ensures Settle(b, env).bits.sense == b.sense
  {
  }

  /** When the delay is over the charger is gone. */
  lemma UnpluggedAtLast(b: Bits, env: Env)
    ensures Handle(b, ChargerFires, env).bits.sense.charger == Disconnected
    ensures Handle(b, ChargerFires, env).bits.extras.chargerTimer == NotPending
  {
    SettledKeepsSense(b.Told(b.sense.(charger := Disconnected)), env);
  }

  /** In ACTDEAD the charger that has gone for good shuts the device down, unless an
      alarm is set. */
  lemma UnpluggedActDead(b: Bits, env: Env)
    requires Unhindered(b) && b.current == ActDead && b.asked.shutdown && !b.asked.test && !b.asked.actdead
    requires !b.asked.reboot && (!b.sense.alarm || env.homeEncrypted)
    ensures GoesDown(Handle(b, ChargerFires, env), Shutdown)
  {
  }

  /** So does the end of an alarm, once the charger is known to be disconnected. */
  lemma AlarmGone(b: Bits, env: Env)
    requires Unhindered(b) && b.current == ActDead && b.asked.shutdown && !b.asked.test && !b.asked.actdead
    requires !b.asked.reboot && b.sense.charger == Disconnected
    ensures GoesDown(Handle(b, SetAlarm(false), env), Shutdown)
  {
  }

  /** A report while the delay runs ends it: what was last heard holds in between. */
  lemma ChargerAgain(b: Bits, connected: bool, env: Env)
    requires b.extras.chargerTimer.Pending?
    ensures Handle(b, SetCharger(connected), env) ==
            Handle(b.With(b.extras.(chargerTimer := NotPending)).Told(b.sense.(charger := Disconnected)),
                   SetCharger(connected), env)
  {
  }

  /** The other inputs are remembered. */
  lemma InputsRemembered(b: Bits, x: bool, level: int, env: Env)
    ensures Handle(b, SetUsb(x), env) == Res(b.Told(b.sense.(mounted := x)), [])
    ensures Handle(b, BatteryLevel(level), env) == Res(b.Told(b.sense.(level := level)), [])
    ensures Handle(b, SetAlarm(x), env).bits.sense == b.sense.(alarm := x)
  {
    SettledKeepsSense(b.Told(b.sense.(alarm := x)), env);
  }

  // ----- alarms

  /** Overheating counts only after its delay, or at once when no timer can be had, and
      nothing takes it back. */
  lemma ThermalMeans(b: Bits, env: Env)
    ensures Handle(b, SetThermal(false), env) == Res(b, [])
    ensures b.extras.overheatTimer ==> Handle(b, SetThermal(true), env) == Res(b, [])
    ensures !b.extras.overheatTimer && env.timerOk ==>
              Handle(b, SetThermal(true), env) == Res(b.With(b.extras.(overheatTimer := true)), [])
    ensures !b.extras.overheatTimer && !env.timerOk ==>
              Handle(b, SetThermal(true), env) == Handle(b, OverheatFires, env)
  {
  }

  /** An alarm leads to SHUTDOWN from everywhere, at once if no call goes on. */
  lemma AlarmSettles(b: Bits, env: Env)
    requires b.overheated || b.batteryEmpty
    ensures b.emergency || b.current == Shutdown ==> Settle(b, env) == Res(b, [])
    ensures !b.emergency && b.current != Shutdown ==> GoesDown(Settle(b, env), Shutdown)
    ensures Settle(b, env).bits.overheated == b.overheated && Settle(b, env).bits.batteryEmpty == b.batteryEmpty
  {
  }

  lemma OverheatMeans(b: Bits, env: Env)
    ensures var r := Handle(b, OverheatFires, env);
            && r.bits.overheated && !r.bits.extras.overheatTimer
            && (!b.emergency ==> r.bits.current == Shutdown)
            && (!b.emergency && b.current != Shutdown ==> GoesDown(r, Shutdown))
            && (b.emergency ==> r.bits.current == b.current && r.out == [])
  {
    AlarmSettles(b.(overheated := true), env);
  }

  /** An empty battery is announced each time, and counts after its delay unless it is
      reported not to be empty before. */
  lemma BatteryMeans(b: Bits, env: Env)
    ensures Handle(b, BatteryState(false), env) == Res(b.With(b.extras.(batteryTimer := false)), [])
    ensures b.extras.batteryTimer ==> Handle(b, BatteryState(true), env) == Res(b, [BatteryEmptyInd])
    ensures !b.extras.batteryTimer && env.timerOk ==>
              Handle(b, BatteryState(true), env) == Res(b.With(b.extras.(batteryTimer := true)), [BatteryEmptyInd])
    ensures !b.extras.batteryTimer && !env.timerOk ==>
              Handle(b, BatteryState(true), env).bits == Handle(b, BatteryFires, env).bits
  {
  }

  lemma EmptyMeans(b: Bits, env: Env)
    ensures var r := Handle(b, BatteryFires, env);
            && r.bits.batteryEmpty && !r.bits.extras.batteryTimer
            && (!b.emergency ==> r.bits.current == Shutdown)
            && (!b.emergency && b.current != Shutdown ==> GoesDown(r, Shutdown))
            && (b.emergency ==> r.bits.current == b.current && r.out == [])
  {
    AlarmSettles(b.(batteryEmpty := true), env);
  }

  // ----- calls and blockers

  /** A call stops the shutdown timer and changes nothing else. */
  lemma CallBegins(b: Bits, env: Env)
    requires !b.emergency
    ensures Handle(b, SetEmergency(true), env) == Res(b.(emergency := true, shutdownTimer := false), [])
  {
  }

  /** When it ends, what has been asked for meanwhile comes to pass. */
  lemma CallEnds(b: Bits, env: Env)
    requires b.emergency && b.current == User && !b.blocked && !b.asked.test && !b.asked.actdead
    requires b.sense.charger == Disconnected && (!b.sense.alarm || env.homeEncrypted)
    ensures var r := Handle(b, SetEmergency(false), env); var down := b.overheated || b.batteryEmpty;
            && !r.bits.emergency
            && (b.asked.shutdown || down ==> GoesDown(r, Shutdown))
            && (b.asked.reboot && !b.asked.shutdown && !down ==> GoesDown(r, Reboot))
            && (!b.asked.shutdown && !b.asked.reboot && !down ==> r == Res(b.(emergency := false), []))
  {
    EndOfCall(b, env);
  }

  lemma EndOfCall(b: Bits, env: Env)
    requires b.emergency && b.current == User && !b.blocked && !b.asked.test && !b.asked.actdead
    requires b.sense.charger == Disconnected && (!b.sense.alarm || env.homeEncrypted)
    ensures var quiet := b.(emergency := false); var next := Wanted(quiet, env);
            && Handle(b, SetEmergency(false), env) == Settle(quiet, env)
            && next == (if b.overheated || b.batteryEmpty || b.asked.shutdown then Shutdown
                        else if b.asked.reboot then Reboot else User)
  {
  }

  /** When the last blocker leaves, shutdown and reboot requests made meanwhile are
      forgotten; a device in USER that nothing else is asked of stays there. External
      messages do nothing. */
  lemma BlockersMean(b: Bits, env: Env)
    ensures Handle(b, BlockShutdown(true), env) == Res(b.(blocked := true), [])
    ensures Handle(b, BlockShutdown(false), env) == Res(b, [])
    ensures Handle(b, AllowShutdown(false), env) == Res(b, [])
    ensures !b.blocked ==> Handle(b, AllowShutdown(true), env) == Res(b, [])
    ensures b.blocked ==>
              !Handle(b, AllowShutdown(true), env).bits.blocked && !Handle(b, AllowShutdown(true), env).bits.asked.reboot
    ensures b.blocked && b.current == User && !b.asked.test && !b.asked.actdead && !b.overheated && !b.batteryEmpty ==>
              Handle(b, AllowShutdown(true), env)
              == Res(b.(blocked := false).Asks(b.asked.(shutdown := false, reboot := false)), [])
  {
  }

  // ----- the end

  /** The shutdown timer sends SHUTDOWN with the runlevel of the state: shutdown in
      SHUTDOWN, reboot in REBOOT. */
  lemma ShutdownSends(b: Bits, env: Env)
    ensures b.current == Shutdown ==>
              Handle(b, ShutdownFires, env) == Res(b.(shutdownTimer := false), [ShutdownNow(RunShutdown)])
    ensures b.current == Reboot ==>
              Handle(b, ShutdownFires, env) == Res(b.(shutdownTimer := false), [ShutdownNow(RunReboot)])
  {
  }

  /** Over whole runs: every SHUTDOWN message is sent in SHUTDOWN with that runlevel, or
      in REBOOT with that one. */
  lemma {:induction false} LegalRunlevels(from: State, out: seq<Out>, i: nat)
    requires Legal(from, out) && i < |out| && out[i].ShutdownNow?
    ensures var s := Final(from, out[..i]);
            (s == Shutdown && out[i].runlevel == RunShutdown) || (s == Reboot && out[i].runlevel == RunReboot)
    decreases |out|
  {
    if i > 0 {
      assert out[..i][0] == out[0] && out[..i][1..] == out[1..][..i - 1];
      LegalRunlevels(if out[0].StateChange? then out[0].state else from, out[1..], i - 1);
    }
  }

  lemma RunlevelsOfRuns(boot: BootState, env: Env, turns: seq<Turn>, i: nat)
    requires PossibleFromStart(boot, env, turns)
    requires var out := FromStart(boot, env, turns).out; i < |out| && out[i].ShutdownNow?
    ensures var out := FromStart(boot, env, turns).out; var s := Final(NotSet, out[..i]);
            (s == Shutdown && out[i].runlevel == RunShutdown) || (s == Reboot && out[i].runlevel == RunReboot)
  {
    StartStep(boot, env, turns);
    LegalRunlevels(NotSet, FromStart(boot, env, turns).out, i);
  }
}
