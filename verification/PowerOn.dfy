/** The power-on time accountant: modules/powerontimer_backend.c and the events
    that modules/powerontimer.c feeds it. Seconds are unbounded integers. */
module PowerOn {
  import opened DeviceState
  import opened DeviceRuns

  const MIN := 60
  const HOUR := 60 * MIN
  const DAY := 24 * HOUR

  /** The stored block; `uptime` is when `poweron` was last brought up to date. */
  datatype Cal = Cal(poweron: int, uptime: int, reboots: int, updates: int)

  /** The static variables of the backend. */
  datatype Pot = Pot(cal: Cal, inUser: bool, pending: bool)

  /** pot_update_lim: the parameter is unsigned, so a negative count is large. */
  function Limit(poweron: int): int {
    if poweron < 0 then DAY
    else if poweron < 8 * HOUR then 15 * MIN
    else if poweron < 7 * DAY then HOUR
    else if poweron < 30 * DAY then 6 * HOUR
    else DAY
  }

  /** The state after pot_update_cal at uptime `now`. */
  function Updated(p: Pot, now: int, user: bool, force: bool): Pot {
    var dropped := now < p.cal.uptime;
    var cal := if dropped then p.cal.(reboots := p.cal.reboots + 1) else p.cal;
    var spent := if !p.inUser then 0 else if dropped then now else now - p.cal.uptime;
    var pending := p.pending || dropped || (user && !p.inUser);
    if force || (spent > 0 && (pending || spent >= Limit(cal.poweron))) then
      Pot(cal.(poweron := cal.poweron + spent, uptime := now, updates := cal.updates + 1), user, false)
    else if pending || spent >= Limit(cal.poweron) then
      Pot(cal.(uptime := now), user, true)
    else
      Pot(cal, user, false)
  }

  /** pot_get_poweron_secs */
  function Query(p: Pot, now: int): int {
    p.cal.poweron + if !p.inUser then 0 else if now < p.cal.uptime then now else now - p.cal.uptime
  }

  class Backend {
    var cal: Cal
    var inUser: bool
    var pending: bool

    function Now(): Pot
      reads this
    {
      Pot(cal, inUser, pending)
    }

    /** `cal` is what the first call reads from storage. */
    constructor (cal: Cal)
      ensures Now() == Pot(cal, false, false)
    {
      this.cal, inUser, pending := cal, false, false;
    }

    /** pot_update_cal */
    method UpdateCal(now: int, user: bool, force: bool)
      modifies this
      ensures Now() == Updated(old(Now()), now, user, force)
    {
      var dif := now - cal.uptime;
      if dif < 0 {
        cal := cal.(reboots := cal.reboots + 1);
        dif := now;
        pending := true;
      }
      if !inUser {
        dif := 0;
        if user {
          pending := true;
        }
      }
      var lim := Limit(cal.poweron);
      if force || pending || dif >= lim {
        cal := cal.(uptime := now);
        if force || dif > 0 {
          cal := cal.(updates := cal.updates + 1, poweron := cal.poweron + dif);
          pending := false;
        } else {
          pending := true;
        }
      }
      inUser := user;
    }

    /** pot_get_poweron_secs: after the uptime has dropped all of it is new. */
    method GetPoweronSecs(now: int) returns (secs: int)
      ensures !inUser ==> secs == cal.poweron
      ensures inUser && cal.uptime <= now ==> secs == cal.poweron + now - cal.uptime
      ensures inUser && now < cal.uptime ==> secs == cal.poweron + now
      ensures secs == Query(Now(), now)
    {
      var dif := now - cal.uptime;
      if dif < 0 {
        dif := now;
      }
      if !inUser {
        dif := 0;
      }
      secs := cal.poweron + dif;
    }
  }

  // ----- one call

  /** Within a boot, from the first call on, the stored uptime is not ahead. */
  predicate SameBoot(p: Pot, now: int) {
    p.cal.uptime <= now
  }

  /** Stored plus unsaved time. */
  function Ledger(p: Pot, now: int): int {
    p.cal.poweron + if p.inUser then now - p.cal.uptime else 0
  }

  /** A call at `now` neither adds nor loses time, except that leaving user mode
      loses the unsaved part exactly when nothing makes the call save it; the
      loss is then below the write limit. */
  lemma UpdateConserves(p: Pot, now: int, user: bool, force: bool)
    requires SameBoot(p, now)
    ensures var q := Updated(p, now, user, force); var unsaved := Ledger(p, now) - p.cal.poweron;
            && SameBoot(q, now) && q.cal.reboots == p.cal.reboots
            && (Ledger(q, now) == Ledger(p, now) <==>
                user || force || p.pending || unsaved == 0 || unsaved >= Limit(p.cal.poweron))
            && Ledger(p, now) - Limit(p.cal.poweron) < Ledger(q, now) <= Ledger(p, now)
            && Ledger(q, now) - q.cal.poweron < Limit(p.cal.poweron)
  {
  }

  /** A query reports what a forced save at the same moment would store. */
  lemma QueryIsSaved(p: Pot, now: int, user: bool)
    ensures Query(p, now) == Updated(p, now, user, true).cal.poweron
  {
  }

  /** A call that loses ten minutes: user mode is left with nothing that forces a
      save, nothing pending, and less than a quarter of an hour unsaved. */
  lemma UpdateCanLose()
    ensures var p := Pot(Cal(0, 0, 0, 1), true, false); var q := Updated(p, 600, false, false);
            SameBoot(p, 600) && Ledger(p, 600) == 600 && Ledger(q, 600) == 0
  {
  }

  /** The first call after a boot: a drop of the uptime is counted as a reboot
      and nothing else changes, since the device is not in user mode yet. */
  lemma FirstUpdate(cal: Cal, now: int, user: bool, force: bool)
    ensures var q := Updated(Pot(cal, false, false), now, user, force);
            && SameBoot(q, now) && Ledger(q, now) == cal.poweron
            && q.cal.reboots == cal.reboots + if now < cal.uptime then 1 else 0
  {
  }

  /** How much time may be left unsaved: a quarter of an hour until the device has
      been on for 8 hours, then an hour until 7 days, 6 hours until 30 days, and a
      day from then on, and also when the total is broken. */
  lemma LimitMeans(poweron: int)
    ensures Limit(poweron) == 900 <==> 0 <= poweron < 28800
    ensures Limit(poweron) == 3600 <==> 28800 <= poweron < 604800
    ensures Limit(poweron) == 21600 <==> 604800 <= poweron < 2592000
    ensures Limit(poweron) == 86400 <==> poweron < 0 || 2592000 <= poweron
  {
  }

  /** When a call writes the block: when it is forced to, or when there is time to
      save and the uptime has dropped, user mode begins, an earlier call had nothing
      to save, or the limit is reached. Then all of that time gets into the block;
      otherwise none does. */
  lemma UpdateWrites(p: Pot, now: int, user: bool, force: bool)
    ensures var q := Updated(p, now, user, force);
            var spent := if !p.inUser then 0 else if now < p.cal.uptime then now else now - p.cal.uptime;
            var writes := force || (spent > 0 && (p.pending || now < p.cal.uptime || spent >= Limit(p.cal.poweron)));
            && (if writes then q.cal.updates == p.cal.updates + 1 && q.cal.poweron == p.cal.poweron + spent
                else q.cal.updates == p.cal.updates && q.cal.poweron == p.cal.poweron)
            && q.cal.reboots == p.cal.reboots + (if now < p.cal.uptime then 1 else 0)
            && q.inUser == user
            && (q.pending <==> !writes && (p.pending || now < p.cal.uptime || (user && !p.inUser)))
            && q.cal.uptime == if writes || q.pending then now else p.cal.uptime
  {
    LimitMeans(p.cal.poweron);
  }

  // ----- runs within one boot

  /** What reaches the power-on timer module, with the uptime at which it does. */
  datatype Op = StateInd(at: int, state: State) | Wakeup(at: int)

  /** The backend and the module's own user mode flag. */
  datatype Timer = Timer(pot: Pot, userMode: bool)

  function Handled(t: Timer, op: Op): Timer {
    match op
    case StateInd(at, s) =>
      var user := s == User;
      Timer(Updated(t.pot, at, user, s == Shutdown || s == Reboot || s == Malf), user)
    case Wakeup(at) => Timer(Updated(t.pot, at, t.userMode, false), t.userMode)
  }

  /** module_init calls the backend once at uptime `boot`. */
  function Loaded(cal: Cal, boot: int): Timer {
    Timer(Updated(Pot(cal, false, false), boot, false, false), false)
  }

  function RunOps(t: Timer, ops: seq<Op>): Timer {
    if ops == [] then t else Handled(RunOps(t, ops[..|ops| - 1]), ops[|ops| - 1])
  }

  function LastTime(boot: int, ops: seq<Op>): int {
    if ops == [] then boot else ops[|ops| - 1].at
  }

  predicate TimesAscend(boot: int, ops: seq<Op>) {
    ops == [] ||
    (TimesAscend(boot, ops[..|ops| - 1]) && LastTime(boot, ops[..|ops| - 1]) <= ops[|ops| - 1].at)
  }

  /** The state announced last. */
  function LastState(ops: seq<Op>): State {
    if ops == [] then NotSet
    else if ops[|ops| - 1].StateInd? then ops[|ops| - 1].state
    else LastState(ops[..|ops| - 1])
  }

  /** Total time between the announcements of USER and of the next state. */
  function UserTime(boot: int, ops: seq<Op>): int {
    if ops == [] then 0
    else
      var init := ops[..|ops| - 1];
      UserTime(boot, init) + if LastState(init) == User then ops[|ops| - 1].at - LastTime(boot, init) else 0
  }

  /** The states announced, in order. */
  function StatesOf(ops: seq<Op>): seq<State> {
    if ops == [] then []
    else StatesOf(ops[..|ops| - 1]) + if ops[|ops| - 1].StateInd? then [ops[|ops| - 1].state] else []
  }

  /** User mode is left only for states that force a save. */
  predicate ExitsForced(ops: seq<Op>) {
    ops == [] ||
    (ExitsForced(ops[..|ops| - 1]) &&
     (LastState(ops[..|ops| - 1]) == User && ops[|ops| - 1].StateInd? ==>
        ops[|ops| - 1].state in {User, Shutdown, Reboot, Malf}))
  }

  lemma {:induction false} RunConserves(cal: Cal, boot: int, ops: seq<Op>)
    requires TimesAscend(boot, ops) && ExitsForced(ops)
    ensures var t := RunOps(Loaded(cal, boot), ops); var now := LastTime(boot, ops);
            && SameBoot(t.pot, now)
            && t.pot.inUser == t.userMode == (LastState(ops) == User)
            && Ledger(t.pot, now) == cal.poweron + UserTime(boot, ops)
            && t.pot.cal.reboots == cal.reboots + if boot < cal.uptime then 1 else 0
  {
    if ops == [] {
      FirstUpdate(cal, boot, false, false);
    } else {
      var init, op := ops[..|ops| - 1], ops[|ops| - 1];
      RunConserves(cal, boot, init);
      var p := RunOps(Loaded(cal, boot), init).pot;
      var user := if op.StateInd? then op.state == User else LastState(init) == User;
      var force := op.StateInd? && (op.state == Shutdown || op.state == Reboot || op.state == Malf);
      UpdateConserves(p, op.at, user, force);
    }
  }

  /** Conservation: as long as user mode is left only with a forced save, the
      time reported at any later moment is what was stored at boot plus all the
      time spent in user mode, a final forced save stores exactly that, and a
      dropped uptime is counted as one reboot however many calls follow. */
  lemma PowerOnConserved(cal: Cal, boot: int, ops: seq<Op>, now: int)
    requires TimesAscend(boot, ops) && ExitsForced(ops) && LastTime(boot, ops) <= now
    ensures var t := RunOps(Loaded(cal, boot), ops);
            var total := cal.poweron + UserTime(boot, ops)
                         + if LastState(ops) == User then now - LastTime(boot, ops) else 0;
            && Query(t.pot, now) == total
            && Updated(t.pot, now, t.userMode, true).cal.poweron == total
            && t.pot.cal.reboots == cal.reboots + if boot < cal.uptime then 1 else 0
  {
    RunConserves(cal, boot, ops);
  }

  // ----- joined with the state machine

  lemma {:induction false} WalkForces(ops: seq<Op>, states: seq<State>)
    requires Walk(NotSet, states) && StatesOf(ops) <= states
    ensures ExitsForced(ops)
    ensures LastState(ops) == if StatesOf(ops) == [] then NotSet else StatesOf(ops)[|StatesOf(ops)| - 1]
  {
    if ops != [] {
      var init, op := ops[..|ops| - 1], ops[|ops| - 1];
      var n := |StatesOf(init)|;
      assert StatesOf(init) <= StatesOf(ops);
      WalkForces(init, states);
      if op.StateInd? {
        assert StatesOf(ops)[n] == op.state == states[n];
        WalkAt(NotSet, states, n);
      }
    }
  }

  /** Across modules: in the default build every run of the state machine leaves
      user mode with a forced save only, so however its announcements are mixed
      with wakeups no power-on time is ever lost. */
  lemma {:induction false} PowerOnFollowsState(start: BootState, env: Env, turns: seq<Turn>, cal: Cal, boot: int,
                                               ops: seq<Op>, now: int)
    requires PossibleFromStart(start, env, turns)
    requires StatesOf(ops) <= Changes(FromStart(start, env, turns).out)
    requires TimesAscend(boot, ops) && LastTime(boot, ops) <= now
    ensures Query(RunOps(Loaded(cal, boot), ops).pot, now) ==
            cal.poweron + UserTime(boot, ops) + if LastState(ops) == User then now - LastTime(boot, ops) else 0
  {
    StartStep(start, env, turns);
    LegalChanges(NotSet, FromStart(start, env, turns).out);
    WalkForces(ops, Changes(FromStart(start, env, turns).out));
    PowerOnConserved(cal, boot, ops, now);
  }
}
