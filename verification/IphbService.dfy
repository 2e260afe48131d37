/** The handlers of modules/iphb.c as one run: what reaches the scheduler, and when.
    The deadline guarantee of IphbRuns thus holds of the scheduler object. */
module IphbService {
  import opened TimeVals
  import opened IphbRequest
  import opened IphbScan
  import opened IphbRuns
  import opened IphbPromises
  import opened Iphb

  class Service {
    const scheduler: Scheduler

    /** How late a timer may be dispatched. */
    ghost const jitter: nat
    /** The start, all that has happened since, and the times of the last event and
        of the last heartbeat. */
    ghost const start: Sched
    ghost var run: seq<Event>
    ghost var time: int
    ghost var lastBeat: int

    /** The scheduler is where the run has taken it. */
    ghost predicate Valid()
      reads this, scheduler, scheduler.clients
    {
      && scheduler.Valid()
      && Initial(start) && Reaches(start, run, Now(), jitter)
    }

    ghost function Now(): Sched
      reads this, scheduler
    {
      scheduler.Model(time, lastBeat)
    }

    /** Heartbeats come at most 12 s apart, and no pending timer is more than `jitter`
        late at `now`. */
    ghost predicate Prompt(now: TimeVal)
      reads this, scheduler
    {
      now.Normal() && time <= now.Micros() && Enabled(Now(), Pass(now.Micros() - time), jitter)
    }

    constructor (now: TimeVal, jitter: nat)
      requires now.Normal() && now.Micros() > 0
      ensures Valid() && run == [] && time == lastBeat == now.Micros() && this.jitter == jitter
      ensures fresh(scheduler)
    {
      scheduler := new Scheduler();
      this.jitter, run := jitter, [];
      time, lastBeat := now.Micros(), now.Micros();
      start := Sched(now.Micros(), now.Micros(), [], Off, Off);
    }

    /** The deadline guarantee, for the clients in the scheduler's list. */
    lemma Deadlines()
      requires Valid()
      ensures forall c :: c in scheduler.list && c.Waiting() && c.wakeup ==>
                            && NextScan(Now()) <= Max(c.until, c.asked + LATER)
                            && time <= Max(c.until, c.asked + LATER) + jitter
      ensures forall c :: c in scheduler.list && c.Waiting() ==> time <= Max(c.until, c.asked) + HEARTBEAT
    {
      NeverOverdue(start, run, Now(), jitter);
      NobodyIsForgotten(start, run, Now(), jitter);
    }

    /** The promise for one request, found anywhere in what has reached the scheduler:
        as long as it is open it is served in time if it asked for a wakeup from
        suspend. */
    lemma Serves(before: seq<Event>, ask: Event, after: seq<Event>, id: nat)
      requires Valid() && run == before + [ask] + after
      requires Asks(ask, id) && !Cancels(ask.req) && ask.req.wakeup && Open(Apply(After(start, before), ask), after, id)
      ensures var asked := After(start, before).now;
              && NextScan(Now()) <= Max(Deadline(asked, ask.req), asked + 200_000)
              && time <= Max(Deadline(asked, ask.req), asked + 200_000) + jitter
    {
      AskedIsServed(start, before, ask, after, Now(), id, jitter);
    }

    /** Time has passed and `e` has happened. */
    ghost method Record(before: Sched, now: int, e: Event)
      requires scheduler.Valid() && Initial(start) && Reaches(start, run, before, jitter)
      requires before.now <= now && Enabled(before, Pass(now - before.now), jitter)
      requires Enabled(before.(now := now), e, jitter)
      requires var after := Apply(before.(now := now), e);
               after.now == now && scheduler.Model(now, after.lastBeat) == after
      modifies this`run, this`time, this`lastBeat
      ensures Valid() && run == old(run) + [Pass(now - before.now), e] && time == now
      ensures Now() == Apply(before.(now := now), e)
    {
      var after := Apply(before.(now := now), e);
      ReachesSnoc(start, run, before, Pass(now - before.now), jitter);
      ReachesSnoc(start, run + [Pass(now - before.now)], before.(now := now), e, jitter);
      assert run + [Pass(now - before.now)] + [e] == run + [Pass(now - before.now), e];
      run := run + [Pass(now - before.now), e];
      time, lastBeat := now, after.lastBeat;
    }

    /** DSM_MSGTYPE_HEARTBEAT */
    method OnHeartbeat(now: TimeVal, sys: int, failing: set<nat>)
      requires Valid() && Prompt(now)
      modifies this`run, this`time, this`lastBeat, scheduler, scheduler.clients
      ensures Valid() && time == now.Micros()
      ensures run == old(run) + [Pass(now.Micros() - old(time)), Heartbeat(failing)]
    {
      ghost var before := Now();
      scheduler.HandleHeartbeat(now, sys, failing, lastBeat);
      Record(before, now.Micros(), Heartbeat(failing));
    }

    /** The wakeup timer, dispatched when it is due. */
    method OnWakeupTimeout(now: TimeVal, sys: int, failing: set<nat>)
      requires Valid() && Prompt(now)
      requires scheduler.wakeupTimer.At? && scheduler.wakeupTimer.due <= now.Micros()
      modifies this`run, this`time, this`lastBeat, scheduler, scheduler.clients
      ensures Valid() && time == now.Micros()
      ensures run == old(run) + [Pass(now.Micros() - old(time)), WakeTimerFires(failing)]
    {
      ghost var before := Now();
      scheduler.HandleWakeupTimeout(now, sys, failing, lastBeat);
      Record(before, now.Micros(), WakeTimerFires(failing));
    }

    /** The delayed check, dispatched when it is due. */
    method OnLaterTimeout(now: TimeVal, sys: int, failing: set<nat>)
      requires Valid() && Prompt(now)
      requires scheduler.laterTimer.At? && scheduler.laterTimer.due <= now.Micros()
      modifies this`run, this`time, this`lastBeat, scheduler, scheduler.clients
      ensures Valid() && time == now.Micros()
      ensures run == old(run) + [Pass(now.Micros() - old(time)), LaterTimerFires(failing)]
    {
      ghost var before := Now();
      scheduler.HandleLaterTimeout(now, sys, failing, lastBeat);
      Record(before, now.Micros(), LaterTimerFires(failing));
    }

    /** A wait request of a known client. */
    method OnWait(i: nat, req: WaitReq, now: TimeVal)
      requires Valid() && Prompt(now) && now.sec >= 0 && i < |scheduler.clients|
      modifies this`run, this`time, this`lastBeat, scheduler, scheduler.clients
      ensures Valid() && time == now.Micros()
      ensures var c := old(scheduler.list[i]); var wait := Asked(req, c.external, c.wakeup);
              run == old(run) + [Pass(now.Micros() - old(time)),
                                 if c.external then ExternalWait(c.id, wait) else InternalWait(c.id, wait)]
    {
      ghost var before, c := Now(), scheduler.list[i];
      ghost var wait := Asked(req, c.external, c.wakeup);
      assert c in before.clients;
      OneOfEachId(before.clients, c);
      scheduler.HandleWait(i, req, now, lastBeat);
      Record(before, now.Micros(), if c.external then ExternalWait(c.id, wait) else InternalWait(c.id, wait));
    }

    /** The first wait request of an internal client. */
    method OnFirstWait(id: nat, req: WaitReq, now: TimeVal)
      requires Valid() && Prompt(now) && now.sec >= 0 && !HasId(scheduler.list, id)
      modifies this`run, this`time, this`lastBeat, scheduler, scheduler.clients
      ensures Valid() && time == now.Micros()
      ensures run == old(run) + [Pass(now.Micros() - old(time)), InternalWait(id, Asked(req, false, false))]
    {
      ghost var before := Now();
      scheduler.HandleFirstWait(id, req, now, lastBeat);
      Record(before, now.Micros(), InternalWait(id, Asked(req, false, false)));
    }

    /** A new external client. */
    method OnConnect(id: nat, now: TimeVal)
      requires Valid() && Prompt(now) && !HasId(scheduler.list, id)
      modifies this`run, this`time, this`lastBeat, scheduler
      ensures Valid() && time == now.Micros()
      ensures run == old(run) + [Pass(now.Micros() - old(time)), Connect(id)]
    {
      ghost var before := Now();
      scheduler.HandleConnect(id, now, lastBeat);
      Record(before, now.Micros(), Connect(id));
    }

    /** A client that has gone or broken the protocol. */
    method OnDisconnect(i: nat, now: TimeVal)
      requires Valid() && Prompt(now) && i < |scheduler.clients|
      modifies this`run, this`time, this`lastBeat, scheduler
      ensures Valid() && time == now.Micros()
      ensures run == old(run) + [Pass(now.Micros() - old(time)), Disconnect(old(scheduler.list[i].id))]
    {
      ghost var before, id := Now(), scheduler.list[i].id;
      scheduler.HandleDisconnect(i, now, lastBeat);
      Record(before, now.Micros(), Disconnect(id));
    }
  }

  lemma OneOfEachId(cs: seq<Client>, c: Client)
    requires DistinctIds(cs) && c in cs
    ensures forall d :: d in cs && d.id == c.id ==> d == c
  {
    forall d | d in cs && d.id == c.id
      ensures d == c
    {
      var i :| 0 <= i < |cs| && cs[i] == c;
      var j :| 0 <= j < |cs| && cs[j] == d;
    }
  }

  /** A run goes on by one event. */
  lemma {:induction false} ReachesSnoc(s: Sched, run: seq<Event>, t: Sched, e: Event, jitter: nat)
    requires Reaches(s, run, t, jitter) && Enabled(t, e, jitter)
    ensures Reaches(s, run + [e], Apply(t, e), jitter)
    decreases |run|
  {
    if run == [] {
      assert run + [e] == [e] && [e][1..] == [];
    } else {
      ReachesSnoc(Apply(s, run[0]), run[1..], t, e, jitter);
      assert (run + [e])[1..] == run[1..] + [e];
    }
  }
}
