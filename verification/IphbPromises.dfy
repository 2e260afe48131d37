/** What the scheduler promises for a single request, told by the events of the run:
    who asked for what, when, and which scans have reported to whom since. */
module IphbPromises {
  import opened TimeVals
  import opened IphbRequest
  import opened IphbScan
  import opened IphbRuns

  /** The state that a run leads to. */
  function After(s: Sched, run: seq<Event>): Sched
    decreases |run|
  {
    if run == [] then s else After(Apply(s, run[0]), run[1..])
  }

  predicate Asks(e: Event, id: nat) {
    (e.ExternalWait? || e.InternalWait?) && e.id == id
  }

  predicate IsScan(e: Event) {
    e.Heartbeat? || e.WakeTimerFires? || e.LaterTimerFires?
  }

  /** The event is a scan that sends a wakeup message to the client. */
  predicate Reports(s: Sched, e: Event, id: nat) {
    IsScan(e) && exists w :: w in Woken(s.clients, s.now) && w.0 == id
  }

  /** The last request of the client is neither answered nor superseded, and the client
      has not gone. */
  predicate Open(s: Sched, run: seq<Event>, id: nat)
    decreases |run|
  {
    run == [] ||
    (&& !Asks(run[0], id) && run[0] != Disconnect(id) && !Reports(s, run[0], id)
     && Open(Apply(s, run[0]), run[1..], id))
  }

  /** The client has not asked for anything again. */
  predicate Unasked(run: seq<Event>, id: nat) {
    forall e :: e in run ==> !Asks(e, id)
  }

  // ----- runs and their parts

  lemma {:induction false} ReachesSplit(s: Sched, a: seq<Event>, b: seq<Event>, t: Sched, jitter: nat)
    requires Reaches(s, a + b, t, jitter)
    ensures Reaches(s, a, After(s, a), jitter) && Reaches(After(s, a), b, t, jitter)
    decreases |a|
  {
    if a == [] {
      assert a + b == b;
    } else {
      assert (a + b)[1..] == a[1..] + b;
      ReachesSplit(Apply(s, a[0]), a[1..], b, t, jitter);
    }
  }

  lemma {:induction false} TimeGrows(s: Sched, run: seq<Event>, t: Sched, jitter: nat)
    requires Reaches(s, run, t, jitter)
    ensures s.now <= t.now
    decreases |run|
  {
    if run != [] {
      TimeGrows(Apply(s, run[0]), run[1..], t, jitter);
    }
  }

  /** The parts of a run around a request. */
  lemma AroundAsk(s: Sched, before: seq<Event>, ask: Event, after: seq<Event>, t: Sched, jitter: nat)
    requires Initial(s) && Reaches(s, before + [ask] + after, t, jitter)
    ensures var mid := After(s, before);
            && Inv(mid, jitter) && mid.now > 0 && Enabled(mid, ask, jitter)
            && Inv(Apply(mid, ask), jitter) && Reaches(Apply(mid, ask), after, t, jitter)
  {
    assert before + [ask] + after == before + ([ask] + after);
    ReachesSplit(s, before, [ask] + after, t, jitter);
    var mid := After(s, before);
    assert ([ask] + after)[0] == ask && ([ask] + after)[1..] == after;
    RunInv(s, before, mid, jitter);
    TimeGrows(s, before, mid, jitter);
    StepInv(mid, ask, jitter);
  }

  // ----- a client with an open request

  lemma {:induction false} WithoutKeeps(cs: seq<Client>, id: nat, c: Client)
    requires c in cs && c.id != id
    ensures c in Without(cs, id)
  {
    if cs[0].id != id && cs[0] != c {
      WithoutKeeps(cs[1..], id, c);
    }
  }

  lemma RequestKeeps(cs: seq<Client>, id: nat, req: Wait, now: int, c: Client)
    requires c in cs && c.id != id
    ensures c in RequestAt(cs, id, req, now)
  {
    var i :| 0 <= i < |cs| && cs[i] == c;
    assert RequestAt(cs, id, req, now)[i] == c;
  }

  /** Nothing changes it but what its own client does or a scan that reports. */
  lemma EventKeeps(s: Sched, e: Event, c: Client)
    requires DistinctIds(s.clients) && c in s.clients && c.asked != 0
    requires !Asks(e, c.id) && e != Disconnect(c.id) && !Reports(s, e, c.id)
    ensures c in Apply(s, e).clients
  {
    match e
    case Heartbeat(failing) => ScanIsExact(s.clients, s.now, failing, c);
    case WakeTimerFires(failing) => ScanIsExact(s.clients, s.now, failing, c);
    case LaterTimerFires(failing) => ScanIsExact(s.clients, s.now, failing, c);
    case ExternalWait(id, req) => RequestKeeps(s.clients, id, req, s.now, c);
    case InternalWait(id, req) =>
      var cs := if HasId(s.clients, id) then s.clients else s.clients + [NewClient(id, false)];
      RequestKeeps(cs, id, req, s.now, c);
    case Disconnect(id) => WithoutKeeps(s.clients, id, c);
    case _ =>
  }

  lemma {:induction false} RunKeeps(s: Sched, run: seq<Event>, t: Sched, jitter: nat, c: Client)
    requires Inv(s, jitter) && Reaches(s, run, t, jitter) && Open(s, run, c.id)
    requires c in s.clients && c.asked != 0
    ensures c in t.clients
    decreases |run|
  {
    if run != [] {
      EventKeeps(s, run[0], c);
      StepInv(s, run[0], jitter);
      RunKeeps(Apply(s, run[0]), run[1..], t, jitter, c);
    }
  }

  /** A request is recorded as it was made: the wish to be woken from suspend, the time
      and the window. */
  lemma AskRecords(s: Sched, e: Event, id: nat, jitter: nat) returns (c: Client)
    requires Asks(e, id) && Enabled(s, e, jitter) && s.now > 0
    ensures c in Apply(s, e).clients && c.id == id && c.wakeup == e.req.wakeup
    ensures var w := RequestWindow(s.now, e.req.mintime, e.req.maxtime);
            c.asked == w.asked && c.from == w.from && c.until == w.until
  {
    var cs := if e.ExternalWait? || HasId(s.clients, id) then s.clients else s.clients + [NewClient(id, false)];
    assert !(e.ExternalWait? || HasId(s.clients, id)) ==> cs[|s.clients|].id == id;
    var d :| d in cs && d.id == id;
    var i :| 0 <= i < |cs| && cs[i] == d;
    c := RequestAt(cs, id, e.req, s.now)[i];
    assert c in RequestAt(cs, id, e.req, s.now);
  }

  /** The second at which a slot of the given period comes next after `now`. */
  function NextSlotSecond(now: int, period: int): int
    requires period > 0
  {
    period * (now / MILLION / period + 1)
  }

  /** The instant by which a request must be served, and the earliest at which it may. */
  function Deadline(now: int, req: Wait): int {
    if req.mintime == req.maxtime then NextSlotSecond(now, AdjustPeriod(req.mintime)) * MILLION
    else now + req.maxtime * MILLION
  }

  function Earliest(now: int, req: Wait): int {
    if req.mintime == req.maxtime then NextSlotSecond(now, AdjustPeriod(req.mintime)) * MILLION
    else if req.mintime < req.maxtime then now + req.mintime * MILLION
    else now + req.maxtime * MILLION
  }

  predicate Cancels(req: Wait) {
    req.mintime == 0 && req.maxtime == 0
  }

  /** While the request is open its client is in the list as it asked. */
  lemma StillListed(s: Sched, before: seq<Event>, ask: Event, after: seq<Event>, t: Sched, id: nat, jitter: nat)
    returns (c: Client)
    requires Initial(s) && Reaches(s, before + [ask] + after, t, jitter)
    requires Asks(ask, id) && !Cancels(ask.req) && Open(Apply(After(s, before), ask), after, id)
    ensures Inv(t, jitter) && c in t.clients && c.id == id && c.wakeup == ask.req.wakeup
    ensures var now := After(s, before).now;
            c.asked == now && now > 0 && Earliest(now, ask.req) <= c.from <= c.until == Deadline(now, ask.req)
  {
    AroundAsk(s, before, ask, after, t, jitter);
    var mid := After(s, before);
    c := AskRecords(mid, ask, id, jitter);
    if ask.req.mintime != ask.req.maxtime {
      WindowOpens(mid.now, ask.req.mintime, ask.req.maxtime);
    } else {
      SlotIsAhead(mid.now / MILLION, AdjustPeriod(ask.req.mintime));
    }
    RunKeeps(Apply(mid, ask), after, t, jitter, c);
    RunInv(Apply(mid, ask), after, t, jitter);
  }

  // ----- the promises

  /** In every run, for every client whose last request was not a cancel, asked for a
      wakeup from suspend and has not been answered yet: the next scan is due by the
      deadline of that request, or 200 ms after it was made, and the time has not gone
      past that. */
  lemma AskedIsServed(s: Sched, before: seq<Event>, ask: Event, after: seq<Event>, t: Sched, id: nat, jitter: nat)
    requires Initial(s) && Reaches(s, before + [ask] + after, t, jitter)
    requires Asks(ask, id) && !Cancels(ask.req) && Open(Apply(After(s, before), ask), after, id)
    requires ask.req.wakeup
    ensures var now := After(s, before).now;
            && NextScan(t) <= Max(Deadline(now, ask.req), now + 200_000)
            && t.now <= Max(Deadline(now, ask.req), now + 200_000) + jitter
  {
    var c := StillListed(s, before, ask, after, t, id, jitter);
    NeverOverdue(s, before + [ask] + after, t, jitter);
  }

  /** Whether or not it asked for a wakeup from suspend: a scan at or past the deadline
      reports to it, with the seconds it has waited, and no scan reports before the
      earliest time it asked for. */
  lemma ServedInTime(s: Sched, before: seq<Event>, ask: Event, after: seq<Event>, t: Sched, e: Event, id: nat,
                     jitter: nat)
    requires Initial(s) && Reaches(s, before + [ask] + after, t, jitter)
    requires Asks(ask, id) && !Cancels(ask.req) && Open(Apply(After(s, before), ask), after, id) && IsScan(e)
    ensures var now := After(s, before).now;
            && (t.now >= Deadline(now, ask.req) ==> Reports(t, e, id))
            && (Reports(t, e, id) ==> t.now >= Earliest(now, ask.req))
            && (Reports(t, e, id) ==> (id, (t.now - now) / MILLION) in Woken(t.clients, t.now))
  {
    var c := StillListed(s, before, ask, after, t, id, jitter);
    ScanIsExact(t.clients, t.now, {}, c);
  }

  /** No waiting client of this identifier is in the list. */
  predicate Mute(s: Sched, id: nat) {
    forall c :: c in s.clients && c.id == id ==> c.asked == 0
  }

  lemma RequestMembers(cs: seq<Client>, id: nat, req: Wait, now: int, c: Client)
    requires c in RequestAt(cs, id, req, now)
    ensures exists d :: d in cs && d.id == c.id && c == if d.id == id then Request(d, req, now) else d
  {
    var i :| 0 <= i < |cs| && RequestAt(cs, id, req, now)[i] == c;
    assert cs[i] in cs;
  }

  lemma EventKeepsMute(s: Sched, e: Event, id: nat)
    requires Mute(s, id) && (!Asks(e, id) || Cancels(e.req))
    ensures Mute(Apply(s, e), id)
  {
    forall c | c in Apply(s, e).clients && c.id == id
      ensures c.asked == 0
    {
      match e
      case Heartbeat(failing) => ScanListMembers(s.clients, s.now, MustWake(s.clients, s.now), failing);
      case WakeTimerFires(failing) => ScanListMembers(s.clients, s.now, MustWake(s.clients, s.now), failing);
      case LaterTimerFires(failing) => ScanListMembers(s.clients, s.now, MustWake(s.clients, s.now), failing);
      case ExternalWait(k, req) => RequestMembers(s.clients, k, req, s.now, c);
      case InternalWait(k, req) =>
        var cs := if HasId(s.clients, k) then s.clients else s.clients + [NewClient(k, false)];
        RequestMembers(cs, k, req, s.now, c);
      case Disconnect(k) => WithoutIsSubset(s.clients, k);
      case _ =>
    }
  }

  lemma {:induction false} RunKeepsMute(s: Sched, run: seq<Event>, id: nat)
    requires Mute(s, id) && Unasked(run, id)
    ensures Mute(After(s, run), id)
    decreases |run|
  {
    if run != [] {
      EventKeepsMute(s, run[0], id);
      RunKeepsMute(Apply(s, run[0]), run[1..], id);
    }
  }

  lemma MuteIsSilent(s: Sched, e: Event, id: nat)
    requires Mute(s, id)
    ensures !Reports(s, e, id)
  {
    WokenMembers(s.clients, s.now, MustWake(s.clients, s.now));
  }

  /** Without a request, and after a cancel until the next request, no scan reports. */
  lemma CancelledIsSilent(s: Sched, before: seq<Event>, ask: Event, after: seq<Event>, e: Event, id: nat)
    requires Asks(ask, id) && Cancels(ask.req) && Unasked(after, id)
    ensures !Reports(After(Apply(After(s, before), ask), after), e, id)
  {
    var mid := After(s, before);
    forall c | c in Apply(mid, ask).clients && c.id == id
      ensures c.asked == 0
    {
      var cs := if ask.ExternalWait? || HasId(mid.clients, id) then mid.clients
                else mid.clients + [NewClient(id, false)];
      RequestMembers(cs, id, ask.req, mid.now, c);
    }
    RunKeepsMute(Apply(mid, ask), after, id);
    MuteIsSilent(After(Apply(mid, ask), after), e, id);
  }

  /** An answered client is silent as well until it asks again. */
  lemma AnsweredIsSilent(s: Sched, e: Event, after: seq<Event>, later: Event, id: nat)
    requires DistinctIds(s.clients) && Reports(s, e, id) && Unasked(after, id)
    ensures !Reports(After(Apply(s, e), after), later, id)
  {
    var must := MustWake(s.clients, s.now);
    ScanListMembers(s.clients, s.now, must, e.failing);
    WokenMembers(s.clients, s.now, must);
    forall c | c in Apply(s, e).clients && c.id == id
      ensures c.asked == 0
    {
      var o :| o in s.clients && c in ScanOne(o, s.now, must, e.failing);
      var p :| p in s.clients && Wakes(p, s.now, must) && p.id == id;
      var i :| 0 <= i < |s.clients| && s.clients[i] == o;
      var j :| 0 <= j < |s.clients| && s.clients[j] == p;
    }
    RunKeepsMute(Apply(s, e), after, id);
    MuteIsSilent(After(Apply(s, e), after), later, id);
  }

  /** An internal client that does not want to be woken from suspend causes no check;
      every other request, and every coming and going, is followed by one. */
  lemma ChecksFollow(s: Sched, e: Event, jitter: nat)
    requires Enabled(s, e, jitter) && (e.ExternalWait? || e.InternalWait? || e.Connect? || e.Disconnect? || e.OtherWakeup?)
    ensures s.laterTimer.At? ==> Apply(s, e).laterTimer == s.laterTimer
    ensures s.laterTimer == Off ==>
              Apply(s, e).laterTimer == if e.InternalWait? && !e.req.wakeup then Off else At(s.now + 200_000)
    ensures Apply(s, e).wakeTimer == s.wakeTimer
  {
  }
}
