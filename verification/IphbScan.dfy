/** The wakeup scan of modules/iphb.c on values: which clients one scan wakes,
    which timer it leaves behind and which alarm delay it programs. Times are
    microseconds. */
module IphbScan {
  import opened TimeVals

  const HEARTBEAT := 12 * MILLION
  const RTC_MAXIMUM := 30 * 60
  const INT_MAX := 0x7fff_ffff

  /** A client with its wakeup window. `asked` is zero when it does not wait. */
  datatype Client = Client(id: nat, external: bool, wakeup: bool, asked: int, from: int, until: int) {

    predicate Waiting() {
      asked != 0
    }

    /** Inside the window with less than a heartbeat left, or past it. */
    predicate Due(now: int) {
      Waiting() && from <= now && until - now < HEARTBEAT
    }

    /** Not in the window yet, and the window closes before the next heartbeat. */
    predicate NeedsTimer(now: int) {
      Waiting() && wakeup && now < from && until - now < HEARTBEAT
    }
  }

  /** Some wake-from-suspend client has to be woken in this scan. */
  predicate MustWake(cs: seq<Client>, now: int) {
    exists c :: c in cs && c.wakeup && c.Due(now)
  }

  /** The clients that a scan wakes. */
  predicate Wakes(c: Client, now: int, must: bool) {
    c.Waiting() && c.from <= now && (must || c.until - now < HEARTBEAT)
  }

  /** What a scan leaves of one client: a woken client stops waiting, and is
      dropped when the message to its socket could not be sent. */
  function ScanOne(c: Client, now: int, must: bool, failing: set<nat>): seq<Client> {
    if !Wakes(c, now, must) then [c]
    else if c.external && c.id in failing then []
    else [c.(asked := 0)]
  }

  function ScanList(cs: seq<Client>, now: int, must: bool, failing: set<nat>): seq<Client> {
    if cs == [] then []
    else ScanList(cs[..|cs| - 1], now, must, failing) + ScanOne(cs[|cs| - 1], now, must, failing)
  }

  /** The clients woken, in list order, with the whole seconds they slept. */
  function WokenList(cs: seq<Client>, now: int, must: bool): seq<(nat, int)> {
    if cs == [] then []
    else
      var c := cs[|cs| - 1];
      WokenList(cs[..|cs| - 1], now, must) +
      if Wakes(c, now, must) then [(c.id, (now - c.asked) / MILLION)] else []
  }

  function Scanned(cs: seq<Client>, now: int, failing: set<nat>): seq<Client> {
    ScanList(cs, now, MustWake(cs, now), failing)
  }

  function Woken(cs: seq<Client>, now: int): seq<(nat, int)> {
    WokenList(cs, now, MustWake(cs, now))
  }

  /** Distance to the earliest deadline that needs a timer; a full heartbeat
      when there is none. */
  function SleepTime(cs: seq<Client>, now: int): int {
    if cs == [] then HEARTBEAT
    else
      var rest := SleepTime(cs[..|cs| - 1], now);
      var c := cs[|cs| - 1];
      if c.NeedsTimer(now) && c.until - now < rest then c.until - now else rest
  }

  datatype Timer = Off | At(due: int)

  /** The timer armed by a scan: its delay is cut to whole milliseconds. */
  function TimerAfter(cs: seq<Client>, now: int): Timer {
    var sleep := SleepTime(cs, now);
    if sleep >= HEARTBEAT then Off else At(now + sleep / 1000 * 1000)
  }

  /** A timer is armed if and only if some wake-from-suspend client's window is still
      closed and ends within the next 12 s, and then within the last millisecond before
      the first such end. */
  lemma TimerIffPressing(cs: seq<Client>, now: int)
    ensures TimerAfter(cs, now).At? <==>
            exists c :: c in cs && c.wakeup && c.asked != 0 && now < c.from && c.until - now < 12 * MILLION
    ensures forall c :: c in cs && c.wakeup && c.asked != 0 && now < c.from && c.until - now < 12 * MILLION ==>
                          TimerAfter(cs, now).At? && TimerAfter(cs, now).due <= c.until
    ensures TimerAfter(cs, now).At? ==>
              exists c :: c in cs && c.wakeup && c.asked != 0 && now < c.from && c.until - now < 12 * MILLION
                          && c.until - 1000 < TimerAfter(cs, now).due
  {
    SleepTimeIsLeast(cs, now);
    forall c: Client
      ensures c.NeedsTimer(now) <==> c.wakeup && c.asked != 0 && now < c.from && c.until - now < 12 * MILLION
    {
    }
  }

  // ----- rtc alarm

  /** Earliest deadline of a waiting wake-from-suspend client after `now`, below
      the INT_MAX seconds that stand for "none". */
  function NextDeadline(cs: seq<Client>, now: int): int {
    if cs == [] then INT_MAX * MILLION
    else
      var rest := NextDeadline(cs[..|cs| - 1], now);
      var c := cs[|cs| - 1];
      if c.Waiting() && c.wakeup && now < c.until < rest then c.until else rest
  }

  /** Seconds to the next alarm of timed, zero for none. */
  function AlarmTime(sys: int, powerup: int, resume: int): int {
    var a := if powerup > sys && powerup < INT_MAX then powerup else INT_MAX;
    var b := if resume > sys && resume < a then resume else a;
    if sys < b < INT_MAX then b - sys else 0
  }

  /** An alarm of timed that has been set and lies in the future. */
  predicate Coming(at: int, sys: int) {
    sys < at < INT_MAX
  }

  function Least(a: int, b: int): int { if b < a then b else a }

  /** The rtc alarm delay: the least of half an hour, the whole seconds to the
      next deadline and the seconds to the next alarm of timed. */
  function RtcDelay(cs: seq<Client>, now: int, alarm: int): int {
    var deadline := NextDeadline(cs, now);
    var byClient := if now < deadline < INT_MAX * MILLION then deadline / MILLION - now / MILLION else RTC_MAXIMUM;
    var byAlarm := if alarm > 0 then alarm else RTC_MAXIMUM;
    Least(RTC_MAXIMUM, Least(byClient, byAlarm))
  }

  // ----- what one scan does

  lemma {:induction false} ScanListMembers(cs: seq<Client>, now: int, must: bool, failing: set<nat>)
    ensures forall c :: c in ScanList(cs, now, must, failing) <==>
                        exists o :: o in cs && c in ScanOne(o, now, must, failing)
  {
    if cs != [] {
      var init, last := cs[..|cs| - 1], cs[|cs| - 1];
      ScanListMembers(init, now, must, failing);
      assert cs == init + [last];
      forall c
        ensures c in ScanList(cs, now, must, failing) <==> exists o :: o in cs && c in ScanOne(o, now, must, failing)
      {
        if c in ScanOne(last, now, must, failing) { assert last in cs; }
        if o :| o in init && c in ScanOne(o, now, must, failing) { assert o in cs; }
      }
    }
  }

  lemma {:induction false} SleepTimeIsLeast(cs: seq<Client>, now: int)
    ensures SleepTime(cs, now) <= HEARTBEAT
    ensures forall c :: c in cs && c.NeedsTimer(now) ==> SleepTime(cs, now) <= c.until - now
    ensures SleepTime(cs, now) < HEARTBEAT ==>
              exists c :: c in cs && c.NeedsTimer(now) && SleepTime(cs, now) == c.until - now
  {
    if cs != [] {
      var init, last := cs[..|cs| - 1], cs[|cs| - 1];
      SleepTimeIsLeast(init, now);
      assert cs == init + [last];
      assert last in cs && forall c :: c in init ==> c in cs;
    }
  }

  lemma {:induction false} NextDeadlineIsLeast(cs: seq<Client>, now: int)
    ensures NextDeadline(cs, now) <= INT_MAX * MILLION
    ensures forall c :: c in cs && c.Waiting() && c.wakeup && now < c.until < INT_MAX * MILLION ==>
                          NextDeadline(cs, now) <= c.until
    ensures NextDeadline(cs, now) < INT_MAX * MILLION ==>
              exists c :: c in cs && c.Waiting() && c.wakeup && now < c.until == NextDeadline(cs, now)
  {
    if cs != [] {
      var init, last := cs[..|cs| - 1], cs[|cs| - 1];
      NextDeadlineIsLeast(init, now);
      assert cs == init + [last];
      assert last in cs && forall c :: c in init ==> c in cs;
    }
  }

  /** Every client that still waits after a scan has not reached its window, or
      has at least a heartbeat left and shares the scan with no client that had
      to be woken. In particular nothing due is left behind. */
  lemma LeftWaiting(cs: seq<Client>, now: int, failing: set<nat>, c: Client)
    requires c in Scanned(cs, now, failing) && c.Waiting()
    ensures c in cs
    ensures now < c.from || c.until - now >= 12 * MILLION
    ensures now < c.from ||
            !exists d :: d in cs && d.wakeup && d.asked != 0 && d.from <= now && d.until - now < 12 * MILLION
  {
    MustWakeMeans(cs, now);
    ScanListMembers(cs, now, MustWake(cs, now), failing);
    var o :| o in cs && c in ScanOne(o, now, MustWake(cs, now), failing);
  }

  /** The scan is exact: `o` is woken if and only if it waits, its window has
      opened, and less than a heartbeat is left or some wake-from-suspend client
      must be woken now. Nobody is sent two messages, a client that is not woken is
      left as it is, and one that is woken disappears only if its message could not
      be delivered. */
  lemma ScanIsExact(cs: seq<Client>, now: int, failing: set<nat>, o: Client)
    requires o in cs && DistinctIds(cs)
    ensures var must := exists c :: c in cs && c.wakeup && c.asked != 0 && c.from <= now && c.until - now < 12 * MILLION;
            var woken := o.asked != 0 && o.from <= now && (o.until - now < 12 * MILLION || must);
            && (woken <==> exists w :: w in Woken(cs, now) && w.0 == o.id)
            && (woken ==> (o.id, (now - o.asked) / MILLION) in Woken(cs, now))
            && (forall i, j :: 0 <= i < j < |Woken(cs, now)| ==> Woken(cs, now)[i].0 != Woken(cs, now)[j].0)
            && (woken && (!o.external || o.id !in failing) ==> o.(asked := 0) in Scanned(cs, now, failing))
            && (!woken ==> o in Scanned(cs, now, failing))
            && ((forall c :: c in Scanned(cs, now, failing) ==> c.id != o.id) <==>
                woken && o.external && o.id in failing)
  {
    var must := MustWake(cs, now);
    MustWakeMeans(cs, now);
    WokenExactly(cs, now, must, o);
    WokenOnce(cs, now, must);
    KeptExactly(cs, now, must, failing, o);
  }

  /** Somebody must be woken when a wake-from-suspend client is in its window, or past
      it, with less than 12 s left. */
  lemma MustWakeMeans(cs: seq<Client>, now: int)
    ensures MustWake(cs, now) <==>
            exists c :: c in cs && c.wakeup && c.asked != 0 && c.from <= now && c.until - now < 12 * MILLION
  {
    forall c: Client
      ensures c.Due(now) <==> c.asked != 0 && c.from <= now && c.until - now < 12 * MILLION
    {
    }
  }

  lemma WokenExactly(cs: seq<Client>, now: int, must: bool, o: Client)
    requires o in cs && DistinctIds(cs)
    ensures Wakes(o, now, must) <==> exists w :: w in WokenList(cs, now, must) && w.0 == o.id
    ensures Wakes(o, now, must) ==> (o.id, (now - o.asked) / MILLION) in WokenList(cs, now, must)
  {
    WokenMembers(cs, now, must);
    assert Wakes(o, now, must) ==> (o.id, (now - o.asked) / MILLION) in WokenList(cs, now, must);
    if w :| w in WokenList(cs, now, must) && w.0 == o.id {
      var p :| p in cs && Wakes(p, now, must) && w == (p.id, (now - p.asked) / MILLION);
      assert p.id == o.id;
    }
  }

  lemma KeptExactly(cs: seq<Client>, now: int, must: bool, failing: set<nat>, o: Client)
    requires o in cs && DistinctIds(cs)
    ensures var out := ScanList(cs, now, must, failing);
            && (Wakes(o, now, must) && (!o.external || o.id !in failing) ==> o.(asked := 0) in out)
            && (!Wakes(o, now, must) ==> o in out)
            && ((forall c :: c in out ==> c.id != o.id) <==> Wakes(o, now, must) && o.external && o.id in failing)
  {
    var out := ScanList(cs, now, must, failing);
    ScanListMembers(cs, now, must, failing);
    forall c | c in out && c.id == o.id
      ensures c in ScanOne(o, now, must, failing)
    {
      var p :| p in cs && c in ScanOne(p, now, must, failing);
      assert p.id == o.id;
    }
    if !(Wakes(o, now, must) && o.external && o.id in failing) {
      var kept := ScanOne(o, now, must, failing)[0];
      assert kept in ScanOne(o, now, must, failing) && kept.id == o.id;
      assert kept in out;
    }
  }

  lemma {:induction false} WokenMembers(cs: seq<Client>, now: int, must: bool)
    ensures forall w :: w in WokenList(cs, now, must) <==>
                        exists o :: o in cs && Wakes(o, now, must) && w == (o.id, (now - o.asked) / MILLION)
  {
    if cs != [] {
      var init, last := cs[..|cs| - 1], cs[|cs| - 1];
      WokenMembers(init, now, must);
      assert cs == init + [last];
      forall w
        ensures w in WokenList(cs, now, must) <==>
                exists o :: o in cs && Wakes(o, now, must) && w == (o.id, (now - o.asked) / MILLION)
      {
        if Wakes(last, now, must) && w == (last.id, (now - last.asked) / MILLION) { assert last in cs; }
        if o :| o in init && Wakes(o, now, must) && w == (o.id, (now - o.asked) / MILLION) { assert o in cs; }
      }
    }
  }

  function Ids(cs: seq<Client>): seq<nat> {
    seq(|cs|, i requires 0 <= i < |cs| => cs[i].id)
  }

  /** `sub` keeps the order of `all`, leaving out only identifiers in `drop`. */
  predicate DropsOnly(sub: seq<nat>, all: seq<nat>, drop: set<nat>) {
    if all == [] then sub == []
    else
      var init, last := all[..|all| - 1], all[|all| - 1];
      || (sub != [] && sub[|sub| - 1] == last && DropsOnly(sub[..|sub| - 1], init, drop))
      || (last in drop && DropsOnly(sub, init, drop))
  }

  /** No two clients have the same identifier. */
  predicate DistinctIds(cs: seq<Client>) {
    forall i, j :: 0 <= i < j < |cs| ==> cs[i].id != cs[j].id
  }

  predicate HasId(cs: seq<Client>, id: nat) {
    exists c :: c in cs && c.id == id
  }

  /** A scan adds no identifier and keeps them distinct. */
  lemma {:induction false} ScanKeepsIds(cs: seq<Client>, now: int, must: bool, failing: set<nat>)
    ensures forall id :: HasId(ScanList(cs, now, must, failing), id) ==> HasId(cs, id)
    ensures DistinctIds(cs) ==> DistinctIds(ScanList(cs, now, must, failing))
  {
    if cs != [] {
      var init, last := cs[..|cs| - 1], cs[|cs| - 1];
      ScanKeepsIds(init, now, must, failing);
      var out := ScanList(init, now, must, failing);
      assert cs == init + [last];
      forall id | HasId(ScanList(cs, now, must, failing), id)
        ensures HasId(cs, id)
      {
        var c :| c in ScanList(cs, now, must, failing) && c.id == id;
        if c in out {
          assert HasId(out, id);
          var d :| d in init && d.id == id;
          assert d in cs;
        } else {
          assert last in cs;
        }
      }
      if DistinctIds(cs) {
        forall i | 0 <= i < |out|
          ensures out[i].id != last.id
        {
          assert HasId(out, out[i].id);
          var d :| d in init && d.id == out[i].id;
        }
      }
    }
  }

  lemma ScanKeepsDistinct(cs: seq<Client>, now: int, must: bool, failing: set<nat>)
    requires DistinctIds(cs)
    ensures DistinctIds(ScanList(cs, now, must, failing))
  {
    ScanKeepsIds(cs, now, must, failing);
  }

  /** Every woken client is sent exactly one message. */
  lemma {:induction false} WokenOnce(cs: seq<Client>, now: int, must: bool)
    requires DistinctIds(cs)
    ensures var woken := WokenList(cs, now, must);
            && (forall w :: w in woken ==> HasId(cs, w.0))
            && (forall i, j :: 0 <= i < j < |woken| ==> woken[i].0 != woken[j].0)
  {
    if cs != [] {
      var init, last := cs[..|cs| - 1], cs[|cs| - 1];
      WokenOnce(init, now, must);
      var before := WokenList(init, now, must);
      assert cs == init + [last];
      assert last in cs && HasId(cs, last.id);
      forall w | w in before
        ensures w.0 != last.id && HasId(cs, w.0)
      {
        var d :| d in init && d.id == w.0;
        assert d in cs;
      }
      if Wakes(last, now, must) {
        OneReceiverEach(before, (last.id, (now - last.asked) / MILLION));
      }
    }
  }

  lemma OneReceiverEach(sent: seq<(nat, int)>, m: (nat, int))
    requires forall i, j :: 0 <= i < j < |sent| ==> sent[i].0 != sent[j].0
    requires forall w :: w in sent ==> w.0 != m.0
    ensures forall i, j :: 0 <= i < j < |sent + [m]| ==> (sent + [m])[i].0 != (sent + [m])[j].0
  {
    forall i, j | 0 <= i < j < |sent + [m]|
      ensures (sent + [m])[i].0 != (sent + [m])[j].0
    {
      assert sent[i] in sent && (sent + [m])[i] == sent[i];
      assert j < |sent| ==> (sent + [m])[j] == sent[j];
    }
  }

  /** A scan keeps the list in order and drops only clients it failed to reach. */
  lemma {:induction false} ScanKeepsOrder(cs: seq<Client>, now: int, must: bool, failing: set<nat>)
    ensures DropsOnly(Ids(ScanList(cs, now, must, failing)), Ids(cs), failing)
  {
    if cs != [] {
      var init, last := cs[..|cs| - 1], cs[|cs| - 1];
      ScanKeepsOrder(init, now, must, failing);
      var out := ScanList(init, now, must, failing);
      var one := ScanOne(last, now, must, failing);
      assert Ids(cs)[..|cs| - 1] == Ids(init);
      if one == [] {
        assert out + one == out;
      } else {
        assert Ids(out + one)[..|out|] == Ids(out);
      }
    }
  }

  /** A client that the rtc alarm is programmed for. */
  predicate WantsAlarm(c: Client, now: int) {
    c.Waiting() && c.wakeup && now < c.until < INT_MAX * MILLION
  }

  /** Whole seconds on the clock from `now` to the deadline of `c`. */
  function Span(c: Client, now: int): int {
    c.until / MILLION - now / MILLION
  }

  /** The rtc delay is the minimum: it lies in 0..1800, is not above any of its
      three limits - half an hour, the next alarm of timed if there is one, the
      whole seconds to any deadline below INT_MAX seconds - and equals one of them. */
  lemma RtcDelayIsLeast(cs: seq<Client>, now: int, alarm: int)
    ensures var d := RtcDelay(cs, now, alarm);
            && 0 <= d <= 1800
            && (alarm > 0 ==> d <= alarm)
            && (forall c :: c in cs && c.asked != 0 && c.wakeup && now < c.until < 0x7fff_ffff * MILLION ==>
                              d <= c.until / MILLION - now / MILLION)
            && (|| d == 1800
                || (alarm > 0 && d == alarm)
                || exists c :: c in cs && c.asked != 0 && c.wakeup && now < c.until < 0x7fff_ffff * MILLION
                               && d == c.until / MILLION - now / MILLION)
  {
    NextDeadlineIsLeast(cs, now);
    assert forall c :: c in cs ==> (WantsAlarm(c, now) <==>
                                      c.asked != 0 && c.wakeup && now < c.until < 0x7fff_ffff * MILLION);
    var deadline := NextDeadline(cs, now);
    forall c | c in cs && WantsAlarm(c, now)
      ensures RtcDelay(cs, now, alarm) <= Span(c, now)
    {
      assert now < deadline by {
        var x :| x in cs && x.Waiting() && x.wakeup && now < x.until == deadline;
      }
      assert deadline / MILLION <= c.until / MILLION;
    }
    if x :| x in cs && x.Waiting() && x.wakeup && now < x.until == deadline && deadline < INT_MAX * MILLION {
      assert WantsAlarm(x, now) && Span(x, now) == deadline / MILLION - now / MILLION;
    }
  }

  /** Something else makes the alarm come in an earlier second than the deadline of
      `c`: half an hour, the alarm of timed, or another deadline. */
  predicate Forestalled(cs: seq<Client>, now: int, alarm: int, c: Client) {
    || RTC_MAXIMUM < Span(c, now)
    || 0 < alarm < Span(c, now)
    || exists e :: e in cs && WantsAlarm(e, now) && Span(e, now) < Span(c, now)
  }

  /** Counted in microseconds from `now` the delay is late for a deadline at most
      by the part of a second that `now` is ahead of it, so it is never late by a
      full second. It is on time if and only if the fraction of a second of `now` is
      not above that of the deadline, or the deadline is forestalled. */
  lemma RtcDelayLateness(cs: seq<Client>, now: int, alarm: int, c: Client)
    requires c in cs && WantsAlarm(c, now)
    ensures var d := RtcDelay(cs, now, alarm);
            && now + d * MILLION < c.until + MILLION
            && (now + d * MILLION <= c.until <==>
                now % MILLION <= c.until % MILLION || Forestalled(cs, now, alarm, c))
  {
    RtcDelayIsLeast(cs, now, alarm);
  }

  /** An alarm that is late: at 10.75 s with a deadline at 12 s the delay is two
      seconds, three quarters of a second too long. */
  lemma RtcDelayCanBeLate()
    ensures var c := Client(1, true, true, 1, 1, 12 * MILLION); var now := 10 * MILLION + 750_000;
            now + RtcDelay([c], now, 0) * MILLION == c.until + 750_000
  {
    var c := Client(1, true, true, 1, 1, 12 * MILLION);
    assert [c][..0] == [];
    assert NextDeadline([c], 10 * MILLION + 750_000) == c.until;
  }
}
