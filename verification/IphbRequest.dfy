/** Normalisation of iphb wait requests: modules/iphb.c, client_adjust_period,
    client_adjust_mintime and the time range part of client_handle_wait_req. */
module IphbRequest {
  import opened TimeVals

  const S := 1
  const M := 60 * S
  const H := 60 * M

  const PERIOD_SLOTSIZE := 30
  const PERIOD_MINIMUM := PERIOD_SLOTSIZE * 1

  /** The `%` of C: the remainder has the sign of the dividend. */
  function Rem(a: int, b: int): int
    requires b > 0
  {
    if a >= 0 then a % b else -((-a) % b)
  }

  /** client_adjust_period */
  function AdjustPeriod(period: int): (p: int)
    ensures p % PERIOD_SLOTSIZE == 0 && p >= PERIOD_MINIMUM
    ensures period >= 15 ==> period - 15 < p <= period + 15
    ensures period < 15 ==> p == PERIOD_MINIMUM
    ensures period >= PERIOD_MINIMUM && period % PERIOD_SLOTSIZE == 0 ==> p == period
  {
    var sum := period + (PERIOD_SLOTSIZE + 1) / 2;
    var multiple := sum - Rem(sum, PERIOD_SLOTSIZE);
    if multiple < PERIOD_MINIMUM then PERIOD_MINIMUM else multiple
  }

  /** The rows of the range table: from `maxtime` seconds on, the window may be
      at most `maxdiff` seconds wide. */
  datatype Row = Row(maxtime: int, maxdiff: int)

  const LUT: seq<Row> := [
    Row(24 * H, 60 * M), Row(12 * H, 30 * M), Row(6 * H, 9 * M), Row(90 * M, 3 * M), Row(30 * M, 1 * M),
    Row(10 * M, 30 * S), Row(3 * M, 20 * S), Row(1 * M, 15 * S), Row(10 * S, 5 * S), Row(1 * S, 0 * S),
    Row(0, 0)]

  /** Widest window allowed for a deadline `maxtime` seconds away. */
  function Width(maxtime: int): (w: int)
    requires maxtime >= 1
    ensures 0 <= w < maxtime
  {
    if maxtime >= 24 * H then 60 * M
    else if maxtime >= 12 * H then 30 * M
    else if maxtime >= 6 * H then 9 * M
    else if maxtime >= 90 * M then 3 * M
    else if maxtime >= 30 * M then 1 * M
    else if maxtime >= 10 * M then 30 * S
    else if maxtime >= 3 * M then 20 * S
    else if maxtime >= 1 * M then 15 * S
    else if maxtime >= 10 * S then 5 * S
    else 0
  }

  function Max(a: int, b: int): int { if a < b then b else a }

  function Min(a: int, b: int): int { if a < b then a else b }

  /** The window start nearest to the requested one that is neither after the
      deadline nor further before it than the table allows. */
  function NearestStart(mintime: int, maxtime: int): int {
    if maxtime < 1 then Min(mintime, maxtime)
    else Max(Min(mintime, maxtime), maxtime - Width(maxtime))
  }

  lemma RowsAreWidths(i: nat, maxtime: int)
    requires i < |LUT| - 1 && maxtime >= LUT[i].maxtime
    requires forall k :: 0 <= k < i ==> maxtime < LUT[k].maxtime
    ensures maxtime >= 1 && Width(maxtime) == LUT[i].maxdiff
  {
    assert i > 0 ==> maxtime < LUT[i - 1].maxtime;
  }

  /** client_adjust_mintime */
  method AdjustMintime(mintime: int, maxtime: int) returns (adjusted: int)
    ensures adjusted <= maxtime
    ensures mintime > maxtime ==> adjusted == maxtime
    ensures mintime <= maxtime ==> mintime <= adjusted
    ensures maxtime < 1 && mintime <= maxtime ==> adjusted == mintime
    ensures maxtime >= 1 && maxtime - Width(maxtime) <= mintime <= maxtime ==> adjusted == mintime
    ensures maxtime >= 1 && mintime < maxtime - Width(maxtime) ==> adjusted == maxtime - Width(maxtime)
    ensures adjusted == NearestStart(mintime, maxtime)
  {
    adjusted := mintime;
    var i := 0;
    while LUT[i].maxtime != 0
      invariant 0 <= i < |LUT| && adjusted == mintime
      invariant forall k :: 0 <= k < i ==> maxtime < LUT[k].maxtime
      decreases |LUT| - i
    {
      if maxtime >= LUT[i].maxtime {
        RowsAreWidths(i, maxtime);
        if mintime + LUT[i].maxdiff < maxtime {
          adjusted := maxtime - LUT[i].maxdiff;
        }
        assert adjusted == if mintime < maxtime - Width(maxtime) then maxtime - Width(maxtime) else mintime;
        break;
      }
      i := i + 1;
    }
    assert maxtime < 1 ==> adjusted == mintime;
    assert maxtime >= 1 ==> adjusted == Max(mintime, maxtime - Width(maxtime)) by {
      if i == |LUT| - 1 { assert maxtime < LUT[i - 1].maxtime; }
    }
    if adjusted > maxtime {
      adjusted := maxtime;
    }
  }

  /** When a client asked, and the earliest and latest instant of its wakeup, in
      microseconds; `asked` is zero for a client that does not wait. */
  datatype Window = Window(asked: int, from: int, until: int)

  /** The instant at which all clients with period `p` are woken next: the first
      multiple of `p` seconds after the current second. */
  function NextSlot(nowSec: int, p: int): int
    requires p > 0
  {
    p * (nowSec / p + 1)
  }

  /** The window that a request of `mintime` and `maxtime` seconds, made at `now`
      microseconds, leads to. */
  function RequestWindow(now: int, mintime: int, maxtime: int): Window {
    if mintime == 0 && maxtime == 0 then
      Window(0, now, now)
    else if mintime == maxtime then
      var t := NextSlot(now / MILLION, AdjustPeriod(mintime)) * MILLION;
      Window(now, t, t)
    else
      Window(now, now + NearestStart(mintime, maxtime) * MILLION, now + maxtime * MILLION)
  }

  /** A range request with a deadline of at least a second, and any slot request,
      waits for a proper window in the future, no wider than its table row. */
  lemma WindowIsAhead(now: int, mintime: int, maxtime: int)
    requires now >= 0
    requires maxtime >= 1 || mintime == maxtime
    requires !(mintime == 0 && maxtime == 0)
    ensures var w := RequestWindow(now, mintime, maxtime);
            && w.asked == now
            && now < w.from <= w.until
            && (maxtime >= 1 ==> w.until - w.from <= Width(maxtime) * MILLION)
            && (mintime != maxtime ==> w.until == now + maxtime * MILLION)
  {
  }

  /** Where the window of a range request opens: as asked, if that is neither after
      the deadline nor further before it than the table allows, and otherwise at that
      one of the two limits that it exceeds. */
  lemma WindowOpens(now: int, mintime: int, maxtime: int)
    requires mintime != maxtime
    ensures var w := RequestWindow(now, mintime, maxtime);
            && w.asked == now && w.until == now + maxtime * MILLION
            && (mintime > maxtime ==> w.from == w.until)
            && (mintime <= maxtime ==> now + mintime * MILLION <= w.from <= w.until)
            && (maxtime < 1 && mintime <= maxtime ==> w.from == now + mintime * MILLION)
            && (maxtime >= 1 && maxtime - Width(maxtime) <= mintime <= maxtime ==> w.from == now + mintime * MILLION)
            && (maxtime >= 1 && mintime < maxtime - Width(maxtime) ==>
                  w.from == w.until - Width(maxtime) * MILLION)
  {
  }

  /** A request of no time at all is a cancel: the client does not wait any more. */
  lemma CancelStops(now: int)
    ensures RequestWindow(now, 0, 0).asked == 0
  {
  }

  /** The widths that the table allows, in seconds. */
  lemma WidthsInSeconds(maxtime: int)
    requires maxtime >= 1
    ensures var w := Width(maxtime);
            && (86400 <= maxtime ==> w == 3600)
            && (43200 <= maxtime < 86400 ==> w == 1800)
            && (21600 <= maxtime < 43200 ==> w == 540)
            && (5400 <= maxtime < 21600 ==> w == 180)
            && (1800 <= maxtime < 5400 ==> w == 60)
            && (600 <= maxtime < 1800 ==> w == 30)
            && (180 <= maxtime < 600 ==> w == 20)
            && (60 <= maxtime < 180 ==> w == 15)
            && (10 <= maxtime < 60 ==> w == 5)
            && (maxtime < 10 ==> w == 0)
  {
  }

  /** All other range requests are due at once: their window is already over or
      ends now. */
  lemma WindowIsPast(now: int, mintime: int, maxtime: int)
    requires maxtime < 1 && mintime != maxtime
    ensures var w := RequestWindow(now, mintime, maxtime); w.from <= w.until <= now
  {
  }

  lemma SlotIsAhead(nowSec: int, p: int)
    requires p > 0 && nowSec >= 0
    ensures nowSec < NextSlot(nowSec, p) <= nowSec + p
    ensures NextSlot(nowSec, p) % p == 0
    ensures nowSec + (p - (p + nowSec) % p) == NextSlot(nowSec, p)
  {
    var q, r := nowSec / p, nowSec % p;
    assert nowSec == p * q + r;
    assert p * (q + 1) == p * q + p;
    MultipleOf(p, q + 1, 0);
    MultipleOf(p, q + 1, r);
    assert p + nowSec == p * (q + 1) + r;
  }

  lemma MultipleOf(p: int, k: int, r: int)
    requires 0 <= r < p
    ensures (p * k + r) % p == r && (p * k + r) / p == k
  {
    var x := p * k + r;
    var d := k - x / p;
    assert x == p * (x / p) + x % p;
    assert p * d == x % p - r by {
      assert p * (k - x / p) == p * k - p * (x / p);
    }
    MultipleGrows(p, d);
  }

  lemma MultipleGrows(p: int, d: int)
    requires p > 0
    ensures d >= 1 ==> p * d >= p
    ensures d <= -1 ==> p * d <= -p
  {
  }

  /** Slot requests of equal period get the same instant exactly when they are
      made within the same slot. */
  lemma SlotsAlign(now1: int, now2: int, mintime1: int, mintime2: int)
    requires now1 >= 0 && now2 >= 0
    requires mintime1 != 0 && mintime2 != 0
    requires AdjustPeriod(mintime1) == AdjustPeriod(mintime2)
    ensures var p := AdjustPeriod(mintime1);
            (RequestWindow(now1, mintime1, mintime1).until == RequestWindow(now2, mintime2, mintime2).until
             <==> now1 / MILLION / p == now2 / MILLION / p)
  {
  }
}
