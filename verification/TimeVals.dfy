/** struct timeval arithmetic as modules/iphb.c uses it (timercmp, timersub,
    timerisset), and its refinement of plain microseconds. */
module TimeVals {

  const MILLION := 1_000_000

  datatype TimeVal = TimeVal(sec: int, usec: int) {

    /** Every time stamp the kernel returns is normalised. */
    predicate Normal() {
      0 <= usec < MILLION
    }

    function Micros(): int {
      sec * MILLION + usec
    }

    /** timerisset */
    predicate IsSet() {
      sec != 0 || usec != 0
    }

    /** timercmp(this, that, <) */
    predicate Before(that: TimeVal) {
      if sec == that.sec then usec < that.usec else sec < that.sec
    }

    /** timersub(this, that, &result): borrows a second when needed. */
    function Minus(that: TimeVal): TimeVal {
      if usec < that.usec
      then TimeVal(sec - that.sec - 1, usec - that.usec + MILLION)
      else TimeVal(sec - that.sec, usec - that.usec)
    }
  }

  const CLEARED := TimeVal(0, 0)

  lemma BeforeIsLess(a: TimeVal, b: TimeVal)
    requires a.Normal() && b.Normal()
    ensures a.Before(b) <==> a.Micros() < b.Micros()
  {
  }

  /** The difference is normalised, exact, and its seconds field reaches `n`
      exactly when the difference is at least `n` full seconds. */
  lemma MinusIsDifference(a: TimeVal, b: TimeVal, n: int)
    requires a.Normal() && b.Normal()
    ensures a.Minus(b).Normal()
    ensures a.Minus(b).Micros() == a.Micros() - b.Micros()
    ensures a.Minus(b).sec >= n <==> a.Micros() - b.Micros() >= n * MILLION
  {
  }

  lemma SecondsOf(a: TimeVal)
    requires a.Normal()
    ensures a.sec == a.Micros() / MILLION && a.usec == a.Micros() % MILLION
    ensures a.IsSet() <==> a.Micros() != 0
  {
  }
}
