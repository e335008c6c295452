// The timeval arithmetic of the event loop: the carry and borrow macros and
// the lexicographic comparison, related to plain microsecond counts.
module TimeVal {
  const USEC_PER_SEC := 1000000

  datatype Timeval = Timeval(sec: int, usec: int)

  /** A timeval as the clock and the callers of ril_timer_add produce it. */
  predicate Normal(t: Timeval) {
    0 <= t.usec < USEC_PER_SEC
  }

  function Micros(t: Timeval): int {
    t.sec * USEC_PER_SEC + t.usec
  }

  /** timercmp(a, b, <) */
  predicate Before(a: Timeval, b: Timeval) {
    if a.sec == b.sec then a.usec < b.usec else a.sec < b.sec
  }

  /** timeradd: one carry at most */
  function Add(a: Timeval, b: Timeval): Timeval {
    var usec := a.usec + b.usec;
    if usec >= USEC_PER_SEC then Timeval(a.sec + b.sec + 1, usec - USEC_PER_SEC)
    else Timeval(a.sec + b.sec, usec)
  }

  /** timersub: one borrow at most */
  function Sub(a: Timeval, b: Timeval): Timeval {
    var usec := a.usec - b.usec;
    if usec < 0 then Timeval(a.sec - b.sec - 1, usec + USEC_PER_SEC)
    else Timeval(a.sec - b.sec, usec)
  }

  lemma AddIsExact(a: Timeval, b: Timeval)
    requires Normal(a) && Normal(b)
    ensures Normal(Add(a, b)) && Micros(Add(a, b)) == Micros(a) + Micros(b)
    ensures var t := Add(a, b);
      0 <= t.usec < 1000000 && t.sec * 1000000 + t.usec == (a.sec + b.sec) * 1000000 + a.usec + b.usec
  {
  }

  lemma SubIsExact(a: Timeval, b: Timeval)
    requires Normal(a) && Normal(b)
    ensures Normal(Sub(a, b)) && Micros(Sub(a, b)) == Micros(a) - Micros(b)
    ensures var t := Sub(a, b);
      0 <= t.usec < 1000000 && t.sec * 1000000 + t.usec == (a.sec - b.sec) * 1000000 + a.usec - b.usec
  {
  }

  /** On normalised values the field-wise comparison is the comparison of microseconds. */
  lemma BeforeIsMicros(a: Timeval, b: Timeval)
    requires Normal(a) && Normal(b)
    ensures Before(a, b) <==> Micros(a) < Micros(b)
  {
  }
}
