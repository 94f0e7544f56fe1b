/** The arithmetic on struct timeval the event loop does (src/EventLoop.cpp). */
module Timevals {
  import opened Native

  const MAX_USEC := 1_000_000

  datatype Timeval = Timeval(sec: int, usec: int)

  predicate Normal(a: Timeval) {
    a.sec >= 0 && 0 <= a.usec < MAX_USEC
  }

  function Micros(a: Timeval): int {
    a.sec * MAX_USEC + a.usec
  }

  /** Milliseconds, rounded down. */
  function Millis(a: Timeval): int {
    Micros(a) / 1000
  }

  function Max(a: int, b: int): int {
    if a < b then b else a
  }

  predicate GreaterEqual(a: Timeval, b: Timeval) {
    a.sec > b.sec || (a.sec == b.sec && a.usec >= b.usec)
  }

  lemma GreaterEqualComparesTime(a: Timeval, b: Timeval)
    requires Normal(a) && Normal(b)
    ensures GreaterEqual(a, b) <==> Micros(a) >= Micros(b)
  {
    if a.sec > b.sec {
      assert a.sec * MAX_USEC >= (b.sec + 1) * MAX_USEC;
    } else if a.sec < b.sec {
      assert b.sec * MAX_USEC >= (a.sec + 1) * MAX_USEC;
    }
  }

  // C rounds towards zero
  function Quotient(a: int, b: int): int
    requires b > 0
  {
    if a >= 0 then a / b else -((-a) / b)
  }

  function Remainder(a: int, b: int): int
    requires b > 0
  {
    a - Quotient(a, b) * b
  }

  /** timevalAdd */
  function Plus(a: Timeval, diff: int): Timeval {
    var sec := a.sec + Quotient(diff, 1000);
    var usec := a.usec + Remainder(diff, 1000) * 1000;
    if usec >= MAX_USEC then Timeval(sec + 1, usec - MAX_USEC) else Timeval(sec, usec)
  }

  /** The sum is exact; it has a proper microsecond field exactly if the difference is not
      negative, or its milliseconds can be taken off without borrowing. */
  lemma PlusIsExact(a: Timeval, diff: int)
    requires 0 <= a.usec < MAX_USEC
    ensures Micros(Plus(a, diff)) == Micros(a) + diff * 1000
    ensures 0 <= Plus(a, diff).usec < MAX_USEC <==> diff >= 0 || a.usec >= (-diff) % 1000 * 1000
  {
    if diff < 0 {
      assert Remainder(diff, 1000) == -((-diff) % 1000);
    }
  }

  /** timevalSub */
  function Minus(a: Timeval, b: Timeval): Timeval {
    var sec := a.sec - b.sec;
    var usec := a.usec - b.usec;
    if sec < 0 then Timeval(0, 0)
    else if usec < 0 then
      if sec - 1 < 0 then Timeval(0, 0) else Timeval(sec - 1, usec + MAX_USEC)
    else Timeval(sec, usec)
  }

  lemma MinusSaturates(a: Timeval, b: Timeval)
    requires Normal(a) && Normal(b)
    ensures Normal(Minus(a, b)) && Micros(Minus(a, b)) == Max(Micros(a) - Micros(b), 0)
  {
    GreaterEqualComparesTime(a, b);
  }

  /** timevalMs, in 64 unsigned bits */
  function Ms(a: Timeval): int {
    (a.sec * 1000 + a.usec / 1000) % TWO_64
  }

  /** Conversion to a 32-bit int. */
  function ToInt(x: int): (r: int)
    ensures -TWO_31 <= r < TWO_31
  {
    var y := x % TWO_32;
    if y < TWO_31 then y else y - TWO_32
  }

  /** timevalDiff: the unsigned difference, converted. */
  function Diff(a: Timeval, b: Timeval): int {
    ToInt((Ms(a) - Ms(b)) % TWO_64)
  }

  lemma ToIntOf(x: int, k: int)
    requires -TWO_31 <= x < TWO_31
    ensures ToInt(x + k * TWO_32) == x
  {
    assert (x + k * TWO_32) % TWO_32 == x % TWO_32;
    assert x % TWO_32 == if x >= 0 then x else x + TWO_32;
  }

  /** The difference is exact exactly if it fits an int. */
  lemma DiffIsExactIff(a: Timeval, b: Timeval)
    requires Normal(a) && Normal(b)
    ensures Diff(a, b) == Millis(a) - Millis(b) <==> -TWO_31 <= Millis(a) - Millis(b) < TWO_31
  {
    MillisOf(a);
    MillisOf(b);
    var x, y := a.sec * 1000 + a.usec / 1000, b.sec * 1000 + b.usec / 1000;
    if -TWO_31 <= x - y < TWO_31 {
      var k := (Ms(a) - Ms(b)) / TWO_64;
      var d := (Ms(a) - Ms(b)) % TWO_64;
      assert d == x - y + (y / TWO_64 - x / TWO_64 - k) * TWO_64;
      assert TWO_64 == TWO_32 * TWO_32;
      ToIntOf(x - y, (y / TWO_64 - x / TWO_64 - k) * TWO_32);
    }
  }

  lemma MillisOf(a: Timeval)
    requires Normal(a)
    ensures Millis(a) == a.sec * 1000 + a.usec / 1000
  {
    assert Micros(a) == (a.sec * 1000) * 1000 + a.usec;
  }

  // --- Rearming a repeating timer ---

  /** The next deadline reinsertTimer sets for a timer of deadline when that fires now. */
  function Rearmed(when: Timeval, now: Timeval, timeout: int): Timeval {
    Plus(now, Max(timeout - Diff(now, when), 0))
  }

  /** A timer that is due has its deadline moved by its timeout, to the millisecond, or to now
      if it is later than that already. */
  lemma RearmedDeadline(when: Timeval, now: Timeval, timeout: int)
    requires Normal(when) && Normal(now)
    requires GreaterEqual(now, when) && Millis(now) - Millis(when) < TWO_31
    ensures Normal(Rearmed(when, now, timeout))
    ensures Millis(Rearmed(when, now, timeout)) == Max(Millis(when) + timeout, Millis(now))
    ensures Micros(Rearmed(when, now, timeout)) % 1000 == Micros(now) % 1000
  {
    GreaterEqualComparesTime(now, when);
    DiffIsExactIff(now, when);
    var d := Max(timeout - Diff(now, when), 0);
    PlusIsExact(now, d);
    assert (Micros(now) + d * 1000) / 1000 == Micros(now) / 1000 + d;
  }

  /** The deadlines of a timer that fires at the given times, one after the other. */
  function DeadlineAfter(when: Timeval, timeout: int, firings: seq<Timeval>): Timeval {
    if firings == [] then when
    else Rearmed(DeadlineAfter(when, timeout, firings[..|firings| - 1]), firings[|firings| - 1], timeout)
  }

  /** Each firing comes when the timer is due, and less than 2^31 milliseconds late. */
  predicate FiresWhenDue(when: Timeval, timeout: int, firings: seq<Timeval>) {
    firings != [] ==>
      var before := DeadlineAfter(when, timeout, firings[..|firings| - 1]);
      var now := firings[|firings| - 1];
      && FiresWhenDue(when, timeout, firings[..|firings| - 1])
      && Normal(now) && GreaterEqual(now, before) && Millis(now) - Millis(before) < TWO_31
  }

  /** No firing is later than the period of the timer. */
  predicate NeverLate(when: Timeval, timeout: int, firings: seq<Timeval>) {
    firings != [] ==>
      && NeverLate(when, timeout, firings[..|firings| - 1])
      && Millis(firings[|firings| - 1]) - Millis(DeadlineAfter(when, timeout, firings[..|firings| - 1])) <= timeout
  }

  /** A repeating timer never gains on its schedule, and does not drift from it, to the
      millisecond, exactly as long as it never fires later than by its period. */
  lemma {:induction false} NoDriftIff(when: Timeval, timeout: int, firings: seq<Timeval>)
    requires Normal(when) && timeout >= 0 && FiresWhenDue(when, timeout, firings)
    ensures Normal(DeadlineAfter(when, timeout, firings))
    ensures Millis(DeadlineAfter(when, timeout, firings)) >= Millis(when) + |firings| * timeout
    ensures Millis(DeadlineAfter(when, timeout, firings)) == Millis(when) + |firings| * timeout <==>
            NeverLate(when, timeout, firings)
  {
    if firings != [] {
      var n := |firings| - 1;
      NoDriftIff(when, timeout, firings[..n]);
      RearmedDeadline(DeadlineAfter(when, timeout, firings[..n]), firings[n], timeout);
      assert |firings| * timeout == n * timeout + timeout;
    }
  }

  /** So its error stays below one millisecond, however often it has fired. */
  lemma ErrorBelowOneMillisecond(when: Timeval, timeout: int, firings: seq<Timeval>)
    requires Normal(when) && timeout >= 0
    requires FiresWhenDue(when, timeout, firings) && NeverLate(when, timeout, firings)
    ensures -1000 < Micros(DeadlineAfter(when, timeout, firings)) - (Micros(when) + |firings| * timeout * 1000) < 1000
  {
    NoDriftIff(when, timeout, firings);
    var d := |firings| * timeout;
    assert Micros(DeadlineAfter(when, timeout, firings)) / 1000 == Micros(when) / 1000 + d;
  }
}
