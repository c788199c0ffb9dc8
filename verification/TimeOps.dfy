/** Second/microsecond timestamps and the carry and borrow arithmetic on them. */
module TimeOps {

  const MAX_SUBSECS: int := 1_000_000

  /** The value held by a timestamp structure. */
  datatype Stamp = Stamp(sec: int, usec: int) {
    predicate Normalized() { 0 <= usec < MAX_SUBSECS }

    function Micros(): int { sec * MAX_SUBSECS + usec }

    /** The order that the assertion in TIMEDIFF compares with. */
    predicate NotBefore(b: Stamp) { sec > b.sec || (sec == b.sec && usec >= b.usec) }
  }

  function Sum(a: Stamp, b: Stamp): Stamp {
    if a.usec + b.usec >= MAX_SUBSECS
    then Stamp(a.sec + b.sec + 1, a.usec + b.usec - MAX_SUBSECS)
    else Stamp(a.sec + b.sec, a.usec + b.usec)
  }

  function Difference(b: Stamp, e: Stamp): Stamp {
    if e.usec < b.usec
    then Stamp(e.sec - b.sec - 1, MAX_SUBSECS + e.usec - b.usec)
    else Stamp(e.sec - b.sec, e.usec - b.usec)
  }

  /** Carrying and borrowing are exact microsecond arithmetic and keep results normalized. */
  lemma ArithmeticIsExact(a: Stamp, b: Stamp)
    requires a.Normalized() && b.Normalized()
    ensures Sum(a, b).Normalized() && Sum(a, b).Micros() == a.Micros() + b.Micros()
    ensures Difference(a, b).Normalized() && Difference(a, b).Micros() == b.Micros() - a.Micros()
    ensures b.NotBefore(a) <==> a.Micros() <= b.Micros()
  {
  }

  /** A normalized timestamp is determined by its microsecond count. */
  lemma NormalizedIsUnique(a: Stamp, b: Stamp)
    requires a.Normalized() && b.Normalized() && a.Micros() == b.Micros()
    ensures a == b
  {
  }

  /** Adding a duration and then taking the difference gives the duration back, and the reverse. */
  lemma AdditionAndDifferenceUndo(a: Stamp, b: Stamp)
    requires a.Normalized() && b.Normalized()
    ensures Difference(a, Sum(a, b)) == b
    ensures b.NotBefore(a) ==> Sum(a, Difference(a, b)) == b && Difference(a, b).NotBefore(Stamp(0, 0))
  {
    ArithmeticIsExact(a, b);
    ArithmeticIsExact(a, Sum(a, b));
    NormalizedIsUnique(Difference(a, Sum(a, b)), b);
  }

  /** The tests on whole seconds that gate sampling and charging are tests on microseconds. */
  lemma SecondGates(d: Stamp)
    requires d.Normalized()
    ensures d.sec >= 1 <==> d.Micros() >= MAX_SUBSECS
    ensures d.NotBefore(Stamp(0, 0)) ==> (d.sec != 0 <==> d.Micros() >= MAX_SUBSECS)
  {
  }

  class Timeval {
    var sec: int
    var usec: int

    constructor (sec: int, usec: int)
      ensures Value() == Stamp(sec, usec)
    {
      this.sec, this.usec := sec, usec;
    }

    ghost function Value(): Stamp
      reads this
    {
      Stamp(sec, usec)
    }
  }

  /** `timeradd`. The result may be either operand. */
  method TimerAdd(t: Timeval, u: Timeval, v: Timeval)
    requires t.Value().Normalized() && u.Value().Normalized()
    modifies v
    ensures v.Value() == Sum(old(t.Value()), old(u.Value()))
    ensures v.Value().Normalized()
    ensures v.Value().Micros() == old(t.Value().Micros()) + old(u.Value().Micros())
  {
    v.sec := t.sec + u.sec;
    v.usec := t.usec + u.usec;
    if v.usec >= MAX_SUBSECS {
      v.sec := v.sec + 1;
      v.usec := v.usec - MAX_SUBSECS;
    }
  }

  /** `TIMEDIFF`. The result may be either operand; the source asserts the order. */
  method TimeDiff(b: Timeval, e: Timeval, r: Timeval)
    requires b.Value().Normalized() && e.Value().Normalized()
    requires e.Value().NotBefore(b.Value())
    modifies r
    ensures r.Value() == Difference(old(b.Value()), old(e.Value()))
    ensures r.Value().Normalized()
    ensures r.Value().Micros() == old(e.Value().Micros()) - old(b.Value().Micros()) >= 0
  {
    if e.usec < b.usec {
      r.usec := MAX_SUBSECS + e.usec - b.usec;
      r.sec := e.sec - b.sec - 1;
    } else {
      r.usec := e.usec - b.usec;
      r.sec := e.sec - b.sec;
    }
  }

  ghost function TotalMicros(times: seq<Timeval>): int
    reads times
  {
    if times == [] then 0
    else TotalMicros(times[..|times| - 1]) + times[|times| - 1].Value().Micros()
  }

  /** The summing loop: `total` is both an operand and the result of every addition. */
  method AddUp(times: seq<Timeval>, total: Timeval)
    requires total !in times
    requires forall t :: t in times ==> t.Value().Normalized()
    requires total.Value() == Stamp(0, 0)
    modifies total
    ensures total.Value().Normalized()
    ensures total.Value().Micros() == TotalMicros(times)
  {
    for i := 0 to |times|
      invariant total.Value().Normalized()
      invariant total.Value().Micros() == TotalMicros(times[..i])
    {
      assert times[..i + 1][..i] == times[..i];
      TimerAdd(total, times[i], total);
      assert TotalMicros(times[..i + 1]) == TotalMicros(times[..i]) + times[i].Value().Micros();
    }
    assert times[..|times|] == times;
  }
}
