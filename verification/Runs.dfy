/** Runs of the handset since a reset, and what every run keeps in the radio's ledgers. */
module Runs {
  import opened Common
  import opened Power
  import opened MobileTracker
  import opened Meter
  import opened Handset

  /** A reset (which ends with a tick at the same instant) followed by any number of ticks. */
  datatype Run =
    | AtReset(first: Input, carry: CpuTotals, callback: bool)
    | After(past: Run, t: Input)

  function Last(r: Run): Input {
    match r
    case AtReset(first, _, _) => first
    case After(_, t) => t
  }

  function Clock(r: Run): nat { Last(r).now }

  function ResetTime(r: Run): nat {
    match r
    case AtReset(first, _, _) => first.now
    case After(past, _) => ResetTime(past)
  }

  /** The clock never goes back, and CPU frequencies stay within the table. */
  ghost predicate Legal(pm: PowerModel, r: Run) {
    CpuReadOk(pm, Last(r).cpu) && (r.After? ==> Legal(pm, r.past) && Clock(r.past) <= r.t.now)
  }

  /** The handset's fields after the run. */
  ghost function Final(pm: PowerModel, r: Run): (h: HandsetState)
    requires Legal(pm, r)
    ensures h.ClockOk(Clock(r))
  {
    match r
    case AtReset(first, carry, callback) => TickHandset(pm, Fresh(first.now, carry, callback), first)
    case After(past, t) => TickHandset(pm, Final(pm, past), t)
  }

  ghost function Radio(pm: PowerModel, r: Run): Mobile
    requires Legal(pm, r)
  {
    Final(pm, r).mobile
  }

  predicate ReadsSucceed(r: Run) {
    Last(r).mobile.Some? && (r.After? ==> ReadsSucceed(r.past))
  }

  /** The latest counter reading, with zero as the lower bound before any. */
  function Counters(r: Run): Dirs {
    if Last(r).mobile.Some? then Last(r).mobile.value
    else if r.After? then Counters(r.past) else ZERO
  }

  /** The interface counters never fall. */
  predicate CountersGrow(r: Run) {
    && (Last(r).mobile.Some? ==> (if r.After? then Counters(r.past) else ZERO).AtMost(Last(r).mobile.value))
    && (r.After? ==> CountersGrow(r.past))
  }

  /** Every two consecutive ticks are at least a second apart. */
  predicate SecondsApart(r: Run) {
    r.After? ==> SecondsApart(r.past) && r.t.now - Clock(r.past) >= SECOND
  }

  /** The ticks are exactly a second apart. */
  predicate EverySecond(r: Run) {
    r.After? ==> EverySecond(r.past) && r.t.now - Clock(r.past) == SECOND
  }

  // ---- Time per state ----

  function TimeTotal(m: Mobile): int { m.timeIn.idle + m.timeIn.fach + m.timeIn.dch }

  /** A tick that changes the state credits exactly the time since the last change and restarts the state clock;
      a tick that does not change it leaves both alone. */
  lemma StateChangeIsRecorded(pm: PowerModel, m: Mobile, now: nat, read: Option<Dirs>)
    requires m.ClockOk(now)
    ensures var m' := TickMobile(pm, m, now, read);
      if m'.state == m.state then m'.lastChange == m.lastChange && m'.timeIn == m.timeIn
      else
        && m'.lastChange == now
        && (SECOND <= m.lastChange ==> TimeTotal(m') - TimeTotal(m) == now - m.lastChange)
        && m'.timeIn.Get(m'.state) == m.timeIn.Get(m'.state)
  {
  }

  /** The ledger balances, except that after a reset in the clock's first second (which the code takes
      for an unset time) everything before the first state change is lost. */
  predicate TimeLedger(m: Mobile, reset: nat) {
    && reset <= m.lastChange && reset <= m.lastSample
    && (m.lastChange == reset ==> m.state == IDLE && TimeTotal(m) == SECOND)
    && (m.lastChange != reset ==> m.lastChange >= SECOND)
    && (reset >= SECOND ==> TimeTotal(m) == SECOND + m.lastChange - reset)
    && (reset < SECOND && m.lastChange != reset ==> TimeTotal(m) < SECOND + m.lastChange - reset)
  }

  lemma TimeLedgerKept(pm: PowerModel, m: Mobile, now: nat, read: Option<Dirs>, reset: nat)
    requires m.ClockOk(now) && TimeLedger(m, reset)
    ensures TimeLedger(TickMobile(pm, m, now, read), reset)
  {
    if read.Some? && NextState(pm, m, now, read.value) != m.state && m.lastChange == reset {
      assert Samples(m, now, read.value);
    }
  }

  lemma {:induction false} TimeLedgerHolds(pm: PowerModel, r: Run)
    requires Legal(pm, r)
    ensures TimeLedger(Radio(pm, r), ResetTime(r)) && LedgersOk(Radio(pm, r))
  {
    match r {
      case AtReset(first, _, _) =>
        TimeLedgerKept(pm, FreshMobile(first.now), first.now, first.mobile, first.now);
        LedgersKept(pm, FreshMobile(first.now), first.now, first.mobile);
      case After(past, t) =>
        TimeLedgerHolds(pm, past);
        TimeLedgerKept(pm, Radio(pm, past), t.now, t.mobile, ResetTime(r));
        LedgersKept(pm, Radio(pm, past), t.now, t.mobile);
    }
  }

  /** On any tick schedule the per-state times add up to the initial second plus the time from the reset to
      the last state change, exactly when the reset's clock read at least one second or nothing changed yet. */
  lemma TimeIsConserved(pm: PowerModel, r: Run)
    requires Legal(pm, r)
    ensures var m := Radio(pm, r);
      TimeTotal(m) == SECOND + m.lastChange - ResetTime(r)
      <==> ResetTime(r) >= SECOND || m.lastChange == ResetTime(r)
  {
    TimeLedgerHolds(pm, r);
  }

  lemma ShareOfWhole(part: int, whole: int)
    requires 0 <= part <= whole && 0 < whole
    ensures 0.0 <= Secs(part) / Secs(whole) <= 1.0
    ensures Secs(part) / Secs(whole) == part as real / whole as real
  {
    QuotientMonotone(Secs(part), Secs(whole), Secs(whole), Secs(whole));
    var q := part as real / whole as real;
    assert q * whole as real == part as real;
    assert Secs(part) == q * Secs(whole);
  }

  /** The time fractions are shares of a whole, at any later moment of any run. */
  lemma FractionsAreShares(pm: PowerModel, r: Run, now: nat)
    requires Legal(pm, r) && Clock(r) <= now
    ensures var m := Radio(pm, r);
      && LedgersOk(m) && m.ClockOk(now)
      && (forall s :: 0.0 <= TimeFraction(m, s, now) <= 1.0)
      && TimeFraction(m, IDLE, now) + TimeFraction(m, FACH, now) + TimeFraction(m, DCH, now) == 1.0
      && (ResetTime(r) >= SECOND ==> TimeTotal(m) + now - m.lastChange == SECOND + now - ResetTime(r))
  {
    TimeLedgerHolds(pm, r);
    FractionsOf(Radio(pm, r), now);
  }

  lemma FractionsOf(m: Mobile, now: nat)
    requires LedgersOk(m) && m.ClockOk(now)
    ensures forall s :: 0.0 <= TimeFraction(m, s, now) <= 1.0
    ensures TimeFraction(m, IDLE, now) + TimeFraction(m, FACH, now) + TimeFraction(m, DCH, now) == 1.0
  {
    var whole := TimeTotal(m) + now - m.lastChange;
    forall s ensures 0.0 <= TimeFraction(m, s, now) <= 1.0 {
      ShareOfWhole(m.timeIn.Get(s) + if s == m.state then now - m.lastChange else 0, whole);
    }
    var a := m.timeIn.idle + if IDLE == m.state then now - m.lastChange else 0;
    var b := m.timeIn.fach + if FACH == m.state then now - m.lastChange else 0;
    var c := m.timeIn.dch + if DCH == m.state then now - m.lastChange else 0;
    SharesAddUp(a, b, c, whole);
  }

  lemma SharesAddUp(a: int, b: int, c: int, whole: int)
    requires a + b + c == whole && whole != 0
    ensures Secs(a) / Secs(whole) + Secs(b) / Secs(whole) + Secs(c) / Secs(whole) == 1.0
  {
    var w := Secs(whole);
    var x, y, z := Secs(a) / w, Secs(b) / w, Secs(c) / w;
    assert x * w == Secs(a) && y * w == Secs(b) && z * w == Secs(c);
    assert (x + y + z) * w == x * w + y * w + z * w == w == 1.0 * w;
    assert w != 0.0;
  }

  // ---- Inactivity timers ----

  /** No state outlives its timer; and without a baseline the radio is idle. */
  predicate WithinTimers(pm: PowerModel, m: Mobile, now: nat)
    requires m.ClockOk(now)
  {
    && (m.state == DCH ==> m.Idle(now) < pm.dchTimer)
    && (m.state == FACH ==> m.Idle(now) < pm.fachTimer)
  }

  predicate IdleSumsBelow(pm: PowerModel, m: Mobile) {
    && (!m.Observed() ==> m.state == IDLE)
    && m.idleSum.fach < pm.fachTimer * m.idleCount.fach as real
    && m.idleSum.dch < pm.dchTimer * m.idleCount.dch as real
  }

  lemma TimersKept(pm: PowerModel, m: Mobile, now: nat, read: Option<Dirs>)
    requires pm.ValidRadio() && m.ClockOk(now) && IdleSumsBelow(pm, m)
    requires read.Some? ==> read.value.down >= 0
    ensures var m' := TickMobile(pm, m, now, read);
      IdleSumsBelow(pm, m') && (read.Some? ==> WithinTimers(pm, m', now))
  {
    if read.Some? {
      var m' := TickMobile(pm, m, now, read);
      assert WithinTimers(pm, m', now);
      assert pm.fachTimer * (m.idleCount.fach + 1) as real == pm.fachTimer * m.idleCount.fach as real + pm.fachTimer;
      assert pm.dchTimer * (m.idleCount.dch + 1) as real == pm.dchTimer * m.idleCount.dch as real + pm.dchTimer;
    }
  }

  predicate ReadingsNonNegative(r: Run) {
    (Last(r).mobile.Some? ==> Last(r).mobile.value.down >= 0) && (r.After? ==> ReadingsNonNegative(r.past))
  }

  /** After every tick whose reading succeeds, the idle time is below the timer of the current state,
      whatever the gaps between ticks. */
  lemma {:induction false} TimersNeverOverrun(pm: PowerModel, r: Run)
    requires pm.ValidRadio() && Legal(pm, r) && ReadingsNonNegative(r)
    ensures IdleSumsBelow(pm, Radio(pm, r))
    ensures Last(r).mobile.Some? ==> WithinTimers(pm, Radio(pm, r), Clock(r))
  {
    match r {
      case AtReset(first, _, _) =>
        TimersKept(pm, FreshMobile(first.now), first.now, first.mobile);
      case After(past, t) =>
        TimersNeverOverrun(pm, past);
        TimersKept(pm, Radio(pm, past), t.now, t.mobile);
    }
  }

  /** The average idle times of the active states stay below their timers, failed readings included:
      the clamps that the estimator applies to them have no effect. */
  lemma AverageIdleBelowTimers(pm: PowerModel, r: Run)
    requires pm.ValidRadio() && Legal(pm, r) && ReadingsNonNegative(r)
    ensures var m := Radio(pm, r);
      && LedgersOk(m)
      && 0.0 <= AverageIdle(m, FACH) < pm.fachTimer
      && 0.0 <= AverageIdle(m, DCH) < pm.dchTimer
      && 0.0 <= AverageIdle(m, IDLE)
  {
    TimeLedgerHolds(pm, r);
    TimersNeverOverrun(pm, r);
    AveragesBelow(pm, Radio(pm, r));
  }

  lemma AveragesBelow(pm: PowerModel, m: Mobile)
    requires pm.ValidRadio() && LedgersOk(m) && IdleSumsBelow(pm, m)
    ensures 0.0 <= AverageIdle(m, FACH) < pm.fachTimer
    ensures 0.0 <= AverageIdle(m, DCH) < pm.dchTimer
    ensures 0.0 <= AverageIdle(m, IDLE)
  {
    AverageBelow(m, FACH, pm.fachTimer);
    AverageBelow(m, DCH, pm.dchTimer);
    var bound := m.idleSum.idle + 1.0;
    ProductMonotone(bound, bound, 1.0, m.idleCount.idle as real);
    AverageBelow(m, IDLE, bound);
  }

  lemma AverageBelow(m: Mobile, s: MobileState, bound: real)
    requires 0.0 <= m.idleSum.Get(s) && 0.0 < bound && 1 <= m.idleCount.Get(s)
    requires m.idleSum.Get(s) < bound * m.idleCount.Get(s) as real
    ensures 0.0 <= AverageIdle(m, s) < bound
  {
    var sum, count := m.idleSum.Get(s), m.idleCount.Get(s) as real;
    var q := sum / count;
    assert q * count == sum;
    CancelFactor(0.0, q, count);
    CancelFactorStrictly(q, bound, count);
  }

  // ---- Timeout safety ----

  /** The time of the last traffic that was seen in (or raised the radio to) DCH. */
  ghost function LastDchTraffic(pm: PowerModel, r: Run): Option<nat>
    requires Legal(pm, r)
  {
    if r.AtReset? then None
    else if Active(Radio(pm, r.past), r.t.now, r.t.mobile) && Radio(pm, r).state == DCH then Some(r.t.now)
    else LastDchTraffic(pm, r.past)
  }

  /** No tick goes from DCH to IDLE. */
  lemma NeverDchToIdle(pm: PowerModel, m: Mobile, now: nat, read: Option<Dirs>)
    requires m.ClockOk(now) && m.state == DCH
    ensures TickMobile(pm, m, now, read).state != IDLE
  {
  }

  /** `g` is the last DCH traffic: it is the last activity while in DCH, FACH comes a DCH timer after it at the
      earliest, and IDLE not before both timers have run. */
  predicate TailRespected(pm: PowerModel, m: Mobile, g: Option<nat>, now: nat) {
    && (m.state == DCH ==> g == Some(m.lastActivity))
    && (g.Some? ==>
      && g.value <= m.lastActivity
      && (m.state == FACH ==> Secs(m.lastActivity - g.value) >= pm.dchTimer)
      && (m.state == IDLE ==> Secs(now - g.value) >= pm.dchTimer + pm.fachTimer))
  }

  lemma TailStep(pm: PowerModel, m: Mobile, g: Option<nat>, before: nat, now: nat, read: Option<Dirs>)
    requires pm.ValidRadio() && m.ClockOk(before) && before <= now && TailRespected(pm, m, g, before)
    requires !m.Observed() ==> m.state == IDLE
    ensures var m' := TickMobile(pm, m, now, read);
      TailRespected(pm, m', if Active(m, now, read) && m'.state == DCH then Some(now) else g, now)
  {
    if Active(m, now, read) {
    } else if read.Some? {
      assert m.state != IDLE ==> !Samples(m, now, read.value);
    }
  }

  /** On every run, whatever the gaps between ticks, IDLE is reached only after both timers have run since the
      last traffic in DCH. */
  lemma {:induction false} IdleOnlyAfterBothTimers(pm: PowerModel, r: Run)
    requires pm.ValidRadio() && Legal(pm, r) && ReadingsNonNegative(r)
    ensures TailRespected(pm, Radio(pm, r), LastDchTraffic(pm, r), Clock(r))
  {
    if r.After? {
      IdleOnlyAfterBothTimers(pm, r.past);
      TimersNeverOverrun(pm, r.past);
      TailStep(pm, Radio(pm, r.past), LastDchTraffic(pm, r.past), Clock(r.past), r.t.now, r.t.mobile);
    }
  }
}
