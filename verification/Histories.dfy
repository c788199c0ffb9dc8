/** What a run's own history says about the tracker's ledgers: the idle times it saw, the time it spent in each
    state, the samples it took, and the average estimate that follows from them. */
module Histories {
  import opened Common
  import opened Power
  import opened MobileTracker
  import opened Runs
  import opened MeterRuns
  import opened Estimator

  // ---- Idle times ----

  /** The seconds without activity, summed over the run's successful ticks that end in state `s`. */
  ghost function IdleTotal(pm: PowerModel, r: Run, s: MobileState): real
    requires Legal(pm, r)
  {
    (if r.After? then IdleTotal(pm, r.past, s) else 0.0)
    + if Last(r).mobile.Some? && Radio(pm, r).state == s then Secs(Clock(r) - Radio(pm, r).lastActivity) else 0.0
  }

  /** The number of those ticks. */
  ghost function TicksIn(pm: PowerModel, r: Run, s: MobileState): nat
    requires Legal(pm, r)
  {
    (if r.After? then TicksIn(pm, r.past, s) else 0)
    + if Last(r).mobile.Some? && Radio(pm, r).state == s then 1 else 0
  }

  /** What a tick adds to the idle ledger. */
  predicate IdleAdded(m: Mobile, m': Mobile, now: nat, ticked: bool, s: MobileState)
    requires m'.lastActivity <= now
  {
    && m'.idleSum.Get(s) == m.idleSum.Get(s) + (if ticked && m'.state == s then Secs(now - m'.lastActivity) else 0.0)
    && m'.idleCount.Get(s) == m.idleCount.Get(s) + if ticked && m'.state == s then 1 else 0
  }

  lemma IdleStep(pm: PowerModel, m: Mobile, now: nat, read: Option<Dirs>, s: MobileState)
    requires m.ClockOk(now)
    ensures TickMobile(pm, m, now, read).lastActivity <= now
    ensures IdleAdded(m, TickMobile(pm, m, now, read), now, read.Some?, s)
  {
  }

  /** On every run the idle ledger holds exactly those sums, and one tick more than was taken. */
  lemma {:induction false} IdleLedgerHolds(pm: PowerModel, r: Run, s: MobileState)
    requires Legal(pm, r)
    ensures Radio(pm, r).idleSum.Get(s) == IdleTotal(pm, r, s)
    ensures Radio(pm, r).idleCount.Get(s) == TicksIn(pm, r, s) + 1
  {
    match r {
      case AtReset(first, _, _) =>
        IdleStep(pm, FreshMobile(first.now), first.now, first.mobile, s);
      case After(past, t) =>
        IdleLedgerHolds(pm, past, s);
        IdleStep(pm, Radio(pm, past), t.now, t.mobile, s);
    }
  }

  lemma AverageTimesCount(m: Mobile, s: MobileState, count: int, sum: real)
    requires m.idleCount.Get(s) == count > 0 && m.idleSum.Get(s) == sum
    ensures Scaled(AverageIdle(m, s), count as real) == sum
  {
    QuotientTimes(sum, count as real);
  }

  /** So the average idle time of a state, times that count, is that sum. */
  lemma AverageIdleIs(pm: PowerModel, r: Run, s: MobileState)
    requires Legal(pm, r)
    ensures Radio(pm, r).idleCount.Get(s) != 0
    ensures Scaled(AverageIdle(Radio(pm, r), s), (TicksIn(pm, r, s) + 1) as real) == IdleTotal(pm, r, s)
  {
    IdleLedgerHolds(pm, r, s);
    AverageTimesCount(Radio(pm, r), s, TicksIn(pm, r, s) + 1, IdleTotal(pm, r, s));
  }

  // ---- Time in each state ----

  /** The time from the reset to the last tick that was spent in state `s`, each gap in the state that is held through
      it, plus the initial second in IDLE. */
  ghost function TimeSpent(pm: PowerModel, r: Run, s: MobileState): int
    requires Legal(pm, r)
  {
    match r
    case AtReset(_, _, _) => if s == IDLE then SECOND else 0
    case After(past, t) =>
      TimeSpent(pm, past, s) + if Radio(pm, past).state == s then t.now - Clock(past) else 0
  }

  /** The same, up to `now`. */
  ghost function SpentUntil(pm: PowerModel, r: Run, s: MobileState, now: nat): int
    requires Legal(pm, r)
  {
    TimeSpent(pm, r, s) + if Radio(pm, r).state == s then now - Clock(r) else 0
  }

  /** The ledger's time in state `s`, running time included, up to `now`. */
  function Credited(m: Mobile, s: MobileState, now: nat): int {
    m.timeIn.Get(s) + if s == m.state then now - m.lastChange else 0
  }

  function LostIn(m: Mobile, reset: nat, s: MobileState): int { if s == IDLE then LostTime(m, reset) else 0 }

  lemma CreditStep(pm: PowerModel, m: Mobile, before: nat, now: nat, read: Option<Dirs>, reset: nat, s: MobileState)
    requires m.ClockOk(before) && before <= now && TimeLedger(m, reset)
    ensures var m' := TickMobile(pm, m, now, read);
      Credited(m', s, now) + LostIn(m', reset, s)
      == Credited(m, s, before) + LostIn(m, reset, s) + if m.state == s then now - before else 0
  {
  }

  lemma {:induction false} CreditHolds(pm: PowerModel, r: Run, s: MobileState, reset: nat)
    requires Legal(pm, r) && reset == ResetTime(r)
    ensures Credited(Radio(pm, r), s, Clock(r)) + LostIn(Radio(pm, r), reset, s) == TimeSpent(pm, r, s)
  {
    match r {
      case AtReset(first, _, _) =>
        CreditStep(pm, FreshMobile(first.now), first.now, first.now, first.mobile, reset, s);
      case After(past, t) =>
        CreditHolds(pm, past, s, reset);
        TimeLedgerHolds(pm, past);
        CreditStep(pm, Radio(pm, past), Clock(past), t.now, t.mobile, reset, s);
    }
  }

  lemma FractionTimesWhole(m: Mobile, s: MobileState, now: nat, part: int, whole: int)
    requires TimeTotal(m) + now - m.lastChange == whole > 0 && Credited(m, s, now) == part
    ensures Scaled(TimeFraction(m, s, now), Secs(whole)) == Secs(part)
  {
    QuotientTimes(Secs(part), Secs(whole));
  }

  lemma CreditUntil(pm: PowerModel, r: Run, s: MobileState, now: nat)
    requires Legal(pm, r) && Clock(r) <= now
    ensures Credited(Radio(pm, r), s, now)
         == SpentUntil(pm, r, s, now) - LostIn(Radio(pm, r), ResetTime(r), s)
  {
    CreditHolds(pm, r, s, ResetTime(r));
  }

  /** The time that the shares are shares of: since the reset, plus the initial second, less what the ledger lost. */
  ghost function WholeTime(pm: PowerModel, r: Run, now: nat): int
    requires Legal(pm, r)
  {
    SECOND + now - ResetTime(r) - LostTime(Radio(pm, r), ResetTime(r))
  }

  ghost function PartTime(pm: PowerModel, r: Run, s: MobileState, now: nat): int
    requires Legal(pm, r)
  {
    SpentUntil(pm, r, s, now) - LostIn(Radio(pm, r), ResetTime(r), s)
  }

  lemma WholeIsPositive(pm: PowerModel, r: Run, now: nat)
    requires Legal(pm, r) && Clock(r) <= now
    ensures var m := Radio(pm, r);
      LedgersOk(m) && m.ClockOk(now) && TimeTotal(m) + now - m.lastChange == WholeTime(pm, r, now) > 0
  {
    TimeLedgerHolds(pm, r);
  }

  /** At any moment of any run the fraction of a state, times the time since the reset, is the time the run spent in
      that state; for IDLE less the time that the ledger lost, of which there is none after a reset at one second
      or later. */
  lemma TimeFractionIs(pm: PowerModel, r: Run, s: MobileState, now: nat)
    requires Legal(pm, r) && Clock(r) <= now
    ensures LedgersOk(Radio(pm, r)) && Radio(pm, r).ClockOk(now)
    ensures Scaled(TimeFraction(Radio(pm, r), s, now), Secs(WholeTime(pm, r, now))) == Secs(PartTime(pm, r, s, now))
    ensures ResetTime(r) >= SECOND ==>
      WholeTime(pm, r, now) == SECOND + now - ResetTime(r) && PartTime(pm, r, s, now) == SpentUntil(pm, r, s, now)
  {
    WholeIsPositive(pm, r, now);
    CreditUntil(pm, r, s, now);
    TimeIsConserved(pm, r);
    FractionTimesWhole(Radio(pm, r), s, now, PartTime(pm, r, s, now), WholeTime(pm, r, now));
  }

  // ---- The average estimate ----

  /** What the transfer costs from state `s` after that state's average idle time, with empty queues. */
  ghost function CostFrom(pm: PowerModel, remote: bool, r: Run, s: MobileState,
                          datalen: nat, bandwidth: nat, rttMs: nat): int
    requires Legal(pm, r) && bandwidth > 0 && Radio(pm, r).idleCount.Get(s) != 0
  {
    EstimateFromState(pm, remote, datalen, bandwidth, rttMs, s, AverageIdle(Radio(pm, r), s), 0, 0)
  }

  lemma PartTimesWhole(x: real, a: int, whole: real, part: real)
    requires Scaled(x, whole) == part
    ensures Scaled(whole, Part(x, a)) == Scaled(a as real, part)
  {
  }

  lemma SumTimesWhole(x: real, y: real, z: real, whole: real)
    ensures Scaled(whole, x + y + z) == Scaled(whole, x) + Scaled(whole, y) + Scaled(whole, z)
  {
    ScaledAddsUp(whole, x + y, z);
    ScaledAddsUp(whole, x, y);
  }

  lemma TruncatedSum(u: real, v: real, w: real, whole: real, idle: real, fach: real, dch: real)
    requires 0.0 <= u && 0.0 <= v && 0.0 <= w && 0.0 < whole
    requires Scaled(whole, u) == idle && Scaled(whole, v) == fach && Scaled(whole, w) == dch
    ensures TruncatedAverage(Trunc(u + v + w), whole, idle + fach + dch)
  {
    SumTimesWhole(u, v, w, whole);
    FloorTimesWhole(u + v + w, whole);
  }

  lemma PartIsNonNegative(x: real, a: int)
    requires 0.0 <= x && 0 <= a
    ensures 0.0 <= Part(x, a)
  {
    ProductSigns(x, a as real);
  }

  lemma AverageBySeconds(x: real, y: real, z: real, a: int, b: int, c: int, whole: real,
                         idle: real, fach: real, dch: real)
    requires 0.0 <= x && 0.0 <= y && 0.0 <= z && 0 <= a && 0 <= b && 0 <= c && 0.0 < whole
    requires Scaled(x, whole) == idle && Scaled(y, whole) == fach && Scaled(z, whole) == dch
    ensures TruncatedAverage(WeightedSum(x, y, z, a, b, c), whole,
                             Scaled(a as real, idle) + Scaled(b as real, fach) + Scaled(c as real, dch))
  {
    PartTimesWhole(x, a, whole, idle);
    PartTimesWhole(y, b, whole, fach);
    PartTimesWhole(z, c, whole, dch);
    PartIsNonNegative(x, a);
    PartIsNonNegative(y, b);
    PartIsNonNegative(z, c);
    TruncatedSum(Part(x, a), Part(y, b), Part(z, c), whole,
                 Scaled(a as real, idle), Scaled(b as real, fach), Scaled(c as real, dch));
  }

  /** On every run the average estimate is the truncated mean of the costs from the three states, each weighted by
      the time the run spent in that state. */
  lemma AverageIsWeightedByTime(pm: PowerModel, remote: bool, r: Run, now: nat,
                                datalen: nat, bandwidth: nat, rttMs: nat, idle: int, fach: int, dch: int)
    requires Legal(pm, r) && Clock(r) <= now && bandwidth > 0 && LedgersOk(Radio(pm, r))
    requires idle == CostFrom(pm, remote, r, IDLE, datalen, bandwidth, rttMs)
    requires fach == CostFrom(pm, remote, r, FACH, datalen, bandwidth, rttMs)
    requires dch == CostFrom(pm, remote, r, DCH, datalen, bandwidth, rttMs)
    ensures Radio(pm, r).ClockOk(now)
    ensures TruncatedAverage(AverageCost(pm, remote, Radio(pm, r), now, datalen, bandwidth, rttMs),
                             Secs(WholeTime(pm, r, now)),
                             Scaled(idle as real, Secs(PartTime(pm, r, IDLE, now)))
                             + Scaled(fach as real, Secs(PartTime(pm, r, FACH, now)))
                             + Scaled(dch as real, Secs(PartTime(pm, r, DCH, now))))
  {
    FractionsAreShares(pm, r, now);
    WholeIsPositive(pm, r, now);
    TimeFractionIs(pm, r, IDLE, now);
    TimeFractionIs(pm, r, FACH, now);
    TimeFractionIs(pm, r, DCH, now);
    var m := Radio(pm, r);
    AverageBySeconds(TimeFraction(m, IDLE, now), TimeFraction(m, FACH, now), TimeFraction(m, DCH, now),
                     idle, fach, dch, Secs(WholeTime(pm, r, now)), Secs(PartTime(pm, r, IDLE, now)),
                     Secs(PartTime(pm, r, FACH, now)), Secs(PartTime(pm, r, DCH, now)));
  }

  // ---- The tracker's samples ----

  /** Whether the tracker samples the run's last tick, by the run's inputs alone: the reading succeeds, a second has
      passed since the last sample, and a counter has grown since then. */
  predicate SamplesRadio(r: Run)
    decreases r, 0
  {
    && r.After? && r.t.mobile.Some? && r.t.now - RadioSampled(r.past) >= SECOND
    && !r.t.mobile.value.AtMost(RadioReading(r.past))
  }

  /** The time of the last sample, or the reset. */
  function RadioSampled(r: Run): nat
    decreases r, 1
  {
    if r.AtReset? then ResetTime(r) else if SamplesRadio(r) then r.t.now else RadioSampled(r.past)
  }

  /** The counters of the last sample, unset before the first. */
  function RadioReading(r: Run): Dirs
    decreases r, 1
  {
    if r.AtReset? then UNSET else if SamplesRadio(r) then r.t.mobile.value else RadioReading(r.past)
  }

  /** The bytes between the last two samples, if no tick has come since; zero after a tick that finds nothing. */
  function RadioDelta(r: Run): Dirs {
    if r.AtReset? then ZERO
    else if r.t.mobile.None? then RadioDelta(r.past)
    else if !SamplesRadio(r) then ZERO
    else if RadioReading(r.past).down == -1 then RadioDelta(r.past)
    else r.t.mobile.value.Minus(RadioReading(r.past))
  }

  lemma RadioStep(pm: PowerModel, m: Mobile, now: nat, read: Option<Dirs>)
    requires m.ClockOk(now)
    ensures var m' := TickMobile(pm, m, now, read);
      var samples := read.Some? && now - m.lastSample >= SECOND && !read.value.AtMost(m.lastBytes);
      && m'.lastSample == (if samples then now else m.lastSample)
      && m'.lastBytes == (if samples then read.value else m.lastBytes)
      && (read.None? ==> m'.lastDelta == m.lastDelta)
      && (read.Some? && !samples ==> m'.lastDelta == ZERO)
      && (samples && m.lastBytes.down == -1 ==> m'.lastDelta == m.lastDelta)
      && (samples && m.lastBytes.down != -1 ==> m'.lastDelta == read.value.Minus(m.lastBytes))
  {
  }

  lemma RadioAtReset(pm: PowerModel, r: Run)
    requires Legal(pm, r) && r.AtReset?
    ensures var m := Radio(pm, r); m.lastSample == ResetTime(r) && m.lastBytes == UNSET && m.lastDelta == ZERO
  {
    RadioStep(pm, FreshMobile(r.first.now), r.first.now, r.first.mobile);
  }

  /** On every run the tracker's samples are those of the inputs; so no two are less than a second apart. */
  lemma {:induction false} RadioSamplesAre(pm: PowerModel, r: Run)
    requires Legal(pm, r)
    ensures Radio(pm, r).lastSample == RadioSampled(r)
    ensures Radio(pm, r).lastBytes == RadioReading(r) && Radio(pm, r).lastDelta == RadioDelta(r)
    ensures r.After? && Radio(pm, r).lastSample != Radio(pm, r.past).lastSample ==>
      Radio(pm, r).lastSample - Radio(pm, r.past).lastSample >= SECOND
  {
    match r {
      case AtReset(_, _, _) =>
        RadioAtReset(pm, r);
      case After(past, t) =>
        RadioSamplesAre(pm, past);
        RadioStep(pm, Radio(pm, past), t.now, t.mobile);
    }
  }

  /** The last tick sampled traffic: there was an earlier sample to compare with. */
  predicate SeesTraffic(r: Run) { SamplesRadio(r) && RadioReading(r.past) != UNSET }

  lemma {:induction false} ReadingIsUnset(pm: PowerModel, r: Run)
    requires Legal(pm, r) && CountersGrow(r)
    ensures Radio(pm, r).Observed() <==> RadioReading(r) != UNSET
  {
    RadioSamplesAre(pm, r);
    BytesStayInRange(pm, r);
  }

  /** State and last activity after a tick, for its idle time `idle` and, with traffic, the bytes `delta` of its
      sample. */
  ghost predicate Follows(pm: PowerModel, m: Mobile, m': Mobile, now: nat, traffic: bool, quiet: bool,
                          delta: Dirs, idle: real) {
    if traffic then
      && m'.lastActivity == now && m'.state != IDLE
      && (m'.state == DCH <==> m.state == DCH || delta.down >= pm.dchThresholdDown || delta.up >= pm.dchThresholdUp)
    else if quiet && m.state == DCH && idle >= pm.dchTimer then m'.state == FACH && m'.lastActivity == now
    else if quiet && m.state == FACH && idle >= pm.fachTimer then m'.state == IDLE && m'.lastActivity == m.lastActivity
    else m'.state == m.state && m'.lastActivity == m.lastActivity
  }

  lemma FollowsStep(pm: PowerModel, m: Mobile, now: nat, read: Option<Dirs>)
    requires m.ClockOk(now)
    ensures var traffic, m' := Active(m, now, read), TickMobile(pm, m, now, read);
      Follows(pm, m, m', now, traffic, read.Some? && !Samples(m, now, read.value), m'.lastDelta,
              Secs(now - m.lastActivity))
  {
  }

  /** On every run traffic wakes the radio, and raises it to DCH exactly if a direction's bytes since the last sample
      reach its threshold; a successful reading without a sample lets expired timers lower it; and nothing else
      changes its state or last activity. */
  lemma RadioFollowsTraffic(pm: PowerModel, r: Run)
    requires Legal(pm, r) && CountersGrow(r) && r.After?
    ensures Follows(pm, Radio(pm, r.past), Radio(pm, r), r.t.now, SeesTraffic(r),
                    r.t.mobile.Some? && !SamplesRadio(r), RadioDelta(r), Secs(r.t.now - Radio(pm, r.past).lastActivity))
  {
    RadioSamplesAre(pm, r);
    RadioSamplesAre(pm, r.past);
    ReadingIsUnset(pm, r.past);
    FollowsStep(pm, Radio(pm, r.past), r.t.now, r.t.mobile);
  }
}
