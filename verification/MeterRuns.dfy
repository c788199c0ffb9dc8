/** What every run keeps in the meter's ledgers, and how they reconcile with the radio's. */
module MeterRuns {
  import opened Common
  import opened Power
  import opened MobileTracker
  import opened WifiSampler
  import opened Meter
  import opened Handset
  import opened Runs

  ghost function MeterOf(pm: PowerModel, r: Run): MeterState
    requires Legal(pm, r)
  {
    Final(pm, r).meter
  }

  /** Whether the last tick of the run was charged. */
  ghost predicate Charged(pm: PowerModel, r: Run)
    requires Legal(pm, r)
  {
    r.After? && Charges(MeterOf(pm, r.past), r.t.now)
  }

  // ---- Bytes ----

  /** The counter total of the first reading that was taken as baseline. */
  ghost function Baseline(pm: PowerModel, r: Run): int
    requires Legal(pm, r)
  {
    if r.AtReset? then 0
    else if Radio(pm, r.past).Observed() then Baseline(pm, r.past)
    else Total(Radio(pm, r))
  }

  /** Bytes charged again: a failed reading leaves the last deltas in place for the meter. */
  ghost function Recounted(pm: PowerModel, r: Run): int
    requires Legal(pm, r)
  {
    if r.AtReset? then 0
    else Recounted(pm, r.past)
         + if r.t.mobile.None? && Charged(pm, r) then Radio(pm, r.past).lastDelta.Sum() else 0
  }

  /** Bytes never charged: a sample less than a second after the last charge is forgotten by the next tick. */
  ghost function Missed(pm: PowerModel, r: Run): int
    requires Legal(pm, r)
  {
    if r.AtReset? then 0
    else Missed(pm, r.past) + if r.t.mobile.Some? && !Charged(pm, r) then Radio(pm, r).lastDelta.Sum() else 0
  }

  /** No failed reading was charged while deltas were pending. */
  ghost predicate NeverRecounts(pm: PowerModel, r: Run)
    requires Legal(pm, r)
  {
    r.After? ==>
      NeverRecounts(pm, r.past) && (r.t.mobile.None? && Charged(pm, r) ==> Radio(pm, r.past).lastDelta == ZERO)
  }

  /** No sample was left uncharged. */
  ghost predicate NeverMisses(pm: PowerModel, r: Run)
    requires Legal(pm, r)
  {
    r.After? ==>
      NeverMisses(pm, r.past) && (r.t.mobile.Some? && !Charged(pm, r) ==> Radio(pm, r).lastDelta == ZERO)
  }

  /** The tracker's bytes lie between zero and the latest counters; before the baseline they are unset. */
  predicate BytesInRange(last: Dirs, delta: Dirs, counters: Dirs) {
    && ZERO.AtMost(delta) && ZERO.AtMost(counters) && last.AtMost(counters)
    && if last.down == -1 then last == UNSET && delta == ZERO else ZERO.AtMost(last)
  }

  /** What a tick does to the last bytes and deltas. */
  lemma SampledBytes(pm: PowerModel, m: Mobile, now: nat, read: Option<Dirs>)
    requires m.ClockOk(now)
    ensures var m' := TickMobile(pm, m, now, read);
      if read.None? then m'.lastBytes == m.lastBytes && m'.lastDelta == m.lastDelta
      else if Active(m, now, read)
      then m'.lastBytes == read.value && m'.lastDelta == read.value.Minus(m.lastBytes)
      else if Samples(m, now, read.value) then m'.lastBytes == read.value && m'.lastDelta == m.lastDelta
      else m'.lastBytes == m.lastBytes && m'.lastDelta == ZERO
  {
  }

  lemma {:induction false} BytesStayInRange(pm: PowerModel, r: Run)
    requires Legal(pm, r) && CountersGrow(r)
    ensures BytesInRange(Radio(pm, r).lastBytes, Radio(pm, r).lastDelta, Counters(r))
  {
    if r.After? {
      BytesStayInRange(pm, r.past);
      SampledBytes(pm, Radio(pm, r.past), r.t.now, r.t.mobile);
    }
  }

  /** The total of the last bytes; zero without a baseline. */
  function Total(m: Mobile): int { if m.Observed() then m.lastBytes.Sum() else 0 }

  /** A successful reading after the baseline adds exactly the new deltas to the total. */
  lemma TotalStep(pm: PowerModel, m: Mobile, now: nat, bytes: Dirs)
    requires m.ClockOk(now) && m.Observed() && 0 <= bytes.down
    ensures var m' := TickMobile(pm, m, now, Some(bytes));
      m'.Observed() && Total(m') == Total(m) + m'.lastDelta.Sum()
  {
    SampledBytes(pm, m, now, Some(bytes));
  }

  /** Without a baseline nothing is gained. */
  lemma {:induction false} NoBaselineYet(pm: PowerModel, r: Run)
    requires Legal(pm, r) && CountersGrow(r)
    ensures !Radio(pm, r).Observed() ==> Baseline(pm, r) == 0
  {
    if r.After? {
      NoBaselineYet(pm, r.past);
      BytesStayInRange(pm, r.past);
      SampledBytes(pm, Radio(pm, r.past), r.t.now, r.t.mobile);
    }
  }

  lemma GainStep(pm: PowerModel, r: Run)
    requires Legal(pm, r) && CountersGrow(r) && r.After?
    ensures r.t.mobile.Some? ==> Gained(pm, r) == Gained(pm, r.past) + Radio(pm, r).lastDelta.Sum()
    ensures r.t.mobile.None? ==>
      Gained(pm, r) == Gained(pm, r.past) && Radio(pm, r).lastDelta == Radio(pm, r.past).lastDelta
  {
    var m := Radio(pm, r.past);
    BytesStayInRange(pm, r.past);
    NoBaselineYet(pm, r.past);
    SampledBytes(pm, m, r.t.now, r.t.mobile);
    if m.Observed() && r.t.mobile.Some? {
      TotalStep(pm, m, r.t.now, r.t.mobile.value);
    }
  }

  /** The counter total gained since the baseline reading. */
  ghost function Gained(pm: PowerModel, r: Run): int
    requires Legal(pm, r)
  {
    Total(Radio(pm, r)) - Baseline(pm, r)
  }

  lemma MeteredBytes(pm: PowerModel, r: Run)
    requires Legal(pm, r) && r.After?
    ensures MeterOf(pm, r).bytes
         == MeterOf(pm, r.past).bytes + if Charged(pm, r) then Radio(pm, r).lastDelta.Sum() else 0
    ensures SecondsApart(r) ==> Charged(pm, r)
  {
  }

  /** The byte total against the counter total gained since the baseline. */
  lemma {:induction false} ByteLedgerHolds(pm: PowerModel, r: Run)
    requires Legal(pm, r) && CountersGrow(r)
    ensures MeterOf(pm, r).bytes + Missed(pm, r) == Gained(pm, r) + Recounted(pm, r)
  {
    if r.After? {
      ByteLedgerHolds(pm, r.past);
      GainStep(pm, r);
      MeteredBytes(pm, r);
    }
  }

  lemma {:induction false} RecountedIff(pm: PowerModel, r: Run)
    requires Legal(pm, r) && CountersGrow(r)
    ensures 0 <= Recounted(pm, r)
    ensures Recounted(pm, r) == 0 <==> NeverRecounts(pm, r)
    ensures ReadsSucceed(r) ==> NeverRecounts(pm, r)
  {
    if r.After? {
      RecountedIff(pm, r.past);
      BytesStayInRange(pm, r.past);
    }
  }

  lemma {:induction false} MissedIff(pm: PowerModel, r: Run)
    requires Legal(pm, r) && CountersGrow(r)
    ensures 0 <= Missed(pm, r)
    ensures Missed(pm, r) == 0 <==> NeverMisses(pm, r)
    ensures SecondsApart(r) ==> NeverMisses(pm, r)
  {
    if r.After? {
      MissedIff(pm, r.past);
      BytesStayInRange(pm, r);
      MeteredBytes(pm, r);
    }
  }

  /** On any schedule what the meter has is what the counters gained since the baseline, plus what failed readings
      counted again, minus the samples between charges. So with successful readings no byte is counted twice and
      every byte is counted exactly if no sample was left uncharged; and with ticks at least a second apart every
      byte is counted exactly once precisely if no failed reading was charged while deltas were pending. */
  lemma BytesAreConserved(pm: PowerModel, r: Run)
    requires Legal(pm, r) && CountersGrow(r) && Radio(pm, r).Observed()
    ensures var gained := Radio(pm, r).lastBytes.Sum() - Baseline(pm, r);
      var bytes := MeterOf(pm, r).bytes;
      && bytes + Missed(pm, r) == gained + Recounted(pm, r)
      && (ReadsSucceed(r) ==> bytes <= gained && (bytes == gained <==> NeverMisses(pm, r)))
      && (SecondsApart(r) ==> gained <= bytes && (bytes == gained <==> NeverRecounts(pm, r)))
    ensures 0 <= Missed(pm, r) && (Missed(pm, r) == 0 <==> NeverMisses(pm, r))
    ensures 0 <= Recounted(pm, r) && (Recounted(pm, r) == 0 <==> NeverRecounts(pm, r))
  {
    ByteLedgerHolds(pm, r);
    RecountedIff(pm, r);
    MissedIff(pm, r);
  }

  /** Successful readings are needed: whatever the run, a failed reading a second or more after the last charge
      charges the pending deltas although no byte was gained. */
  lemma FailedReadCountsAgain(pm: PowerModel, r: Run, t: Input)
    requires Legal(pm, After(r, t)) && CountersGrow(After(r, t))
    requires t.mobile.None? && Charges(MeterOf(pm, r), t.now)
    ensures Gained(pm, After(r, t)) == Gained(pm, r)
    ensures MeterOf(pm, After(r, t)).bytes == MeterOf(pm, r).bytes + Radio(pm, r).lastDelta.Sum()
  {
    GainStep(pm, After(r, t));
    MeteredBytes(pm, After(r, t));
  }

  // ---- Energy ----

  /** The radio's and the WiFi's parts of the energy charged. */
  ghost function MobileEnergy(pm: PowerModel, r: Run): int
    requires Legal(pm, r)
  {
    if r.AtReset? then 0
    else MobileEnergy(pm, r.past) + if Charged(pm, r) then pm.PowerCoeff(Radio(pm, r).state) else 0
  }

  ghost function WifiEnergy(pm: PowerModel, r: Run): int
    requires Legal(pm, r)
  {
    if r.AtReset? then 0
    else WifiEnergy(pm, r.past) + if Charged(pm, r) then WifiCharge(pm, Final(pm, r).wifi) else 0
  }

  ghost function ChargeCount(pm: PowerModel, r: Run): nat
    requires Legal(pm, r)
  {
    if r.AtReset? then 0 else ChargeCount(pm, r.past) + if Charged(pm, r) then 1 else 0
  }

  /** The largest amount added to a component's total by one charge. */
  ghost function LargestCharge(pm: PowerModel, r: Run, c: EnergyComponent): int
    requires Legal(pm, r)
  {
    if r.AtReset? then 0
    else
      var before := LargestCharge(pm, r.past, c);
      var charge := MeterOf(pm, r).energy.Of(c) - MeterOf(pm, r.past).energy.Of(c);
      if charge > before then charge else before
  }

  /** The overall total is the sum of the components, whose networking part is radio plus WiFi; and the
      meter charges at most once in every whole second since the reset. */
  lemma {:induction false} EnergyLedgerHolds(pm: PowerModel, r: Run)
    requires Legal(pm, r)
    ensures var mt := MeterOf(pm, r);
      && mt.energy.all == mt.energy.cpu + mt.energy.networking
      && mt.energy.networking == MobileEnergy(pm, r) + WifiEnergy(pm, r)
      && mt.lastReset == ResetTime(r)
      && ChargeCount(pm, r) * SECOND <= mt.lastUpdate - mt.lastReset
  {
    if r.After? {
      EnergyLedgerHolds(pm, r.past);
    }
  }

  /** The sum of `n` equal amounts. */
  function Repeated(n: nat, amount: int): int {
    if n == 0 then 0 else Repeated(n - 1, amount) + amount
  }

  lemma {:induction false} RepeatedMonotone(n: nat, a: int, b: int)
    requires 0 <= a <= b
    ensures Repeated(n, a) <= Repeated(n, b)
  {
    if n > 0 {
      RepeatedMonotone(n - 1, a, b);
    }
  }

  lemma {:induction false} RepeatedIsProduct(n: nat, amount: int)
    ensures Repeated(n, amount) == amount * n
  {
    if n > 0 {
      RepeatedIsProduct(n - 1, amount);
    }
  }

  /** An energy that `n` charges of at most `largest` can add up to. */
  predicate WithinCharges(energy: int, n: nat, largest: int) { 0 <= largest && energy <= Repeated(n, largest) }

  lemma ChargeKeepsWithin(energy: int, n: nat, largest: int, energy': int, charged: bool, largest': int)
    requires WithinCharges(energy, n, largest) && largest <= largest'
    requires energy' - energy <= if charged then largest' else 0
    ensures WithinCharges(energy', if charged then n + 1 else n, largest')
  {
    RepeatedMonotone(n, largest, largest');
  }

  lemma {:induction false} EnergyAtMostLargestCharges(pm: PowerModel, r: Run, c: EnergyComponent)
    requires Legal(pm, r)
    ensures WithinCharges(MeterOf(pm, r).energy.Of(c), ChargeCount(pm, r), LargestCharge(pm, r, c))
  {
    if r.After? {
      EnergyAtMostLargestCharges(pm, r.past, c);
      LargestChargeStep(pm, r, c);
      ChargeKeepsWithin(MeterOf(pm, r.past).energy.Of(c), ChargeCount(pm, r.past), LargestCharge(pm, r.past, c),
                        MeterOf(pm, r).energy.Of(c), Charged(pm, r), LargestCharge(pm, r, c));
    }
  }

  lemma LargestChargeStep(pm: PowerModel, r: Run, c: EnergyComponent)
    requires Legal(pm, r) && r.After?
    ensures LargestCharge(pm, r.past, c) <= LargestCharge(pm, r, c)
    ensures ChargeCount(pm, r) == ChargeCount(pm, r.past) + if Charged(pm, r) then 1 else 0
    ensures MeterOf(pm, r).energy.Of(c) - MeterOf(pm, r.past).energy.Of(c) <=
      if Charged(pm, r) then LargestCharge(pm, r, c) else 0
  {
  }

  /** No component's average power since the reset exceeds the largest amount charged to it for one second. */
  lemma AveragePowerAtMostLargestCharge(pm: PowerModel, r: Run, c: EnergyComponent, now: nat)
    requires Legal(pm, r) && Clock(r) <= now && ResetTime(r) < now
    ensures var average := AveragePower(MeterOf(pm, r), c, now);
      average.Some? && average.value <= LargestCharge(pm, r, c)
  {
    EnergyLedgerHolds(pm, r);
    EnergyAtMostLargestCharges(pm, r, c);
    AveragePowerBound(MeterOf(pm, r), c, LargestCharge(pm, r, c), ChargeCount(pm, r), now);
  }

  lemma AveragePowerBound(mt: MeterState, c: EnergyComponent, largest: int, count: nat, now: nat)
    requires WithinCharges(mt.energy.Of(c), count, largest)
    requires count * SECOND <= now - mt.lastReset && mt.lastReset < now
    ensures AveragePower(mt, c, now).Some?
    ensures AveragePower(mt, c, now).value <= largest
  {
    RepeatedIsProduct(count, largest);
    AverageBound(mt.energy.Of(c), largest, count, now - mt.lastReset);
  }

  lemma AverageBound(total: int, largest: int, count: nat, us: int)
    requires 0 <= largest && total <= largest * count && count * SECOND <= us && 0 < us
    ensures Trunc(total as real / Secs(us)) <= largest
  {
    var s := Secs(us);
    ProductMonotone(largest as real, largest as real, count as real, s);
    assert (largest * count) as real == largest as real * count as real;
    var q := total as real / s;
    assert q * s == total as real;
    CancelFactor(q, largest as real, s);
    TruncMonotone(q, largest as real);
  }

  // ---- Totals never fall ----

  function WifiCounters(r: Run): Dirs {
    if Last(r).wifi.Some? then Last(r).wifi.value.bytes
    else if r.After? then WifiCounters(r.past) else ZERO
  }

  predicate WifiCountersGrow(r: Run) {
    && (Last(r).wifi.Some? ==>
          (if r.After? then WifiCounters(r.past) else ZERO).AtMost(Last(r).wifi.value.bytes))
    && (r.After? ==> WifiCountersGrow(r.past))
  }

  lemma RateNonNegative(current: int, last: int, us: int)
    requires last <= current && 0 < us
    ensures 0 <= Rate(current, last, us)
  {
    QuotientMonotone(0.0, (current - last) as real, Secs(us), Secs(us));
    CeilMonotone(0.0, (current - last) as real / Secs(us));
  }

  predicate WifiRatesOk(w: Wifi, counters: Dirs) {
    && ZERO.AtMost(counters) && w.lastBytes.AtMost(counters)
    && (w.lastBytes == UNSET || ZERO.AtMost(w.lastBytes))
    && UNSET.AtMost(w.dataRates)
  }

  lemma WifiRatesKept(w: Wifi, now: nat, read: Option<WifiRead>, counters: Dirs)
    requires WifiRatesOk(w, counters)
    requires read.Some? ==> counters.AtMost(read.value.bytes)
    ensures WifiRatesOk(TickWifi(w, now, read), if read.Some? then read.value.bytes else counters)
  {
    if RatesWifi(w, now, read) {
      RateNonNegative(read.value.bytes.down, w.lastBytes.down, now - w.lastObservation);
      RateNonNegative(read.value.bytes.up, w.lastBytes.up, now - w.lastObservation);
    }
  }

  lemma {:induction false} WifiRatesHold(pm: PowerModel, r: Run)
    requires Legal(pm, r) && WifiCountersGrow(r)
    ensures WifiRatesOk(Final(pm, r).wifi, WifiCounters(r))
  {
    match r {
      case AtReset(first, _, _) =>
        WifiRatesKept(FreshWifi(first.now), first.now, first.wifi, ZERO);
      case After(past, t) =>
        WifiRatesHold(pm, past);
        WifiRatesKept(Final(pm, past).wifi, t.now, t.wifi, WifiCounters(past));
    }
  }

  /** One call never takes energy back. */
  lemma ChargesAreNonNegative(pm: PowerModel, mt: MeterState, now: nat, s: MobileState, delta: Dirs, w: Wifi,
                              read: CpuRead)
    requires pm.ValidRadio() && pm.ValidCpu() && CpuReadOk(pm, read) && -1 <= w.dataRates.up
    ensures var mt' := TickMeter(pm, mt, now, s, delta, w, read);
      && mt.energy.cpu <= mt'.energy.cpu
      && mt.energy.networking <= mt'.energy.networking
      && mt.energy.all <= mt'.energy.all
  {
    ComponentNonNegative(false, w.dataRates.up);
    assert 0 <= WifiCharge(pm, w) + pm.PowerCoeff(s);
    CpuChargeNonNegative(pm, mt.cpu, read);
  }

  lemma CpuChargeNonNegative(pm: PowerModel, last: CpuTotals, read: CpuRead)
    requires pm.ValidCpu() && CpuReadOk(pm, read)
    ensures 0 <= CpuCharge(pm, last, read)
  {
    var utilization := Utilization(last, read.stat);
    var freq := CpuFreq(pm, utilization, read.khz);
    CoeffDefined(pm.cpuTable, freq);
    CoeffAtMostPegged(pm, freq);
    ProductSigns(CpuPowerCoeff(pm.cpuTable, freq).value, utilization);
  }

  /** Between resets no total ever falls. */
  lemma TotalsNeverFall(pm: PowerModel, r: Run)
    requires pm.ValidRadio() && pm.ValidCpu() && Legal(pm, r) && WifiCountersGrow(r) && r.After?
    ensures var before, after := MeterOf(pm, r.past).energy, MeterOf(pm, r).energy;
      before.cpu <= after.cpu && before.networking <= after.networking && before.all <= after.all
  {
    WifiRatesHold(pm, r);
    var h := Final(pm, r);
    ChargesAreNonNegative(pm, MeterOf(pm, r.past), r.t.now, h.mobile.state, h.mobile.lastDelta, h.wifi, r.t.cpu);
  }

  // ---- CPU energy against the pegged estimate ----

  /** The unused CPU time counted so far: idle plus I/O wait. */
  function UnusedCpu(r: Run): real {
    if Last(r).cpu.stat.Some? then Last(r).cpu.stat.value.Unused()
    else if r.After? then UnusedCpu(r.past) else r.carry.total - r.carry.user - r.carry.sys
  }

  predicate CpuCountersGrow(r: Run) {
    && (Last(r).cpu.stat.Some? ==>
          (if r.After? then UnusedCpu(r.past) else r.carry.total - r.carry.user - r.carry.sys)
          <= Last(r).cpu.stat.value.Unused())
    && (r.After? ==> CpuCountersGrow(r.past))
  }

  function Pegged(p: real, us: int): real { Scaled(p, Secs(us)) }

  /** `p` is the pegged power and `unused` the unused CPU time counted so far. */
  predicate CpuLedger(mt: MeterState, p: real, unused: real, reset: nat) {
    && mt.lastReset == reset <= mt.lastUpdate
    && mt.cpu.total - mt.cpu.user - mt.cpu.sys <= unused
    && mt.energy.cpu as real <= Pegged(p, mt.lastUpdate - reset)
  }

  lemma {:induction false} CpuEnergyBelowPegged(pm: PowerModel, r: Run)
    requires pm.ValidCpu() && Legal(pm, r) && CpuCountersGrow(r)
    ensures CpuLedger(MeterOf(pm, r), pm.maxCpuFreqCoeff * 100.0, UnusedCpu(r), ResetTime(r))
  {
    if r.After? {
      CpuEnergyBelowPegged(pm, r.past);
      var before, h := MeterOf(pm, r.past), Final(pm, r);
      CpuLedgerStep(pm, before, r.t.now, h.mobile.state, h.mobile.lastDelta, h.wifi, r.t.cpu, UnusedCpu(r.past),
                    ResetTime(r));
    }
  }

  lemma CpuLedgerStep(pm: PowerModel, mt: MeterState, now: nat, s: MobileState, delta: Dirs, w: Wifi,
                      read: CpuRead, unused: real, reset: nat)
    requires pm.ValidCpu() && CpuReadOk(pm, read) && mt.lastUpdate <= now
    requires CpuLedger(mt, pm.maxCpuFreqCoeff * 100.0, unused, reset)
    requires read.stat.Some? ==> unused <= read.stat.value.Unused()
    ensures CpuLedger(TickMeter(pm, mt, now, s, delta, w, read), pm.maxCpuFreqCoeff * 100.0,
                      if read.stat.Some? then read.stat.value.Unused() else unused, reset)
  {
    if Charges(mt, now) {
      CpuChargeAtMostPegged(pm, mt.cpu, read);
      PeggedNonNegative(pm);
      PeggedAddsUp(pm.maxCpuFreqCoeff * 100.0, mt.lastUpdate - mt.lastReset, now - mt.lastUpdate);
    }
  }

  lemma PeggedNonNegative(pm: PowerModel)
    requires pm.ValidCpu()
    ensures 0.0 <= pm.maxCpuFreqCoeff * 100.0
  {
    CoeffDefined(pm.cpuTable, pm.minCpuFreq);
    CoeffAtMostPegged(pm, pm.minCpuFreq);
  }

  lemma PeggedAddsUp(p: real, elapsed: int, gap: int)
    requires 0.0 <= p && 0 <= gap
    ensures Pegged(p, elapsed) + Pegged(p, gap) == Pegged(p, elapsed + gap)
    ensures 0.0 <= Pegged(p, gap)
    ensures SECOND <= gap ==> p <= Pegged(p, gap)
  {
    assert Secs(elapsed + gap) == Secs(elapsed) + Secs(gap);
    assert p * (Secs(elapsed) + Secs(gap)) == p * Secs(elapsed) + p * Secs(gap);
    ScaledMonotone(p, 0.0, Secs(gap));
    if SECOND <= gap {
      ScaledMonotone(p, 1.0, Secs(gap));
    }
  }

  /** With unused CPU time that never falls, the CPU energy of any run is at most the (truncated) estimate
      for a pegged CPU over the elapsed time. */
  lemma CpuEnergyAtMostPeggedEstimate(pm: PowerModel, r: Run, now: nat)
    requires pm.ValidCpu() && Legal(pm, r) && CpuCountersGrow(r) && Clock(r) <= now
    ensures MeterOf(pm, r).energy.cpu <= Trunc(pm.PeggedCpuEnergy(Secs(now - ResetTime(r))))
  {
    CpuEnergyBelowPegged(pm, r);
    PeggedNonNegative(pm);
    PeggedTruncated(pm, MeterOf(pm, r), UnusedCpu(r), ResetTime(r), now);
  }

  lemma PeggedTruncated(pm: PowerModel, mt: MeterState, unused: real, reset: nat, now: nat)
    requires 0.0 <= pm.maxCpuFreqCoeff * 100.0 && mt.lastUpdate <= now
    requires CpuLedger(mt, pm.maxCpuFreqCoeff * 100.0, unused, reset)
    ensures mt.energy.cpu <= Trunc(pm.PeggedCpuEnergy(Secs(now - reset)))
  {
    PeggedAddsUp(pm.maxCpuFreqCoeff * 100.0, mt.lastUpdate - reset, now - mt.lastUpdate);
    TruncMonotone(mt.energy.cpu as real, Pegged(pm.maxCpuFreqCoeff * 100.0, now - reset));
  }

  // ---- The energy charged against the time per state ----

  /** Power times time over the per-state ledger (mW * us). */
  function LedgerEnergy(pm: PowerModel, m: Mobile): int {
    pm.idlePower * m.timeIn.idle + pm.fachPower * m.timeIn.fach + pm.dchPower * m.timeIn.dch
  }

  lemma LedgerEnergyStep(pm: PowerModel, m: Mobile, s: MobileState, us: int)
    ensures LedgerEnergy(pm, m.(timeIn := m.timeIn.Set(s, m.timeIn.Get(s) + us)))
         == LedgerEnergy(pm, m) + pm.PowerCoeff(s) * us
  {
    match s {
      case IDLE => assert pm.idlePower * (m.timeIn.idle + us) == pm.idlePower * m.timeIn.idle + pm.idlePower * us;
      case FACH => assert pm.fachPower * (m.timeIn.fach + us) == pm.fachPower * m.timeIn.fach + pm.fachPower * us;
      case DCH => assert pm.dchPower * (m.timeIn.dch + us) == pm.dchPower * m.timeIn.dch + pm.dchPower * us;
    }
  }

  /** Time since the reset that the ledger has lost. */
  function LostTime(m: Mobile, reset: nat): int { SECOND + m.lastChange - reset - TimeTotal(m) }

  /** Radio energy charged (in mW * us) against the ledger, the current state's running second added and the
      two initial IDLE seconds taken off, once IDLE power for `lost` is added as well. */
  predicate BalancedBut(pm: PowerModel, m: Mobile, now: nat, energy: int, lost: int) {
    energy * SECOND ==
      LedgerEnergy(pm, m) + pm.PowerCoeff(m.state) * (now - m.lastChange + SECOND) - 2 * pm.idlePower * SECOND
      + pm.idlePower * lost
  }

  predicate Balanced(pm: PowerModel, m: Mobile, now: nat, energy: int) { BalancedBut(pm, m, now, energy, 0) }

  lemma BalanceWithoutChange(pm: PowerModel, m: Mobile, before: nat, energy: int, lost: int)
    requires BalancedBut(pm, m, before, energy, lost)
    ensures BalancedBut(pm, m, before + SECOND, energy + pm.PowerCoeff(m.state), lost)
  {
    var p, d := pm.PowerCoeff(m.state), before - m.lastChange + SECOND;
    assert p * (d + SECOND) == p * d + p * SECOND;
  }

  /** A change of state whose time is credited. */
  lemma BalanceCredited(pm: PowerModel, m: Mobile, m': Mobile, before: nat, energy: int, lost: int)
    requires BalancedBut(pm, m, before, energy, lost) && m'.lastChange == before + SECOND
    requires m'.timeIn == m.timeIn.Set(m.state, m.timeIn.Get(m.state) + m'.lastChange - m.lastChange)
    ensures BalancedBut(pm, m', before + SECOND, energy + pm.PowerCoeff(m'.state), lost)
  {
    LedgerEnergyStep(pm, m, m.state, m'.lastChange - m.lastChange);
  }

  /** The first change of state, if its time is lost. */
  lemma BalanceLost(pm: PowerModel, m: Mobile, m': Mobile, before: nat, energy: int, lost: int)
    requires BalancedBut(pm, m, before, energy, lost) && m.state == IDLE
    requires m'.lastChange == before + SECOND && m'.timeIn == m.timeIn
    ensures BalancedBut(pm, m', before + SECOND, energy + pm.PowerCoeff(m'.state),
                        lost + m'.lastChange - m.lastChange)
  {
    var p, more := pm.idlePower, m'.lastChange - m.lastChange;
    assert p * (lost + more) == p * lost + p * more;
  }

  /** One tick a second after the last: both sides of the balance grow by a second at the new state's power. */
  lemma BalanceKept(pm: PowerModel, m: Mobile, before: nat, now: nat, read: Option<Dirs>, energy: int, reset: nat)
    requires m.ClockOk(before) && now == before + SECOND && TimeLedger(m, reset)
    requires BalancedBut(pm, m, before, energy, LostTime(m, reset))
    ensures var m' := TickMobile(pm, m, now, read);
      BalancedBut(pm, m', now, energy + pm.PowerCoeff(m'.state), LostTime(m', reset))
  {
    var m', lost := TickMobile(pm, m, now, read), LostTime(m, reset);
    if m'.state == m.state {
      BalanceWithoutChange(pm, m, before, energy, lost);
    } else if SECOND <= m.lastChange {
      BalanceCredited(pm, m, m', before, energy, lost);
    } else {
      BalanceLost(pm, m, m', before, energy, lost);
    }
  }

  lemma BalancedAtReset(pm: PowerModel, now: nat, read: Option<Dirs>)
    ensures var m := TickMobile(pm, FreshMobile(now), now, read); BalancedBut(pm, m, now, 0, LostTime(m, now))
  {
    var m := TickMobile(pm, FreshMobile(now), now, read);
    assert m.timeIn == PerState(SECOND, 0, 0) && m.lastChange == now && LostTime(m, now) == 0;
  }

  lemma ChargedSecond(pm: PowerModel, r: Run)
    requires Legal(pm, r) && r.After? && r.t.now == Clock(r.past) + SECOND
    ensures MeterOf(pm, r).lastUpdate == Clock(r)
    ensures MobileEnergy(pm, r) == MobileEnergy(pm, r.past) + pm.PowerCoeff(Radio(pm, r).state)
  {
  }

  lemma {:induction false} BalanceHolds(pm: PowerModel, r: Run, reset: nat)
    requires Legal(pm, r) && EverySecond(r) && reset == ResetTime(r)
    ensures MeterOf(pm, r).lastUpdate == Clock(r)
    ensures BalancedBut(pm, Radio(pm, r), Clock(r), MobileEnergy(pm, r), LostTime(Radio(pm, r), reset))
  {
    match r {
      case AtReset(first, _, _) =>
        BalancedAtReset(pm, first.now, first.mobile);
      case After(past, t) =>
        BalanceHolds(pm, past, reset);
        TimeLedgerHolds(pm, past);
        ChargedSecond(pm, r);
        BalanceKept(pm, Radio(pm, past), Clock(past), t.now, t.mobile, MobileEnergy(pm, past), reset);
    }
  }

  lemma BalancedIff(pm: PowerModel, m: Mobile, now: nat, energy: int, lost: int)
    requires BalancedBut(pm, m, now, energy, lost)
    ensures Balanced(pm, m, now, energy) <==> lost == 0 || pm.idlePower == 0
  {
    assert pm.idlePower * lost == 0 <==> lost == 0 || pm.idlePower == 0;
  }

  /** With a tick every second, what the meter charged for the radio is what the per-state times say (once the
      current state's running second is added and the two initial IDLE seconds are taken off), up to IDLE power for
      the time the ledger lost; so exactly if no time was lost, or IDLE costs nothing. */
  lemma LedgersReconcile(pm: PowerModel, r: Run)
    requires Legal(pm, r) && EverySecond(r)
    ensures MeterOf(pm, r).lastUpdate == Clock(r)
    ensures var m := Radio(pm, r);
      && BalancedBut(pm, m, Clock(r), MobileEnergy(pm, r), LostTime(m, ResetTime(r)))
      && (Balanced(pm, m, Clock(r), MobileEnergy(pm, r))
          <==> ResetTime(r) >= SECOND || m.lastChange == ResetTime(r) || pm.idlePower == 0)
  {
    BalanceHolds(pm, r, ResetTime(r));
    TimeIsConserved(pm, r);
    BalancedIff(pm, Radio(pm, r), Clock(r), MobileEnergy(pm, r), LostTime(Radio(pm, r), ResetTime(r)));
  }
}
