/** What every run charges for CPU and WiFi and when, and the averages, in terms of its readings. */
module ChargeRuns {
  import opened Common
  import opened Power
  import opened WifiSampler
  import opened Meter
  import opened Runs
  import opened MeterRuns

  // ---- When charges happen ----

  /** Whether the run's last tick is charged, by the run's clock alone: a second after the last charged tick. */
  predicate ChargesTick(r: Run)
    decreases r, 0
  {
    r.After? && r.t.now - ChargedAt(r.past) >= SECOND
  }

  /** The time of the last charged tick, or the reset. */
  function ChargedAt(r: Run): nat
    decreases r, 1
  {
    if r.AtReset? then ResetTime(r) else if ChargesTick(r) then r.t.now else ChargedAt(r.past)
  }

  /** On every run those are the ticks that are charged. */
  lemma {:induction false} ChargesAre(pm: PowerModel, r: Run)
    requires Legal(pm, r)
    ensures MeterOf(pm, r).lastUpdate == ChargedAt(r)
    ensures Charged(pm, r) <==> ChargesTick(r)
  {
    if r.After? {
      ChargesAre(pm, r.past);
    }
  }

  // ---- CPU totals ----

  /** User, system and all CPU time of a reading. */
  function Jiffies(p: ProcStat): CpuTotals {
    var user, sys := p.user + p.userLow, p.sys + p.irq + p.softirq;
    CpuTotals(user, sys, user + sys + p.idle + p.io)
  }

  function Busy(c: CpuTotals): real { c.user + c.sys }

  /** The last tick was charged and read the CPU counters. */
  ghost predicate CountsCpu(pm: PowerModel, r: Run)
    requires Legal(pm, r)
  {
    r.After? && Charged(pm, r) && r.t.cpu.stat.Some?
  }

  function Carried(r: Run): CpuTotals { if r.AtReset? then r.carry else Carried(r.past) }

  /** The CPU totals at the last such tick, or those that the reset carried over. */
  ghost function CountedCpu(pm: PowerModel, r: Run): CpuTotals
    requires Legal(pm, r)
  {
    if r.AtReset? then r.carry else if CountsCpu(pm, r) then Jiffies(r.t.cpu.stat.value) else CountedCpu(pm, r.past)
  }

  lemma CpuStep(pm: PowerModel, r: Run)
    requires Legal(pm, r) && r.After?
    ensures MeterOf(pm, r).cpu == if CountsCpu(pm, r) then Jiffies(r.t.cpu.stat.value) else MeterOf(pm, r.past).cpu
  {
  }

  /** On every run the meter's CPU totals are those. */
  lemma {:induction false} CpuTotalsAre(pm: PowerModel, r: Run)
    requires Legal(pm, r)
    ensures MeterOf(pm, r).cpu == CountedCpu(pm, r)
  {
    if r.After? {
      CpuTotalsAre(pm, r.past);
      CpuStep(pm, r);
    }
  }

  // ---- Utilization ----

  /** A utilization in percent: busy time over elapsed time, which counts as at least one jiffy. */
  predicate IsUtilization(u: real, from: CpuTotals, to: CpuTotals) {
    Scaled(Max(1.0, to.total - from.total), u) == 100.0 * Max(0.0, Busy(to) - Busy(from))
  }

  lemma PercentOf(busy: real, elapsed: real)
    requires 1.0 <= elapsed
    ensures Scaled(elapsed, Max(0.0, (busy / elapsed) * 100.0)) == 100.0 * Max(0.0, busy)
  {
    var q := busy / elapsed;
    QuotientTimes(busy, elapsed);
    if 0.0 <= busy {
      CancelFactor(0.0, q, elapsed);
    } else {
      CancelFactor(q, 0.0, elapsed);
    }
  }

  lemma UtilizationIs(last: CpuTotals, p: ProcStat)
    ensures IsUtilization(Utilization(last, Some(p)), last, Jiffies(p))
  {
    var cur := Jiffies(p);
    assert p.Totals() == cur;
    PercentOf(cur.user - last.user + cur.sys - last.sys, Max(1.0, cur.total - last.total));
  }

  lemma UtilizationIsUnique(u: real, v: real, from: CpuTotals, to: CpuTotals)
    requires IsUtilization(u, from, to) && IsUtilization(v, from, to)
    ensures u == v
  {
    SameFactor(u, v, Max(1.0, to.total - from.total));
  }

  /** Between two counted readings at least one jiffy passes, and the busy time does not fall. */
  ghost predicate JiffiesAdvance(pm: PowerModel, r: Run)
    requires Legal(pm, r)
  {
    r.After? ==>
      && JiffiesAdvance(pm, r.past)
      && (CountsCpu(pm, r) ==>
            && CountedCpu(pm, r.past).total + 1.0 <= CountedCpu(pm, r).total
            && Busy(CountedCpu(pm, r.past)) <= Busy(CountedCpu(pm, r)))
  }

  /** The charged utilizations, each times the CPU time since the counted reading before. */
  ghost function UsedPercent(pm: PowerModel, r: Run): real
    requires Legal(pm, r)
  {
    if r.AtReset? then 0.0
    else UsedPercent(pm, r.past)
         + if CountsCpu(pm, r)
           then Scaled(CountedCpu(pm, r).total - CountedCpu(pm, r.past).total,
                       Utilization(MeterOf(pm, r.past).cpu, r.t.cpu.stat))
           else 0.0
  }

  lemma UsedStep(last: CpuTotals, p: ProcStat)
    requires last.total + 1.0 <= Jiffies(p).total && Busy(last) <= Busy(Jiffies(p))
    ensures Scaled(Jiffies(p).total - last.total, Utilization(last, Some(p))) == 100.0 * (Busy(Jiffies(p)) - Busy(last))
  {
    UtilizationIs(last, p);
    assert Max(1.0, Jiffies(p).total - last.total) == Jiffies(p).total - last.total;
    assert Max(0.0, Busy(Jiffies(p)) - Busy(last)) == Busy(Jiffies(p)) - Busy(last);
  }

  /** On every run whose counters advance, the charged utilizations times the times they stand for add up to the busy
      time between the totals carried over and the last counted ones: none is charged twice and none is missed. */
  lemma {:induction false} BusyTimeIsConserved(pm: PowerModel, r: Run)
    requires Legal(pm, r) && JiffiesAdvance(pm, r)
    ensures UsedPercent(pm, r) == 100.0 * (Busy(CountedCpu(pm, r)) - Busy(Carried(r)))
  {
    if r.After? {
      BusyTimeIsConserved(pm, r.past);
      CpuTotalsAre(pm, r.past);
      if CountsCpu(pm, r) {
        UsedStep(CountedCpu(pm, r.past), r.t.cpu.stat.value);
      }
    }
  }

  // ---- Charges ----

  /** What the last tick charged to a component. */
  ghost function ChargedTo(pm: PowerModel, r: Run, c: EnergyComponent): int
    requires Legal(pm, r) && r.After?
  {
    MeterOf(pm, r).energy.Of(c) - MeterOf(pm, r.past).energy.Of(c)
  }

  /** The frequency of a charge: the lowest for an idle CPU or an unknown frequency. */
  function ChargedFreq(pm: PowerModel, u: real, khz: Option<nat>): int {
    if u < 0.000001 || khz.None? then pm.minCpuFreq else khz.value / 1000
  }

  lemma CpuSecondIs(coeff: real, u: real)
    requires 0.0 <= coeff && 0.0 <= u
    ensures TruncatedAverage(CpuSecond(coeff, u), 1.0, Scaled(coeff, u))
  {
    ProductSigns(coeff, u);
    FloorTimesWhole(Scaled(coeff, u), 1.0);
  }

  lemma CpuChargeIs(pm: PowerModel, last: CpuTotals, read: CpuRead, u: real, coeff: real)
    requires pm.ValidCpu() && CpuReadOk(pm, read) && read.stat.Some?
    requires IsUtilization(u, last, Jiffies(read.stat.value))
    requires CpuPowerCoeff(pm.cpuTable, ChargedFreq(pm, u, read.khz)) == Some(coeff)
    ensures TruncatedAverage(CpuCharge(pm, last, read), 1.0, Scaled(coeff, u))
  {
    UtilizationIs(last, read.stat.value);
    UtilizationIsUnique(u, Utilization(last, read.stat), last, Jiffies(read.stat.value));
    CoeffDefined(pm.cpuTable, ChargedFreq(pm, u, read.khz));
    CoeffAtMostPegged(pm, ChargedFreq(pm, u, read.khz));
    CpuSecondIs(coeff, u);
  }

  /** On every run a charge adds the coefficient of the frequency times the utilization since the last counted
      reading, truncated to a millijoule, and nothing if the counters could not be read. */
  lemma CpuIsCharged(pm: PowerModel, r: Run, u: real, coeff: real)
    requires pm.ValidCpu() && Legal(pm, r) && r.After?
    requires CountsCpu(pm, r) ==> IsUtilization(u, CountedCpu(pm, r.past), Jiffies(r.t.cpu.stat.value))
    requires CpuPowerCoeff(pm.cpuTable, ChargedFreq(pm, u, r.t.cpu.khz)) == Some(coeff)
    ensures CountsCpu(pm, r) ==> TruncatedAverage(ChargedTo(pm, r, CPU), 1.0, Scaled(coeff, u))
    ensures !CountsCpu(pm, r) ==> ChargedTo(pm, r, CPU) == 0
  {
    CpuTotalsAre(pm, r.past);
    if CountsCpu(pm, r) {
      CpuChargeIs(pm, CountedCpu(pm, r.past), r.t.cpu, u, coeff);
    }
  }

  /** The pegged estimate is linear in the seconds. */
  lemma PeggedIs(pm: PowerModel, seconds: real)
    ensures pm.PeggedCpuEnergy(1.0) == Scaled(pm.maxCpuFreqCoeff, 100.0)
    ensures pm.PeggedCpuEnergy(seconds) == Scaled(seconds, pm.PeggedCpuEnergy(1.0))
  {
  }

  /** At full utilization and the top frequency a charge is the pegged estimate for one second. */
  lemma PeggedSecondIsCharged(pm: PowerModel, r: Run)
    requires pm.ValidCpu() && Legal(pm, r) && r.After? && CountsCpu(pm, r)
    requires IsUtilization(100.0, CountedCpu(pm, r.past), Jiffies(r.t.cpu.stat.value))
    requires r.t.cpu.khz.Some? && r.t.cpu.khz.value / 1000 == pm.cpuTable[|pm.cpuTable| - 1].freq
    ensures TruncatedAverage(ChargedTo(pm, r, CPU), 1.0, pm.PeggedCpuEnergy(1.0))
  {
    CoeffAtEntry(pm.cpuTable, |pm.cpuTable| - 1);
    PeggedIs(pm, 1.0);
    CpuIsCharged(pm, r, 100.0, pm.maxCpuFreqCoeff);
  }

  /** On every run a charge adds to networking, beside the radio's power, the low WiFi power exactly if the packet
      rate is at most the threshold; otherwise the high power and 6.528 mW per Mbit/s of the uplink rate. */
  lemma WifiIsCharged(pm: PowerModel, r: Run)
    requires Legal(pm, r) && Charged(pm, r)
    ensures var w, charge := Final(pm, r).wifi, ChargedTo(pm, r, NETWORKING) - pm.PowerCoeff(Radio(pm, r).state);
      && (w.packetRates.Sum() <= pm.wifiPacketRateThreshold ==> charge == pm.wifiLowPower)
      && (w.packetRates.Sum() > pm.wifiPacketRateThreshold && 0 <= w.dataRates.up ==>
            var extra := (charge - pm.wifiHighPowerBase) as real;
            extra <= 6.528 * (w.dataRates.up as real * 8.0 / 1000000.0) < extra + 7.528)
  {
    var w := Final(pm, r).wifi;
    assert Packets(0) == 0;
    if 0 <= w.dataRates.up {
      ComponentFollowsRate(w.dataRates.up);
    }
  }

  // ---- Averages ----

  /** On every run the average power of a component, times the seconds since the reset, is the energy charged to it,
      up to one truncation. */
  lemma AveragePowerIs(pm: PowerModel, r: Run, c: EnergyComponent, now: nat)
    requires Legal(pm, r) && ResetTime(r) < now && 0 <= MeterOf(pm, r).energy.Of(c)
    ensures var average := AveragePower(MeterOf(pm, r), c, now);
      average.Some?
      && TruncatedAverage(average.value, Secs(now - ResetTime(r)), MeterOf(pm, r).energy.Of(c) as real)
  {
    EnergyLedgerHolds(pm, r);
    AverageIs(MeterOf(pm, r), c, now);
  }

  lemma AverageIs(mt: MeterState, c: EnergyComponent, now: nat)
    requires mt.lastReset < now && 0 <= mt.energy.Of(c)
    ensures var average := AveragePower(mt, c, now);
      average.Some? && TruncatedAverage(average.value, Secs(now - mt.lastReset), mt.energy.Of(c) as real)
  {
    AverageOfTotal(mt.energy.Of(c), now - mt.lastReset);
  }

  lemma AverageOfTotal(total: int, us: int)
    requires 0 <= total && 0 < us
    ensures TruncatedAverage(Trunc(total as real / Secs(us)), Secs(us), total as real)
  {
    QuotientTimes(total as real, Secs(us));
    CancelFactor(0.0, total as real / Secs(us), Secs(us));
    FloorTimesWhole(total as real / Secs(us), Secs(us));
  }
}
