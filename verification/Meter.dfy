/** The consumption meter: at most one charge per second into per-component totals and a byte total. */
module Meter {
  import opened Common
  import opened Power
  import opened WifiSampler

  /** Totals from the last reading of the CPU counters; a reset keeps them. */
  datatype CpuTotals = CpuTotals(user: real, sys: real, total: real)

  datatype ProcStat = ProcStat(
    user: real, userLow: real, sys: real, idle: real, io: real, irq: real, softirq: real)
  {
    function UserTotal(): real { user + userLow }

    function SysTotal(): real { sys + irq + softirq }

    function Unused(): real { idle + io }

    function Totals(): CpuTotals { CpuTotals(UserTotal(), SysTotal(), UserTotal() + SysTotal() + Unused()) }
  }

  /** The readings of one tick: the counters and the current frequency, either possibly unavailable. */
  datatype CpuRead = CpuRead(stat: Option<ProcStat>, khz: Option<nat>)

  datatype EnergyComponent = CPU | NETWORKING | ALL

  datatype Energy = Energy(cpu: int, networking: int, all: int) {
    function Of(c: EnergyComponent): int {
      match c
      case CPU => cpu
      case NETWORKING => networking
      case ALL => all
    }

    function Plus(e: Energy): Energy { Energy(cpu + e.cpu, networking + e.networking, all + e.all) }
  }

  datatype MeterState = MeterState(
    lastReset: nat,
    lastUpdate: nat,
    cpu: CpuTotals,
    energy: Energy,
    bytes: int)

  predicate Charges(mt: MeterState, now: nat) { now - mt.lastUpdate >= SECOND }

  /** CPU utilization since the last reading, in percent. */
  function Utilization(last: CpuTotals, stat: Option<ProcStat>): real {
    if stat.None? then 0.0
    else
      var cur := stat.value.Totals();
      Max(0.0, ((cur.user - last.user + cur.sys - last.sys) / Max(1.0, cur.total - last.total)) * 100.0)
  }

  function NextTotals(last: CpuTotals, stat: Option<ProcStat>): CpuTotals {
    if stat.Some? then stat.value.Totals() else last
  }

  function CpuFreq(pm: PowerModel, utilization: real, khz: Option<nat>): int {
    if utilization < 0.000001 || khz.None? then pm.minCpuFreq else khz.value / 1000
  }

  /** The frequency does not exceed the table: otherwise the assertion in the table search fails. */
  ghost predicate CpuReadOk(pm: PowerModel, read: CpuRead) {
    && Sorted(pm.cpuTable)
    && CpuPowerCoeff(pm.cpuTable, pm.minCpuFreq).Some?
    && (read.khz.Some? ==> CpuPowerCoeff(pm.cpuTable, read.khz.value / 1000).Some?)
  }

  /** Energy (mJ) of one second at a utilization. */
  function CpuSecond(coeff: real, utilization: real): int { Trunc(coeff * utilization) }

  lemma CpuSecondBound(coeff: real, max: real, utilization: real)
    requires 0.0 <= coeff <= max && 0.0 <= utilization <= 100.0
    ensures 0.0 <= CpuSecond(coeff, utilization) as real <= max * 100.0
  {
    ProductMonotone(coeff, max, utilization, 100.0);
  }

  /** The CPU's part of one charge (mJ). */
  function CpuCharge(pm: PowerModel, last: CpuTotals, read: CpuRead): int
    requires CpuReadOk(pm, read)
  {
    var utilization := Utilization(last, read.stat);
    CpuSecond(CpuPowerCoeff(pm.cpuTable, CpuFreq(pm, utilization, read.khz)).value, utilization)
  }

  function WifiCharge(pm: PowerModel, w: Wifi): int {
    WifiPower(pm, w.packetRates.Sum(), ChannelRateComponent(false, w.dataRates.up), 0)
  }

  /** One call, with the radio state and last deltas as the tracker's update of the same tick left them. */
  function TickMeter(pm: PowerModel, mt: MeterState, now: nat, s: MobileState, delta: Dirs, w: Wifi, read: CpuRead)
    : MeterState
    requires CpuReadOk(pm, read)
  {
    if !Charges(mt, now) then mt
    else
      var cpu := CpuCharge(pm, mt.cpu, read);
      var networking := WifiCharge(pm, w) + pm.PowerCoeff(s);
      mt.(lastUpdate := now,
          cpu := NextTotals(mt.cpu, read.stat),
          energy := mt.energy.Plus(Energy(cpu, networking, cpu + networking)),
          bytes := mt.bytes + delta.Sum())
  }

  function FreshMeter(now: nat, cpu: CpuTotals): MeterState {
    MeterState(now, now, cpu, Energy(0, 0, 0), 0)
  }

  /** Average power (mW) of one component since the reset; no time elapsed has no average. */
  function AveragePower(mt: MeterState, c: EnergyComponent, now: nat): Option<int> {
    if now <= mt.lastReset then None else Some(Trunc(mt.energy.Of(c) as real / Secs(now - mt.lastReset)))
  }

  /** With counters whose unused part never falls, a utilization is a percentage. */
  lemma UtilizationIsPercentage(last: CpuTotals, stat: Option<ProcStat>)
    requires stat.Some? ==> stat.value.Unused() >= last.total - last.user - last.sys
    ensures 0.0 <= Utilization(last, stat) <= 100.0
  {
    if stat.Some? {
      var cur := stat.value.Totals();
      var busy := cur.user - last.user + cur.sys - last.sys;
      var elapsed := Max(1.0, cur.total - last.total);
      var ratio := busy / elapsed;
      assert ratio * elapsed == busy <= elapsed == 1.0 * elapsed;
      CancelFactor(ratio, 1.0, elapsed);
    }
  }

  /** One charge never exceeds a second of pegged CPU. */
  lemma CpuChargeAtMostPegged(pm: PowerModel, last: CpuTotals, read: CpuRead)
    requires pm.ValidCpu() && CpuReadOk(pm, read)
    requires read.stat.Some? ==> read.stat.value.Unused() >= last.total - last.user - last.sys
    ensures 0.0 <= CpuCharge(pm, last, read) as real <= pm.PeggedCpuEnergy(1.0)
  {
    var utilization := Utilization(last, read.stat);
    var freq := CpuFreq(pm, utilization, read.khz);
    UtilizationIsPercentage(last, read.stat);
    CoeffDefined(pm.cpuTable, freq);
    CoeffAtMostPegged(pm, freq);
    CpuSecondBound(CpuPowerCoeff(pm.cpuTable, freq).value, pm.maxCpuFreqCoeff, utilization);
  }

  class MeterBox {
    var lastReset: nat
    var lastUpdate: nat
    var lastCpuUserTotal: real
    var lastCpuSysTotal: real
    var lastCpuTotal: real
    const energyConsumed: array<int>
    var mobileDataConsumed: int

    ghost function Repr(): set<object> { {this, energyConsumed} }

    ghost predicate Shape() { energyConsumed.Length == 3 }

    ghost function View(): MeterState
      requires Shape()
      reads Repr()
    {
      MeterState(lastReset, lastUpdate, CpuTotals(lastCpuUserTotal, lastCpuSysTotal, lastCpuTotal),
                 Energy(energyConsumed[0], energyConsumed[1], energyConsumed[2]), mobileDataConsumed)
    }

    constructor (now: nat)
      ensures Shape() && fresh(Repr())
      ensures View() == FreshMeter(now, CpuTotals(0.0, 0.0, 0.0))
    {
      energyConsumed := new int[3];
      lastCpuUserTotal, lastCpuSysTotal, lastCpuTotal := 0.0, 0.0, 0.0;
      new;
      Reset(now);
    }

    method Reset(now: nat)
      requires Shape()
      modifies Repr()
      ensures View() == FreshMeter(now, old(View()).cpu)
    {
      lastReset := now;
      lastUpdate := lastReset;
      energyConsumed[0], energyConsumed[1], energyConsumed[2] := 0, 0, 0;
      mobileDataConsumed := 0;
    }

    method GetAndUpdateCpuUtilization(stat: Option<ProcStat>) returns (utilization: real)
      requires Shape()
      modifies this`lastCpuUserTotal, this`lastCpuSysTotal, this`lastCpuTotal
      ensures utilization == Utilization(old(View()).cpu, stat)
      ensures View() == old(View()).(cpu := NextTotals(old(View()).cpu, stat))
    {
      if stat.None? {
        return 0.0;
      }
      var p := stat.value;
      var userTotal := p.user + p.userLow;
      var sysTotal := p.sys + p.irq + p.softirq;
      var total := userTotal + sysTotal + p.idle + p.io;
      var userDelta := userTotal - lastCpuUserTotal;
      var sysDelta := sysTotal - lastCpuSysTotal;
      var totalDelta := Max(1.0, total - lastCpuTotal);
      assert totalDelta == Max(1.0, p.Totals().total - lastCpuTotal);
      assert userDelta + sysDelta == p.UserTotal() - lastCpuUserTotal + p.SysTotal() - lastCpuSysTotal;
      lastCpuUserTotal := userTotal;
      lastCpuSysTotal := sysTotal;
      lastCpuTotal := total;
      utilization := Max(0.0, ((userDelta + sysDelta) / totalDelta) * 100.0);
    }

    method UpdateConsumptionStats(pm: PowerModel, now: nat, s: MobileState, delta: Dirs, w: Wifi, read: CpuRead)
      requires Shape() && lastUpdate <= now
      requires CpuReadOk(pm, read)
      modifies Repr()
      ensures View() == TickMeter(pm, old(View()), now, s, delta, w, read)
    {
      if (now - lastUpdate) / SECOND <= 0 {
        return;
      }
      lastUpdate := now;
      var thisSecond := ThisSecond(pm, s, w, read);
      Accumulate(thisSecond);
      mobileDataConsumed := mobileDataConsumed + (delta.down + delta.up);
    }

    /** The amounts of one charge: CPU, networking, and both. */
    method ThisSecond(pm: PowerModel, s: MobileState, w: Wifi, read: CpuRead) returns (amounts: array<int>)
      requires Shape() && CpuReadOk(pm, read)
      modifies this`lastCpuUserTotal, this`lastCpuSysTotal, this`lastCpuTotal
      ensures fresh(amounts) && amounts.Length == 3
      ensures amounts[0] == CpuCharge(pm, old(View()).cpu, read)
      ensures amounts[1] == WifiCharge(pm, w) + pm.PowerCoeff(s)
      ensures amounts[2] == amounts[0] + amounts[1]
      ensures View() == old(View()).(cpu := NextTotals(old(View()).cpu, read.stat))
    {
      amounts := new int[3](_ => 0);
      if HighState(pm, w.packetRates.down + w.packetRates.up, 0) {
        amounts[1] := amounts[1] + (pm.wifiHighPowerBase + ChannelRateComponent(false, w.dataRates.up));
      } else {
        amounts[1] := amounts[1] + pm.wifiLowPower;
      }
      amounts[1] := amounts[1] + pm.PowerCoeff(s);
      assert amounts[1] == WifiCharge(pm, w) + pm.PowerCoeff(s);
      var cpuEnergy := CpuEnergy(pm, read);
      amounts[0] := amounts[0] + cpuEnergy;
      AddComponents(amounts);
    }

    method CpuEnergy(pm: PowerModel, read: CpuRead) returns (energy: int)
      requires Shape() && CpuReadOk(pm, read)
      modifies this`lastCpuUserTotal, this`lastCpuSysTotal, this`lastCpuTotal
      ensures energy == CpuCharge(pm, old(View()).cpu, read)
      ensures View() == old(View()).(cpu := NextTotals(old(View()).cpu, read.stat))
    {
      var utilization := GetAndUpdateCpuUtilization(read.stat);
      var freq := CpuFreq(pm, utilization, read.khz);
      energy := CpuSecond(CpuPowerCoeff(pm.cpuTable, freq).value, utilization);
    }

    method Accumulate(amounts: array<int>)
      requires Shape() && amounts.Length == 3 && amounts != energyConsumed
      modifies energyConsumed
      ensures View() == old(View()).(
        energy := old(View()).energy.Plus(Energy(amounts[0], amounts[1], amounts[2])))
    {
      for i := 0 to 3
        invariant forall j :: 0 <= j < i ==> energyConsumed[j] == old(energyConsumed[j]) + amounts[j]
        invariant forall j :: i <= j < 3 ==> energyConsumed[j] == old(energyConsumed[j])
      {
        energyConsumed[i] := energyConsumed[i] + amounts[i];
      }
    }
  }

  /** The third entry collects the first two. */
  method AddComponents(amounts: array<int>)
    requires amounts.Length == 3 && amounts[2] == 0
    modifies amounts
    ensures amounts[0] == old(amounts[0]) && amounts[1] == old(amounts[1])
    ensures amounts[2] == amounts[0] + amounts[1]
  {
    for i := 0 to 2
      invariant amounts[0] == old(amounts[0]) && amounts[1] == old(amounts[1])
      invariant amounts[2] == (if i > 0 then amounts[0] else 0) + (if i > 1 then amounts[1] else 0)
    {
      amounts[2] := amounts[2] + amounts[i];
    }
  }
}
