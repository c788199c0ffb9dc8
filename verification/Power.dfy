/** The power models and the CPU coefficient table. */
module Power {
  import opened Common

  /** A measured CPU frequency (MHz) and its power coefficient. */
  datatype CpuPoint = CpuPoint(freq: int, coeff: real)

  datatype PowerModel = PowerModel(
    wifiHighPowerBase: int,
    wifiLowPower: int,
    idlePower: int,
    fachPower: int,
    dchPower: int,
    dchThresholdDown: int,
    dchThresholdUp: int,
    fachTimer: real,
    dchTimer: real,
    wifiPacketRateThreshold: int,
    cpuTable: seq<CpuPoint>,
    minCpuFreq: int,
    maxCpuFreqCoeff: real)
  {
    function PowerCoeff(s: MobileState): int {
      match s
      case IDLE => idlePower
      case FACH => fachPower
      case DCH => dchPower
    }

    function DchThreshold(downlink: bool): int {
      if downlink then dchThresholdDown else dchThresholdUp
    }

    /** What every concrete model satisfies; the radio results hold for all such models. */
    predicate ValidRadio() {
      && 0 <= idlePower <= fachPower <= dchPower
      && 0.0 < fachTimer && 0.0 < dchTimer
      && 0 < dchThresholdDown && 0 < dchThresholdUp
      && 0 <= wifiLowPower <= wifiHighPowerBase
    }

    ghost predicate ValidCpu() {
      && Table(cpuTable)
      && minCpuFreq <= cpuTable[|cpuTable| - 1].freq
      && maxCpuFreqCoeff == cpuTable[|cpuTable| - 1].coeff
    }

    /** Energy (mJ) of a fully loaded CPU at top frequency. */
    function PeggedCpuEnergy(seconds: real): real { Scaled(maxCpuFreqCoeff * 100.0, seconds) }
  }

  /** The iteration order of the source's sorted map. */
  predicate Sorted(t: seq<CpuPoint>) {
    forall i, j :: 0 <= i < j < |t| ==> t[i].freq < t[j].freq
  }

  /** A table with at least one entry and non-negative, non-decreasing coefficients. */
  ghost predicate Table(t: seq<CpuPoint>) {
    && |t| > 0
    && t[0].coeff >= 0.0
    && Sorted(t)
    && (forall i, j :: 0 <= i < j < |t| ==> t[i].coeff <= t[j].coeff)
  }

  /** Position of the entry for `freq`, if the table has one. */
  function Find(t: seq<CpuPoint>, freq: int): (r: Option<nat>)
    ensures r.Some? ==> r.value < |t| && t[r.value].freq == freq
    ensures r.None? ==> forall j :: 0 <= j < |t| ==> t[j].freq != freq
  {
    if t == [] then None
    else if t[|t| - 1].freq == freq then Some(|t| - 1)
    else Find(t[..|t| - 1], freq)
  }

  /** Position of the first entry above `freq`; the table's length when there is none. */
  function UpperBound(t: seq<CpuPoint>, freq: int): (r: nat)
    ensures r <= |t|
    ensures forall j :: 0 <= j < r ==> t[j].freq <= freq
    ensures r < |t| ==> t[r].freq > freq
  {
    if t == [] || t[0].freq > freq then 0 else UpperBound(t[1..], freq) + 1
  }

  function Slope(lower: CpuPoint, upper: CpuPoint): real
    requires lower.freq < upper.freq
  {
    (upper.coeff - lower.coeff) / (upper.freq - lower.freq) as real
  }

  /** The straight line through two entries. */
  function Interpolate(lower: CpuPoint, upper: CpuPoint, freq: int): real
    requires lower.freq < upper.freq
  {
    lower.coeff + Scaled(Slope(lower, upper), (freq - lower.freq) as real)
  }

  /** The coefficient for a frequency; None is the failing assertion (no entry at or above `freq`). */
  function CpuPowerCoeff(t: seq<CpuPoint>, freq: int): Option<real>
    requires Sorted(t)
  {
    var at := Find(t, freq);
    if at.Some? then Some(t[at.value].coeff) else
    var i := UpperBound(t, freq);
    if i == |t| then None
    else if i == 0 then Some(t[0].coeff)
    else Some(Interpolate(t[i - 1], t[i], freq))
  }

  lemma InterpolateBounds(lower: CpuPoint, upper: CpuPoint, f: int, g: int)
    requires lower.freq < upper.freq && lower.coeff <= upper.coeff
    requires lower.freq <= f <= g <= upper.freq
    ensures lower.coeff <= Interpolate(lower, upper, f) <= Interpolate(lower, upper, g) <= upper.coeff
    ensures Interpolate(lower, upper, lower.freq) == lower.coeff
  {
    SlopeSpans(lower, upper);
    var slope := Slope(lower, upper);
    ScaledMonotone(slope, 0.0, (f - lower.freq) as real);
    ScaledMonotone(slope, (f - lower.freq) as real, (g - lower.freq) as real);
    ScaledMonotone(slope, (g - lower.freq) as real, (upper.freq - lower.freq) as real);
  }

  lemma SlopeSpans(lower: CpuPoint, upper: CpuPoint)
    requires lower.freq < upper.freq && lower.coeff <= upper.coeff
    ensures 0.0 <= Slope(lower, upper)
    ensures Scaled(Slope(lower, upper), 0.0) == 0.0
    ensures Scaled(Slope(lower, upper), (upper.freq - lower.freq) as real) == upper.coeff - lower.coeff
  {
    var width := (upper.freq - lower.freq) as real;
    QuotientMonotone(0.0, upper.coeff - lower.coeff, width, width);
  }

  lemma KeyPosition(t: seq<CpuPoint>, k: nat)
    requires Sorted(t) && k < |t|
    ensures Find(t, t[k].freq) == Some(k)
    ensures UpperBound(t, t[k].freq) == k + 1
  {
  }

  /** At a table entry the coefficient is the entry's. */
  lemma CoeffAtEntry(t: seq<CpuPoint>, k: nat)
    requires Sorted(t) && k < |t|
    ensures CpuPowerCoeff(t, t[k].freq) == Some(t[k].coeff)
  {
    KeyPosition(t, k);
  }

  /** The assertion on the table search fails exactly for frequencies above the last entry. */
  lemma CoeffDefined(t: seq<CpuPoint>, freq: int)
    requires Sorted(t)
    ensures CpuPowerCoeff(t, freq).Some? <==> t != [] && freq <= t[|t| - 1].freq
  {
    if Find(t, freq).Some? {
      KeyPosition(t, Find(t, freq).value);
    }
  }

  /** Inside a segment the coefficient is on the line through its ends, also at the lower end. */
  lemma CoeffOnSegment(t: seq<CpuPoint>, freq: int)
    requires Table(t) && 0 < UpperBound(t, freq) < |t|
    ensures var i := UpperBound(t, freq);
      CpuPowerCoeff(t, freq) == Some(Interpolate(t[i - 1], t[i], freq))
  {
    if Find(t, freq).Some? {
      KeyPosition(t, Find(t, freq).value);
      var i := UpperBound(t, freq);
      InterpolateBounds(t[i - 1], t[i], freq, freq);
    }
  }

  lemma InterpolateIsLinear(lower: CpuPoint, upper: CpuPoint, f: int, g: int)
    requires lower.freq < upper.freq
    ensures Scaled((upper.freq - lower.freq) as real, Interpolate(lower, upper, g) - Interpolate(lower, upper, f))
         == Scaled((g - f) as real, upper.coeff - lower.coeff)
  {
    var slope, width := Slope(lower, upper), (upper.freq - lower.freq) as real;
    QuotientTimes(upper.coeff - lower.coeff, width);
    ScaledAddsUp(slope, (g - lower.freq) as real, (f - lower.freq) as real);
    assert Interpolate(lower, upper, g) - Interpolate(lower, upper, f) == slope * (g - f) as real;
    assert width * (slope * (g - f) as real) == (slope * width) * (g - f) as real;
  }

  /** Between neighbouring entries coefficient differences are proportional to frequency differences. */
  lemma CoeffIsLinear(t: seq<CpuPoint>, i: nat, f: int, g: int)
    requires Table(t) && 0 < i < |t| && t[i - 1].freq <= f < t[i].freq && t[i - 1].freq <= g < t[i].freq
    ensures CpuPowerCoeff(t, f).Some? && CpuPowerCoeff(t, g).Some?
    ensures Scaled((t[i].freq - t[i - 1].freq) as real, CpuPowerCoeff(t, g).value - CpuPowerCoeff(t, f).value)
         == Scaled((g - f) as real, t[i].coeff - t[i - 1].coeff)
  {
    assert UpperBound(t, f) == i == UpperBound(t, g);
    CoeffOnSegment(t, f);
    CoeffOnSegment(t, g);
    InterpolateIsLinear(t[i - 1], t[i], f, g);
  }

  /** The coefficient lies between those of the neighbouring entries. */
  lemma CoeffBetweenNeighbours(t: seq<CpuPoint>, freq: int)
    requires Table(t) && freq <= t[|t| - 1].freq
    ensures CpuPowerCoeff(t, freq).Some?
    ensures var i, c := UpperBound(t, freq), CpuPowerCoeff(t, freq).value;
      && (i > 0 ==> t[i - 1].coeff <= c)
      && (i < |t| ==> c <= t[i].coeff)
      && (i == 0 ==> c == t[0].coeff)
      && (i == |t| ==> c == t[i - 1].coeff)
  {
    CoeffDefined(t, freq);
    var i := UpperBound(t, freq);
    if 0 < i < |t| {
      CoeffOnSegment(t, freq);
      InterpolateBounds(t[i - 1], t[i], freq, freq);
    } else if Find(t, freq).Some? {
      KeyPosition(t, Find(t, freq).value);
    }
  }

  lemma UpperBoundMonotone(t: seq<CpuPoint>, f: int, g: int)
    requires f <= g
    ensures UpperBound(t, f) <= UpperBound(t, g)
  {
  }

  lemma CoeffMonotone(t: seq<CpuPoint>, f: int, g: int)
    requires Table(t) && f <= g <= t[|t| - 1].freq
    ensures CpuPowerCoeff(t, f).Some? && CpuPowerCoeff(t, g).Some?
    ensures CpuPowerCoeff(t, f).value <= CpuPowerCoeff(t, g).value
  {
    CoeffBetweenNeighbours(t, f);
    CoeffBetweenNeighbours(t, g);
    UpperBoundMonotone(t, f, g);
    var i, j := UpperBound(t, f), UpperBound(t, g);
    if i < j {
      assert i == j - 1 || t[i].coeff <= t[j - 1].coeff;
    } else if 0 < i < |t| {
      CoeffOnSegment(t, f);
      CoeffOnSegment(t, g);
      InterpolateBounds(t[i - 1], t[i], f, g);
    }
  }

  /** No frequency in the table's range has a coefficient above the pegged one. */
  lemma CoeffAtMostPegged(pm: PowerModel, freq: int)
    requires pm.ValidCpu() && freq <= pm.cpuTable[|pm.cpuTable| - 1].freq
    ensures CpuPowerCoeff(pm.cpuTable, freq).Some?
    ensures 0.0 <= CpuPowerCoeff(pm.cpuTable, freq).value <= pm.maxCpuFreqCoeff
  {
    var t := pm.cpuTable;
    CoeffBetweenNeighbours(t, freq);
    CoeffMonotone(t, freq, t[|t| - 1].freq);
    CoeffAtEntry(t, |t| - 1);
    var i := UpperBound(t, freq);
    assert i > 1 ==> t[0].coeff <= t[i - 1].coeff;
  }
}
