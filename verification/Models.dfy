/** The two concrete power models. */
module Models {
  import opened Common
  import opened Power

  const HTC_DREAM := PowerModel(710, 20, 10, 401, 570, 119, 151, 6.0, 4.0, 15,
    [CpuPoint(245, 3.4169), CpuPoint(383, 4.3388)], 245, 4.3388)

  const NEXUS_ONE := PowerModel(405, 34, 10, 406, 902, 119, 151, 6.0, 4.0, 15,
    [CpuPoint(245, 1.1273), CpuPoint(384, 1.5907), CpuPoint(460, 1.8736), CpuPoint(499, 2.1745),
     CpuPoint(576, 2.6031), CpuPoint(614, 2.9612), CpuPoint(653, 3.1373), CpuPoint(691, 3.4513),
     CpuPoint(768, 3.9073), CpuPoint(806, 4.1959), CpuPoint(845, 4.6492), CpuPoint(998, 5.4818)],
    245, 5.4818)

  lemma ModelsAreValid()
    ensures HTC_DREAM.ValidRadio() && HTC_DREAM.ValidCpu()
    ensures NEXUS_ONE.ValidRadio() && NEXUS_ONE.ValidCpu()
  {
    AdjacentTable(HTC_DREAM.cpuTable);
    AdjacentTable(NEXUS_ONE.cpuTable);
  }

  lemma {:induction false} AdjacentTable(t: seq<CpuPoint>)
    requires |t| > 0 && t[0].coeff >= 0.0
    requires forall i :: 0 < i < |t| ==> t[i - 1].freq < t[i].freq && t[i - 1].coeff <= t[i].coeff
    ensures Table(t)
  {
    if |t| > 1 {
      var s := t[..|t| - 1];
      AdjacentTable(s);
      forall i, j | 0 <= i < j < |t| ensures t[i].freq < t[j].freq && t[i].coeff <= t[j].coeff {
        if j < |s| {
          assert s[i] == t[i] && s[j] == t[j];
        } else {
          assert t[j - 1].freq < t[j].freq;
          assert i < j - 1 ==> s[i].freq < s[j - 1].freq && s[i].coeff <= s[j - 1].coeff;
        }
      }
    }
  }

  /** The model object: `init` of the concrete models fills these fields. */
  class PowerModelFields {
    var wifiHighPowerBase: int
    var wifiLowPower: int
    var idlePower: int
    var fachPower: int
    var dchPower: int
    const powerCoeffs: array<int>
    var dchThresholdDown: int
    var dchThresholdUp: int
    var fachTimer: real
    var dchTimer: real
    var wifiPacketRateThreshold: int
    var cpuFreqPowerCoeffs: seq<CpuPoint>
    var minCpuFreq: int
    var maxCpuFreqCoeff: real

    ghost predicate Valid()
      reads this, powerCoeffs
    {
      && powerCoeffs.Length == 3
      && powerCoeffs[0] == idlePower && powerCoeffs[1] == fachPower && powerCoeffs[2] == dchPower
    }

    ghost function Model(): PowerModel
      reads this
    {
      PowerModel(wifiHighPowerBase, wifiLowPower, idlePower, fachPower, dchPower,
                 dchThresholdDown, dchThresholdUp, fachTimer, dchTimer, wifiPacketRateThreshold,
                 cpuFreqPowerCoeffs, minCpuFreq, maxCpuFreqCoeff)
    }

    constructor HtcDream()
      ensures Valid() && Model() == HTC_DREAM && fresh(powerCoeffs)
    {
      powerCoeffs := new int[3];
      new;
      wifiHighPowerBase, wifiLowPower := 710, 20;
      SetPowerStateCoeffs(10, 401, 570);
      dchThresholdDown, dchThresholdUp := 119, 151;
      fachTimer, dchTimer := 6.0, 4.0;
      wifiPacketRateThreshold := 15;
      cpuFreqPowerCoeffs := [CpuPoint(245, 3.4169), CpuPoint(383, 4.3388)];
      minCpuFreq, maxCpuFreqCoeff := 245, 4.3388;
    }

    constructor NexusOne()
      ensures Valid() && Model() == NEXUS_ONE && fresh(powerCoeffs)
    {
      powerCoeffs := new int[3];
      new;
      wifiHighPowerBase, wifiLowPower := 405, 34;
      SetPowerStateCoeffs(10, 406, 902);
      dchThresholdDown, dchThresholdUp := 119, 151;
      fachTimer, dchTimer := 6.0, 4.0;
      wifiPacketRateThreshold := 15;
      cpuFreqPowerCoeffs :=
        [CpuPoint(245, 1.1273), CpuPoint(384, 1.5907), CpuPoint(460, 1.8736), CpuPoint(499, 2.1745),
         CpuPoint(576, 2.6031), CpuPoint(614, 2.9612), CpuPoint(653, 3.1373), CpuPoint(691, 3.4513),
         CpuPoint(768, 3.9073), CpuPoint(806, 4.1959), CpuPoint(845, 4.6492), CpuPoint(998, 5.4818)];
      minCpuFreq, maxCpuFreqCoeff := 245, 5.4818;
    }

    method SetPowerStateCoeffs(idle: int, fach: int, dch: int)
      requires powerCoeffs.Length == 3
      modifies this`idlePower, this`fachPower, this`dchPower, powerCoeffs
      ensures Valid()
      ensures Model() == old(Model()).(idlePower := idle, fachPower := fach, dchPower := dch)
    {
      idlePower, fachPower, dchPower := idle, fach, dch;
      powerCoeffs[0] := idlePower;
      powerCoeffs[1] := fachPower;
      powerCoeffs[2] := dchPower;
    }

    /** The array entry of a state agrees with the state's power field. */
    method PowerCoeff(s: MobileState) returns (mw: int)
      requires Valid()
      ensures mw == Model().PowerCoeff(s)
    {
      mw := powerCoeffs[Index(s)];
    }
  }
}
