/** Legal runs and inputs on which the exact conditions fail, and the concrete models that meet theirs. */
module Witnesses {
  import opened Common
  import opened Power
  import opened Models
  import opened MobileTracker
  import opened WifiSampler
  import opened Meter
  import opened Handset
  import opened Server
  import opened Runs
  import opened MeterRuns
  import opened Lockstep
  import opened Estimator
  import opened Tail
  import opened Prediction
  import PowerTrace

  // ---- Runs ----

  const NO_CPU := CpuRead(None, None)

  function At(now: nat, mobile: Option<Dirs>, wifi: Option<WifiRead>): Input { Input(now, mobile, wifi, NO_CPU) }

  /** A reset, and a second later the first reading of all counters. */
  function Baselined(reset: nat): Run {
    After(AtReset(At(reset, None, None), CpuTotals(0.0, 0.0, 0.0), true),
          At(reset + SECOND, Some(ZERO), Some(WifiRead(ZERO, ZERO))))
  }

  /** Then a sample whose downlink bytes reach the threshold. */
  function InDch(pm: PowerModel, reset: nat): Run {
    After(Baselined(reset), At(reset + 2 * SECOND, Some(Dirs(pm.dchThresholdDown, 0)), None))
  }

  lemma NoCpuIsOk(pm: PowerModel)
    requires pm.ValidCpu()
    ensures CpuReadOk(pm, NO_CPU)
  {
    CoeffDefined(pm.cpuTable, pm.minCpuFreq);
  }

  /** The handset a second after the reset. */
  predicate HasBaselines(h: HandsetState, reset: nat) {
    && h.mobile.state == IDLE && h.mobile.lastActivity == h.mobile.lastChange == reset
    && h.mobile.lastSample == reset + SECOND && h.mobile.lastBytes == ZERO && h.mobile.lastDelta == ZERO
    && h.wifi.lastBytes == ZERO && h.wifi.lastPackets == ZERO && h.wifi.lastObservation == reset + SECOND
    && h.meter.lastUpdate == reset + SECOND && h.callback
  }

  lemma BaselinedIs(pm: PowerModel, reset: nat)
    requires pm.ValidCpu()
    ensures Legal(pm, Baselined(reset)) && HasBaselines(Final(pm, Baselined(reset)), reset)
  {
    NoCpuIsOk(pm);
    assert Legal(pm, Baselined(reset).past);
  }

  /** The handset after the sample, still with the last WiFi reading of the baseline. */
  predicate HasSampled(pm: PowerModel, h: HandsetState, reset: nat) {
    && h.mobile.state == DCH && h.mobile.lastActivity == h.mobile.lastChange == reset + 2 * SECOND
    && h.mobile.lastSample == reset + 2 * SECOND
    && h.mobile.lastBytes == h.mobile.lastDelta == Dirs(pm.dchThresholdDown, 0)
    && h.wifi.lastBytes == ZERO && h.wifi.lastPackets == ZERO && h.wifi.lastObservation == reset + SECOND
    && h.meter.lastUpdate == reset + 2 * SECOND
  }

  lemma SampleTick(pm: PowerModel, h: HandsetState, reset: nat)
    requires pm.ValidRadio() && CpuReadOk(pm, NO_CPU) && HasBaselines(h, reset)
    ensures HasSampled(pm, TickHandset(pm, h, InDch(pm, reset).t), reset)
  {
    assert Samples(h.mobile, reset + 2 * SECOND, Dirs(pm.dchThresholdDown, 0));
  }

  lemma InDchIs(pm: PowerModel, reset: nat)
    requires pm.ValidRadio() && pm.ValidCpu()
    ensures Legal(pm, InDch(pm, reset)) && HasSampled(pm, Final(pm, InDch(pm, reset)), reset)
  {
    NoCpuIsOk(pm);
    BaselinedIs(pm, reset);
    SampleTick(pm, Final(pm, Baselined(reset)), reset);
  }

  /** A reset, two successful readings a second apart, counters that grow, and a registered callback. */
  lemma InDchIsRegular(pm: PowerModel, reset: nat)
    requires pm.ValidRadio()
    ensures var r := InDch(pm, reset);
      && ResetTime(r) == reset && Clock(r) == reset + 2 * SECOND && Counters(r) == Dirs(pm.dchThresholdDown, 0)
      && CountersGrow(r) && SecondsApart(r) && CallbackRegistered(r)
  {
    var first := Baselined(reset).past;
    assert CountersGrow(first) && ResetTime(first) == reset && SecondsApart(first) && CallbackRegistered(first);
    var r := Baselined(reset);
    assert CountersGrow(r) && ResetTime(r) == reset && SecondsApart(r) && CallbackRegistered(r);
  }

  /** After a reset in the clock's first second, the time before the state change is missing from the ledger. */
  lemma EarlyResetLosesTime(pm: PowerModel, reset: nat)
    requires pm.ValidRadio() && pm.ValidCpu() && reset < SECOND
    ensures var r := InDch(pm, reset);
      && Legal(pm, r) && ResetTime(r) == reset
      && TimeTotal(Radio(pm, r)) < SECOND + Radio(pm, r).lastChange - reset
  {
    InDchIs(pm, reset);
    InDchIsRegular(pm, reset);
    TimeLedgerHolds(pm, InDch(pm, reset));
  }

  /** Half a second later another byte has come in, and a report is sent because of WiFi packets. */
  function WifiReported(pm: PowerModel, reset: nat): Run {
    After(InDch(pm, reset), At(reset + 2_500_000, Some(Dirs(pm.dchThresholdDown + 1, 0)),
                               Some(WifiRead(ZERO, Dirs(15, 0)))))
  }

  lemma TenPacketsPerSecond(w: Wifi, now: nat)
    requires w.lastBytes == ZERO && w.lastPackets == ZERO && w.lastObservation + 1_500_000 == now
    ensures FiresWifi(w, now, Some(WifiRead(ZERO, Dirs(15, 0))))
  {
    assert 15.0 / 1.5 == 10.0 && 0.0 / 1.5 == 0.0;
    assert Rate(15, 0, 1_500_000) == 10 && Rate(0, 0, 1_500_000) == 0;
  }

  lemma OneMoreByte(pm: PowerModel, m: Mobile, reset: nat)
    requires pm.ValidRadio() && m.ClockOk(reset + 2_500_000) && m.state == DCH && 0.5 < pm.dchTimer
    requires m.lastActivity == m.lastSample == reset + 2 * SECOND && m.lastBytes == Dirs(pm.dchThresholdDown, 0)
    ensures var now, read := reset + 2_500_000, Some(Dirs(pm.dchThresholdDown + 1, 0));
      var m' := TickMobile(pm, m, now, read);
      !Active(m, now, read) && QueueLen(m', read) == Dirs(1, 0) && m'.state == DCH && m'.lastActivity != now
  {
    assert m.Idle(reset + 2_500_000) == 0.5;
  }

  lemma ReportTick(pm: PowerModel, h: HandsetState, reset: nat)
    requires pm.ValidRadio() && 0.5 < pm.dchTimer
    requires h.mobile.ClockOk(reset + 2_500_000) && HasSampled(pm, h, reset)
    ensures Misleads(pm, h, WifiReported(pm, reset).t)
  {
    OneMoreByte(pm, h.mobile, reset);
    TenPacketsPerSecond(h.wifi, reset + 2_500_000);
  }

  /** The server takes that report for activity at its arrival, which the handset has not seen. */
  lemma WifiReportMisleads(pm: PowerModel, reset: nat)
    requires pm.ValidRadio() && pm.ValidCpu() && 0.5 < pm.dchTimer
    ensures var r := WifiReported(pm, reset);
      && Legal(pm, r) && CountersGrow(r) && CallbackRegistered(r)
      && Misleads(pm, Final(pm, r.past), r.t) && !InStepThroughout(pm, NO_REPORTS, r)
  {
    NoCpuIsOk(pm);
    InDchIs(pm, reset);
    InDchIsRegular(pm, reset);
    ReportTick(pm, Final(pm, InDch(pm, reset)), reset);
    LockstepIff(pm, NO_REPORTS, WifiReported(pm, reset));
  }

  /** The reading fails, `n` seconds after the sample. */
  function Unread(pm: PowerModel, reset: nat, n: nat): Run {
    After(InDch(pm, reset), At(reset + Us(2 + n), None, None))
  }

  /** If the DCH timer has run by then, the server falls back to FACH and the handset does not. */
  lemma UnreadTickStalls(pm: PowerModel, reset: nat, n: nat)
    requires pm.ValidRadio() && pm.ValidCpu() && pm.dchTimer <= n as real
    ensures var r := Unread(pm, reset, n);
      && Legal(pm, r) && CountersGrow(r) && CallbackRegistered(r) && SecondsApart(r)
      && Stalls(pm, Final(pm, r.past), r.t) && !InStepThroughout(pm, NO_REPORTS, r)
  {
    NoCpuIsOk(pm);
    InDchIs(pm, reset);
    InDchIsRegular(pm, reset);
    assert Radio(pm, InDch(pm, reset)).Idle(reset + Us(2 + n)) == n as real;
    LockstepIff(pm, NO_REPORTS, Unread(pm, reset, n));
  }

  // ---- The server across ticks and resets ----

  /** The server once the report of the sample has arrived. */
  predicate ShowsSample(pm: PowerModel, s: Mirror, at: nat) {
    s.State() == DCH && s.lastReport.queue == Dirs(pm.dchThresholdDown, 0) && s.lastActivity == at
  }

  lemma ResetIs(pm: PowerModel, reset: nat)
    requires pm.ValidCpu()
    ensures var first := Baselined(reset).past;
      Legal(pm, first) && Final(pm, first) == Fresh(reset, CpuTotals(0.0, 0.0, 0.0), true)
  {
    NoCpuIsOk(pm);
  }

  lemma BaselineTickIsSilent(pm: PowerModel, h: HandsetState, reset: nat)
    requires h == Fresh(reset, CpuTotals(0.0, 0.0, 0.0), true)
    ensures var t := Baselined(reset).t;
      && ReportOf(pm, h, t).None? && ServerStep(pm, h, NO_REPORTS, t) == NO_REPORTS
      && !Breaks(pm, h, t)
  {
    assert !Active(h.mobile, reset + SECOND, Some(ZERO));
    assert !FiresWifi(h.wifi, reset + SECOND, Some(WifiRead(ZERO, ZERO)));
  }

  lemma BaselineIsSilent(pm: PowerModel, reset: nat)
    requires pm.ValidCpu()
    ensures Legal(pm, Baselined(reset))
    ensures ServerFrom(pm, NO_REPORTS, Baselined(reset)) == NO_REPORTS
    ensures QueueSince(pm, 0, Baselined(reset)) == 0 && NeverBroken(pm, Baselined(reset))
  {
    BaselinedIs(pm, reset);
    ResetIs(pm, reset);
    BaselineTickIsSilent(pm, Final(pm, Baselined(reset).past), reset);
  }

  lemma SampleReport(pm: PowerModel, h: HandsetState, reset: nat)
    requires pm.ValidRadio() && HasBaselines(h, reset)
    ensures var report := ReportOf(pm, h, InDch(pm, reset).t);
      report.Some? && report.value.state == DCH && report.value.queue == Dirs(pm.dchThresholdDown, 0)
    ensures ShowsSample(pm, ServerStep(pm, h, NO_REPORTS, InDch(pm, reset).t), reset + 2 * SECOND)
  {
    assert Samples(h.mobile, reset + 2 * SECOND, Dirs(pm.dchThresholdDown, 0));
  }

  lemma SampleIsReported(pm: PowerModel, reset: nat)
    requires pm.ValidRadio() && pm.ValidCpu()
    ensures Legal(pm, InDch(pm, reset))
    ensures ShowsSample(pm, ServerFrom(pm, NO_REPORTS, InDch(pm, reset)), reset + 2 * SECOND)
    ensures QueueSince(pm, 0, InDch(pm, reset)) == reset + 2 * SECOND
  {
    BaselinedIs(pm, reset);
    BaselineIsSilent(pm, reset);
    InDchIs(pm, reset);
    SampleReport(pm, Final(pm, Baselined(reset)), reset);
  }

  /** A handset that is reset while the server still shows DCH is out of step with it, although no report misleads
      and no failed reading stalls. */
  lemma ResetLeavesMirrorBehind(pm: PowerModel, reset: nat, later: nat)
    requires pm.ValidRadio() && pm.ValidCpu() && reset + 2 * SECOND <= later
    ensures var before, r := InDch(pm, reset), Baselined(later);
      && Legal(pm, before) && Legal(pm, r) && CountersGrow(r) && CallbackRegistered(r)
      && Clock(before) <= ResetTime(r) && NeverBroken(pm, r)
      && ServerFrom(pm, NO_REPORTS, before).State() == DCH
      && !InStepThroughout(pm, ServerFrom(pm, NO_REPORTS, before), r)
  {
    SampleIsReported(pm, reset);
    BaselineIsSilent(pm, later);
    InDchIsRegular(pm, later);
    InDchIsRegular(pm, reset);
    LockstepIff(pm, ServerFrom(pm, NO_REPORTS, InDch(pm, reset)), Baselined(later));
  }

  /** A tick without traffic after the sample. */
  function QuietAt(pm: PowerModel, now: nat): Input { At(now, Some(Dirs(pm.dchThresholdDown, 0)), None) }

  /** Just below the invalidation timeout, in microseconds. */
  const ALMOST: nat := 1_499_999

  function OnceMore(pm: PowerModel, reset: nat): Run {
    After(InDch(pm, reset), QuietAt(pm, reset + 2 * SECOND + ALMOST))
  }

  function TwiceMore(pm: PowerModel, reset: nat): Run {
    After(OnceMore(pm, reset), QuietAt(pm, reset + 2 * SECOND + 2 * ALMOST))
  }

  lemma QuietReportsNothing(pm: PowerModel, h: HandsetState, now: nat)
    requires h.mobile.ClockOk(now) && h.mobile.lastBytes == Dirs(pm.dchThresholdDown, 0)
    ensures ReportOf(pm, h, QuietAt(pm, now)).None?
    ensures TickMobile(pm, h.mobile, now, QuietAt(pm, now).mobile).lastBytes == h.mobile.lastBytes
  {
  }

  lemma QueueOutlivesTicks(pm: PowerModel, s: Mirror, at: nat)
    requires ShowsSample(pm, s, at) && !FallbackIsLate(pm)
    ensures var once := TickMirror(pm, s, at + ALMOST);
      && once.lastActivity == at + ALMOST
      && TickMirror(pm, once, at + 2 * ALMOST).lastReport.queue == s.lastReport.queue
  {
  }

  lemma OnceMoreIs(pm: PowerModel, reset: nat)
    requires pm.ValidRadio() && pm.ValidCpu()
    ensures Legal(pm, OnceMore(pm, reset))
    ensures Radio(pm, OnceMore(pm, reset)).lastBytes == Dirs(pm.dchThresholdDown, 0)
    ensures QueueSince(pm, 0, OnceMore(pm, reset)) == reset + 2 * SECOND
    ensures ServerFrom(pm, NO_REPORTS, OnceMore(pm, reset))
         == TickMirror(pm, ServerFrom(pm, NO_REPORTS, InDch(pm, reset)), reset + 2 * SECOND + ALMOST)
  {
    NoCpuIsOk(pm);
    InDchIs(pm, reset);
    SampleIsReported(pm, reset);
    QuietReportsNothing(pm, Final(pm, InDch(pm, reset)), reset + 2 * SECOND + ALMOST);
  }

  lemma TwiceMoreIs(pm: PowerModel, reset: nat)
    requires pm.ValidRadio() && pm.ValidCpu()
    ensures Legal(pm, TwiceMore(pm, reset))
    ensures QueueSince(pm, 0, TwiceMore(pm, reset)) == reset + 2 * SECOND
    ensures ServerFrom(pm, NO_REPORTS, OnceMore(pm, reset)).lastActivity <= reset + 2 * SECOND + ALMOST
    ensures ServerFrom(pm, NO_REPORTS, TwiceMore(pm, reset))
         == TickMirror(pm, ServerFrom(pm, NO_REPORTS, OnceMore(pm, reset)), reset + 2 * SECOND + 2 * ALMOST)
  {
    NoCpuIsOk(pm);
    OnceMoreIs(pm, reset);
    QuietReportsNothing(pm, Final(pm, OnceMore(pm, reset)), reset + 2 * SECOND + 2 * ALMOST);
  }

  /** Where the DCH timer is shorter than the invalidation timeout, a fallback to FACH lets the queue live on:
      here for almost three seconds. */
  lemma QueueGrowsStale(pm: PowerModel, reset: nat)
    requires pm.ValidRadio() && pm.ValidCpu() && !FallbackIsLate(pm)
    ensures var r := TwiceMore(pm, reset);
      && Legal(pm, r)
      && ServerFrom(pm, NO_REPORTS, r).lastReport.queue.Sum() > 0
      && Clock(r) - QueueSince(pm, 0, r) == 2 * ALMOST
  {
    SampleIsReported(pm, reset);
    OnceMoreIs(pm, reset);
    TwiceMoreIs(pm, reset);
    QueueOutlivesTicks(pm, ServerFrom(pm, NO_REPORTS, InDch(pm, reset)), reset + 2 * SECOND);
  }

  /** So the server never keeps a positive queue as long as the invalidation timeout, on any run, exactly when the
      DCH timer is not shorter. */
  lemma QueuesStayFreshIff(pm: PowerModel)
    requires pm.ValidRadio() && pm.ValidCpu()
    ensures QueuesStayFresh(pm) <==> FallbackIsLate(pm)
  {
    if FallbackIsLate(pm) {
      forall r | Legal(pm, r)
        ensures QueueIsFresh(ServerFrom(pm, NO_REPORTS, r), QueueSince(pm, 0, r), Clock(r))
      {
        MirrorQueueIsFresh(pm, NO_REPORTS, 0, r);
      }
    } else {
      QueueGrowsStale(pm, 0);
      assert Legal(pm, TwiceMore(pm, 0));
    }
  }

  // ---- Charges ----

  /** The failed reading counts the sample's bytes again. */
  lemma UnreadTickRecounts(pm: PowerModel, reset: nat)
    requires pm.ValidRadio() && pm.ValidCpu()
    ensures var r := Unread(pm, reset, 1);
      && Legal(pm, r) && CountersGrow(r) && SecondsApart(r) && Radio(pm, r).Observed()
      && !NeverRecounts(pm, r) && MeterOf(pm, r).bytes > Radio(pm, r).lastBytes.Sum() - Baseline(pm, r)
  {
    NoCpuIsOk(pm);
    InDchIs(pm, reset);
    InDchIsRegular(pm, reset);
    BytesAreConserved(pm, Unread(pm, reset, 1));
  }

  /** A tick without traffic, and half a second after its charge a sample. */
  function Uneventful(reset: nat): Run { After(Baselined(reset), At(reset + 2 * SECOND, Some(ZERO), None)) }

  function BetweenCharges(pm: PowerModel, reset: nat): Run {
    After(Uneventful(reset), At(reset + 2_500_000, Some(Dirs(pm.dchThresholdDown, 0)), None))
  }

  /** The handset two seconds after the reset, still without traffic. */
  predicate HasOnlyBaselines(h: HandsetState, reset: nat) {
    && h.mobile.lastSample == reset + SECOND && h.mobile.lastBytes == ZERO
    && h.meter.lastUpdate == reset + 2 * SECOND
  }

  lemma UneventfulTick(pm: PowerModel, h: HandsetState, reset: nat)
    requires CpuReadOk(pm, NO_CPU) && HasBaselines(h, reset)
    ensures HasOnlyBaselines(TickHandset(pm, h, Uneventful(reset).t), reset)
  {
    assert !Samples(h.mobile, reset + 2 * SECOND, ZERO);
  }

  lemma LateSample(pm: PowerModel, h: HandsetState, reset: nat)
    requires pm.ValidRadio() && CpuReadOk(pm, NO_CPU) && HasOnlyBaselines(h, reset)
    requires h.mobile.ClockOk(reset + 2_500_000)
    ensures var t := BetweenCharges(pm, reset).t;
      var m := TickMobile(pm, h.mobile, t.now, t.mobile);
      && Active(h.mobile, t.now, t.mobile) && !Charges(h.meter, t.now)
      && m.state == DCH && m.lastBytes == m.lastDelta == t.mobile.value
  {
  }

  lemma BetweenChargesIsRegular(pm: PowerModel, reset: nat)
    requires pm.ValidRadio()
    ensures CountersGrow(BetweenCharges(pm, reset))
  {
    InDchIsRegular(pm, reset);
    assert CountersGrow(Uneventful(reset)) && Counters(Uneventful(reset)) == ZERO;
  }

  lemma BetweenChargesNeverRecounts(pm: PowerModel, reset: nat)
    requires Legal(pm, BetweenCharges(pm, reset))
    ensures NeverRecounts(pm, BetweenCharges(pm, reset))
  {
    var r := Uneventful(reset);
    assert NeverRecounts(pm, r.past.past);
    assert NeverRecounts(pm, r.past);
    assert NeverRecounts(pm, r);
  }

  /** The tail that it starts is not charged for its first tick, and so is metered one second of DCH short of
      the estimate. */
  lemma TailStartsUncharged(pm: PowerModel, reset: nat)
    requires pm.ValidRadio() && pm.ValidCpu()
    ensures var r := BetweenCharges(pm, reset);
      && Legal(pm, r) && !Charged(pm, r) && StartsTail(pm, r)
      && Radio(pm, r).lastBytes == Radio(pm, r).lastDelta == Dirs(pm.dchThresholdDown, 0)
  {
    NoCpuIsOk(pm);
    BaselinedIs(pm, reset);
    UneventfulTick(pm, Final(pm, Baselined(reset)), reset);
    LateSample(pm, Final(pm, Uneventful(reset)), reset);
  }

  /** The sample's bytes are not counted. */
  lemma UnchargedSampleIsMissed(pm: PowerModel, reset: nat)
    requires pm.ValidRadio() && pm.ValidCpu()
    ensures var r := BetweenCharges(pm, reset);
      && Legal(pm, r) && CountersGrow(r) && !NeverMisses(pm, r)
      && MeterOf(pm, r).bytes < Radio(pm, r).lastBytes.Sum() - Baseline(pm, r)
  {
    TailStartsUncharged(pm, reset);
    BetweenChargesIsRegular(pm, reset);
    BetweenChargesNeverRecounts(pm, reset);
    BytesAreConserved(pm, BetweenCharges(pm, reset));
  }

  // ---- Predictions ----

  /** A sample of one byte less than the uplink threshold. */
  function AlmostDch(pm: PowerModel, reset: nat): Run {
    After(Baselined(reset), At(reset + 2 * SECOND, Some(Dirs(0, pm.dchThresholdUp - 1)), None))
  }

  lemma AlmostDchTick(pm: PowerModel, h: HandsetState, reset: nat)
    requires HEADERS < pm.dchThresholdUp && HEADERS < pm.dchThresholdDown && HasBaselines(h, reset)
    requires h.mobile.ClockOk(reset + 2 * SECOND)
    ensures var t := AlmostDch(pm, reset).t;
      var m := TickMobile(pm, h.mobile, t.now, t.mobile);
      && m.state == FACH && m.lastSample == t.now && m.lastBytes == m.lastDelta == t.mobile.value
      && m.ClockOk(reset + 3 * SECOND)
  {
    assert Samples(h.mobile, reset + 2 * SECOND, Dirs(0, pm.dchThresholdUp - 1));
  }

  lemma AlmostDchIsRegular(pm: PowerModel, reset: nat)
    requires pm.ValidRadio()
    ensures var r := AlmostDch(pm, reset); CountersGrow(r) && Counters(r) == Dirs(0, pm.dchThresholdUp - 1)
  {
    InDchIsRegular(pm, reset);
  }

  lemma CountedAgain(pm: PowerModel, m: Mobile, bytes: Dirs, now: nat)
    requires HEADERS < pm.dchThresholdUp && HEADERS < pm.dchThresholdDown && bytes == Dirs(0, pm.dchThresholdUp - 1)
    requires m.ClockOk(now) && m.state == FACH && m.lastBytes == m.lastDelta == bytes && m.lastSample + SECOND == now
    ensures SampledTransfer(m, false, bytes, 0, now)
    ensures PredictedNow(pm, false, m, bytes, 0) == DCH && TrackedState(pm, false, m, bytes, 0, now) == FACH
  {
  }

  /** A second later an empty transfer is predicted to reach DCH, because the sample counts again, and stays in
      FACH. */
  lemma PredictedInVain(pm: PowerModel, reset: nat)
    requires pm.ValidRadio() && pm.ValidCpu() && HEADERS < pm.dchThresholdUp && HEADERS < pm.dchThresholdDown
    ensures var r, bytes, now := AlmostDch(pm, reset), Dirs(0, pm.dchThresholdUp - 1), reset + 3 * SECOND;
      && Legal(pm, r) && CountersGrow(r) && Counters(r) == bytes
      && SampledTransfer(Radio(pm, r), false, bytes, 0, now)
      && PredictedNow(pm, false, Radio(pm, r), bytes, 0) == DCH
      && TrackedState(pm, false, Radio(pm, r), bytes, 0, now) == FACH
  {
    NoCpuIsOk(pm);
    BaselinedIs(pm, reset);
    AlmostDchIsRegular(pm, reset);
    AlmostDchTick(pm, Final(pm, Baselined(reset)), reset);
    CountedAgain(pm, Radio(pm, AlmostDch(pm, reset)), Dirs(0, pm.dchThresholdUp - 1), reset + 3 * SECOND);
  }

  // ---- Estimates ----

  /** Both concrete models keep a promotion from looking cheaper than none, and a queue from outliving its timeout. */
  lemma ModelsMeetConditions()
    ensures PromotionCovers(HTC_DREAM) && PromotionCovers(NEXUS_ONE)
    ensures FallbackIsLate(HTC_DREAM) && FallbackIsLate(NEXUS_ONE)
  {
  }

  /** A model with 1 mW in FACH and DCH and a DCH tail of a tenth of a millijoule. */
  const FRUGAL := PowerModel(1, 1, 0, 1, 1, 100, 100, 10.0, 0.1, 15, [], 0, 0.0)

  lemma FrugalIsUncovered()
    ensures FRUGAL.ValidRadio() && !EstimateCovers(FRUGAL)
  {
  }

  lemma FrugalCosts(idle: real)
    requires 0.5 <= idle < 1.0
    ensures CostOf(FRUGAL, FACH, FACH, idle, 0.5) == 1 && CostOf(FRUGAL, FACH, DCH, idle, 0.5) == 0
  {
    FachCosts(FRUGAL, idle, 0.5, 0.5, idle, 0.5, 0.6);
  }

  lemma HalfSecond()
    ensures TransferSeconds(0, 104, 0) == 0.5
  {
  }

  lemma EstimateIs(pm: PowerModel, bandwidth: nat, idle: real, queue: nat, to: MobileState, seconds: real)
    requires bandwidth > 0 && TransferSeconds(0, bandwidth, 0) == seconds
    requires PredictState(pm, false, 0, FACH, queue, 0) == to
    ensures EstimateFromState(pm, false, 0, bandwidth, 0, FACH, idle, queue, 0) == CostOf(pm, FACH, to, idle, seconds)
  {
  }

  /** On it a transfer of half a second costs 1 mJ from FACH with an empty queue, and nothing with a longer one:
      what each state takes is less than a millijoule and truncated away. */
  lemma LongerQueueLooksCheaper(idle: real)
    requires 0.5 <= idle < 1.0
    ensures FRUGAL.ValidRadio() && !EstimateCovers(FRUGAL)
    ensures EstimateFromState(FRUGAL, false, 0, 104, 0, FACH, idle, 0, 0) == 1
    ensures EstimateFromState(FRUGAL, false, 0, 104, 0, FACH, idle, 100, 0) == 0
  {
    FrugalIsUncovered();
    FrugalCosts(idle);
    HalfSecond();
    EstimateIs(FRUGAL, 104, idle, 0, FACH, 0.5);
    EstimateIs(FRUGAL, 104, idle, 100, DCH, 0.5);
  }

  // ---- The evaluation script ----

  function Idle(begin: int): PowerTrace.Slice { PowerTrace.Slice(begin, Some("IDLE"), None) }

  function Busy(begin: int): PowerTrace.Slice { PowerTrace.Slice(begin, Some("DCH"), Some(5)) }

  /** Two activities, one second apart. */
  const TWICE := [Idle(0), Busy(1), Idle(2), Busy(3), Idle(4)]

  /** The three seconds by which the script widens the second interval take in the first activity. */
  lemma WideningCountsTwice(start: int)
    ensures PowerTrace.WellFormed(TWICE) && PowerTrace.NonNegativeEnergies(TWICE)
    ensures PowerTrace.InRange(TWICE, PowerTrace.ActiveRuns(TWICE))
    ensures PowerTrace.IntervalsEnergy(start, TWICE, PowerTrace.Stamps(start, TWICE, PowerTrace.ActiveRuns(TWICE)), 3)
          > PowerTrace.RangeEnergy(TWICE, 0, 4)
  {
    PowerTrace.ActiveRunsAreExact(TWICE);
    assert PowerTrace.JustIdle(TWICE, 3);
    assert PowerTrace.IsRun(TWICE, 3, 4);
    assert (3, 4) in PowerTrace.ActiveRuns(TWICE);
    assert PowerTrace.TakesEnergy(TWICE[1]);
    PowerTrace.IntervalsEnergyIsEnclosed(start, TWICE, 0, 4, 3);
  }
}
