/** The estimator's predicted state against the state the tracker then reaches. */
module Prediction {
  import opened Common
  import opened Power
  import opened MobileTracker
  import opened Handset
  import opened Server
  import opened Runs
  import opened MeterRuns
  import opened Histories
  import opened Lockstep
  import opened Estimator

  /** The part of a queue or a delta in the direction of the data, and in that of the acknowledgements: the handset
      sends up, the server down. */
  function Data(remote: bool, d: Dirs): int { if remote then d.down else d.up }

  function Acks(remote: bool, d: Dirs): int { if remote then d.up else d.down }

  /** The prediction from the state and the queue at the moment of the estimate. */
  function Predicted(pm: PowerModel, remote: bool, s: MobileState, queue: Dirs, datalen: nat): MobileState
    requires ZERO.AtMost(queue)
  {
    PredictState(pm, remote, datalen, s, Data(remote, queue), Acks(remote, queue))
  }

  /** With the queue that the tracker estimates. Queues of a tracker with growing counters are not negative. */
  function PredictedNow(pm: PowerModel, remote: bool, m: Mobile, bytes: Dirs, datalen: nat): MobileState
    requires ZERO.AtMost(QueueLen(m, Some(bytes)))
  {
    Predicted(pm, remote, m.state, QueueLen(m, Some(bytes)), datalen)
  }

  /** The counters after the transfer with its headers and one acknowledgement. */
  function AfterTransfer(remote: bool, bytes: Dirs, datalen: nat): Dirs {
    if remote then Dirs(bytes.down + datalen + 52, bytes.up + 52) else Dirs(bytes.down + 52, bytes.up + datalen + 52)
  }

  /** An observed tracker whose counters have only grown, and a next tick that samples the transfer. */
  predicate SampledTransfer(m: Mobile, remote: bool, bytes: Dirs, datalen: nat, now: nat) {
    && m.ClockOk(now) && m.Observed()
    && ZERO.AtMost(m.lastDelta) && m.lastBytes.AtMost(bytes)
    && Samples(m, now, AfterTransfer(remote, bytes, datalen))
  }

  /** Every run with growing counters leads to such a tracker once a baseline is taken. */
  lemma RunsSampleTransfers(pm: PowerModel, remote: bool, r: Run, bytes: Dirs, datalen: nat, now: nat)
    requires Legal(pm, r) && CountersGrow(r) && Radio(pm, r).Observed() && Counters(r).AtMost(bytes)
    requires Clock(r) <= now && now - Radio(pm, r).lastSample >= SECOND
    ensures SampledTransfer(Radio(pm, r), remote, bytes, datalen, now)
  {
    BytesStayInRange(pm, r);
  }

  function TrackedState(pm: PowerModel, remote: bool, m: Mobile, bytes: Dirs, datalen: nat, now: nat): MobileState
    requires m.ClockOk(now)
  {
    TickMobile(pm, m, now, Some(AfterTransfer(remote, bytes, datalen))).state
  }

  /** `predicted` and `tracked` for a transfer after which the counters are `delta` above the last sample: the tracker
      reaches DCH only if that was predicted; and it was predicted in vain exactly when the bytes of the last sample,
      which the queue estimate counts again, made the difference. */
  predicate SoundPrediction(pm: PowerModel, m: Mobile, delta: Dirs, predicted: MobileState, tracked: MobileState) {
    && (tracked == DCH ==> predicted == DCH)
    && (predicted == DCH && tracked != DCH <==>
        && m.state != DCH && delta.up < pm.dchThresholdUp && delta.down < pm.dchThresholdDown
        && (m.lastDelta.up + delta.up >= pm.dchThresholdUp || m.lastDelta.down + delta.down >= pm.dchThresholdDown))
    && (m.lastDelta == ZERO ==> predicted == tracked)
  }

  /** On the handset and on the server. */
  lemma PredictionIsSound(pm: PowerModel, remote: bool, m: Mobile, bytes: Dirs, datalen: nat, now: nat)
    requires SampledTransfer(m, remote, bytes, datalen, now)
    ensures SoundPrediction(pm, m, AfterTransfer(remote, bytes, datalen).Minus(m.lastBytes),
                            PredictedNow(pm, remote, m, bytes, datalen),
                            TrackedState(pm, remote, m, bytes, datalen, now))
  {
  }

  /** The server predicts from its mirror: right after a report it is as sound, on every run. */
  lemma ServerPredictionIsSound(pm: PowerModel, s0: Mirror, r: Run, datalen: nat, later: nat)
    requires Legal(pm, r) && CountersGrow(r) && s0.lastActivity <= ResetTime(r) && r.After? && r.t.mobile.Some?
    requires ReportOf(pm, Final(pm, r.past), r.t).Some? && RadioReading(r) != UNSET
    requires Clock(r) <= later && later - RadioSampled(r) >= SECOND
    ensures var shown := ServerFrom(pm, s0, r).lastReport;
      && Radio(pm, r).ClockOk(later) && ZERO.AtMost(shown.queue)
      && SoundPrediction(pm, Radio(pm, r), AfterTransfer(true, r.t.mobile.value, datalen).Minus(RadioReading(r)),
                         Predicted(pm, true, shown.state, shown.queue, datalen),
                         TrackedState(pm, true, Radio(pm, r), r.t.mobile.value, datalen, later))
  {
    RadioSamplesAre(pm, r);
    BytesStayInRange(pm, r);
    ServerShows(pm, s0, r);
    RunsSampleTransfers(pm, true, r, r.t.mobile.value, datalen, later);
    PredictionIsSound(pm, true, Radio(pm, r), r.t.mobile.value, datalen, later);
  }

  /** Every transfer is tracked in DCH: the radio is there already, or what is pending reaches a threshold with
      the headers of the transfer or of its acknowledgement. */
  predicate AlwaysDch(pm: PowerModel, m: Mobile, pending: Dirs) {
    m.state == DCH || pending.up + 52 >= pm.dchThresholdUp || pending.down + 52 >= pm.dchThresholdDown
  }

  /** The bytes of the last sample do not tip a threshold: none in the direction of the data, where some transfer is
      just too short, and too few in that of the acknowledgement. */
  predicate NothingTips(pm: PowerModel, remote: bool, m: Mobile, pending: Dirs) {
    Data(remote, m.lastDelta) == 0
    && Acks(remote, m.lastDelta) + Acks(remote, pending) + 52
       < if remote then pm.dchThresholdUp else pm.dchThresholdDown
  }

  /** Prediction and tracker agree on every transfer exactly when every transfer is tracked in DCH, or the bytes of
      the last sample do not tip a threshold. */
  lemma AgreementIff(pm: PowerModel, remote: bool, m: Mobile, bytes: Dirs, now: nat)
    requires m.ClockOk(now) && m.Observed() && ZERO.AtMost(m.lastDelta) && m.lastBytes.AtMost(bytes)
    requires now - m.lastSample >= SECOND
    ensures var pending := bytes.Minus(m.lastBytes);
      (forall datalen: nat ::
         PredictedNow(pm, remote, m, bytes, datalen) == TrackedState(pm, remote, m, bytes, datalen, now))
      <==> AlwaysDch(pm, m, pending) || NothingTips(pm, remote, m, pending)
  {
    var pending := bytes.Minus(m.lastBytes);
    if AlwaysDch(pm, m, pending) || NothingTips(pm, remote, m, pending) {
      forall datalen: nat
        ensures PredictedNow(pm, remote, m, bytes, datalen) == TrackedState(pm, remote, m, bytes, datalen, now)
      {
        PredictionIsSound(pm, remote, m, bytes, datalen, now);
      }
    } else {
      // the longest transfer that stays below its threshold
      var longest := pm.DchThreshold(remote) - 1 - 52 - Data(remote, pending);
      PredictionIsSound(pm, remote, m, bytes, longest, now);
      assert PredictedNow(pm, remote, m, bytes, longest) == DCH;
    }
  }
}
