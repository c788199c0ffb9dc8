/** The two-party protocol: when the server's mirror of the radio agrees with the handset. */
module Lockstep {
  import opened Common
  import opened Power
  import opened MobileTracker
  import opened WifiSampler
  import opened Handset
  import opened Server
  import opened Runs
  import opened MeterRuns
  import opened Histories

  /** The server's fields before any report. */
  const NO_REPORTS := Mirror(Report(IDLE, ZERO, 0), 0)

  /** The server's fields when they are `s0` as the handset is reset, and it then ticks with the handset, each tick
      before that tick's report arrives. A reset of the handset does not reach the server. */
  ghost function ServerFrom(pm: PowerModel, s0: Mirror, r: Run): (s: Mirror)
    requires Legal(pm, r) && s0.lastActivity <= ResetTime(r)
    ensures s.lastActivity <= Clock(r)
  {
    match r
    case AtReset(_, _, _) => s0
    case After(past, t) => ServerStep(pm, Final(pm, past), ServerFrom(pm, s0, past), t)
  }

  function ServerStep(pm: PowerModel, h: HandsetState, s: Mirror, t: Input): (s': Mirror)
    requires h.mobile.ClockOk(t.now) && s.lastActivity <= t.now
    ensures s'.lastActivity <= t.now
  {
    var ticked := TickMirror(pm, s, t.now);
    match ReportOf(pm, h, t)
    case None => ticked
    case Some(report) => Deliver(ticked, report, t.now)
  }

  /** Same state, and outside IDLE the same last activity. */
  predicate InStep(m: Mobile, s: Mirror) {
    s.State() == m.state && (m.state != IDLE ==> s.lastActivity == m.lastActivity)
  }

  /** A report caused by WiFi alone that shows unsampled mobile bytes while the radio is up: the server
      takes it for radio activity that the handset has not seen. */
  predicate Misleads(pm: PowerModel, h: HandsetState, t: Input)
    requires h.mobile.ClockOk(t.now)
  {
    var m := TickMobile(pm, h.mobile, t.now, t.mobile);
    && FiresWifi(h.wifi, t.now, t.wifi) && !Active(h.mobile, t.now, t.mobile)
    && QueueLen(m, t.mobile).Sum() > 0
    && m.state != IDLE && m.lastActivity != t.now
  }

  /** A failed reading stops the handset's radio and not the server's: either a WiFi report sends the last
      deltas once more, or a timer expires that the report (which still shows the old state) does not undo. */
  predicate Stalls(pm: PowerModel, h: HandsetState, t: Input)
    requires h.mobile.ClockOk(t.now)
  {
    var m, fires := h.mobile, FiresWifi(h.wifi, t.now, t.wifi);
    && t.mobile.None? && m.state != IDLE
    && ((fires && m.lastDelta.Sum() > 0 && m.lastActivity != t.now)
        || (Demoted(pm, m.state, m.Idle(t.now)) != m.state && (m.state == DCH || !fires)))
  }

  predicate Breaks(pm: PowerModel, h: HandsetState, t: Input)
    requires h.mobile.ClockOk(t.now)
  {
    if t.mobile.Some? then Misleads(pm, h, t) else Stalls(pm, h, t)
  }

  /** What the handset's fields and the reading satisfy on runs with growing counters. */
  predicate ReadingOk(h: HandsetState, t: Input) {
    && h.callback
    && (t.mobile.Some? ==> h.mobile.lastBytes.AtMost(t.mobile.value))
    && (!h.mobile.Observed() ==> h.mobile.state == IDLE)
  }

  /** An activity report carries a positive queue, so it refreshes the server's last activity. */
  lemma ActivityReport(pm: PowerModel, h: HandsetState, t: Input)
    requires h.mobile.ClockOk(t.now) && ReadingOk(h, t) && Active(h.mobile, t.now, t.mobile)
    ensures var m := TickMobile(pm, h.mobile, t.now, t.mobile);
      QueueLen(m, t.mobile).Sum() > 0 && m.lastActivity == t.now
  {
  }

  /** Without radio activity both parties run the same timeouts. */
  lemma SameTimeouts(pm: PowerModel, m: Mobile, s: Mirror, now: nat, bytes: Dirs)
    requires m.ClockOk(now) && s.lastActivity <= now && InStep(m, s)
    requires !Active(m, now, Some(bytes)) && (!m.Observed() ==> m.state == IDLE)
    ensures InStep(TickMobile(pm, m, now, Some(bytes)), TickMirror(pm, s, now))
  {
  }

  lemma ReadTick(pm: PowerModel, h: HandsetState, s: Mirror, t: Input)
    requires h.mobile.ClockOk(t.now) && s.lastActivity <= t.now && t.mobile.Some?
    requires ReadingOk(h, t) && InStep(h.mobile, s)
    ensures InStep(TickMobile(pm, h.mobile, t.now, t.mobile), ServerStep(pm, h, s, t)) <==> !Misleads(pm, h, t)
  {
    if Active(h.mobile, t.now, t.mobile) {
      ActivityReport(pm, h, t);
    } else {
      SameTimeouts(pm, h.mobile, s, t.now, t.mobile.value);
    }
  }

  lemma UnreadTick(pm: PowerModel, h: HandsetState, s: Mirror, t: Input)
    requires pm.ValidRadio() && h.mobile.ClockOk(t.now) && s.lastActivity <= t.now && t.mobile.None?
    requires h.callback && InStep(h.mobile, s)
    ensures InStep(TickMobile(pm, h.mobile, t.now, t.mobile), ServerStep(pm, h, s, t)) <==> !Stalls(pm, h, t)
  {
  }

  /** One shared tick keeps the parties in step exactly when neither its report misleads the server nor its
      failed reading stalls the handset. */
  lemma StepKeepsLockstep(pm: PowerModel, h: HandsetState, s: Mirror, t: Input)
    requires pm.ValidRadio() && h.mobile.ClockOk(t.now) && s.lastActivity <= t.now
    requires ReadingOk(h, t) && InStep(h.mobile, s)
    ensures InStep(TickMobile(pm, h.mobile, t.now, t.mobile), ServerStep(pm, h, s, t)) <==> !Breaks(pm, h, t)
  {
    if t.mobile.Some? {
      ReadTick(pm, h, s, t);
    } else {
      UnreadTick(pm, h, s, t);
    }
  }

  ghost predicate InStepThroughout(pm: PowerModel, s0: Mirror, r: Run)
    requires Legal(pm, r) && s0.lastActivity <= ResetTime(r)
  {
    InStep(Radio(pm, r), ServerFrom(pm, s0, r)) && (r.After? ==> InStepThroughout(pm, s0, r.past))
  }

  ghost predicate NeverBroken(pm: PowerModel, r: Run)
    requires Legal(pm, r)
  {
    r.After? ==> NeverBroken(pm, r.past) && !Breaks(pm, Final(pm, r.past), r.t)
  }

  ghost predicate NeverStalled(pm: PowerModel, r: Run)
    requires Legal(pm, r)
  {
    r.After? ==> NeverStalled(pm, r.past) && !Stalls(pm, Final(pm, r.past), r.t)
  }

  function CallbackRegistered(r: Run): bool {
    if r.AtReset? then r.callback else CallbackRegistered(r.past)
  }

  lemma {:induction false} ReadingsAreOk(pm: PowerModel, r: Run)
    requires pm.ValidRadio() && Legal(pm, r) && CountersGrow(r)
    ensures Final(pm, r).callback == CallbackRegistered(r)
    ensures ReadingsNonNegative(r)
  {
    if r.After? {
      ReadingsAreOk(pm, r.past);
      BytesStayInRange(pm, r.past);
    }
  }

  lemma NextReadingOk(pm: PowerModel, r: Run)
    requires pm.ValidRadio() && Legal(pm, r) && r.After? && CountersGrow(r) && CallbackRegistered(r)
    ensures ReadingOk(Final(pm, r.past), r.t)
  {
    ReadingsAreOk(pm, r.past);
    BytesStayInRange(pm, r.past);
    TimersNeverOverrun(pm, r.past);
  }

  lemma FreshRadioIsIdle(pm: PowerModel, r: Run)
    requires Legal(pm, r) && r.AtReset?
    ensures Radio(pm, r).state == IDLE
  {
  }

  /** On any tick schedule, failed readings included, and whatever the server's fields at the handset's reset, both
      agree after every tick exactly when the server's mirror was IDLE at the reset, no report misleads, and no
      failed reading stalls. */
  lemma {:induction false} LockstepIff(pm: PowerModel, s0: Mirror, r: Run)
    requires pm.ValidRadio() && Legal(pm, r) && CountersGrow(r) && CallbackRegistered(r)
    requires s0.lastActivity <= ResetTime(r)
    ensures InStepThroughout(pm, s0, r) <==> s0.State() == IDLE && NeverBroken(pm, r)
  {
    match r {
      case AtReset(first, _, _) =>
        FreshRadioIsIdle(pm, r);
      case After(past, t) =>
        LockstepIff(pm, s0, past);
        NextReadingOk(pm, r);
        if InStepThroughout(pm, s0, past) {
          StepKeepsLockstep(pm, Final(pm, past), ServerFrom(pm, s0, past), t);
        }
    }
  }

  /** A second after the last sample, a tick that does not sample has no unsampled bytes. */
  lemma NoPendingBytes(pm: PowerModel, h: HandsetState, t: Input)
    requires h.mobile.ClockOk(t.now) && ReadingOk(h, t) && t.mobile.Some?
    requires t.now - h.mobile.lastSample >= SECOND && !Active(h.mobile, t.now, t.mobile)
    requires !h.mobile.Observed() ==> h.mobile.lastDelta == ZERO
    ensures QueueLen(TickMobile(pm, h.mobile, t.now, t.mobile), t.mobile).Sum() == 0
  {
  }

  lemma {:induction false} SlowTicksBreakByStalling(pm: PowerModel, r: Run)
    requires pm.ValidRadio() && Legal(pm, r) && CountersGrow(r) && CallbackRegistered(r) && SecondsApart(r)
    ensures NeverBroken(pm, r) <==> NeverStalled(pm, r)
  {
    if r.After? {
      SlowTicksBreakByStalling(pm, r.past);
      if r.t.mobile.Some? && !Active(Radio(pm, r.past), r.t.now, r.t.mobile) {
        NextReadingOk(pm, r);
        BytesStayInRange(pm, r.past);
        NoPendingBytes(pm, Final(pm, r.past), r.t);
      }
    }
  }

  lemma {:induction false} SuccessfulReadsNeverStall(pm: PowerModel, r: Run)
    requires Legal(pm, r) && ReadsSucceed(r)
    ensures NeverStalled(pm, r)
  {
    if r.After? {
      SuccessfulReadsNeverStall(pm, r.past);
    }
  }

  /** With shared ticks at least a second apart the server's mirror agrees with the handset after every tick
      (same state, and outside IDLE the same last activity) exactly when it was IDLE at the reset and no failed
      reading stalls the handset; so always when it starts without reports and the readings succeed. */
  lemma ServerMirrorsHandset(pm: PowerModel, s0: Mirror, r: Run)
    requires pm.ValidRadio() && Legal(pm, r) && CountersGrow(r) && CallbackRegistered(r) && SecondsApart(r)
    requires s0.lastActivity <= ResetTime(r)
    ensures InStepThroughout(pm, s0, r) <==> s0.State() == IDLE && NeverStalled(pm, r)
    ensures ReadsSucceed(r) ==> InStepThroughout(pm, NO_REPORTS, r)
  {
    LockstepIff(pm, s0, r);
    LockstepIff(pm, NO_REPORTS, r);
    SlowTicksBreakByStalling(pm, r);
    if ReadsSucceed(r) {
      SuccessfulReadsNeverStall(pm, r);
    }
  }

  // ---- What the server shows ----

  /** The queue that a report of the last tick shows, by the run's inputs alone: what the counters gained since the
      last sample, or between the last two if the tick itself samples or its reading failed. */
  function QueueShown(r: Run): Dirs
    requires r.After?
  {
    if r.t.mobile.None? || SamplesRadio(r) || RadioReading(r) == UNSET then RadioDelta(r)
    else r.t.mobile.value.Minus(RadioReading(r))
  }

  /** On every run a registered callback is called exactly at the ticks that sample traffic or at which WiFi is worth
      it, and the report shows the state after the tick, that queue, and the sum of the WiFi packet rates. */
  lemma ReportIs(pm: PowerModel, r: Run)
    requires Legal(pm, r) && r.After? && CountersGrow(r)
    ensures var report, h := ReportOf(pm, Final(pm, r.past), r.t), Final(pm, r);
      && (report.Some? <==>
            CallbackRegistered(r) && (SeesTraffic(r) || FiresWifi(Final(pm, r.past).wifi, r.t.now, r.t.wifi)))
      && (report.Some? ==>
            report.value == Report(h.mobile.state, QueueShown(r), h.wifi.packetRates.down + h.wifi.packetRates.up))
  {
    RadioSamplesAre(pm, r);
    RadioSamplesAre(pm, r.past);
    ReadingIsUnset(pm, r.past);
    ReadingIsUnset(pm, r);
    CallbackStays(pm, r.past);
  }

  lemma {:induction false} CallbackStays(pm: PowerModel, r: Run)
    requires Legal(pm, r)
    ensures Final(pm, r).callback == CallbackRegistered(r)
  {
    if r.After? {
      CallbackStays(pm, r.past);
    }
  }

  /** On every run the server shows, after a tick, what that tick's report delivered, if any; otherwise queue and
      packet rate are zero if 1.5 s had passed since the server's last activity, and unchanged if not. */
  lemma ServerShows(pm: PowerModel, s0: Mirror, r: Run)
    requires Legal(pm, r) && s0.lastActivity <= ResetTime(r) && r.After?
    ensures var report, before, shown := ReportOf(pm, Final(pm, r.past), r.t), ServerFrom(pm, s0, r.past),
                                         ServerFrom(pm, s0, r).lastReport;
      if report.Some? then shown == report.value
      else if Secs(Clock(r) - before.lastActivity) >= 1.5 then shown.queue == ZERO && shown.wifiPacketRate == 0
      else shown.queue == before.lastReport.queue && shown.wifiPacketRate == before.lastReport.wifiPacketRate
  {
  }

  /** So a positive packet rate on the server was reported at this tick, or the server's last activity is less than
      1.5 s ago. */
  lemma PacketRateIsRecent(pm: PowerModel, s0: Mirror, r: Run)
    requires Legal(pm, r) && s0.lastActivity <= ResetTime(r) && r.After?
    requires ServerFrom(pm, s0, r).lastReport.wifiPacketRate > 0
    ensures ReportOf(pm, Final(pm, r.past), r.t).Some?
      || Secs(Clock(r) - ServerFrom(pm, s0, r).lastActivity) < 1.5
  {
    ServerShows(pm, s0, r);
  }

  // ---- How old the server's queue can get ----

  /** When the last report with a positive queue arrived; `q0` if there is none since the reset. */
  ghost function QueueSince(pm: PowerModel, q0: nat, r: Run): nat
    requires Legal(pm, r)
  {
    match r
    case AtReset(_, _, _) => q0
    case After(past, t) =>
      var report := ReportOf(pm, Final(pm, past), t);
      if report.Some? && report.value.queue.Sum() > 0 then t.now else QueueSince(pm, q0, past)
  }

  /** A positive queue is one from less than the invalidation timeout ago. */
  predicate QueueIsFresh(s: Mirror, since: nat, now: nat) {
    s.lastReport.queue.Sum() > 0 ==> Secs(now - since) < INVALID_TIMEOUT
  }

  /** A positive queue is fresh and arrived with the last activity. */
  predicate QueueIsActivity(s: Mirror, since: nat, now: nat) {
    QueueIsFresh(s, since, now) && (s.lastReport.queue.Sum() > 0 ==> s.lastActivity == since)
  }

  /** A fallback to FACH comes too late for a queue to outlive it: no whole number of microseconds is at least the
      DCH timer and below the invalidation timeout. */
  predicate FallbackIsLate(pm: PowerModel) { Secs(1_499_999) < pm.dchTimer }

  lemma LateEnough(pm: PowerModel, us: int)
    requires FallbackIsLate(pm) && pm.dchTimer <= Secs(us)
    ensures INVALID_TIMEOUT <= Secs(us)
  {
    assert 1_499_999 < us;
  }

  lemma QueueTick(pm: PowerModel, s: Mirror, since: nat, before: nat, now: nat)
    requires s.lastActivity <= before <= now && FallbackIsLate(pm) && QueueIsActivity(s, since, before)
    ensures QueueIsActivity(TickMirror(pm, s, now), since, now)
  {
    if pm.dchTimer <= Secs(now - s.lastActivity) {
      LateEnough(pm, now - s.lastActivity);
    }
  }

  lemma QueueStep(pm: PowerModel, h: HandsetState, s: Mirror, t: Input, since: nat, before: nat)
    requires h.mobile.ClockOk(t.now) && s.lastActivity <= before <= t.now && FallbackIsLate(pm)
    requires QueueIsActivity(s, since, before)
    ensures var report := ReportOf(pm, h, t);
      QueueIsActivity(ServerStep(pm, h, s, t),
                      if report.Some? && report.value.queue.Sum() > 0 then t.now else since, t.now)
  {
    QueueTick(pm, s, since, before, t.now);
  }

  /** With a DCH timer of at least the invalidation timeout (to the microsecond), the server never keeps a positive
      queue that long after the report that brought it. */
  lemma {:induction false} MirrorQueueIsFresh(pm: PowerModel, s0: Mirror, q0: nat, r: Run)
    requires Legal(pm, r) && s0.lastActivity <= ResetTime(r) && QueueIsActivity(s0, q0, ResetTime(r))
    requires FallbackIsLate(pm)
    ensures QueueIsActivity(ServerFrom(pm, s0, r), QueueSince(pm, q0, r), Clock(r))
  {
    if r.After? {
      MirrorQueueIsFresh(pm, s0, q0, r.past);
      QueueStep(pm, Final(pm, r.past), ServerFrom(pm, s0, r.past), r.t, QueueSince(pm, q0, r.past), Clock(r.past));
    }
  }

  /** From a server without reports, on every run. */
  ghost predicate QueuesStayFresh(pm: PowerModel) {
    forall r :: Legal(pm, r) ==> QueueIsFresh(ServerFrom(pm, NO_REPORTS, r), QueueSince(pm, 0, r), Clock(r))
  }

  /** On any model it never relies on a queue longer than that after its last activity, which a fallback to FACH
      postpones. */
  lemma {:induction false} MirrorQueueIsRecent(pm: PowerModel, s0: Mirror, r: Run)
    requires Legal(pm, r) && s0.lastActivity <= ResetTime(r) && QueueIsFresh(s0, s0.lastActivity, ResetTime(r))
    ensures var s := ServerFrom(pm, s0, r); QueueIsFresh(s, s.lastActivity, Clock(r))
  {
    if r.After? {
      MirrorQueueIsRecent(pm, s0, r.past);
    }
  }
}
