/** The radio's tail: what happens, and what it costs, once the traffic stops. */
module Tail {
  import opened Common
  import opened Power
  import opened MobileTracker
  import opened Runs
  import opened MeterRuns
  import opened Estimator

  // ---- Quiet runs on any tick schedule ----

  predicate Ascending(now: nat, times: seq<nat>)
    decreases |times|
  {
    times == [] || (now <= times[0] && Ascending(times[0], times[1..]))
  }

  predicate GapsAtMost(now: nat, times: seq<nat>, p: real)
    decreases |times|
  {
    times == [] || (Secs(times[0] - now) <= p && GapsAtMost(times[0], times[1..], p))
  }

  function EndTime(now: nat, times: seq<nat>): nat
    decreases |times|
  {
    if times == [] then now else EndTime(times[0], times[1..])
  }

  lemma {:induction false} EndIsLater(now: nat, times: seq<nat>)
    requires Ascending(now, times)
    ensures now <= EndTime(now, times)
    decreases |times|
  {
    if times != [] {
      EndIsLater(times[0], times[1..]);
    }
  }

  /** A tick whose counters have not moved. */
  function QuietTick(pm: PowerModel, m: Mobile, now: nat): Mobile
    requires m.ClockOk(now)
  {
    TickMobile(pm, m, now, Some(m.lastBytes))
  }

  lemma QuietTickExpires(pm: PowerModel, m: Mobile, now: nat)
    requires m.ClockOk(now)
    ensures var m' := QuietTick(pm, m, now);
      && m'.ClockOk(now)
      && m'.state == Demoted(pm, m.state, m.Idle(now))
      && m'.lastActivity == (if m.state == DCH && m'.state == FACH then now else m.lastActivity)
  {
  }

  // ---- Quiet stretches of a run ----

  /** `r` extends `start` by ticks without traffic, at most `p` apart. */
  ghost predicate QuietTicks(pm: PowerModel, start: Run, r: Run, p: real)
    requires Legal(pm, r)
  {
    r == start
    || (r.After? && r.t.mobile == Some(Radio(pm, r.past).lastBytes) && Secs(Clock(r) - Clock(r.past)) <= p
        && QuietTicks(pm, start, r.past, p))
  }

  lemma LastTickIsQuiet(pm: PowerModel, r: Run)
    requires Legal(pm, r) && r.After? && r.t.mobile == Some(Radio(pm, r.past).lastBytes)
    ensures Radio(pm, r) == QuietTick(pm, Radio(pm, r.past), r.t.now)
  {
  }

  /** How far a tail has come that began with traffic at `g`. */
  predicate QuietingDown(pm: PowerModel, m: Mobile, g: nat, now: nat, p: real)
    requires m.ClockOk(now)
  {
    && WithinTimers(pm, m, now)
    && match m.state
       case DCH => m.lastActivity == g
       case FACH => pm.dchTimer <= Secs(m.lastActivity - g) < pm.dchTimer + p
       case IDLE => pm.dchTimer + pm.fachTimer <= Secs(now - g)
  }

  lemma QuietingStep(pm: PowerModel, m: Mobile, g: nat, before: nat, now: nat, p: real)
    requires pm.ValidRadio() && m.ClockOk(before) && before <= now && Secs(now - before) <= p
    requires QuietingDown(pm, m, g, before, p)
    ensures QuietTick(pm, m, now).ClockOk(now) && QuietingDown(pm, QuietTick(pm, m, now), g, now, p)
  {
    QuietTickExpires(pm, m, now);
  }

  lemma {:induction false} Quieting(pm: PowerModel, start: Run, r: Run, g: nat, p: real)
    requires pm.ValidRadio() && Legal(pm, start) && Legal(pm, r) && QuietTicks(pm, start, r, p)
    requires QuietingDown(pm, Radio(pm, start), g, Clock(start), p)
    ensures QuietingDown(pm, Radio(pm, r), g, Clock(r), p)
    decreases r
  {
    if r != start {
      Quieting(pm, start, r.past, g, p);
      LastTickIsQuiet(pm, r);
      QuietingStep(pm, Radio(pm, r.past), g, Clock(r.past), Clock(r), p);
    }
  }

  lemma QuietedDown(pm: PowerModel, m: Mobile, g: nat, now: nat, p: real)
    requires pm.ValidRadio() && 0.0 <= p && m.ClockOk(now) && QuietingDown(pm, m, g, now, p)
    ensures m.state == IDLE ==> Secs(now - g) >= pm.dchTimer + pm.fachTimer
    ensures Secs(now - g) >= pm.dchTimer + pm.fachTimer + p ==> m.state == IDLE
  {
  }

  lemma QuietingBegins(pm: PowerModel, start: Run, g: nat, p: real)
    requires pm.ValidRadio() && Legal(pm, start) && ReadingsNonNegative(start)
    requires Last(start).mobile.Some? && Radio(pm, start).state == DCH && LastDchTraffic(pm, start) == Some(g)
    ensures QuietingDown(pm, Radio(pm, start), g, Clock(start), p)
  {
    TimersNeverOverrun(pm, start);
    IdleOnlyAfterBothTimers(pm, start);
  }

  /** On every run, once the traffic stops while the radio is in DCH and ticks come at most `p` apart, IDLE is
      reached no earlier than both timers after the last DCH traffic and no later than at the first tick that
      comes `p` after that. */
  lemma RunReachesIdle(pm: PowerModel, start: Run, r: Run, g: nat, p: real)
    requires pm.ValidRadio() && Legal(pm, start) && ReadingsNonNegative(start)
    requires Last(start).mobile.Some? && Radio(pm, start).state == DCH && LastDchTraffic(pm, start) == Some(g)
    requires Legal(pm, r) && QuietTicks(pm, start, r, p) && 0.0 <= p
    ensures Radio(pm, r).state == IDLE ==> Secs(Clock(r) - g) >= pm.dchTimer + pm.fachTimer
    ensures Secs(Clock(r) - g) >= pm.dchTimer + pm.fachTimer + p ==> Radio(pm, r).state == IDLE
  {
    QuietingBegins(pm, start, g, p);
    Quieting(pm, start, r, g, p);
    QuietedDown(pm, Radio(pm, r), g, Clock(r), p);
  }

  // ---- The polled tracker against the exact automaton ----

  /** FACH or DCH energy of holding a state; IDLE counts as zero. */
  function Spent(pm: PowerModel, s: MobileState, seconds: real): real {
    match s
    case IDLE => 0.0
    case FACH => Scaled(pm.fachPower as real, seconds)
    case DCH => Scaled(pm.dchPower as real, seconds)
  }

  /** FACH and DCH energy while the tracker's states hold from tick to tick. */
  function HeldEnergy(pm: PowerModel, m: Mobile, now: nat, times: seq<nat>): real
    requires m.ClockOk(now) && Ascending(now, times)
    decreases |times|
  {
    if times == [] then 0.0
    else Spent(pm, m.state, Secs(times[0] - now))
         + HeldEnergy(pm, QuietTick(pm, m, times[0]), times[0], times[1..])
  }

  /** The energy of one gap in each state that is still to be left. */
  function Slack(pm: PowerModel, s: MobileState, p: real): real {
    match s
    case IDLE => 0.0
    case FACH => Spent(pm, FACH, p)
    case DCH => Spent(pm, DCH, p) + Spent(pm, FACH, p)
  }

  lemma SpentMonotone(pm: PowerModel, s: MobileState, x: real, y: real)
    requires pm.ValidRadio() && x <= y
    ensures Spent(pm, s, x) <= Spent(pm, s, y)
  {
    if s != IDLE {
      ScaledMonotone(pm.PowerCoeff(s) as real, x, y);
    }
  }

  lemma SpentAddsUp(pm: PowerModel, s: MobileState, x: real, y: real)
    ensures Spent(pm, s, x + y) == Spent(pm, s, x) + Spent(pm, s, y)
    ensures Spent(pm, s, 0.0) == 0.0
  {
  }

  lemma FachBelowDch(pm: PowerModel, seconds: real)
    requires pm.ValidRadio() && 0.0 <= seconds
    ensures Spent(pm, FACH, seconds) <= Spent(pm, DCH, seconds)
  {
    ProductMonotone(pm.fachPower as real, pm.dchPower as real, seconds, seconds);
  }

  lemma DrainIsSpent(pm: PowerModel, idle: real, span: real)
    ensures Drain(pm, FACH, idle, span) == Spent(pm, FACH, Min(span, Left(pm.fachTimer, idle)))
    ensures var left := Left(pm.dchTimer, idle);
      Drain(pm, DCH, idle, span) ==
        if span < left then Spent(pm, DCH, span)
        else Spent(pm, DCH, left) + Spent(pm, FACH, Min(span - left, pm.fachTimer))
  {
  }

  /** While the timer runs the exact automaton drains like the tracker. */
  lemma DrainWhileRunning(pm: PowerModel, s: MobileState, idle: real, gap: real, rest: real)
    requires pm.ValidRadio() && 0.0 <= idle && 0.0 <= gap && 0.0 <= rest
    requires s == DCH ==> idle + gap < pm.dchTimer
    requires s == FACH ==> idle + gap < pm.fachTimer
    ensures Drain(pm, s, idle, gap + rest) == Spent(pm, s, gap) + Drain(pm, s, idle + gap, rest)
  {
    DrainIsSpent(pm, idle, gap + rest);
    DrainIsSpent(pm, idle + gap, rest);
    match s {
      case IDLE =>
      case FACH => SpentAddsUp(pm, FACH, gap, Min(rest, Left(pm.fachTimer, idle + gap)));
      case DCH =>
        SpentAddsUp(pm, DCH, gap, rest);
        SpentAddsUp(pm, DCH, gap, Left(pm.dchTimer, idle + gap));
    }
  }

  /** The gap in which FACH expires is charged in full, at most one gap more than is due. */
  lemma DrainFachEnds(pm: PowerModel, idle: real, gap: real, rest: real, p: real)
    requires pm.ValidRadio() && 0.0 <= idle < pm.fachTimer <= idle + gap && gap <= p && 0.0 <= rest
    ensures Drain(pm, FACH, idle, gap + rest) <= Spent(pm, FACH, gap)
    ensures Spent(pm, FACH, gap) <= Drain(pm, FACH, idle, gap + rest) + Spent(pm, FACH, p)
  {
    var left := Left(pm.fachTimer, idle);
    DrainIsSpent(pm, idle, gap + rest);
    SpentMonotone(pm, FACH, left, gap);
    SpentMonotone(pm, FACH, gap, p);
    SpentMonotone(pm, FACH, 0.0, left);
    SpentAddsUp(pm, FACH, 0.0, 0.0);
  }

  /** Starting FACH late by `late` changes what is drained of it by at most that much. */
  lemma FachDrainLipschitz(pm: PowerModel, late: real, rest: real)
    requires pm.ValidRadio() && 0.0 <= late && 0.0 <= rest
    ensures Spent(pm, FACH, Min(rest, pm.fachTimer)) <= Spent(pm, FACH, Min(late + rest, pm.fachTimer))
    ensures Spent(pm, FACH, Min(late + rest, pm.fachTimer))
      <= Spent(pm, FACH, Min(rest, pm.fachTimer)) + Spent(pm, FACH, late)
  {
    SpentMonotone(pm, FACH, Min(rest, pm.fachTimer), Min(late + rest, pm.fachTimer));
    SpentMonotone(pm, FACH, Min(late + rest, pm.fachTimer), Min(rest, pm.fachTimer) + late);
    SpentAddsUp(pm, FACH, Min(rest, pm.fachTimer), late);
  }

  lemma LateSpent(pm: PowerModel, left: real, late: real, gap: real, p: real)
    requires pm.ValidRadio() && 0.0 <= late && left + late == gap && late <= p
    ensures Spent(pm, DCH, gap) == Spent(pm, DCH, left) + Spent(pm, DCH, late)
    ensures Spent(pm, FACH, late) <= Spent(pm, DCH, late) <= Spent(pm, DCH, p)
  {
    SpentAddsUp(pm, DCH, left, late);
    FachBelowDch(pm, late);
    SpentMonotone(pm, DCH, late, p);
  }

  /** The gap in which DCH expires, with a late start of FACH. */
  lemma DrainDchEnds(pm: PowerModel, idle: real, gap: real, rest: real, p: real)
    requires pm.ValidRadio() && 0.0 <= idle < pm.dchTimer <= idle + gap && gap <= p && 0.0 <= rest
    ensures Drain(pm, DCH, idle, gap + rest) <= Spent(pm, DCH, gap) + Drain(pm, FACH, 0.0, rest)
    ensures Spent(pm, DCH, gap) + Drain(pm, FACH, 0.0, rest) <= Drain(pm, DCH, idle, gap + rest) + Spent(pm, DCH, p)
  {
    var left := Left(pm.dchTimer, idle);
    var late := gap - left;
    DrainIsSpent(pm, idle, gap + rest);
    DrainIsSpent(pm, 0.0, rest);
    assert gap + rest - left == late + rest && Left(pm.fachTimer, 0.0) == pm.fachTimer;
    FachDrainLipschitz(pm, late, rest);
    LateSpent(pm, left, late, gap, p);
  }

  ghost predicate Brackets(low: real, x: real, slack: real) { low <= x <= low + slack }

  /** Polling with gaps of at most `p` never spends less than the exact automaton, and at most one gap per
      remaining state more: the estimator's automaton is refined by the tracker. */
  lemma {:induction false} TrackerRefinesAutomaton(pm: PowerModel, m: Mobile, now: nat, times: seq<nat>, p: real)
    requires pm.ValidRadio() && m.ClockOk(now) && Ascending(now, times) && GapsAtMost(now, times, p) && 0.0 <= p
    requires WithinTimers(pm, m, now)
    ensures Brackets(Drain(pm, m.state, m.Idle(now), Secs(EndTime(now, times) - now)),
                     HeldEnergy(pm, m, now, times), Slack(pm, m.state, p))
    decreases |times|
  {
    EndIsLater(now, times);
    if times == [] {
      NothingDrained(pm, m.state, m.Idle(now), p);
    } else {
      var m', rest := QuietTick(pm, m, times[0]), times[1..];
      EndIsLater(times[0], rest);
      QuietTickExpires(pm, m, times[0]);
      TrackerRefinesAutomaton(pm, m', times[0], rest, p);
      BracketStep(pm, m.state, m'.state, m.Idle(now), Secs(times[0] - now), m'.Idle(times[0]),
                  Secs(EndTime(times[0], rest) - times[0]), HeldEnergy(pm, m', times[0], rest), p);
    }
  }

  lemma NothingDrained(pm: PowerModel, s: MobileState, idle: real, p: real)
    requires pm.ValidRadio() && 0.0 <= p && (s == DCH ==> idle < pm.dchTimer) && (s == FACH ==> idle < pm.fachTimer)
    ensures Drain(pm, s, idle, 0.0) == 0.0 && 0.0 <= Slack(pm, s, p)
  {
    DrainIsSpent(pm, idle, 0.0);
    SpentMonotone(pm, FACH, 0.0, p);
    SpentMonotone(pm, DCH, 0.0, p);
    SpentAddsUp(pm, FACH, 0.0, 0.0);
    SpentAddsUp(pm, DCH, 0.0, 0.0);
  }

  lemma BracketStep(pm: PowerModel, s: MobileState, s': MobileState, idle: real, gap: real, idle': real,
                    rest: real, held: real, p: real)
    requires pm.ValidRadio() && 0.0 <= idle && 0.0 <= gap <= p && 0.0 <= rest
    requires (s == DCH ==> idle < pm.dchTimer) && (s == FACH ==> idle < pm.fachTimer)
    requires s' == Demoted(pm, s, idle + gap)
    requires s != IDLE ==> idle' == if s == DCH && s' == FACH then 0.0 else idle + gap
    requires Brackets(Drain(pm, s', idle', rest), held, Slack(pm, s', p))
    ensures Brackets(Drain(pm, s, idle, gap + rest), Spent(pm, s, gap) + held, Slack(pm, s, p))
  {
    if s == s' {
      BracketRunning(pm, s, idle, gap, if s == IDLE then idle' else idle + gap, rest, held, p);
    } else if s == FACH {
      BracketFachEnds(pm, idle, gap, idle', rest, held, p);
    } else {
      BracketDchEnds(pm, idle, gap, rest, held, p);
    }
  }

  lemma BracketShift(low: real, x: real, slack: real, low': real, more: real)
    requires Brackets(low, x, slack) && low' == more + low
    ensures Brackets(low', more + x, slack)
  {
  }

  lemma BracketRunning(pm: PowerModel, s: MobileState, idle: real, gap: real, idle': real,
                       rest: real, held: real, p: real)
    requires pm.ValidRadio() && 0.0 <= idle && 0.0 <= gap && 0.0 <= rest
    requires (s == DCH ==> idle + gap < pm.dchTimer) && (s == FACH ==> idle + gap < pm.fachTimer)
    requires s != IDLE ==> idle' == idle + gap
    requires Brackets(Drain(pm, s, idle', rest), held, Slack(pm, s, p))
    ensures Brackets(Drain(pm, s, idle, gap + rest), Spent(pm, s, gap) + held, Slack(pm, s, p))
  {
    DrainWhileRunning(pm, s, idle, gap, rest);
    BracketShift(Drain(pm, s, idle', rest), held, Slack(pm, s, p), Drain(pm, s, idle, gap + rest), Spent(pm, s, gap));
  }

  lemma BracketFachEnds(pm: PowerModel, idle: real, gap: real, idle': real, rest: real, held: real, p: real)
    requires pm.ValidRadio() && 0.0 <= idle < pm.fachTimer <= idle + gap && 0.0 <= gap <= p && 0.0 <= rest
    requires Brackets(Drain(pm, IDLE, idle', rest), held, Slack(pm, IDLE, p))
    ensures Brackets(Drain(pm, FACH, idle, gap + rest), Spent(pm, FACH, gap) + held, Slack(pm, FACH, p))
  {
    DrainFachEnds(pm, idle, gap, rest, p);
  }

  lemma BracketWiden(low: real, x: real, slack: real, low': real, more: real, extra: real)
    requires Brackets(low, x, slack) && low' <= more + low <= low' + extra
    ensures Brackets(low', more + x, extra + slack)
  {
  }

  lemma BracketDchEnds(pm: PowerModel, idle: real, gap: real, rest: real, held: real, p: real)
    requires pm.ValidRadio() && 0.0 <= idle < pm.dchTimer <= idle + gap && 0.0 <= gap <= p && 0.0 <= rest
    requires Brackets(Drain(pm, FACH, 0.0, rest), held, Slack(pm, FACH, p))
    ensures Brackets(Drain(pm, DCH, idle, gap + rest), Spent(pm, DCH, gap) + held, Slack(pm, DCH, p))
  {
    DrainDchEnds(pm, idle, gap, rest, p);
    BracketWiden(Drain(pm, FACH, 0.0, rest), held, Slack(pm, FACH, p), Drain(pm, DCH, idle, gap + rest),
                 Spent(pm, DCH, gap), Spent(pm, DCH, p));
  }

  /** A whole tail: from an activity in DCH, a quiet run long enough to reach IDLE spends at least the estimated
      IDLE-to-DCH cost of a zero-length transfer (before truncation), and at most a gap in each state more. */
  lemma WholeTailCost(pm: PowerModel, m: Mobile, times: seq<nat>, p: real)
    requires pm.ValidRadio() && m.ClockOk(m.lastActivity) && m.state == DCH && 0.0 <= p
    requires Ascending(m.lastActivity, times) && GapsAtMost(m.lastActivity, times, p)
    requires Secs(EndTime(m.lastActivity, times) - m.lastActivity) >= pm.dchTimer + pm.fachTimer
    ensures Brackets(ExactCost(pm, IDLE, DCH, 0.0, 0.0), HeldEnergy(pm, m, m.lastActivity, times), Slack(pm, DCH, p))
  {
    TrackerRefinesAutomaton(pm, m, m.lastActivity, times, p);
    WholeDrain(pm, Secs(EndTime(m.lastActivity, times) - m.lastActivity));
  }

  lemma WholeDrain(pm: PowerModel, span: real)
    requires pm.ValidRadio() && pm.dchTimer + pm.fachTimer <= span
    ensures Drain(pm, DCH, 0.0, span) == ExactCost(pm, IDLE, DCH, 0.0, 0.0)
  {
    FullDrain(pm, DCH, 0.0, span);
  }

  // ---- The metered tail ----

  /** The last tick comes a second after the one before, and the counters have not moved. */
  ghost predicate IsQuietSecond(pm: PowerModel, r: Run)
    requires Legal(pm, r) && r.After?
  {
    r.t.now == Clock(r.past) + SECOND && r.t.mobile == Some(Radio(pm, r.past).lastBytes)
  }

  /** `r` extends `start` by ticks a second apart, without traffic. */
  ghost predicate QuietSeconds(pm: PowerModel, start: Run, r: Run)
    requires Legal(pm, r)
  {
    r == start || (r.After? && IsQuietSecond(pm, r) && QuietSeconds(pm, start, r.past))
  }

  /** The number of ticks by which `r` extends `start`. */
  function TicksSince(start: Run, r: Run): nat {
    if r == start || r.AtReset? then 0 else TicksSince(start, r.past) + 1
  }

  /** The state at the `k`-th tick of a tail, its first tick being the activity. */
  function TailState(td: nat, tf: nat, k: nat): MobileState {
    if k < td then DCH else if k < td + tf then FACH else IDLE
  }

  /** The charges of `n` ticks at the same power. */
  function Ticks(mw: int, n: nat): int { mw * n }

  /** The charges of a tail's first `n` ticks. */
  function TailEnergy(pm: PowerModel, td: nat, tf: nat, n: nat): int {
    if n == 0 then 0 else TailEnergy(pm, td, tf, n - 1) + pm.PowerCoeff(TailState(td, tf, n - 1))
  }

  /** That is the DCH timer's ticks at DCH power, the FACH timer's at FACH power, and the rest at IDLE power. */
  lemma {:induction false} TailEnergyIs(pm: PowerModel, td: nat, tf: nat, n: nat)
    ensures TailEnergy(pm, td, tf, n) ==
      if n <= td then Ticks(pm.dchPower, n)
      else if n <= td + tf then Ticks(pm.dchPower, td) + Ticks(pm.fachPower, n - td)
      else Ticks(pm.dchPower, td) + Ticks(pm.fachPower, tf) + Ticks(pm.idlePower, n - td - tf)
  {
    if n > 0 {
      TailEnergyIs(pm, td, tf, n - 1);
    }
  }

  /** What a tail is observed by; `energy` is what the radio was charged with since the reset. */
  datatype Snapshot = Snapshot(clock: int, lastUpdate: int, state: MobileState, lastActivity: int, energy: int)

  ghost function Observe(pm: PowerModel, r: Run): Snapshot
    requires Legal(pm, r)
  {
    Snapshot(Clock(r), MeterOf(pm, r).lastUpdate, Radio(pm, r).state, Radio(pm, r).lastActivity, MobileEnergy(pm, r))
  }

  function TailActivity(begin: int, td: nat, k: nat): int { if k < td then begin else begin + Us(td) }

  /** The `k`-th second of a tail whose first tick was observed as `first`. */
  function TailSnapshot(pm: PowerModel, first: Snapshot, td: nat, tf: nat, k: nat): Snapshot {
    var now := first.clock + Us(k);
    Snapshot(now, if k == 0 then first.lastUpdate else now, TailState(td, tf, k), TailActivity(first.clock, td, k),
             first.energy - pm.dchPower + TailEnergy(pm, td, tf, k + 1))
  }

  /** The timers run out at the `td`-th and `tf`-th second. */
  predicate TimerTicks(pm: PowerModel, td: nat, tf: nat) {
    (td - 1) as real < pm.dchTimer <= td as real && (tf - 1) as real < pm.fachTimer <= tf as real
  }

  lemma QuietTailStep(pm: PowerModel, m: Mobile, begin: nat, td: nat, tf: nat, k: nat)
    requires TimerTicks(pm, td, tf) && 0 < td && 0 < tf
    requires m.state == TailState(td, tf, k) && m.lastActivity == TailActivity(begin, td, k)
    requires m.ClockOk(begin + Us(k + 1))
    ensures var m' := QuietTick(pm, m, begin + Us(k + 1));
      m'.state == TailState(td, tf, k + 1) && m'.lastActivity == TailActivity(begin, td, k + 1)
  {
    QuietTickExpires(pm, m, begin + Us(k + 1));
    assert m.state == DCH ==> m.Idle(begin + Us(k + 1)) == (k + 1) as real;
    assert m.state == FACH ==> m.Idle(begin + Us(k + 1)) == (k + 1 - td) as real;
  }

  /** A tick whose activity leaves the radio in DCH. */
  ghost predicate StartsTail(pm: PowerModel, start: Run)
    requires Legal(pm, start)
  {
    && start.After?
    && Active(Radio(pm, start.past), start.t.now, start.t.mobile) && Radio(pm, start).state == DCH
  }

  lemma TailBegins(pm: PowerModel, first: Snapshot, td: nat, tf: nat)
    requires first.state == DCH && first.lastActivity == first.clock && 0 < td
    ensures TailSnapshot(pm, first, td, tf, 0) == first
  {
    assert TailEnergy(pm, td, tf, 0) == 0;
  }

  /** The run's last tick is the `k`-th of a tail whose first tick was observed as `first`. */
  ghost predicate InTail(pm: PowerModel, first: Snapshot, r: Run, td: nat, tf: nat, k: nat)
    requires Legal(pm, r)
  {
    Observe(pm, r) == TailSnapshot(pm, first, td, tf, k)
  }

  lemma TailingNext(pm: PowerModel, first: Snapshot, r: Run, td: nat, tf: nat, k: nat)
    requires TimerTicks(pm, td, tf) && 0 < td && 0 < tf && 0 <= first.clock
    requires Legal(pm, r) && r.After? && IsQuietSecond(pm, r) && InTail(pm, first, r.past, td, tf, k)
    ensures InTail(pm, first, r, td, tf, k + 1)
  {
    ChargedSecond(pm, r);
    LastTickIsQuiet(pm, r);
    QuietTailStep(pm, Radio(pm, r.past), first.clock, td, tf, k);
  }

  lemma {:induction false} Tailing(pm: PowerModel, start: Run, first: Snapshot, r: Run, td: nat, tf: nat)
    requires TimerTicks(pm, td, tf) && 0 < td && 0 < tf && 0 <= first.clock
    requires Legal(pm, start) && InTail(pm, first, start, td, tf, 0)
    requires Legal(pm, r) && QuietSeconds(pm, start, r)
    ensures InTail(pm, first, r, td, tf, TicksSince(start, r))
    decreases r
  {
    if r != start {
      Tailing(pm, start, first, r.past, td, tf);
      TailingNext(pm, first, r, td, tf, TicksSince(start, r.past));
    }
  }

  /** From any tick whose activity leaves the radio in DCH, a quiet run of one-second ticks is in DCH for exactly
      the DCH timer's ticks (rounded up), in FACH for the FACH timer's ticks, and then IDLE, and every tick after
      the first is charged so. */
  lemma TailIsMetered(pm: PowerModel, start: Run, r: Run, td: nat, tf: nat)
    requires pm.ValidRadio() && TimerTicks(pm, td, tf)
    requires Legal(pm, r) && Legal(pm, start) && QuietSeconds(pm, start, r) && StartsTail(pm, start)
    ensures InTail(pm, Observe(pm, start), r, td, tf, TicksSince(start, r))
  {
    TailBegins(pm, Observe(pm, start), td, tf);
    Tailing(pm, start, Observe(pm, start), r, td, tf);
  }

  /** The estimate for a zero-length promotion from IDLE, plus IDLE power for some more ticks. */
  function EstimatedTail(pm: PowerModel, idle: real, idleTicks: nat): int {
    CostOf(pm, IDLE, DCH, idle, 0.0) + Ticks(pm.idlePower, idleTicks)
  }

  lemma WholeSeconds(mw: nat, seconds: nat)
    ensures Millijoules(mw, seconds as real) == Ticks(mw, seconds)
  {
    assert (mw * seconds) as real == mw as real * seconds as real;
  }

  /** The charges of a whole tail in FACH and DCH are the estimator's cost of a zero-length promotion from IDLE. */
  lemma WholeTailEnergy(pm: PowerModel, td: nat, tf: nat, n: nat, idle: real)
    requires pm.ValidRadio() && pm.dchTimer == td as real && pm.fachTimer == tf as real && td + tf <= n
    ensures TailEnergy(pm, td, tf, n) == EstimatedTail(pm, idle, n - td - tf)
  {
    TailEnergyIs(pm, td, tf, n);
    assert Ticks(pm.idlePower, 0) == 0;
    WholeSeconds(pm.dchPower, td);
    WholeSeconds(pm.fachPower, tf);
  }

  lemma TailCharges(pm: PowerModel, start: Run, r: Run, td: nat, tf: nat, n: nat)
    requires pm.ValidRadio() && pm.dchTimer == td as real && pm.fachTimer == tf as real
    requires Legal(pm, r) && Legal(pm, start) && QuietSeconds(pm, start, r) && StartsTail(pm, start)
    requires n == TicksSince(start, r) + 1
    ensures MobileEnergy(pm, r) == MobileEnergy(pm, start) - pm.dchPower + TailEnergy(pm, td, tf, n)
  {
    TailIsMetered(pm, start, r, td, tf);
  }

  /** The first tick of a tail is charged a second of DCH, or nothing if the last charge is too recent. */
  lemma FirstCharge(pm: PowerModel, start: Run)
    requires Legal(pm, start) && StartsTail(pm, start)
    ensures MobileEnergy(pm, start) == MobileEnergy(pm, start.past) + if Charged(pm, start) then pm.dchPower else 0
  {
  }

  lemma TailAgainstEstimate(pm: PowerModel, start: Run, r: Run, td: nat, tf: nat, idle: real, n: nat)
    requires pm.ValidRadio() && pm.dchTimer == td as real && pm.fachTimer == tf as real
    requires Legal(pm, r) && Legal(pm, start) && QuietSeconds(pm, start, r) && StartsTail(pm, start)
    requires td + tf <= n == TicksSince(start, r) + 1
    ensures MobileEnergy(pm, r) == MobileEnergy(pm, start) - pm.dchPower + EstimatedTail(pm, idle, n - td - tf)
  {
    WholeTailEnergy(pm, td, tf, n, idle);
    TailCharges(pm, start, r, td, tf, n);
  }

  /** Whether `energy` is `before` plus the estimate, if the first second at `mw` may not have been charged. */
  predicate MeteredAs(energy: int, before: int, estimated: int, charged: bool, mw: int) {
    && (energy == before + estimated <==> charged || mw == 0)
    && (!charged ==> energy == before + estimated - mw)
  }

  lemma FirstSecondDecides(energy: int, begun: int, before: int, estimated: int, charged: bool, mw: int)
    requires energy == begun - mw + estimated && begun == before + if charged then mw else 0
    ensures MeteredAs(energy, before, estimated, charged, mw)
  {
  }

  /** Once a tail is over, after `n` ticks, what the meter charged for it in FACH and DCH is exactly the estimator's
      cost of a zero-length promotion from IDLE to DCH if and only if its first tick was charged (or DCH power is
      zero); otherwise it is one second of DCH short. */
  lemma TailIsEstimated(pm: PowerModel, start: Run, r: Run, td: nat, tf: nat, n: nat, idle: real)
    requires pm.ValidRadio() && pm.dchTimer == td as real && pm.fachTimer == tf as real
    requires Legal(pm, r) && Legal(pm, start) && QuietSeconds(pm, start, r) && StartsTail(pm, start)
    requires td + tf <= n == TicksSince(start, r) + 1
    ensures MeteredAs(MobileEnergy(pm, r), MobileEnergy(pm, start.past), EstimatedTail(pm, idle, n - td - tf),
                      Charged(pm, start), pm.dchPower)
  {
    TailAgainstEstimate(pm, start, r, td, tf, idle, n);
    FirstCharge(pm, start);
    FirstSecondDecides(MobileEnergy(pm, r), MobileEnergy(pm, start), MobileEnergy(pm, start.past),
                       EstimatedTail(pm, idle, n - td - tf), Charged(pm, start), pm.dchPower);
  }
}
