/** The predictive estimate of a mobile transfer's energy, and what it predicts. */
module Estimator {
  import opened Common
  import opened Power
  import opened MobileTracker
  import opened Runs

  /** TCP and IP headers. */
  const HEADERS: nat := 32 + 20

  /** The state the transfer is expected to leave the radio in. The handset sends uplink, the server downlink. */
  function PredictState(pm: PowerModel, remote: bool, datalen: nat, from: MobileState, queue: nat, ackQueue: nat)
    : MobileState
  {
    if from == DCH
      || queue + datalen + HEADERS >= pm.DchThreshold(remote)
      || ackQueue + HEADERS >= pm.DchThreshold(!remote)
    then DCH else FACH
  }

  function TransferSeconds(datalen: nat, bandwidth: nat, rttMs: nat): real
    requires bandwidth > 0
  {
    (datalen + HEADERS) as real / bandwidth as real + rttMs as real / 1000.0
  }

  /** Truncated energy (mJ) of `seconds` at `mw`. */
  function Millijoules(mw: int, seconds: real): int { NonNegative(Trunc(Scaled(mw as real, seconds))) }

  /** Seconds of FACH power that the five cases of the estimate charge the transfer with. */
  function FachSeconds(pm: PowerModel, from: MobileState, to: MobileState, idle: real, duration: real): real {
    match (from, to)
    case (IDLE, DCH) => pm.fachTimer
    case (IDLE, _) => duration + pm.fachTimer
    case (FACH, DCH) => Min(idle, pm.fachTimer)
    case (FACH, _) => duration + Min(idle, pm.fachTimer)
    case (DCH, _) => 0.0
  }

  /** Seconds of DCH power. */
  function DchSeconds(pm: PowerModel, from: MobileState, to: MobileState, idle: real, duration: real): real {
    if from == DCH then duration + Min(idle, pm.dchTimer)
    else if to == DCH then duration + pm.dchTimer
    else 0.0
  }

  function CostOf(pm: PowerModel, from: MobileState, to: MobileState, idle: real, duration: real): int {
    Millijoules(pm.fachPower, FachSeconds(pm, from, to, idle, duration))
    + Millijoules(pm.dchPower, DchSeconds(pm, from, to, idle, duration))
  }

  /** `estimate_mobile_energy_cost_from_state`. */
  function EstimateFromState(pm: PowerModel, remote: bool, datalen: nat, bandwidth: nat, rttMs: nat,
                             from: MobileState, idle: real, queue: nat, ackQueue: nat): int
    requires bandwidth > 0
  {
    CostOf(pm, from, PredictState(pm, remote, datalen, from, queue, ackQueue), idle,
           TransferSeconds(datalen, bandwidth, rttMs))
  }

  // ---- The estimate is the marginal energy of the timeout automaton ----

  /** What is left of an inactivity timer. */
  function Left(timer: real, idle: real): real { Max(0.0, timer - idle) }

  /** FACH and DCH energy (IDLE counted as zero) that the radio uses in `span` seconds without traffic, when
      it is in state `s`, has been inactive for `idle`, and obeys its timers to the instant. */
  function Drain(pm: PowerModel, s: MobileState, idle: real, span: real): real {
    match s
    case IDLE => 0.0
    case FACH => Scaled(pm.fachPower as real, Min(span, Left(pm.fachTimer, idle)))
    case DCH =>
      var left := Left(pm.dchTimer, idle);
      if span < left then Scaled(pm.dchPower as real, span)
      else Scaled(pm.dchPower as real, left) + Scaled(pm.fachPower as real, Min(span - left, pm.fachTimer))
  }

  /** Energy over `horizon` seconds with the transfer, minus the energy without it. */
  function Marginal(pm: PowerModel, from: MobileState, to: MobileState, idle: real, duration: real, horizon: real)
    : real
  {
    Scaled(pm.PowerCoeff(to) as real, duration) + Drain(pm, to, 0.0, horizon - duration)
    - Drain(pm, from, idle, horizon)
  }

  lemma TruncatedBounds(mw: int, seconds: real)
    requires 0 <= mw && 0.0 <= seconds
    ensures Scaled(mw as real, seconds) - 1.0 < Millijoules(mw, seconds) as real <= Scaled(mw as real, seconds)
  {
    ProductSigns(mw as real, seconds);
  }

  /** The exact (untruncated) estimate. */
  function ExactCost(pm: PowerModel, from: MobileState, to: MobileState, idle: real, duration: real): real {
    Scaled(pm.fachPower as real, FachSeconds(pm, from, to, idle, duration))
    + Scaled(pm.dchPower as real, DchSeconds(pm, from, to, idle, duration))
  }

  lemma TruncatedCost(pm: PowerModel, from: MobileState, to: MobileState, idle: real, duration: real)
    requires pm.ValidRadio() && 0.0 <= idle && 0.0 <= duration
    ensures var exact := ExactCost(pm, from, to, idle, duration);
      exact - 2.0 < CostOf(pm, from, to, idle, duration) as real <= exact
  {
    TruncatedBounds(pm.fachPower, FachSeconds(pm, from, to, idle, duration));
    TruncatedBounds(pm.dchPower, DchSeconds(pm, from, to, idle, duration));
  }

  lemma TimerSplit(p: real, timer: real, idle: real)
    requires 0.0 <= idle
    ensures Scaled(p, Min(idle, timer)) + Scaled(p, Left(timer, idle)) == Scaled(p, timer)
  {
    ScaledAddsUp(p, Min(idle, timer), Left(timer, idle));
    assert Min(idle, timer) + Left(timer, idle) == timer;
  }

  lemma FullDrain(pm: PowerModel, s: MobileState, idle: real, span: real)
    requires pm.ValidRadio() && 0.0 <= idle && pm.dchTimer + pm.fachTimer <= span
    ensures Drain(pm, s, idle, span) == match s
      case IDLE => 0.0
      case FACH => Scaled(pm.fachPower as real, Left(pm.fachTimer, idle))
      case DCH => Scaled(pm.dchPower as real, Left(pm.dchTimer, idle)) + Scaled(pm.fachPower as real, pm.fachTimer)
  {
  }

  lemma ExactCostIsMarginal(pm: PowerModel, from: MobileState, to: MobileState,
                            idle: real, duration: real, horizon: real)
    requires pm.ValidRadio() && 0.0 <= idle && 0.0 <= duration
    requires duration + pm.dchTimer + pm.fachTimer <= horizon
    requires to == DCH || (to == FACH && from != DCH)
    ensures ExactCost(pm, from, to, idle, duration) == Marginal(pm, from, to, idle, duration, horizon)
  {
    var f, d := pm.fachPower as real, pm.dchPower as real;
    FullDrain(pm, to, 0.0, horizon - duration);
    FullDrain(pm, from, idle, horizon);
    assert Left(pm.fachTimer, 0.0) == pm.fachTimer && Left(pm.dchTimer, 0.0) == pm.dchTimer;
    assert Scaled(f, 0.0) == 0.0 && Scaled(d, 0.0) == 0.0;
    match (from, to) {
      case (IDLE, DCH) => ScaledAddsUp(d, duration, pm.dchTimer);
      case (IDLE, _) => ScaledAddsUp(f, duration, pm.fachTimer);
      case (FACH, DCH) =>
        TimerSplit(f, pm.fachTimer, idle);
        ScaledAddsUp(d, duration, pm.dchTimer);
      case (FACH, _) =>
        TimerSplit(f, pm.fachTimer, idle);
        ScaledAddsUp(f, duration, Min(idle, pm.fachTimer));
      case (DCH, _) =>
        TimerSplit(d, pm.dchTimer, idle);
        ScaledAddsUp(d, duration, Min(idle, pm.dchTimer));
    }
  }

  /** The transfer's duration: what `bandwidth` carries the data and 52 bytes of headers in, and the round trip. */
  lemma TransferTime(datalen: nat, bandwidth: nat, rttMs: nat, sent: real)
    requires bandwidth > 0 && sent * bandwidth as real == (datalen + 52) as real
    ensures TransferSeconds(datalen, bandwidth, rttMs) == sent + rttMs as real / 1000.0
  {
    QuotientTimes((datalen + HEADERS) as real, bandwidth as real);
    SameFactor(sent, (datalen + HEADERS) as real / bandwidth as real, bandwidth as real);
  }

  /** For every old state and prediction, and any horizon that both runs reach idle in, the estimate is the
      energy that the transfer adds to the automaton's run, truncated by less than 2 mJ; `sent` is the time that
      the bandwidth takes for the data and its headers. */
  lemma EstimateIsMarginalEnergy(pm: PowerModel, remote: bool, datalen: nat, bandwidth: nat, rttMs: nat,
                                 from: MobileState, idle: real, queue: nat, ackQueue: nat, sent: real, horizon: real)
    requires pm.ValidRadio() && bandwidth > 0 && 0.0 <= idle
    requires sent * bandwidth as real == (datalen + 52) as real
    requires sent + rttMs as real / 1000.0 + pm.dchTimer + pm.fachTimer <= horizon
    ensures var marginal := Marginal(pm, from, PredictState(pm, remote, datalen, from, queue, ackQueue), idle,
                                     sent + rttMs as real / 1000.0, horizon);
      marginal - 2.0 < EstimateFromState(pm, remote, datalen, bandwidth, rttMs, from, idle, queue, ackQueue) as real
      <= marginal
  {
    var duration := TransferSeconds(datalen, bandwidth, rttMs);
    var to := PredictState(pm, remote, datalen, from, queue, ackQueue);
    TransferTime(datalen, bandwidth, rttMs, sent);
    TransferMonotone(datalen, bandwidth, rttMs, datalen, bandwidth, rttMs);
    ExactCostIsMarginal(pm, from, to, idle, duration, horizon);
    TruncatedCost(pm, from, to, idle, duration);
  }

  // ---- Monotonicity ----

  lemma TransferMonotone(datalen: nat, bandwidth: nat, rttMs: nat, datalen': nat, bandwidth': nat, rttMs': nat)
    requires datalen <= datalen' && 0 < bandwidth' <= bandwidth && rttMs <= rttMs'
    ensures 0.0 <= TransferSeconds(datalen, bandwidth, rttMs) <= TransferSeconds(datalen', bandwidth', rttMs')
  {
    QuotientMonotone((datalen + HEADERS) as real, (datalen' + HEADERS) as real, bandwidth' as real, bandwidth as real);
  }

  lemma MillijoulesMonotone(mw: int, mw': int, x: real, y: real)
    requires 0 <= mw <= mw' && 0.0 <= x <= y
    ensures 0 <= Millijoules(mw, x) <= Millijoules(mw', y)
  {
    ProductMonotone(mw as real, mw' as real, x, y);
    TruncMonotone(mw as real * x, mw' as real * y);
  }

  lemma CostMonotone(pm: PowerModel, from: MobileState, to: MobileState,
                     idle: real, duration: real, idle': real, duration': real)
    requires pm.ValidRadio() && 0.0 <= idle <= idle' && 0.0 <= duration <= duration'
    ensures CostOf(pm, from, to, idle, duration) <= CostOf(pm, from, to, idle', duration')
  {
    MillijoulesMonotone(pm.fachPower, pm.fachPower, FachSeconds(pm, from, to, idle, duration),
                        FachSeconds(pm, from, to, idle', duration'));
    MillijoulesMonotone(pm.dchPower, pm.dchPower, DchSeconds(pm, from, to, idle, duration),
                        DchSeconds(pm, from, to, idle', duration'));
  }

  /** The DCH tail pays for the millijoule that splitting the truncation over two states can lose. */
  predicate PromotionCovers(pm: PowerModel) {
    var f, d := pm.fachPower as real, pm.dchPower as real;
    Pays(f, d, d * pm.dchTimer, Min(f * pm.fachTimer, 1.0))
  }

  /** FACH and DCH power, energy `b` of the DCH tail, and the largest fraction `a` that truncating drops. */
  predicate Pays(f: real, d: real, b: real, a: real) { b * f + (1.0 - a) * d >= f }

  /** Predicting a promotion never lowers the estimate from FACH. */
  ghost predicate PromotionNeverCheaper(pm: PowerModel) {
    forall idle, duration, duration' :: 0.0 <= idle && 0.0 <= duration <= duration' ==>
      CostOf(pm, FACH, FACH, idle, duration) <= CostOf(pm, FACH, DCH, idle, duration')
  }

  predicate Outweighs(e: real, f: real, x: real, d: real) { x * d <= e * f }

  /** `k` whole mJ are lost at most when `x` joins a fraction `alpha`; DCH energy `e` with its tail `b` makes
      up for them. */
  lemma PromotionPays(f: real, d: real, b: real, a: real, alpha: real, x: real, k: real, e: real)
    requires 0.0 < f <= d && alpha <= a && 1.0 <= k
    requires Pays(f, d, b, a)
    requires k - alpha <= x && Outweighs(e, f, x, d)
    ensures k <= e + b
  {
    ScaledMonotone(d, k - a, x);
    PowerGap(f, d, k);
    PaidInFull(f, d, b, a, k);
    EnoughFor(f, d, b, a, k, x, e);
    CancelFactor(k, e + b, f);
  }

  lemma PowerGap(f: real, d: real, k: real)
    requires f <= d && 1.0 <= k
    ensures (k - 1.0) * f <= (k - 1.0) * d
  {
    ScaledMonotone(k - 1.0, f, d);
  }

  lemma PaidInFull(f: real, d: real, b: real, a: real, k: real)
    requires Pays(f, d, b, a) && (k - 1.0) * f <= (k - 1.0) * d
    ensures k * f <= b * f + (k - a) * d
  {
    ScaledAddsUp(f, k, 1.0);
    ScaledAddsUp(d, k - 1.0, 1.0 - a);
    assert k - 1.0 + (1.0 - a) == k - a;
  }

  lemma EnoughFor(f: real, d: real, b: real, a: real, k: real, x: real, e: real)
    requires k * f <= b * f + (k - a) * d && (k - a) * d <= x * d && Outweighs(e, f, x, d)
    ensures k * f <= (e + b) * f
  {
    ScaledAddsUp(f, e, b);
  }

  /** `y` mJ joined with `x` mJ of FACH time, against `y` alone plus the DCH energy `e` and its tail `b`. */
  lemma SplitTruncation(f: real, d: real, b: real, a: real, y: real, x: real, e: real)
    requires 0.0 <= f <= d && 0.0 <= e + b
    requires Pays(f, d, b, a)
    requires y - y.Floor as real <= a
    requires f == 0.0 ==> x == 0.0
    requires Outweighs(e, f, x, d)
    ensures (x + y).Floor <= y.Floor + (e + b).Floor
  {
    var k, alpha := FloorSplit(x, y);
    if k >= 1 && f > 0.0 {
      PromotionPays(f, d, b, a, alpha, x, k as real, e);
    }
  }

  /** The whole part `k` that `x` adds to `y`, and the fraction `alpha` of `y` that helps it. */
  lemma FloorSplit(x: real, y: real) returns (k: int, alpha: real)
    ensures (x + y).Floor == y.Floor + k && alpha == y - y.Floor as real
    ensures k as real - alpha <= x
  {
    k, alpha := (x + y).Floor - y.Floor, y - y.Floor as real;
  }

  lemma WholeMillijoules(mw: int, seconds: real, energy: real)
    requires mw as real * seconds == energy >= 0.0
    ensures Millijoules(mw, seconds) == energy.Floor
  {
  }

  lemma CrossProducts(f: real, d: real, duration: real, duration': real)
    requires 0.0 <= f && 0.0 <= d && 0.0 <= duration <= duration'
    ensures (f * duration) * d <= (d * duration') * f
  {
    ProductSigns(d, f);
    ProductMonotone(d * f, d * f, duration, duration');
    assert (f * duration) * d == (d * f) * duration;
    assert (d * duration') * f == (d * f) * duration';
  }

  /** The energies (mJ) that a promotion from FACH moves: `y` for the kept FACH time, `x` for the transfer in
      FACH, `z` for the (possibly longer) transfer in DCH with its tail. */
  ghost predicate Energies(pm: PowerModel, idle: real, duration: real, duration': real, y: real, x: real, z: real) {
    var f, d, kept := pm.fachPower as real, pm.dchPower as real, Min(idle, pm.fachTimer);
    && y == f * kept && 0.0 <= y <= f * pm.fachTimer
    && x == f * duration && 0.0 <= x
    && x + y == f * (duration + kept)
    && z == d * (duration' + pm.dchTimer) && 0.0 <= z
    && z == d * duration' + d * pm.dchTimer
  }

  lemma PromotionEnergies(pm: PowerModel, idle: real, duration: real, duration': real)
    returns (y: real, x: real, z: real)
    requires pm.ValidRadio() && 0.0 <= idle && 0.0 <= duration && 0.0 <= duration'
    ensures Energies(pm, idle, duration, duration', y, x, z)
  {
    var f, d, kept := pm.fachPower as real, pm.dchPower as real, Min(idle, pm.fachTimer);
    y, x, z := f * kept, f * duration, d * (duration' + pm.dchTimer);
    ProductMonotone(f, f, kept, pm.fachTimer);
    ProductSigns(f, duration);
    ProductSigns(d, duration' + pm.dchTimer);
    ScaledAddsUp(f, duration, kept);
    ScaledAddsUp(d, duration', pm.dchTimer);
  }

  lemma FachCosts(pm: PowerModel, idle: real, duration: real, duration': real, y: real, x: real, z: real)
    requires Energies(pm, idle, duration, duration', y, x, z)
    ensures CostOf(pm, FACH, FACH, idle, duration) == (x + y).Floor
    ensures CostOf(pm, FACH, DCH, idle, duration') == y.Floor + z.Floor
  {
    WholeMillijoules(pm.fachPower, Min(idle, pm.fachTimer), y);
    WholeMillijoules(pm.fachPower, duration + Min(idle, pm.fachTimer), x + y);
    WholeMillijoules(pm.dchPower, duration' + pm.dchTimer, z);
    WholeMillijoules(pm.dchPower, 0.0, 0.0);
  }

  lemma CrossEnergies(f: real, d: real, duration: real, duration': real, x: real, e: real)
    requires 0.0 <= f && 0.0 <= d && 0.0 <= duration <= duration'
    requires x == f * duration && e == d * duration'
    ensures Outweighs(e, f, x, d)
    ensures f == 0.0 ==> x == 0.0
  {
    CrossProducts(f, d, duration, duration');
  }

  lemma PromotionSplit(pm: PowerModel, idle: real, duration: real, duration': real, y: real, x: real, z: real)
    requires pm.ValidRadio() && PromotionCovers(pm) && 0.0 <= duration <= duration'
    requires Energies(pm, idle, duration, duration', y, x, z)
    ensures (x + y).Floor <= y.Floor + z.Floor
  {
    SplitEnergies(pm.fachPower as real, pm.dchPower as real, pm.dchPower as real * pm.dchTimer,
                  pm.fachPower as real * pm.fachTimer, duration, duration', y, x, z);
  }

  lemma SplitEnergies(f: real, d: real, b: real, tail: real, duration: real, duration': real, y: real, x: real, z: real)
    requires 0.0 <= f <= d && Pays(f, d, b, Min(tail, 1.0)) && 0.0 <= duration <= duration'
    requires 0.0 <= y <= tail && x == f * duration && z == d * duration' + b && 0.0 <= z
    ensures (x + y).Floor <= y.Floor + z.Floor
  {
    CrossEnergies(f, d, duration, duration', x, z - b);
    SplitTruncation(f, d, b, Min(tail, 1.0), y, x, z - b);
  }

  lemma PromotionSufficient(pm: PowerModel, idle: real, duration: real, duration': real)
    requires pm.ValidRadio() && PromotionCovers(pm) && 0.0 <= idle && 0.0 <= duration <= duration'
    ensures CostOf(pm, FACH, FACH, idle, duration) <= CostOf(pm, FACH, DCH, idle, duration')
  {
    var y, x, z := PromotionEnergies(pm, idle, duration, duration');
    FachCosts(pm, idle, duration, duration', y, x, z);
    PromotionSplit(pm, idle, duration, duration', y, x, z);
  }

  lemma HalfGap(f: real, d: real, b: real)
    requires 0.0 < f <= d && 0.0 <= b < 1.0
    ensures var eps := (1.0 - b) * f / (2.0 * d);
      0.0 < eps <= 1.0 && eps * d + b * f < f
  {
    var gap := (1.0 - b) * f;
    StrictProduct(b, 1.0, f);
    ProductSigns(b, f);
    assert gap == f - b * f;
    var eps := gap / (2.0 * d);
    assert eps * (2.0 * d) == gap;
    assert eps * d == gap / 2.0;
    CancelFactorStrictly(0.0, eps, 2.0 * d);
    AtMostOne(gap, 2.0 * d);
  }

  lemma AtMostOne(x: real, y: real)
    requires x <= y && 0.0 < y
    ensures x / y <= 1.0
  {
  }

  /** Where the DCH tail does not pay, some part `eps` of a millijoule still leaves the DCH energy below one. */
  lemma UnpaidPart(f: real, d: real, b: real, tail: real) returns (eps: real)
    requires 0.0 <= f <= d && 0.0 <= b && 0.0 <= tail && !Pays(f, d, b, Min(tail, 1.0))
    ensures f > 0.0 && 0.0 < eps <= 1.0 && 1.0 - eps <= tail && eps * d + b * f < f
  {
    if f == 0.0 {
      ProductSigns(1.0 - Min(tail, 1.0), d);
    }
    if tail < 1.0 {
      eps := 1.0 - tail;
    } else {
      CancelFactorStrictly(b, 1.0, f);
      HalfGap(f, d, b);
      eps := (1.0 - b) * f / (2.0 * d);
    }
  }

  lemma PartOfMillijoule(f: real, d: real, b: real, eps: real, duration: real)
    requires 0.0 < f && f * duration == eps && eps * d + b * f < f
    ensures d * duration + b < 1.0
  {
    assert (d * duration) * f == (f * duration) * d;
    assert (d * duration + b) * f == (d * duration) * f + b * f;
    CancelFactorStrictly(d * duration + b, 1.0, f);
  }

  lemma Shares(f: real, part: real, bound: real) returns (share: real)
    requires 0.0 < f && 0.0 <= part <= f * bound
    ensures f * share == part && 0.0 <= share <= bound
  {
    share := part / f;
    assert share * f == part;
    CancelFactor(0.0, share, f);
    CancelFactor(share, bound, f);
  }

  /** An idle time and a duration that make up one millijoule in FACH but less than one beyond the tail in DCH. */
  lemma UnpaidTimes(pm: PowerModel) returns (idle: real, duration: real, eps: real)
    requires pm.ValidRadio() && !PromotionCovers(pm)
    ensures 0.0 <= idle <= pm.fachTimer && 0.0 <= duration && 0.0 < eps <= 1.0
    ensures pm.fachPower as real * idle == 1.0 - eps && pm.fachPower as real * duration == eps
    ensures pm.dchPower as real * duration + pm.dchPower as real * pm.dchTimer < 1.0
  {
    ProductSigns(pm.fachPower as real, pm.fachTimer);
    ProductSigns(pm.dchPower as real, pm.dchTimer);
    idle, duration, eps := UnpaidSplit(pm.fachPower as real, pm.dchPower as real,
                                       pm.dchPower as real * pm.dchTimer, pm.fachTimer);
  }

  lemma UnpaidSplit(f: real, d: real, b: real, timer: real) returns (idle: real, duration: real, eps: real)
    requires 0.0 <= f <= d && 0.0 <= b && 0.0 <= f * timer && !Pays(f, d, b, Min(f * timer, 1.0))
    ensures 0.0 <= idle <= timer && 0.0 <= duration && 0.0 < eps <= 1.0
    ensures f * idle == 1.0 - eps && f * duration == eps
    ensures d * duration + b < 1.0
  {
    eps := UnpaidPart(f, d, b, f * timer);
    idle := Shares(f, 1.0 - eps, timer);
    duration := Shares(f, eps, eps / f);
    PartOfMillijoule(f, d, b, eps, duration);
  }

  /** Where the DCH tail does not pay: the transfer completes a millijoule that splitting it loses. */
  lemma PromotionCheaper(pm: PowerModel) returns (idle: real, duration: real)
    requires pm.ValidRadio() && !PromotionCovers(pm)
    ensures 0.0 <= idle && 0.0 <= duration
    ensures CostOf(pm, FACH, DCH, idle, duration) < CostOf(pm, FACH, FACH, idle, duration)
  {
    var eps;
    idle, duration, eps := UnpaidTimes(pm);
    var y, x, z := PromotionEnergies(pm, idle, duration, duration);
    FachCosts(pm, idle, duration, duration, y, x, z);
    UnpaidFloors(pm, idle, duration, eps, y, x, z);
  }

  lemma UnpaidFloors(pm: PowerModel, idle: real, duration: real, eps: real, y: real, x: real, z: real)
    requires Energies(pm, idle, duration, duration, y, x, z) && 0.0 <= idle <= pm.fachTimer && 0.0 < eps <= 1.0
    requires pm.fachPower as real * idle == 1.0 - eps && pm.fachPower as real * duration == eps
    requires pm.dchPower as real * duration + pm.dchPower as real * pm.dchTimer < 1.0
    ensures y.Floor + z.Floor == 0 && (x + y).Floor == 1
  {
    assert y == 1.0 - eps && x == eps;
    assert 0.0 <= z < 1.0;
  }

  /** Splitting the truncation over FACH and DCH makes a promotion look cheaper exactly when the model's DCH
      tail is too cheap to cover the millijoule lost; both concrete models are on the safe side. */
  lemma PromotionIff(pm: PowerModel)
    requires pm.ValidRadio()
    ensures PromotionNeverCheaper(pm) <==> PromotionCovers(pm)
  {
    if PromotionCovers(pm) {
      forall idle, duration, duration' | 0.0 <= idle && 0.0 <= duration <= duration'
        ensures CostOf(pm, FACH, FACH, idle, duration) <= CostOf(pm, FACH, DCH, idle, duration')
      {
        PromotionSufficient(pm, idle, duration, duration');
      }
    } else {
      var idle, duration := PromotionCheaper(pm);
    }
  }

  /** With `kept` seconds of the FACH tail, which are worth less than a millijoule, `seconds` of transfer complete
      the `k`-th millijoule in FACH, but not in DCH with its tail. */
  predicate CompletesOnlyInFach(pm: PowerModel, seconds: real, kept: real, k: int) {
    && 0.0 <= kept <= pm.fachTimer
    && OnlyTogether(Scaled(pm.fachPower as real, kept), Scaled(pm.fachPower as real, seconds),
                    Scaled(pm.dchPower as real, seconds + pm.dchTimer), k)
  }

  predicate OnlyTogether(y: real, x: real, z: real, k: int) { y < 1.0 && k as real <= x + y && z < k as real }

  /** Some transfer that is short enough not to promote loses that millijoule if it is predicted to promote. */
  ghost predicate SomeTransferLoses(pm: PowerModel) {
    exists remote, datalen: nat, bandwidth: nat, rttMs: nat, kept, k ::
      && 0 < bandwidth && FitsFach(pm, remote, datalen)
      && CompletesOnlyInFach(pm, TransferSeconds(datalen, bandwidth, rttMs), kept, k)
  }

  /** With empty queues the transfer is predicted to leave the radio in FACH. */
  predicate FitsFach(pm: PowerModel, remote: bool, datalen: nat) {
    datalen + HEADERS < pm.DchThreshold(remote) && HEADERS < pm.DchThreshold(!remote)
  }

  lemma PositiveRate(f: real, timer: real, y: real, x: real, z: real)
    requires 0.0 <= f && 0.0 <= y <= f * timer && 0.0 <= z && (f == 0.0 ==> x == 0.0)
    requires y.Floor + z.Floor < (x + y).Floor
    ensures 0.0 < f
  {
  }

  /** What of the energy `y` is beyond whole millijoules is `kept` seconds' worth, and with it `x` completes the
      `k`-th millijoule that `z` does not reach. */
  lemma LossSplit(f: real, timer: real, y: real, x: real, z: real) returns (kept: real, k: int)
    requires 0.0 <= f && 0.0 <= y <= f * timer && 0.0 <= z && (f == 0.0 ==> x == 0.0)
    requires y.Floor + z.Floor < (x + y).Floor
    ensures 0.0 <= kept <= timer && OnlyTogether(Scaled(f, kept), x, z, k)
  {
    PositiveRate(f, timer, y, x, z);
    k := (x + y).Floor - y.Floor;
    kept := Shares(f, y - y.Floor as real, timer);
  }

  lemma EnergiesAreScaled(pm: PowerModel, idle: real, seconds: real, y: real, x: real, z: real)
    requires Energies(pm, idle, seconds, seconds, y, x, z)
    ensures x == Scaled(pm.fachPower as real, seconds) && z == Scaled(pm.dchPower as real, seconds + pm.dchTimer)
    ensures idle <= pm.fachTimer ==> y == Scaled(pm.fachPower as real, idle)
    ensures 0.0 <= y <= pm.fachPower as real * pm.fachTimer && 0.0 <= z
    ensures pm.fachPower == 0 ==> x == 0.0
  {
  }

  lemma LossOfEnergies(pm: PowerModel, idle: real, seconds: real, y: real, x: real, z: real)
    returns (kept: real, k: int)
    requires pm.ValidRadio() && Energies(pm, idle, seconds, seconds, y, x, z) && y.Floor + z.Floor < (x + y).Floor
    ensures CompletesOnlyInFach(pm, seconds, kept, k)
  {
    EnergiesAreScaled(pm, idle, seconds, y, x, z);
    kept, k := LossSplit(pm.fachPower as real, pm.fachTimer, y, x, z);
  }

  /** Where the truncations make a promotion cheaper, a transfer completes a millijoule only in FACH. */
  lemma LossCompletes(pm: PowerModel, idle: real, seconds: real) returns (kept: real, k: int)
    requires pm.ValidRadio() && 0.0 <= idle && 0.0 <= seconds
    requires CostOf(pm, FACH, DCH, idle, seconds) < CostOf(pm, FACH, FACH, idle, seconds)
    ensures CompletesOnlyInFach(pm, seconds, kept, k)
  {
    var y, x, z := PromotionEnergies(pm, idle, seconds, seconds);
    FachCosts(pm, idle, seconds, seconds, y, x, z);
    kept, k := LossOfEnergies(pm, idle, seconds, y, x, z);
  }

  lemma FloorBounds(x: real, k: int)
    ensures k as real <= x <==> k <= x.Floor
  {
  }

  lemma FloorsLose(y: real, x: real, z: real, k: int)
    requires 0.0 <= y && OnlyTogether(y, x, z, k)
    ensures y.Floor + z.Floor < (x + y).Floor
  {
    FloorBounds(x + y, k);
    FloorBounds(z, k);
    FloorBounds(y, 1);
  }

  lemma EnergiesLose(pm: PowerModel, seconds: real, kept: real, k: int, y: real, x: real, z: real)
    requires CompletesOnlyInFach(pm, seconds, kept, k) && Energies(pm, kept, seconds, seconds, y, x, z)
    ensures y.Floor + z.Floor < (x + y).Floor
  {
    EnergiesAreScaled(pm, kept, seconds, y, x, z);
    FloorsLose(y, x, z, k);
  }

  /** And the reverse, for that kept part of the tail. */
  lemma CompletionLoses(pm: PowerModel, seconds: real, kept: real, k: int)
    requires pm.ValidRadio() && 0.0 <= seconds && CompletesOnlyInFach(pm, seconds, kept, k)
    ensures CostOf(pm, FACH, DCH, kept, seconds) < CostOf(pm, FACH, FACH, kept, seconds)
  {
    var y, x, z := PromotionEnergies(pm, kept, seconds, seconds);
    EnergiesLose(pm, seconds, kept, k, y, x, z);
    FachCosts(pm, kept, seconds, seconds, y, x, z);
  }

  lemma LossIsShown(pm: PowerModel, remote: bool, datalen: nat, bandwidth: nat, rttMs: nat, idle: real, seconds: real)
    requires pm.ValidRadio() && 0 < bandwidth && FitsFach(pm, remote, datalen) && 0.0 <= idle && 0.0 <= seconds
    requires seconds == TransferSeconds(datalen, bandwidth, rttMs)
    requires CostOf(pm, FACH, DCH, idle, seconds) < CostOf(pm, FACH, FACH, idle, seconds)
    ensures SomeTransferLoses(pm)
  {
    var kept, k := LossCompletes(pm, idle, seconds);
    assert FitsFach(pm, remote, datalen)
      && CompletesOnlyInFach(pm, TransferSeconds(datalen, bandwidth, rttMs), kept, k);
  }

  lemma NothingLost(pm: PowerModel, remote: bool, datalen: nat, bandwidth: nat, rttMs: nat, idle: real, duration: real)
    requires pm.ValidRadio() && !SomeTransferLoses(pm) && 0 < bandwidth && FitsFach(pm, remote, datalen)
    requires 0.0 <= idle && TransferSeconds(datalen, bandwidth, rttMs) <= duration
    ensures CostOf(pm, FACH, FACH, idle, TransferSeconds(datalen, bandwidth, rttMs))
         <= CostOf(pm, FACH, DCH, idle, duration)
  {
    var seconds := TransferSeconds(datalen, bandwidth, rttMs);
    TransferMonotone(datalen, bandwidth, rttMs, datalen, bandwidth, rttMs);
    CostMonotone(pm, FACH, DCH, idle, seconds, idle, duration);
    if CostOf(pm, FACH, DCH, idle, seconds) < CostOf(pm, FACH, FACH, idle, seconds) {
      LossIsShown(pm, remote, datalen, bandwidth, rttMs, idle, seconds);
    }
  }

  /** From the same state, the estimate grows with the transfer, the queues and the idle time and falls with
      the bandwidth, across the promotion jump and the truncations. */
  lemma EstimateMonotone(pm: PowerModel, remote: bool, from: MobileState,
                         datalen: nat, bandwidth: nat, rttMs: nat, idle: real, queue: nat, ackQueue: nat,
                         datalen': nat, bandwidth': nat, rttMs': nat, idle': real, queue': nat, ackQueue': nat)
    requires pm.ValidRadio() && !SomeTransferLoses(pm)
    requires datalen <= datalen' && 0 < bandwidth' <= bandwidth && rttMs <= rttMs'
    requires 0.0 <= idle <= idle' && queue <= queue' && ackQueue <= ackQueue'
    ensures EstimateFromState(pm, remote, datalen, bandwidth, rttMs, from, idle, queue, ackQueue)
         <= EstimateFromState(pm, remote, datalen', bandwidth', rttMs', from, idle', queue', ackQueue')
  {
    TransferMonotone(datalen, bandwidth, rttMs, datalen', bandwidth', rttMs');
    var d, d' := TransferSeconds(datalen, bandwidth, rttMs), TransferSeconds(datalen', bandwidth', rttMs');
    var to := PredictState(pm, remote, datalen, from, queue, ackQueue);
    var to' := PredictState(pm, remote, datalen', from, queue', ackQueue');
    if to == to' {
      CostMonotone(pm, from, to, idle, d, idle', d');
    } else if from == FACH {
      NothingLost(pm, remote, datalen, bandwidth, rttMs, idle, d');
      CostMonotone(pm, FACH, DCH, idle, d', idle', d');
    } else {
      NothingLost(pm, remote, datalen, bandwidth, rttMs, pm.fachTimer, d');
      assert CostOf(pm, FACH, FACH, pm.fachTimer, d) == CostOf(pm, IDLE, FACH, idle, d);
      assert CostOf(pm, FACH, DCH, pm.fachTimer, d') == CostOf(pm, IDLE, DCH, idle', d');
    }
  }

  /** More data, round trip, queues or idle time, or less bandwidth, never lower any estimate. */
  ghost predicate EstimateIsMonotone(pm: PowerModel) {
    forall remote, from, datalen: nat, bandwidth: nat, rttMs: nat, idle, queue: nat, ackQueue: nat,
           datalen': nat, bandwidth': nat, rttMs': nat, idle', queue': nat, ackQueue': nat ::
      && datalen <= datalen' && 0 < bandwidth' <= bandwidth && rttMs <= rttMs'
      && 0.0 <= idle <= idle' && queue <= queue' && ackQueue <= ackQueue' ==>
        EstimateFromState(pm, remote, datalen, bandwidth, rttMs, from, idle, queue, ackQueue)
        <= EstimateFromState(pm, remote, datalen', bandwidth', rttMs', from, idle', queue', ackQueue')
  }

  lemma SomeEstimateFalls(pm: PowerModel)
    requires pm.ValidRadio() && SomeTransferLoses(pm)
    ensures !EstimateIsMonotone(pm)
  {
    var remote, datalen: nat, bandwidth: nat, rttMs: nat, kept, k :|
      && 0 < bandwidth && FitsFach(pm, remote, datalen)
      && CompletesOnlyInFach(pm, TransferSeconds(datalen, bandwidth, rttMs), kept, k);
    TransferMonotone(datalen, bandwidth, rttMs, datalen, bandwidth, rttMs);
    CompletionLoses(pm, TransferSeconds(datalen, bandwidth, rttMs), kept, k);
    assert EstimateFromState(pm, remote, datalen, bandwidth, rttMs, FACH, kept, pm.DchThreshold(remote), 0)
      < EstimateFromState(pm, remote, datalen, bandwidth, rttMs, FACH, kept, 0, 0);
  }

  /** On every model the estimates are monotone exactly when no transfer loses a millijoule by promoting. */
  lemma EstimateMonotoneIff(pm: PowerModel)
    requires pm.ValidRadio()
    ensures EstimateIsMonotone(pm) <==> !SomeTransferLoses(pm)
  {
    if SomeTransferLoses(pm) {
      SomeEstimateFalls(pm);
    } else {
      forall remote, from, datalen: nat, bandwidth: nat, rttMs: nat, idle, queue: nat, ackQueue: nat,
             datalen': nat, bandwidth': nat, rttMs': nat, idle', queue': nat, ackQueue': nat |
        && datalen <= datalen' && 0 < bandwidth' <= bandwidth && rttMs <= rttMs'
        && 0.0 <= idle <= idle' && queue <= queue' && ackQueue <= ackQueue'
        ensures EstimateFromState(pm, remote, datalen, bandwidth, rttMs, from, idle, queue, ackQueue)
             <= EstimateFromState(pm, remote, datalen', bandwidth', rttMs', from, idle', queue', ackQueue')
      {
        EstimateMonotone(pm, remote, from, datalen, bandwidth, rttMs, idle, queue, ackQueue,
                         datalen', bandwidth', rttMs', idle', queue', ackQueue');
      }
    }
  }

  /** Either the DCH tail covers the lost millijoule, or the headers alone reach a threshold, so that every
      transfer is predicted to leave the radio in DCH. */
  predicate EstimateCovers(pm: PowerModel) {
    PromotionCovers(pm) || pm.dchThresholdUp <= HEADERS || pm.dchThresholdDown <= HEADERS
  }

  lemma CoveredNeverLoses(pm: PowerModel)
    requires pm.ValidRadio() && EstimateCovers(pm)
    ensures !SomeTransferLoses(pm)
  {
    forall remote, datalen: nat, bandwidth: nat, rttMs: nat, kept, k | 0 < bandwidth && FitsFach(pm, remote, datalen)
      ensures !CompletesOnlyInFach(pm, TransferSeconds(datalen, bandwidth, rttMs), kept, k)
    {
      var seconds := TransferSeconds(datalen, bandwidth, rttMs);
      TransferMonotone(datalen, bandwidth, rttMs, datalen, bandwidth, rttMs);
      if CompletesOnlyInFach(pm, seconds, kept, k) {
        CompletionLoses(pm, seconds, kept, k);
        PromotionSufficient(pm, kept, seconds, seconds);
      }
    }
  }

  /** A bandwidth at which the headers take so little DCH energy that, with `b` of the tail, it is below 1 mJ. */
  lemma FastEnough(d: real, b: real) returns (bandwidth: nat)
    requires 0.0 < d && b < 1.0
    ensures 0 < bandwidth && d * TransferSeconds(0, bandwidth, 0) + b < 1.0
  {
    var q := HEADERS as real * d / (1.0 - b);
    ProductSigns(HEADERS as real, d);
    QuotientTimes(HEADERS as real * d, 1.0 - b);
    CancelFactor(0.0, q, 1.0 - b);
    bandwidth := q.Floor + 1;
    StrictProduct(q, bandwidth as real, 1.0 - b);
    HeaderEnergy(d, b, bandwidth);
  }

  lemma HeaderEnergy(d: real, b: real, bandwidth: nat)
    requires 0 < bandwidth && HEADERS as real * d < bandwidth as real * (1.0 - b)
    ensures d * TransferSeconds(0, bandwidth, 0) + b < 1.0
  {
    var seconds := HEADERS as real / bandwidth as real;
    QuotientTimes(HEADERS as real, bandwidth as real);
    assert (d * seconds) * bandwidth as real == HEADERS as real * d;
    CancelFactorStrictly(d * seconds, 1.0 - b, bandwidth as real);
  }

  /** In a FACH tail of at least a millijoule, the time after which the transfer's energy completes one. */
  lemma CompletingIdle(f: real, d: real, b: real, timer: real, seconds: real) returns (idle: real)
    requires 0.0 < f <= d && 0.0 <= b && 1.0 <= f * timer && 0.0 < seconds && d * seconds + b < 1.0
    ensures 0.0 <= idle <= timer && 0.0 < f * seconds <= 1.0 && f * idle == 1.0 - f * seconds
  {
    ProductSigns(f, seconds);
    ScaledMonotone(seconds, f, d);
    idle := Shares(f, 1.0 - f * seconds, timer);
  }

  lemma UnpaidTail(f: real, d: real, b: real, tail: real)
    requires 0.0 <= f <= d && 1.0 <= tail && !Pays(f, d, b, Min(tail, 1.0))
    ensures 0.0 < f && b < 1.0
  {
    if b >= 1.0 {
      ScaledMonotone(f, 1.0, b);
    }
  }

  /** Where nothing covers the lost millijoule, a header-only transfer from FACH gets cheaper as the queue grows. */
  lemma LongerQueueCheaper(pm: PowerModel) returns (bandwidth: nat, idle: real)
    requires pm.ValidRadio() && !EstimateCovers(pm) && 1.0 <= Scaled(pm.fachPower as real, pm.fachTimer)
    ensures 0 < bandwidth && 0.0 <= idle
    ensures EstimateFromState(pm, false, 0, bandwidth, 0, FACH, idle, pm.dchThresholdUp, 0)
          < EstimateFromState(pm, false, 0, bandwidth, 0, FACH, idle, 0, 0)
  {
    var f, d := pm.fachPower as real, pm.dchPower as real;
    UnpaidTail(f, d, d * pm.dchTimer, f * pm.fachTimer);
    ProductSigns(d, pm.dchTimer);
    bandwidth := FastEnough(d, d * pm.dchTimer);
    var seconds := TransferSeconds(0, bandwidth, 0);
    HeadersTakeTime(bandwidth);
    idle := CompletingIdle(f, d, d * pm.dchTimer, pm.fachTimer, seconds);
    CheaperAt(pm, idle, seconds);
  }

  lemma HeadersTakeTime(bandwidth: nat)
    requires 0 < bandwidth
    ensures 0.0 < TransferSeconds(0, bandwidth, 0)
  {
    QuotientTimes(HEADERS as real, bandwidth as real);
    CancelFactorStrictly(0.0, HEADERS as real / bandwidth as real, bandwidth as real);
  }

  lemma CheaperAt(pm: PowerModel, idle: real, seconds: real)
    requires pm.ValidRadio() && 0.0 <= idle <= pm.fachTimer && 0.0 <= seconds
    requires 0.0 < pm.fachPower as real * seconds <= 1.0
    requires pm.fachPower as real * idle == 1.0 - pm.fachPower as real * seconds
    requires pm.dchPower as real * seconds + pm.dchPower as real * pm.dchTimer < 1.0
    ensures CostOf(pm, FACH, DCH, idle, seconds) < CostOf(pm, FACH, FACH, idle, seconds)
  {
    var y, x, z := PromotionEnergies(pm, idle, seconds, seconds);
    FachCosts(pm, idle, seconds, seconds, y, x, z);
    UnpaidFloors(pm, idle, seconds, pm.fachPower as real * seconds, y, x, z);
  }

  /** A condition on the model alone: it suffices on every model, and on models whose FACH tail holds a whole
      millijoule to lose it is also necessary. */
  lemma CoveredIsMonotone(pm: PowerModel)
    requires pm.ValidRadio()
    ensures EstimateCovers(pm) ==> EstimateIsMonotone(pm)
    ensures 1.0 <= Scaled(pm.fachPower as real, pm.fachTimer) ==> (EstimateIsMonotone(pm) <==> EstimateCovers(pm))
  {
    EstimateMonotoneIff(pm);
    if EstimateCovers(pm) {
      CoveredNeverLoses(pm);
    } else if 1.0 <= Scaled(pm.fachPower as real, pm.fachTimer) {
      var bandwidth, idle := LongerQueueCheaper(pm);
    }
  }

  /** A transfer never costs less from IDLE than from FACH, nor, when it promotes, from FACH than from DCH. */
  lemma CostFallsWithState(pm: PowerModel, remote: bool, datalen: nat, bandwidth: nat, rttMs: nat,
                           idle: real, fachIdle: real, dchIdle: real, queue: nat, ackQueue: nat)
    requires pm.ValidRadio() && bandwidth > 0 && 0.0 <= fachIdle && 0.0 <= dchIdle
    ensures EstimateFromState(pm, remote, datalen, bandwidth, rttMs, IDLE, idle, queue, ackQueue)
         >= EstimateFromState(pm, remote, datalen, bandwidth, rttMs, FACH, fachIdle, queue, ackQueue)
    ensures PredictState(pm, remote, datalen, FACH, queue, ackQueue) == DCH ==>
      EstimateFromState(pm, remote, datalen, bandwidth, rttMs, FACH, fachIdle, queue, ackQueue)
      >= EstimateFromState(pm, remote, datalen, bandwidth, rttMs, DCH, dchIdle, queue, ackQueue)
  {
    TransferMonotone(datalen, bandwidth, rttMs, datalen, bandwidth, rttMs);
    var d := TransferSeconds(datalen, bandwidth, rttMs);
    MillijoulesMonotone(pm.fachPower, pm.fachPower, Min(fachIdle, pm.fachTimer), pm.fachTimer);
    MillijoulesMonotone(pm.fachPower, pm.fachPower, d + Min(fachIdle, pm.fachTimer), d + pm.fachTimer);
    MillijoulesMonotone(pm.dchPower, pm.dchPower, d + Min(dchIdle, pm.dchTimer), d + pm.dchTimer);
    MillijoulesMonotone(pm.fachPower, pm.fachPower, 0.0, Min(fachIdle, pm.fachTimer));
  }

  // ---- The state-weighted average ----

  /** The cost the average uses for one state: empty queues, and that state's average idle time. */
  function CostAt(pm: PowerModel, remote: bool, m: Mobile, s: MobileState, datalen: nat, bandwidth: nat, rttMs: nat)
    : int
    requires bandwidth > 0 && LedgersOk(m)
  {
    EstimateFromState(pm, remote, datalen, bandwidth, rttMs, s, AverageIdle(m, s), 0, 0)
  }

  function Weighted(pm: PowerModel, remote: bool, m: Mobile, now: nat, s: MobileState,
                    datalen: nat, bandwidth: nat, rttMs: nat): real
    requires bandwidth > 0 && LedgersOk(m) && m.ClockOk(now)
  {
    Part(TimeFraction(m, s, now), CostAt(pm, remote, m, s, datalen, bandwidth, rttMs))
  }

  function Part(weight: real, cost: int): real { weight * cost as real }

  function AverageCost(pm: PowerModel, remote: bool, m: Mobile, now: nat, datalen: nat, bandwidth: nat, rttMs: nat)
    : int
    requires bandwidth > 0 && LedgersOk(m) && m.ClockOk(now)
  {
    WeightedSum(TimeFraction(m, IDLE, now), TimeFraction(m, FACH, now), TimeFraction(m, DCH, now),
                CostAt(pm, remote, m, IDLE, datalen, bandwidth, rttMs),
                CostAt(pm, remote, m, FACH, datalen, bandwidth, rttMs),
                CostAt(pm, remote, m, DCH, datalen, bandwidth, rttMs))
  }

  function WeightedSum(x: real, y: real, z: real, a: int, b: int, c: int): int {
    Trunc(Part(x, a) + Part(y, b) + Part(z, c))
  }

  lemma AverageOfWeighted(pm: PowerModel, remote: bool, m: Mobile, now: nat, datalen: nat, bandwidth: nat, rttMs: nat,
                          x: real, y: real, z: real)
    requires bandwidth > 0 && LedgersOk(m) && m.ClockOk(now)
    requires x == Weighted(pm, remote, m, now, IDLE, datalen, bandwidth, rttMs)
    requires y == Weighted(pm, remote, m, now, FACH, datalen, bandwidth, rttMs)
    requires z == Weighted(pm, remote, m, now, DCH, datalen, bandwidth, rttMs)
    ensures AverageCost(pm, remote, m, now, datalen, bandwidth, rttMs) == Trunc(x + y + z)
  {
  }

  method WeightedCost(pm: PowerModel, remote: bool, tracker: Tracker, now: nat, s: MobileState,
                      datalen: nat, bandwidth: nat, rttMs: nat) returns (weighted: real)
    requires bandwidth > 0 && tracker.Valid() && tracker.View().ClockOk(now)
    ensures weighted == Weighted(pm, remote, tracker.View(), now, s, datalen, bandwidth, rttMs)
  {
    var idle := tracker.AverageIdleDurationForState(s);
    var energy := EstimateFromState(pm, remote, datalen, bandwidth, rttMs, s, idle, 0, 0);
    var weight := tracker.TimeFractionInState(s, now);
    weighted := Part(weight, energy);
  }

  /** `estimate_mobile_energy_cost_average`, with clock and state unchanged during the call. */
  method EstimateAverage(pm: PowerModel, remote: bool, tracker: Tracker, now: nat,
                         datalen: nat, bandwidth: nat, rttMs: nat) returns (cost: int)
    requires bandwidth > 0 && tracker.Valid() && tracker.View().ClockOk(now)
    ensures cost == AverageCost(pm, remote, tracker.View(), now, datalen, bandwidth, rttMs)
  {
    var states := [IDLE, FACH, DCH];
    var total := 0.0;
    ghost var parts: seq<real> := [];
    for i := 0 to 3
      invariant |parts| == i
      invariant forall j :: 0 <= j < i ==>
        parts[j] == Weighted(pm, remote, tracker.View(), now, states[j], datalen, bandwidth, rttMs)
      invariant total == (if i > 0 then parts[0] else 0.0) + (if i > 1 then parts[1] else 0.0)
                         + (if i > 2 then parts[2] else 0.0)
    {
      var weighted := WeightedCost(pm, remote, tracker, now, states[i], datalen, bandwidth, rttMs);
      parts := parts + [weighted];
      total := total + weighted;
    }
    cost := Trunc(total);
    assert states[0] == IDLE && states[1] == FACH && states[2] == DCH;
    AverageOfWeighted(pm, remote, tracker.View(), now, datalen, bandwidth, rttMs, parts[0], parts[1], parts[2]);
  }

  lemma SumOfShares(x: real, y: real, z: real, v: real)
    requires x + y + z == 1.0
    ensures x * v + y * v + z * v == v
  {
  }

  lemma SumMonotone(x: real, y: real, z: real, a: real, b: real, c: real, a': real, b': real, c': real)
    requires 0.0 <= x && 0.0 <= y && 0.0 <= z && a <= a' && b <= b' && c <= c'
    ensures x * a + y * b + z * c <= x * a' + y * b' + z * c'
  {
    ScaledMonotone(x, a, a');
    ScaledMonotone(y, b, b');
    ScaledMonotone(z, c, c');
  }

  lemma CombinationAtLeast(x: real, y: real, z: real, a: real, b: real, c: real, lo: real)
    requires 0.0 <= x && 0.0 <= y && 0.0 <= z && x + y + z == 1.0 && lo <= a && lo <= b && lo <= c
    ensures lo <= x * a + y * b + z * c
  {
    SumMonotone(x, y, z, lo, lo, lo, a, b, c);
    SumOfShares(x, y, z, lo);
  }

  lemma CombinationAtMost(x: real, y: real, z: real, a: real, b: real, c: real, hi: real)
    requires 0.0 <= x && 0.0 <= y && 0.0 <= z && x + y + z == 1.0 && a <= hi && b <= hi && c <= hi
    ensures x * a + y * b + z * c <= hi
  {
    SumMonotone(x, y, z, a, b, c, hi, hi, hi);
    SumOfShares(x, y, z, hi);
  }

  lemma SharesGiveAverage(pm: PowerModel, remote: bool, m: Mobile, now: nat,
                          datalen: nat, bandwidth: nat, rttMs: nat, lo: int, hi: int)
    requires bandwidth > 0 && LedgersOk(m) && m.ClockOk(now)
    requires forall s :: 0.0 <= TimeFraction(m, s, now)
    requires TimeFraction(m, IDLE, now) + TimeFraction(m, FACH, now) + TimeFraction(m, DCH, now) == 1.0
    requires forall s :: lo <= CostAt(pm, remote, m, s, datalen, bandwidth, rttMs) <= hi
    ensures lo <= AverageCost(pm, remote, m, now, datalen, bandwidth, rttMs) <= hi
  {
    var x, y, z := TimeFraction(m, IDLE, now), TimeFraction(m, FACH, now), TimeFraction(m, DCH, now);
    TruncatedCombination(x, y, z,
                         CostAt(pm, remote, m, IDLE, datalen, bandwidth, rttMs),
                         CostAt(pm, remote, m, FACH, datalen, bandwidth, rttMs),
                         CostAt(pm, remote, m, DCH, datalen, bandwidth, rttMs), lo, hi);
  }

  lemma TruncatedBetween(x: real, lo: int, hi: int)
    requires lo as real <= x <= hi as real
    ensures lo <= Trunc(x) <= hi
  {
    TruncMonotone(lo as real, x);
    TruncMonotone(x, hi as real);
  }

  lemma TruncatedCombination(x: real, y: real, z: real, a: int, b: int, c: int, lo: int, hi: int)
    requires 0.0 <= x && 0.0 <= y && 0.0 <= z && x + y + z == 1.0
    requires lo <= a <= hi && lo <= b <= hi && lo <= c <= hi
    ensures lo <= WeightedSum(x, y, z, a, b, c) <= hi
  {
    CombinationAtLeast(x, y, z, a as real, b as real, c as real, lo as real);
    CombinationAtMost(x, y, z, a as real, b as real, c as real, hi as real);
    TruncatedBetween(Part(x, a) + Part(y, b) + Part(z, c), lo, hi);
  }

  /** On every run the average estimate lies between any bounds on the three per-state costs, so between the
      smallest and the largest of them. */
  lemma AverageIsBetween(pm: PowerModel, remote: bool, r: Run, now: nat,
                         datalen: nat, bandwidth: nat, rttMs: nat, lo: int, hi: int)
    requires Legal(pm, r) && Clock(r) <= now && bandwidth > 0 && LedgersOk(Radio(pm, r))
    requires forall s :: lo <= CostAt(pm, remote, Radio(pm, r), s, datalen, bandwidth, rttMs) <= hi
    ensures lo <= AverageCost(pm, remote, Radio(pm, r), now, datalen, bandwidth, rttMs) <= hi
  {
    FractionsAreShares(pm, r, now);
    SharesGiveAverage(pm, remote, Radio(pm, r), now, datalen, bandwidth, rttMs, lo, hi);
  }
}
