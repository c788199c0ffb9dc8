/** What every run keeps in the WiFi sampler. */
module WifiRuns {
  import opened Common
  import opened Power
  import opened WifiSampler
  import opened Runs

  ghost function WifiOf(pm: PowerModel, r: Run): Wifi
    requires Legal(pm, r)
  {
    Final(pm, r).wifi
  }

  /** The downlink byte counter is never negative. */
  predicate WifiReadsOk(r: Run) {
    (Last(r).wifi.Some? ==> 0 <= Last(r).wifi.value.bytes.down) && (r.After? ==> WifiReadsOk(r.past))
  }

  lemma SentinelKept(w: Wifi, now: nat, read: Option<WifiRead>)
    requires Sentinel(w) && (read.Some? ==> 0 <= read.value.bytes.down)
    ensures Sentinel(TickWifi(w, now, read))
  {
  }

  /** The source's assertion holds on every run after a reset. */
  lemma {:induction false} SentinelHolds(pm: PowerModel, r: Run)
    requires Legal(pm, r) && WifiReadsOk(r)
    ensures Sentinel(WifiOf(pm, r))
  {
    match r {
      case AtReset(first, _, _) => SentinelKept(FreshWifi(first.now), first.now, first.wifi);
      case After(past, t) =>
        SentinelHolds(pm, past);
        SentinelKept(WifiOf(pm, past), t.now, t.wifi);
    }
  }

  datatype Channel = BytesDown | BytesUp | PacketsDown | PacketsUp

  function Count(w: Wifi, c: Channel): int {
    match c
    case BytesDown => w.lastBytes.down
    case BytesUp => w.lastBytes.up
    case PacketsDown => w.lastPackets.down
    case PacketsUp => w.lastPackets.up
  }

  function RateOf(w: Wifi, c: Channel): int {
    match c
    case BytesDown => w.dataRates.down
    case BytesUp => w.dataRates.up
    case PacketsDown => w.packetRates.down
    case PacketsUp => w.packetRates.up
  }

  predicate HasBaseline(w: Wifi) { w.lastBytes.down != -1 }

  /** Count and time of the first sample since the reset. */
  ghost function BaseCount(pm: PowerModel, r: Run, c: Channel): int
    requires Legal(pm, r)
  {
    if r.After? && HasBaseline(WifiOf(pm, r.past)) then BaseCount(pm, r.past, c) else Count(WifiOf(pm, r), c)
  }

  ghost function BaseTime(pm: PowerModel, r: Run): nat
    requires Legal(pm, r)
  {
    if r.After? && HasBaseline(WifiOf(pm, r.past)) then BaseTime(pm, r.past) else WifiOf(pm, r).lastObservation
  }

  /** What the new rate stands for: rate times the interval it was computed over. */
  function Accounted(w: Wifi, now: nat, read: Option<WifiRead>, c: Channel): real {
    if RatesWifi(w, now, read)
    then Scaled(RateOf(TickWifi(w, now, read), c) as real, Secs(now - w.lastObservation)) else 0.0
  }

  /** Every rate times its interval, summed. */
  ghost function Integral(pm: PowerModel, r: Run, c: Channel): real
    requires Legal(pm, r)
  {
    if r.AtReset? then 0.0
    else Integral(pm, r.past, c) + Accounted(WifiOf(pm, r.past), r.t.now, r.t.wifi, c)
  }

  /** `integral` covers `arrived`, by less than the time spanned. */
  predicate Covers(integral: real, arrived: int, us: int) {
    if us == 0 then integral == 0.0 && arrived == 0
    else us > 0 && arrived as real <= integral < arrived as real + Secs(us)
  }

  ghost predicate WifiLedger(w: Wifi, c: Channel, integral: real, baseCount: int, baseTime: int) {
    if HasBaseline(w) then Covers(integral, Count(w, c) - baseCount, w.lastObservation - baseTime)
    else integral == 0.0
  }

  lemma AccountedCovers(w: Wifi, now: nat, read: Option<WifiRead>, c: Channel)
    requires RatesWifi(w, now, read)
    ensures var w', more := TickWifi(w, now, read), Accounted(w, now, read, c);
      && w'.lastObservation == now > w.lastObservation
      && (Count(w', c) - Count(w, c)) as real <= more
      && more < (Count(w', c) - Count(w, c)) as real + Secs(now - w.lastObservation)
  {
    var w' := TickWifi(w, now, read);
    RateCoversArrivals(Count(w', c), Count(w, c), now - w.lastObservation);
  }

  lemma CoversStep(integral: real, arrived: int, us: int, more: real, extra: int, gap: int)
    requires Covers(integral, arrived, us) && 0 < gap
    requires extra as real <= more < extra as real + Secs(gap)
    ensures Covers(integral + more, arrived + extra, us + gap)
  {
  }

  lemma WifiLedgerStep(w: Wifi, now: nat, read: Option<WifiRead>, c: Channel,
                       integral: real, baseCount: int, baseTime: int)
    requires WifiLedger(w, c, integral, baseCount, baseTime) && (read.Some? ==> 0 <= read.value.bytes.down)
    ensures var w', integral' := TickWifi(w, now, read), integral + Accounted(w, now, read, c);
      if HasBaseline(w) then WifiLedger(w', c, integral', baseCount, baseTime)
      else WifiLedger(w', c, integral', Count(w', c), w'.lastObservation)
  {
    if RatesWifi(w, now, read) {
      var w' := TickWifi(w, now, read);
      AccountedCovers(w, now, read, c);
      CoversStep(integral, Count(w, c) - baseCount, w.lastObservation - baseTime,
                 Accounted(w, now, read, c), Count(w', c) - Count(w, c), now - w.lastObservation);
    }
  }

  /** Over any run, in each direction and for bytes as for packets, the rates times their sampling intervals
      add up to at least what arrived after the baseline, and to less than that plus the time sampled. */
  lemma {:induction false} RatesCoverArrivals(pm: PowerModel, r: Run, c: Channel)
    requires Legal(pm, r) && WifiReadsOk(r)
    ensures WifiLedger(WifiOf(pm, r), c, Integral(pm, r, c), BaseCount(pm, r, c), BaseTime(pm, r))
  {
    if r.After? {
      RatesCoverArrivals(pm, r.past, c);
      WifiLedgerStep(WifiOf(pm, r.past), r.t.now, r.t.wifi, c,
                     Integral(pm, r.past, c), BaseCount(pm, r.past, c), BaseTime(pm, r.past));
    }
  }

  // ---- The sampler's samples ----

  /** Whether the run's last tick samples WiFi, by the run's inputs alone. */
  predicate SamplesChannel(r: Run)
    decreases r, 0
  {
    r.After? && r.t.wifi.Some? && r.t.now - ChannelSampled(r.past) >= SECOND
  }

  /** The time of the last sample, or the reset. */
  function ChannelSampled(r: Run): nat
    decreases r, 1
  {
    if r.AtReset? then ResetTime(r) else if SamplesChannel(r) then r.t.now else ChannelSampled(r.past)
  }

  /** The counts of the last sample. */
  function ChannelReading(r: Run): Option<WifiRead> {
    if r.AtReset? then None else if SamplesChannel(r) then r.t.wifi else ChannelReading(r.past)
  }

  function CountIn(read: WifiRead, c: Channel): int {
    match c
    case BytesDown => read.bytes.down
    case BytesUp => read.bytes.up
    case PacketsDown => read.packets.down
    case PacketsUp => read.packets.up
  }

  predicate HoldsReading(w: Wifi, read: Option<WifiRead>) {
    match read
    case None => w.lastBytes == UNSET && w.lastPackets == UNSET && w.dataRates == UNSET && w.packetRates == UNSET
    case Some(x) => w.lastBytes == x.bytes && w.lastPackets == x.packets
  }

  lemma ChannelStep(w: Wifi, now: nat, read: Option<WifiRead>, held: Option<WifiRead>)
    requires HoldsReading(w, held) && (held.Some? ==> 0 <= held.value.bytes.down)
    ensures var w', samples := TickWifi(w, now, read), read.Some? && now - w.lastObservation >= SECOND;
      && w'.lastObservation == (if samples then now else w.lastObservation)
      && HoldsReading(w', if samples then read else held)
      && (!samples || held.None? ==> w'.dataRates == w.dataRates && w'.packetRates == w.packetRates)
  {
  }

  lemma {:induction false} ReadingsStayOk(r: Run)
    requires WifiReadsOk(r)
    ensures ChannelReading(r).Some? ==> 0 <= ChannelReading(r).value.bytes.down
  {
    if r.After? {
      ReadingsStayOk(r.past);
    }
  }

  /** On every run the sampler's samples are those of the inputs; so no two are less than a second apart. */
  lemma {:induction false} ChannelSamplesAre(pm: PowerModel, r: Run)
    requires Legal(pm, r) && WifiReadsOk(r)
    ensures WifiOf(pm, r).lastObservation == ChannelSampled(r) && HoldsReading(WifiOf(pm, r), ChannelReading(r))
    ensures r.After? && WifiOf(pm, r).lastObservation != WifiOf(pm, r.past).lastObservation ==>
      WifiOf(pm, r).lastObservation - WifiOf(pm, r.past).lastObservation >= SECOND
  {
    match r {
      case AtReset(first, _, _) =>
        ChannelStep(FreshWifi(first.now), first.now, first.wifi, None);
      case After(past, t) =>
        ChannelSamplesAre(pm, past);
        ReadingsStayOk(past);
        ChannelStep(WifiOf(pm, past), t.now, t.wifi, ChannelReading(past));
    }
  }

  /** `rate` times the time between two samples covers what arrived between them, by less than that time. */
  predicate Accounts(rate: int, from: WifiRead, to: WifiRead, us: int, c: Channel) {
    (CountIn(to, c) - CountIn(from, c)) as real
    <= Scaled(rate as real, Secs(us))
    < (CountIn(to, c) - CountIn(from, c)) as real + Secs(us)
  }

  lemma RatesBetween(w: Wifi, now: nat, read: WifiRead, held: WifiRead, c: Channel)
    requires HoldsReading(w, Some(held)) && 0 <= held.bytes.down && now - w.lastObservation >= SECOND
    ensures Accounts(RateOf(TickWifi(w, now, Some(read)), c), held, read, now - w.lastObservation, c)
  {
    RateCoversArrivals(CountIn(read, c), CountIn(held, c), now - w.lastObservation);
  }

  /** On every run a sample sets each rate to what arrived per second since the sample before, rounded up, and the
      rates stay until the next sample. */
  lemma RatesAre(pm: PowerModel, r: Run, c: Channel)
    requires Legal(pm, r) && WifiReadsOk(r) && r.After?
    ensures var rate := RateOf(WifiOf(pm, r), c);
      if SamplesChannel(r) && ChannelReading(r.past).Some?
      then Accounts(rate, ChannelReading(r.past).value, r.t.wifi.value, r.t.now - ChannelSampled(r.past), c)
      else rate == RateOf(WifiOf(pm, r.past), c)
  {
    ChannelSamplesAre(pm, r.past);
    ReadingsStayOk(r.past);
    if SamplesChannel(r) && ChannelReading(r.past).Some? {
      RatesBetween(WifiOf(pm, r.past), r.t.now, r.t.wifi.value, ChannelReading(r.past).value, c);
    } else {
      ChannelStep(WifiOf(pm, r.past), r.t.now, r.t.wifi, ChannelReading(r.past));
    }
  }

  // ---- What the rates are for ----

  /** The packets in both directions between two samples. */
  function PacketsBetween(from: WifiRead, to: WifiRead): int { to.packets.Sum() - from.packets.Sum() }

  lemma RatesAddUp(down: int, up: int, from: WifiRead, to: WifiRead, us: int)
    requires Accounts(down, from, to, us, PacketsDown) && Accounts(up, from, to, us, PacketsUp)
    ensures PacketsBetween(from, to) as real <= Scaled(Secs(us), (down + up) as real)
    ensures Scaled(Secs(us), (down + up) as real) < PacketsBetween(from, to) as real + 2.0 * Secs(us)
  {
    ScaledAddsUp(Secs(us), down as real, up as real);
  }

  lemma AboveFive(rates: int, packets: int, seconds: real)
    requires 0.0 < seconds
    requires packets as real <= Scaled(seconds, rates as real) < packets as real + 2.0 * seconds
    ensures packets as real > 5.0 * seconds ==> rates > 5
    ensures rates > 5 ==> packets as real > 4.0 * seconds
  {
    if rates <= 5 {
      ScaledMonotone(seconds, rates as real, 5.0);
    } else {
      ScaledMonotone(seconds, 6.0, rates as real);
    }
  }

  /** A sample of more than 5 packets per second since the sample before is worth a report, and one of at most 4 is
      not; without a sample WiFi causes none. */
  lemma ReportsFollowPackets(pm: PowerModel, r: Run)
    requires Legal(pm, r) && WifiReadsOk(r) && r.After?
    ensures !SamplesChannel(r) ==> !FiresWifi(WifiOf(pm, r.past), r.t.now, r.t.wifi)
    ensures SamplesChannel(r) && ChannelReading(r.past).Some? ==>
      var packets := PacketsBetween(ChannelReading(r.past).value, r.t.wifi.value) as real;
      var seconds := Secs(r.t.now - ChannelSampled(r.past));
      && (packets > 5.0 * seconds ==> FiresWifi(WifiOf(pm, r.past), r.t.now, r.t.wifi))
      && (FiresWifi(WifiOf(pm, r.past), r.t.now, r.t.wifi) ==> packets > 4.0 * seconds)
  {
    ChannelSamplesAre(pm, r.past);
    if SamplesChannel(r) && ChannelReading(r.past).Some? {
      RatesAre(pm, r, PacketsDown);
      RatesAre(pm, r, PacketsUp);
      var from, us := ChannelReading(r.past).value, r.t.now - ChannelSampled(r.past);
      RatesAddUp(WifiOf(pm, r).packetRates.down, WifiOf(pm, r).packetRates.up, from, r.t.wifi.value, us);
      AboveFive(WifiOf(pm, r).packetRates.Sum(), PacketsBetween(from, r.t.wifi.value), Secs(us));
    }
  }
}
