/** WiFi rate sampling on the handset, and the WiFi energy estimate. */
module WifiSampler {
  import opened Common
  import opened Power

  datatype WifiRead = WifiRead(bytes: Dirs, packets: Dirs)

  datatype Wifi = Wifi(
    dataRates: Dirs,
    packetRates: Dirs,
    lastBytes: Dirs,
    lastPackets: Dirs,
    lastObservation: nat)

  /** The assertion of the source: without a first observation nothing else is set either. */
  predicate Sentinel(w: Wifi) {
    w.lastBytes.down == -1 ==>
      w.lastBytes.up == -1 && w.lastPackets == UNSET && w.dataRates == UNSET && w.packetRates == UNSET
  }

  predicate SamplesWifi(w: Wifi, now: nat, read: Option<WifiRead>) {
    read.Some? && now - w.lastObservation >= SECOND
  }

  /** A sample that yields rates, because there is an earlier one to compare with. */
  predicate RatesWifi(w: Wifi, now: nat, read: Option<WifiRead>) {
    SamplesWifi(w, now, read) && w.lastBytes.down != -1
  }

  function Rate(current: int, last: int, us: int): int
    requires us > 0
  {
    Ceil((current - last) as real / Secs(us))
  }

  function Rates(current: Dirs, last: Dirs, us: int): Dirs
    requires us > 0
  {
    Dirs(Rate(current.down, last.down, us), Rate(current.up, last.up, us))
  }

  function TickWifi(w: Wifi, now: nat, read: Option<WifiRead>): Wifi {
    if !SamplesWifi(w, now, read) then w
    else
      var us := now - w.lastObservation;
      var rates := RatesWifi(w, now, read);
      Wifi(if rates then Rates(read.value.bytes, w.lastBytes, us) else w.dataRates,
           if rates then Rates(read.value.packets, w.lastPackets, us) else w.packetRates,
           read.value.bytes, read.value.packets, now)
  }

  /** Only a packet rate high enough to matter is worth a report. */
  predicate FiresWifi(w: Wifi, now: nat, read: Option<WifiRead>) {
    SamplesWifi(w, now, read) && TickWifi(w, now, read).packetRates.Sum() > 5
  }

  function FreshWifi(now: nat): Wifi { Wifi(UNSET, UNSET, UNSET, UNSET, now) }

  /** A rate times its sampling interval covers what arrived, by less than the interval itself. */
  lemma RateCoversArrivals(current: int, last: int, us: int)
    requires us > 0
    ensures (current - last) as real
         <= Scaled(Rate(current, last, us) as real, Secs(us))
         <  (current - last) as real + Secs(us)
  {
    var x := (current - last) as real / Secs(us);
    CeilBounds(x);
    RoundedQuotient((current - last) as real, Secs(us), Ceil(x) as real);
  }

  const MTU_PAYLOAD: nat := 1500 - 32 - 20
  const CHANNEL_RATE: int := 54

  /** Packets needed for a transfer, rounded up. */
  function Packets(datalen: nat): nat {
    datalen / MTU_PAYLOAD + if datalen % MTU_PAYLOAD > 0 then 1 else 0
  }

  predicate HighState(pm: PowerModel, packetRate: int, datalen: nat) {
    Packets(datalen) + packetRate > pm.wifiPacketRateThreshold
  }

  /** Extra high-state power (mW) from the uplink data rate; the server does not track it. */
  function ChannelRateComponent(remote: bool, uplinkRate: int): int {
    if remote then 0
    else
      var mbps := Trunc(uplinkRate as real * 8.0 / 1000000.0);
      Trunc((48.0 - 0.768 * CHANNEL_RATE as real) * mbps as real)
  }

  function WifiPower(pm: PowerModel, packetRate: int, component: int, datalen: nat): int {
    if HighState(pm, packetRate, datalen) then pm.wifiHighPowerBase + component else pm.wifiLowPower
  }

  function WifiSeconds(datalen: nat, bandwidth: nat, rttMs: nat): real
    requires bandwidth > 0
  {
    datalen as real / bandwidth as real + rttMs as real / 1000.0
  }

  /** The WiFi estimate (mJ): whole seconds, each at the power the transfer would cause. */
  function WifiCost(pm: PowerModel, packetRate: int, component: int,
                    datalen: nat, bandwidth: nat, rttMs: nat): int
    requires bandwidth > 0
  {
    Ceil(WifiSeconds(datalen, bandwidth, rttMs)) * WifiPower(pm, packetRate, component, datalen)
  }

  /** The packet count is the least number of full payloads that holds the data. */
  lemma PacketsIsLeastCover(datalen: nat)
    ensures Packets(datalen) * MTU_PAYLOAD >= datalen
    ensures datalen > 0 ==> (Packets(datalen) - 1) * MTU_PAYLOAD < datalen
  {
  }

  lemma PacketsMonotone(a: nat, b: nat)
    requires a <= b
    ensures Packets(a) <= Packets(b)
  {
    PacketsIsLeastCover(a);
    PacketsIsLeastCover(b);
  }

  lemma ComponentNonNegative(remote: bool, uplinkRate: int)
    requires uplinkRate >= -1
    ensures ChannelRateComponent(remote, uplinkRate) >= 0
  {
  }

  /** The estimate grows with the data and the round trip and falls with bandwidth, also over the jump. */
  lemma WifiCostMonotone(pm: PowerModel, packetRate: int, uplinkRate: int, remote: bool,
                         datalen: nat, bandwidth: nat, rttMs: nat, datalen': nat, bandwidth': nat, rttMs': nat)
    requires pm.ValidRadio() && uplinkRate >= -1
    requires datalen <= datalen' && 0 < bandwidth' <= bandwidth && rttMs <= rttMs'
    ensures var component := ChannelRateComponent(remote, uplinkRate);
      0 <= WifiCost(pm, packetRate, component, datalen, bandwidth, rttMs)
        <= WifiCost(pm, packetRate, component, datalen', bandwidth', rttMs')
  {
    var component := ChannelRateComponent(remote, uplinkRate);
    ComponentNonNegative(remote, uplinkRate);
    PacketsMonotone(datalen, datalen');
    QuotientMonotone(datalen as real, datalen' as real, bandwidth' as real, bandwidth as real);
    var s, s' := WifiSeconds(datalen, bandwidth, rttMs), WifiSeconds(datalen', bandwidth', rttMs');
    CeilMonotone(s, s');
    CeilMonotone(0.0, s);
    var p, p' := WifiPower(pm, packetRate, component, datalen), WifiPower(pm, packetRate, component, datalen');
    IntProductMonotone(Ceil(s), Ceil(s'), p, p');
  }

  /** The component follows the uplink rate at 6.528 mW per Mbit/s, up to the two truncations. */
  lemma ComponentFollowsRate(uplinkRate: int)
    requires uplinkRate >= 0
    ensures var component := ChannelRateComponent(false, uplinkRate) as real;
      component <= 6.528 * (uplinkRate as real * 8.0 / 1000000.0) < component + 7.528
    ensures ChannelRateComponent(true, uplinkRate) == 0
  {
  }

  lemma LeastSeconds(x: real, n: int)
    requires n as real - 1.0 < x <= n as real
    ensures Ceil(x) == n
  {
  }

  lemma LeastPackets(datalen: nat, packets: nat)
    requires (packets - 1) * 1448 < datalen <= packets * 1448
    ensures Packets(datalen) == packets
  {
    PacketsIsLeastCover(datalen);
  }

  /** The estimate charges the least whole seconds that hold the round trip and the time `sent` that the bandwidth
      takes for the data, each at high power exactly if the data's packets lift the packet rate above the
      threshold. */
  lemma WifiCostIs(pm: PowerModel, packetRate: int, component: int, datalen: nat, bandwidth: nat, rttMs: nat,
                   sent: real, seconds: int, packets: nat)
    requires bandwidth > 0 && sent * bandwidth as real == datalen as real
    requires seconds as real - 1.0 < sent + rttMs as real / 1000.0 <= seconds as real
    requires (packets - 1) * 1448 < datalen <= packets * 1448
    ensures WifiCost(pm, packetRate, component, datalen, bandwidth, rttMs) ==
      seconds * if packets + packetRate > pm.wifiPacketRateThreshold
                then pm.wifiHighPowerBase + component else pm.wifiLowPower
  {
    QuotientTimes(datalen as real, bandwidth as real);
    SameFactor(sent, datalen as real / bandwidth as real, bandwidth as real);
    LeastSeconds(WifiSeconds(datalen, bandwidth, rttMs), seconds);
    LeastPackets(datalen, packets);
  }

  class Sampler {
    const dataRates: array<int>
    const packetRates: array<int>
    const lastBytes: array<int>
    const lastPackets: array<int>
    var lastObservation: nat

    ghost function Repr(): set<object> { {this, dataRates, packetRates, lastBytes, lastPackets} }

    ghost predicate Shape() {
      && dataRates.Length == 2 && packetRates.Length == 2 && lastBytes.Length == 2 && lastPackets.Length == 2
      && dataRates != packetRates && dataRates != lastBytes && dataRates != lastPackets
      && packetRates != lastBytes && packetRates != lastPackets && lastBytes != lastPackets
    }

    ghost function View(): Wifi
      requires Shape()
      reads Repr()
    {
      Wifi(Dirs(dataRates[0], dataRates[1]), Dirs(packetRates[0], packetRates[1]),
           Dirs(lastBytes[0], lastBytes[1]), Dirs(lastPackets[0], lastPackets[1]), lastObservation)
    }

    constructor (now: nat)
      ensures Shape() && fresh(Repr())
      ensures View() == FreshWifi(now)
    {
      dataRates := new int[2];
      packetRates := new int[2];
      lastBytes := new int[2];
      lastPackets := new int[2];
      new;
      Reset(now);
    }

    method Reset(now: nat)
      requires Shape()
      modifies Repr()
      ensures View() == FreshWifi(now)
    {
      dataRates[0], dataRates[1] := -1, -1;
      packetRates[0], packetRates[1] := -1, -1;
      lastBytes[0], lastBytes[1] := -1, -1;
      lastPackets[0], lastPackets[1] := -1, -1;
      lastObservation := now;
    }

    /** One locked update; the precondition on the sentinels is the source's assertion. */
    method UpdateEstimatedRates(now: nat, read: Option<WifiRead>, fireBefore: bool)
      returns (rc: int, fire: bool)
      requires Shape() && lastObservation <= now && Sentinel(View())
      modifies Repr()
      ensures View() == TickWifi(old(View()), now, read)
      ensures rc == if read.Some? then 0 else -1
      ensures fire == (fireBefore || FiresWifi(old(View()), now, read))
    {
      fire := fireBefore;
      if read.None? {
        return -1, fire;
      }
      var us := now - lastObservation;
      if us / SECOND == 0 {
        return 0, fire;
      }
      var bytes, packets := new int[2], new int[2];
      bytes[0], bytes[1] := read.value.bytes.down, read.value.bytes.up;
      packets[0], packets[1] := read.value.packets.down, read.value.packets.up;
      if lastBytes[0] == -1 {
        assert lastBytes[1] == -1 && lastPackets[0] == -1 && lastPackets[1] == -1
          && dataRates[0] == -1 && dataRates[1] == -1 && packetRates[0] == -1 && packetRates[1] == -1;
      } else {
        CalcRates(dataRates, lastBytes, bytes, us);
        CalcRates(packetRates, lastPackets, packets, us);
      }
      StoreCounts(lastBytes, bytes);
      StoreCounts(lastPackets, packets);
      lastObservation := now;
      if packetRates[0] + packetRates[1] > 5 {
        fire := true;
      }
      rc := 0;
    }
  }

  method CalcRates(rates: array<int>, last: array<int>, current: array<int>, us: int)
    requires rates.Length == 2 && last.Length == 2 && current.Length == 2 && us > 0
    requires rates != last && rates != current
    modifies rates
    ensures Dirs(rates[0], rates[1]) == Rates(Dirs(current[0], current[1]), Dirs(last[0], last[1]), us)
  {
    for i := 0 to 2
      invariant forall j :: 0 <= j < i ==> rates[j] == Rate(current[j], last[j], us)
    {
      rates[i] := Ceil((current[i] - last[i]) as real / Secs(us));
    }
  }

  method StoreCounts(last: array<int>, current: array<int>)
    requires last.Length == 2 && current.Length == 2 && last != current
    modifies last
    ensures last[..] == current[..]
  {
    for i := 0 to 2
      invariant last[..i] == current[..i]
    {
      last[i] := current[i];
    }
  }
}
