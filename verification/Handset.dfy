/** The handset: tracker, WiFi sampler and meter driven by one tick, and the runs of such ticks. */
module Handset {
  import opened Common
  import opened Power
  import opened MobileTracker
  import opened WifiSampler
  import opened Meter
  import opened Server

  /** Everything a tick takes from outside: the clock and the readings. */
  datatype Input = Input(now: nat, mobile: Option<Dirs>, wifi: Option<WifiRead>, cpu: CpuRead)

  datatype HandsetState = HandsetState(mobile: Mobile, wifi: Wifi, meter: MeterState, callback: bool) {
    predicate ClockOk(now: nat) {
      && mobile.ClockOk(now)
      && wifi.lastObservation <= now
      && meter.lastReset <= now && meter.lastUpdate <= now
    }
  }

  /** The order within a tick: WiFi sampling, radio tracking, then charging. */
  function TickHandset(pm: PowerModel, h: HandsetState, t: Input): HandsetState
    requires h.mobile.ClockOk(t.now) && CpuReadOk(pm, t.cpu)
  {
    var wifi := TickWifi(h.wifi, t.now, t.wifi);
    var mobile := TickMobile(pm, h.mobile, t.now, t.mobile);
    HandsetState(mobile, wifi,
                 TickMeter(pm, h.meter, t.now, mobile.state, mobile.lastDelta, wifi, t.cpu), h.callback)
  }

  predicate Fires(h: HandsetState, t: Input) {
    FiresWifi(h.wifi, t.now, t.wifi) || Active(h.mobile, t.now, t.mobile)
  }

  /** What the registered callback is given, if it is called at all. */
  function ReportOf(pm: PowerModel, h: HandsetState, t: Input): Option<Report>
    requires h.mobile.ClockOk(t.now)
  {
    if h.callback && Fires(h, t) then
      var mobile := TickMobile(pm, h.mobile, t.now, t.mobile);
      Some(Report(mobile.state, QueueLen(mobile, t.mobile), TickWifi(h.wifi, t.now, t.wifi).packetRates.Sum()))
    else None
  }

  /** The fields as a reset assigns them, before the tick that ends the reset. */
  function Fresh(now: nat, cpu: CpuTotals, callback: bool): HandsetState {
    HandsetState(FreshMobile(now), FreshWifi(now), FreshMeter(now, cpu), callback)
  }

  class Handset {
    const tracker: Tracker
    const sampler: Sampler
    const meter: MeterBox
    var callback: bool

    ghost function Repr(): set<object> { {this} + tracker.Repr() + sampler.Repr() + meter.Repr() }

    ghost predicate Shape() {
      && tracker.Shape() && sampler.Shape() && meter.Shape()
      && {this} !! tracker.Repr() !! sampler.Repr() !! meter.Repr()
    }

    ghost function View(): HandsetState
      requires Shape()
      reads Repr()
    {
      HandsetState(tracker.View(), sampler.View(), meter.View(), callback)
    }

    ghost predicate Valid()
      reads Repr()
    {
      Shape() && tracker.Valid() && Sentinel(sampler.View())
    }

    constructor (now: nat)
      ensures Valid() && fresh(Repr())
      ensures View() == Fresh(now, CpuTotals(0.0, 0.0, 0.0), false)
    {
      tracker := new Tracker(now);
      sampler := new Sampler(now);
      meter := new MeterBox(now);
      callback := false;
    }

    method RegisterMobileActivityCallback(registered: bool)
      requires Valid()
      modifies this
      ensures Valid() && View() == old(View()).(callback := registered)
    {
      callback := registered;
    }

    /** One tick; the returned report is the argument of the callback, None when it is not called. */
    method UpdateEnergyStats(pm: PowerModel, t: Input) returns (report: Option<Report>)
      requires Valid() && View().ClockOk(t.now) && CpuReadOk(pm, t.cpu)
      requires t.wifi.Some? ==> 0 <= t.wifi.value.bytes.down
      modifies Repr()
      ensures Valid()
      ensures View() == TickHandset(pm, old(View()), t)
      ensures report == ReportOf(pm, old(View()), t)
    {
      ghost var h := View();
      var rc, fire := sampler.UpdateEstimatedRates(t.now, t.wifi, false);
      rc, fire := tracker.UpdateMobileState(pm, t.now, t.mobile, fire);
      assert sampler.View() == TickWifi(h.wifi, t.now, t.wifi);
      assert tracker.View() == TickMobile(pm, h.mobile, t.now, t.mobile);
      assert fire == Fires(h, t) && meter.View() == h.meter;
      report := None;
      if fire && callback {
        var down, up := tracker.GetMobileQueueLen(t.mobile);
        report := Some(Report(tracker.mobileState, Dirs(down, up),
                              sampler.packetRates[0] + sampler.packetRates[1]));
      }
      var delta := Dirs(tracker.lastDeltaBytes[0], tracker.lastDeltaBytes[1]);
      var wifi := Wifi(Dirs(sampler.dataRates[0], sampler.dataRates[1]),
                       Dirs(sampler.packetRates[0], sampler.packetRates[1]),
                       Dirs(sampler.lastBytes[0], sampler.lastBytes[1]),
                       Dirs(sampler.lastPackets[0], sampler.lastPackets[1]), sampler.lastObservation);
      assert wifi == sampler.View() && report == ReportOf(pm, h, t);
      meter.UpdateConsumptionStats(pm, t.now, tracker.mobileState, delta, wifi, t.cpu);
    }

    /** A reset assigns every field and ends with a tick at the same instant. */
    method ResetStats(pm: PowerModel, t: Input) returns (report: Option<Report>)
      requires Valid() && CpuReadOk(pm, t.cpu)
      requires t.wifi.Some? ==> 0 <= t.wifi.value.bytes.down
      modifies Repr()
      ensures Valid()
      ensures var h := Fresh(t.now, old(View()).meter.cpu, old(View()).callback);
        View() == TickHandset(pm, h, t) && report == ReportOf(pm, h, t)
    {
      meter.Reset(t.now);
      tracker.Reset(t.now);
      sampler.Reset(t.now);
      report := UpdateEnergyStats(pm, t);
    }
  }
}
