/** The server's mirror of the handset's radio, fed by sparse reports. */
module Server {
  import opened Common
  import opened Power
  import opened MobileTracker

  /** What the handset's activity callback sends. */
  datatype Report = Report(state: MobileState, queue: Dirs, wifiPacketRate: int)

  datatype Mirror = Mirror(lastReport: Report, lastActivity: nat) {
    function State(): MobileState { lastReport.state }
  }

  const INVALID_TIMEOUT := 1.5

  /** A tick without news: the same timeouts as on the handset, and stale queue data is dropped. */
  function TickMirror(pm: PowerModel, s: Mirror, now: nat): Mirror
    requires s.lastActivity <= now
  {
    var idle := Secs(now - s.lastActivity);
    var next := Demoted(pm, s.State(), idle);
    Mirror(
      if idle >= INVALID_TIMEOUT then Report(next, ZERO, 0) else s.lastReport.(state := next),
      if s.State() == DCH && next == FACH then now else s.lastActivity)
  }

  /** A report counts as radio activity only if it shows queued bytes. */
  function Deliver(s: Mirror, report: Report, now: nat): Mirror {
    Mirror(report, if report.queue.Sum() > 0 then now else s.lastActivity)
  }

  class RemoteModel {
    var mobileState: MobileState
    const queueLen: array<int>
    var wifiPacketRate: int
    var lastActivity: nat

    ghost function Repr(): set<object> { {this, queueLen} }

    ghost predicate Shape() { queueLen.Length == 2 }

    ghost function View(): Mirror
      requires Shape()
      reads Repr()
    {
      Mirror(Report(mobileState, Dirs(queueLen[0], queueLen[1]), wifiPacketRate), lastActivity)
    }

    constructor ()
      ensures Shape() && fresh(Repr())
      ensures View() == Mirror(Report(IDLE, ZERO, 0), 0)
    {
      mobileState, wifiPacketRate, lastActivity := IDLE, 0, 0;
      queueLen := new int[2](_ => 0);
    }

    /** The server's side of `get_mobile_queue_len`: the queue of the last report, or zero once that is stale. */
    method GetMobileQueueLen() returns (down: int, up: int)
      requires Shape()
      ensures Dirs(down, up) == View().lastReport.queue
    {
      down, up := queueLen[0], queueLen[1];
    }

    method UpdateRemotePowerModel(pm: PowerModel, now: nat)
      requires Shape() && lastActivity <= now
      modifies Repr()
      ensures View() == TickMirror(pm, old(View()), now)
    {
      var idleTime := Secs(now - lastActivity);
      if mobileState == DCH {
        if idleTime >= pm.dchTimer {
          mobileState := FACH;
          lastActivity := now;
        }
      } else if mobileState == FACH {
        if idleTime >= pm.fachTimer {
          mobileState := IDLE;
        }
      }
      if idleTime >= INVALID_TIMEOUT {
        queueLen[0] := 0;
        queueLen[1] := 0;
        wifiPacketRate := 0;
      }
    }

    method ReportRemoteMobileActivity(report: Report, now: nat)
      requires Shape()
      modifies Repr()
      ensures View() == Deliver(old(View()), report, now)
    {
      mobileState := report.state;
      queueLen[0], queueLen[1] := report.queue.down, report.queue.up;
      wifiPacketRate := report.wifiPacketRate;
      if queueLen[0] + queueLen[1] > 0 {
        lastActivity := now;
      }
    }
  }
}
