/**
 * The handset's radio tracker: a timed automaton over IDLE, FACH and DCH, driven by clock ticks that
 * carry the interface's byte counters, with its redundant ledgers.
 *
 * `Mobile` is the value of the tracker's fields and `TickMobile` says, without the order of updates in
 * the source, what one tick does to them; `Tracker` updates the fields and arrays in place.
 */
module MobileTracker {
  import opened Common
  import opened Power

  datatype Mobile = Mobile(
    state: MobileState,
    lastActivity: nat,
    lastSample: nat,
    lastChange: nat,
    lastBytes: Dirs,
    lastDelta: Dirs,
    timeIn: PerState<int>,
    idleSum: PerState<real>,
    idleCount: PerState<int>)
  {
    /** The order of times that TIMEDIFF asserts. */
    predicate ClockOk(now: nat) { lastActivity <= now && lastSample <= now && lastChange <= now }

    /** Whether some counter reading has been taken as baseline. */
    predicate Observed() { lastBytes.down != -1 }

    /** Seconds without activity. */
    function Idle(now: nat): real { Secs(now - lastActivity) }
  }

  /** Whether the tick takes a sample: at most once a second, and only when a counter has grown. */
  predicate Samples(m: Mobile, now: nat, bytes: Dirs) {
    now - m.lastSample >= SECOND && !bytes.AtMost(m.lastBytes)
  }

  /** Whether the tick sees traffic: it samples, and there is an earlier reading to compare with. */
  predicate Active(m: Mobile, now: nat, read: Option<Dirs>) {
    read.Some? && Samples(m, now, read.value) && m.Observed()
  }

  /** Traffic wakes the radio, and raises it to DCH once a direction reaches its threshold. */
  function Promoted(pm: PowerModel, s: MobileState, delta: Dirs): MobileState {
    if s == DCH || delta.down >= pm.dchThresholdDown || delta.up >= pm.dchThresholdUp then DCH else FACH
  }

  /** Without traffic an expired inactivity timer lowers the state by one. */
  function Demoted(pm: PowerModel, s: MobileState, idle: real): MobileState {
    match s
    case DCH => if idle >= pm.dchTimer then FACH else DCH
    case FACH => if idle >= pm.fachTimer then IDLE else FACH
    case IDLE => IDLE
  }

  function NextState(pm: PowerModel, m: Mobile, now: nat, bytes: Dirs): MobileState {
    if !Samples(m, now, bytes) then Demoted(pm, m.state, m.Idle(now))
    else if m.Observed() then Promoted(pm, m.state, bytes.Minus(m.lastBytes))
    else m.state
  }

  /** One tick with one clock value and one counter reading (None: the reading failed). */
  function TickMobile(pm: PowerModel, m: Mobile, now: nat, read: Option<Dirs>): Mobile
    requires m.ClockOk(now)
  {
    if read.None? then m else
    var bytes := read.value;
    var next := NextState(pm, m, now, bytes);
    var samples := Samples(m, now, bytes);
    var active := samples && m.Observed();
    // falling back to FACH counts as activity, so that the whole FACH timer follows
    var activity := if active || (m.state == DCH && next == FACH) then now else m.lastActivity;
    Mobile(
      next,
      activity,
      if samples then now else m.lastSample,
      if next != m.state then now else m.lastChange,
      if samples then bytes else m.lastBytes,
      if active then bytes.Minus(m.lastBytes) else if samples then m.lastDelta else ZERO,
      if next != m.state && m.lastChange >= SECOND
        then m.timeIn.Set(m.state, m.timeIn.Get(m.state) + now - m.lastChange) else m.timeIn,
      m.idleSum.Set(next, m.idleSum.Get(next) + Secs(now - activity)),
      m.idleCount.Set(next, m.idleCount.Get(next) + 1))
  }

  /** The tracker's fields as a reset assigns them. */
  function FreshMobile(now: nat): Mobile {
    Mobile(IDLE, now, now, now, UNSET, ZERO,
           PerState(SECOND, 0, 0), PerState(0.0, 0.0, 0.0), PerState(1, 1, 1))
  }

  /** Queue estimate: the last sample's bytes plus those that arrived since. */
  function QueueLen(m: Mobile, read: Option<Dirs>): Dirs {
    if read.Some? && m.Observed()
    then Dirs(m.lastDelta.down + read.value.down - m.lastBytes.down,
              m.lastDelta.up + read.value.up - m.lastBytes.up)
    else m.lastDelta
  }

  /** The part of the time since reset (plus the initial second) spent in a state, for weights. */
  function TimeFraction(m: Mobile, s: MobileState, now: nat): real
    requires m.timeIn.idle + m.timeIn.fach + m.timeIn.dch + now - m.lastChange != 0
  {
    Secs(m.timeIn.Get(s) + if s == m.state then now - m.lastChange else 0)
      / Secs(m.timeIn.idle + m.timeIn.fach + m.timeIn.dch + now - m.lastChange)
  }

  function AverageIdle(m: Mobile, s: MobileState): real
    requires m.idleCount.Get(s) != 0
  {
    m.idleSum.Get(s) / m.idleCount.Get(s) as real
  }

  /** Facts about the ledgers that every tick keeps; they make the divisions above defined. */
  predicate LedgersOk(m: Mobile) {
    && m.timeIn.idle >= SECOND && m.timeIn.fach >= 0 && m.timeIn.dch >= 0
    && m.idleCount.idle >= 1 && m.idleCount.fach >= 1 && m.idleCount.dch >= 1
    && m.idleSum.idle >= 0.0 && m.idleSum.fach >= 0.0 && m.idleSum.dch >= 0.0
  }

  lemma LedgersKept(pm: PowerModel, m: Mobile, now: nat, read: Option<Dirs>)
    requires m.ClockOk(now) && LedgersOk(m)
    ensures LedgersOk(TickMobile(pm, m, now, read)) && TickMobile(pm, m, now, read).ClockOk(now)
  {
  }

  class Tracker {
    var mobileState: MobileState
    var lastActivity: nat
    var lastSampleTime: nat
    var lastStateChange: nat
    const lastBytes: array<int>
    const lastDeltaBytes: array<int>
    const timeInState: array<int>
    const idleDurations: array<real>
    const idleUpdateCounts: array<int>

    ghost function Repr(): set<object> {
      {this, lastBytes, lastDeltaBytes, timeInState, idleDurations, idleUpdateCounts}
    }

    ghost predicate Shape() {
      && lastBytes.Length == 2 && lastDeltaBytes.Length == 2
      && timeInState.Length == 3 && idleDurations.Length == 3 && idleUpdateCounts.Length == 3
      && lastBytes != lastDeltaBytes && lastBytes != timeInState && lastBytes != idleUpdateCounts
      && lastDeltaBytes != timeInState && lastDeltaBytes != idleUpdateCounts
      && timeInState != idleUpdateCounts
    }

    ghost function View(): Mobile
      requires Shape()
      reads Repr()
    {
      Mobile(mobileState, lastActivity, lastSampleTime, lastStateChange,
             Dirs(lastBytes[0], lastBytes[1]),
             Dirs(lastDeltaBytes[0], lastDeltaBytes[1]),
             PerState(timeInState[0], timeInState[1], timeInState[2]),
             PerState(idleDurations[0], idleDurations[1], idleDurations[2]),
             PerState(idleUpdateCounts[0], idleUpdateCounts[1], idleUpdateCounts[2]))
    }

    ghost predicate Valid()
      reads Repr()
    {
      Shape() && LedgersOk(View())
    }

    constructor (now: nat)
      ensures Valid() && fresh(Repr())
      ensures View() == FreshMobile(now)
    {
      lastBytes := new int[2];
      lastDeltaBytes := new int[2];
      timeInState := new int[3];
      idleDurations := new real[3];
      idleUpdateCounts := new int[3];
      new;
      Reset(now);
    }

    method Reset(now: nat)
      requires Shape()
      modifies Repr()
      ensures Valid()
      ensures View() == FreshMobile(now)
    {
      mobileState := IDLE;
      lastBytes[0], lastBytes[1] := -1, -1;
      lastDeltaBytes[0], lastDeltaBytes[1] := 0, 0;
      timeInState[0], timeInState[1], timeInState[2] := SECOND, 0, 0;
      idleDurations[0], idleDurations[1], idleDurations[2] := 0.0, 0.0, 0.0;
      idleUpdateCounts[0], idleUpdateCounts[1], idleUpdateCounts[2] := 1, 1, 1;
      lastStateChange := now;
      lastSampleTime := now;
      lastActivity := now;
    }

    /** The two threshold passes over a sample; reports whether the state changed. */
    method Promote(pm: PowerModel, bytes: array<int>) returns (stateChange: bool)
      requires Shape() && bytes.Length == 2 && bytes !in Repr()
      modifies this`mobileState, lastDeltaBytes
      ensures var m, delta := old(View()), Dirs(bytes[0] - lastBytes[0], bytes[1] - lastBytes[1]);
        View() == m.(state := Promoted(pm, m.state, delta), lastDelta := delta)
      ensures stateChange <==> mobileState != old(mobileState)
    {
      stateChange := false;
      var delta := new int[2];
      for i := 0 to 2
        invariant forall j :: 0 <= j < i ==> delta[j] == lastDeltaBytes[j] == bytes[j] - lastBytes[j]
        invariant stateChange <==> mobileState != old(mobileState)
        invariant mobileState == old(mobileState) || mobileState == DCH
        invariant mobileState == DCH <==>
          old(mobileState) == DCH || (i > 0 && delta[0] >= pm.dchThresholdDown)
          || (i > 1 && delta[1] >= pm.dchThresholdUp)
      {
        delta[i] := bytes[i] - lastBytes[i];
        if (stateChange || mobileState != DCH) && delta[i] >= pm.DchThreshold(i == 0) {
          mobileState := DCH;
          stateChange := true;
        }
        lastDeltaBytes[i] := delta[i];
      }
      if mobileState == IDLE {
        stateChange := true;
        mobileState := FACH;
      }
      if delta[0] > pm.dchThresholdDown || delta[1] > pm.dchThresholdUp {
        if mobileState != DCH {
          stateChange := true;
        }
        mobileState := DCH;
      }
    }

    /** A tick without a sample: forget the last deltas and check the inactivity timers. */
    method Expire(pm: PowerModel, now: nat) returns (stateChange: bool)
      requires Shape() && lastActivity <= now
      modifies this`mobileState, this`lastActivity, lastDeltaBytes
      ensures var next := Demoted(pm, old(mobileState), Secs(now - old(lastActivity)));
        View() == old(View()).(
          state := next,
          lastActivity := if old(mobileState) == DCH && next == FACH then now else old(lastActivity),
          lastDelta := ZERO)
      ensures stateChange <==> mobileState != old(mobileState)
    {
      stateChange := false;
      lastDeltaBytes[0] := 0;
      lastDeltaBytes[1] := 0;
      var idleTime := Secs(now - lastActivity);
      if mobileState == DCH {
        if idleTime >= pm.dchTimer {
          stateChange := true;
          mobileState := FACH;
          lastActivity := now;
        }
      } else if mobileState == FACH {
        if idleTime >= pm.fachTimer {
          stateChange := true;
          mobileState := IDLE;
        }
      }
    }

    /** Credit the time since the last change to the state that was left. */
    method RecordStateChange(lastState: MobileState, now: nat)
      requires Shape() && lastStateChange <= now
      modifies this`lastStateChange, timeInState
      ensures var m := old(View());
        View() == m.(
          lastChange := now,
          timeIn := if m.lastChange >= SECOND
            then m.timeIn.Set(lastState, m.timeIn.Get(lastState) + now - m.lastChange) else m.timeIn)
    {
      if lastStateChange / SECOND != 0 {
        timeInState[Index(lastState)] := timeInState[Index(lastState)] + (now - lastStateChange);
      }
      lastStateChange := now;
    }

    /** A tick that takes a sample: the first one is only a baseline. */
    method Sample(pm: PowerModel, now: nat, bytes: array<int>) returns (stateChange: bool, activity: bool)
      requires Shape() && bytes.Length == 2 && bytes !in Repr()
      modifies this`mobileState, this`lastActivity, this`lastSampleTime, lastBytes, lastDeltaBytes
      ensures var m, read := old(View()), Dirs(bytes[0], bytes[1]);
        var sampled := m.(lastSample := now, lastBytes := read);
        View() == if m.Observed()
          then sampled.(state := Promoted(pm, m.state, read.Minus(m.lastBytes)),
                        lastActivity := now, lastDelta := read.Minus(m.lastBytes))
          else sampled
      ensures activity == old(View()).Observed()
      ensures stateChange <==> mobileState != old(mobileState)
    {
      stateChange, activity := false, false;
      lastSampleTime := now;
      if lastBytes[0] != -1 {
        lastActivity := now;
        activity := true;
        stateChange := Promote(pm, bytes);
      }
      lastBytes[0] := bytes[0];
      lastBytes[1] := bytes[1];
    }

    /** The update under the lock, for a successful reading. */
    method LockedUpdate(pm: PowerModel, now: nat, bytes: array<int>) returns (mobileActivity: bool)
      requires Shape() && View().ClockOk(now)
      requires bytes.Length == 2 && bytes !in Repr()
      modifies Repr()
      ensures View() == TickMobile(pm, old(View()), now, Some(Dirs(bytes[0], bytes[1])))
      ensures mobileActivity == Active(old(View()), now, Some(Dirs(bytes[0], bytes[1])))
    {
      ghost var m, read := View(), Dirs(bytes[0], bytes[1]);
      mobileActivity := false;
      var stateChange := false;
      var lastState := mobileState;
      if now - lastSampleTime >= SECOND && (bytes[0] > lastBytes[0] || bytes[1] > lastBytes[1]) {
        assert Samples(m, now, read);
        stateChange, mobileActivity := Sample(pm, now, bytes);
      } else {
        stateChange := Expire(pm, now);
      }
      if stateChange {
        RecordStateChange(lastState, now);
      }
      assert View() == TickMobile(pm, m, now, Some(read)).(idleSum := m.idleSum, idleCount := m.idleCount);
      UpdateIdleDuration(mobileState, Secs(now - lastActivity));
    }

    /** One tick; `fire` is the caller's callback flag, passed through or raised. */
    method UpdateMobileState(pm: PowerModel, now: nat, read: Option<Dirs>, fireBefore: bool)
      returns (rc: int, fire: bool)
      requires Valid() && View().ClockOk(now)
      modifies Repr()
      ensures Valid()
      ensures View() == TickMobile(pm, old(View()), now, read)
      ensures rc == if read.Some? then 0 else -1
      ensures fire == (fireBefore || Active(old(View()), now, read))
    {
      rc, fire := -1, fireBefore;
      if read.Some? {
        LedgersKept(pm, View(), now, read);
        var bytes := new int[2];
        bytes[0], bytes[1] := read.value.down, read.value.up;
        var mobileActivity := LockedUpdate(pm, now, bytes);
        if mobileActivity {
          fire := true;
        }
        rc := 0;
      }
    }

    method UpdateIdleDuration(s: MobileState, idle: real)
      requires Shape()
      modifies idleDurations, idleUpdateCounts
      ensures View() == old(View()).(
        idleSum := old(View()).idleSum.Set(s, old(View()).idleSum.Get(s) + idle),
        idleCount := old(View()).idleCount.Set(s, old(View()).idleCount.Get(s) + 1))
    {
      idleDurations[Index(s)] := idleDurations[Index(s)] + idle;
      idleUpdateCounts[Index(s)] := idleUpdateCounts[Index(s)] + 1;
    }

    method GetMobileQueueLen(read: Option<Dirs>) returns (down: int, up: int)
      requires Valid()
      ensures Dirs(down, up) == QueueLen(View(), read)
    {
      down, up := lastDeltaBytes[0], lastDeltaBytes[1];
      if read.Some? && lastBytes[0] != -1 {
        down := down + (read.value.down - lastBytes[0]);
        up := up + (read.value.up - lastBytes[1]);
      }
    }

    method TimeFractionInState(s: MobileState, now: nat) returns (fraction: real)
      requires Valid() && View().ClockOk(now)
      ensures fraction == TimeFraction(View(), s, now)
    {
      var total := 0;
      for i := 0 to 3
        invariant total == (if i > 0 then timeInState[0] else 0) + (if i > 1 then timeInState[1] else 0)
                           + (if i > 2 then timeInState[2] else 0)
      {
        total := total + timeInState[i];
      }
      var inState := timeInState[Index(s)];
      var duration := now - lastStateChange;
      if s == mobileState {
        inState := inState + duration;
      }
      total := total + duration;
      fraction := Secs(inState) / Secs(total);
    }

    method AverageIdleDurationForState(s: MobileState) returns (seconds: real)
      requires Valid()
      ensures seconds == AverageIdle(View(), s)
    {
      seconds := idleDurations[Index(s)] / idleUpdateCounts[Index(s)] as real;
    }
  }
}
