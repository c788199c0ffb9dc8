/** The evaluation script's power trace: loading, active intervals, and their energy. */
module PowerTrace {
  import opened Common

  /** One second of the trace; the fields may be missing. */
  datatype Slice = Slice(begin: int, state: Option<string>, energy: Option<int>)

  /** The lines that matter: the trace's start time, a slice's number, and its 3G state and energy. */
  datatype Line = TimeLine(ms: int) | BeginLine(step: int) | StateLine(name: string) | EnergyLine(mj: int) | OtherLine

  datatype LoadResult = Loaded(start: int, trace: seq<Slice>) | WrongStep | NoStart

  // ---- Loading ----

  function Begins(lines: seq<Line>): nat {
    if lines == [] then 0
    else Begins(lines[..|lines| - 1]) + if lines[|lines| - 1].BeginLine? then 1 else 0
  }

  /** Every slice carries its rank. */
  predicate Numbered(lines: seq<Line>) {
    forall i :: 0 <= i < |lines| && lines[i].BeginLine? ==> lines[i].step == Begins(lines[..i])
  }

  function StartOf(lines: seq<Line>): Option<int> {
    if lines == [] then None
    else match lines[|lines| - 1]
      case TimeLine(ms) => Some(ms)
      case _ => StartOf(lines[..|lines| - 1])
  }

  function WithField(s: Slice, line: Line): Slice {
    match line
    case StateLine(name) => s.(state := Some(name))
    case EnergyLine(mj) => s.(energy := Some(mj))
    case _ => s
  }

  /** All slices begun so far, the last one still open. */
  function Slices(lines: seq<Line>): seq<Slice> {
    if lines == [] then []
    else
      var before, line := Slices(lines[..|lines| - 1]), lines[|lines| - 1];
      if line.BeginLine? then before + [Slice(line.step, None, None)]
      else if before == [] then []
      else before[..|before| - 1] + [WithField(before[|before| - 1], line)]
  }

  function AllButLast(slices: seq<Slice>): seq<Slice> { if slices == [] then [] else slices[..|slices| - 1] }

  /** A slice is added to the trace when the next one begins, so the last one never is. */
  function Load(lines: seq<Line>): LoadResult {
    if !Numbered(lines) then WrongStep
    else if StartOf(lines).None? then NoStart
    else Loaded(StartOf(lines).value, AllButLast(Slices(lines)))
  }

  method LoadTrace(lines: seq<Line>) returns (r: LoadResult)
    ensures r == Load(lines)
    ensures r.WrongStep? <==> !Numbered(lines)
    ensures r.NoStart? <==> Numbered(lines) && StartOf(lines).None?
    ensures r.Loaded? ==> Some(r.start) == StartOf(lines) && r.trace == AllButLast(Slices(lines))
  {
    var trace: seq<Slice>, cur: Option<Slice>, start: Option<int> := [], None, None;
    for i := 0 to |lines|
      invariant Slices(lines[..i]) == trace + if cur.Some? then [cur.value] else []
      invariant cur.None? ==> trace == []
      invariant Begins(lines[..i]) == |trace| + if cur.Some? then 1 else 0
      invariant start == StartOf(lines[..i])
      invariant Numbered(lines[..i])
    {
      var line := lines[i];
      assert lines[..i + 1][..i] == lines[..i];
      NumberedStep(lines, i);
      match line {
        case TimeLine(ms) => start := Some(ms);
        case BeginLine(step) =>
          if cur.Some? {
            trace := trace + [cur.value];
          }
          cur := Some(Slice(step, None, None));
          if step != |trace| {
            assert !Numbered(lines);
            return WrongStep;
          }
        case _ =>
          if cur.Some? {
            cur := Some(WithField(cur.value, line));
          }
      }
    }
    assert lines[..|lines|] == lines;
    r := if start.Some? then Loaded(start.value, trace) else NoStart;
  }

  lemma NumberedStep(lines: seq<Line>, i: nat)
    requires i < |lines|
    ensures Numbered(lines[..i + 1]) <==>
      Numbered(lines[..i]) && (lines[i].BeginLine? ==> lines[i].step == Begins(lines[..i]))
    ensures lines[i].BeginLine? && lines[i].step != Begins(lines[..i]) ==> !Numbered(lines)
  {
    assert forall k :: 0 <= k <= i ==> lines[..i + 1][..k] == lines[..k];
    assert forall k :: 0 <= k < i ==> lines[..i + 1][k] == lines[..i][k] && lines[..i][..k] == lines[..k];
    assert lines[..i + 1][i] == lines[i];
  }

  /** In a loaded trace the slice at each position begins at that second. */
  lemma {:induction false} SlicesAreNumbered(lines: seq<Line>)
    requires Numbered(lines)
    ensures |Slices(lines)| == Begins(lines)
    ensures BeginsAreRanks(Slices(lines))
  {
    if lines != [] {
      var n := |lines| - 1;
      assert lines[..n + 1] == lines;
      NumberedStep(lines, n);
      SlicesAreNumbered(lines[..n]);
      if !lines[n].BeginLine? && Slices(lines[..n]) != [] {
        FieldKeepsRanks(Slices(lines[..n]), lines[n]);
      }
    }
  }

  predicate BeginsAreRanks(slices: seq<Slice>) {
    forall k :: 0 <= k < |slices| ==> slices[k].begin == k
  }

  lemma FieldKeepsRanks(slices: seq<Slice>, line: Line)
    requires slices != [] && BeginsAreRanks(slices) && !line.BeginLine?
    ensures BeginsAreRanks(slices[..|slices| - 1] + [WithField(slices[|slices| - 1], line)])
  {
  }

  function RenderSlice(s: Slice): seq<Line> {
    [BeginLine(s.begin)]
    + (if s.state.Some? then [StateLine(s.state.value)] else [])
    + (if s.energy.Some? then [EnergyLine(s.energy.value)] else [])
  }

  function Render(slices: seq<Slice>): seq<Line> {
    if slices == [] then [] else Render(slices[..|slices| - 1]) + RenderSlice(slices[|slices| - 1])
  }

  lemma SlicesSnoc(lines: seq<Line>, line: Line)
    ensures var before := Slices(lines);
      Slices(lines + [line]) ==
        if line.BeginLine? then before + [Slice(line.step, None, None)]
        else if before == [] then []
        else before[..|before| - 1] + [WithField(before[|before| - 1], line)]
  {
    assert (lines + [line])[..|lines|] == lines;
  }

  /** A begin line opens an empty slice; a state or energy line sets that field of the open one, whether it had one
      or not; other lines change nothing. */
  lemma LineSets(lines: seq<Line>, line: Line)
    ensures line.BeginLine? ==> Slices(lines + [line]) == Slices(lines) + [Slice(line.step, None, None)]
    ensures !line.BeginLine? && Slices(lines) == [] ==> Slices(lines + [line]) == []
    ensures !line.BeginLine? && Slices(lines) != [] ==>
      var before, open := Slices(lines)[..|Slices(lines)| - 1], Slices(lines)[|Slices(lines)| - 1];
      Slices(lines + [line]) == before + [Slice(open.begin,
                                                if line.StateLine? then Some(line.name) else open.state,
                                                if line.EnergyLine? then Some(line.mj) else open.energy)]
  {
    SlicesSnoc(lines, line);
  }

  lemma SlicesOfField(lines: seq<Line>, before: seq<Slice>, last: Slice, line: Line)
    requires Slices(lines) == before + [last] && !line.BeginLine?
    ensures Slices(lines + [line]) == before + [WithField(last, line)]
  {
    SlicesSnoc(lines, line);
    assert (before + [last])[..|before|] == before;
  }

  lemma SlicesOfUnmetered(head: seq<Line>, s: Slice)
    requires s.energy.None?
    ensures Slices(head + RenderSlice(s)) == Slices(head) + [s]
  {
    var begun := head + [BeginLine(s.begin)];
    SlicesSnoc(head, BeginLine(s.begin));
    if s.state.Some? {
      SlicesOfField(begun, Slices(head), Slice(s.begin, None, None), StateLine(s.state.value));
      assert head + RenderSlice(s) == begun + [StateLine(s.state.value)];
    } else {
      assert head + RenderSlice(s) == begun;
    }
  }

  lemma RenderMetered(head: seq<Line>, s: Slice)
    requires s.energy.Some?
    ensures head + RenderSlice(s) == head + RenderSlice(s.(energy := None)) + [EnergyLine(s.energy.value)]
  {
  }

  lemma SlicesOfSlice(head: seq<Line>, s: Slice)
    ensures Slices(head + RenderSlice(s)) == Slices(head) + [s]
  {
    if s.energy.None? {
      SlicesOfUnmetered(head, s);
    } else {
      var unmetered := s.(energy := None);
      SlicesOfUnmetered(head, unmetered);
      RenderMetered(head, s);
      SlicesOfField(head + RenderSlice(unmetered), Slices(head), unmetered, EnergyLine(s.energy.value));
    }
  }

  lemma HeadersSnoc(lines: seq<Line>, line: Line)
    ensures StartOf(lines + [line]) == if line.TimeLine? then Some(line.ms) else StartOf(lines)
    ensures Begins(lines + [line]) == Begins(lines) + if line.BeginLine? then 1 else 0
    ensures Numbered(lines + [line]) <==> Numbered(lines) && (line.BeginLine? ==> line.step == Begins(lines))
  {
    var all, n := lines + [line], |lines|;
    assert all[..n] == lines && all[..n + 1] == all;
    NumberedStep(all, n);
  }

  /** The start time, and whether the slices are numbered by rank, after one more slice with number `begin`. */
  ghost predicate OneMore(head: seq<Line>, lines: seq<Line>, begin: int) {
    && StartOf(lines) == StartOf(head) && Begins(lines) == Begins(head) + 1
    && (Numbered(lines) <==> Numbered(head) && begin == Begins(head))
  }

  lemma FieldIsOneMore(head: seq<Line>, lines: seq<Line>, begin: int, field: Line)
    requires OneMore(head, lines, begin) && !field.BeginLine? && !field.TimeLine?
    ensures OneMore(head, lines + [field], begin)
  {
    HeadersSnoc(lines, field);
  }

  lemma UnmeteredIsOneMore(head: seq<Line>, s: Slice)
    requires s.energy.None?
    ensures OneMore(head, head + RenderSlice(s), s.begin)
  {
    var begun := head + [BeginLine(s.begin)];
    HeadersSnoc(head, BeginLine(s.begin));
    if s.state.Some? {
      FieldIsOneMore(head, begun, s.begin, StateLine(s.state.value));
      assert head + RenderSlice(s) == begun + [StateLine(s.state.value)];
    } else {
      assert head + RenderSlice(s) == begun;
    }
  }

  lemma SliceIsOneMore(head: seq<Line>, s: Slice)
    ensures OneMore(head, head + RenderSlice(s), s.begin)
  {
    if s.energy.None? {
      UnmeteredIsOneMore(head, s);
    } else {
      UnmeteredIsOneMore(head, s.(energy := None));
      RenderMetered(head, s);
      FieldIsOneMore(head, head + RenderSlice(s.(energy := None)), s.begin, EnergyLine(s.energy.value));
    }
  }

  /** A trace file: its start time, then its slices. */
  function RenderTrace(ms: int, slices: seq<Slice>): seq<Line> { [TimeLine(ms)] + Render(slices) }

  /** What loading sees in the lines of a trace. */
  ghost predicate Holds(lines: seq<Line>, ms: int, slices: seq<Slice>) {
    Slices(lines) == slices && StartOf(lines) == Some(ms) && RanksHold(lines, slices)
  }

  ghost predicate RanksHold(lines: seq<Line>, slices: seq<Slice>) {
    Begins(lines) == |slices| && (Numbered(lines) <==> BeginsAreRanks(slices))
  }

  lemma RanksOneMore(before: seq<Slice>, s: Slice)
    ensures BeginsAreRanks(before + [s]) <==> BeginsAreRanks(before) && s.begin == |before|
  {
    var slices := before + [s];
    assert slices[|before|] == s;
    assert forall k :: 0 <= k < |before| ==> slices[k] == before[k];
  }

  lemma HoldsOneMore(head: seq<Line>, ms: int, before: seq<Slice>, s: Slice)
    requires Holds(head, ms, before)
    ensures Holds(head + RenderSlice(s), ms, before + [s])
  {
    SliceIsOneMore(head, s);
    SlicesOfSlice(head, s);
    RanksOneMore(before, s);
  }

  lemma EmptyTraceHolds(ms: int)
    ensures Holds(RenderTrace(ms, []), ms, [])
  {
    HeadersSnoc([], TimeLine(ms));
    SlicesSnoc([], TimeLine(ms));
    assert RenderTrace(ms, []) == [] + [TimeLine(ms)];
  }

  lemma RenderSnoc(ms: int, before: seq<Slice>, s: Slice)
    ensures RenderTrace(ms, before + [s]) == RenderTrace(ms, before) + RenderSlice(s)
  {
    assert (before + [s])[..|before|] == before;
  }

  lemma {:induction false} TraceHolds(ms: int, slices: seq<Slice>)
    ensures Holds(RenderTrace(ms, slices), ms, slices)
  {
    if slices == [] {
      EmptyTraceHolds(ms);
    } else {
      var before, s := slices[..|slices| - 1], slices[|slices| - 1];
      TraceHolds(ms, before);
      HoldsOneMore(RenderTrace(ms, before), ms, before, s);
      RenderSnoc(ms, before, s);
      assert slices == before + [s];
    }
  }

  /** Loading a written trace gives its start time and all its slices but the last, exactly when the slices are
      numbered by their ranks; otherwise it fails. */
  lemma RenderRoundTrip(ms: int, slices: seq<Slice>, last: Slice)
    ensures Load(RenderTrace(ms, slices + [last])) ==
      if BeginsAreRanks(slices + [last]) then Loaded(ms, slices) else WrongStep
    ensures Load(RenderTrace(ms, [])) == Loaded(ms, [])
  {
    TraceHolds(ms, slices + [last]);
    TraceHolds(ms, []);
    assert (slices + [last])[..|slices|] == slices;
  }

  // ---- Active intervals ----

  predicate IsIdle(s: Slice) { s.state == Some("IDLE") }

  predicate IsActive(s: Slice) { s.state.Some? && s.state.value != "IDLE" }

  function Timestamp(start: int, s: Slice): int { start + s.begin * 1000 }

  /** The last slice before position `n` that has a state is idle. */
  predicate JustIdle(trace: seq<Slice>, n: nat)
    requires n <= |trace|
  {
    n > 0 && (IsIdle(trace[n - 1]) || (trace[n - 1].state.None? && JustIdle(trace, n - 1)))
  }

  predicate NoIdle(trace: seq<Slice>, i: nat, n: nat)
    requires n <= |trace|
  {
    forall k :: i <= k < n ==> !IsIdle(trace[k])
  }

  /** An activity starts at position `i`: active, and the state before was idle. */
  predicate StartsAt(trace: seq<Slice>, i: nat)
    requires i < |trace|
  {
    IsActive(trace[i]) && JustIdle(trace, i)
  }

  /** A maximal non-idle run from `i` up to the idle slice `j`, with idle on both sides. */
  predicate IsRun(trace: seq<Slice>, i: nat, j: nat) {
    i < j < |trace| && StartsAt(trace, i) && NoIdle(trace, i, j) && IsIdle(trace[j])
  }

  /** The position reached by the scan: the idle flag, the open activity, and the closed runs. */
  datatype Scan = Scan(idle: bool, open: Option<nat>, runs: seq<(nat, nat)>)

  function ScanTo(trace: seq<Slice>, n: nat): Scan
    requires n <= |trace|
  {
    if n == 0 then Scan(false, None, [])
    else
      var s := ScanTo(trace, n - 1);
      if trace[n - 1].state.None? then s
      else if IsIdle(trace[n - 1]) then
        Scan(true, if s.idle then s.open else None,
             if !s.idle && s.open.Some? then s.runs + [(s.open.value, n - 1)] else s.runs)
      else Scan(false, if s.idle then Some(n - 1) else s.open, s.runs)
  }

  function ActiveRuns(trace: seq<Slice>): seq<(nat, nat)> { ScanTo(trace, |trace|).runs }

  /** An earlier activity is separated from a position just after idle by an idle slice. */
  lemma {:induction false} IdleBetween(trace: seq<Slice>, i: nat, n: nat)
    requires i < n <= |trace| && IsActive(trace[i]) && JustIdle(trace, n)
    ensures !NoIdle(trace, i, n)
  {
    if !IsIdle(trace[n - 1]) {
      IdleBetween(trace, i, n - 1);
      assert forall k :: i <= k < n - 1 && IsIdle(trace[k]) ==> i <= k < n;
    }
  }

  ghost predicate OpenIsExact(trace: seq<Slice>, n: nat, s: Scan)
    requires n <= |trace|
  {
    && s.idle == JustIdle(trace, n)
    && (s.open.Some? ==> s.open.value < n && StartsAt(trace, s.open.value) && NoIdle(trace, s.open.value, n))
    && (forall i: nat :: i < n && StartsAt(trace, i) && NoIdle(trace, i, n) ==> s.open == Some(i))
  }

  ghost predicate RunsAreExact(trace: seq<Slice>, n: nat, runs: seq<(nat, nat)>)
    requires n <= |trace|
  {
    && (forall k :: 0 <= k < |runs| ==> IsRun(trace, runs[k].0, runs[k].1) && runs[k].1 < n)
    && (forall i: nat, j: nat :: IsRun(trace, i, j) && j < n ==> (i, j) in runs)
  }

  predicate Ordered(runs: seq<(nat, nat)>) {
    forall k, l :: 0 <= k < l < |runs| ==> runs[k].1 < runs[l].0
  }

  lemma {:induction false} ScanIsExact(trace: seq<Slice>, n: nat)
    requires n <= |trace|
    ensures OpenIsExact(trace, n, ScanTo(trace, n))
    ensures RunsAreExact(trace, n, ScanTo(trace, n).runs)
    ensures Ordered(ScanTo(trace, n).runs)
  {
    if n > 0 {
      ScanIsExact(trace, n - 1);
      var s, s' := ScanTo(trace, n - 1), ScanTo(trace, n);
      OpenStep(trace, n, s, s');
      forall i: nat, j: nat | IsRun(trace, i, j) && j < n ensures (i, j) in s'.runs {
        if j == n - 1 {
          assert s.open == Some(i);
          assert s'.runs[|s'.runs| - 1] == (i, j);
        } else {
          assert (i, j) in s.runs;
        }
      }
      if s.open.Some? {
        RunsBeforeOpen(trace, n - 1, s);
      }
    }
  }

  lemma OpenStep(trace: seq<Slice>, n: nat, s: Scan, s': Scan)
    requires 0 < n <= |trace| && OpenIsExact(trace, n - 1, s) && s == ScanTo(trace, n - 1) && s' == ScanTo(trace, n)
    ensures OpenIsExact(trace, n, s')
  {
    forall i: nat | i < n && StartsAt(trace, i) && NoIdle(trace, i, n) ensures s'.open == Some(i) {
      assert i < n - 1 ==> NoIdle(trace, i, n - 1);
      if i < n - 1 && s.idle {
        IdleBetween(trace, i, n - 1);
      }
    }
    if s.open.Some? && s.idle {
      IdleBetween(trace, s.open.value, n - 1);
    }
  }

  /** The open activity lies after every closed run. */
  lemma RunsBeforeOpen(trace: seq<Slice>, n: nat, s: Scan)
    requires n <= |trace| && s.open.Some? && OpenIsExact(trace, n, s) && RunsAreExact(trace, n, s.runs)
    ensures forall k :: 0 <= k < |s.runs| ==> s.runs[k].1 < s.open.value
  {
    forall k | 0 <= k < |s.runs| ensures s.runs[k].1 < s.open.value {
      assert IsIdle(trace[s.runs[k].1]) && IsActive(trace[s.open.value]);
    }
  }

  /** The extracted runs are ordered and disjoint, and they are exactly the maximal non-idle runs with idle
      slices on both sides. */
  lemma ActiveRunsAreExact(trace: seq<Slice>)
    ensures Ordered(ActiveRuns(trace))
    ensures forall k :: 0 <= k < |ActiveRuns(trace)| ==> IsRun(trace, ActiveRuns(trace)[k].0, ActiveRuns(trace)[k].1)
    ensures forall i: nat, j: nat :: IsRun(trace, i, j) ==> (i, j) in ActiveRuns(trace)
  {
    ScanIsExact(trace, |trace|);
  }

  predicate InRange(trace: seq<Slice>, runs: seq<(nat, nat)>) {
    forall k :: 0 <= k < |runs| ==> runs[k].0 < |trace| && runs[k].1 < |trace|
  }

  function Stamps(start: int, trace: seq<Slice>, runs: seq<(nat, nat)>): seq<(int, int)>
    requires InRange(trace, runs)
  {
    seq(|runs|, k requires 0 <= k < |runs| =>
      (Timestamp(start, trace[runs[k].0]), Timestamp(start, trace[runs[k].1])))
  }

  method GetMobileActiveIntervals(start: int, trace: seq<Slice>) returns (intervals: seq<(int, int)>)
    ensures InRange(trace, ActiveRuns(trace))
    ensures intervals == Stamps(start, trace, ActiveRuns(trace))
  {
    var activityStart: Option<int>, idle := None, false;
    intervals := [];
    for n := 0 to |trace|
      invariant idle == ScanTo(trace, n).idle
      invariant ScanTo(trace, n).open.Some? ==> ScanTo(trace, n).open.value < n
      invariant activityStart == match ScanTo(trace, n).open
        case None => None
        case Some(i) => Some(Timestamp(start, trace[i]))
      invariant InRange(trace, ScanTo(trace, n).runs)
      invariant intervals == Stamps(start, trace, ScanTo(trace, n).runs)
    {
      ScanIsExact(trace, n);
      ScanIsExact(trace, n + 1);
      var cur := trace[n];
      if cur.state.Some? {
        var timestamp := Timestamp(start, cur);
        if cur.state.value == "IDLE" {
          if !idle {
            if activityStart.Some? {
              intervals := intervals + [(activityStart.value, timestamp)];
              activityStart := None;
            }
          }
          idle := true;
        } else {
          if idle {
            assert activityStart.None? by {
              if ScanTo(trace, n).open.Some? {
                IdleBetween(trace, ScanTo(trace, n).open.value, n);
              }
            }
            activityStart := Some(timestamp);
          }
          idle := false;
        }
      }
    }
  }

  /** In a trace whose slices are numbered by rank, the intervals are those runs, in milliseconds from the trace's
      start, one second a slice. */
  lemma IntervalsAreAt(start: int, trace: seq<Slice>, k: nat)
    requires BeginsAreRanks(trace) && k < |ActiveRuns(trace)|
    ensures InRange(trace, ActiveRuns(trace))
    ensures Stamps(start, trace, ActiveRuns(trace))[k]
         == (start + 1000 * ActiveRuns(trace)[k].0, start + 1000 * ActiveRuns(trace)[k].1)
  {
    ActiveRunsAreExact(trace);
  }

  // ---- Energy of the intervals ----

  /** Energy of the active slices with timestamps in [begin, end] among the first `n`; None is the error of an
      active slice without an energy field. */
  function EnergyWithin(start: int, trace: seq<Slice>, begin: int, end: int, n: nat): Option<int>
    requires n <= |trace|
  {
    if n == 0 then Some(0)
    else
      var before, s := EnergyWithin(start, trace, begin, end, n - 1), trace[n - 1];
      if before.None? || !IsActive(s) || !(begin <= Timestamp(start, s) <= end) then before
      else if s.energy.None? then None
      else Some(before.value + s.energy.value)
  }

  method TotalMobileEnergy(start: int, trace: seq<Slice>, begin: int, end: int) returns (total: Option<int>)
    ensures total == EnergyWithin(start, trace, begin, end, |trace|)
  {
    var energy := 0;
    for n := 0 to |trace|
      invariant EnergyWithin(start, trace, begin, end, n) == Some(energy)
    {
      var cur := trace[n];
      if cur.state.Some? && cur.state.value != "IDLE" {
        var timestamp := Timestamp(start, cur);
        if timestamp < begin || timestamp > end {
          continue;
        }
        if cur.energy.None? {
          MissingEnergy(start, trace, begin, end, n + 1, |trace|);
          return None;
        }
        energy := energy + cur.energy.value;
      }
    }
    total := Some(energy);
  }

  lemma {:induction false} MissingEnergy(start: int, trace: seq<Slice>, begin: int, end: int, n: nat, m: nat)
    requires n <= m <= |trace| && EnergyWithin(start, trace, begin, end, n).None?
    ensures EnergyWithin(start, trace, begin, end, m).None?
  {
    if n < m {
      MissingEnergy(start, trace, begin, end, n, m - 1);
    }
  }

  /** The error is raised exactly for an active slice in the window that lacks its energy. */
  lemma {:induction false} EnergyIsMissingIff(start: int, trace: seq<Slice>, begin: int, end: int, n: nat)
    requires n <= |trace|
    ensures EnergyWithin(start, trace, begin, end, n).None? <==>
      exists k :: 0 <= k < n && IsActive(trace[k]) && trace[k].energy.None?
                  && begin <= start + 1000 * trace[k].begin <= end
  {
    if n > 0 {
      EnergyIsMissingIff(start, trace, begin, end, n - 1);
    }
  }

  /** Energy of the active slices at positions [a, b). */
  function RangeEnergy(trace: seq<Slice>, a: nat, b: nat): int
    requires b <= |trace|
  {
    if b <= a then 0
    else
      var s := trace[b - 1];
      RangeEnergy(trace, a, b - 1) + if IsActive(s) && s.energy.Some? then s.energy.value else 0
  }

  /** A loaded trace: slices in order, and every active one has its energy. */
  predicate WellFormed(trace: seq<Slice>) {
    forall k :: 0 <= k < |trace| ==> trace[k].begin == k && (IsActive(trace[k]) ==> trace[k].energy.Some?)
  }

  /** The window from `w` seconds before slice `i` to slice `j`, ends included, is positions [i - w, j]. */
  lemma {:induction false} WindowEnergy(start: int, trace: seq<Slice>, i: nat, w: nat, j: nat, n: nat)
    requires WellFormed(trace) && i < |trace| && j < |trace| && n <= |trace|
    ensures var from := Timestamp(start, trace[i]) - 1000 * w;
      EnergyWithin(start, trace, from, Timestamp(start, trace[j]), n)
      == Some(RangeEnergy(trace, if w <= i then i - w else 0, if n <= j then n else j + 1))
  {
    if n > 0 {
      WindowEnergy(start, trace, i, w, j, n - 1);
    }
  }

  /** So is the window in milliseconds from the second before position `a` to position `b`. */
  lemma EnergyOfWindow(start: int, trace: seq<Slice>, begin: int, a: nat, b: nat)
    requires WellFormed(trace) && a <= b < |trace|
    requires start + 1000 * (a - 1) < begin <= start + 1000 * a
    ensures EnergyWithin(start, trace, begin, start + 1000 * b, |trace|) == Some(RangeEnergy(trace, a, b + 1))
  {
    EnergyUpTo(start, trace, begin, a, b, |trace|);
  }

  lemma {:induction false} EnergyUpTo(start: int, trace: seq<Slice>, begin: int, a: nat, b: nat, n: nat)
    requires WellFormed(trace) && a <= b < |trace| && n <= |trace|
    requires start + 1000 * (a - 1) < begin <= start + 1000 * a
    ensures EnergyWithin(start, trace, begin, start + 1000 * b, n)
      == Some(RangeEnergy(trace, a, if n <= b then n else b + 1))
  {
    if n > 0 {
      EnergyUpTo(start, trace, begin, a, b, n - 1);
    }
  }

  function RunsEnergy(trace: seq<Slice>, runs: seq<(nat, nat)>): int
    requires InRange(trace, runs)
  {
    if runs == [] then 0
    else RunsEnergy(trace, runs[..|runs| - 1]) + RangeEnergy(trace, runs[|runs| - 1].0, runs[|runs| - 1].1)
  }

  function OpenEnergy(trace: seq<Slice>, n: nat, s: Scan): int
    requires n <= |trace|
  {
    if s.open.Some? then RangeEnergy(trace, s.open.value, n) else 0
  }

  /** From the first idle slice on, all active energy is in a closed run or in the open activity. */
  lemma {:induction false} ScanCoversEnergy(trace: seq<Slice>, first: nat, n: nat)
    requires first < n <= |trace| && IsIdle(trace[first]) && NoIdle(trace, 0, first)
    ensures Covered(trace, first, n)
  {
    if n == first + 1 {
      CoveredAtFirstIdle(trace, first);
    } else {
      ScanIsExact(trace, n - 1);
      ScanCoversEnergy(trace, first, n - 1);
      if !IsIdle(trace[n - 1]) {
        ScanStepNotIdle(trace, first, n);
      } else {
        ScanStepIdle(trace, first, n);
      }
    }
  }

  ghost predicate Covered(trace: seq<Slice>, first: nat, n: nat)
    requires n <= |trace|
  {
    var s := ScanTo(trace, n);
    && InRange(trace, s.runs)
    && RunsEnergy(trace, s.runs) + OpenEnergy(trace, n, s) == RangeEnergy(trace, first, n)
    && (s.open.None? ==> s.idle)
  }

  lemma CoveredAtFirstIdle(trace: seq<Slice>, first: nat)
    requires first < |trace| && IsIdle(trace[first]) && NoIdle(trace, 0, first)
    ensures Covered(trace, first, first + 1)
  {
    NothingBeforeIdle(trace, first);
    assert ScanTo(trace, first + 1) == Scan(true, None, []);
  }

  lemma ScanStepNotIdle(trace: seq<Slice>, first: nat, n: nat)
    requires first < n - 1 < |trace| && Covered(trace, first, n - 1) && !IsIdle(trace[n - 1])
    requires OpenIsExact(trace, n - 1, ScanTo(trace, n - 1))
    ensures Covered(trace, first, n)
  {
    var s, s' := ScanTo(trace, n - 1), ScanTo(trace, n);
    assert s'.runs == s.runs;
    RangeSplit(trace, first, n - 1, n);
    if s.open.Some? {
      if s.idle {
        IdleBetween(trace, s.open.value, n - 1);
      }
      RangeSplit(trace, s.open.value, n - 1, n);
    }
  }

  lemma ScanStepIdle(trace: seq<Slice>, first: nat, n: nat)
    requires first < n - 1 < |trace| && Covered(trace, first, n - 1) && IsIdle(trace[n - 1])
    requires OpenIsExact(trace, n - 1, ScanTo(trace, n - 1))
    ensures Covered(trace, first, n)
  {
    var s, s' := ScanTo(trace, n - 1), ScanTo(trace, n);
    if s.idle && s.open.Some? {
      IdleBetween(trace, s.open.value, n - 1);
    }
    if s.open.Some? {
      assert s'.runs == s.runs + [(s.open.value, n - 1)];
      assert s'.runs[..|s'.runs| - 1] == s.runs;
    } else {
      assert s'.runs == s.runs;
    }
  }

  lemma {:induction false} NothingBeforeIdle(trace: seq<Slice>, n: nat)
    requires n <= |trace| && NoIdle(trace, 0, n)
    ensures ScanTo(trace, n) == Scan(false, None, [])
  {
    if n > 0 {
      NothingBeforeIdle(trace, n - 1);
    }
  }

  lemma {:induction false} RunsStayWithoutIdle(trace: seq<Slice>, a: nat, n: nat)
    requires a <= n <= |trace| && NoIdle(trace, a, n)
    ensures ScanTo(trace, n).runs == ScanTo(trace, a).runs
  {
    if a < n {
      RunsStayWithoutIdle(trace, a, n - 1);
    }
  }

  /** The runs hold exactly the active energy between the first and the last idle slice: what lies before the
      first or after the last, and so is not bounded by idle on both sides, is left out. */
  lemma RunsHoldEnclosedEnergy(trace: seq<Slice>, first: nat, last: nat)
    requires first <= last < |trace| && IsIdle(trace[first]) && IsIdle(trace[last])
    requires NoIdle(trace, 0, first) && NoIdle(trace, last + 1, |trace|)
    ensures InRange(trace, ActiveRuns(trace))
    ensures RunsEnergy(trace, ActiveRuns(trace)) == RangeEnergy(trace, first, last)
  {
    ScanCoversEnergy(trace, first, last + 1);
    RunsStayWithoutIdle(trace, last + 1, |trace|);
    ScanIsExact(trace, last + 1);
    assert !NoIdle(trace, last, last + 1);
  }

  function Known(e: Option<int>): int {
    match e
    case Some(v) => v
    case None => 0
  }

  /** The script's total: the energy of every interval, each widened at its start by `w` seconds. */
  function IntervalsEnergy(start: int, trace: seq<Slice>, intervals: seq<(int, int)>, w: nat): int {
    if intervals == [] then 0
    else
      var (begin, end) := intervals[|intervals| - 1];
      IntervalsEnergy(start, trace, intervals[..|intervals| - 1], w)
      + Known(EnergyWithin(start, trace, begin - 1000 * w, end, |trace|))
  }

  /** Active energy just before the runs, which a widened interval takes in as well. */
  function LeadEnergy(trace: seq<Slice>, runs: seq<(nat, nat)>, w: nat): int
    requires InRange(trace, runs)
  {
    if runs == [] then 0
    else
      var i := runs[|runs| - 1].0;
      LeadEnergy(trace, runs[..|runs| - 1], w) + RangeEnergy(trace, if w <= i then i - w else 0, i)
  }

  lemma {:induction false} RangeSplit(trace: seq<Slice>, a: nat, b: nat, c: nat)
    requires a <= b <= c <= |trace|
    ensures RangeEnergy(trace, a, c) == RangeEnergy(trace, a, b) + RangeEnergy(trace, b, c)
  {
    if b < c {
      RangeSplit(trace, a, b, c - 1);
    }
  }

  /** Summing over widened intervals gives the runs' energy plus what precedes each run within the widening;
      without widening it is exactly the runs' energy. */
  lemma {:induction false} IntervalsEnergyIs(start: int, trace: seq<Slice>, runs: seq<(nat, nat)>, w: nat)
    requires WellFormed(trace) && InRange(trace, runs)
    requires forall k :: 0 <= k < |runs| ==> IsRun(trace, runs[k].0, runs[k].1)
    ensures IntervalsEnergy(start, trace, Stamps(start, trace, runs), w)
         == RunsEnergy(trace, runs) + LeadEnergy(trace, runs, w)
    ensures w == 0 ==> LeadEnergy(trace, runs, w) == 0
  {
    if runs != [] {
      var n := |runs| - 1;
      IntervalsEnergyIs(start, trace, runs[..n], w);
      assert Stamps(start, trace, runs)[..n] == Stamps(start, trace, runs[..n]);
      WidenedRun(start, trace, runs[n].0, runs[n].1, w);
    }
  }

  lemma WidenedRun(start: int, trace: seq<Slice>, i: nat, j: nat, w: nat)
    requires WellFormed(trace) && IsRun(trace, i, j)
    ensures EnergyWithin(start, trace, Timestamp(start, trace[i]) - 1000 * w, Timestamp(start, trace[j]), |trace|)
      == Some(RangeEnergy(trace, i, j) + RangeEnergy(trace, if w <= i then i - w else 0, i))
  {
    WindowEnergy(start, trace, i, w, j, |trace|);
    RangeSplit(trace, if w <= i then i - w else 0, i, j + 1);
    assert RangeEnergy(trace, i, j + 1) == RangeEnergy(trace, i, j);
  }

  predicate NonNegativeEnergies(trace: seq<Slice>) {
    forall k :: 0 <= k < |trace| && IsActive(trace[k]) && trace[k].energy.Some? ==> 0 <= trace[k].energy.value
  }

  predicate TakesEnergy(s: Slice) { IsActive(s) && s.energy.Some? && s.energy.value != 0 }

  /** No slice at positions [a, b) takes energy. */
  predicate NoEnergyIn(trace: seq<Slice>, a: nat, b: nat)
    requires b <= |trace|
  {
    forall k :: a <= k < b ==> !TakesEnergy(trace[k])
  }

  /** No slice in the `w` seconds before the start of any run takes energy. */
  predicate NoEnergyBefore(trace: seq<Slice>, runs: seq<(nat, nat)>, w: nat)
    requires InRange(trace, runs)
  {
    forall k :: 0 <= k < |runs| ==> NoEnergyIn(trace, if w <= runs[k].0 then runs[k].0 - w else 0, runs[k].0)
  }

  lemma {:induction false} RangeIsZeroIff(trace: seq<Slice>, a: nat, b: nat)
    requires b <= |trace| && NonNegativeEnergies(trace)
    ensures 0 <= RangeEnergy(trace, a, b)
    ensures RangeEnergy(trace, a, b) == 0 <==> NoEnergyIn(trace, a, b)
  {
    if a < b {
      RangeIsZeroIff(trace, a, b - 1);
      assert NoEnergyIn(trace, a, b) <==> NoEnergyIn(trace, a, b - 1) && !TakesEnergy(trace[b - 1]);
    }
  }

  lemma {:induction false} LeadIsZeroIff(trace: seq<Slice>, runs: seq<(nat, nat)>, w: nat)
    requires InRange(trace, runs) && NonNegativeEnergies(trace)
    ensures 0 <= LeadEnergy(trace, runs, w)
    ensures LeadEnergy(trace, runs, w) == 0 <==> NoEnergyBefore(trace, runs, w)
  {
    if runs != [] {
      var n := |runs| - 1;
      LeadIsZeroIff(trace, runs[..n], w);
      RangeIsZeroIff(trace, if w <= runs[n].0 then runs[n].0 - w else 0, runs[n].0);
      assert forall k :: 0 <= k < n ==> runs[..n][k] == runs[k];
    }
  }

  /** The energies of the extracted intervals add up to the energy of exactly the slices in runs with idle on
      both sides; and, energies not being negative, widening them by `w` seconds as the script does never lowers that
      sum, and is harmless exactly when no slice in the `w` seconds before any run takes energy. */
  lemma IntervalsEnergyIsEnclosed(start: int, trace: seq<Slice>, first: nat, last: nat, w: nat)
    requires WellFormed(trace)
    requires first <= last < |trace| && IsIdle(trace[first]) && IsIdle(trace[last])
    requires NoIdle(trace, 0, first) && NoIdle(trace, last + 1, |trace|)
    ensures InRange(trace, ActiveRuns(trace))
    ensures var intervals := Stamps(start, trace, ActiveRuns(trace));
      && IntervalsEnergy(start, trace, intervals, 0) == RangeEnergy(trace, first, last)
      && (NonNegativeEnergies(trace) ==>
            && RangeEnergy(trace, first, last) <= IntervalsEnergy(start, trace, intervals, w)
            && (IntervalsEnergy(start, trace, intervals, w) == RangeEnergy(trace, first, last)
                <==> NoEnergyBefore(trace, ActiveRuns(trace), w)))
  {
    RunsHoldEnclosedEnergy(trace, first, last);
    ActiveRunsAreExact(trace);
    IntervalsEnergyIs(start, trace, ActiveRuns(trace), 0);
    IntervalsEnergyIs(start, trace, ActiveRuns(trace), w);
    if NonNegativeEnergies(trace) {
      LeadIsZeroIff(trace, ActiveRuns(trace), w);
    }
  }
}
