# libpowertutor: a verified model of the radio power tracker

This project models the 3G power tracking of libpowertutor and proves properties of it with Dafny 4.11.
`dafny verify dfyconfig.toml` checks everything.

The library infers the state (IDLE, FACH or DCH) of a phone's 3G radio from interface byte counters, once per
tick. The handset keeps several redundant ledgers about it; a server mirrors the radio from sparse reports by
replaying the same inactivity timeouts; a meter charges energy at most once per second; and an estimator
predicts, in closed form, what a future transfer will cost. The theorems say that these parts agree with each
other on every run.

Conventions. Times are whole microseconds (`TimeOps.dfy` proves that the second/microsecond arithmetic of the
source is exactly that), doubles are reals, ints are unbounded, conversion of a double to int is truncation.
A tick carries one clock value and one reading of every counter, each possibly failed. The clock never goes back,
which is what the source's time assertions demand; each locked region is one atomic step. A power model is any
parameter set with ordered powers and positive timers and thresholds; both concrete models are shown to be such
parameter sets.

The tracker, the WiFi sampler, the meter, the handset and the server are classes whose methods update fields and
arrays in place, as the source does. Each method is proved equal to a specification function on the values of the
fields (`TickMobile`, `TickWifi`, `TickMeter`, `TickHandset`, `TickMirror`, `Deliver`), written without the
source's order of updates. Runs (`Runs.dfy`) iterate `TickHandset` from a reset, and the theorems are about all
runs.

| file | content |
|---|---|
| Common.dfy, TimeOps.dfy | number conversions, product lemmas; timestamp arithmetic |
| Power.dfy, Models.dfy | power models, CPU coefficient table; the two concrete models |
| MobileTracker.dfy, WifiSampler.dfy, Meter.dfy, Handset.dfy | the handset |
| Server.dfy, Lockstep.dfy | the server and the two-party protocol |
| Runs.dfy, MeterRuns.dfy, ChargeRuns.dfy, WifiRuns.dfy | what every run keeps in the ledgers and charges |
| Histories.dfy | the tracker's samples, states, idle times and time fractions from a run's own history |
| Estimator.dfy, Tail.dfy, Prediction.dfy | the estimates against the tracker and the meter |
| PowerTrace.dfy | the evaluation script's trace, intervals and energies |
| Witnesses.dfy | runs and inputs on which the exact conditions fail; the concrete models meet theirs |

## Where the code differs from what it promises

- Splitting a truncation over two states can make a predicted promotion look cheaper than none, so that a longer
  queue lowers the estimate. `Estimator.EstimateMonotoneIff` gives the exact condition for every model, and
  `Estimator.CoveredIsMonotone` a condition on powers and timers alone; both concrete models meet it
  (`Witnesses.ModelsMeetConditions`), `Witnesses.LongerQueueLooksCheaper` is a model that does not.
- A reset whose clock reads less than one second is taken for an unset time, and the time before the first
  state change is lost. `Runs.TimeIsConserved` gives the exact condition, `MeterRuns.LedgersReconcile` what this does
  to the energy, `Witnesses.EarlyResetLosesTime` such a run.
- A failed counter reading leaves the last deltas in place and the meter charges those bytes again
  (`MeterRuns.FailedReadCountsAgain`, `Witnesses.UnreadTickRecounts`), and a sample less than a second after the last
  charge is not counted at all (`Witnesses.UnchargedSampleIsMissed`). `MeterRuns.BytesAreConserved` gives the exact
  balance and conditions.
- The server's mirror goes wrong in three ways. A reset of the handset does not reach the server, which may still show
  FACH or DCH (`Witnesses.ResetLeavesMirrorBehind`). A report caused by WiFi traffic alone can show unsampled mobile
  bytes, which the server takes for radio activity (`Witnesses.WifiReportMisleads`). And a failed counter reading
  skips the handset's timeouts but not the server's, or repeats the last deltas in such a report
  (`Witnesses.UnreadTickStalls`). `Lockstep.LockstepIff` shows that these are the only ways.
- The server drops a queue 1.5 s after the last activity, and its own fallback to FACH counts as one: with a DCH timer
  below 1.5 s a queue is kept longer (`Witnesses.QueueGrowsStale`). `Witnesses.QueuesStayFreshIff` gives the exact
  condition; both concrete models meet it.
- An activity less than a second after the last charge is not charged, and the tail that it starts is metered one
  second of DCH below its estimate. `Tail.TailIsEstimated` gives the exact condition, `Witnesses.TailStartsUncharged`
  such a run.
- The queue estimate counts the last sample's bytes again, so DCH is sometimes predicted in vain
  (`Witnesses.PredictedInVain`). `Prediction.PredictionIsSound` and `Prediction.AgreementIff` say exactly when.
- The evaluation script widens every interval by three seconds and can count the end of the previous one twice.
  `PowerTrace.IntervalsEnergyIsEnclosed` says exactly when it does not, `Witnesses.WideningCountsTwice` is a trace on
  which it does.

## Model

| member | source | states |
|---|---|---|
| TimeOps.TimerAdd | cpp_source/timeops.h:67-75 | addition into a third structure or into either operand is exact and normalized |
| TimeOps.TimeDiff | cpp_source/timeops.h:36-48 | difference is exact, non-negative and normalized, also into an operand |
| TimeOps.AdditionAndDifferenceUndo | cpp_source/timeops.h:36-75 | addition and difference undo each other on normalized times |
| TimeOps.SecondGates | cpp_source/libpowertutor.cpp:765 | the tests on whole seconds are tests on microseconds |
| TimeOps.AddUp | cpp_source/libpowertutor.cpp:400-407 | the summing loop, whose total is operand and result, is exact |
| Models.PowerModelFields.HtcDream | cpp_source/power_model.cpp:12-33 | the fields and the power array of the first model |
| Models.PowerModelFields.NexusOne | cpp_source/power_model.cpp:44-76 | the fields and the power array of the second model |
| Models.PowerModelFields.SetPowerStateCoeffs | cpp_source/power_model.h:66-74 | powers and array are set together and agree; nothing else changes |
| Models.PowerModelFields.PowerCoeff | cpp_source/power_model.h:27-29 | the array's entry for a state is the state's power field |
| Models.ModelsAreValid | cpp_source/power_model.cpp:12-76 | both models have ordered powers, positive timers and a sorted, non-decreasing table whose last coefficient is the pegged one |
| Power.CoeffDefined | cpp_source/power_model.cpp:122-138 | the assertion fails exactly for an empty table or a frequency above the last entry |
| Power.CoeffAtEntry | cpp_source/power_model.cpp:126-129 | at an entry the coefficient is the entry's |
| Power.CoeffBetweenNeighbours | cpp_source/power_model.cpp:131-148 | elsewhere it lies between the neighbouring entries, or is the first one |
| Power.CoeffIsLinear | cpp_source/power_model.cpp:131-148 | between neighbouring entries coefficient differences are proportional to frequency differences |
| Power.CoeffMonotone | cpp_source/power_model.cpp:119-149 | a higher frequency never has a lower coefficient |
| MobileTracker.Tracker.Reset | cpp_source/libpowertutor.cpp:1292-1311 | every tracker field after a reset |
| MobileTracker.Tracker.Promote | cpp_source/libpowertutor.cpp:781-806 | the loop and the strict second test together set DCH exactly when it was DCH or a delta reaches its threshold, else FACH; the change flag is true exactly when the state differs |
| MobileTracker.Tracker.Expire | cpp_source/libpowertutor.cpp:811-845 | an expired timer lowers the state by one and the fallback to FACH counts as activity |
| MobileTracker.Tracker.RecordStateChange | cpp_source/libpowertutor.cpp:847-860 | the time since the last change goes to the state that was left, unless that time is unset |
| MobileTracker.Tracker.UpdateMobileState | cpp_source/libpowertutor.cpp:746-880 | one tick takes all fields and arrays to the specified next value and raises the callback flag exactly on traffic |
| MobileTracker.Tracker.GetMobileQueueLen | cpp_source/libpowertutor.cpp:175-221 | on the handset the queue estimate is the last deltas plus what arrived since |
| Server.RemoteModel.GetMobileQueueLen | cpp_source/libpowertutor.cpp:164-173 | on the server it is the queue that the mirror holds |
| MobileTracker.Tracker.TimeFractionInState | cpp_source/libpowertutor.cpp:391-439 | the loop computes the state's share of all time, the running time included |
| Runs.StateChangeIsRecorded | cpp_source/libpowertutor.cpp:755-860 | a tick that changes the state credits the elapsed time and restarts the state clock, and no other tick touches either |
| Runs.TimeIsConserved | cpp_source/libpowertutor.cpp:847-860 | on any schedule the per-state times sum to 1 s plus last change minus reset, exactly when the reset clock shows 1 s or nothing changed |
| Runs.FractionsAreShares | cpp_source/libpowertutor.cpp:391-439 | on any run and at any later time the fractions lie in [0,1] and sum to 1 |
| Histories.TimeFractionIs | cpp_source/libpowertutor.cpp:391-439 | at any moment of any run a state's fraction times the time since the reset is the time the run spent in that state, IDLE less what an early reset lost |
| Histories.IdleLedgerHolds | cpp_source/libpowertutor.cpp:872-873 | on every run a state's idle sum is the idle times summed over the successful ticks that end in it, and its count is one more than those ticks |
| Histories.AverageIdleIs | cpp_source/libpowertutor.cpp:441-457 | a state's average idle time times that count is that sum |
| Histories.RadioSamplesAre | cpp_source/libpowertutor.cpp:758-816 | on every run the last sample, its counters and the last deltas are those of the inputs; no two samples are less than a second apart |
| Histories.RadioFollowsTraffic | cpp_source/libpowertutor.cpp:762-845 | on every run traffic wakes the radio and raises it to DCH exactly at a threshold, expired timers lower it, and nothing else changes state or last activity |
| Runs.TimersNeverOverrun | cpp_source/libpowertutor.cpp:818-873 | after every successful tick DCH and FACH have been idle for less than their timers, whatever the gaps |
| Runs.AverageIdleBelowTimers | cpp_source/libpowertutor.cpp:344-456 | average idle times of the active states are below their timers, so the clamps have no effect |
| Runs.NeverDchToIdle | cpp_source/libpowertutor.cpp:821-844 | no tick goes from DCH to IDLE |
| Runs.IdleOnlyAfterBothTimers | cpp_source/libpowertutor.cpp:811-845 | on any run, IDLE is not reached before both timers have run since the last traffic in DCH |
| Tail.RunReachesIdle | cpp_source/libpowertutor.cpp:811-845 | on any run, once traffic stops in DCH and with ticks at most p apart, IDLE comes no earlier than both timers after the last DCH traffic and no later than at the first tick p after that |
| Handset.Handset.UpdateEnergyStats | cpp_source/libpowertutor.cpp:940-972 | one tick samples WiFi, then tracks the radio, then charges, and reports state, queues and packet rate exactly when the callback is registered and fired |
| Handset.Handset.RegisterMobileActivityCallback | cpp_source/libpowertutor.cpp:1458-1465 | registration changes only whether reports are sent |
| Handset.Handset.ResetStats | cpp_source/libpowertutor.cpp:1283-1332 | a reset assigns every field but the CPU totals and the callback, and ends with a tick |
| Server.RemoteModel.UpdateRemotePowerModel | cpp_source/libpowertutor.cpp:884-923 | the server's tick: same timeouts, stale queue data dropped after 1.5 s |
| Server.RemoteModel.ReportRemoteMobileActivity | cpp_source/libpowertutor.cpp:1467-1480 | a report replaces the state and is activity exactly when its queues are not empty |
| Lockstep.StepKeepsLockstep | cpp_source/libpowertutor.cpp:884-965 | one shared tick, its reading failed or not, keeps handset and server in step exactly when its report does not mislead and its failed reading does not stall the handset |
| Lockstep.LockstepIff | cpp_source/libpowertutor.cpp:746-965 | on any schedule, with any failed readings and whatever the server's fields at the handset's reset, both agree after every tick exactly when the server's mirror was IDLE at the reset, no report misleads and no failed reading stalls |
| Lockstep.ServerMirrorsHandset | cpp_source/libpowertutor.cpp:831-965 | with ticks at least 1 s apart, growing counters and a registered callback, the server has the handset's state after every tick and, outside IDLE, its last activity, exactly when its mirror was IDLE at the reset and no failed reading stalls; so always from a server without reports and with successful reads |
| Lockstep.MirrorQueueIsFresh | cpp_source/libpowertutor.cpp:884-917 | if the DCH timer is at least 1.5 s (to the microsecond), on every run a positive queue on the server arrived less than 1.5 s ago |
| Lockstep.MirrorQueueIsRecent | cpp_source/libpowertutor.cpp:908-917 | on every model and run the server's last activity is less than 1.5 s old while its queue is positive |
| Lockstep.ServerShows | cpp_source/libpowertutor.cpp:908-917 | on every run the server shows what a tick's report delivered, if any; otherwise queue and packet rate are zero if 1.5 s had passed since its last activity, and unchanged if not |
| Lockstep.PacketRateIsRecent | cpp_source/libpowertutor.cpp:908-917 | a positive packet rate was reported at this tick, or the server's last activity is less than 1.5 s ago |
| Lockstep.ReportIs | cpp_source/libpowertutor.cpp:952-962 | on every run reports are sent exactly at traffic or when WiFi is worth it, and show the state, the packet rates and the bytes since the last sample |
| Witnesses.QueueGrowsStale | cpp_source/libpowertutor.cpp:884-917 | with a shorter DCH timer, a run whose queue is kept for almost 3 s |
| Witnesses.QueuesStayFreshIff | cpp_source/libpowertutor.cpp:884-917 | no run keeps a positive queue for 1.5 s exactly when the DCH timer is at least that, to the microsecond |
| Witnesses.ResetLeavesMirrorBehind | cpp_source/libpowertutor.cpp:1283-1332 | a reset while the server shows DCH puts the parties out of step, with no misleading report and no stall |
| WifiSampler.Sampler.UpdateEstimatedRates | cpp_source/libpowertutor.cpp:698-744 | one tick takes rates and counts to their next values, at most once a second, and fires above 5 packets per second |
| WifiSampler.CalcRates | cpp_source/libpowertutor.cpp:538-544 | each rate is the rounded-up increase per second |
| WifiSampler.RateCoversArrivals | cpp_source/libpowertutor.cpp:538-544 | rate times interval is at least the increase and less than it plus the interval |
| WifiSampler.PacketsIsLeastCover | cpp_source/libpowertutor.cpp:1084-1091 | the packet count is the least number of full payloads that holds the data |
| WifiSampler.WifiCostMonotone | cpp_source/libpowertutor.cpp:1250-1269 | the WiFi estimate grows with data and round trip and falls with bandwidth, across the jump to high power |
| WifiSampler.WifiCostIs | cpp_source/libpowertutor.cpp:1250-1269 | the WiFi estimate is the least whole seconds that hold transfer and round trip, each at high power exactly if the data's packets lift the rate above the threshold |
| WifiSampler.ComponentFollowsRate | cpp_source/libpowertutor.cpp:1268 | the high-power component is 6.528 mW per Mbit/s of the uplink rate, up to two truncations, and zero on the server |
| WifiRuns.SentinelHolds | cpp_source/libpowertutor.cpp:716-723 | the assertion on unset values holds on every run |
| WifiRuns.ChannelSamplesAre | cpp_source/libpowertutor.cpp:698-734 | on every run the sampled counts and their time are those of the inputs; no two samples are less than a second apart |
| WifiRuns.RatesAre | cpp_source/libpowertutor.cpp:538-544 | on every run each rate is what arrived per second between the last two samples, rounded up |
| WifiRuns.ReportsFollowPackets | cpp_source/libpowertutor.cpp:736-741 | a sample of more than 5 packets per second is worth a report, one of at most 4 is not |
| WifiRuns.RatesCoverArrivals | cpp_source/libpowertutor.cpp:698-744 | over any run, rates times intervals cover what arrived after the baseline by less than the time sampled |
| Meter.MeterBox.UpdateConsumptionStats | cpp_source/libpowertutor.cpp:1370-1416 | at most one charge per second, adding exactly WiFi plus radio, CPU, and their sum, and the last deltas |
| Meter.MeterBox.GetAndUpdateCpuUtilization | cpp_source/libpowertutor.cpp:1138-1202 | utilization since the last reading, which it replaces |
| Meter.UtilizationIsPercentage | cpp_source/libpowertutor.cpp:1178-1201 | utilization lies in [0,100] if unused CPU time never falls |
| ChargeRuns.ChargesAre | cpp_source/libpowertutor.cpp:1374-1380 | on every run the charged ticks are those a second or more after the last charged one |
| ChargeRuns.CpuTotalsAre | cpp_source/libpowertutor.cpp:1194-1197 | on every run the meter's CPU totals are those of the last charged tick that could read them, or those carried over the reset |
| ChargeRuns.UtilizationIs | cpp_source/libpowertutor.cpp:1178-1201 | the utilization is 100 times busy over elapsed CPU time, at least one jiffy, and never negative |
| ChargeRuns.BusyTimeIsConserved | cpp_source/libpowertutor.cpp:1138-1202 | on every run whose counters advance, the charged utilizations times the times they stand for add up to the busy time between first and last totals |
| ChargeRuns.CpuIsCharged | cpp_source/libpowertutor.cpp:1396-1399 | on every run a charge adds the coefficient of the current frequency times the utilization since the last counted reading, truncated |
| ChargeRuns.PeggedSecondIsCharged | cpp_source/power_model.h:35-39 | at full utilization and top frequency a charge is the pegged estimate for one second |
| ChargeRuns.WifiIsCharged | cpp_source/libpowertutor.cpp:1385-1394 | on every run a charge adds low WiFi power exactly at packet rates up to the threshold, else the high power and 6.528 mW per Mbit/s |
| ChargeRuns.AveragePowerIs | cpp_source/libpowertutor.cpp:1443-1455 | on every run a component's average power times the seconds since the reset is its energy, up to one truncation |
| MeterRuns.BytesAreConserved | cpp_source/libpowertutor.cpp:765-816 | on any schedule the bytes metered are those gained plus those recounted minus those missed; with successful reads none is counted twice, and all are counted exactly when no sample was left uncharged; with ticks 1 s apart the total is exact exactly when no failed reading was charged while deltas were pending |
| MeterRuns.FailedReadCountsAgain | cpp_source/libpowertutor.cpp:1412-1413 | a failed read before a charge counts the pending deltas again |
| MeterRuns.EnergyLedgerHolds | cpp_source/libpowertutor.cpp:1370-1416 | the overall total is CPU plus networking, networking is radio plus WiFi, and there is at most one charge per whole second since reset |
| MeterRuns.TotalsNeverFall | cpp_source/libpowertutor.cpp:1382-1411 | between resets no total falls |
| MeterRuns.AveragePowerAtMostLargestCharge | cpp_source/libpowertutor.cpp:1443-1455 | no component's average power ever exceeds the largest charge to it for one second |
| MeterRuns.CpuEnergyAtMostPeggedEstimate | cpp_source/power_model.h:35-39 | the CPU energy of any run is at most the pegged estimate for the elapsed time |
| MeterRuns.LedgersReconcile | cpp_source/libpowertutor.cpp:847-860 | with a tick every second the radio energy charged is power times time per state plus the current second, minus two IDLE seconds, plus IDLE power for lost time; so without that exactly when no time was lost or IDLE power is zero |
| Estimator.EstimateIsMarginalEnergy | cpp_source/libpowertutor.cpp:267-382 | in all cases the estimate is the energy that the transfer, which takes the time the bandwidth needs for data and 52 bytes of headers plus the round trip, adds to the timeout automaton's run, truncated by less than 2 mJ |
| Estimator.EstimateMonotone | cpp_source/libpowertutor.cpp:267-382 | on models where no transfer loses a millijoule by promoting, the estimate grows with data, round trip, queues and idle time and falls with bandwidth, across promotion and truncation |
| Estimator.EstimateMonotoneIff | cpp_source/libpowertutor.cpp:267-382 | on every model the estimates are monotone in all inputs exactly when no transfer that fits FACH completes, with a part of the FACH tail, a whole millijoule that it does not reach in DCH |
| Estimator.CoveredIsMonotone | cpp_source/libpowertutor.cpp:267-382 | it suffices that the DCH tail covers the lost millijoule or the headers reach a threshold, and if the FACH tail holds a millijoule that is necessary too |
| Estimator.PromotionIff | cpp_source/libpowertutor.cpp:337-361 | over arbitrary transfer times, the five-case cost of promoting from FACH is never below that of staying exactly when the DCH tail covers the lost millijoule |
| Witnesses.ModelsMeetConditions | cpp_source/power_model.cpp:17-23 | on both concrete models the DCH tail covers the lost millijoule and the DCH timer exceeds the queue's timeout |
| Witnesses.LongerQueueLooksCheaper | cpp_source/libpowertutor.cpp:337-361 | a model and inputs for which a longer queue lowers the estimate from 1 mJ to 0 |
| Estimator.CostFallsWithState | cpp_source/libpowertutor.cpp:320-373 | the cost from IDLE is at least that from FACH, and from FACH at least that from DCH when promoting |
| Estimator.EstimateAverage | cpp_source/libpowertutor.cpp:459-482 | the loop computes the truncated sum of the costs weighted by time fractions |
| Estimator.AverageIsBetween | cpp_source/libpowertutor.cpp:459-482 | on every run the average lies between the smallest and largest per-state cost |
| Histories.AverageIsWeightedByTime | cpp_source/libpowertutor.cpp:459-482 | on every run the average is the truncated mean of the costs from the three states, each after its average idle time, weighted by the time the run spent in that state |
| Tail.TrackerRefinesAutomaton | cpp_source/libpowertutor.cpp:818-844 | polling at most p apart spends between the exact automaton's energy and one gap per remaining state more |
| Tail.WholeTailCost | cpp_source/libpowertutor.cpp:321-330 | a whole tail costs at least the zero-length IDLE-to-DCH estimate and at most a gap in each state more |
| Tail.TailIsMetered | cpp_source/libpowertutor.cpp:1393-1394 | with 1 s ticks, from any activity that leaves the radio in DCH, the radio is in DCH for the DCH timer's ticks (rounded up), in FACH for the FACH timer's, then IDLE, and every tick after the first is charged so |
| Tail.TailIsEstimated | cpp_source/libpowertutor.cpp:321-330 | on any run, what is charged in FACH and DCH for such a tail with whole-second timers, once it is over, is the estimator's cost of a zero-length promotion exactly when its first tick was charged or DCH power is zero, and one second of DCH less otherwise |
| Prediction.RunsSampleTransfers | cpp_source/libpowertutor.cpp:765-816 | every run with growing counters satisfies what the next results assume of the tracker |
| Prediction.PredictionIsSound | cpp_source/libpowertutor.cpp:283-306 | for transfers in either direction the tracker reaches DCH only if predicted, and a prediction is vain exactly when the recounted last deltas decided it |
| Prediction.ServerPredictionIsSound | cpp_source/libpowertutor.cpp:224-236 | on every run, right after a report, so are the server's predictions from its mirror's state and queues |
| Prediction.AgreementIff | cpp_source/libpowertutor.cpp:161-236 | prediction and tracker agree for every transfer exactly when every transfer is tracked in DCH or the last deltas cannot tip a threshold |
| PowerTrace.LoadTrace | cpp_source/tests/evaluate_estimation_results.py:20-41 | loading fails exactly on a slice number that is not its rank or a missing start time, and drops the last slice |
| PowerTrace.RenderRoundTrip | cpp_source/tests/evaluate_estimation_results.py:20-41 | loading a written trace gives its start time and its slices but the last exactly when they are numbered by rank, and fails otherwise |
| PowerTrace.SlicesAreNumbered | cpp_source/tests/evaluate_estimation_results.py:31-35 | the slice at each position begins at that second |
| PowerTrace.HeadersSnoc | cpp_source/tests/evaluate_estimation_results.py:25-35 | the last start time counts, and each slice must carry the number of slices before it |
| PowerTrace.LineSets | cpp_source/tests/evaluate_estimation_results.py:28-39 | a begin line opens a slice, a state or energy line sets that field of the open one, the last value counting |
| PowerTrace.GetMobileActiveIntervals | cpp_source/tests/evaluate_estimation_results.py:114-142 | the loop returns the time stamps of the active runs |
| PowerTrace.IntervalsAreAt | cpp_source/tests/evaluate_estimation_results.py:126-138 | the intervals are those runs in milliseconds from the trace's start, a second a slice |
| PowerTrace.ActiveRunsAreExact | cpp_source/tests/evaluate_estimation_results.py:114-142 | the runs are ordered, disjoint, and exactly the maximal non-IDLE runs with IDLE on both sides |
| PowerTrace.TotalMobileEnergy | cpp_source/tests/evaluate_estimation_results.py:99-112 | energy of the active slices in the window, an error if one lacks its energy |
| PowerTrace.EnergyOfWindow | cpp_source/tests/evaluate_estimation_results.py:99-112 | a window in milliseconds holds the energy of exactly the active slices whose seconds lie in it, ends included |
| PowerTrace.EnergyIsMissingIff | cpp_source/tests/evaluate_estimation_results.py:99-112 | the total is an error exactly if an active slice in the window lacks its energy |
| PowerTrace.IntervalsEnergyIsEnclosed | cpp_source/tests/evaluate_estimation_results.py:239-251 | the intervals' energies sum to that of exactly the slices in the runs; energies not being negative, widening never lowers that, and is harmless exactly when no slice within it before a run takes energy |
| Witnesses.WideningCountsTwice | cpp_source/tests/evaluate_estimation_results.py:239-251 | a trace of two activities a second apart for which the widened energies sum to more |
| Witnesses.PredictedInVain | cpp_source/libpowertutor.cpp:161-222 | a run after which an empty transfer is predicted to reach DCH and stays in FACH |
| Witnesses.EarlyResetLosesTime | cpp_source/libpowertutor.cpp:851-860 | a run after a reset below one second whose time ledger falls short |
| Witnesses.WifiReportMisleads | cpp_source/libpowertutor.cpp:952-962 | a run whose WiFi report puts the server out of step |
| Witnesses.UnreadTickStalls | cpp_source/libpowertutor.cpp:750-753 | a run whose failed reading puts the server out of step |
| Witnesses.UnreadTickRecounts | cpp_source/libpowertutor.cpp:750-753 | a run whose failed reading makes the meter count more bytes than arrived |
| Witnesses.TailStartsUncharged | cpp_source/libpowertutor.cpp:1370-1380 | a run whose tail starts less than a second after a charge |
| Witnesses.UnchargedSampleIsMissed | cpp_source/libpowertutor.cpp:1370-1413 | on that run the sample's bytes are not counted |

## Left out

- Reading /proc/net/dev, /proc/stat and cpufreq, and the mocked counters: counters and frequencies are inputs.
- Mutexes, the update thread, its condition variable, library start-up and shutdown: each locked region is atomic.
- The fields' static values before the first reset: objects start with the values a reset assigns.
- The wpa_supplicant calls in wifi.cpp and wifi.h, logging, JNI wrappers and Java classes.
- Scripts that drive a phone, socket-driven tests, and the log parsing of PredictionTest.
- IEEE rounding and machine integer overflow: reals and unbounded integers; bandwidth is positive, sizes and queues
  are not negative.
- Clock drift between reads inside one tick, and delayed, lost or reordered reports.
- average_power_consumption_since_reset at the instant of the reset: the source divides by zero, the model has no value.
- The tracker's times are microsecond counts, not second/microsecond structures; TimeOps shows the two agree.
- Tail.TailIsEstimated: stated for whole-second timers, which both concrete models have; with others the meter charges
  whole seconds and the estimate does not.
- A line of the power trace whose first word overwrites the slice number is not modelled.
