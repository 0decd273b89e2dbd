# Scoring and fixing in mod.chanfix

This project models the engine of the chanfix IRC service and proves what it keeps, over whole runs. The service
watches the ops of every channel, gives each opped account a point every five minutes, and hands ops back to the best
scored clients when a channel has lost its ops (an automatic fix) or when somebody asks for it (a manual fix).

The parts, bottom up:

- `Config.dfy`, `Sets.dfy`: the constants of `chanfix_config.h`, C++ integer conversions, and picking keys of a map.
- `ChanOps.dfy`: the score record, a ring of fourteen daily slots with a cached total, as a value and as an object.
- `Ranking.dfy`: the ordered list of a channel's accounts (`getMyOps`).
- `Threshold.dfy`: the minimum score, which falls while a fix goes on.
- `Chooser.dfy`: which clients of a channel get ops.
- `Simulation.dfy`: the rounds of a simulated fix and what they pick.
- `TopOps.dfy`: who may ask for a fix (CANFIX and REQUESTOP).
- `Slices.dfy`: what each event does to one channel: its record, its queue entries, its temporary block, its score
  table and its image on the network. No event lets one channel's slice influence another's.
- `Engine.dfy`: the service object with its containers, updated in place by loops that walk and erase. Every method is
  proved to act on every channel's slice as `Slices.dfy` says; `Handle` states this for every event.
- `Runs.dfy`, `Reachable.dfy`: whole runs. A run is any sequence of events, each with its time and with the settings
  in force, as SET and REHASH may change them. The server settings, which decide about a split, change with events of
  their own: SET NUMSERVERS checks the network, REHASH does not. Queue invariants, attempt times, the end of every
  fix, and split safety.
- `Fixes.dfy`: what one attempt achieves, when it is complete, its dry run, the documented score floor, and
  eligibility over time.
- `Effects.dfy`: what each operation does to a channel, as conditions on the state before it and the facts of the state
  after it.
- `Scoring.dfy`, `RingLog.dfy`: award rounds, and the rings as a sliding window over the log of all awards.
- `Persist.dfy`: saving the scores as rows and loading them again.
- `AuthMap.dfy`: the index from accounts to live clients.
- `Service.dfy`: the object serving any series of events; each channel goes through a run of its own trace, so that
  what is proved of runs holds of the object.

Assumptions. Channel, account and client names are canonical integers, with 0 for "not logged in"; this replaces the
case-insensitive comparison. The interpolations of the minimum score and the percentages are exact rational arithmetic
truncated toward zero where the program uses `float`. Time is an input, held constant within one event; runs start at
least a day after the epoch. A failing or succeeding SQL statement is an input (`sqlOk`, and `sqlFails` for the rows
of a rotation), and so is the time of the last fix that REQUESTOP reads from the notes. The value of an undefined
conversion to `int` in CANFIX and REQUESTOP is an input (`nan`); the two are compared where the conversions are
defined (`Convertible`). A roster lists distinct clients. A manual fix deops everybody and lifts the modes, whether by
burst or by a mode change. The window theorem `RingRefinesLog` assumes one rotation on every calendar day and at most
288 award rounds between two rotations; it counts days as the service does, from rotation to rotation. These are
calendar days (`RingRefinesCalendar`) if in addition every award comes after the rotation of its day. Nothing in the
code ensures that: both timers are armed to the second, and the points timer is registered first
(chanfix.cc:2857-2860), so at midnight an award may go to yesterday's slot (`AwardExactlyOnItsDay`). `nextFix` has no
value before the first pass over the queues; the model leaves it open.

Where the code and its documentation disagree, the model follows the code:

- doc/OPLOGIC:63-67 promises that nobody below min_score, given as 162, or below 30% of the channel's top score is
  ever opped. `FloorLawExact` says exactly when: in attempts up to 3590 seconds into a fix. In the last ten seconds of
  the window the bar, truncated to an integer, may be below both (164 of a top score of 547; `WindowEndBelowMinScore`:
  161 of 500). And `processQueue` tries a due channel before it looks at the window, so an ordinary last attempt comes
  up to an interval after it and falls below even the rounded floor (`RoundedFloorLawExact`; `LastAttemptIsLate` shows
  two ordinary passes). What a fix does keep over a whole run is the bar of its
  latest possible attempt, an interval after its window (`RunFloor`). If it was queued with an old start, as CHANFIX
  OVERRIDE does with a fix that it takes over, the time since that start counts too; a start left behind long ago
  leaves no floor at all (`StaleStartNoFloor`).
- doc/OPLOGIC:19-22 promises of the first attempt at least 90% of the channel's top score and at least 40% of the
  maximum; the constant in the code is 20%. Neither percentage holds for all channels, because the bar is truncated
  and lowered to the top score (`FirstAttemptOpsTop`: 500 points, 12%). `FirstFloorLawExact` says for which top scores
  the promise is kept: for an automatic fix, multiples of ten from 1800 on (from 900 on with 20%); for a manual one,
  1783 and more (807 and more). The worked example of doc/OPLOGIC:33-47 is not met either (`WorkedExample`): after 20
  minutes the bar is 1680 where it gives 1728, and scores below 800 are kept out for 3400 seconds only.
- doc/OPLOGIC:54-58 says that a fix is complete once everybody on a small channel has ops, or once somebody has ops
  and no one else qualifies. The first holds for automatic fixes of fixable channels only
  (`EverybodyOppedExact`). In the second state the code takes an automatic fix for complete exactly when everybody on
  the channel is opped, and a manual one never (`DocumentedEndExact`). `DocumentedEndFails` shows passes that leave
  such channels queued; `FixedExactly` covers all states.
- doc/FAQ.ADMIN:30-31 says that nothing is scored while too few servers are linked. `giveAllOpsPoints` does not look
  at the state of the service (`SplitScoresAnyway`): a round scores nothing exactly when the channel is not scorable
  or no opped account on it is or can become tracked, whatever that state is (`RoundIdleExactly`).

Other behaviour that the proofs bring out: a queued channel that is gone from the network when it is processed leaves
its attempt times behind for its next fix (`LeavingResets`); BLOCK does not dequeue a channel that is not on the
network (`BlockExact`); after its first round the simulation samples only past the fix window, because its window test
is reversed (`LaterRoundsAreLate`); a quit by a client that was never announced erases past the end of a list
(`QuitDefinedExactly`); a rotation on any day but the next breaks the fourteen-day window (`RotationExactlyDaily`);
and a REHASH that asks for more servers than are linked leaves the service in RUN until the next link change
(`RehashExact`, `RehashUnnoticed`).

## Model

| member | source | states |
|---|---|---|
| Threshold.BarExact | chanfix.cc:2340-2380 | at any moment a score meets the bar iff it is the top score, or reaches both bounds, which fall from 20% to 4% of 4032 and from 90% to 30% of the top by the same amount every second |
| Threshold.MinScoreAntitone | chanfix.cc:2340-2380 | the longer a fix goes on, the lower (or equal) the minimum score |
| Threshold.FloorExact | chanfix.cc:2317-2380 | the minimum score stays at or above 162 and 30% of the top, without rounding, for every fixable channel iff at most 3590 seconds have elapsed |
| Threshold.RoundedFloorExact | chanfix.cc:2317-2380 | it stays at or above 161 and the truncated 30% of the top iff the elapsed time is within the window |
| Threshold.FirstFloorExact | chanfix.cc:2343-2380 | the minimum score of a first attempt keeps 90% of the top and 40% (or 20%) of the maximum iff the top score is high enough and, for an automatic fix, a multiple of ten |
| Threshold.WorkedExample | chanfix.cc:2343-2380 | for a top score of 2400 the bar starts at 2160, is 1680 after 20 minutes, and at least 800 iff at most 3400 seconds have elapsed |
| Threshold.WindowBounds | chanfix.cc:2366-2380 | within the window a score that meets the bar is at least 161 and the truncated 30% of the top, and the bar never exceeds the top score |
| ChanOps.SumUpdate | sqlChanOp.cc:77-84 | a changed slot shifts the total by the difference |
| ChanOps.ShortExact | sqlChanOp.h:95-96 | conversion to short gives the one short that differs by a multiple of 65536 |
| ChanOps.ChanOp.constructor | sqlChanOp.cc:41-51 | a new record has fourteen empty slots |
| ChanOps.ChanOp.CalcTotalPoints | sqlChanOp.cc:77-84 | the loop leaves the sum of all slots in the cached total and changes nothing else |
| ChanOps.ChanOp.SetDay | sqlChanOp.h:95-96 | writes one slot, as a short, and leaves the total stale |
| ChanOps.ChanOp.SetPoints | sqlChanOp.h:80-81 | sets today's slot and refreshes the total |
| ChanOps.ChanOp.AddPoint | sqlChanOp.h:83-84 | adds one to today's slot, as a short, and refreshes the total |
| ChanOps.ChanOp.SetAllMembers | sqlChanOp.cc:53-75 | takes every field of a row and computes the total afresh |
| Ranking.GetMyOps | chanfix.cc:1561-1579 | returns the one ranking of the channel's records |
| Ranking.MyOpsIsRanking | chanfix.cc:1566-1578 | the ranking lists every account exactly once with its total, best first |
| Ranking.MyOpsOrder | chanfix_misc.h:36-38 | of two accounts the first has more points, or as many and comes first in the map |
| Ranking.RankingUnique | chanfix_misc.h:36-38 | points in descending order, ties in account order: there is only one such list |
| Ranking.TopIsMaximum | chanfix.cc:2310-2311 | the front of the ranking holds the channel's top score |
| Chooser.FindAccountLoop | chanfix.cc:2499-2509 | collects an account's clients on the channel |
| Chooser.FindAccountExact | chanfix.cc:2502-2506 | a client is found iff it is on the channel with that account |
| Chooser.FindAccountFirst | chanfix.cc:2499-2509 | the client found first is the account's first on the channel |
| Chooser.CountChanOps | chanfix.cc:2597-2612 | counts the opped clients |
| Chooser.CanScoreChan | chanfix.cc:2632-2644 | true iff no service client is on the channel |
| Chooser.PickUnopped | chanfix.cc:2404-2429 | the inner loop takes an account's unopped clients until the cap is reached |
| Chooser.DecideOps | chanfix.cc:2391-2434 | the nested loops with their early exits take the first candidates that fit under the cap |
| Chooser.CandidatesAreEligible | chanfix.cc:2398-2434 | the candidates are exactly the unopped clients on the channel whose account meets the bar, each once |
| Chooser.GreedyChoice | chanfix.cc:2398-2434 | as many clients as are eligible and fit, distinct, all eligible, and nobody passed over for a lower score |
| Chooser.OpUsersCount | chanfix.cc:2449-2450 | opping the chosen clients adds exactly their number of ops |
| TopOps.CanFix | CANFIXCommand.cc:43-157 | who may see the list, and exactly the lines that are printed |
| TopOps.AcceptedExact | CANFIXCommand.cc:130-146 | an account is printed iff a record of it passes the test |
| TopOps.AcceptedMeans | CANFIXCommand.cc:138-141 | the test asks to be within topOpPercent of the top score and to reach minFixScore |
| TopOps.HighScore | REQUESTOPCommand.cc:45-86 | the loops decide whether the asker has a high score, in unsigned arithmetic |
| TopOps.TestsAgree | REQUESTOPCommand.cc:78-81 | the unsigned test of REQUESTOP and the signed test of CANFIX agree on every total, where the conversions are defined and the top score is positive |
| TopOps.NegativeRejected | REQUESTOPCommand.cc:78-81 | CANFIX rejects every negative total, and so does REQUESTOP where its conversion is defined |
| TopOps.CanFixAgreesWithRequestOp | CANFIXCommand.cc:130-146 | REQUESTOP accepts exactly the accounts that CANFIX prints, if such fixes are allowed at all |
| TopOps.HighScoresAreUpward | REQUESTOPCommand.cc:73-85 | accepted accounts are closed under higher scores; the top scorer is accepted iff it reaches minFixScore |
| Engine.Chanfix.GetOrNewRecord | chanfix.cc:2552-2585 | finds a channel's record or creates an empty one, and changes no other channel |
| Engine.Chanfix.FixChan | chanfix.cc:2298-2465 | one attempt on a channel: stamps, early exits, selection, mode changes, result |
| Engine.Chanfix.Conclude | chanfix.cc:2436-2464 | an automatic attempt that finds nobody lifts the modes once; otherwise the chosen are opped and completeness is reported |
| Engine.BarFor | chanfix.cc:2343-2380 | computes the minimum score, which never exceeds the top score: the test maxScore < min_score is never true |
| Engine.Chanfix.ShouldCJoin | chanfix.cc:2200-2296 | the dry run's loops decide whether the cap would be reached, and change nothing that fixing reads |
| Engine.ReachesCap | chanfix.cc:2266-2293 | the counting loops stop early iff there are enough candidates |
| Engine.Chanfix.WalkQueue | chanfix.cc:2654-2689 | walking a queue while erasing entries processes every due channel exactly once |
| Engine.Chanfix.SettleEntry | chanfix.cc:2668-2687 | a fixed or expired entry leaves the queue, its times reset only if the channel exists; others are due an interval later |
| Engine.Chanfix.ProcessQueue | chanfix.cc:2646-2729 | a pass over both queues, only in RUN |
| Engine.Chanfix.AutoFix | chanfix.cc:1853-1928 | the scan queues exactly the opless, scored, unblocked channels |
| Engine.LooksOpless | chanfix.cc:1885-1897 | the loop with its early exit: nobody opped and no service client |
| Engine.Chanfix.StartManualFix | chanfix.cc:1930-1980 | deops everybody, lifts the modes and queues the channel for the delayed first attempt |
| Engine.Chanfix.StopFixingChan | chanfix.cc:2467-2497 | takes the channel out of the queues the settings allow and resets its times |
| Engine.Chanfix.CommandChanfix | CHANFIXCommand.cc:70-203 | the guard sequence of CHANFIX, with removal from the automatic queue on override |
| Engine.Chanfix.CommandRequestOp | REQUESTOPCommand.cc:41-240 | the guard sequence of REQUESTOP |
| Engine.Chanfix.CommandBlock | BLOCKCommand.cc:43-115 | sets the flag and aborts fixes in progress on an existing channel |
| Engine.Chanfix.CommandUnblock | UNBLOCKCommand.cc:42-79 | clears the flag |
| Engine.Chanfix.CommandAlert | ALERTCommand.cc:42-72 | sets or clears the alert flag |
| Engine.Chanfix.CommandSimulate | SIMULATECommand.cc:62-162 | SIMULATE reports the rounds of a whole simulated day, up to the first success, and leaves only the record with its top score |
| Engine.Chanfix.GotOpped | chanfix.cc:1693-1714 | starts or refreshes a record, within the cap of 256 and only with the channel service for new channels |
| Engine.Chanfix.GivePoints | chanfix.cc:1669-1691 | one point for an account, if it may be tracked |
| Engine.Chanfix.ScoreChannel | chanfix.cc:3234-3252 | one channel's share of an award round |
| Engine.Chanfix.GiveAllOpsPoints | chanfix.cc:3225-3256 | an award round over all channels that are not being fixed |
| Engine.RotateTable | chanfix.cc:3170-3183 | the inner loop clears one slot of every record and erases the records not to be kept |
| Engine.Chanfix.RotateChannel | chanfix.cc:3170-3212 | an emptied channel's record goes unless it has flags or its database row was deleted |
| Engine.Chanfix.RotateDB | chanfix.cc:3131-3223 | the daily rotation over all channels, moving the day slot on |
| Engine.Chanfix.OnChannelModeO | chanfix.cc:844-885 | ops given by mode changes are tracked and, if given by a user, stop fixes |
| Engine.Chanfix.OnServerMode | chanfix.cc:795-835 | a service's server mode puts a temporary block on a large enough channel, in RUN |
| Engine.Chanfix.ExpireTempBlocks | chanfix.cc:3112-3129 | collecting and erasing removes exactly the blocks that are an hour old |
| Engine.Chanfix.CheckNetwork | chanfix.cc:1754-1769 | too few servers lead to SPLIT, enough of them from SPLIT to BURST |
| Engine.Chanfix.FindOp | chanfix.cc:1995-2005 | finds an account among those already opped by the simulation |
| Engine.Chanfix.RemoveChan | chanfix.cc:2007-2011 | erases a channel's entries and no others |
| Engine.Chanfix.SimSelect | chanfix.cc:2067-2105 | a simulated round picks the first client of every new account at the bar, best first, up to the cap, and records each |
| Engine.Chanfix.SimTry | chanfix.cc:2107-2142 | a simulated round's picks, its result, and when it would lift the modes |
| Engine.Chanfix.SimFix | chanfix.cc:2013-2143 | one simulated attempt with its early exits, working on the simulation fields only |
| Engine.Chanfix.SimulateDay | chanfix.cc:2147-2185 | the clock, second by second, runs exactly the rounds of the day and stops at the first success or at the day's end |
| Engine.Chanfix.SimulateFix | chanfix.cc:2145-2196 | the simulated day ends with exactly the picks of its rounds, cleans up, and leaves every slice as it was |
| Simulation.SimCandidatesExact | chanfix.cc:2075-2105 | every candidate is on the channel, at the bar, and not opped before, one client per account |
| Simulation.SimCandidatesComplete | chanfix.cc:2075-2105 | an account is among the candidates iff it meets the bar, was not opped before, and has a client on the channel |
| Simulation.SimPicksFirstClient | chanfix.cc:2079-2100 | of a picked account it is the first client on the channel |
| Simulation.RoundPicksExact | chanfix.cc:2075-2105 | a round picks as many deserving accounts as fit, and passes nobody over who is before one of the picked in the ranking |
| Simulation.RoundBarExact | chanfix.cc:2034-2064 | the bar of a round by its time after the first round |
| Simulation.RoundFixedExact | chanfix.cc:2107-2142 | exactly which rounds report success, by the picks before and the deserving accounts |
| Simulation.SimPicksGood | chanfix.cc:2145-2196 | over all rounds at most five picks, no account twice, each at the bar of its round |
| Simulation.RoundDue | chanfix.cc:2166-2179 | which steps of the clock start a round: the first at once, the others only past the window |
| Simulation.LaterRoundsAreLate | chanfix.cc:2169-2173 | every round but the first lies beyond the fix window |
| Simulation.WithoutExact | chanfix.cc:2007-2011 | cleaning up removes the channel's entries and nothing else |
| Engine.Chanfix.HandleTimer | chanfix.cc:536-593 | each timer takes every channel's slice by exactly one step, with its own outcome of deleting its row; the queue timer notes when it is due next |
| Engine.Chanfix.Handle | chanfix.cc:536-593 | whatever the event, each slice and the shared status take exactly the step of the specification |
| Runs.StepKeepsDisjoint | chanfix.cc:1880-1913 | no event puts a channel into both queues |
| Runs.StepKeepsTimes | chanfix.cc:2301-2302 | attempt times stay both unset or both set, in order, and not in the future |
| Runs.RunSafety | CHANFIXCommand.cc:117-203 | over every run the queues are disjoint and the attempt times consistent |
| Runs.WindowTestReadsSetStart | chanfix.cc:2661-2668 | the window test never takes an unset start for an elapsed window |
| Runs.BlockExact | BLOCKCommand.cc:93-115 | BLOCK leaves the channel out of the queues iff it is on the network or was not queued |
| Runs.RunBlockedIdle | BLOCKCommand.cc:65-115 | over every run no blocked channel is ever queued iff every BLOCK that took effect met a channel that is on the network or idle |
| Runs.UnblockUndoesBlock | UNBLOCKCommand.cc:42-79 | UNBLOCK after BLOCK restores the channel but for the fixes that BLOCK aborted |
| Runs.FlagsAsAsked | ALERTCommand.cc:42-72 | afterwards the block flag is clear, or the alert flag as asked, and nothing else has changed |
| Runs.RotateKeepsFlags | chanfix.cc:3198-3210 | rotation never loses a flag |
| Runs.ServiceModeBlocks | chanfix.cc:795-835 | a mode change by a service leaves the channel temporarily blocked |
| Runs.TempBlockLasts | chanfix.cc:3112-3129 | over every run a temporary block is there exactly until the timer finds it an hour old |
| Runs.TempBlockHoldsOff | CHANFIXCommand.cc:175-190 | while it is there only CHANFIX with OVERRIDE can queue the channel |
| Runs.PassLeavesLaterDue | chanfix.cc:2654-2726 | after a pass every remaining entry is due strictly later |
| Runs.StayQueued | chanfix.cc:2646-2729 | a channel that stays queued was either not touched or tried again within its window |
| Runs.DueBounds | chanfix.cc:2684-2685 | the due time only grows and is at most start + window + interval |
| Runs.DueIsMet | chanfix.cc:2656-2688 | with passes at most P apart no entry waits more than P past its due time |
| Runs.FixesEnd | chanfix.cc:2661-2726 | a fix is over within window + interval + P of its start |
| Runs.FixesEndAbsolutely | chanfix.cc:2661-2726 | a fix is over within window + interval + 2P of its first due time |
| Fixes.AttemptIsGreedy | chanfix.cc:2387-2434 | an attempt ops min(eligible, cap - ops) distinct eligible clients and passes nobody over |
| Fixes.AttemptCounts | chanfix.cc:2448-2462 | the channel gains exactly that many ops and never exceeds the cap |
| Fixes.TopScorerSuffices | chanfix.cc:2372-2380 | an unopped client of a top-scoring account makes the attempt op somebody |
| Fixes.FixedExactly | chanfix.cc:2298-2465 | exactly which states make an attempt successful, by the ops, the number of eligible clients and the size of the channel |
| Fixes.FixedMeansDone | chanfix.cc:2298-2465 | success means that the channel is gone, has its ops, or has everybody opped |
| Fixes.DocumentedEndExact | chanfix.cc:2448-2462 | with somebody opped and no one at the bar, an automatic attempt succeeds iff everybody is opped, a manual one never |
| Fixes.EverybodyOppedExact | chanfix.cc:2448-2462 | with everybody opped below the cap, an attempt succeeds iff it is automatic |
| Fixes.DocumentedEndFails | chanfix.cc:2654-2726 | passes that keep fixes of both kinds queued in that state, and a manual one even with everybody opped |
| Fixes.DryRunAgrees | chanfix.cc:2200-2296 | shouldCJoin says yes iff the first attempt, made now, reaches the cap by opping somebody |
| Fixes.FloorLawExact | chanfix.cc:2366-2434 | the documented floor, without rounding, is kept for every channel iff the attempt is made at most 3590 seconds into the fix |
| Fixes.RoundedFloorLawExact | chanfix.cc:2661-2668 | the rounded floor is kept for every channel iff the attempt is made within the window |
| Fixes.WindowEndBelowMinScore | chanfix.cc:2366-2380 | an attempt at the end of the window ops a client with 161 points |
| Fixes.FirstFloorLawExact | chanfix.cc:2343-2434 | the floor documented for the first attempt is kept on all channels with a top score iff that is high enough and, for an automatic fix, a multiple of ten |
| Fixes.FirstAttemptOpsTop | chanfix.cc:2372-2380 | a first attempt ops a client with 12% of the maximum score |
| Fixes.RunFloor | chanfix.cc:2654-2726 | over every run a fix never ops anybody below the bar of its latest possible attempt, an old start included |
| Fixes.StaleStartNoFloor | chanfix.cc:2661-2681 | after the channel was gone when its entry was processed, a later fix ops a client without points |
| Fixes.LastAttemptIsLate | chanfix.cc:2654-2688 | two ordinary passes, the second of which ops a client below 30% of the top score |
| Fixes.EligibilityGrows | chanfix.cc:2330-2380 | between any two moments of one fix, its first attempt included, with no rotation between them, whoever meets the bar keeps meeting it |
| Fixes.QueuedScoresStay | chanfix.cc:3237 | no event but a rotation changes the points of a queued channel |
| Effects.AttemptStamps | chanfix.cc:2300-2311 | an attempt notes its time, and the start of the fix |
| Effects.AttemptNotesTop | chanfix.cc:2310-2311 | on an existing channel it also notes the top score |
| Effects.AttemptIdle | chanfix.cc:2303-2338 | without a channel, a high enough score or a lack of ops an attempt changes nothing on the network |
| Effects.AttemptOpsExactly | chanfix.cc:2448-2458 | exactly the chosen clients become ops, and nothing else about anybody changes |
| Effects.AttemptLiftsModes | chanfix.cc:2436-2446 | the modes are lifted iff the attempt is automatic, finds nobody where nobody has ops, the channel is restricted, and it was not done before |
| Effects.EntryExact | chanfix.cc:2656-2688 | a due entry leaves its queue iff it was tried with success or its window is over, with its times reset if the channel exists; otherwise it is due an interval later |
| Effects.EntryTries | chanfix.cc:2656-2666 | a pass attempts a fix iff the entry is due and the last attempt an interval ago |
| Effects.ScanExact | chanfix.cc:1874-1913 | a channel is queued iff it is large enough, opless, without service, scored, unblocked and in no fix |
| Effects.TimersExact | chanfix.cc:1861-1865 | passes and scans act only in RUN, scans only where enabled |
| Effects.ChanfixExact | CHANFIXCommand.cc:70-203 | exactly when CHANFIX begins a fix, with everybody deopped, the modes lifted and the first attempt due in half a minute |
| Effects.RequestOpExact | REQUESTOPCommand.cc:88-240 | exactly when REQUESTOP begins one, the waiting time and the alert included |
| Effects.SimulateExact | SIMULATECommand.cc:62-162 | exactly which channels SIMULATE simulates, and what it leaves in the record |
| Effects.OrdersKeepTimes | chanfix.cc:1930-1980 | no order touches the attempt times |
| Effects.BlockEnds | BLOCKCommand.cc:65-115 | exactly when BLOCK ends a fix, and what it leaves alone |
| Effects.OtherEventsExact | ADDNOTECommand.cc:42-78 | notes, rosters and events of the service leave everything else of a channel alone |
| Effects.TrackingExact | chanfix.cc:1693-1714 | an op refreshes the account's record or begins one while there is room, and touches no other |
| Effects.OpModeExact | chanfix.cc:844-885 | a mode change stops a fix iff a user gave ops to somebody logged in on a watched channel and the setting for that queue says so |
| Effects.ServiceModeExact | chanfix.cc:795-835 | exactly when a service's server mode places a temporary block |
| Effects.TargetsTrack | chanfix.cc:870-885 | a tracked record is refreshed iff somebody of its account was given ops |
| Effects.AwardedExact | chanfix.cc:3239-3250 | an account with room for its record is awarded iff its first opped client counts |
| Effects.RoundExact | chanfix.cc:3225-3256 | one point exactly for those accounts, on channels that are large enough, without service and in no fix; nothing changes elsewhere |
| Effects.RotationDrops | chanfix.cc:3186-3210 | exactly when a rotation drops a channel's record from memory |
| Effects.TooFewMeans | chanfix.cc:1756 | the servers linked, in percent, fall short of the demand |
| Effects.StatusExact | chanfix.cc:1754-1769 | every change of the shared state: when SPLIT and RUN are entered and left, and which event sets which value |
| Effects.CheckExact | chanfix.cc:1754-1769 | after a link change the service is in SPLIT iff too few servers are linked |
| Effects.SplitEnds | chanfix.cc:1008-1021 | once enough servers are linked, and as long as they are, the next completed burst leads to RUN and nothing ends it |
| Reachable.RunKeepsTable | chanfix.cc:1675-1684 | over every run a table has at most 256 records, none without an account, each a ring of shorts with its sum |
| Reachable.RunOpsLoggedIn | chanfix.cc:2391-2434 | over every run a fix gives ops only to clients who are logged in and have a record |
| Reachable.RunTotals | sqlChanOp.cc:77-84 | over every run a total is within what fourteen shorts can sum up to |
| Reachable.LeavingResets | chanfix.cc:2656-2681 | a due entry is left without stale times iff the channel exists or it was tried less than an interval ago within its window |
| Reachable.RunIdleReset | chanfix.cc:2485-2490 | over every run with fitting BLOCKs an idle channel never carries attempt times iff no pass took an entry out of its queue with the channel gone |
| Reachable.RehashExact | chanfix.cc:402-403 | a REHASH leaves split safety intact iff it is refused, fixing has stopped already, or enough servers are linked |
| Reachable.RehashUnnoticed | REHASHCommand.cc:49-62 | a REHASH that asks for more servers than are linked, unnoticed until the next link change |
| Reachable.RunSplitSafe | chanfix.cc:1008-1021 | from the first check on, too few servers always means SPLIT, unless a REHASH asks for more than are linked |
| Reachable.RunNeedsRecovery | chanfix.cc:1754-1769 | after a split nothing runs until enough servers have linked and then a burst has completed |
| Reachable.NothingOutsideRun | chanfix.cc:1861-1865 | outside RUN no event queues a channel, tries to fix it or gives ops |
| Scoring.AwardExact | chanfix.cc:3225-3256 | a round gives an account at most one point, in today's slot, and leaves all others alone |
| Scoring.RoundConserves | chanfix.cc:3225-3256 | without the ident requirement a tracked account gets exactly one point iff it has an opped client in a scorable channel that is not being fixed |
| Scoring.AwardReachesTracked | chanfix.cc:3239-3250 | without the ident requirement every tracked account with an opped client gets its point |
| Scoring.AwardRespectsCap | chanfix.cc:1677-1679 | a round never takes a channel past 256 records |
| Scoring.RoundIdleExactly | chanfix.cc:3225-3256 | a round changes nothing on a channel iff it is not scorable or no opped account on it is or can become tracked |
| Scoring.SplitScoresAnyway | chanfix.cc:3225-3256 | in SPLIT, with too few servers, a tracked account still gets its point |
| Scoring.OtherEventsRefresh | chanfix.cc:1693-1727 | only award rounds and rotations change anybody's points |
| RingLog.SpacedRoundsAreFew | chanfix.cc:539-546 | rounds that are five minutes apart are at most 288 a day |
| RingLog.AwardRefines | sqlChanOp.h:83-84 | an award round keeps rings and log in agreement |
| RingLog.ForgettingIsLossless | chanfix.cc:3172-3180 | in a daily rotation every deleted record, for either reason, has no points left |
| RingLog.RotationRefines | chanfix.cc:3150-3183 | a daily rotation moves every ring's window on by a day |
| RingLog.RingRefinesLog | chanfix.cc:3131-3183 | over every run with one rotation a day each total is the number of the account's awards in the last fourteen days, and accounts without a record have none |
| RingLog.FreshRunRefines | chanfix.cc:3131-3183 | from a service without scores every series of events makes a run, which refines its log throughout |
| RingLog.RingRefinesCalendar | chanfix.cc:3150-3183 | with rotation first thing every day, slot d mod 14 holds the awards of calendar day d |
| RingLog.AwardExactlyOnItsDay | chanfix.cc:1684-1691 | an award keeps every ring right by the calendar iff it comes on the day of the last rotation |
| RingLog.TotalsBounded | chanfix_config.h:149-158 | totals lie within 0..4032 and slots within 0..288 |
| RingLog.RunForgetsNothing | chanfix.cc:3170-3183 | over every run with one rotation a day, a rotation drops only records without points and clears no other slot of the rest |
| RingLog.RotationKeeps | chanfix.cc:3157-3178 | a rotation keeps a record iff it has points left or was first seen at most 310 seconds ago, and was last seen in the last fourteen days |
| RingLog.RunPrunes | chanfix.cc:3170-3183 | over every run, a rotation leaves a record exactly to those with recent awards, or first seen just now |
| RingLog.RotationExactlyDaily | chanfix.cc:3150-3155 | the slots are right for every record after a rotation iff it happens on the next day |
| Persist.Save | chanfix.cc:2913-2932 | one row for every record, and none besides |
| Persist.Load | chanfix.cc:1302-1316 | rebuilds the nested map, the first row of an account winning |
| Persist.FirstRowWins | chanfix.cc:1302-1316 | of several rows of one account the first counts |
| Persist.RecordReturns | sqlChanOp.cc:53-75 | a saved record comes back as it was iff its slots are shorts and its total is their sum |
| Persist.SaveThenLoad | chanfix.cc:3012-3032 | save then load is the identity up to empty channels iff every record holds shorts and their sum |
| Persist.RoundTrip | chanfix.cc:2875-2947 | both walks together restore the store |
| AuthMap.AuthIndex.Announce | chanfix.cc:980-1007 | adds a client to its account's list unless it is listed |
| AuthMap.AuthIndex.OnQuit | chanfix.cc:1039-1051 | removes the client and, with the last one, the account |
| AuthMap.IndexIsFaithful | chanfix.cc:1055-1077 | over every truthful run each account maps to exactly its live clients, once each, and to no empty list |
| AuthMap.QuitDefinedExactly | chanfix.cc:1041-1045 | the erase finds its element unless an unannounced client of a live account quits |
| Service.TraceRuns | chanfix.cc:535-593 | what any series of events means to one channel is a run |
| Service.Serve | chanfix.cc:535-593 | under changing settings and mixed database outcomes every channel ends where the run of its own trace does; queues, times and tables stay consistent |

## Left out

- Floating-point rounding: the minimum score and the percentages are exact, so a score within rounding error of a bar may be judged differently by the program.
- Records of the score store are values inside the service object's map, not objects: two maps sharing a record, or a record outliving its map entry, are not modelled. The record object with its array is modelled on its own in `ChanOps.dfy`.
- Messages, notices, logs, joins and parts: output only. The chosen clients, the simulation's picks and CANFIX's list are returned as values.
- The mode strings sent to the network and what the network makes of them: ops and modes change directly; the difference between a burst with an older timestamp and a mode change is not modelled.
- SQL text, escaping, the backup table, threads and `updateInProgress`: rows are values, and failures of single statements are inputs. A failing update that blocks later ones is not modelled.
- Uninitialised simulation fields: the top score that `shouldCJoin` and `simFix` would read on a channel without records is never used for a result, so its value is left open.
- Overlapping clients' custom data (`findMyOps`, `lostOp`): the per-client list of opped channels feeds only displays.
- msgTopOps, notes, and the display commands (INFO, HISTORY, OPLIST, SCORE, WHOIS, ...): formatting and database reads.
- Staff permissions, suspension and command parsing: straight guards before the commands that are modelled.
- CHANFIX_INGORE_SERVICES and CHANFIX_EXTENDED_ACCOUNTS: both are off, as in the shipped configuration header.
- Restarting with day slots that are a day or more old: the window theorem starts from a store that agrees with its log.
