# A verified model of reflectt-node's state machines

reflectt-node is a coordination server for teams of agents. This project models the parts of it
that carry state or arithmetic over time, and proves what they promise over every input and every
run:

- the iCalendar printer and parser (`ICalText`, `ICalFold`, `ICalValue`, `ICalLine`, `ICalendar`,
  `ICalRoundTrip`, `ICalExport`, `ICalImport`; RFC 5545), with calendar arithmetic in `UtcDate`;
- recurring events and the polled reminder engine (`Recurrence`, `RecurringDates`, `Reminders`);
- the bucketed session cache of the compliance detector (`Compliance`);
- grouping of the activity timeline (`Timeline`);
- the approval gate of a run, raced by approve, reject, abort and timeout (`ApprovalGate`,
  `GateOutcomes`);
- retention of agent runs and the approval queue over the event log (`RunRetention`, `ApprovalQueue`);
- chat timestamps and cursor synchronisation (`Chat`);
- the cost gate (`CostGate`), the onboarding funnel (`Funnel`, `FunnelHistory`), the connectivity
  state machine (`Connectivity`), the alert preflight (`AlertGuard`, `AlertVerdicts`), the board health
  worker (`BoardHealth`, `BoardRules`, `BoardUpdates`) with the lock on its tasks (`LaneLock`), and
  recurring calendar blocks (`Availability`).

Each SQLite table is a sequence of rows, each clock read is an argument, and each `await` is a step
boundary. What the source does by changing fields or in a loop is a class or a method, proved equal
to a function of the old state; the theorems are lemmas about those functions, over whole runs where
the promise is about runs. Constants and tables of the source are checked against statements that do
not use them. `Text`, `Sorting`, `Keyed` and `Wrappers` hold what several modules share.

Where the code differs from what it, or its comments, suggest, the model follows the code:

- `unescapeText` turns an `n` or `N` after a backslash of the original text into a line feed; which
  texts survive is `ICalText.RoundTripIffLossless`.
- An imported event that ends at time 0 gets an end one hour after its start
  (`ICalRoundTrip.TimesKept`).
- An abort that comes before the executor starts, or between the approval and the executor's next
  step, does not stop it (`ApprovalGate.AbortStopsIff`), and a denial by the guardrail never does
  (`ApprovalGate.DenialStopsNothing`).
- An end of an event without its start imports the event before it once more
  (`ICalImport.ImportedFile`).
- A rule with INTERVAL=0 is accepted and repeats the start of its event
  (`Recurrence.IntervalZeroRepeats`, `Recurrence.AdvanceIncreasesIff`).
- A session is looked up by splitting its key at colons, so an agent with a colon in its name loses
  its session at once, and its requests fail (`Compliance.SurvivesIff`). A session is carried over
  one bucket only, so an active-task flag is lost by silence (`Compliance.FlagsAtLeastAsMuch`).
- The sweep of overdue cards is meant to decide review cards too, but such a decision needs a
  rationale that the sweep does not give; a review card is closed only when an overdue approval card
  of the same run is, and then fresh cards of that run are closed as well
  (`ApprovalQueue.SweepClosesRuns`). Cards without a run are decided again by every sweep and stay
  pending (`ApprovalQueue.SecondSweep`). The queue applies its limit before it leaves out expired
  cards, so these can hide live ones (`ApprovalQueue.QueueByPosition`).
- With a negative limit the retention pass keeps taking the oldest runs each time it runs
  (`RunRetention.RepeatDropsNothing`).
- A degradation that begins at time 0 never counts as sustained (`Connectivity.DegradedGoesOffline`).
- The alert guard forgets live keys when they do not fit its cache, and then lets an alert through
  again within the window (`AlertGuard.OverfullCacheForgets`).
- Dismissing a close suggestion is commented as suppressing it, but lets it be made again at once
  (`BoardHealth.DismissalReopens`). A block whose update throws after the task has been
  written (as recording its history does) is neither logged nor counted, so it escapes the budget, the
  window and the rollback (`BoardUpdates.BudgetExceededIff`, `BoardUpdates.BlockHoldsIff`). A dry block
  is logged and keeps real ones away (`BoardUpdates.DryBlockStandsInTheWay`).
- The lane-state lock lets an automatic block pass only if the task's metadata already name a pause, and
  refuses its rollback, which repeats those metadata, as long as the task is blocked
  (`LaneLock.RollbackAcceptedIff`).
- Messages that share a timestamp, which only imports have, can be skipped by a syncing client
  (`Chat.FetchSkipsIff`).
- A recurring block that crosses midnight into a week day it does not list ends at midnight, earlier
  than the end that is reported (`Availability.EndIsFirstInactive`).

Verify with `dafny verify dfyconfig.toml`.

## Model

| member | source | states |
|---|---|---|
| ICalText.UnescapeEscape | src/calendar-ical.ts:42-48 | for every text, the four sequential unescapings of the escaped text give exactly the text with each fragile letter turned into a line feed |
| ICalText.RoundTripIffLossless | src/calendar-ical.ts:197-203 | unescape after escape is the identity exactly on texts without a backslash right before `n` or `N` |
| ICalText.EscapedCharacters | src/calendar-ical.ts:42-48 | an escaped text has no line feed, and no new CR, colon, semicolon or comma from elsewhere, so it fits one content line |
| ICalFold.FoldLine | src/calendar-ical.ts:27-37 | the folding loop produces the physical lines joined by CRLF |
| ICalFold.PhysicalLines | src/calendar-ical.ts:27-37 | no physical line is longer than 75, all but the first begin with a space |
| ICalFold.UnfoldLines | src/calendar-ical.ts:179-192 | the unfolding loop absorbs continuation lines and drops empty ones |
| ICalFold.UnfoldRendered | src/calendar-ical.ts:179-192 | unfolding a file of folded content lines gives back those lines |
| ICalValue.DateRoundTrip | src/calendar-ical.ts:208-230 | a printed time of the years 1000 to 9999 is parsed back, down to the second |
| ICalValue.DateText | src/calendar-ical.ts:18-22 | a time is printed, character by character, as the year, month, day, `T`, hours, minutes, seconds and `Z` it was made from |
| ICalValue.DateOnly | src/calendar-ical.ts:221-227 | a date without a time, with or without separators, is midnight of that day |
| ICalValue.DateAndTime | src/calendar-ical.ts:208-220 | a date with a time is read in UTC, whether a `Z`, anything else or nothing follows |
| ICalValue.CleanedTold | src/calendar-ical.ts:208-210 | of a date only digits, `T` and `Z` are read, in their order |
| ICalValue.TriggerRoundTrip | src/calendar-ical.ts:236-253 | a printed reminder trigger is parsed back to its minutes |
| ICalValue.TriggerUnits | src/calendar-ical.ts:236-253 | in a trigger days count 1440 minutes and hours 60, and a minus sign means before |
| UtcDate.UtcOfFields | src/calendar-ical.ts:18-22 | UTC date fields give back the epoch milliseconds of a whole second exactly outside the years 0 to 99, which `Date.UTC` takes for 1900 to 1999 |
| UtcDate.MonthLengths | src/calendar-ical.ts:18-22 | the months have their lengths of the Gregorian calendar, February by the leap years |
| UtcDate.DatesFollow | src/calendar-ical.ts:18-22 | day 0 is 1 January 1970 and each date follows the one before on a calendar, which fixes the date of every day |
| UtcDate.FieldsOfUtc | src/calendar-ical.ts:208-230 | the fields of a time are those it was made from, for every date of the calendar outside the years 0 to 99 |
| UtcDate.TimeParts | src/calendar-ical.ts:18-22 | a time is its day, hours, minutes, seconds and milliseconds |
| UtcDate.WeekDaysTakeTurns | src/calendar-events.ts:244-255 | 1 January 1970 is a Thursday and the week days take turns, which fixes the week day of every time |
| UtcDate.AddMonthsIncreases | src/calendar-events.ts:285-296 | advancing a date by at least one month strictly increases it, overflow of the day included |
| UtcDate.AddMonthsLands | src/calendar-events.ts:287-298 | a step of some months lands on the same day of that month and at the same time, or as many days into the next month as that day is missing |
| UtcDate.MonthStartBounds | src/cost-enforcement.ts:43-47 | a month starts no later than the day and less than 31 days before any time in it |
| ICalLine.ParseContentLine | src/calendar-ical.ts:148-174 | name, parameters and value of a content line, in the parser's splitting order |
| ICalendar.EventToVEvent | src/calendar-ical.ts:53-108 | the printed event is the folding of its content lines, in order |
| ICalendar.ExportICS | src/calendar-ical.ts:113-128 | the exported calendar is the preamble, the events in order and the end line |
| ICalendar.ParseVEvent | src/calendar-ical.ts:274-383 | the parsed event is the scan of its lines from the default event, alarms included |
| ICalendar.ParseICS | src/calendar-ical.ts:388-412 | the parsed calendar is the scan of its unfolded lines |
| ICalRoundTrip.ExportThenImport | src/calendar-ical.ts:388-412 | importing an exported calendar yields exactly the recovered events in order, for all exportable events |
| ICalRoundTrip.UnchangedIffLossless | src/calendar-ical.ts:53-128 | an event with named attendees comes back unchanged, defaults filled in, exactly if it is lossless in texts, times and reminders |
| ICalRoundTrip.TimesKept | src/calendar-ical.ts:376-380 | start and end survive exactly on whole seconds, and an end of 0 only where the default end is 0 too |
| ICalRoundTrip.RemindersKept | src/calendar-ical.ts:236-253 | all reminders survive exactly if each is at least one minute before the start |
| ICalExport.ExportedFile | src/calendar-ical.ts:113-128 | unfolding an exported file gives its content lines, for all exportable events |
| ICalExport.ExportedFrame | src/calendar-ical.ts:113-128 | the frame of the file, line by line |
| ICalExport.ExportedHead | src/calendar-ical.ts:53-61 | an event begins with its id, the times of its last change, start and end, as a reader reads them, and its summary |
| ICalExport.ExportedTail | src/calendar-ical.ts:96-105 | it ends with its status and the times of its creation and last change |
| ICalExport.ExportedAlarm | src/calendar-ical.ts:87-94 | an alarm shows a message so many minutes before the event |
| ICalExport.ExportedAttendee | src/calendar-ical.ts:74-81 | an attendee has name, answer and address, made up where none is known |
| ICalExport.ExportedOrganizer | src/calendar-ical.ts:72 | the organizer has a name and an address of the server |
| ICalImport.ImportedEvent | src/calendar-ical.ts:274-383 | for every list of lines, every field of the imported event is told from the lines outside of alarms: the last line of a property counts, attendees are all its ATTENDEE lines, reminders the alarms before the start, the end defaults to one hour after the start |
| ICalImport.ImportedFile | src/calendar-ical.ts:388-412 | for every file, each end of an event gives one event from the lines since the last start, so an end without a start repeats the event before it |
| ICalImport.LineTold | src/calendar-ical.ts:148-174 | a line is name, parameters and value, the name in any case |
| ICalImport.ParamsTold | src/calendar-ical.ts:162-171 | of several parameters with one key the last counts; parts without an equals sign are none |
| ICalImport.AttendeeTold | src/calendar-ical.ts:344-360 | name, address and answer of an attendee; the answer in any case, awaited unless it is one of three |
| ICalImport.AddressTold | src/calendar-ical.ts:334-358 | an address may follow `mailto:` in any case or stand alone |
| ICalImport.CategoriesTold | src/calendar-ical.ts:364-366 | categories are what stands between the commas, trimmed and unescaped |
| ICalImport.StatusTold | src/calendar-ical.ts:367-373 | the status in any case, confirmed unless it is one of two |
| Recurrence.GetOccurrences | src/calendar-events.ts:221-305 | the bounded loop equals the recursive expansion |
| Recurrence.OccurrencesAreSelected | src/calendar-events.ts:221-305 | for every rule, the result is the first `max` (at least one) of the first 1000 candidates that meet filters, COUNT, UNTIL and the window, unless the loop ends before its first candidate |
| Recurrence.OccurrencesIncrease | src/calendar-events.ts:221-305 | occurrences are strictly increasing exactly unless the rule does not move on and gives several |
| Recurrence.AdvanceIncreasesIff | src/calendar-events.ts:274-300 | the cursor moves on exactly if the interval is at least 1 or the rule is weekly with BYDAY, and stands still exactly on any other rule with interval 0 |
| Recurrence.IntervalZeroRepeats | src/calendar-events.ts:274-300 | with interval 0 every occurrence of such a rule is the start of the event |
| Recurrence.IntervalZeroIsListedTwice | src/calendar-events.ts:221-305 | an unfiltered rule with interval 0 and a limit of two returns the start twice, for every window that contains it |
| Recurrence.EquallySpaced | src/calendar-events.ts:275-300 | candidates of an unfiltered daily or weekly rule are start + i times step, and all count |
| Recurrence.UnfilteredOccurrences | src/calendar-events.ts:221-305 | exactly which times an unfiltered daily or weekly rule contains, whatever its interval |
| Recurrence.ShrinkingFilters | src/calendar-events.ts:244-270 | a smaller window returns the larger window's result filtered, since COUNT is counted from the start, unless a rule that moves back starts after the window |
| Recurrence.OccurrenceShown | src/calendar-events.ts:221-305 | while the limit is not reached, a window shows exactly the overlapping occurrences, for a rule that does not move on only if the loop reaches its first candidate |
| RecurringDates.SelectedIffListed | src/calendar-events.ts:221-305 | for every rule, a time is in the unlimited expansion exactly if it is one of the first 1000 candidates, falls on a listed week day, month day and month, overlaps the window, is not past UNTIL, and fewer than COUNT listed ones come before |
| RecurringDates.DailyAndWeeklyOccurrences | src/calendar-events.ts:244-300 | the same for daily and weekly rules, whose candidates are points some whole days apart |
| RecurringDates.WeekDaysOccur | src/calendar-events.ts:248-285 | a weekly rule with week days gives exactly the days with those numbers, from the start on |
| RecurringDates.MonthlyStep | src/calendar-events.ts:287-292 | the date on which a monthly step lands |
| RecurringDates.YearlyStep | src/calendar-events.ts:293-298 | the date on which a yearly step lands |
| RecurringDates.SameDayOfMonth | src/calendar-events.ts:287-298 | a monthly or yearly rule that starts on one of the first 28 days stays on that day and time |
| Reminders.ReminderEngine.GetPendingReminders | src/calendar-events.ts:702-746 | the nested loops list exactly the unfired due reminders of confirmed events, in order |
| Reminders.ReminderEngine.PollReminders | src/calendar-reminder-engine.ts:122-141 | one poll delivers and marks every pending reminder and counts them |
| Reminders.DeliveredAtFirstPoll | src/calendar-reminder-engine.ts:122-141 | over any polls at most 10 minutes apart, a reminder is delivered at the first poll at or after its fire time and at no other, once for each time its event lists it |
| Reminders.DeliveredAsReminded | src/calendar-reminder-engine.ts:122-141 | whatever limits are hit and however the event recurs, the first poll in the ten minutes from the fire time delivers a reminder once for each time that its fetched event lists the minutes and the occurrence, and if at all, never again |
| Reminders.FetchedByPosition | src/calendar-events.ts:702-746 | a listed event is fetched exactly if fewer than a hundred stand before it by start |
| Reminders.PendingCount | src/calendar-events.ts:702-746 | exactly how often a reminder is pending at a poll, for every table, limits and interval 0 included |
| Reminders.ListingTold | src/calendar-events.ts:702-712 | a poll looks at the confirmed events that recur or overlap the next 24 hours, by their start, and at the first fifty occurrences of each in that time |
| Reminders.AfterFired | src/calendar-events.ts:668-695 | a marked reminder is never delivered again |
| Reminders.NeverEarlyNeverLate | src/calendar-events.ts:702-746 | no reminder is ever delivered early or more than 10 minutes late |
| Compliance.Detector.GetOrCreateSession | src/compliance-detector.ts:75-91 | the session of the current bucket, carried forward from the previous one; older buckets go, and so does the new session exactly if its key does not survive the cleaning |
| Compliance.Detector.CleanStaleSessions | src/compliance-detector.ts:93-102 | exactly the sessions whose key names the current or the previous bucket stay |
| Compliance.Detector.ProcessRequest | src/compliance-detector.ts:245-322 | the new store, and a violation exactly when the session's window is over; it fails exactly when a read or an action finds no session |
| Compliance.Detector.SetSessionHasActiveTask | src/compliance-detector.ts:327-330 | only the agent's active-task flag changes; it fails exactly when there is no session |
| Compliance.SurvivesIff | src/compliance-detector.ts:93-102 | a new session survives the cleaning exactly if the agent has no colon in its name, or the part after the first colon is the current or the previous bucket |
| Compliance.TraceRefines | src/compliance-detector.ts:75-102 | along every trace, agents with a colon included, the bucketed store refines an unbounded last-read map for every agent without a colon |
| Compliance.CurrentIsCarried | src/compliance-detector.ts:75-102 | after every trace the session of an agent without a colon is what the trace tells: its last read and last flag, as long as no whole bucket passed in silence |
| Compliance.FlagsAtLeastAsMuch | src/compliance-detector.ts:263-305 | the store flags whatever the map flags, and more exactly when the last read is between the two windows, the last flag set is true, and since it was set two successive events of the agent (or the last one and now) are at least two buckets apart |
| Compliance.FlagCanBeLost | src/compliance-detector.ts:75-91 | a trace of two events on which the store flags and the map does not |
| Compliance.VerdictTold | src/compliance-detector.ts:263-305 | on every trace an action is flagged exactly if the agent never read, or its last read is older than 5 minutes when a heartbeat, 30 minutes when a task flag is kept, 10 minutes otherwise |
| Compliance.SameVerdictWithoutFlags | src/compliance-detector.ts:263-305 | without active-task flags both give the same verdicts for every agent without a colon |
| Timeline.GroupKey | src/activity.ts:386-422 | the loop over one key's events equals the greedy batches |
| Timeline.GroupEvents | src/activity.ts:369-431 | the grouped timeline: single events and the entries of each key, newest first |
| Timeline.GroupingConserves | src/activity.ts:369-431 | grouping neither loses nor duplicates an event |
| Timeline.GroupsWellFormed | src/activity.ts:433-478 | every group has at least two events of one key within the window of the newest; the timeline is newest first |
| Timeline.WindowsByKind | src/activity.ts:397-402 | five minutes for channels, ten for tasks and agents, no grouping for any other key |
| Timeline.GroupsByKind | src/activity.ts:397-478 | a group is a burst of one channel, task or agent within five or ten minutes of its newest event |
| Timeline.GroupingMinimal | src/activity.ts:369-431 | for each grouped key the number of entries is the least over all partitions into sets within the window |
| Timeline.FewestEntries | src/activity.ts:369-431 | no partition has fewer parts, since batch anchors are more than a window apart |
| Timeline.FewestReached | src/activity.ts:369-431 | the leaves of the entries, entry by entry, are such a partition |
| ApprovalGate.AgentRun.constructor | src/agent-interface.ts:67-94 | a new run, failed at once with a guardrail step when the guardrail denies it |
| ApprovalGate.AgentRun.TransitionTo | src/agent-interface.ts:117-124 | the status changes and one `state_changed` event is logged |
| ApprovalGate.AgentRun.ExecuteGithubIssueCreate | src/agent-interface.ts:147-200 | the executor up to its gate, started once |
| ApprovalGate.AgentRun.ContinueGithub | src/agent-interface.ts:202-299 | the executor after its gate was resolved |
| ApprovalGate.AgentRun.ExecuteMacOSUIAction | src/agent-interface.ts:512-547 | the second executor up to its gate or its action, started once |
| ApprovalGate.AgentRun.ContinueMac | src/agent-interface.ts:549-585 | the second executor after its gate |
| ApprovalGate.AgentRun.ApproveRun | src/agent-interface.ts:301-310 | resolves a waiting gate with approval, and only then succeeds |
| ApprovalGate.AgentRun.RejectRun | src/agent-interface.ts:312-321 | resolves a waiting gate with refusal, and only then succeeds |
| ApprovalGate.AgentRun.AbortRun | src/agent-interface.ts:323-343 | aborts unless the run is over, refusing a waiting gate |
| ApprovalGate.GateResolvedOnce | src/agent-interface.ts:301-343 | in every interleaving the gate is resolved at most once, with one logged resolution once the executor continues |
| ApprovalGate.SubmitOnlyAfterApproval | src/agent-interface.ts:147-220 | a submit step is logged only after an approval caused by `approveRun` |
| ApprovalGate.RefusedNeverSubmits | src/agent-interface.ts:301-343 | after reject, abort or timeout at the gate no submit ever follows, and the run ends rejected |
| ApprovalGate.StatusChanges | src/agent-interface.ts:117-124 | logged status changes chain from the initial to the present status |
| ApprovalGate.FinishedIsFinal | src/agent-interface.ts:323-343 | a finished run never changes |
| ApprovalGate.AbortStopsIff | src/agent-interface.ts:323-343 | in every reachable state, an abort is followed by no further irreversible step in any continuation exactly unless the executor is not started yet, or approved but not yet past its gate |
| ApprovalGate.DenialStopsNothing | src/agent-interface.ts:67-94 | under every sequence of actions a denied run and an allowed one have the same executor and gate, equally many irreversible steps, and the same status once started |
| ApprovalGate.AbortBeforeStartIsLost | src/agent-interface.ts:147-220 | runs that show both: an aborted and a denied run that are then executed complete |
| GateOutcomes.HowRunsEnd | src/agent-interface.ts:202-299 | under every interleaving, a call that returned ok or a granted dry run completes a run, a failed call, a missing token or a bad input fails it, a refused gate rejects it, and a macOS run aborted in its call stays aborted; the result agrees with the status |
| GateOutcomes.LogIsTold | src/agent-interface.ts:147-299 | as long as nobody aborts, the whole log, status and result are told from where the executor is, under every interleaving |
| GateOutcomes.AbortIsLogged | src/agent-interface.ts:323-343 | an abort of a run that is not over adds two events, sets status and result, and refuses a waiting gate |
| ApprovalGate.BuildApprovals | src/agent-interface.ts:420-439 | the approvals of a replay packet are the scan of the log |
| ApprovalGate.PacketTellsTheDecision | src/agent-interface.ts:420-439 | a replay packet lists the run's one approval with the decision taken |
| RunRetention.RunStore.ApplyRunRetention | src/agent-runs.ts:471-551 | the pass, with its counts; a dry run changes nothing |
| RunRetention.RetentionDrops | src/agent-runs.ts:499-548 | the loops over rows and agents amount to one drop of a set of runs; the counts are the size of that set and the events that went |
| RunRetention.RetentionKeepsNewest | src/agent-runs.ts:520-548 | every agent in scope keeps exactly its newest terminal runs not older than the cutoff, as many as the limit allows, and none dropped is newer than one kept |
| RunRetention.RetentionTouchesTerminalRunsOnly | src/agent-runs.ts:471-551 | other runs stay as they are, the runs dropped are those gone from the terminal set, and exactly the events of deleted runs go |
| RunRetention.FateOfRun | src/agent-runs.ts:471-517 | a finished run of the agent asked for that began before the cutoff is dropped (archived, or deleted with its row), and a run that is not finished or of another agent is left |
| RunRetention.DroppedForNewer | src/agent-runs.ts:520-548 | a finished run that is young enough is dropped only if as many of its agent as the limit allows are left, none older |
| RunRetention.DryRunCounts | src/agent-runs.ts:496-498 | a dry run reports the number of runs that are too old |
| RunRetention.RepeatDropsNothing | src/agent-runs.ts:471-551 | a second pass at the same instant is a no-op exactly if the limit is not negative or nothing terminal is left |
| ApprovalQueue.EventLog.AppendAgentEvent | src/agent-runs.ts:361-404 | an event is refused, with nothing changed, exactly for a malformed or missing rationale or routing, by its kind; else appended |
| ApprovalQueue.EventLog.ListApprovalQueue | src/agent-runs.ts:659-729 | the newest pending requests up to the limit, then without the expired ones |
| ApprovalQueue.EventLog.SubmitApprovalDecision | src/agent-runs.ts:789-834 | one decision about the card, of its run and agent, an approval exactly if it approves and a review decision exactly if the card is a review; each error; and the run unblocked exactly when it waits for review and is approved |
| ApprovalQueue.DecisionResultTold | src/agent-runs.ts:789-834 | a decision is taken exactly on a request card with a good rationale (or none for an approval card), and unblocks exactly a waiting run of that card |
| ApprovalQueue.EventLog.SweepExpiredApprovalCards | src/agent-runs.ts:846-891 | the log grows by one decision for each overdue approval card, and by none for a review card |
| ApprovalQueue.QueueIsPending | src/agent-runs.ts:690-704 | while the limit is not hit, a request is listed exactly if no decision of its run is strictly later, it matches the filter, and it is not expired unless asked for |
| ApprovalQueue.PendingTold | src/agent-runs.ts:659-704 | a request is pending exactly if no decision of its run is strictly later |
| ApprovalQueue.QueueTold | src/agent-runs.ts:659-729 | without a limit the queue lists exactly the pending requests of the agent and sort asked for that have not expired |
| ApprovalQueue.QueueByPosition | src/agent-runs.ts:690-729 | for every limit, the selected pending request with i others before it is listed exactly if i is below the limit and it is not left out as expired |
| ApprovalQueue.StandingIsPending | src/agent-runs.ts:690-729 | these positions number exactly the selected pending requests, newest first, and nothing else is listed |
| ApprovalQueue.LimitKeepsNewest | src/agent-runs.ts:690-704 | no request left out by the limit is newer than a listed one |
| ApprovalQueue.ExpiredCardHidesLiveOne | src/agent-runs.ts:705-729 | a log that shows it: with a limit of one, a newer expired card hides a live one |
| ApprovalQueue.AnsweredForGood | src/agent-runs.ts:690-704 | an answered request never becomes pending again |
| ApprovalQueue.DecisionClearsRun | src/agent-runs.ts:789-834 | one decision clears exactly the strictly earlier requests of its run |
| ApprovalQueue.SweepClosesRuns | src/agent-runs.ts:846-891 | after a sweep a request is pending exactly if it was and its run had no overdue approval card |
| ApprovalQueue.SweepClosesApprovals | src/agent-runs.ts:846-891 | every overdue approval card of a run is closed |
| ApprovalQueue.SecondSweep | src/agent-runs.ts:846-891 | a second sweep with the same cutoff finds exactly the overdue approval cards without a run, and is idle exactly if there are none |
| Chat.ChatManager.SendMessage | src/chat.ts:486-501 | the message gets a timestamp later than all before |
| Chat.ChatManager.GetMessages | src/chat.ts:577-644 | rows of the table that satisfy the query, oldest first, at most as many as the limit; no satisfying row left out is older than a listed one when the oldest are asked for, nor newer by default |
| Chat.SelectedAnswers | src/chat.ts:577-644 | the selection that the synchronisation results speak of is such an answer, for every table and query |
| Chat.FiltersTold | src/chat.ts:589-622 | a row answers a query exactly if it fits every filter that is given |
| Chat.ChatManager.EditMessage | src/chat.ts:755-792 | only the author's edit with some content rewrites the message, with its timestamp; the status says which check failed |
| Chat.ChatManager.AddReaction | src/chat.ts:713-746 | a reaction is toggled, the timestamp stays, and the stored message is returned exactly if there is one |
| Chat.ChatManager.DeleteMessage | src/chat.ts:794-828 | only the author's delete removes the message; the status says which check failed |
| Chat.PostTold | src/chat.ts:486-501 | a posted message has the fields given, its own time, and no edits or reactions |
| Chat.EditTold | src/chat.ts:755-792 | an edit by the author with a text that is not blank replaces the trimmed text, and nothing else does |
| Chat.DeleteTold | src/chat.ts:794-828 | only the author deletes a message |
| Chat.OthersStay | src/chat.ts:486-828 | every step leaves all messages but its own alone |
| Chat.ToggleTold | src/chat.ts:713-731 | toggling changes whether the agent has reacted with the emoji and nothing about anyone else |
| Chat.TimestampsIncrease | src/chat.ts:486-501 | accepted messages get strictly increasing timestamps under any clock |
| Chat.SyncIsLossless | src/chat.ts:577-644 | under any interleaving a client following its cursor gets messages in increasing order, none twice, and every remaining one up to its cursor exactly once |
| Chat.FetchSkipsIff | src/chat.ts:624-640 | for all timestamps, a fetch leaves a row behind its new cursor exactly if its limit falls between two rows that share a timestamp |
| Chat.LeftBehindForGood | src/chat.ts:619-622 | a row left behind the cursor is in no later batch |
| Chat.FetchProgress | src/chat.ts:577-644 | each fetch with a positive limit leaves less to fetch |
| Chat.CatchesUp | src/chat.ts:577-644 | a client that keeps fetching ends up with every message exactly once, in order |
| CostGate.CostStore.GetAgentSpend | src/cost-enforcement.ts:28-35 | the sum of the agent's costs since a time |
| CostGate.CostStore.CheckCostCap | src/agent-config.ts:175-222 | the action is the more severe of the daily and the monthly verdict |
| CostGate.CostStore.EnforcePolicy | src/cost-enforcement.ts:63-98 | the verdict on the spend of the current UTC day and month, and the model to use: none if denied, the fallback if downgraded and there is one, else the configured one |
| CostGate.CostStore.SetAgentConfig | src/agent-config.ts:71-119 | only the given fields change; an absent configuration starts without caps |
| CostGate.CostStore.PurgeUsageLog | src/cost-enforcement.ts:100-106 | exactly the entries before the cutoff go, and are counted |
| CostGate.ActionMonotone | src/agent-config.ts:175-222 | more spending never makes the action milder |
| CostGate.ActionBySpend | src/agent-config.ts:187-212 | a call is denied at a whole cap, downgraded above nine tenths and warned of above eight tenths of one |
| CostGate.ModelBySpend | src/cost-enforcement.ts:75-98 | the model to use by what is spent: none at a whole cap, the fallback above nine tenths |
| CostGate.PurgeKeepsSpends | src/cost-enforcement.ts:100-106 | purging what is at least 31 days old changes neither the daily nor the monthly sum |
| CostGate.OvershootBound | src/cost-enforcement.ts:63-73 | over every run of admitted calls costing 0 to c, at most k in flight, the spend of the day and of the month never exceeds the cap (or what was spent before) plus k times c, day and month changes included, whatever negative costs there are from earlier days or months |
| CostGate.BoundIsTight | src/cost-enforcement.ts:63-73 | for every positive cap, number of calls, cost and margin some run ends within the margin of the bound |
| CostGate.RefundsBreakBound | src/cost-enforcement.ts:28-35 | a log with a negative cost of the present day on which the next day breaks the bound |
| Funnel.GetUserFunnelFlags | src/activationEvents.ts:135-160 | the flags of a user's recorded steps, in order |
| Funnel.HasOrderedPath | src/activationEvents.ts:162-173 | true exactly if all steps up to the given one are recorded in order |
| Funnel.PathIffRecorded | src/activationEvents.ts:162-173 | for a user without flags, a step is reached exactly if it is recorded |
| Funnel.OrderedPathIsSorted | src/activationEvents.ts:162-173 | a path is ordered exactly if all its steps are recorded at times that never go back |
| Funnel.DropIsDifference | src/activationEvents.ts:506-525 | the drops at a step are the difference of neighbouring reached counts |
| Funnel.DropsSumToCohort | src/activationEvents.ts:506-602 | all drops up to a step and those past it make up the cohort |
| Funnel.FunnelNarrows | src/activationEvents.ts:448-500 | reached counts never increase along the funnel, rates lie between 0 and 1 |
| Funnel.FunnelAddsUp | src/activationEvents.ts:448-500 | for any store, reached counts are recorded counts, and all drops plus the last reached count are the cohort |
| Funnel.FunnelStore.EmitActivationEvent | src/activationEvents.ts:181-236 | a first event is recorded and logged, a repeated one changes nothing |
| Funnel.FunnelStore.LoadActivationFunnel | src/activationEvents.ts:375-414 | usable lines are replayed, the first occurrence kept; the result is their number |
| Funnel.FunnelStore.GetConversionFunnel | src/activationEvents.ts:448-500 | reached count and rate of each step over the cohort |
| Funnel.FunnelStore.GetDroppedCounts | src/activationEvents.ts:506-525 | dropped count of each step over the cohort |
| Funnel.EmitIsIdempotent | src/activationEvents.ts:181-200 | emitting the same event again changes nothing |
| Funnel.FirstTimestampStays | src/activationEvents.ts:375-414 | a recorded step keeps its first timestamp through any run of events and reloads |
| FunnelHistory.StepsAreFirsts | src/activationEvents.ts:181-414 | after every run a user has exactly the steps that have happened, each at the time it happened first |
| FunnelHistory.CohortTold | src/activationEvents.ts:448-470 | the cohort has exactly the users asked for that have no flags |
| Funnel.LogIsRecentHistory | src/activationEvents.ts:218-225 | the log is the end of the whole history, at most ten thousand events |
| Funnel.EmitKeepsClean | src/activationEvents.ts:135-160 | a new event leaves a user without flags exactly if its predecessor is recorded and preflight outcomes do not clash |
| Funnel.FlaggedForGood | src/activationEvents.ts:135-160 | a flagged user stays flagged through every run of events and reloads later than all of the user's records |
| Funnel.EqualClockClears | src/activationEvents.ts:135-160 | at an equal clock reading a flag can go only by recording the missing predecessor of a step recorded at that reading |
| Funnel.FlagClearedAtOnce | src/activationEvents.ts:135-160 | a user on whom it happens: a preflight and the signup recorded at one reading |
| Connectivity.ConnectivityManager.RecordSuccess | src/connectivity.ts:109-120 | one success: counters, and recovery when enough in a row |
| Connectivity.ConnectivityManager.RecordFailure | src/connectivity.ts:125-145 | one failure: counters, degradation, and offline after the waiting time |
| Connectivity.ConnectivityManager.MoveTo | src/connectivity.ts:176-200 | one transition, with the bounded history |
| Connectivity.CountersAreTrailingRuns | src/connectivity.ts:109-145 | the counters are the lengths of the trailing runs; reason and dates are set exactly in the modes they belong to |
| Connectivity.DownIffDegraded | src/connectivity.ts:109-145 | the mode is other than connected exactly if some run of failures was long enough and no run of successes since was |
| Connectivity.OfflineOnlyAfterWaiting | src/connectivity.ts:125-145 | offline follows degraded only, and never before the waiting time is over |
| Connectivity.DegradedGoesOffline | src/connectivity.ts:133-142 | after every trace that leaves the connection degraded, a failure takes it offline exactly when the waiting time since the last transition is over, unless that was at time 0 |
| Connectivity.TransitionsChain | src/connectivity.ts:176-200 | all transitions chain from connected to the present mode |
| Connectivity.HistoryIsRecent | src/connectivity.ts:180-187 | the kept history is the end of all transitions, at most 100, and all of them or at least 50 |
| Connectivity.PushTold | src/connectivity.ts:180-187 | the history grows to a hundred transitions, and the next one leaves the last fifty |
| AlertGuard.AlertIntegrityGuard.Preflight | src/alert-integrity.ts:130-257 | the new state and the outcome, by the first check that fails |
| AlertGuard.AlertIntegrityGuard.MaybeCanary | src/alert-integrity.ts:299-318 | a canary allows and counts, enforcement suppresses and counts by reason |
| AlertGuard.AlertIntegrityGuard.RecordResult | src/alert-integrity.ts:321-345 | the allowed count and the bounded audit log |
| AlertGuard.AlertIntegrityGuard.PruneDedupCache | src/alert-integrity.ts:354-370 | expired entries go first, then the oldest |
| AlertGuard.TotalsAddUp | src/alert-integrity.ts:299-345 | over every run, checked is allowed plus suppressed, suppressed is the sum by reason, all equal to what was returned, and a canary suppresses nothing |
| AlertGuard.CanaryPredictsEnforcement | src/alert-integrity.ts:299-318 | a canary run has the cache of the enforcing run and counts exactly what that run suppresses |
| AlertGuard.PrunedSize | src/alert-integrity.ts:354-370 | after pruning the cache is within its limit, and full if live entries had to go |
| AlertGuard.PruningDropsOldest | src/alert-integrity.ts:354-370 | whatever pruning drops is expired or no newer than anything it keeps |
| AlertGuard.CacheIsBounded | src/alert-integrity.ts:243-246 | over every run the cache is within its limit and holds a key once |
| AlertVerdicts.VerdictByRun | src/alert-integrity.ts:152-243 | over every run whose live keys fit the cache, an alert that is not bypassed gets the first of six reasons that speaks against it, duplicates being told from the alerts let through before |
| AlertVerdicts.PrunedExactly | src/alert-integrity.ts:354-370 | as long as they fit, pruning keeps exactly the entries that are not older than the window |
| AlertGuard.AdmissionsApart | src/alert-integrity.ts:225-257 | over every run in which the keys sent within the window fit the cache at each admission, two fully checked admissions of one key are at least the window apart, in either mode |
| AlertGuard.OverfullCacheForgets | src/alert-integrity.ts:354-370 | the condition is exact: whenever an admission leaves more such keys than fit, some single next alert is admitted too soon |
| AlertGuard.SmallCacheForgets | src/alert-integrity.ts:354-370 | a run that shows it: with room for one key, another key in between lets an alert through again within the window |
| BoardHealth.BoardHealthWorker.Tick | src/boardHealthWorker.ts:206-337 | one tick outside quiet hours: stale tasks blocked and abandoned ones suggested for closing within the budget, other entries logged, and unless dry, unresponsive tasks requeued and new ones created |
| BoardHealth.BoardHealthWorker.TickWorkingContract | src/working-contract.ts:215-244 | exactly the unresponsive tasks in progress go back to todo |
| BoardHealth.BoardHealthWorker.TickContinuityLoop | src/continuity-loop.ts:393-410 | exactly the created tasks are added, as todo |
| BoardHealth.BoardHealthWorker.ApplyAutoBlockStale | src/boardHealthWorker.ts:357-420 | one automatic block, unless one within the window still stands |
| BoardHealth.BoardHealthWorker.ApplySuggestClose | src/boardHealthWorker.ts:448-499 | one suggestion, unless one within a day still stands |
| BoardHealth.BoardHealthWorker.Rollback | src/boardHealthWorker.ts:1044-1107 | success exactly once, within the window, for the two kinds that allow it |
| BoardHealth.BoardHealthWorker.PruneAuditLog | src/boardHealthWorker.ts:1179-1184 | exactly the entries before the cutoff go |
| BoardHealth.ActionsApart | src/boardHealthWorker.ts:357-420 | over every run, two logged blocks (or suggestions) on one task that are both not rolled back are at least the window apart, pruned ones included |
| BoardHealth.TickWithinBudget | src/boardHealthWorker.ts:229-258 | one tick logs at most `maxActionsPerTick` blocks and suggestions together |
| BoardHealth.TickOnlyBlocks | src/boardHealthWorker.ts:229-258 | the two budgeted loops turn some tasks in progress into blocked ones and change no other; a whole dry tick changes none |
| BoardHealth.RolledBackOnce | src/boardHealthWorker.ts:1044-1060 | a second rollback of one action is refused after any run |
| BoardHealth.RollbackRestores | src/boardHealthWorker.ts:1064-1092 | a rollback after any run is inside the window and puts the task into the status it had before the block, dry or not, changing no other |
| BoardHealth.DismissalReopens | src/boardHealthWorker.ts:1098-1104 | after a dismissal only other suggestions keep the task from being suggested again |
| BoardRules.QuietIsArc | src/boardHealthWorker.ts:1167-1174 | a tick that is not forced is skipped exactly on the arc of the clock of the quiet hours |
| BoardRules.BlockTold | src/boardHealthWorker.ts:357-420 | what one block does to task and log, told from the log |
| BoardRules.SuggestTold | src/boardHealthWorker.ts:448-499 | what one suggestion does, told from the log |
| BoardRules.RollbackTold | src/boardHealthWorker.ts:1044-1107 | what a rollback does to action and task, and when it does nothing |
| BoardRules.TickChooses | src/boardHealthWorker.ts:229-258 | a tick blocks only inactive tasks in progress and suggests only abandoned ones that are waiting or blocked, never those of test runs |
| BoardUpdates.TurnsAreUpdates | src/boardHealthWorker.ts:229-243 | the loop over the stale tasks turns exactly the tasks of its updates to blocked |
| BoardUpdates.TickChangesTasks | src/boardHealthWorker.ts:206-337 | everything a tick does to the tasks: those of its updates are blocked, the other unresponsive ones in progress are requeued, the created ones are added, and nothing else changes |
| BoardUpdates.TickTurnsTasks | src/boardHealthWorker.ts:206-337 | the tasks that a whole tick turns to blocked are exactly those it updates, logged or not |
| BoardUpdates.TickBlocksWithinBudget | src/boardHealthWorker.ts:229-243 | one tick turns at most `maxActionsPerTick` tasks to blocked, plus one for each stale task whose update throws after the write |
| BoardUpdates.BudgetExceededIff | src/boardHealthWorker.ts:229-243 | it turns more than `maxActionsPerTick` exactly if the policies run, more than that are eligible, and the update of one of the first `maxActionsPerTick` throws after the write |
| BoardUpdates.ThrowingUpdatesExceedBudget | src/boardHealthWorker.ts:386-415 | a tick that shows it: with a budget of one, two tasks are blocked and nothing is logged |
| BoardUpdates.UpdatesApart | src/boardHealthWorker.ts:357-420 | over every run, a task is updated to blocked again within the window only if the earlier update was not logged or was rolled back |
| BoardUpdates.BlockHoldsIff | src/boardHealthWorker.ts:386-420 | a block keeps the task from being blocked again within the window exactly if it is dry or nothing throws after the write; otherwise the log, and so what can be rolled back, is as before |
| BoardUpdates.DryBlockStandsInTheWay | src/boardHealthWorker.ts:362-367 | a dry block changes no task, but no real block of the task goes through within the window |
| LaneLock.UpdateTask | src/tasks.ts:1524-1713 | an update is accepted exactly if bounce gate, lane-state lock and lifecycle gates pass, and the stored task is what it then is |
| LaneLock.PauseTold | src/tasks.ts:1596-1601 | a task in progress is blocked exactly with a reason for a pause |
| LaneLock.ResumeTold | src/tasks.ts:1602-1607 | a blocked task is resumed exactly with a reason for that and a time |
| LaneLock.HandoffTold | src/tasks.ts:1608-1621 | a task in progress changes hands exactly to the owner its transition names, with a reason |
| LaneLock.BounceTold | src/tasks.ts:1558-1594 | a task goes back from review to work, from the third time on only with a reason; each time is counted and earlier metadata are kept |
| LaneLock.ReviewTold | src/tasks.ts:297-333 | a task goes into review exactly with an artifact of the accepted form |
| LaneLock.BlockAcceptedIff | src/boardHealthWorker.ts:391-400 | a task in progress can be blocked automatically exactly if its own metadata still name a pause with a reason, and it has criteria and a reviewer |
| LaneLock.RollbackAcceptedIff | src/boardHealthWorker.ts:1066-1079 | the rollback of such a block is accepted exactly if the task is not blocked any more and has criteria, a reviewer and a time |
| LaneLock.BlockedCannotBeRolledBack | src/tasks.ts:1596-1607 | after any run, the rollback of an automatic block is refused while the task is blocked |
| Availability.MinuteAndDay | src/calendar.ts:314-318 | the minute number of a time has the week day and the minute of the day that its UTC fields have |
| Availability.ActiveIsArc | src/calendar.ts:322-330 | a block is active exactly on the half-open arc from start to end |
| Availability.CoversTold | src/calendar.ts:292-330 | a one-off block covers its time span, a recurring one its arc of the clock on its week days |
| Availability.WaitIsRest | src/calendar.ts:354-366 | the wait of an active block is 1 to 1439 minutes, is the rest of its arc, and lands on the end |
| Availability.EndIsFirstInactive | src/calendar.ts:292-368 | the computed end is inactive, and every minute before it is active exactly unless the wait crosses midnight into a week day not listed |
| Availability.GetAgentAvailability | src/calendar.ts:373-407 | the first covering block, one-off before recurring, with its end; free exactly if none covers |
| Availability.EndIsLater | src/calendar.ts:373-407 | the reported end is later than now, and for a one-off block the first time it no longer covers |

## Left out

- Characters are Unicode scalars here and UTF-16 code units in the source, so the fold limit is counted in scalars; case mapping is ASCII only.
- JavaScript numbers are unbounded integers: no exponent notation, no `Date` range limit; costs are real numbers without rounding.
- `Date.parse` on a malformed date is a parameter of the parser; `parseRRule` is not modelled, a rule is taken parsed; `importICS` and its stored defaults are left out.
- An interval or count that is not a number is not modelled.
- Polls, ticks and sweeps run one after the other; overlapping asynchronous ones, a crash between delivery and marking, delivery targets and message texts are left out.
- Recognising URLs, agents and status codes of requests is taken as given in the compliance detector.
- Compliance.TraceRefines: compares the store with the map for agents without a colon only; another agent has no session, or one under a key that splits in the wrong place.
- `queryActivity` (paging, collection from tables), summaries and hash ids of groups are left out.
- ApprovalGate: one object per run instead of maps by id, without timestamps; `fetch` results are inputs.
- ApprovalGate.AgentRun.ExecuteGithubIssueCreate: a second execution of one run, which the function does not refuse and its only caller (`src/server.ts`) never starts, is not modelled.
- ApprovalGate.AgentRun.ExecuteMacOSUIAction: a second execution of one run is not modelled either.
- Chat deduplication, digest queue, channel budget, ledger and inboxes are left out: only accepted messages are modelled.
- Rows with equal sort keys are listed in table order; SQLite leaves their order open.
- Event payloads keep only what the approval queue looks at; titles, owners and urgency, `listPendingApprovals` and `notifyReviewerViaRun` are left out.
- CostGate.OvershootBound: assumes that no cost of the agent recorded since the start of the present window is negative, as the bound can fail otherwise (`CostGate.RefundsBreakBound`); the caps do not change during a run.
- Funnel failure reasons, median times, weekly trends, `getUserFunnelState` and `getFunnelSummary` are left out; which user ids are internal is a parameter.
- Queue depth and event emission of the connectivity manager are left out; thresholds do not change during a trace.
- Alert latencies and rollback signals are left out; the hash of a task's state is taken as a value, and the configuration does not change during a run.
- Of the other policies of the board health worker only their audit entries and their changes of tasks are modelled; which tasks are inactive or unresponsive, which are created, and whether updates succeed, are inputs. The entries that the working contract and the continuity loop return are not kept in the audit log.
- LaneLock: history, cloud synchronisation and what closing a duplicate needs are left out; which updates reach the task in between is arbitrary.
- Availability takes blocks in UTC; conversion of time zones and editing of blocks are left out, and a day's hour is 0 to 23. `shouldPing` would only add a short case analysis.
