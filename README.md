# sportpollbot core in Dafny

A Dafny model of the core of *java-sportpollbot*, a Telegram bot that runs
one weekly sign-up poll for a sports group. Members answer a native Telegram
poll ("I'm in" / "I'm out"). They can also add votes for guests with `/+`
(anonymous votes or named ones) and take them back with `/-`. A pinned status
message lists everyone counted, numbered. The poll closes itself once the
positive count reaches the target. A scheduler posts the poll every week at a
configured day and hour plus a random delay, and an admin session edits the
next poll and the weekly settings through inline-keyboard menus.

## Modules

| file | module | models |
|---|---|---|
| wrappers.dfy | `Wrappers` | `Option`, and `Outcome` for a Java call that returns or throws |
| java_text.dfy | `JavaText` | `String.trim`, `isBlank`, `split("\\s+")`, `split(":")`, `Integer.parseInt`, `String.valueOf(int)` |
| java_time.dfy | `JavaTime` | `DayOfWeek`, `LocalTime`, and `LocalDateTime` as nanoseconds since a Monday midnight |
| command_utils.dfy | `CommandUtils` | `utils/CommandUtils.java`: command detection, normalisation of `/+2`-style glued commands, argument splitting |
| votes.dfy | `Votes` | `models/Vote.java` |
| menus.dfy | `Menus` | `ui/Menu.java` |
| ui_text.dfy | `UIText` | `UIText.getDayShort` |
| weekly_poll_config.dfy | `WeeklyConfig` | `config/WeeklyPollConfig.java` as a class with its setters and parsers |
| ledger.dfy | `Ledger` | the vote ledger: the direct-voter `HashMap` as a sequence with unique keys, and the shared vote numbering |
| poll_manager.dfy | `Polls` | `services/PollManager.java` as a class over that ledger |
| poll_command.dfy | `PollCommands` | `commands/PollCommand.java` |
| weekly_poll_scheduler.dfy | `Scheduling` | `services/WeeklyPollScheduler.java`: next poll time, the window test, the timer chain |
| admin_session.dfy | `Admin` | `services/AdminSession.java`: callback dispatch, edits, poll confirmation |

Stateful classes stay classes:
- `PollManager` owns the poll state and a log of the Telegram calls it makes.
- `WeeklyPollConfig` holds the settings the setters update.
- `WeeklyPollScheduler` holds its config, window and armed timers.
- `AdminSession` holds the draft, the edit target and the pages it has shown.

Each state-changing method is proved against a pure step function of the old state:
- its `ensures` gives the new state and the appended log as that function's value;
- lemmas then state what the source promises about that function.

Examples of those promises:
- the numbering revoke removes exactly entry *n* of the status list;
- the next poll time is after `from` and at most a week plus the window later;
- `weekly:config:toggle` flips only `enabled`.

Telegram's answers are parameters:
- the message ids it assigns;
- the outcome of the native poll's send in `PollCommand.sendPoll`, which may throw, or return a null or zero id.

The native poll's send is the only Telegram call the model lets fail. Every other call is assumed to succeed (see "## Left out").

The same holds for:
- the clock (`now`);
- the random factor of the scheduling jitter;
- the admin list.

Integer overflow of `int` arithmetic is not modelled. Inputs reach it only through `parseInt`, which is modelled with its 32-bit range.

### Behaviour of the source worth knowing

- **`createAndPostPoll` does not roll back when the send fails.** The poll is already active with the new target and empty collections when Telegram refuses the send, and it stays so (`PollManager.CreateAndPostPoll`).
- **`/-` reads the raw text.** `handleRevokeCommand` splits the unnormalised text on whitespace, so `/-2` is one part and revokes the caller's latest vote, not vote 2 (`Polls.RevokeGluedNumberIsLatest`). Only `/- 2` asks for vote 2.
- **Late-Sunday jitter misses the window.** A start time whose jitter carries it past Sunday midnight fails `isTimeWithinScheduledWindow`, because the window is computed in the week of the firing time. That week no poll is created (`Scheduling.PlannedTimeInWindowIff`, `Scheduling.LateSundayOffsetMissesWindow`).
- **Short delays run immediately and do not re-arm.** When the next poll is less than one second away, `scheduleNextPoll` runs the check at once and arms no timer (`Scheduling.ScheduleStep`).
- **The weekly time edit takes an hour only.** `handleEdit` parses the text as a bare hour and sets minute 0, so `18:30` is rejected (`Admin.WeeklyHourOfNumber`).
- **Draft edits without a draft throw.** An edit of a draft field with no draft throws `NullPointerException`, which `handleEdit`'s `catch (IllegalArgumentException)` does not catch (`Admin.EditReaction`). `poll:confirm` without a draft throws in the same way (`Admin.ConfirmDiscardsDraft`).

## Model

| member | source | states |
|---|---|---|
| Ledger.IndexOfUser | src/main/java/io/sportpoll/bot/services/PollManager.java:150-151 | the map key's position in iteration order when present; when absent, no entry has that user |
| Ledger.ToMapKeys | src/main/java/io/sportpoll/bot/services/PollManager.java:23 | a user is a key of the map exactly when some entry of the sequence carries it |
| Ledger.ToMapEquals | src/main/java/io/sportpoll/bot/services/PollManager.java:23 | a map agreeing entry by entry with a unique-key sequence is the map that sequence stands for |
| Ledger.PutSpec | src/main/java/io/sportpoll/bot/services/PollManager.java:151 | `put` keeps keys unique and changes the map at the user only |
| Ledger.RemoveUserSpec | src/main/java/io/sportpoll/bot/services/PollManager.java:150 | `remove` keeps keys unique and deletes exactly that user from the map |
| Ledger.RemoveAtUnique | src/main/java/io/sportpoll/bot/services/PollManager.java:258 | removing one direct voter keeps the remaining keys unique |
| Ledger.CountPositive | src/main/java/io/sportpoll/bot/services/PollManager.java:118 | the positive direct count never exceeds the number of direct voters |
| Ledger.PositiveCountIsVoterCount | src/main/java/io/sportpoll/bot/services/PollManager.java:118 | the positive direct count is the number of map keys whose option is 0, so option-1 answers never count |
| Ledger.PositiveEntries | src/main/java/io/sportpoll/bot/services/PollManager.java:361-363 | one list entry per positive direct voter |
| Ledger.ExternalEntries | src/main/java/io/sportpoll/bot/services/PollManager.java:364-370 | one list entry per external vote, in list order |
| Ledger.Combined | src/main/java/io/sportpoll/bot/services/PollManager.java:359-371 | the shared numbering has exactly getPositiveVotes entries |
| Ledger.PositiveEntriesAppend | src/main/java/io/sportpoll/bot/services/PollManager.java:361-363 | the positive entries of two concatenated parts are the concatenation of their positive entries |
| Ledger.CountPositiveAppend | src/main/java/io/sportpoll/bot/services/PollManager.java:118 | the positive count is additive over concatenation |
| Ledger.PositiveIndex | src/main/java/io/sportpoll/bot/services/PollManager.java:252-270 | the n-th positive direct voter sits at a position with option 0 and n-1 positive voters before it |
| Ledger.CountPositiveStep | src/main/java/io/sportpoll/bot/services/PollManager.java:253-254 | one step of the numbering walk raises the counter exactly on a positive voter |
| Ledger.CountPositiveGrows | src/main/java/io/sportpoll/bot/services/PollManager.java:253-269 | a positive voter before the end of a prefix raises that prefix's count |
| Ledger.PositiveIndexUnique | src/main/java/io/sportpoll/bot/services/PollManager.java:255 | the voter the walk stops at for number n is the unique one PositiveIndex names |
| Ledger.PositiveEntriesAround | src/main/java/io/sportpoll/bot/services/PollManager.java:361-363 | removing a positive direct voter removes exactly its entry from the positive entries |
| Ledger.RemovePositiveEntry | src/main/java/io/sportpoll/bot/services/PollManager.java:255-258 | removing the n-th positive direct voter removes exactly entry n of the numbering, the rest keeping their order |
| Ledger.RemoveExternalEntry | src/main/java/io/sportpoll/bot/services/PollManager.java:272-278 | removing external vote i removes exactly entry CountPositive+i+1 of the numbering |
| Ledger.LastIndexBy | src/main/java/io/sportpoll/bot/services/PollManager.java:208-215 | the found index is the requester's vote with no later vote of theirs; none found means the requester owns no vote |
| Polls.DisplayName | src/main/java/io/sportpoll/bot/services/PollManager.java:365 | an anonymous vote shows the anonymous-voter label, any other vote its voter name |
| Polls.VoteLines | src/main/java/io/sportpoll/bot/services/PollManager.java:359-371 | one line per entry, the line of entry i numbered i+1 |
| Polls.StatusShape | src/main/java/io/sportpoll/bot/services/PollManager.java:335-357 | completed iff the positive count reaches the target; the remaining count shows only while not completed and is then positive; one line per positive vote |
| Polls.StatusListsDirectVoter | src/main/java/io/sportpoll/bot/services/PollManager.java:361-363 | each positive direct voter is listed by first name at its place in the numbering |
| Polls.StatusListsExternalVote | src/main/java/io/sportpoll/bot/services/PollManager.java:364-370 | external vote i is listed after all positive direct voters, with its display name and who invited it |
| Polls.AddedVotesSpec | src/main/java/io/sportpoll/bot/services/PollManager.java:97-103 | the added votes belong to the requester: one per name for the trimmed name when names are given, else voteCount anonymous ones |
| Polls.NamedVotesAt | src/main/java/io/sportpoll/bot/services/PollManager.java:98-99 | named vote i is a new vote for the trimmed name i |
| Polls.AnonymousVotesAt | src/main/java/io/sportpoll/bot/services/PollManager.java:101-102 | every vote of the anonymous loop is a two-argument (anonymous) vote |
| Polls.VoteRequestOf | src/main/java/io/sportpoll/bot/services/PollManager.java:137-143 | no argument is one anonymous vote; a single all-digit argument is that many anonymous votes up to 12 or an exception; otherwise one named vote per argument |
| Polls.VoteRequestOfNumber | src/main/java/io/sportpoll/bot/services/PollManager.java:139-142 | a decimal n up to 12 asks for n anonymous votes; a larger int is refused with the default error |
| Polls.RevokeRequestOf | src/main/java/io/sportpoll/bot/services/PollManager.java:188-199 | one whitespace part revokes the latest vote; two parts with an int second part revoke that number; the rest is the usage error |
| Polls.RevokeGluedNumberIsLatest | src/main/java/io/sportpoll/bot/services/PollManager.java:188-191 | a text without whitespace, such as "/-2", revokes the caller's latest vote |
| Polls.RevokeSpacedNumber | src/main/java/io/sportpoll/bot/services/PollManager.java:192-195 | "/- N" with N in decimal asks for vote N |
| Polls.PollManager.constructor | src/main/java/io/sportpoll/bot/services/PollManager.java:34-36 | no poll, no collections, target 0, nothing sent |
| Polls.PollManager.Reset | src/main/java/io/sportpoll/bot/services/PollManager.java:72-79 | a reset poll is valid, inactive and empty, and keeps its target |
| Polls.PollManager.CompletionSpec | src/main/java/io/sportpoll/bot/services/PollManager.java:121-128 | the poll stays active iff it was active and below the target; voters, votes and target are kept; completion is announced iff the target is reached |
| Polls.PollManager.AddSpec | src/main/java/io/sportpoll/bot/services/PollManager.java:84-111 | no vote changes once remaining <= 0 or when more are asked than remain; otherwise exactly the added votes are appended, direct votes untouched, and the target is never passed |
| Polls.PollManager.RevokeLatestSpec | src/main/java/io/sportpoll/bot/services/PollManager.java:202-220 | exactly the requester's latest external vote is removed, order and direct votes kept, the count dropping by one; with no vote of theirs or no active poll nothing changes |
| Polls.PollManager.RevokeNumberSpec | src/main/java/io/sportpoll/bot/services/PollManager.java:242-292 | entry n of the status numbering is removed iff the poll is active, 1 <= n <= count and the requester is an admin or the owner; the count then drops by one; otherwise nothing changes; direct voters for option 1, the message ids and the collections are always kept, and no direct voter is added |
| Polls.PollManager.EnsureCollections | src/main/java/io/sportpoll/bot/services/PollManager.java:112-115 | null collections become empty ones and nothing else changes |
| Polls.PollManager.GetPositiveVotes | src/main/java/io/sportpoll/bot/services/PollManager.java:116-120 | the result is the positive direct voters plus all external votes |
| Polls.PollManager.AppendVoteListSimple | src/main/java/io/sportpoll/bot/services/PollManager.java:359-371 | the lines are the shared numbering, positive direct voters first, numbered from 1 |
| Polls.PollManager.BuildStatusMessage | src/main/java/io/sportpoll/bot/services/PollManager.java:335-357 | the status structure of the current state |
| Polls.PollManager.UpdateStatusMessage | src/main/java/io/sportpoll/bot/services/PollManager.java:307-322 | state unchanged; one status edit when a status message exists |
| Polls.PollManager.CreateStatusMessage | src/main/java/io/sportpoll/bot/services/PollManager.java:294-305 | the status is sent and pinned and its id remembered |
| Polls.PollManager.ResetPoll | src/main/java/io/sportpoll/bot/services/PollManager.java:72-79 | the state becomes Reset of the old state, after an unpin when a status message exists |
| Polls.PollManager.CloseDirectPoll | src/main/java/io/sportpoll/bot/services/PollManager.java:222-230 | state unchanged; an error notice when inactive, a stop of the native poll when it was posted |
| Polls.PollManager.CreateAndPostPoll | src/main/java/io/sportpoll/bot/services/PollManager.java:44-66 | the poll is active with the target and an empty ledger even when the send is refused; a delivered send records the ids, posts and pins the status and confirms |
| Polls.PollManager.OpenPoll | src/main/java/io/sportpoll/bot/services/PollManager.java:47-52 | a fresh active poll with the target, empty collections and no message ids |
| Polls.PollManager.AnnouncePoll | src/main/java/io/sportpoll/bot/services/PollManager.java:61-64 | the poll id and status id are recorded, the status posted and pinned, creation confirmed |
| Polls.PollManager.InitializePoll | src/main/java/io/sportpoll/bot/services/PollManager.java:232-240 | an active poll with the target, an empty ledger, the given poll id and a posted, pinned status |
| Polls.PollManager.CheckCompletion | src/main/java/io/sportpoll/bot/services/PollManager.java:121-128 | the new state and calls are those of CompletionStep |
| Polls.PollManager.CloseCurrentPoll | src/main/java/io/sportpoll/bot/services/PollManager.java:155-163 | inactive: only an acknowledgement; active: stop, reset and acknowledge |
| Polls.PollManager.CloseCurrentPollSilent | src/main/java/io/sportpoll/bot/services/PollManager.java:165-172 | false and nothing changed when inactive; otherwise true, with the poll stopped and reset |
| Polls.PollManager.CheckMondayClose | src/main/java/io/sportpoll/bot/services/PollManager.java:174-179 | an active poll is stopped and reset; otherwise nothing happens |
| Polls.PollManager.AppendVotes | src/main/java/io/sportpoll/bot/services/PollManager.java:97-103 | exactly the added votes are appended to the external votes |
| Polls.PollManager.AppendNamedVotes | src/main/java/io/sportpoll/bot/services/PollManager.java:98-99 | one vote per name, trimmed, appended in order |
| Polls.PollManager.AppendAnonymousVotes | src/main/java/io/sportpoll/bot/services/PollManager.java:101-102 | voteCount anonymous votes appended (none for a negative count) |
| Polls.PollManager.AddExternalVote | src/main/java/io/sportpoll/bot/services/PollManager.java:84-111 | the new state and calls are those of AddStep, whose properties AddSpec states |
| Polls.PollManager.AdmitVotes | src/main/java/io/sportpoll/bot/services/PollManager.java:97-110 | the votes are appended and confirmed, then checkCompletion runs on the new state |
| Polls.PollManager.HandleVoteCommand | src/main/java/io/sportpoll/bot/services/PollManager.java:130-144 | an exception escapes iff the poll is active and the single number is above 12 or not an int; otherwise the state of VoteCommandStep |
| Polls.PollManager.HandleDirectVote | src/main/java/io/sportpoll/bot/services/PollManager.java:146-153 | inactive: nothing; active: the answer is applied to the map, then checkCompletion |
| Polls.PollManager.HandleRevoke | src/main/java/io/sportpoll/bot/services/PollManager.java:202-220 | the new state and calls are those of RevokeLatestStep |
| Polls.PollManager.RevokeVoteByNumber | src/main/java/io/sportpoll/bot/services/PollManager.java:242-292 | the new state and calls are those of RevokeNumberStep |
| Polls.PollManager.RevokeDirectAt | src/main/java/io/sportpoll/bot/services/PollManager.java:255-267 | the found-direct-voter branch: removed when permitted, a denial otherwise |
| Polls.PollManager.RevokeExternalAt | src/main/java/io/sportpoll/bot/services/PollManager.java:273-287 | the found-external-vote branch: removed when permitted, a denial otherwise |
| Polls.PollManager.HandleRevokeCommand | src/main/java/io/sportpoll/bot/services/PollManager.java:186-200 | the new state and calls are those of RevokeCommandStep |
| Polls.ApplyAnswerSpec | src/main/java/io/sportpoll/bot/services/PollManager.java:150-151 | an empty answer deletes the user from the map; otherwise the user maps to the first option; keys stay unique |
| PollCommands.SendPoll | src/main/java/io/sportpoll/bot/commands/PollCommand.java:53-75 | success iff a response came back with a non-zero id; failures carry id 0, the fixed invalid-response text or the exception's message |
| PollCommands.PresentIffVisible | src/main/java/io/sportpoll/bot/commands/PollCommand.java:77-80 | a parameter passes validation iff it is non-null and has a character above U+0020 |
| PollCommands.CreatePollStep | src/main/java/io/sportpoll/bot/commands/PollCommand.java:27-48 | success iff inputs are valid, no poll is active and the send gave a usable id; invalid or active: the fixed error with nothing sent; failures: id 0 and the manager unchanged; success: a fresh active poll |
| PollCommands.CreatedPollIsFresh | src/main/java/io/sportpoll/bot/commands/PollCommand.java:39-41 | a created poll is valid, active, with no positive votes and the requested target |
| PollCommands.PollCommand.constructor | src/main/java/io/sportpoll/bot/commands/PollCommand.java:13-15 | the command works on the given manager |
| PollCommands.PollCommand.CreatePoll | src/main/java/io/sportpoll/bot/commands/PollCommand.java:27-48 | result, manager state and calls are those of CreatePollStep |
| Scheduling.OffsetBounds | src/main/java/io/sportpoll/bot/services/WeeklyPollScheduler.java:132-133 | the truncated jitter lies in [0, window] and below the window when it is positive; a zero factor gives 0 |
| Scheduling.NextPollTimeAfterRolls | src/main/java/io/sportpoll/bot/services/WeeklyPollScheduler.java:128-135 | the candidate moves one week iff it is at or before `from`; with a zero factor the result is exactly the rolled candidate |
| Scheduling.WeekParts | src/main/java/io/sportpoll/bot/services/WeeklyPollScheduler.java:139-143 | an instant is its week, weekday and time of day put back together |
| Scheduling.InstantOfParts | src/main/java/io/sportpoll/bot/services/WeeklyPollScheduler.java:139-143 | the same decomposition with the ISO weekday value |
| Scheduling.ScheduledTimeOfWeek | src/main/java/io/sportpoll/bot/services/WeeklyPollScheduler.java:139-143 | the candidate is the configured weekday and clock time of `from`'s week |
| Scheduling.PartsOfInstant | src/main/java/io/sportpoll/bot/services/WeeklyPollScheduler.java:139-143 | the week, weekday and time of day of a composed instant are its parts |
| Scheduling.ScheduledTimeSpec | src/main/java/io/sportpoll/bot/services/WeeklyPollScheduler.java:137-145 | the candidate lies in `from`'s Monday-to-Sunday week, on the configured weekday, at the configured time with zero nanoseconds |
| Scheduling.WithinAWeek | src/main/java/io/sportpoll/bot/services/WeeklyPollScheduler.java:131 | two instants of one week are less than a week apart |
| Scheduling.PlannedStartSpec | src/main/java/io/sportpoll/bot/services/WeeklyPollScheduler.java:130-131 | the rolled candidate is after `from` and at most a week later, on the configured weekday and time |
| Scheduling.PlannedStartOfWeek | src/main/java/io/sportpoll/bot/services/WeeklyPollScheduler.java:130-131 | the rolled candidate is the configured slot of this week or of the next one |
| Scheduling.NextPollTimeBounds | src/main/java/io/sportpoll/bot/services/WeeklyPollScheduler.java:137-145 | the next poll time is after `from` and within a week plus the window of it, and it is the rolled candidate plus the jitter |
| Scheduling.PlannedTimeInWindowIff | src/main/java/io/sportpoll/bot/services/WeeklyPollScheduler.java:96-107 | the planned time passes the window test iff the jitter does not carry it into the following week |
| Scheduling.OffsetTimeInWindowIff | src/main/java/io/sportpoll/bot/services/WeeklyPollScheduler.java:96-107 | a slot plus an offset within the window passes the test iff it stays in the slot's week |
| Scheduling.WindowShift | src/main/java/io/sportpoll/bot/services/WeeklyPollScheduler.java:105-106 | an offset instant lies inside a window shifted by whole weeks only when the shift is zero |
| Scheduling.LateSundayOffsetMissesWindow | src/main/java/io/sportpoll/bot/services/WeeklyPollScheduler.java:96-107 | a Sunday 23:30 start with a 45-minute jitter fires on Monday 00:15 and fails the window test |
| Scheduling.CheckStep | src/main/java/io/sportpoll/bot/services/WeeklyPollScheduler.java:88-94 | nothing happens unless enabled, no poll is active and now is in the window; a poll is created only then, with valid texts and a usable send |
| Scheduling.ScheduleStep | src/main/java/io/sportpoll/bot/services/WeeklyPollScheduler.java:109-126 | disabled: nothing; at most one timer, armed with the positive whole-second delay; no timer means the immediate check ran, which happens iff the next time is less than a second away |
| Scheduling.WeeklyPollScheduler.constructor | src/main/java/io/sportpoll/bot/services/WeeklyPollScheduler.java:29-36 | the given config and manager, the one-hour default window, no timer |
| Scheduling.WeeklyPollScheduler.SetRandomWindow | src/main/java/io/sportpoll/bot/services/WeeklyPollScheduler.java:53-55 | the window becomes the given one |
| Scheduling.WeeklyPollScheduler.CreateWeeklyPoll | src/main/java/io/sportpoll/bot/services/WeeklyPollScheduler.java:161-171 | createPoll from the configured texts and target |
| Scheduling.WeeklyPollScheduler.RunScheduledPollCheck | src/main/java/io/sportpoll/bot/services/WeeklyPollScheduler.java:88-94 | the manager state and calls are those of CheckStep |
| Scheduling.WeeklyPollScheduler.ScheduleNextPoll | src/main/java/io/sportpoll/bot/services/WeeklyPollScheduler.java:109-126 | timers, manager state and calls are those of ScheduleStep |
| Scheduling.WeeklyPollScheduler.OnTimer | src/main/java/io/sportpoll/bot/services/WeeklyPollScheduler.java:118-125 | a fired timer runs the check, then schedules again from the resulting state |
| Scheduling.WeeklyPollScheduler.Reschedule | src/main/java/io/sportpoll/bot/services/WeeklyPollScheduler.java:82-86 | the executor is shut down and replaced, then scheduleNextPoll runs |
| Scheduling.WeeklyPollScheduler.UpdateConfig | src/main/java/io/sportpoll/bot/services/WeeklyPollScheduler.java:64-74 | all seven settings are copied from the new config, then the scheduler reschedules with them |
| Scheduling.WeeklyPollScheduler.SetEnabled | src/main/java/io/sportpoll/bot/services/WeeklyPollScheduler.java:76-80 | only `enabled` changes; enabling reschedules, disabling only shuts the executor down |
| Admin.PollData.WithQuestion | src/main/java/io/sportpoll/bot/services/AdminSession.java:23-25 | only the question changes |
| Admin.PollData.WithPositiveOption | src/main/java/io/sportpoll/bot/services/AdminSession.java:26-28 | only the positive option changes |
| Admin.PollData.WithNegativeOption | src/main/java/io/sportpoll/bot/services/AdminSession.java:29-31 | only the negative option changes |
| Admin.PollData.WithTargetVotes | src/main/java/io/sportpoll/bot/services/AdminSession.java:32-34 | only the target changes |
| Admin.WithersCommute | src/main/java/io/sportpoll/bot/services/AdminSession.java:22-35 | withers of different fields commute, and applying all four gives exactly the new record |
| Admin.PollMenuReaction | src/main/java/io/sportpoll/bot/services/AdminSession.java:91-102 | the draft is kept when present, otherwise taken from the weekly settings, and then shown |
| Admin.EditReaction | src/main/java/io/sportpoll/bot/services/AdminSession.java:227-310 | rejected input only shows the error page; the target is cleared iff the value is accepted and a draft exists for draft targets; a draft edit without a draft throws NullPointerException |
| Admin.StrayTextIgnored | src/main/java/io/sportpoll/bot/services/AdminSession.java:76-82 | text other than /start with no edit target changes nothing and shows nothing |
| Admin.OneValuePerPrompt | src/main/java/io/sportpoll/bot/services/AdminSession.java:227-302 | after a successful edit the next plain text is ignored |
| Admin.WeeklyHourOfNumber | src/main/java/io/sportpoll/bot/services/AdminSession.java:292-300 | an hour written in decimal is accepted iff it is at most 23 and sets the start time to that hour on the dot |
| Admin.WeeklyDayOfNumber | src/main/java/io/sportpoll/bot/services/AdminSession.java:283-291 | a day number is accepted iff it is in 1..7 and selects that ISO weekday |
| Admin.DraftVotesOfNumber | src/main/java/io/sportpoll/bot/services/AdminSession.java:246-252 | a draft target written in decimal is accepted iff it is positive |
| Admin.ToggleFlipsEnabled | src/main/java/io/sportpoll/bot/services/AdminSession.java:207-211 | weekly:config:toggle flips `enabled`, keeps the other settings and updates the configuration once |
| Admin.WeeklyDayButton | src/main/java/io/sportpoll/bot/services/AdminSession.java:169-173 | weekly:day:N selects weekday N for N in 1..7 and throws the day-range error otherwise, changing nothing |
| Admin.ConfirmDiscardsDraft | src/main/java/io/sportpoll/bot/services/AdminSession.java:312-320 | confirming hands the draft to createPoll and discards it; with no draft it throws NullPointerException |
| Admin.PollMenuKeepsDraft | src/main/java/io/sportpoll/bot/services/AdminSession.java:91-96 | opening the poll menu again keeps the draft it started |
| Admin.GroupWithoutAction | src/main/java/io/sportpoll/bot/services/AdminSession.java:127-130 | callback data naming only a menu group throws ArrayIndexOutOfBoundsException |
| Admin.AdminSession.constructor | src/main/java/io/sportpoll/bot/services/AdminSession.java:55-62 | no draft, no edit target, no page shown |
| Admin.AdminSession.HandleUpdate | src/main/java/io/sportpoll/bot/services/AdminSession.java:72-84 | the session fields, pages and effect on config, timers and poll are those of UpdateReaction |
| Admin.AdminSession.ShowMainMenu | src/main/java/io/sportpoll/bot/services/AdminSession.java:86-89 | the main menu is shown |
| Admin.AdminSession.ShowWeeklyMenu | src/main/java/io/sportpoll/bot/services/AdminSession.java:104-124 | the weekly menu is shown |
| Admin.AdminSession.ShowPollMenu | src/main/java/io/sportpoll/bot/services/AdminSession.java:91-102 | as PollMenuReaction |
| Admin.AdminSession.StartEditing | src/main/java/io/sportpoll/bot/services/AdminSession.java:220-225 | the target is set and its prompt shown with the current value |
| Admin.AdminSession.UpdateOwnConfig | src/main/java/io/sportpoll/bot/services/WeeklyPollScheduler.java:64-74 | updateConfig on the scheduler's own config: the settings stay and the scheduler reschedules |
| Admin.AdminSession.HandleCallback | src/main/java/io/sportpoll/bot/services/AdminSession.java:126-218 | as CallbackReaction: the data split on ':' and dispatched on its first part |
| Admin.AdminSession.HandleMainCallback | src/main/java/io/sportpoll/bot/services/AdminSession.java:129-139 | as the main-menu branch: create, weekly, menu, close |
| Admin.AdminSession.HandlePollCallback | src/main/java/io/sportpoll/bot/services/AdminSession.java:140-166 | as the draft branch: edit a field, confirm, or show the menu |
| Admin.AdminSession.HandleWeeklyCallback | src/main/java/io/sportpoll/bot/services/AdminSession.java:167-216 | as the weekly branch: set the day, wait for a day or hour, configure, or show the menu |
| Admin.AdminSession.HandleWeeklyConfig | src/main/java/io/sportpoll/bot/services/AdminSession.java:180-212 | as the weekly:config branch |
| Admin.AdminSession.HandlePollConfirmation | src/main/java/io/sportpoll/bot/services/AdminSession.java:312-320 | createPoll from the draft, then no draft and the main menu shown; with no draft NullPointerException and nothing else |
| Admin.AdminSession.HandleEdit | src/main/java/io/sportpoll/bot/services/AdminSession.java:227-310 | as EditReaction for the current target; nothing without one |
| Admin.AdminSession.EditDraft | src/main/java/io/sportpoll/bot/services/AdminSession.java:231-252 | the draft cases of EditReaction |
| Admin.AdminSession.EditWeekly | src/main/java/io/sportpoll/bot/services/AdminSession.java:253-300 | the weekly cases of EditReaction, with updateConfig after the setter |
| Admin.AdminSession.SetWeeklyValue | src/main/java/io/sportpoll/bot/services/AdminSession.java:253-300 | the setter call of an accepted weekly edit sets the settings EditReaction names |
| CommandUtils.IsCommandIff | src/main/java/io/sportpoll/bot/utils/CommandUtils.java:4-9 | a text is a command iff it is non-null and its first character above U+0020 is '/' |
| CommandUtils.NormalizeCommand | src/main/java/io/sportpoll/bot/utils/CommandUtils.java:31-46 | glued sign texts get one space after the sign; every other text is only trimmed |
| CommandUtils.NormalizeKeepsText | src/main/java/io/sportpoll/bot/utils/CommandUtils.java:31-46 | apart from whitespace, normalising gives back the trimmed text |
| CommandUtils.SpaceAfterSignKeepsText | src/main/java/io/sportpoll/bot/utils/CommandUtils.java:34-43 | the inserted space is the only change |
| CommandUtils.NormalizedCommandEnds | src/main/java/io/sportpoll/bot/utils/CommandUtils.java:31-46 | a normalised command starts with '/' and ends where its trimmed text ends |
| CommandUtils.NormalizedCommandIsTight | src/main/java/io/sportpoll/bot/utils/CommandUtils.java:15-16 | a normalised command is its own trim and has no leading or trailing whitespace |
| CommandUtils.Tokens | src/main/java/io/sportpoll/bot/utils/CommandUtils.java:16 | a command has at least one token and no token is empty or holds whitespace |
| CommandUtils.TokensKeepText | src/main/java/io/sportpoll/bot/utils/CommandUtils.java:16 | the tokens hold every character of the trimmed text except whitespace, in order |
| CommandUtils.ParseCommand | src/main/java/io/sportpoll/bot/utils/CommandUtils.java:11-17 | "" exactly for non-commands; otherwise a '/'-led word without whitespace |
| CommandUtils.ParseArguments | src/main/java/io/sportpoll/bot/utils/CommandUtils.java:19-29 | no arguments for non-commands; no argument is empty or holds whitespace |
| CommandUtils.CommandIsFirstToken | src/main/java/io/sportpoll/bot/utils/CommandUtils.java:16 | the command word is the first token |
| CommandUtils.ArgumentsAreLaterTokens | src/main/java/io/sportpoll/bot/utils/CommandUtils.java:24-28 | the arguments are the tokens after the first |
| CommandUtils.CommandThenArguments | src/main/java/io/sportpoll/bot/utils/CommandUtils.java:15-29 | the command word followed by the arguments are exactly the tokens, and they keep all non-whitespace text |
| CommandUtils.GluedDigits | src/main/java/io/sportpoll/bot/utils/CommandUtils.java:33-38 | "/+N" or "/-N" reads as the sign command with N as its only argument |
| CommandUtils.GluedLetter | src/main/java/io/sportpoll/bot/utils/CommandUtils.java:39-44 | a sign glued to a letter reads as the sign command with the rest's words as arguments |
| CommandUtils.GluedRestTight | src/main/java/io/sportpoll/bot/utils/CommandUtils.java:39-44 | what follows the sign of a glued text is tight |
| CommandUtils.GluedNormalized | src/main/java/io/sportpoll/bot/utils/CommandUtils.java:33-44 | a glued text normalises to the sign command, one space and the rest |
| CommandUtils.GluedSplit | src/main/java/io/sportpoll/bot/utils/CommandUtils.java:33-44 | a glued text splits into the sign command and the rest's tokens |
| CommandUtils.SingleWordCommand | src/main/java/io/sportpoll/bot/utils/CommandUtils.java:45 | a one-word command that is not glued is its own command word, with no arguments |
| CommandUtils.ExampleGluedPlusDigits | src/main/java/io/sportpoll/bot/utils/CommandUtils.java:33-34 | "/+2" gives /+ and ["2"] |
| CommandUtils.ExampleNotCommand | src/main/java/io/sportpoll/bot/utils/CommandUtils.java:12-14 | text not starting with '/' and null give "" and no arguments |
| CommandUtils.ExampleBlankText | src/main/java/io/sportpoll/bot/utils/CommandUtils.java:5-6 | blank text is not a command |
| CommandUtils.ExampleGluedName | src/main/java/io/sportpoll/bot/utils/CommandUtils.java:39-40 | "/+Alice Bob" gives /+ and ["Alice", "Bob"] |
| CommandUtils.ExampleTwoNames | src/main/java/io/sportpoll/bot/utils/CommandUtils.java:24 | whitespace splitting of two names gives the two names |
| CommandUtils.ExamplePlainCommand | src/main/java/io/sportpoll/bot/utils/CommandUtils.java:45 | "/start" gives /start and no arguments |
| JavaText.TrimStartSpec | src/main/java/io/sportpoll/bot/utils/CommandUtils.java:5 | the dropped prefix is all trimmable and the rest starts visible |
| JavaText.TrimEndSpec | src/main/java/io/sportpoll/bot/utils/CommandUtils.java:5 | the dropped suffix is all trimmable and the rest ends visible |
| JavaText.Trim | src/main/java/io/sportpoll/bot/utils/CommandUtils.java:5 | String.trim drops characters up to U+0020 at both ends only |
| JavaText.TrimIsInfix | src/main/java/io/sportpoll/bot/utils/CommandUtils.java:32 | the trimmed text is a contiguous piece of the input with only trimmable characters cut away |
| JavaText.TrimIdempotent | src/main/java/io/sportpoll/bot/utils/CommandUtils.java:16 | trimming twice is trimming once |
| JavaText.BlankIffAllTrimmable | src/main/java/io/sportpoll/bot/models/Vote.java:18 | a text is blank iff every character is at or below U+0020 |
| JavaText.SpaceIsTrimmable | src/main/java/io/sportpoll/bot/utils/CommandUtils.java:16 | every regex \s character is also removed by trim |
| JavaText.WordSpec | src/main/java/io/sportpoll/bot/utils/CommandUtils.java:16 | the first word is the longest whitespace-free prefix |
| JavaText.DropSpacesSpec | src/main/java/io/sportpoll/bot/utils/CommandUtils.java:16 | exactly a leading whitespace run is dropped |
| JavaText.StripTrailingEmptySpec | src/main/java/io/sportpoll/bot/utils/CommandUtils.java:16 | split drops only trailing empty pieces and keeps a prefix ending in a non-empty one |
| JavaText.SplitWhitespace | src/main/java/io/sportpoll/bot/utils/CommandUtils.java:16 | split("\\s+") is the whitespace-separated pieces without trailing empty ones |
| JavaText.PiecesConcat | src/main/java/io/sportpoll/bot/utils/CommandUtils.java:16 | splitting at whitespace runs loses exactly the whitespace |
| JavaText.PiecesOfTight | src/main/java/io/sportpoll/bot/utils/CommandUtils.java:16 | a tight text splits into non-empty whitespace-free pieces |
| JavaText.SplitTight | src/main/java/io/sportpoll/bot/utils/CommandUtils.java:16 | on a tight text the tokens are non-empty, whitespace-free and hold every other character |
| JavaText.SplitTightHead | src/main/java/io/sportpoll/bot/utils/CommandUtils.java:16 | the first token of a tight text is its first word |
| JavaText.SplitTightIsPieces | src/main/java/io/sportpoll/bot/utils/CommandUtils.java:24 | on a tight text split drops nothing |
| JavaText.SplitAfterWord | src/main/java/io/sportpoll/bot/utils/CommandUtils.java:24 | a word, one space and a tight rest split into the word then the rest's tokens |
| JavaText.IndexOf | src/main/java/io/sportpoll/bot/config/WeeklyPollConfig.java:88 | the position of the first separator in a text that contains one |
| JavaText.JoinCharPieces | src/main/java/io/sportpoll/bot/config/WeeklyPollConfig.java:88 | joining the pieces of a split with the separator gives back the text |
| JavaText.SplitOnChar | src/main/java/io/sportpoll/bot/config/WeeklyPollConfig.java:88 | split(":") is the raw pieces between separators with exactly the trailing empty ones dropped; no piece holds the separator; a text without one is its own single piece |
| JavaText.SplitOnCharOfTwo | src/main/java/io/sportpoll/bot/config/WeeklyPollConfig.java:88 | two separator-free texts joined by one separator split back into those two |
| JavaText.SplitOnCharOfThree | src/main/java/io/sportpoll/bot/services/AdminSession.java:127 | three separator-free texts, the last non-empty, joined by separators split back into those three |
| JavaText.ParseInt | src/main/java/io/sportpoll/bot/config/WeeklyPollConfig.java:90-91 | Integer.parseInt: an optional sign and ASCII digits whose value fits 32 bits, or NumberFormatException |
| JavaText.NatToString | src/main/java/io/sportpoll/bot/services/AdminSession.java:158 | String.valueOf of a non-negative int is a non-empty string of ASCII digits |
| JavaText.DigitsValueOfNatToString | src/main/java/io/sportpoll/bot/services/AdminSession.java:158 | reading the digits of a number gives the number back |
| JavaText.ParseIntOfNatToString | src/main/java/io/sportpoll/bot/services/AdminSession.java:158 | parseInt inverts String.valueOf on the non-negative int range |
| JavaTime.DayOfWeek.Value | src/main/java/io/sportpoll/bot/config/WeeklyPollConfig.java:84 | getValue runs 1 (Monday) to 7 (Sunday) |
| JavaTime.DayOf | src/main/java/io/sportpoll/bot/config/WeeklyPollConfig.java:84 | DayOfWeek.of(n) has ISO value n |
| JavaTime.DayOfValue | src/main/java/io/sportpoll/bot/config/WeeklyPollConfig.java:84 | of(getValue(d)) is d |
| JavaTime.TimeOf | src/main/java/io/sportpoll/bot/config/WeeklyPollConfig.java:94 | LocalTime.of(h, m) has hour h, minute m and zero seconds and nanoseconds |
| JavaTime.SecondsBetween | src/main/java/io/sportpoll/bot/services/WeeklyPollScheduler.java:113 | whole seconds between two instants, truncated toward zero |
| JavaTime.DaySplit | src/main/java/io/sportpoll/bot/services/WeeklyPollScheduler.java:98-102 | division by a day of whole days plus a time of day |
| JavaTime.WithDayOfWeekSpec | src/main/java/io/sportpoll/bot/services/WeeklyPollScheduler.java:98 | with(day) keeps the week and time of day and lands on that weekday |
| JavaTime.WithDayOfWeekShift | src/main/java/io/sportpoll/bot/services/WeeklyPollScheduler.java:98 | with(day) moves to day getValue()-1 of the week |
| JavaTime.WeekSplit | src/main/java/io/sportpoll/bot/services/WeeklyPollScheduler.java:98 | division by seven of whole weeks plus a weekday |
| JavaTime.AtTimeSpec | src/main/java/io/sportpoll/bot/services/WeeklyPollScheduler.java:99-102 | setting the clock fields keeps the day and gives exactly that time with zero nanoseconds |
| WeeklyConfig.ParseStartTime | src/main/java/io/sportpoll/bot/config/WeeklyPollConfig.java:87-95 | a parsed time has two ':'-pieces that read as its hour and minute, with zero seconds; any other number of pieces is the format error |
| WeeklyConfig.ParseStartTimeOfNumbers | src/main/java/io/sportpoll/bot/config/WeeklyPollConfig.java:90-94 | "H:M" in decimal sets exactly H:M; an hour above 23 or a minute above 59 is the matching range error |
| WeeklyConfig.ParseStartTimeWithoutColon | src/main/java/io/sportpoll/bot/config/WeeklyPollConfig.java:88-89 | a text without ':' is the format error |
| WeeklyConfig.WeeklyPollConfig.constructor | src/main/java/io/sportpoll/bot/config/WeeklyPollConfig.java:16-24 | Thursday 13:00, 12 votes, enabled, and the default texts |
| WeeklyConfig.WeeklyPollConfig.SetQuestion | src/main/java/io/sportpoll/bot/config/WeeklyPollConfig.java:30-32 | only the question changes |
| WeeklyConfig.WeeklyPollConfig.SetPositiveOption | src/main/java/io/sportpoll/bot/config/WeeklyPollConfig.java:38-40 | only the positive option changes |
| WeeklyConfig.WeeklyPollConfig.SetNegativeOption | src/main/java/io/sportpoll/bot/config/WeeklyPollConfig.java:46-48 | only the negative option changes |
| WeeklyConfig.WeeklyPollConfig.SetTargetVotes | src/main/java/io/sportpoll/bot/config/WeeklyPollConfig.java:54-56 | only the target changes |
| WeeklyConfig.WeeklyPollConfig.SetDayOfWeek | src/main/java/io/sportpoll/bot/config/WeeklyPollConfig.java:62-64 | only the day changes |
| WeeklyConfig.WeeklyPollConfig.SetStartTime | src/main/java/io/sportpoll/bot/config/WeeklyPollConfig.java:70-72 | only the start time changes |
| WeeklyConfig.WeeklyPollConfig.SetEnabled | src/main/java/io/sportpoll/bot/config/WeeklyPollConfig.java:78-80 | only `enabled` changes |
| WeeklyConfig.WeeklyPollConfig.SetDayOfWeekNumber | src/main/java/io/sportpoll/bot/config/WeeklyPollConfig.java:82-85 | succeeds iff 1 <= day <= 7 and then sets DayOfWeek.of(day); otherwise the range error and no change |
| WeeklyConfig.WeeklyPollConfig.SetStartTimeText | src/main/java/io/sportpoll/bot/config/WeeklyPollConfig.java:87-95 | sets the parsed time, or throws the parse error and changes nothing |
| Votes.NewVote | src/main/java/io/sportpoll/bot/models/Vote.java:13-19 | the getters return the constructor's requester id, requester name and voter name |
| Votes.AnonymityRule | src/main/java/io/sportpoll/bot/models/Vote.java:18 | a vote is anonymous iff its voter name is null or only characters up to U+0020 |
| Votes.NewAnonymousVote | src/main/java/io/sportpoll/bot/models/Vote.java:21-23 | the two-argument constructor gives a null voter name and an anonymous vote |
| Votes.NamedVoteIsNotAnonymous | src/main/java/io/sportpoll/bot/models/Vote.java:18 | a name with a visible character makes a non-anonymous vote for that name |
| Votes.BlankNamedVoteIsAnonymous | src/main/java/io/sportpoll/bot/models/Vote.java:18 | a blank name, the empty one included, makes an anonymous vote |
| Menus.AllMenusComplete | src/main/java/io/sportpoll/bot/ui/Menu.java:3-6 | values() lists every constant |
| Menus.FindById | src/main/java/io/sportpoll/bot/ui/Menu.java:18-25 | a found constant is in the list and has the id; none is found iff no constant has it |
| Menus.FromId | src/main/java/io/sportpoll/bot/ui/Menu.java:18-25 | the result has exactly the given id; null for null or an id no constant has |
| Menus.IdsDistinctAndNonEmpty | src/main/java/io/sportpoll/bot/ui/Menu.java:3-6 | ids are pairwise distinct and non-empty |
| Menus.FromIdOfId | src/main/java/io/sportpoll/bot/ui/Menu.java:14-25 | fromId(getId(m)) is m |
| Menus.FromIdIsCaseSensitive | src/main/java/io/sportpoll/bot/ui/Menu.java:18-25 | the upper-case spelling of an id names no menu |
| UIText.DayShortAgreesWithWeeklyMenu | src/main/java/io/sportpoll/bot/constants/UIText.java:77-88 | getDayShort of a weekday's name is the abbreviation the weekly menu's own switch gives |
| UIText.DayShortDistinct | src/main/java/io/sportpoll/bot/constants/UIText.java:68-74 | distinct weekdays have distinct abbreviations |
| UIText.DayShortOfOtherText | src/main/java/io/sportpoll/bot/constants/UIText.java:86 | any text that is not an English day name comes back unchanged |

## Left out

- Telegram transport: requests go into the manager's `events` log or the session's `pages`. Replies are parameters. Bot wiring, update routing, `MessageUtils` and `TelegramClientService` are not part of this model.
- Message wording: the Ukrainian texts, HTML formatting, `String.format` templates and inline keyboards. The status is modelled by its structure (numbered entries, remaining count, completion flag).
- `AdminSession.sendPage`'s choice between editing and sending a message, with `lastMenuMessageId`, is left out: it only decides how a page reaches the chat.
- `deleteUserMessage` is left out for the same reason.
- The main menu's "active poll" variant: `MainMenuPage` does not record `hasActivePoll`, because only the keyboard text depends on it.
- Timing: timers are modelled as armed delays that fire when `OnTimer` is called. Real time, threads and `synchronized` are left out.
- `shutdown()` does not cancel delayed tasks already queued. The model keeps only the newly armed timer, so old timer chains that survive a reschedule are not represented.
- `Scheduling.OffsetBounds`: the jitter `(long)(randomFactor * windowMillis)` is modelled as a real factor in [0, 1), the range of `nextDouble`, with the product truncated toward zero. The floating-point rounding of the product and the 64-bit saturation of the cast are not modelled.
- `Duration.toMillis` drops parts below a millisecond. The model's windows are whole milliseconds.
- The timer can fire up to a second early, because `SECONDS.between` truncates. The model keeps that truncation but leaves out when a real executor actually runs the task.
- Persistence, `Serializable`, `DataStore` and the getters that fetch the scheduler's config and manager lazily: the model passes these objects in directly.
- `Config.getInstance()`: the target group chat id and the admin id list become parameters.
- `UUID`s, `System.err` and `println` logging are left out.
- Java `int` arithmetic wrap-around outside `parseInt` (vote counts, the remaining count) is left out: these values stay far below 2^31.
- JavaText.ParseInt: `Integer.parseInt` reads digits through `Character.digit`, so it also accepts non-ASCII Unicode decimal digits (`/- ٣` revokes vote 3). The model accepts ASCII digits only and returns None for any other digit, because the Unicode decimal-digit table is not modelled.
- Null strings are modelled only where the source tests for them (`Option` in `isCommand`, `validateInput`, `Vote`'s voter name, `Menu.fromId`). Elsewhere strings are non-null.
- Exceptions carry no message except the send failure in `PollCommand.sendPoll`.
- `HashMap` iteration order: the direct-voter map is a sequence. New keys are appended, and a removal keeps the others in order. A real `HashMap` may reorder its entries; the numbering lemmas hold for whatever order the sequence has.
- Failing Telegram calls: only the native poll's send can fail in the model. Every other call is assumed to succeed. These are the status send and pin, `StopPoll`, the unpin, the status edit, and `MessageUtils.sendMessage`, `sendError` and `acknowledgeCallback`. In the source each of these can throw `TelegramApiException` and abort its operation partway:
  - a failing `StopPoll` in `closeCurrentPoll`, `closeCurrentPollSilent` or `checkMondayClose` skips `resetPoll`, so the poll stays active;
  - a failing confirmation in `addExternalVote` skips `checkCompletion`;
  - a failing status send or pin inside `initializePoll` leaves the poll active without a recorded status message.
- PollCommands.CreatePollStep: on the last path above, `createPoll`'s outer `catch (Exception)` reports "Failed to create poll: …" while the manager is already active. The model has no such path, so its promise that a failed creation leaves the manager unchanged holds only under the assumption that those calls succeed.
- Ledger.User: the map key keeps only the user's id and first name. Telegram's `User` compares more fields (last name, user name and others). In the source, an answer that arrives after one of those fields changed is therefore a different key, so a retraction can miss the earlier "yes" and leave it counted. The model cannot express this.
- The fallback in `updateStatusMessage` that re-creates the status when the edit fails is left out; the status edit is assumed to succeed.
- `Menus.FindById` states the found constant has the id but not that it is the first such constant. Ids are distinct (`Menus.IdsDistinctAndNonEmpty`), so the two coincide.
- `resetPollPublic`, `hasActivePoll`, plain getters and the `handleRevoke(Update)` overload are not separate members: each only forwards to a modelled member or reads a field.
