# CTFNotifier notification lifecycle, in Dafny

This project models the core of the CTFNotifier Discord bot. Users collect CTF events in a
personal agenda, and the bot sends each of them four direct messages per event:
- a reminder an hour before the start;
- a good-luck message at the start;
- an ending-soon message an hour before the end;
- congratulations once the event is over.

Times are integer UTC seconds throughout.

The modules follow the repository's files:

| module | repository file | form |
|---|---|---|
| `Records` | `utils/database.py` (the `user_events` row) | datatypes |
| `Database` | `utils/database.py` | class `EventStore` over `map<(user_id, event_name), Record>`; `modifies` methods for the mutators, query methods for the readers |
| `Evaluator` | `cogs/notification_service.py` (the four window checks) | pure function `DueKinds(record, now)` |
| `NotificationService` | `cogs/notification_service.py` (`check_events_loop`, `cleanup_past_events_loop`) | spec function `RunCycle`, method `CheckEventsCycle` proved against it |
| `CycleProperties` | `cogs/notification_service.py` | lemmas about `RunCycle` |
| `EventCommands` | `cogs/event_commands.py` | URL id, `/add`, `/custom` and `/share` checks, autocomplete loop |
| `CtftimeApi` | `utils/ctftime_api.py` | post-response normalisation and the upcoming-events loop |
| `Helpers` | `utils/helpers.py` | `<t:SECONDS:STYLE>` token |
| `Decimal`, `Wrappers` | — | decimal numerals, `Option`/`Result` |

Everything a run of the scheduler cannot decide itself is an `Oracle`:
- whether the table could be read;
- whether a row's stored times parse;
- whether `get_user` or `fetch_user` resolved the user when a given row was handled (per row: a lookup can fail for one row and succeed for the next);
- whether a message was delivered;
- whether the flag write after it held.

Behaviour of the code that the model keeps on purpose:

- **Resend after a failed write.** Each block is guarded by its flag, and the congratulations block's comment (`cogs/notification_service.py:207`) says the message is sent "only once". The flag is written only after the message has gone out, inside the same `try`. A message that was delivered but whose flag write then failed therefore leaves the flag at 0. Any later run that still finds the row inside its window sends it again. At most once holds only when the write holds. `RecordedMessageIsNotResent` proves the guarantee under that condition, and `FailedWriteAllowsResend` shows the gap.
- **One bad row stops the run.** Stored times are parsed outside any per-row `try`. A row whose times do not parse therefore ends the whole run in the top-level handler. Earlier rows keep their effects, later rows are not looked at, and the loop backs off for five intervals.
- **Reminder timing.** By `cogs/notification_service.py:103` the reminder is due from start − 1 h until start − 55 min, and never after. Two minutes before the start nothing is due. `ReminderThenGoodLuck` proves this timeline.
- **Back-off and the good-luck window.** After a failed run the loop sleeps 5 × 20 s = 100 s (`cogs/notification_service.py:240`). That is longer than the one-minute good-luck window. A run that fails one second before the start can therefore make the bot skip the good-luck message for good. `EveryWindowHoldsACheck` holds only for a schedule without back-off, and `BackoffCanSkipGoodLuck` shows the gap.
- **The URL pattern's dot.** The `.` in `ctftime.org` is not escaped, so any character other than a newline is accepted there.

## Model

| member | source | states |
|---|---|---|
| Records.Flags.Set | CTFNotifier_Discord_Bot_v2/utils/database.py:156-159 | writing one flag column sets that flag to the value and leaves the other three as they were |
| Records.KindOfColumn | CTFNotifier_Discord_Bot_v2/utils/database.py:147-153 | a column name is accepted iff it is one of the four `*_sent` names, and an accepted name maps back to the column of its kind |
| Records.FlagColumnRoundTrip | CTFNotifier_Discord_Bot_v2/cogs/notification_service.py:117-119 | the column each notification block writes always passes the allow-list and names that block's own kind |
| Records.NewRecord | CTFNotifier_Discord_Bot_v2/utils/database.py:46-66 | the inserted row is keyed by (user, event_name) and starts with all four flags at 0 |
| Database.SetFlag | CTFNotifier_Discord_Bot_v2/utils/database.py:155-159 | the UPDATE keeps the key set, changes only the flags of the addressed row, sets exactly the named flag, and changes nothing when the key is absent |
| Database.DeleteCount | CTFNotifier_Discord_Bot_v2/utils/database.py:124-130 | deleting a set of present keys removes exactly that many rows (the rowcount) |
| Database.InsertOrdered | CTFNotifier_Discord_Bot_v2/utils/database.py:137-139 | inserting a row into a listing sorted by (user_id, start_time) keeps it sorted and adds exactly that row |
| Database.EventStore.constructor | CTFNotifier_Discord_Bot_v2/utils/database.py:15-38 | a fresh store holds no rows |
| Database.EventStore.AddEventToUser | CTFNotifier_Discord_Bot_v2/utils/database.py:42-76 | returns true iff the key was absent, in which case the new row is added; on a duplicate the table is unchanged |
| Database.EventStore.GetEventDetails | CTFNotifier_Discord_Bot_v2/utils/database.py:91-100 | returns the stored row for the key, or None iff the key is absent |
| Database.EventStore.Scan | CTFNotifier_Discord_Bot_v2/utils/database.py:137-140 | the SELECT yields every selected row exactly once (as a multiset), sorted by (user_id, start_time) |
| Database.EventStore.GetUserEvents | CTFNotifier_Discord_Bot_v2/utils/database.py:79-88 | exactly the user's rows, each once, all stored rows of that user, sorted by start_time ascending |
| Database.EventStore.GetAllEventsForNotifications | CTFNotifier_Discord_Bot_v2/utils/database.py:133-140 | every stored row exactly once, sorted by (user_id, start_time) |
| Database.EventStore.RemoveEventFromUser | CTFNotifier_Discord_Bot_v2/utils/database.py:103-118 | removes only that key and returns true iff it existed |
| Database.EventStore.ClearUserEvents | CTFNotifier_Discord_Bot_v2/utils/database.py:121-130 | removes all and only the user's rows and returns how many there were |
| Database.EventStore.UpdateNotificationFlag | CTFNotifier_Discord_Bot_v2/utils/database.py:143-163 | an unknown column name is an error and leaves the table untouched; otherwise exactly that flag of that key is written |
| Database.EventStore.RemovePastEvents | CTFNotifier_Discord_Bot_v2/utils/database.py:166-178 | removes exactly the rows with end_time < now − 1 day and returns how many |
| Database.RetentionBoundary | CTFNotifier_Discord_Bot_v2/utils/database.py:169-173 | a row survives the purge iff it ended no more than one day before now |
| Database.InsertThenLookup | CTFNotifier_Discord_Bot_v2/utils/database.py:46-66 | reading back a fresh insert gives every column of the dictionary (url as event_url, start/finish as start_time/end_time) and clear flags |
| Evaluator.DueKinds | CTFNotifier_Discord_Bot_v2/cogs/notification_service.py:97-208 | each kind is due iff its flag is 0 and now lies in its window: reminder [start−3600, start−3300), good luck [start, start+60), ending soon [end−3600, end−3300), congratulations [end, ∞) |
| Evaluator.OpenWindowIsDue | CTFNotifier_Discord_Bot_v2/cogs/notification_service.py:97-208 | a kind whose flag is clear is due at every instant of its window |
| Evaluator.SentIsNeverDue | CTFNotifier_Discord_Bot_v2/cogs/notification_service.py:98-102 | a kind whose flag is set is never due, at any time |
| Evaluator.CongratulationsNeverExpires | CTFNotifier_Discord_Bot_v2/cogs/notification_service.py:206-208 | once due, congratulations stays due at every later time until its flag is set |
| Evaluator.FirstTickFrom | CTFNotifier_Discord_Bot_v2/cogs/notification_service.py:14 | the first check of a 20-second schedule at or after t lies in [t, t+20) |
| Evaluator.EveryWindowHoldsACheck | CTFNotifier_Discord_Bot_v2/cogs/notification_service.py:14-31 | with a 20-second interval every window holds a check, so a clear flag is due at some check of any schedule started before the window opens |
| Evaluator.ReminderThenGoodLuck | CTFNotifier_Discord_Bot_v2/cogs/notification_service.py:97-137 | for an event starting an hour after t: nothing due two minutes before the start, only the reminder at t, nothing a minute later once it is flagged, only good luck at the start |
| NotificationService.RunCycle | CTFNotifier_Discord_Bot_v2/cogs/notification_service.py:41-235 | a run neither adds nor removes rows |
| NotificationService.BackoffCanSkipGoodLuck | CTFNotifier_Discord_Bot_v2/cogs/notification_service.py:236-240 | after a run that fails one second before the start, the next check after the 100-second back-off lies beyond the whole good-luck window, so good luck is never due at a check |
| NotificationService.Notify | CTFNotifier_Discord_Bot_v2/cogs/notification_service.py:101-131 | one notification block keeps every key and every other row, and appends at most its own kind's message for its row |
| NotificationService.ProcessRecord | CTFNotifier_Discord_Bot_v2/cogs/notification_service.py:63-231 | handling one row keeps every key and every other row, and sends at most four messages |
| NotificationService.SendIfDue | CTFNotifier_Discord_Bot_v2/cogs/notification_service.py:115-131 | a message goes out iff its kind is due and delivery succeeds; the flag is written only after that and only if the write holds |
| NotificationService.HandleRow | CTFNotifier_Discord_Bot_v2/cogs/notification_service.py:63-231 | handling one row changes the store and the sent messages exactly as the specification function ProcessRecord says |
| NotificationService.CheckEventsCycle | CTFNotifier_Discord_Bot_v2/cogs/notification_service.py:32-240 | a failed read backs off 5 × 20 s with nothing changed; otherwise the snapshot is the full ordered listing, the final table and messages are those of RunCycle, and the run backs off iff it did not complete |
| NotificationService.CleanupPastEvents | CTFNotifier_Discord_Bot_v2/cogs/notification_service.py:242-255 | a failing store is reported, not raised, and changes nothing; otherwise exactly the rows older than the retention cutoff go and their count is reported |
| CycleProperties.NotifyOnlyRaises | CTFNotifier_Discord_Bot_v2/cogs/notification_service.py:115-131 | one notification block only turns flags from 0 to 1 |
| CycleProperties.ProcessRecordOnlyRaises | CTFNotifier_Discord_Bot_v2/cogs/notification_service.py:95-231 | handling one row only turns flags from 0 to 1 |
| CycleProperties.CycleOnlyRaisesFlags | CTFNotifier_Discord_Bot_v2/cogs/notification_service.py:41-235 | a run keeps every row, changes no column but the flags, and only turns flags from 0 to 1 |
| CycleProperties.CycleOnlyAppends | CTFNotifier_Discord_Bot_v2/cogs/notification_service.py:41-235 | messages already sent are kept as a prefix |
| CycleProperties.NotifyNewFlag | CTFNotifier_Discord_Bot_v2/cogs/notification_service.py:115-119 | a flag a block newly sets is its own kind on its own row, the write held, and its message was just sent |
| CycleProperties.ProcessRecordNewFlag | CTFNotifier_Discord_Bot_v2/cogs/notification_service.py:63-231 | a flag newly set while handling a row belongs to that row, whose user resolved, and its message was sent |
| CycleProperties.NewFlagMeansDelivered | CTFNotifier_Discord_Bot_v2/cogs/notification_service.py:115-119 | every flag a run turns from 0 to 1 has its message among the run's deliveries, and the row parsed, the user resolved and the write held |
| CycleProperties.UnresolvedUserIsSkipped | CTFNotifier_Discord_Bot_v2/cogs/notification_service.py:63-93 | a row whose user cannot be resolved gets no message and no flag change, and the run goes on |
| CycleProperties.CompletesIffAllParse | CTFNotifier_Discord_Bot_v2/cogs/notification_service.py:45-61 | a run reaches the end of the snapshot iff every row's times parse |
| CycleProperties.NotifyBatch | CTFNotifier_Discord_Bot_v2/cogs/notification_service.py:101-131 | a block appends at most one message, due for its row, after the messages of earlier blocks |
| CycleProperties.ProcessRecordBatch | CTFNotifier_Discord_Bot_v2/cogs/notification_service.py:95-231 | the messages one row yields are each due for it, and no kind occurs twice |
| CycleProperties.DeliveriesWereDue | CTFNotifier_Discord_Bot_v2/cogs/notification_service.py:41-231 | every message a run sends was due for a parsed row of the snapshot, whose user resolved and whose delivery succeeded |
| CycleProperties.AtMostOncePerRow | CTFNotifier_Discord_Bot_v2/cogs/notification_service.py:41-231 | over a snapshot with one row per key, a run sends each kind at most once per row |
| CycleProperties.DueIsDelivered | CTFNotifier_Discord_Bot_v2/cogs/notification_service.py:95-231 | a kind due for a row whose user resolved and whose delivery succeeds is among the messages the row yields |
| CycleProperties.NotifyEffect | CTFNotifier_Discord_Bot_v2/cogs/notification_service.py:115-131 | after a block, the row's flag of that kind is set iff it was set before or the block fired and its write held |
| CycleProperties.ProcessRecordRowEffect | CTFNotifier_Discord_Bot_v2/cogs/notification_service.py:63-231 | handling row `r` rewrites only the flags of its key, raising each flag whose block fired (due, resolved, delivered) and whose write held, in any stored version of the row |
| CycleProperties.ProcessRecordEffect | CTFNotifier_Discord_Bot_v2/cogs/notification_service.py:63-231 | handling a row replaces it by the row with exactly the fired-and-persisted flags raised |
| CycleProperties.CompletedRunEffect | CTFNotifier_Discord_Bot_v2/cogs/notification_service.py:41-235 | a completed run over distinct stored rows rewrites exactly those rows, each independently of the order |
| CycleProperties.FullListingKeys | CTFNotifier_Discord_Bot_v2/utils/database.py:133-140 | the full listing holds every key of the table exactly once |
| CycleProperties.CompletedRunSetsExactly | CTFNotifier_Discord_Bot_v2/cogs/notification_service.py:37-235 | a completed run over the full listing leaves every row with exactly its fired-and-persisted flags raised |
| CycleProperties.ProcessRecordMarks | CTFNotifier_Discord_Bot_v2/cogs/notification_service.py:63-231 | each message a row yields whose write held has its flag set after the row |
| CycleProperties.WrittenDeliveriesAreMarked | CTFNotifier_Discord_Bot_v2/cogs/notification_service.py:41-235 | after a run, every message whose write held is recorded by its flag |
| CycleProperties.RecordedMessageIsNotResent | CTFNotifier_Discord_Bot_v2/cogs/notification_service.py:98-119 | a message sent and recorded in one run is never due again, at any later time |
| CycleProperties.FailedWriteAllowsResend | CTFNotifier_Discord_Bot_v2/cogs/notification_service.py:115-131 | if the flag write fails, the kind is still due at any later time inside its window |
| Helpers.TruncatedSeconds | CTFNotifier_Discord_Bot_v2/utils/helpers.py:24 | `int(timestamp)` truncates toward zero: the result is within one second of the exact instant, on the side of zero |
| Helpers.ToUtc | CTFNotifier_Discord_Bot_v2/utils/helpers.py:18-23 | a naive datetime is read as UTC; an aware one is shifted so that UTC plus its offset is the wall-clock reading, with the microseconds kept |
| Helpers.TokenRoundTrip | CTFNotifier_Discord_Bot_v2/utils/helpers.py:24 | `<t:N:STYLE>` reads back as N and STYLE, for every integer and every style |
| Helpers.FormatDiscordTimestamp | CTFNotifier_Discord_Bot_v2/utils/helpers.py:7-24 | the token reads back as the truncated UTC seconds of the datetime and the style ("F" by default) |
| Helpers.NaiveIsUtc | CTFNotifier_Discord_Bot_v2/utils/helpers.py:18-23 | a naive datetime gives the same token as the aware UTC datetime with the same reading, and an offset is subtracted before truncation |
| Decimal.NatToString | CTFNotifier_Discord_Bot_v2/utils/helpers.py:24 | `str(n)` is a non-empty digit string without leading zero whose value is n |
| Decimal.IntToString | CTFNotifier_Discord_Bot_v2/utils/helpers.py:24 | `str(i)` is the magnitude's numeral, with a minus sign exactly when i is negative |
| Decimal.IntToStringRoundTrip | CTFNotifier_Discord_Bot_v2/utils/helpers.py:24 | reading back `str(i)` gives i, and the text holds no colon |
| Decimal.LeadingDigits | CTFNotifier_Discord_Bot_v2/cogs/event_commands.py:15 | the greedy `\d+` run: the longest digit prefix |
| Decimal.LeadingDigitsOfNumeral | CTFNotifier_Discord_Bot_v2/cogs/event_commands.py:15 | the greedy run stops exactly at the end of a numeral followed by a non-digit |
| EventCommands.AfterScheme | CTFNotifier_Discord_Bot_v2/cogs/event_commands.py:15 | matches iff the URL starts with `https://` or `http://`, and then the URL is that scheme followed by the result |
| EventCommands.ExtractEventId | CTFNotifier_Discord_Bot_v2/cogs/event_commands.py:37-45 | an id is only read from a URL that starts with the scheme |
| EventCommands.SchemeIsStripped | CTFNotifier_Discord_Bot_v2/cogs/event_commands.py:15 | both `https://` and `http://` are accepted and removed |
| EventCommands.HostThenNumeral | CTFNotifier_Discord_Bot_v2/cogs/event_commands.py:15 | after a matching host and path the id is the value of the following numeral, whatever follows it |
| EventCommands.EventUrlRoundTrip | CTFNotifier_Discord_Bot_v2/cogs/event_commands.py:37-45 | the event URL written with id n, under either scheme and with any non-digit suffix, yields n |
| EventCommands.DotMatchesAnyCharacter | CTFNotifier_Discord_Bot_v2/cogs/event_commands.py:15 | the unescaped dot lets any character but a newline stand between `ctftime` and `org`, and the id is still read |
| EventCommands.EventUrlYieldsItsId | CTFNotifier_Discord_Bot_v2/cogs/event_commands.py:37-45 | every URL of the pattern's shape (scheme, `ctftime`, one non-newline character, `org/event/`, a numeral, a tail not starting with a digit) yields the numeral's value |
| EventCommands.ExtractedIdComesFromEventUrl | CTFNotifier_Discord_Bot_v2/cogs/event_commands.py:37-45 | conversely, every accepted URL has that shape, and its id is the value of the numeral in it |
| EventCommands.AcceptedIffEventUrl | CTFNotifier_Discord_Bot_v2/cogs/event_commands.py:37-45 | a URL is accepted iff it has that shape |
| EventCommands.NewlineInHostIsRefused | CTFNotifier_Discord_Bot_v2/cogs/event_commands.py:15 | a newline in the dot's place is refused |
| EventCommands.MissingIdIsRefused | CTFNotifier_Discord_Bot_v2/cogs/event_commands.py:37-43 | an event URL without digits after `event/` is refused |
| EventCommands.PrepareAddEvent | CTFNotifier_Discord_Bot_v2/cogs/event_commands.py:37-66 | refused as invalid iff no id, as a fetch failure iff the details are None, as finished iff finish < now; an accepted event is the fetched one and has not finished |
| EventCommands.AddEvent | CTFNotifier_Discord_Bot_v2/cogs/event_commands.py:32-99 | a refused URL or event never reaches the store; an accepted one is inserted iff the user does not have it yet |
| EventCommands.BuildCustomEvent | CTFNotifier_Discord_Bot_v2/cogs/event_commands.py:125-152 | refused iff a date does not parse or start ≥ end; an accepted event passes name, url, description, start and end through and sets the five CTFtime fields to None |
| EventCommands.CreateCustomEvent | CTFNotifier_Discord_Bot_v2/cogs/event_commands.py:113-166 | a refused custom event never reaches the store; an accepted one is inserted iff the user does not have that name yet |
| EventCommands.ShareData | CTFNotifier_Discord_Bot_v2/cogs/event_commands.py:323-334 | the dictionary keeps the event name, and inserted under any user it is the sender's row with that user as owner and all flags cleared |
| EventCommands.ShareEvent | CTFNotifier_Discord_Bot_v2/cogs/event_commands.py:308-354 | nothing happens if the sender lacks the event; otherwise the copy is inserted iff the target does not have that name, else the store is unchanged |
| EventCommands.Truncate | CTFNotifier_Discord_Bot_v2/cogs/event_commands.py:284 | the display name is the first 99 characters, or the whole name if shorter |
| EventCommands.MatchingChoices | CTFNotifier_Discord_Bot_v2/cogs/event_commands.py:281-287 | every offered choice contains `current` ignoring case, is labelled with its truncated name, and comes from one of the events |
| EventCommands.MatchingChoicesConcat | CTFNotifier_Discord_Bot_v2/cogs/event_commands.py:281-287 | matching keeps the events' order: the choices of a concatenation are the concatenated choices |
| EventCommands.MatchingEventIsOffered | CTFNotifier_Discord_Bot_v2/cogs/event_commands.py:282-287 | every matching event yields a choice, one more than the events before it |
| EventCommands.Capped | CTFNotifier_Discord_Bot_v2/cogs/event_commands.py:288-289 | at most 25 choices, a prefix of the list, the whole list when it is short enough |
| EventCommands.FilterChoices | CTFNotifier_Discord_Bot_v2/cogs/event_commands.py:280-290 | the loop with its break yields exactly the first 25 matching choices in event order, or all of them |
| EventCommands.EventAutocomplete | CTFNotifier_Discord_Bot_v2/cogs/event_commands.py:276-290 | the choices are exactly the first 25 (or all) matching choices of the user's listing, which holds each of the user's rows once, sorted by start_time; each choice is for a stored event of the user whose name contains `current` ignoring case, labelled with its first 99 characters |
| CtftimeApi.Join | CTFNotifier_Discord_Bot_v2/utils/ctftime_api.py:51-53 | joining no names gives "", joining one name gives that name |
| CtftimeApi.JoinSnoc | CTFNotifier_Discord_Bot_v2/utils/ctftime_api.py:51-53 | one more name after a non-empty list appends the separator and that name |
| CtftimeApi.JoinLength | CTFNotifier_Discord_Bot_v2/utils/ctftime_api.py:51-53 | the joined text has the names' lengths plus one separator between each pair |
| CtftimeApi.Names | CTFNotifier_Discord_Bot_v2/utils/ctftime_api.py:52 | one name per organizer, "Unknown" when it has no name |
| CtftimeApi.JoinOrganizers | CTFNotifier_Discord_Bot_v2/utils/ctftime_api.py:50-55 | a non-list becomes "Unknown", an empty list "", one organizer its name |
| CtftimeApi.JoinOrganizersSnoc | CTFNotifier_Discord_Bot_v2/utils/ctftime_api.py:50-55 | one more organizer after a non-empty list appends ", " and its name |
| CtftimeApi.JoinOrganizersLength | CTFNotifier_Discord_Bot_v2/utils/ctftime_api.py:50-55 | n organizers give their names' lengths plus n−1 ", " separators |
| CtftimeApi.StripLeft | CTFNotifier_Discord_Bot_v2/utils/ctftime_api.py:60 | the result is a suffix, everything removed before it is whitespace, and it does not start with whitespace |
| CtftimeApi.StripRight | CTFNotifier_Discord_Bot_v2/utils/ctftime_api.py:60 | the result is a prefix, everything removed after it is whitespace, and it does not end with whitespace |
| CtftimeApi.Strip | CTFNotifier_Discord_Bot_v2/utils/ctftime_api.py:60 | `strip()` leaves no whitespace at either end and does not lengthen |
| CtftimeApi.StripRemovesOnlyEnds | CTFNotifier_Discord_Bot_v2/utils/ctftime_api.py:60 | `strip()` gives the slice of the title between a whitespace prefix and a whitespace suffix |
| CtftimeApi.ReplaceChar | CTFNotifier_Discord_Bot_v2/utils/ctftime_api.py:61-63 | after `replace` the replaced character is gone unless the replacement contains it, and no new character appears |
| CtftimeApi.ReplaceConcat | CTFNotifier_Discord_Bot_v2/utils/ctftime_api.py:61-63 | `replace` works character by character: replacing in a concatenation concatenates the replaced parts |
| CtftimeApi.EventNameSlug | CTFNotifier_Discord_Bot_v2/utils/ctftime_api.py:58-64 | the event_name contains no space and no double quote |
| CtftimeApi.CleanTitleIsItsOwnSlug | CTFNotifier_Discord_Bot_v2/utils/ctftime_api.py:58-64 | a title without spaces, quotes or surrounding whitespace is kept as the event_name |
| CtftimeApi.NormalizeEventDetails | CTFNotifier_Discord_Bot_v2/utils/ctftime_api.py:23-66 | None iff a required key is missing or a date does not parse; otherwise the dates and fields pass through, organizers are joined and event_name is the title's slug |
| CtftimeApi.FetchEventDetails | CTFNotifier_Discord_Bot_v2/utils/ctftime_api.py:14-87 | a failed request gives None; an event_name it gives holds no space or double quote |
| CtftimeApi.FilterMembers | CTFNotifier_Discord_Bot_v2/utils/ctftime_api.py:102-120 | an entry is kept iff it has title, start, finish and ctftime_url and both dates parse |
| CtftimeApi.FilterConcat | CTFNotifier_Discord_Bot_v2/utils/ctftime_api.py:102-120 | the filter keeps the list's order |
| CtftimeApi.ProcessUpcoming | CTFNotifier_Discord_Bot_v2/utils/ctftime_api.py:101-122 | the loop keeps exactly the filtered entries in order, each with start_dt and finish_dt set to its parsed dates |
| CtftimeApi.FetchUpcomingEvents | CTFNotifier_Discord_Bot_v2/utils/ctftime_api.py:90-143 | a failed request gives []; otherwise the filtered entries in order, each with start_dt and finish_dt set to its parsed dates |

## Left out

- Discord I/O is not modelled: embeds and their text, `user.send`, `interaction.followup`, `get_user` and `fetch_user`. Their outcomes are oracle inputs.
- The `/agenda` and `/details` commands are not modelled. They only format rows the store returns.
- `ClearConfirmationView` is not modelled: its buttons and timeout are UI. Its confirm button calls `clear_user_events`, which is modelled.
- `general_commands.py` and `main.py` (bootstrap, configuration, logging setup) are not part of this model.
- aiosqlite connections, commits and SQL text are not modelled; the table is an in-memory map.
- SQLite stores datetimes as text, so `remove_past_events` compares strings and both listings' `ORDER BY start_time` (`utils/database.py:84`, `utils/database.py:138`) sort text. The model compares and sorts integer seconds instead.
- `tasks.loop` scheduling, `wait_until_ready`, cog loading and the concurrency of the two loops are not modelled. One run is one method call, and the back-off sleep is a returned delay.
- HTTP requests, JSON decoding, `datetime.fromisoformat`, pytz and time-zone conversion are outside the model. Parsed instants are integer inputs, and a parse failure is a None input or an oracle answer.
- Logging is not modelled.
- Decimal.LeadingDigits: reads ASCII digits only, while Python's `\d` also matches other Unicode decimal digits.
- EventCommands.EventAutocomplete: `str.lower` is an arbitrary function parameter, because Unicode case mapping is not modelled.
- Helpers.TruncatedSeconds: computes on the exact microsecond instant, not the float that `timestamp()` returns, so float rounding is not modelled.
- CtftimeApi.NormalizeEventDetails: assumes the title is a string and every organizer entry is an object whose name, if present, is a string. Other shapes make the source raise an exception that its handlers do not catch; that path is not modelled.
- CtftimeApi.FetchUpcomingEvents: the `limit` request parameter is part of the HTTP request and not modelled, and the decoded response is assumed to be a list of objects. An entry that is not an object makes the logging call's `event.get` (`utils/ctftime_api.py:109`) raise AttributeError, which the `except (ValueError, TypeError)` does not catch; that path is not modelled.
- EventCommands.BuildCustomEvent: comparing a naive with an aware datetime raises TypeError in the source; the model compares instants, so that path is not modelled.
- Database.EventStore.GetUserEvents: the order of rows with equal start_time is left open, as SQL leaves it.
- Evaluator.EveryWindowHoldsACheck: assumes checks exactly 20 s apart. The 100 s back-off after a failed run breaks that assumption, as `NotificationService.BackoffCanSkipGoodLuck` shows.
