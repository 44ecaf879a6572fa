# deskbird desk-booking script, modelled in Dafny

`deskbird.py` books desks with the deskbird workplace service. One run does five things in order:

1. It loads `config.json` and signs in.
2. For each weekday label in `target_days`, it finds the next date with that weekday at most six days ahead.
3. For each such date, it tries the favourite seats in order until the service reports a successful booking.
4. It lists the user's upcoming bookings.
5. It checks in every booking dated today that is not checked in yet.

This project models the decisions of that run. The remote service is not modelled. Its answers are inputs of the model:

- the configuration is an `Option`, because the file may be missing;
- authentication is a flag;
- each booking call gets an answer from a function of the call's position in the run and the request it sends, so an answer may depend on all earlier calls;
- the bookings listing is an `Option` of its results list;
- each check-in call gets an answer from a function of the same kind.

"Today" is one day number, a proleptic Gregorian ordinal as Python's `date.toordinal()` gives it.

Files:

- `wrappers.dfy` (`Wrappers`): `Option` and `Last`.
- `weekdays.dfy` (`Weekdays`):
  - `get_next_occurrence`, modelled as `NextOccurrence(today, target, maxDays)`;
  - the `weekdays_map` table.
- `api.dfy` (`Api`):
  - the records exchanged with the service;
  - the booking payload built by `book_seat`;
  - the three ways a booking call can end: a non-empty `successfulBookings` list, an empty one, or a non-200 status, which `book_seat` raises.
- `orchestrator.dfy` (`Orchestrator`):
  - `main` as specification functions: `TargetDate`, `SeatFallback`, `BookDay`, `TargetDays`/`BookTargetDays`, `DueToday`, `CheckInLog` and `RunOutcome`;
  - the lemmas about them;
  - methods that run the source's loops: `BookFirstAvailable`, `BookLabel`, `BookAllTargetDays`, `CheckInToday` and `Run`. Each method is proved equal to its specification function.

How failures propagate:

- **Hard booking failures.** A non-200 booking response is not recovered seat by seat. `book_seat` raises (deskbird.py:65-66), nothing in the seat loop catches the exception, and the top-level handler exits with status 1 (deskbird.py:234-236). In the model, `HardFail` ends the run: `HardFailAbortsRun` and `ExitCodeReflectsFatalFailures`.
- **Check-in failures.** Only these are caught one by one (deskbird.py:228-233), so a failed check-in does not stop later ones.

## Model

| member | source | states |
|---|---|---|
| Weekdays.WeekdayOf | deskbird.py:146 | `date.weekday()` on a day number: `(ordinal + 6) % 7`, so 0 = Monday .. 6 = Sunday, because ordinal 1 (1 January of year 1) is a Monday. It has no contract of its own. `WeekdayAfter`, `DaysAhead` and `NextOccurrence` state how it moves along the calendar. |
| Weekdays.DaysAhead | deskbird.py:148-152 | The offset from today's weekday to the target is between 1 and 7. It lands on the target weekday, and no smaller positive offset does. |
| Weekdays.NextOccurrence | deskbird.py:140-160 | A result lies strictly after today and at most maxDays ahead, on the target weekday. No earlier day after today has that weekday. The result is None exactly when no day in (today, today+maxDays] has the target weekday. |
| Weekdays.WeekdayAfter | deskbird.py:159 | Adding k days with timedelta moves the weekday k places round the week. |
| Weekdays.NeverToday | deskbird.py:154-157 | The computed offset is never 0, so the result is never today. |
| Weekdays.SixDayWindowMissesOnlyToday | deskbird.py:149-157 | With max_days 6, the resolver returns None exactly when the target is today's own weekday. |
| Weekdays.SameWeekdayIsAWeekAhead | deskbird.py:149-150 | For today's own weekday the only candidate is seven days ahead. It is returned only when maxDays is at least 7. |
| Weekdays.WednesdayToMonday | deskbird.py:148-160 | Worked case: from a Wednesday, the next Monday within six days is five days ahead. |
| Weekdays.WeekdayNumber | deskbird.py:175-183 | Looks a label up in `WeekdaysMap`, the constant holding the weekdays_map dictionary. A label is found exactly when it is one of Mon..Sun. Its number is that label's index, 0 = Monday. |
| Weekdays.WeekdayNumberOfLabel | deskbird.py:175-183 | Every label of the table maps back to its own weekday number. |
| Api.BookingPayload | deskbird.py:53-62 | The body book_seat sends. It has no contract of its own. `BookingPayloadRoundTrip` states its shape and that it carries exactly the seat, date and workspace it was given. |
| Api.BookingPayloadRoundTrip | deskbird.py:53-62 | The payload is a single non-anonymous booking from 09:00 to 19:00 on the date. Its seat ids, date and workspace decode back exactly to those given. |
| Orchestrator.TargetDate | deskbird.py:186-195 | A label gets a date only if it is known. The date is after today, at most six days ahead, on the label's weekday. The result is None exactly for an unknown label or today's own weekday. |
| Orchestrator.AttemptAt | deskbird.py:199-204 | One book_seat call for a seat on a date. It has no contract of its own. `SeatFallbackShape`, `AttemptsAreForResolvedDates` and `BookTargetDaysShape` state that each call carries book_seat's payload and gets the service's answer for its position in the run. |
| Orchestrator.SeatFallback | deskbird.py:198-210 | The seat loop makes at most one call per favourite seat. |
| Orchestrator.SeatFallbackShape | deskbird.py:198-210 | The seats tried are a prefix of the favourites, in order, as consecutive calls each carrying book_seat's payload. Every call but the last came back empty. Booked holds exactly when the last call was non-empty, and aborted exactly when it failed hard. Unbooked means every seat was tried. |
| Orchestrator.FallbackStopsAtFirstSuccess | deskbird.py:205-210 | If seats 0..k-1 come back empty and seat k is booked, exactly seats 0..k are tried, in order, and the date is booked. |
| Orchestrator.SecondSeatBooked | deskbird.py:198-210 | For seats A, B, C where A comes back empty and B succeeds, the calls are exactly A then B, and C is never tried. |
| Orchestrator.FallbackTriesAllWhenAllEmpty | deskbird.py:205-206 | If every seat comes back empty, every seat is tried and the date stays unbooked. |
| Orchestrator.TargetDays | deskbird.py:186-210 | The target-day loop over any per-label work. It has no contract of its own. `TargetDaysAppend`, `TargetDaysAttemptsComeFromLabels`, `TargetDaysConsistent` and `IdleDayIsIgnored` state configuration order, where each call comes from, and stopping at an abort. |
| Orchestrator.BookDay | deskbird.py:186-210 | One label's turn: nothing without a date, otherwise the seat fallback for that date. It has no contract of its own. `BookDayConsistent` and `SkippedDayIsIgnored` state its properties, and `BookLabel` is proved equal to it. |
| Orchestrator.BookTargetDays | deskbird.py:184-210 | The booking calls of a run. It has no contract of its own. `BookTargetDaysShape` and `AttemptsAreForResolvedDates` state its properties, and `BookAllTargetDays` is proved equal to it. |
| Orchestrator.TargetDaysAppend | deskbird.py:186-210 | The labels are handled in configuration order: the calls for a prefix come before those for the rest, and an abort in the prefix skips the rest. |
| Orchestrator.TargetDaysAttemptsComeFromLabels | deskbird.py:186-210 | Every call of the target-day loop is made in the turn of one of the configured labels. |
| Orchestrator.TargetDaysConsistent | deskbird.py:186-210 | If every turn matches the service's answers, so does the whole loop. Only its last call can have failed hard, and it stops exactly then. |
| Orchestrator.BookDayConsistent | deskbird.py:186-210 | Each call of one label's turn got the service's answer for its position in the run. A hard failure is the turn's last call and aborts it. |
| Orchestrator.BookTargetDaysShape | deskbird.py:184-210 | Each booking call of a run got the service's answer for its position in the run. At most the last call failed hard, and the loop was cut short exactly when it did. |
| Orchestrator.IdleDayIsIgnored | deskbird.py:186-195 | A label whose turn never makes a call can be removed from the list without changing the loop's calls or result. |
| Orchestrator.SkippedDayIsIgnored | deskbird.py:187-195 | An unknown label, or one with no date within six days, makes no call and leaves the other labels' calls unchanged (the two continue statements). |
| Orchestrator.AttemptsAreForResolvedDates | deskbird.py:184-204 | Each booking call is for a favourite seat and carries book_seat's payload. Its date is after today, at most six days ahead, and falls on the weekday of one of the configured labels. |
| Orchestrator.DueForCheckIn | deskbird.py:221-224 | A booking is due when it is dated today and its checkInStatus is not "checkedIn". It has no contract of its own. `DueToday` and `CheckInsGoToTodaysPendingBookings` state what follows from it. |
| Orchestrator.DueToday | deskbird.py:218-224 | A booking is selected exactly when it is in the results, dated today and not "checkedIn". |
| Orchestrator.DueTodayAppend | deskbird.py:218-224 | The selection keeps list order: it distributes over concatenation of the results list. |
| Orchestrator.CheckInCallFor | deskbird.py:226-229 | The check-in call for a booking: its id goes in the URL (deskbird.py:120) and its zoneItemId is the qrCodeZoneItemId of the body (deskbird.py:130-132). It has no contract of its own. `CheckInLog` and `CheckInsGoToTodaysPendingBookings` state which bookings it is sent for and in what order. |
| Orchestrator.CheckInLog | deskbird.py:225-233 | There is one check-in call per due booking, in order, with the booking's id and zone item id. Each call has its own outcome, so an earlier failure changes no later call. |
| Orchestrator.RunOutcome | deskbird.py:162-236 | main's whole run on the given inputs. It has no contract of its own. `StartupFailureStopsEverything`, `HardFailAbortsRun`, `FetchFailureSkipsCheckIns`, `ExitCodeReflectsFatalFailures` and `CheckInsGoToTodaysPendingBookings` state its properties, and `Run` is proved equal to it. |
| Orchestrator.StartupFailureStopsEverything | deskbird.py:163-173 | If the config file is missing or authentication fails, nothing is booked, listed or checked in, and the exit code is 1. |
| Orchestrator.HardFailAbortsRun | deskbird.py:163-236 | A booking call that failed hard is the last call of the run. The bookings listing and every check-in are skipped, and the exit code is 1. |
| Orchestrator.ExitCodeReflectsFatalFailures | deskbird.py:163-236 | The exit code is 0 or 1. It is 0 exactly when the config loaded, authentication succeeded, no booking call failed hard and the listing succeeded. |
| Orchestrator.FetchFailureSkipsCheckIns | deskbird.py:90-92 | If the bookings listing fails, no check-in is made and the exit code is 1. The listing is requested exactly when the run got past authentication and the booking loop did not fail hard. |
| Orchestrator.CheckInsGoToTodaysPendingBookings | deskbird.py:216-233 | On a run that exits 0, the i-th check-in call goes to the i-th booking of the results list that is dated today and not checked in. Each such booking gets one call, and there are exactly as many calls as such bookings. |
| Orchestrator.BookFirstAvailable | deskbird.py:198-210 | The for loop with break makes exactly the calls of SeatFallback and ends with the same status. |
| Orchestrator.BookLabel | deskbird.py:186-210 | One turn of the target-day loop (lookup, resolver, seat loop) equals BookDay. |
| Orchestrator.BookAllTargetDays | deskbird.py:184-210 | The target-day loop with its continue statements makes exactly the calls of BookTargetDays and stops at the same point. |
| Orchestrator.CheckInToday | deskbird.py:217-233 | The check-in loop makes exactly the calls of CheckInLog on DueToday of the results. |
| Orchestrator.Run | deskbird.py:162-236 | main's whole run equals RunOutcome: its booking calls, whether the listing was requested, its check-in calls and its exit code. |

## Left out

- The HTTP transport, URLs, headers, query parameters and the response bodies beyond what the run reads. Every remote call is an input.
- The bookings listing sends skip 0 and limit 20 (deskbird.py:83-88): the results list is an input, however many entries it has.
- Reading and parsing `config.json` (deskbird.py:5-11). A missing file is modelled as `config` None. Invalid JSON is not modelled.
- A KeyError or TypeError from a missing or mistyped JSON key (credentials, idToken in the authentication response, workspace_id, favorite_seats, the seat info fields resource_id and zone_item_id, successfulBookings, bookingStartTime, id, zoneItemId, checkInStatus), and from an unexpected type in `target_days`. Each of these would also reach the top-level handler and exit 1. A seat whose info lacks resource_id or zone_item_id raises partway through the seat loop, after the earlier booking calls were sent; the `Seat` record always has both fields, so the model cannot express this.
- The exceptions raised in `display_booking_summary` before any check-in (deskbird.py:96-116, called at 214): a KeyError for a missing `totalCount`, `results`, `bookingStartTime`, `zoneItemName`, `zone`/`name`, `resourceId` or `zoneItemId`, and a TypeError, ValueError or OverflowError from `datetime.fromtimestamp`. Each would reach the top-level handler, so no check-in is made and the exit code is 1. `RunOutcome` always goes on to the check-ins once the listing succeeds.
- `favorite_seats` is a dictionary, iterated in insertion order. It is modelled as its list of (name, info) entries, so the model does not exclude two entries with the same name.
- The printing done by `display_booking_summary` and every other print: only the output is out of scope, not the exceptions listed above.
- `datetime.now()` is read once per resolver call and again before the check-ins. The model uses one `today` for the whole run, so a run that crosses midnight is not modelled.
- The epoch-millisecond conversion of booking times. Requests carry (day, hour) pairs, and a listed booking carries the local day of its start time. Daylight-saving effects are outside the model.
- The OverflowError that `today + timedelta` raises near `date.max`. Day numbers are unbounded in the model.
- The response bodies of successful booking and check-in calls, which are only printed.
- Orchestrator.SeatFallback: its own contract only bounds the number of calls. What it guarantees about order, payloads and status is stated in `SeatFallbackShape`.
