# ADIRS booking core in Dafny

This project models the core of the booking back-end of a beauty studio. It covers:

- the slot grid and availability filter of the booking page and of the older storefront;
- the booking, cancellation and blocked-slot rules;
- the `appointments` and `customers` tables;
- reading a booking back out of a calendar event, and the reminder senders;
- the hourly reminder job, with its at-most-once claim table;
- the Israeli phone-number normalisers, one per channel;
- the guards of the outbound SMS and WhatsApp senders;
- the one-time-password (OTP) machine, both in memory and over the `otp_codes` table.

Representation:

- A time of day is minutes since midnight. A date is a day number, with day 0 = 1970-01-01, a Thursday. An appointment's datetime is minutes since the epoch.
- OTP and claim clocks are seconds.
- The clock, the calendar's answers, the result of every send and the "lock acquired" flag are parameters.
- A database table is a `seq` of rows or a `map` keyed by phone.
- Code that updates state in place is a class:
  - `Appointments.AppointmentTable`, `Customers.CustomerTable`;
  - `Studio.BlockedSlots`;
  - `Dispatch.ReminderLedger`;
  - `Otp.WhatsAppOtpStore`, `Otp.OtpTable`.

  Each method is tied to a specification function whose properties are proved as lemmas. The loops of the source are `while`/`for` loops with invariants:
  - the slot grid, `filter_available_slots`, `get_busy_slots`;
  - the candidate builder and the claim loop;
  - the reminder senders;
  - `_cleanup_expired`;
  - the service lookup.

Modules:

| module | source |
|---|---|
| `Text`, `Seqs`, `Wrappers` | string helpers, subsequences, `Option` |
| `Phone` | phone_utils.py and the channel normalisers |
| `Catalogue` | the service lookup |
| `Calendar` | calendar_service.py |
| `Studio` | the booking endpoints of app.py |
| `Appointments` | appointment_service.py |
| `Customers` | customer_service.py |
| `Reminders` | reminder_service.py |
| `Dispatch` | `check_and_send_reminders` of app.py |
| `Otp` | whatsapp_otp.py, otp_service.py, twilio_otp.py, whatsapp_otp_db.py |
| `Notify` | sms_service.py, twilio_sms_service.py, `_send_otp_sms`, whatsapp_service.py |
| `Streamlit` | streamlit_app.py |

Where the code and the written description of the system differ, the model follows the code. The main case is the booking horizon in app.py:631-637: it rejects only dates more than 30 days ahead, and a date in the past passes (`Studio.WithinHorizon`).

## Model

| member | source | states |
|---|---|---|
| Phone.NormalizeIsraeliPhone | phone_utils.py:15-57 | Empty input gives None; a result is `+972` and nine digits, the last nine digits of the input |
| Phone.NormalizeIsraeliPhoneAsWritten | phone_utils.py:30-57 | The function with its leading-`+`-only strip: empty gives None, a result is 13 characters starting `+972` |
| Phone.CanonicalFromClean | phone_utils.py:40-57 | A cleaned number is accepted only with at least nine digits, and becomes `+972` plus its last nine |
| Phone.NormalizeDocumentedSpellings | phone_utils.py:19-25 | 0XXXXXXXXX, 0XX-XXX-XXXX, 0XX XXX XXXX, 972…, +972… and +972-XX-XXX-XXXX all give `+972` plus the nine digits |
| Phone.NormalizeAcceptedForms | phone_utils.py:40-55 | The trunk, country-code and plus forms map to `+972` plus the nine digits; a bare nine-digit number is accepted iff it starts with 5 |
| Phone.NormalizeBareForm | phone_utils.py:53-54 | A nine-digit string is accepted iff it starts with 5, and then maps to `+972` plus it |
| Phone.NormalizeRejects972WrongLength | phone_utils.py:41-46 | Digits starting 972 that are not twelve long give None |
| Phone.NormalizeIdempotent | phone_utils.py:37-43 | Normalising a normalised number returns it unchanged |
| Phone.NormalizeDependsOnlyOnDigits | phone_utils.py:33-38 | Two non-empty inputs with the same digits normalise alike |
| Phone.FormatPhoneDisplay | phone_utils.py:60-79 | A valid number gives `+972-XX-XXX-XXXX`; otherwise the input comes back unchanged |
| Phone.FormatPhoneLocal | phone_utils.py:82-101 | A valid number gives `0XX-XXX-XXXX`; otherwise the input comes back unchanged |
| Phone.DisplayFormsRoundTrip | phone_utils.py:60-101 | Both display forms normalise back to the number's canonical form; empty input stays empty |
| Phone.ValidIffMobilePrefix | phone_utils.py:104-119 | Valid iff the number normalises and its two digits after +972 are 50, 51, 52, 53, 54, 55 or 58 |
| Phone.ValidityInvariantUnderFormatting | phone_utils.py:60-119 | Validity is the same for a number and for both of its display forms |
| Phone.ValidLocalNumber | phone_utils.py:104-119 | 0 plus nine digits is valid iff they start with 5 and the second digit is 0-5 or 8 |
| Phone.AsWrittenKeepsInnerPlus | phone_utils.py:33-34 | As written, a `+` inside the number survives and yields a 13-character result that is not `+972` plus nine digits |
| Phone.InnerPlusCorrected | phone_utils.py:33-34 | With every `+` dropped, the same input is rejected |
| Phone.AsWrittenAgreesWithoutInnerPlus | phone_utils.py:30-57 | The two normalisers agree on every input whose only `+` is the first character |
| Phone.ActiveTrailIsCanonicalWithoutPlus | sms_service.py:32-41 | `_to_activetrail_phone` is None exactly when normalisation fails, and otherwise the canonical number without its `+` (12 characters) |
| Phone.WhatsAppPhone | whatsapp_service.py:27-53 | A result is 12 characters beginning `972`; other characters are not checked to be digits |
| Phone.SmsPhone | twilio_sms_service.py:30-49 | A result is 13 characters starting `+972` |
| Phone.SmsIsPlusWhatsApp | twilio_sms_service.py:30-49 | The SMS form is defined exactly when the WhatsApp form is, and is it with a `+` in front |
| Phone.WhatsAppAcceptedForms | whatsapp_otp.py:52-68 | 0XXXXXXXXX, 972… and +972… give `972` plus the nine digits; a bare nine-digit number is rejected here but accepted by the canonical normaliser when it starts with 5 |
| Phone.WhatsAppDocumentedSpellings | whatsapp_service.py:29-31 | 050-1234567 and 050 123 4567 style spellings give `972` plus the nine digits |
| Phone.WhatsAppBareForm | whatsapp_service.py:49-53 | A nine-character number is rejected by the WhatsApp and Twilio SMS forms |
| Phone.WhatsAppTrunkForm | whatsapp_otp_db.py:38-54 | 0XXXXXXXXX maps to 972XXXXXXXXX |
| Phone.WhatsAppRejects972WrongLength | whatsapp_otp_db.py:38-54 | A 972 prefix of the wrong length is rejected by both channel forms |
| Phone.WhatsAppDependsOnlyOnCleaned | whatsapp_service.py:33-53 | The channel form depends only on the input with separators removed |
| Phone.ChannelAgreesOnDigits | twilio_sms_service.py:41-49 | On digit strings other than a bare 5XXXXXXXX, the Twilio SMS form equals the canonical one |
| Catalogue.FindService | app.py:641-649 | The first service whose English or Hebrew name matches, None iff none matches |
| Catalogue.LookupService | streamlit_app.py:46-51 | The loop with early return gives exactly the first match |
| Studio.StudioWeekday | app.py:575-577 | The Sunday-first weekday is in 0..6 |
| Studio.ClosedOnFridayAndSaturday | app.py:496-504 | A day is closed iff its studio weekday is 5 or 6, i.e. day mod 7 is 1 or 2, with period one week |
| Studio.SlotGrid | app.py:583-591 | The `while current < close` loop builds exactly the grid |
| Studio.GridShape | app.py:583-591 | The grid starts at opening, steps by 30 minutes, stays before closing, and has ceil((close-open)/30) slots |
| Studio.StudioDayGrid | app.py:496-504 | 09:00 to 20:00 gives 22 slots, 09:00 through 19:30 |
| Studio.RemoveBlockedSpec | app.py:601-605 | The blocked filter keeps an order-preserving subsequence holding exactly the slots not blocked |
| Studio.NothingBlockedKeepsAll | app.py:604 | With no blocked times the list is unchanged |
| Studio.AvailableSlotsSpec | app.py:593-605 | The answer is an ordered subsequence of the day's grid; a grid slot is in it iff it is not blocked and, when the calendar answered, free for the service's duration; blocked times are removed even on the calendar fallback |
| Studio.GetAvailableSlots | app.py:556-613 | Missing date gives 400; an unparsable date gives 400; a closed day gives no slots; otherwise the available slots above |
| Studio.ServiceDuration | app.py:565-571 | The matching service's duration, or 60 |
| Studio.UpdateTouchesOneDate | app.py:1169-1176 | A non-empty list replaces the date's blocked times, an empty one removes the date, other dates are unchanged |
| Studio.BlockedSlots.Update | app.py:1160-1177 | A request without a date is refused and changes nothing; otherwise the map is updated as above |
| Studio.MissingField | app.py:625-629 | No field is missing iff all six required fields are non-empty |
| Studio.BookAppointment | app.py:617-782 | A booking is made iff all pass: JSON present; fields present; date parsed and at most 30 days ahead; service known; customer ready, fewer than 2 active appointments and stored (database mode) or no existing appointment (calendar mode); slot not reported taken. The service booked is the catalogue's match |
| Studio.HorizonCheckedBeforeServiceAndSlot | app.py:631-649 | A date beyond the horizon is reported as such whatever the service, back-end and slot |
| Studio.CalendarErrorsNeverReject | app.py:667-712 | A raising availability check acts like a free slot, and a failed event creation does not undo the booking |
| Studio.CancelAppointment | app.py:839-895 | Cancelled only with a non-blank id, a found event and a date other than today; with those, cancelled iff the delete succeeds or answers 404 |
| Studio.AfterLastDot | app.py:183-186 | The extension never contains a dot |
| Studio.AllowedFileIff | app.py:183-186 | A file is allowed iff the lower-cased text after its last dot is jpg, jpeg, png or webp; a name without a dot is refused |
| Calendar.GetBusySlots | calendar_service.py:128-179 | The loop collects exactly one interval per timed event |
| Calendar.BusySlotsFromTimedEvents | calendar_service.py:163-169 | A busy interval is reported iff a timed event has those times; all-day events add none |
| Calendar.OverlapsIffSharedMinute | calendar_service.py:321-330 | The overlap test holds iff the two half-open intervals share a minute, so touching endpoints do not conflict |
| Calendar.CheckAvailability | calendar_service.py:182-213 | A failing lookup raises; otherwise the slot is available iff it overlaps no busy interval |
| Calendar.FilterAvailableSlots | calendar_service.py:294-340 | The nested loop with flag and break keeps exactly the free slots; a failing lookup returns the input unchanged |
| Calendar.FreeSlots | calendar_service.py:315-333 | Never longer than its input, and every slot it keeps is free for the whole duration |
| Calendar.FreeSlotsMember | calendar_service.py:315-333 | A slot survives the filter iff it was a candidate and is free, so `check_availability` agrees with the filter |
| Calendar.FreeSlotsSubsequence | calendar_service.py:315-335 | The result is an order-preserving subsequence of the input |
| Calendar.FreeSlotsIdempotent | calendar_service.py:315-335 | Filtering twice with the same busy list and duration equals filtering once |
| Calendar.FreeSlotsNoBusy | calendar_service.py:321-333 | With no busy interval every slot is kept |
| Calendar.CreateEvent | calendar_service.py:216-291 | The event starts at the booked minute and lasts the duration, 60 by default |
| Calendar.DescriptionLines | calendar_service.py:242-254 | The description's non-blank lines are those of heading, name, phone and email, then the notes' only when notes are non-empty |
| Calendar.CreatedEventBlocksItsSlot | calendar_service.py:216-254 | Once created, the event makes its slot busy for any later lookup while an adjacent slot stays free |
| Calendar.CancelTwiceSucceeds | calendar_service.py:343-373 | On a healthy calendar a delete succeeds whether the event is present or already gone (404), and removes it |
| Appointments.SortByTimeSpec | appointment_service.py:81-94 | `ORDER BY datetime ASC` gives a sorted permutation of the selected rows |
| Appointments.SelectCounts | appointment_service.py:81-94 | The selection keeps exactly the matching rows, each as often as in the table |
| Appointments.CustomerFutureAppointments | appointment_service.py:70-97 | Exactly the customer's active appointments after now, ascending |
| Appointments.ActiveFutureAppointment | appointment_service.py:131-160 | The earliest such appointment, None iff there is none |
| Appointments.AppointmentsForDate | appointment_service.py:258-290 | The active appointments in the half-open day, ascending; an unparsable date gives none |
| Appointments.AppointmentsNeedingReminders | appointment_service.py:293-344 | The day-before list holds exactly tomorrow's active appointments and the morning list today's, both ascending |
| Appointments.ReminderListsDisjoint | appointment_service.py:303-340 | No appointment is in both lists |
| Appointments.WithStatusChangesOnlyStatus | appointment_service.py:174-184 | A status update sets status and updated_at on the one row, whatever its previous status, and nothing else |
| Appointments.ClosedAppointmentLeavesQueries | appointment_service.py:163-217 | After cancel or complete the appointment appears in no query |
| Appointments.AppointmentTable.Create | appointment_service.py:16-67 | A datetime unparsable, not after now or more than 30 days ahead inserts nothing; otherwise one active row with the given fields is appended |
| Appointments.AppointmentTable.SetStatus | appointment_service.py:174-184 | The table becomes the status update; the row returned is the updated one, None iff the id is unknown |
| Appointments.AppointmentTable.Cancel | appointment_service.py:163-193 | Sets `cancelled` unconditionally |
| Appointments.AppointmentTable.Complete | appointment_service.py:196-226 | Sets `completed` unconditionally |
| Appointments.AppointmentTable.UpdateEventId | appointment_service.py:347-367 | Only the event id of that row changes |
| Customers.FindByPhone | customer_service.py:60-71 | The row with that stored phone, None iff none has it |
| Customers.CustomerByPhone | customer_service.py:49-77 | An input that does not normalise finds nothing; a result's phone is the input's canonical form |
| Customers.CustomerExists | customer_service.py:23-46 | True iff the input normalises and some row has that canonical phone |
| Customers.LookupAcceptsEverySpelling | customer_service.py:33-35 | Every documented spelling of a number finds the same customer |
| Customers.CustomerTable.Create | customer_service.py:80-130 | Invalid phone, name or email inserts nothing; an existing phone returns that row; otherwise one row with canonical phone, stripped name and stripped lower-cased email is appended, phones stay unique, and a lookup by the input finds it |
| Customers.CustomerTable.Update | customer_service.py:133-184 | No id or no valid field changes nothing; otherwise the valid fields and updated_at of that row change, and no phone ever does |
| Customers.WithFieldsKeepsPhones | customer_service.py:146-162 | The update keeps every phone and id, so the table stays valid |
| Customers.SearchTerm | customer_service.py:215-226 | A term shorter than two characters once stripped searches nothing |
| Reminders.ParseRecoversBooking | reminder_service.py:101-141 | Reading back a written description recovers service, name and phone, and the email iff it holds `@` |
| Reminders.ParsedStart | reminder_service.py:134-139 | The datetime is set only for a date-time start |
| Reminders.ParsedOnDay | reminder_service.py:272-281 | Parsed details are due on a day iff the event starts within that day |
| Reminders.DayTargetsSubsequence | reminder_service.py:267-318 | Reminders keep event order |
| Reminders.RemindedIffStartsOn | reminder_service.py:267-318 | Every event starting on the day is reminded, and only such events |
| Reminders.RemindEventsOn | reminder_service.py:58-98 | A failing calendar query reminds nobody; otherwise exactly the events due that day, in order |
| Reminders.SendDayBeforeReminders | reminder_service.py:267-290 | Reminds exactly tomorrow's events |
| Reminders.SendMorningReminders | reminder_service.py:293-318 | Reminds exactly today's events |
| Reminders.SendEmailReminder | reminder_service.py:144-165 | Nothing is sent when email is disabled, credentials are missing or there is no recipient; otherwise the send's result |
| Dispatch.ReminderPlan | app.py:292-297 | Acts only at 8 and 20; 20 gives day-before for tomorrow, 8 gives day-of for today |
| Dispatch.FindEmail | app.py:335-339 | The loop with break returns the first line holding `@`, stripped |
| Dispatch.BuildCandidates | app.py:322-358 | The loop with continues keeps exactly the events that become candidates, in order |
| Dispatch.CandidateOf | app.py:322-358 | Events without a date-time start, with fewer than three lines or without an id are skipped; a candidate keeps the event's id and start |
| Dispatch.CandidateRecoversBooking | app.py:324-354 | A candidate read from a written description recovers heading, name, phone and email |
| Dispatch.ParsersAgree | app.py:324-354 | The job's reader and reminder_service's reader extract the same fields from such a description |
| Dispatch.Step | app.py:380-441 | Each item is counted once; a held claim is left alone; a claimable item ends `failed` iff its send raised and `sent` otherwise, stamped now |
| Dispatch.Replay | app.py:380-441 | sent + skipped + failed grows by exactly the number of candidates |
| Dispatch.ReplayKeepsSettledClaims | app.py:372-407 | A `sent` or `failed` claim is never taken again |
| Dispatch.ReplayTouchesOnlyCandidates | app.py:380-441 | Rows of other events or of the other kind are untouched |
| Dispatch.ReplayLeavesNothingClaimable | app.py:380-441 | After a run no candidate can be claimed at the same instant |
| Dispatch.RerunSendsNothing | app.py:372-441 | At most once: rerunning at the same instant skips every candidate and changes no claim |
| Dispatch.ReplayBoundsErrors | app.py:430-438 | Stored error messages never exceed 500 characters |
| Dispatch.ReminderLedger.HandleCandidates | app.py:380-441 | The loop's counters and claims equal the run's specification |
| Dispatch.ReminderLedger.HandleCandidate | app.py:382-440 | One pass: the claims and counters after it are one `Step` of the specification |
| Dispatch.ReminderLedger.RunReminders | app.py:283-449 | Another hour, a failed query, no candidates or a lock not acquired change no claim; otherwise all candidates are handled; the lock is released in all cases |
| Otp.MinutesLeft | whatsapp_otp.py:143-146 | The minutes quoted are at least 1 and cover the remaining cooldown |
| Otp.Retained | whatsapp_otp.py:41-49 | Cleanup keeps exactly the entries created at most 900 seconds ago, unchanged |
| Otp.WhatsAppOtpStore.CleanupExpired | whatsapp_otp.py:41-49 | The deletion loop leaves exactly the retained store |
| Otp.WhatsAppOtpStore.RequestOtp | whatsapp_otp.py:78-122 | The store and outcome follow the request specification |
| Otp.WhatsAppOtpStore.VerifyOtp | whatsapp_otp.py:125-175 | The store and outcome follow the verify specification |
| Otp.RequestIssuesFreshEntry | whatsapp_otp.py:78-122 | Invalid phone issues nothing; a valid one is refused iff its retained entry is cooling down; otherwise it gets a fresh entry (attempts 0, no cooldown), other phones keep theirs, mock iff not sent |
| Otp.RequestRefusedWhileRetainedCooldown | whatsapp_otp.py:95-103 | A request during a cooldown is refused and keeps the entry |
| Otp.StoredChecksInOrder | whatsapp_otp.py:132-175 | After the phone normalises, checks run in order: entry, cooldown, expiry after 300 s (deletes), then code; a wrong code counts an attempt, with a 900-second cooldown at the third and 3 minus attempts left otherwise; a right code deletes |
| Otp.VerifiesAtMostOnce | whatsapp_otp.py:172-175 | After a success the phone has no entry, so no code verifies again |
| Otp.OperationsKeepStoreSettled | whatsapp_otp.py:78-175 | With a clock that does not go back, every entry counts attempts below 3 with no cooldown, or has 3 attempts and a cooldown |
| Otp.LockedOutNeverVerifies | whatsapp_otp.py:143-170 | An entry that used its three attempts is never accepted |
| Otp.CleanupCutsCooldownShort | whatsapp_otp.py:41-49 | As written, a cooldown started at 300 s is dropped by cleanup at 1000 s and a new code is issued |
| Otp.RetainedKeepingCooldowns | whatsapp_otp.py:41-49 | The corrected cleanup also keeps stale entries still cooling down |
| Otp.CorrectedRequestRespectsCooldown | whatsapp_otp.py:95-103 | With the corrected cleanup a request during a cooldown is always refused |
| Otp.CorrectionChangesOnlyCutShortCooldowns | whatsapp_otp.py:41-49 | The corrected request differs from the original only where a stale entry is cooling down |
| Otp.StorageKey | whatsapp_otp_db.py:38-54 | otp_service and twilio_otp key rows by the canonical phone, whatsapp_otp_db by the 972 form |
| Otp.OtpTable.RequestOtp | otp_service.py:52-123 | Rows and outcome follow the table request specification |
| Otp.OtpTable.VerifyOtp | otp_service.py:126-200 | Rows and outcome follow the table verify specification |
| Otp.TableInvalidPhoneTouchesNothing | otp_service.py:60-63 | An invalid phone fails both operations with the table unchanged |
| Otp.TableRequestReplacesRow | twilio_otp.py:69-106 | Refused with no change iff the phone's row has a future cooldown; otherwise the phone has exactly one fresh row (expiry now+300, attempts 0), mock iff not sent |
| Otp.KeyedRowChecksInOrder | whatsapp_otp_db.py:133-207 | After the phone normalises: no row, cooldown, expiry (deletes), then code: wrong adds an attempt and at 3 sets cooldown now+900; right deletes |
| Otp.TableVerifiesAtMostOnce | otp_service.py:195-197 | A verified row is deleted, so the code cannot verify twice |
| Otp.RowOf | otp_service.py:91-104 | The row for an entry expires 300 s after creation, with the same code, attempts and cooldown |
| Otp.MemoryAndTableAgree | twilio_otp.py:150-197 | The in-memory and table machines take the same decision on corresponding state |
| Notify.ActiveTrailPlan | sms_service.py:44-72 | Checks run in order: disabled, no API key, invalid phone; the request carries the ActiveTrail phone, the message and the sender name cut to 11 characters |
| Notify.SendSms | sms_service.py:44-116 | Success iff enabled, an API key is set, the phone converts, and the answer is 200, 201 or 202 |
| Notify.DefaultSenderNameFits | sms_service.py:27 | The default sender name is sent unchanged |
| Notify.TwilioPlan | twilio_sms_service.py:52-97 | Checks run in order: disabled, missing credentials, invalid phone; the message goes from the configured number to the normalised target |
| Notify.TwilioSmsSent | twilio_sms_service.py:52-94 | Sent iff enabled, all three credentials set, `normalize_phone_for_sms` accepts the phone and the create did not raise |
| Notify.TwilioOtpSent | twilio_otp.py:206-254 | Sent iff enabled, all three credentials set, `normalize_israeli_phone` accepts the phone and the create did not raise |
| Notify.TwilioSendersAgreeOnLocalNumbers | twilio_otp.py:206-228 | Both Twilio senders address 0XXXXXXXXX as +972XXXXXXXXX |
| Notify.TwilioSendersDifferOnBareNumbers | twilio_sms_service.py:41-49 | A bare 5XXXXXXXX is refused by the SMS sender but addressed by the OTP sender |
| Notify.FormattedDate | whatsapp_service.py:80-88 | An unparsable date is shown as given; otherwise with its Hebrew weekday |
| Notify.DayNameFollowsStudioWeek | whatsapp_service.py:81-85 | The Monday-first day list indexed by `weekday()` names the right day |
| Notify.WhatsAppPlan | whatsapp_service.py:56-95 | Checks run in order: disabled, missing token or id, invalid phone; the message goes to the 972 form with name, date and time |
| Notify.SendWhatsAppConfirmation | whatsapp_service.py:56-148 | Sent iff enabled, the token and phone-number id are set, the phone formats, and the answer is 200 or 201 |
| Notify.AcceptedStatusesDiffer | whatsapp_service.py:127 | With both senders ready, an answer of 202 sends the SMS but fails the confirmation; every answer that sends the confirmation sends the SMS |
| Streamlit.OfferedSlotsSpec | streamlit_app.py:76-86 | The offer is an ordered subsequence of the grid; a slot is offered iff it is free for 30 minutes (or the lookup failed) |
| Streamlit.GetAvailableSlots | streamlit_app.py:59-90 | Missing date, bad date, closed day, else the 30-minute filter over the grid |
| Streamlit.OffersEverySlotAppOffers | streamlit_app.py:86 | For services of 30 minutes or more this endpoint offers every slot app.py offers |
| Streamlit.BookAppointment | streamlit_app.py:93-146 | Booked iff fields, service, time parse and lookup succeed, the slot is free for the service's whole duration and creation returned; the service is the list's match |
| Streamlit.EventCreatedOnlyAfterChecks | streamlit_app.py:93-146 | While any check fails, the outcome does not depend on what event creation would do |
| Streamlit.OfferedYetTaken | streamlit_app.py:86-112 | A slot offered by the 30-minute filter can be refused with 409 for a 60-minute service |

## Left out

- Google Calendar API calls are not modelled. The busy intervals, the event list, an event's start date and the answers to create and delete are inputs.
- Network sends are not modelled: SMTP, ActiveTrail and WhatsApp HTTP, and the Twilio client. Each is an input: an HTTP status, a "raised" flag or a boolean.
- Timezones are not modelled: pytz and ISO offsets. One local zone is used, in whole minutes and seconds; microseconds are dropped.
- `strptime` is not modelled. Its result is an input, `None` when it raises.
- Exceptions that turn into 500 answers are not modelled, nor the technical-error paths of the table functions.
- Database connection handling and db_service.py are not part of this model.
- The advisory run lock is not real concurrency. It is a boolean input, and the lock is released in every case.
- The no-database reminder path (app.py:454-469) is left out: it sends without de-duplication.
- The database/legacy import switch is left out. Both back-ends are modelled as `Studio.Backend`, and the active-appointment count is an input.
- The JSON file I/O for blocked slots and the gallery is left out, and so are uploads, admin sessions and static routes. Only the in-memory map update is modelled.
- Message texts and templates are left out: SMS, email and WhatsApp bodies, and `send_whatsapp_text_message`.
- Known text defects in the email templates and the morning SMS are not modelled.
- The random OTP code is left out: it is a parameter.
- Each OTP call reads the clock once, as one `now` parameter.
- Only the most recent unverified row per phone is kept in the table model. The request deletes the phone's other rows, so that is the only row the verifier reads.
- Queries that only list or page are left out: `get_customer_past_appointments`, `get_appointment_by_id`, `get_all_appointments`, `get_all_customers` and `get_customer_count`.
- The `LIKE` search body is left out. Only `search_customers`' guard is modelled.
- The Python `None` phone is folded into the empty string: both give the same answers.
- Customers.CustomerTable.Create: a customer's id stands for the database's UUID, and is a counter.
- Streamlit.BookAppointment: a missing JSON body is left out; the endpoint then fails before any check. A raising availability check is `CheckRaised`, because the source does not catch it.
- Calendar.CreateEvent: the summary and description strings are modelled, but not the request's other fields (reminders, time zone).
- Phone.FormatPhoneDisplay: built on the corrected normaliser (see Findings). On an input with a `+` after its first character, such as `05012+3456`, the program formats `+9725012+3456` as `+972-50-12+-3456`; the model returns the input unchanged.
- Phone.FormatPhoneLocal: built on the corrected normaliser. On `05012+3456` the program gives `050-12+-3456`; the model returns the input unchanged.
- Phone.ValidIffMobilePrefix: about `is_valid_israeli_phone` over the corrected normaliser. The program answers True for `05012+3456`, because it reads only `normalized[4:6]`; the model answers false.
- Phone.ActiveTrailIsCanonicalWithoutPlus: `ToActiveTrailPhone` follows the corrected normaliser. The program posts `9725012+3456` for `05012+3456`; the model refuses that phone.
- Customers.CustomerByPhone: keyed by the corrected normaliser. The program looks up `+9725012+3456` for `05012+3456`; the model finds no key.
- Customers.CustomerExists: keyed by the corrected normaliser, as `Customers.CustomerByPhone`.
- Customers.CustomerTable.Create: stores the phone from the corrected normaliser. The program would store `+9725012+3456` for `05012+3456`, so the invariant that every stored phone is `+972` and nine digits holds only for the corrected program.
- Otp.StorageKey: the ActiveTrail and Twilio keys come from the corrected normaliser. The program keys `05012+3456` as `+9725012+3456`; the model refuses that phone.
- Notify.ActiveTrailPlan: built on `ToActiveTrailPhone` over the corrected normaliser. The program sends to `9725012+3456` for `05012+3456`; the model plans `InvalidPhone`.
- Notify.SendSms: the same corrected normaliser as `Notify.ActiveTrailPlan`.
- Notify.TwilioOtpSent: addressed with the corrected normaliser. The program sends to `+9725012+3456` for `05012+3456`; the model answers false.
- Phone.NormalizeIsraeliPhone: a digit is an ASCII digit `0`-`9`. Python's `\d` also matches other Unicode decimal digits, such as Arabic-Indic ones. The program keeps those digits and the model drops them, so `050123456` followed by an Arabic-Indic seven is accepted by the program and refused by the model.
- Customers.CustomerTable.Update: the e-mail is lower-cased in ASCII only (`Text.Lower`). Python's `str.lower` also lowers other letters, so `É` stays `É` in the model and becomes `é` in the program. `Customers.CustomerTable.Create` lower-cases the same way.
- Studio.RemoveBlockedSpec: blocked times and grid slots are minutes since midnight. The program compares `HH:MM` strings (app.py:603-605), which agrees with the model only when the stored strings are exactly the zero-padded `HH:MM` texts of the grid. The update endpoint stores whatever strings it is sent (app.py:1160-1177), so a blocked `9:00` does not block the `09:00` slot in the program.
- Dispatch.ReminderLedger.RunReminders: the target day (tomorrow at 20:00, today at 08:00) only sets the calendar query's window. That query's answer is the input `lookup`, so the day does not appear in the contract.
- With the service modules as they stand, app.py:75-84 imports `delete_customer`, `get_customer_future_appointments` (from customer_service.py) and `count_active_future_appointments`, which those modules do not define. The import fails and `DB_ENABLED` is False at run time, so at run time only the calendar-only booking path and the reminder path without de-duplication (left out above) run. The model still covers both back-ends (`Studio.Backend`), and the de-duplicating reminder path is modelled as written.

## Findings

| source | as written | input that shows it | evidently intended | confidence | as-written member | corrected member |
|---|---|---|---|---|---|---|
| phone_utils.py:33-34 | `re.sub(r'[^\d+]', '', phone)` keeps every `+`, but only a leading one is removed afterwards | `0XXXX+XXXX` with eight digits gives `+972XXXX+XXXX`, which is not a valid E.164 number | every `+` other than a leading one is dropped, so a result is always `+972` and nine digits | not executed | Phone.AsWrittenKeepsInnerPlus | Phone.NormalizeIsraeliPhone |
| whatsapp_otp.py:41-49 | `_cleanup_expired` deletes entries 900 s after creation, before `request_otp` checks the cooldown; a cooldown starts at the third wrong attempt and can last until 1200 s after creation | a code issued at t, three wrong attempts with the last at t+300 (cooldown until t+1200), then a request at t+1000: a new code is issued | a request during a cooldown is refused | not executed | Otp.CleanupCutsCooldownShort | Otp.CorrectedRequestRespectsCooldown |
