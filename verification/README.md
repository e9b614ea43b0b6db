# IHSS Care Guide: certification reminders, rate limiting and shift log in Dafny

This project models the server-side logic of the IHSS Care Guide API in Dafny
and proves properties of the model. It covers three parts:

- **Certifications** (`certifications.dfy`). This is how a provider's
  certifications get their status (`active`, `expiring_soon`, `expired`)
  from the expiration date and the current time. It also covers which
  reminder offsets a provider's reminder rules select, with 30/7/1 days as
  the fallback, and which `scheduled` email reminder events are written
  for an expiration date. Finally it models how the route handlers change
  the store: create, list with summary counts, get one, update, delete, list
  rules and toggle a rule. The store is a class holding sequences of
  certifications, reminder rules and reminder events.
- **Rate limiter** (`rate_limiter.dfy`). This is a fixed-window limiter
  keyed by `prefix:ip`. The store is a class with a map from key to
  `{count, resetAt}`. `CheckRateLimit` opens a window, denies at the limit
  or counts the call. `Sweep` is the periodic clean-up, a loop that deletes
  the windows that have run out.
- **Shift log** (`shifts.dfy`). A caregiver's shift goes from `Active` to
  `Completed`. Events may only be added to an owned, active shift. Shifts
  can be listed newest first (50 at most), fetched one at a time, or
  selected by an inclusive range of UTC days. The store is a class holding
  sequences of shifts and events.

`prelude.dfy` holds the shared vocabulary: `Option`, `Result`, request
fields that tell "omitted" from `null`, timestamps as integer milliseconds,
string lengths in UTF-16 code units as JavaScript counts them, and days from
a proleptic Gregorian date. `sorting.dfy` holds the `ORDER BY` and `LIMIT`
of the queries: an insertion sort by an integer key, proved sorted and a
permutation, and a prefix.

Modelling choices:

- Time is an integer count of milliseconds since the epoch. Every request
  receives one `now`, in place of the clock.
- A day is 86,400,000 ms. "`days` days before the expiration" is
  `exp - days * 86400000`. `Math.floor` of a quotient by a positive divisor
  is Dafny's `/`.
- Row ids are natural numbers handed out by a counter in each store.
- The database becomes the store's sequences. Query filters and orderings
  are functions over those sequences.

Some behaviours of the reminder engine are easy to assume and are not what
the code does. The model follows the code:

- The scheduler does not deduplicate. Two enabled rules with the same
  offset give the same event twice (`DuplicateRulesDuplicateEvents`).
  Distinct events are proved only where the store guarantees distinct
  offsets (`SeededRulesGiveDistinctReminders`).
- A reminder that falls exactly at the current time is not created. The
  filter at apps/api/src/routes/certifications.ts:43 keeps only reminders
  strictly after `now` (`PlannedEventsExact`).
- Disabling a rule touches no event. The toggle at
  apps/api/src/routes/certifications.ts:328 updates only the rule
  (`SetRuleEnabled`).
- No code sends reminders or refreshes stored statuses, so nothing moves
  an event to `sent` or `failed` and nothing is modelled for it.
- `expiring_soon` covers `now <= exp < now + 31 days`, because the code
  compares the floored day count with `<= 30`.
- The settings page says each reminder window can be toggled on or off
  (apps/frontend/src/pages/NotificationSettings.tsx:78). The scheduler,
  however, falls back to 30/7/1 whenever no rule is enabled
  (apps/api/src/routes/certifications.ts:27-29). So turning off 30 and 7
  leaves the 1-day reminder (`LastRuleOnNarrows`), but turning off all three
  brings back all three (`AllRulesOffFallsBack`).

## Model

| member | source | states |
|---|---|---|
| Certifications.DaysUntilBounds | apps/api/src/routes/certifications.ts:15-17 | the floored day difference is negative exactly when the expiration is before `now`, and at most 30 exactly when the expiration is before `now` + 31 days |
| Certifications.ComputeStatus | apps/api/src/routes/certifications.ts:12-19 | never `missing`; no date gives `active`; `expired` iff exp < now; `expiring_soon` iff now <= exp < now + 31 days; `active` iff no date or exp >= now + 31 days |
| Certifications.EnabledRulesOf | apps/api/src/routes/certifications.ts:23-25 | each enabled rule of the provider occurs as often as it is stored, and no other rule occurs (a multiset equation) |
| Certifications.EnabledOffsets | apps/api/src/routes/certifications.ts:27-28 | one offset per enabled rule of the provider: the k-th offset is the `daysBeforeExpiration` of the k-th such rule |
| Certifications.EnabledOffsetsMembers | apps/api/src/routes/certifications.ts:23-28 | an offset is listed iff some enabled rule of the provider has it |
| Certifications.EnabledOffsetsRepeat | apps/api/src/routes/certifications.ts:23-28 | two enabled rules of the provider with the same offset put it into the list at least twice |
| Certifications.ReminderOffsets | apps/api/src/routes/certifications.ts:23-29 | with an enabled rule, the offsets are exactly the enabled rules' days; with none, exactly [30, 7, 1] |
| Certifications.LastRuleOnNarrows | apps/api/src/routes/certifications.ts:27-29 | the seeded triple with 30 and 7 toggled off gives the offsets [1] |
| Certifications.AllRulesOffFallsBack | apps/api/src/routes/certifications.ts:27-29 | the seeded triple with all three toggled off gives [30, 7, 1] again |
| Certifications.PlannedEvents | apps/api/src/routes/certifications.ts:31-43 | at most one event per offset; every event written is a `scheduled` email for this certification strictly after `now` |
| Certifications.CandidateEvents | apps/api/src/routes/certifications.ts:31-40 | one candidate per offset, in offset order: a `scheduled` email for the certification, `days` days before the expiration |
| Certifications.ReminderInjective | apps/api/src/routes/certifications.ts:32-33 | two reminders for one certification and date are equal iff their offsets are |
| Certifications.CandidateCount | apps/api/src/routes/certifications.ts:31-40 | the reminder for offset d is a candidate exactly as many times as d is listed |
| Certifications.FutureEvents | apps/api/src/routes/certifications.ts:42-43 | keeps each candidate strictly after `now` with its multiplicity, and drops every other |
| Certifications.PlannedEventsExact | apps/api/src/routes/certifications.ts:31-46 | an event is written iff it is the reminder for one of the offsets and lies strictly after `now` |
| Certifications.PlannedEventsAllFuture | apps/api/src/routes/certifications.ts:31-46 | when every candidate is in the future, the k-th written event is the reminder for the k-th offset |
| Certifications.PlannedCount | apps/api/src/routes/certifications.ts:31-46 | the reminder for offset d is written once per listed d when it lies after `now`, and never otherwise |
| Certifications.DuplicateRulesDuplicateEvents | apps/api/src/routes/certifications.ts:23-45 | two enabled rules of the provider with the same offset, whatever the other rules, make one schedule write that reminder at least twice: there is no deduplication |
| Certifications.SeededOffsetsDistinct | apps/api/src/routes/certifications.ts:23-29 | a provider whose rules are none or the seeded triple gets pairwise distinct offsets |
| Certifications.SeededRulesGiveDistinctReminders | apps/api/src/routes/certifications.ts:21-47 | for such a provider one schedule writes no event twice |
| Certifications.AstralNameTooLong | apps/api/src/routes/certifications.ts:53 | a custom name of 101 emoji has 101 characters but is over the 200-unit limit, because JavaScript counts each as two code units |
| Certifications.CreateInputValid | apps/api/src/routes/certifications.ts:51-59 | an accepted body names a type id or a custom name, with a custom name of 1..200 and notes of at most 2000 characters; a custom name of up to 100 characters alone is accepted |
| Certifications.UpdateInputValid | apps/api/src/routes/certifications.ts:61-67 | a given custom name has 1..200 and given notes at most 2000 characters; nothing is required, so a body that sets no field or only clears fields is accepted |
| Certifications.NewCertification | apps/api/src/routes/certifications.ts:104-119 | the stored certification has the caller as provider; the given type id and custom name; the issued and expiration dates of the given timestamps, null when absent; the status computed from the expiration at `now`; the given notes, or null exactly when they are absent or empty |
| Certifications.EffectiveDate | apps/api/src/routes/certifications.ts:239 | an omitted date keeps the stored one, `null` clears it, a given timestamp replaces it |
| Certifications.Overwrite | apps/api/src/routes/certifications.ts:245-250 | an omitted field keeps its value, `null` clears it, a given value replaces it |
| Certifications.ApplyUpdate | apps/api/src/routes/certifications.ts:238-253 | id and provider kept; for each of type id, custom name, issued date, expiration date and notes: omitted keeps the stored value, `null` clears it, a given value replaces it; status recomputed from the resulting expiration |
| Certifications.UpdateCanClearBothNames | apps/api/src/routes/certifications.ts:61-67 | the update schema accepts clearing both type and custom name, and the result has neither |
| Certifications.Reschedules | apps/api/src/routes/certifications.ts:256 | no rebuild when the date field is omitted, when the new date is null or when it is not after `now` |
| Certifications.RescheduleIffNewFutureDate | apps/api/src/routes/certifications.ts:238-261 | on the updated certification, the reminders are rebuilt exactly when the body gives a new expiration timestamp after `now` |
| Certifications.DropScheduled | apps/api/src/routes/certifications.ts:257-259 | removes every `scheduled` event of the certification and keeps every other event with its multiplicity |
| Certifications.CountStatus | apps/api/src/routes/certifications.ts:169-175 | at most the list length; 0 iff no certification has the status; the list length iff all have it |
| Certifications.CountsPartition | apps/api/src/routes/certifications.ts:169-175 | the four status counts add up to the list length |
| Certifications.CountMissingRecomputed | apps/api/src/routes/certifications.ts:162-175 | after recomputation no certification counts as `missing` |
| Certifications.StatusFilter | apps/api/src/routes/certifications.ts:151-156 | an absent or empty status means no filter; each of the four status names selects that status; any other value is a server error |
| Certifications.Selected | apps/api/src/routes/certifications.ts:153-157 | each of the provider's certifications whose stored status passes the filter occurs as often as it is stored, and no other certification occurs |
| Certifications.ListResponse | apps/api/src/routes/certifications.ts:153-175 | the k-th item is the k-th selected certification with its status recomputed at `now`; each summary count is the count of that status in the returned list; missing = 0; total = list length = the sum of the four counts |
| Certifications.FindCert | apps/api/src/routes/certifications.ts:222 | finds a certification with this id owned by the caller, or reports that none exists |
| Certifications.FindRule | apps/api/src/routes/certifications.ts:320 | finds a rule with this id owned by the caller, or reports that none exists |
| Certifications.EventsOf | apps/api/src/routes/certifications.ts:196 | each event of the certification occurs as often as it is stored, and no other event occurs |
| Certifications.RulesOf | apps/api/src/routes/certifications.ts:300-301 | each rule of the provider occurs as often as it is stored, and no other rule occurs |
| Certifications.DaysOfRules | apps/api/src/routes/certifications.ts:126-127 | the provider's offsets are as many as the provider's rules (the count the seeding tests), the k-th being the k-th rule's `daysBeforeExpiration` |
| Certifications.DefaultRulesDays | apps/api/src/routes/certifications.ts:129-135 | the seeded rules give their provider the offsets [30, 7, 1] and give other providers none |
| Certifications.SeedingKeepsRulesSeeded | apps/api/src/routes/certifications.ts:127-135 | seeding a provider without rules keeps every provider's rules none or the default triple |
| Certifications.DaysOfIgnoresEnabled | apps/api/src/routes/certifications.ts:328 | toggling a rule leaves every provider's offsets unchanged |
| Certifications.DeleteCertKeepsInvariants | apps/api/src/routes/certifications.ts:286 | deleting a certification with its events keeps ids unique and every event pointing at a stored certification |
| Certifications.DropEventsOf | apps/api/src/routes/certifications.ts:286 | the cascade keeps each event of another certification with its multiplicity and drops every event of this one |
| Certifications.CertStore.CreateDefaultReminderEvents | apps/api/src/routes/certifications.ts:21-47 | appends exactly the planned events for the provider's offsets; nothing when none is in the future |
| Certifications.CertStore.InsertCertification | apps/api/src/routes/certifications.ts:108-119 | appends the certification under a fresh id |
| Certifications.CertStore.ScheduleReminders | apps/api/src/routes/certifications.ts:121-124 | appends the planned events iff the expiration is set and strictly in the future, and nothing otherwise |
| Certifications.CertStore.InsertAndSchedule | apps/api/src/routes/certifications.ts:108-124 | appends the certification under a fresh id, then the planned events iff the expiration is set and after `now` |
| Certifications.CertStore.SeedDefaultRules | apps/api/src/routes/certifications.ts:126-136 | appends the three enabled 30/7/1 rules for a provider without rules |
| Certifications.CertStore.AddCertification | apps/api/src/routes/certifications.ts:108-136 | appends the certification, then its reminders from the rules held before seeding, then the default rules iff the provider had none |
| Certifications.CertStore.CreateCertification | apps/api/src/routes/certifications.ts:91-140 | invalid body: 400 and no change. Otherwise the stored certification is `NewCertification` of the body under a fresh id; reminders are written only for an expiration strictly in the future, from the rules held before seeding; the default rules are added iff the provider had none |
| Certifications.CertStore.ListCertifications | apps/api/src/routes/certifications.ts:146-179 | an unknown status value is a 500 error, and the only error; otherwise the list response of `ListResponse` |
| Certifications.CertStore.GetCertification | apps/api/src/routes/certifications.ts:185-209 | an error is always 404 (`NotFound`), and it happens iff the caller owns no certification with the id; otherwise the stored certification found by `FindCert` with only its status recomputed at `now`, and a permutation of its events sorted by `scheduledFor` |
| Certifications.CertStore.UpdateCertification | apps/api/src/routes/certifications.ts:215-265 | 404 before validation; an invalid body changes nothing; otherwise the certification is replaced by `ApplyUpdate`. Its `scheduled` events are dropped and regenerated only when the date was supplied, non-null and in the future; sent and failed events and other certifications' events are kept; rules unchanged |
| Certifications.CertStore.DeleteCertification | apps/api/src/routes/certifications.ts:271-289 | 404 with no change, or the certification removed and every event kept with its multiplicity except all of this certification's |
| Certifications.CertStore.RemoveCertAt | apps/api/src/routes/certifications.ts:286 | removes exactly the certification at the index and every event of it, keeping every other event with its multiplicity and the store invariant |
| Certifications.CertStore.ListRules | apps/api/src/routes/certifications.ts:295-306 | exactly the provider's rules, as a permutation, by descending offset |
| Certifications.CertStore.SetRuleEnabled | apps/api/src/routes/certifications.ts:312-331 | a missing body is a 500 before the lookup (the destructuring throws); otherwise 404, or only that rule's `enabled` changes (kept when absent); events untouched |
| Prelude.Utf16Length | apps/api/src/routes/certifications.ts:53 | a string's JavaScript length lies between its number of characters and twice that |
| Prelude.Utf16LengthAstral | apps/api/src/routes/shifts.ts:9-10 | a string of characters above U+FFFF has twice as many code units as characters |
| Prelude.DaysFromCivil | apps/api/src/routes/shifts.ts:187-188 | the UTC day number of a year, month and day; in January 1970 day d is d - 1 days after the epoch, and the Civil lemmas below fix it on every date |
| Prelude.CivilEpoch | apps/api/src/routes/shifts.ts:187 | 1970-01-01 is day 0 |
| Prelude.CivilDayOffset | apps/api/src/routes/shifts.ts:187-188 | day d of a month is d - 1 days after its first, also past the month's end |
| Prelude.CivilNextMonth | apps/api/src/routes/shifts.ts:187-188 | the next month starts `DaysInMonth` days later: 31, 30, or 28/29 for February by the Gregorian leap rule |
| Prelude.CivilNextYear | apps/api/src/routes/shifts.ts:187-188 | January 1 follows 31 days after December 1 of the year before |
| Prelude.CivilMonthOverflow | apps/api/src/routes/shifts.ts:187-188 | a day past the end of a month is the matching day of the next month |
| Prelude.MarchYearLength | apps/api/src/routes/shifts.ts:187-188 | the year from March 1 has 366 days iff the following year is a leap year, else 365 |
| RateLimiter.KeyPrefix | apps/api/src/plugins/rateLimiter.ts:19 | never empty: the configured prefix when it is present and non-empty, "default" when it is absent or empty |
| RateLimiter.RateLimitKey | apps/api/src/plugins/rateLimiter.ts:14-16 | the key is the prefix, one ':' and the address, in that order |
| RateLimiter.KeyInjective | apps/api/src/plugins/rateLimiter.ts:14-16 | for prefixes without ':', equal keys mean equal prefix and address |
| RateLimiter.ConfiguredPrefixesSeparate | apps/api/src/plugins/rateLimiter.ts:49-58 | every configured limit has a colon-free prefix, max >= 1 and a positive window |
| RateLimiter.Step | apps/api/src/plugins/rateLimiter.ts:18-36 | no window or now > resetAt: count 1, resetAt = now + window, allowed with max - 1 left. At the limit: denied with 0 left and the store unchanged. Otherwise count + 1 in the same window, allowed with max - count left. Other keys are untouched. With max >= 1, counts stay in [1, max] and remaining >= 0 |
| RateLimiter.ResetInstantInOldWindow | apps/api/src/plugins/rateLimiter.ts:23 | a call exactly at `resetAt` still belongs to the full old window and is denied |
| RateLimiter.WindowBudget | apps/api/src/plugins/rateLimiter.ts:30-35 | calls up to the reset time are allowed at most max - count more times |
| RateLimiter.AtMostMaxPerWindow | apps/api/src/plugins/rateLimiter.ts:23-35 | a window allows at most `max` calls, however they are spread |
| RateLimiter.Swept | apps/api/src/plugins/rateLimiter.ts:41-45 | keeps exactly the entries with now <= resetAt, unchanged |
| RateLimiter.SweepCommutesWithStep | apps/api/src/plugins/rateLimiter.ts:39-46 | a sweep cannot be observed: later calls decide the same, and the store equals the swept unswept store |
| RateLimiter.RateLimitStore.CheckRateLimit | apps/api/src/plugins/rateLimiter.ts:18-36 | decision and new store are those of `Step` on the key `prefix:ip` |
| RateLimiter.RateLimitStore.Sweep | apps/api/src/plugins/rateLimiter.ts:39-46 | the loop leaves exactly `Swept(old entries, now)` |
| Shifts.EventInputValid | apps/api/src/routes/shifts.ts:8-12 | an accepted body has a type of 1..100 and a description of 1..2000 characters; a type of up to 50 and a description of up to 1000 characters without a timestamp are accepted |
| Shifts.IsDateString | apps/api/src/routes/shifts.ts:14-17 | a matching string has ten characters, each a digit or '-' |
| Shifts.NewEvent | apps/api/src/routes/shifts.ts:88-97 | the event belongs to the shift and the caller; its type and description are the given ones, 1..100 and 1..2000 characters; `occurredAt` is the given time or `now` |
| Shifts.DateFields | apps/api/src/routes/shifts.ts:15-16 | the year, month and day that, written back with leading zeros, give the string itself |
| Shifts.FormatDateParses | apps/api/src/routes/shifts.ts:15-16 | every date with a four-digit year and two-digit month and day is written as a `YYYY-MM-DD` string and read back unchanged |
| Shifts.DayNumber | apps/api/src/routes/shifts.ts:187-188 | a day number iff month is 1..12 and day is 1..31; then `DaysFromCivil` of the fields |
| Shifts.DayNumberOfDate | apps/api/src/routes/shifts.ts:187-188 | the string of a date denotes that date's civil day when month and day are in range, and is an invalid date otherwise |
| Shifts.EpochString | apps/api/src/routes/shifts.ts:187 | "1970-01-01" is a valid bound and denotes day 0 |
| Shifts.WholeDays | apps/api/src/routes/shifts.ts:187-193 | [first 00:00:00.000, last 23:59:59.999] holds exactly the instants whose UTC day is in first..last |
| Shifts.FindShift | apps/api/src/routes/shifts.ts:70 | the first shift with the id, or none exists |
| Shifts.ActiveShiftOf | apps/api/src/routes/shifts.ts:44-46 | an active shift of the user iff one exists |
| Shifts.OwnedShift | apps/api/src/routes/shifts.ts:70-72 | 404 iff no shift has the id, 403 for a shift of another user, else the caller's shift |
| Shifts.EventsOfAppend | apps/api/src/routes/shifts.ts:89-97 | appending events extends each shift's event list by its own new events only |
| Shifts.EventsOf | apps/api/src/routes/shifts.ts:209-210 | each event of the shift occurs as often as it is stored, and no other event occurs |
| Shifts.ShiftsOf | apps/api/src/routes/shifts.ts:134 | each of the user's shifts occurs as often as it is stored, and no other shift occurs |
| Shifts.NewestFirst | apps/api/src/routes/shifts.ts:136 | a permutation of the list, sorted by descending start |
| Shifts.Newest | apps/api/src/routes/shifts.ts:133-138 | min(50, count) of the user's shifts, each at most as often as stored, newest first; a shift left out started no later than every one kept |
| Shifts.StartedWithin | apps/api/src/routes/shifts.ts:190-193 | each of the user's shifts started in [lo, hi] occurs as often as it is stored, and no other shift occurs |
| Shifts.StartedOnDays | apps/api/src/routes/shifts.ts:190-196 | each of the user's shifts started on the UTC days first..last occurs as often as it is stored, no other shift occurs, oldest first |
| Shifts.ShiftsOnDays | apps/api/src/routes/shifts.ts:190-197 | the same shifts, with the same multiplicities and order, each with its events attached |
| Shifts.NewestListing | apps/api/src/routes/shifts.ts:133-138 | the shifts of `Newest`, each with its events attached |
| Shifts.StartKeepsInvariant | apps/api/src/routes/shifts.ts:43-60 | starting a shift for a user without an active one keeps one active shift per user, fresh ids and owned events |
| Shifts.StartedIsActive | apps/api/src/routes/shifts.ts:57-60 | the started shift is then the user's active shift |
| Shifts.EndKeepsInvariant | apps/api/src/routes/shifts.ts:120-124 | ending keeps the invariant and leaves the user with no active shift |
| Shifts.AddEventKeepsInvariant | apps/api/src/routes/shifts.ts:89-97 | a new event on an owned shift keeps the invariant and changes no other shift's event list |
| Shifts.CompletedEventsKept | apps/api/src/routes/shifts.ts:89-97 | an event for an active shift leaves the event list of every completed shift unchanged |
| Shifts.EndAgainRefused | apps/api/src/routes/shifts.ts:107-118 | after an end, the same request finds the same shift, now not active, so it is refused |
| Shifts.ShiftStore.StartShift | apps/api/src/routes/shifts.ts:40-63 | 409 with no change while the user has an active shift; otherwise exactly one new active shift, started now, without events |
| Shifts.ShiftStore.AddEvent | apps/api/src/routes/shifts.ts:66-100 | 404, then 403, then SHIFT_NOT_ACTIVE, then validation; only then one event is appended; a completed shift's events never change |
| Shifts.ShiftStore.AppendEvent | apps/api/src/routes/shifts.ts:89-97 | stores the event under the next id, keeps the store invariant and every completed shift's events |
| Shifts.ShiftStore.EndShift | apps/api/src/routes/shifts.ts:103-127 | 404, then 403, then SHIFT_ALREADY_ENDED with no change; otherwise the shift becomes completed with `endedAt = now` and only it changes |
| Shifts.ShiftStore.ListShifts | apps/api/src/routes/shifts.ts:130-141 | the response of `NewestListing`: min(50, count) of the user's shifts with their events, newest first; none left out is newer |
| Shifts.ShiftStore.GetActiveShift | apps/api/src/routes/shifts.ts:144-153 | the user's active shift with its events, or none iff the user has none |
| Shifts.ShiftStore.GetShift | apps/api/src/routes/shifts.ts:156-169 | 404, 403, or the caller's shift with its events |
| Shifts.ShiftStore.GetShiftEvents | apps/api/src/routes/shifts.ts:203-214 | 404, 403, or a permutation of the shift's events sorted by `occurredAt` |
| Shifts.ShiftStore.WeeklyRange | apps/api/src/routes/shifts.ts:172-200 | 400 iff a bound is missing or not `YYYY-MM-DD`; 500 iff a bound is an invalid date; success iff both bounds are valid dates; then the user's shifts started on the days weekStart..weekEnd, oldest first |

## Left out

- The certification types listing (apps/api/src/routes/certifications.ts:76-85) reads a reference table that is not part of this model.
- Certifications.ListResponse: does not model the `ORDER BY expirationDate, createdAt` of the list (line 159). The list keeps store order. Its contract ties every item to the selected certification at the same position and states the counts, not the database's order.
- Certifications.ComputeStatus: the source reads the clock separately in each call and in each route. The model uses one `now` per request.
- Certifications.CandidateEvents: `setDate(getDate() - days)` works in local time. It is modelled as subtracting whole 24-hour days; daylight-saving shifts are not modelled.
- Parsing of ISO-8601 timestamps is not modelled. A timestamp string is either a datetime denoting some millisecond, or not a datetime.
- Certifications.CreateInputValid and UpdateInputValid check the 8-4-4-4-12 hexadecimal shape of a UUID. Any further version or variant digit check the validation library applies is not modelled.
- Related rows that the routes include (certification type, event counts, structured notes) are not modelled.
- Certifications.CertStore.DeleteCertification: that events go with their certification rests on the database's cascading foreign key. The database schema is not part of this model.
- Certifications.CertStore.SetRuleEnabled: an `enabled` value that is not a boolean, which the database would reject, is not modelled.
- The reminder dispatcher and the status refresher do not exist in the code and are not modelled. Nothing moves an event to `sent` or `failed`.
- The rate limiter's middleware and plugin wrapper (apps/api/src/plugins/rateLimiter.ts:60-106) only set headers and send 429 responses, so they are left out. `Date.now()` and the five-minute timer become the `now` parameter and a `Sweep` call.
- RateLimiter.Step: numbers are unbounded integers. JavaScript's double-precision numbers are not modelled.
- Concurrency is not modelled. Two check-then-create races are left out. One is the shift start (apps/api/src/routes/shifts.ts:44-60). The other is the rule seeding of a first certification (apps/api/src/routes/certifications.ts:127-135): two concurrent first POSTs can both count zero rules and seed the triple twice, after which `RulesSeeded`, and with it `SeededRulesGiveDistinctReminders`, no longer describes the store. A rate-limit map per server process is not modelled either.
- Certifications.CertStore.CreateCertification and UpdateCertification: a well-formed `certificationTypeId` that names no certification type is stored and answered with success. In the code the database's foreign key rejects it (the type relation is included at apps/api/src/routes/certifications.ts:118), and the error handler answers 500. The set of certification types is not part of this model.
- Shifts: ids are natural numbers from a counter, in place of database-generated strings. A new shift's `startedAt = now`, `status = active` and `endedAt = null` are the database defaults. The schema that sets them is not part of this model.
- Shifts.ShiftStore.ListShifts, GetShift and WeeklyRange: the events attached to a shift come in store order. The database gives them in no specified order.
- Shifts.DayNumber: the model follows ECMAScript's date-time string format and MakeDay. Months 1..12 and days 1..31 are valid, and a day past the month's end runs on into the next month. Anything else is an invalid date, which the database rejects with a server error. Engine-specific leniency beyond that format is not modelled.
- String lengths in the request schemas are JavaScript lengths, in UTF-16 code units (`Utf16Length`). Unpaired surrogates cannot occur in a Dafny string and are not modelled.
- Authentication is not modelled: the user id is a parameter of every operation. Error message texts are not modelled either.
