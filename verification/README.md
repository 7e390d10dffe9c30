# LeedsPulse core, modelled in Dafny

LeedsPulse is a small rail-status service for the Leeds hub. This project
models three pieces of its logic as pure Dafny functions and proves what
they promise:

- **Train normaliser** (`RailService`, with the time-of-day arithmetic in
  `Clock`). This is the loop of `get_live_arrivals`. Each raw service of the
  rail feed becomes one train-status record. The record gets an origin, with
  a fallback to `UNK` / `Unknown Origin`. It gets the arrival time pair, or
  the departure pair when there is no scheduled arrival. Its delay and status
  come from the `Cancelled` / `On time` sentinels or from HH:MM arithmetic
  with a midnight correction. Last comes the refund-radar flag.
- **Hub-health scorer** (`Analytics`). This is `get_hub_health` after its two
  queries. From the train records and the severities of the last hour's
  incident reports it computes:
  - the number of cancellations;
  - the mean delay of the running trains;
  - the mean severity;
  - the stress index, 0.4 times the severity share plus 0.6 times the delay
    share, with the delay clamped at 60;
  - the GREEN / AMBER / RED band, forced to RED above three cancellations.

  Scores are exact rationals (`real`).
- **Incident ownership** (`Incidents`). The create, list-mine, update and
  delete endpoints are transitions of an abstract store: a set of registered
  users and a `map` from incident id to incident. Each error is one of 404
  user not found, 404 incident not found or 403 not authorized. The checks run
  in the source's order, and the store is unchanged on every error.

`Wrappers` holds `Option`, `Result` and Python truthiness of optional values.

Every file is given to Dafny together:
`dafny verify wrappers.dfy clock.dfy rail_service.dfy analytics.dfy incidents.dfy`.

Facts about the code that shape the model:

- The normaliser keeps every service; there is no station filter in
  `src/rail_service.py`.
- The scorer takes no station. The route is `/analytics/hub-health`, even
  though the tests call `/analytics/LDS/health`.
- The delay is the HH:MM difference between the estimated and the scheduled
  time, with the midnight correction.

A consequence of the code that the proofs make explicit: the midnight
correction only works forwards. A 00:05 service estimated at 23:58 reads as
1433 minutes late, with status Delayed. See `RailService.EarlyAcrossMidnightReadsLate`.

## Model

| member | source | states |
|---|---|---|
| `Clock.ParseFormatClock` | src/rail_service.py:57-58 | every time of day written as HH:MM parses back to the same minute of the day |
| `Clock.ParseClock` | src/rail_service.py:57-58 | a successful parse has 3 to 5 characters, all ASCII digits except the ':' |
| `Clock.ParseShortClock` | src/rail_service.py:57-58 | the one-digit spellings H:M, H:MM and HH:M of every time of day parse to its minute, as `%H` and `%M` accept one digit |
| `Clock.ParseClockRejects` | src/rail_service.py:57-58 | an hour past 23, a minute past 59, a seconds field, a leading space, empty fields, a three-digit hour and a missing ':' are all rejected |
| `Clock.FormatParseClock` | src/rail_service.py:57-58 | a five-character time that parses is exactly the canonical HH:MM spelling of its value |
| `Clock.ClockDelay` | src/rail_service.py:61-67 | the delay is below 1440; it is 0 exactly when the estimate is at most 12 hours earlier on the same day; otherwise adding it to the scheduled time lands on the estimated time modulo a day |
| `Clock.ClockDelayUnique` | src/rail_service.py:61-67 | a positive delay is the only gap under a day that takes the scheduled time to the estimated time |
| `RailService.OriginOf` | src/rail_service.py:27-33 | an empty origin list gives `UNK` / `Unknown Origin`; otherwise the code and name of the first origin entry |
| `RailService.SelectTimes` | src/rail_service.py:36-42 | an absent or empty scheduled arrival switches to the departure pair and drops the estimated arrival even when present; otherwise the arrival pair |
| `RailService.ClassifyDelay` | src/rail_service.py:44-73 | status Cancelled iff the estimate is "Cancelled", with delay 60; "On time" gives On Time / 0; two parseable times give the midnight-corrected delay; anything else gives On Time / 0; delay in 0..1439, On Time has delay 0, Delayed has delay > 0 |
| `RailService.NormaliseRecord` | src/rail_service.py:26-94 | origin fallback with `from_name == origin_city`, the time-pair choice, the delay/status invariants, operator defaulting to "" only when absent, refund eligible iff delay >= 15 and operator in {Northern, LNER, TransPennine Express}, delay and status equal the classification of the selected time pair, passthrough fields |
| `RailService.NormaliseAll` | src/rail_service.py:24-96 | one record per service, same length, same order, each the normalisation of its service |
| `RailService.NormaliseFeed` | src/rail_service.py:20-26 | a missing service list yields no records; otherwise one record per service in order |
| `RailService.FeedWellFormed` | src/rail_service.py:45-73 | every record of every feed has delay in 0..1439, Cancelled ⇒ 60, On Time ⇒ 0, Delayed ⇒ > 0 |
| `RailService.NormaliseAllAppend` | src/rail_service.py:26-94 | each record depends only on its own service: normalising a concatenation is concatenating the normalisations |
| `RailService.MidnightRollover` | src/rail_service.py:61-67 | scheduled 23:50 and estimated 00:05 give Delayed with 15 minutes |
| `RailService.EarlyAcrossMidnightReadsLate` | src/rail_service.py:54-70 | scheduled 00:05 and estimated 23:58 give Delayed with 1433 minutes: the correction covers only the forward direction |
| `RailService.RefundRadarExamples` | src/rail_service.py:76-78 | 15 minutes on LNER is eligible; 14 minutes on LNER and 20 minutes on CrossCountry are not |
| `RailService.MissingOperatorNeverEligible` | src/rail_service.py:76-78 | an absent operator defaults to "" and is never refund eligible |
| `RailService.CancelledListedOperatorEligible` | src/rail_service.py:48-78 | a cancelled service on a listed operator is refund eligible (penalty 60 >= 15) |
| `RailService.LabelNamesStatus` | src/routers/analytics.py:24-26 | a record's status string equals "Cancelled" exactly when the status is Cancelled, and distinct statuses have distinct strings, so the scorer's string tests select by status |
| `Analytics.CountCancelled` | src/routers/analytics.py:24 | at most the number of trains; 0 iff no train is cancelled; all trains iff every train is cancelled |
| `Analytics.CountCancelledAppend` | src/routers/analytics.py:24 | the count adds up over concatenation and a single train counts 1 exactly when cancelled, which determines it as the number of cancelled trains |
| `Analytics.Active` | src/routers/analytics.py:26 | a train is kept exactly when it is in the input and not cancelled, and the kept trains plus the cancellations account for every train |
| `Analytics.ActiveAppend` | src/routers/analytics.py:26 | the filter distributes over concatenation and keeps a single train exactly when it is not cancelled, which determines the running trains in order, each once |
| `Analytics.Mean` | src/routers/analytics.py:27-33 | 0 for no elements; otherwise the value whose product with the count is the sum |
| `Analytics.StressIndex` | src/routers/analytics.py:36 | with mean severity in 0..5 and a non-negative mean delay, the score is in [0, 1] |
| `Analytics.BandOf` | src/routers/analytics.py:38-40 | RED iff score > 0.7; GREEN iff score <= 0.35; AMBER in between |
| `Analytics.HubHealthOf` | src/routers/analytics.py:23-52 | reports counted; cancellations are the trains not active; mean delay over active trains and mean severity feed the score; more than 3 cancellations force RED, otherwise the band of the score |
| `Analytics.MeanAtLeast` | src/routers/analytics.py:27-33 | a mean is at least any lower bound of its elements (0 for no elements) |
| `Analytics.MeanAtMost` | src/routers/analytics.py:27-33 | a mean is at most any upper bound of its elements (0 for no elements) |
| `Analytics.MeanConstant` | src/routers/analytics.py:27-29 | the mean of equal delays is that delay |
| `Analytics.StressIndexBounded` | src/routers/analytics.py:26-36 | severities in 0..5 and non-negative delays give a score in [0, 1] and a non-negative mean delay |
| `Analytics.FeedStressIndexBounded` | src/routers/analytics.py:18-36 | for any feed the normaliser accepts and severities in 0..5, the score is in [0, 1] |
| `Analytics.EmptyInputs` | src/routers/analytics.py:23-52 | no trains and no reports give score 0, GREEN and metrics (0, 0, 0) |
| `Analytics.UncheckedSeverityLeavesRange` | src/routers/analytics.py:32-36 | one report of severity 20 and no trains give score 1.6 and RED: the unchecked severity can push the score outside [0, 1] |
| `Analytics.BandBoundaries` | src/routers/analytics.py:38-40 | a score of exactly 0.35 is GREEN and exactly 0.7 is AMBER |
| `Analytics.BandMonotone` | src/routers/analytics.py:38-40 | a higher score never gives a milder band |
| `Analytics.OverrideForcesRed` | src/routers/analytics.py:43 | more than three cancellations give RED whatever the score |
| `Analytics.NoReportsFullDelayIsAmber` | src/routers/analytics.py:26-40 | with no reports, at least one running train, every running train 60 minutes late and at most three cancellations, the score is 0.6 and the band AMBER |
| `Analytics.DelaysAloneNeverRed` | src/routers/analytics.py:31-43 | without reports the score is at most 0.6, so only the override can give RED |
| `Analytics.ReportsAloneNeverRed` | src/routers/analytics.py:26-43 | for severities of at most 5 and at most three cancellations, when no running train is late the score is at most 0.4, so such reports never give RED |
| `Incidents.GetUserOr404` | src/routers/incidents.py:9-13 | the user when registered, otherwise the error with code 404 and detail "User not found" |
| `Incidents.NewIncident` | src/routers/incidents.py:22 | the created incident carries the request's fields, the station defaulting to "LDS", is owned by the caller and stamped with the creation time it is given |
| `Incidents.Create` | src/routers/incidents.py:15-26 | an unknown user gets 404 and an unchanged store; otherwise exactly one incident is added under the new id, owned by the caller, with every other incident and the users unchanged |
| `Incidents.ListMine` | src/routers/incidents.py:28-31 | the listing succeeds exactly when the user is registered and an unknown user gets 404; on success exactly the incidents the caller owns; the store never changes |
| `Incidents.OwnedIncident` | src/routers/incidents.py:40-44 | a missing id is 404 "Incident not found" before a foreign owner is 403 "Not authorized"; success iff the id exists and the caller owns it |
| `Incidents.ApplyUpdate` | src/routers/incidents.py:46-48 | type, severity and description change only when the new value is truthy; station, train, owner and creation time never change |
| `Incidents.Update` | src/routers/incidents.py:33-52 | 404 then 403 with the store unchanged; on success only the target incident changes, to the patched incident, still owned by the caller |
| `Incidents.Delete` | src/routers/incidents.py:54-63 | 404 then 403 with the store unchanged; on success exactly the target id is removed and every other incident is kept |
| `Incidents.OwnersStayRegistered` | src/routers/incidents.py:15-63 | create, update and delete keep every incident owned by a registered user |
| `Incidents.DeleteTwiceNotFound` | src/routers/incidents.py:56-61 | after a successful delete, deleting the same id again is a 404 |
| `Incidents.CreateThenDeleteRestores` | src/routers/incidents.py:21-61 | the owner deleting a report they just created restores the store exactly |
| `Incidents.CreateThenListMine` | src/routers/incidents.py:22-31 | a new report appears in its owner's listing and leaves every other user's listing unchanged |
| `Incidents.UpdateDeleteIgnoreRegistration` | src/routers/incidents.py:33-63 | the result of an update or a delete does not depend on which users are registered: neither endpoint checks the user |
| `Incidents.UpdateIdempotent` | src/routers/incidents.py:46-48 | applying the same update twice equals applying it once, on every input, error paths included |
| `Incidents.FalsyUpdateIsIdentity` | src/routers/incidents.py:46-48 | an update whose fields are all absent, empty or 0 leaves the store and the incident unchanged |

## Left out

- The HTTP fetch, the access token, `.env` loading and printing in `src/rail_service.py`. The parsed `trainServices` value is the input of `RailService.NormaliseFeed`.
- The catch-all `except` that turns any exception into an empty list. It only matters for feed values of the wrong JSON type, such as a non-string time or a non-object origin entry. The model types every field, so those values cannot occur.
- Clock.ParseClock: accepts ASCII digits only. Python's `\d` in the `%H:%M` pattern also accepts other Unicode decimal digits. Otherwise the grammar is the same: one or two digits for an hour up to 23 and a minute up to 59, one ':', and nothing else.
- `datetime.now()`, the report timestamp and the one-hour `created_at` query of `get_hub_health`. The scorer receives the severities of the reports already in the window.
- The presentation rounding `round(score, 2)` and `round(avg_delay, 1)`, and IEEE floating-point behaviour. The model computes exact rationals, and the band uses the unrounded score, as the code does.
- Analytics.StressIndexBounded: assumes severities in 0..5. The source only documents that range in a column comment, and the request schema (`src/schemas.py:28`) accepts any integer; `Analytics.UncheckedSeverityLeavesRange` shows a score of 1.6 outside that range.
- Analytics.ReportsAloneNeverRed: assumes severities of at most 5, for the same reason: the request schema (`src/schemas.py:28`) and `update_incident` (`src/routers/incidents.py:47`) accept any integer. `Analytics.UncheckedSeverityLeavesRange` shows reports alone giving RED with a severity of 20.
- Incidents.Create: the database's UUID is the parameter `id`, and its uniqueness is the requirement that `id` is not yet in the store. An id collision would be a database integrity error, which is not modelled. The server-side `created_at` is the parameter `now`.
- Incidents.ListMine: returns the owned incidents as a map keyed by id. The row order of the database query is not modelled.
- Request validation by FastAPI/Pydantic (422 responses), the `route_id` column, and session commit/refresh.
- `src/routers/auth.py` (register, login, delete_user) is not part of this model. The password hashing it calls lives in a module that is not shown. Nothing here registers or removes users, so each incident operation takes the user set as given.
- Incidents.OwnersStayRegistered: covers create, update and delete only. `delete_user` (`src/routers/auth.py:29-36`) removes a registered user and leaves that user's incidents in place. After it, `get_my_incidents` answers 404 for that user. `update_incident` and `delete_incident` still succeed for the user, because they never check registration (`Incidents.UpdateDeleteIgnoreRegistration`). So the registered-owner invariant does not hold across the whole API.
- `src/main.py` (app and CORS wiring) and the ORM declarations. The ORM file as written (`src/models.py:23-30`) has no `owner_id`, `station_code` or `train_id` column and no `User` class. So `models.Incident(**incident.dict(), owner_id=user_id)` and `models.User` in `src/routers/incidents.py` would fail against it. The incident datatypes follow the request and response schemas (`src/schemas.py:24-40`) and the integration test (`tests/test_main.py:84-88`) instead: an incident has a station (default `"LDS"`), a train, a type, a severity, a description, an owner and a creation time.
