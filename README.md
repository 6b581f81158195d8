# Fealty capture game: a Dafny model of its game logic

Fealty is a location game. A player who walks into the radius of a point
of interest (POI) goes through two phases. First, a ten-second entry
phase. Then a capture phase whose one-second ticks earn seconds, with a
ten-second bonus for every full minute. When the counter reaches 60 the
session's seconds are saved as a claim. With the interval surviving
re-renders, as modelled, the capture then starts over from the seconds
already claimed today; in the hook as written, the effect cleanup stalls
the counter first (see "## Left out"). When the
player walks away mid-session, the seconds earned so far are saved. A
daily ceiling of 60 seconds per POI, looked up when entry completes,
blocks a new capture.

Around the capture hook sit small pure pieces of logic:

- time formatters;
- the backend-error classifier;
- the transforms applied to OpenStreetMap answers;
- the per-POI leaderboard and the popular-cities ranking;
- the notification centre, the rules and settings screens, the country
  search and the sign-up form guards;
- the icon dispatch of the map markers.

This project models all of these in Dafny and proves properties about
them. Each source file is one module:

| module | source |
|---|---|
| `GameMechanics` | hooks/useGameMechanics.ts |
| `Config` | constants/config.ts, the `POIType` union of types/index.ts |
| `FormatTime` | utils/formatTime.ts |
| `DateFormat` | `formatDuration` of utils/date.ts |
| `CaptureTimerView` | components/map/CaptureTimer.tsx |
| `ErrorHandling` | utils/errorHandling.ts |
| `PoiService` | services/poi.service.ts |
| `Geocoding` | services/geocoding.service.ts |
| `Notifications` | app/profile/notifications.tsx |
| `SignUp` | app/auth/signup.tsx |
| `SelectCountry` | app/profile/select-country.tsx |
| `Rules` | app/profile/rules.tsx |
| `NotificationSettings` | app/profile/notification-settings.tsx |
| `PoiMarker` | components/map/POIMarker.tsx |

Five modules are shared helpers, not models of a source file:

- `Wrappers` holds `Option`, which stands for `null` / `undefined`.
- `Text` holds `includes`, ASCII `toLowerCase`, integer-to-decimal text, `join`, `split(…)[0]` and `padStart`.
- `DurationText` renders and parses the "1h 2m 5s" notation. The formatters' round trips are stated through it.
- `Sorting` is a stable descending sort with `slice(0, n)`.
- `Grouping` holds first-appearance keys, per-key sums and first rows. Both reductions are specified with it.

The capture hook is imperative. It is a specification layer, plus a class
proved against that layer:

- **Specification.** The datatype `Machine` holds the hook's state. Each transition function `EnterRadiusSpec`, `EntryFrameSpec`, `CaptureTickSpec` and `LeaveRadiusSpec` folds in the effect runs that one input triggers. `Inv` is the invariant every reachable state keeps.
- **Class.** `CaptureMachine` holds the same state in fields. Each method ensures `State() == XSpec(old(State()))`.
- **Inputs and timers.**
  - `isInsideRadius` arrives as `EnterRadius` / `LeaveRadius`.
  - Every animation frame is `EntryFrame(elapsedMs, lookup)`. Entry progress is in whole milliseconds (`p` stands for `p / 10000`).
  - `lookup` is the daily-seconds result: `None` when there is no user or no POI.
  - Every interval firing is `CaptureTick`.
- **Claims.** Every amount passed to `onSaveClaim` is appended to a ghost sequence `claims`.

Both imperative reductions are `method`s with loops, proved equal to a
specification function. These are the leaderboard's `reduce` and the
popular-cities `forEach`. Each loop body is a small method that keeps an
`Accumulated` / `Counted` invariant.

The model follows the code where it departs from what its comments, its
sibling functions or its constants suggest:

- **Repeated claim.** Completion at 60 clears and forgets the interval but leaves `isCaptureActive` set. The changed `sessionSeconds` re-runs the capture effect, whose start branch starts a new interval from the daily seconds with the session at 0. With the interval surviving re-renders, as modelled, a player who stays inside therefore claims the same 70 − s seconds every 60 − s ticks (`CompletionClaimsAgain`). As written, the cleanup stall described under "## Left out" masks this. It is recorded under "## Findings", with a corrected tick proved to save at most one claim per visit.
- **`formatTime(7325)`.** The code gives "2h 2m", while the comment at utils/formatTime.ts:7 says "2h 2m 5s". Seconds are dropped whenever there are hours.
- **Case-sensitive network rule.** `parseSupabaseError` tests "network"/"fetch" case-sensitively, unlike its sibling `isNetworkError` (utils/errorHandling.ts:103-111), which lower-cases first. "Network Error" is therefore an unknown error, while `isNetworkError` accepts it.
- **Unused constant.** The hook hard-codes the daily ceiling of 60 (hooks/useGameMechanics.ts:62 and 140). It never reads `MAX_CAPTURE_SECONDS` from constants/config.ts.

## Model

| member | source | states |
|---|---|---|
| GameMechanics.EnterRadiusSpec | hooks/useGameMechanics.ts:37-38 | No contract of its own. `isInsideRadius` turning true schedules entry only with capture inactive and progress 0; see EntryStartsOnlyFromRest and EnterRadiusInv. |
| GameMechanics.EntryFrameSpec | hooks/useGameMechanics.ts:44-83 | No contract of its own. One animation frame of entry mode and its completion; see EntryProgressFollowsClock, DailyLimitGate and NoLookupStartsCapture. |
| GameMechanics.CaptureTickSpec | hooks/useGameMechanics.ts:106-159 | No contract of its own. One firing of the capture interval as written, with the capture effect's restart after completion; see TicksBelowLimit, BonusEdgeTriggered, CaptureCompletes and CompletionClaimsAgain. |
| GameMechanics.LeaveRadiusSpec | hooks/useGameMechanics.ts:87-204 | No contract of its own. The entry, capture and leave effects after `isInsideRadius` turns false; see LeaveMidCapture and LeaveWithNothingEarned. |
| GameMechanics.InitialInv | hooks/useGameMechanics.ts:37-99 | The state on mount (outside, no progress, nothing scheduled, no claims) satisfies the invariant. |
| GameMechanics.EnterRadiusInv | hooks/useGameMechanics.ts:38 | Entering the radius keeps the invariant. |
| GameMechanics.EntryFrameInv | hooks/useGameMechanics.ts:44-83 | An entry frame, including completion and the daily-limit gate, keeps the invariant. |
| GameMechanics.CaptureTickInv | hooks/useGameMechanics.ts:119-159 | A capture tick keeps the invariant: session = counter − daily seconds while running, session ≤ 70, every claim in 1..70. |
| GameMechanics.LeaveRadiusInv | hooks/useGameMechanics.ts:87-96 | Leaving the radius (the entry, leave and stop effects together) keeps the invariant. |
| GameMechanics.RunKeepsInv | hooks/useGameMechanics.ts:37-206 | After any sequence of inputs the invariant holds, and claims are only ever appended. |
| GameMechanics.ClaimsFromMountBounded | hooks/useGameMechanics.ts:148 | In every run from mount, every amount passed to `onSaveClaim` is positive and at most 70. |
| GameMechanics.EntryProgressFollowsClock | hooks/useGameMechanics.ts:44-54 | A frame sets progress to min(elapsed, 10000 ms). The loop reschedules exactly while progress is below full. Frames save nothing. |
| GameMechanics.EntryProgressMonotone | hooks/useGameMechanics.ts:45-50 | For a clock that does not run backwards, progress never decreases. |
| GameMechanics.EntryStartsOnlyFromRest | hooks/useGameMechanics.ts:38 | Entry is scheduled only from outside, with capture inactive and progress exactly 0. Entering from outside always schedules it. |
| GameMechanics.DailyLimitGate | hooks/useGameMechanics.ts:57-76 | With a lookup result ≥ 60, completion leaves the blocked state with no claim. Below 60, capture starts with the counter at that result and the session at 0. |
| GameMechanics.NoLookupStartsCapture | hooks/useGameMechanics.ts:57-80 | With no user or POI, completion activates capture without a lookup, seeding the counter with the stored daily seconds. |
| GameMechanics.BlockedStaysBlocked | hooks/useGameMechanics.ts:38-72 | Once blocked at full progress, no input other than leaving changes the state, so entry never restarts inside the radius. |
| GameMechanics.LeaveRearmsEntry | hooks/useGameMechanics.ts:87-96 | After leaving, re-entering schedules a fresh entry from progress 0. |
| GameMechanics.TicksBelowLimit | hooks/useGameMechanics.ts:120-134 | k ticks that stay below 60 add exactly k to both counter and session and save nothing. |
| GameMechanics.CaptureCompletes | hooks/useGameMechanics.ts:106-152 | From seed s < 60, exactly 60 − s ticks save one claim of 70 − s. The restart then leaves every other field as when the capture started: counter at s, session 0, interval running. |
| GameMechanics.TicksAdd | hooks/useGameMechanics.ts:119 | Ticking a then b times is ticking a + b times. |
| GameMechanics.CaptureExamples | hooks/useGameMechanics.ts:127-148 | Seed 0 saves 70 after 60 ticks. Seed 55 saves 15 after 5 ticks. |
| GameMechanics.BonusEdgeTriggered | hooks/useGameMechanics.ts:127-148 | From counter 57 the session grows by 1, 1, then 11, and the third tick saves it: the bonus fires only on the tick that reaches a multiple of 60. |
| GameMechanics.LeaveMidCapture | hooks/useGameMechanics.ts:160-204 | Leaving k ticks into a capture saves exactly k (nothing when k = 0), stops the interval and zeroes progress, counter, session and daily seconds. |
| GameMechanics.LeaveWithNothingEarned | hooks/useGameMechanics.ts:193 | Leaving with capture inactive or a zero session saves nothing and resets entry. |
| GameMechanics.CompletionClaimsAgain | hooks/useGameMechanics.ts:106-204 | After completion, leaving at once saves nothing more, while another 60 − s ticks inside save a second claim of 70 − s. From seed 0, 120 ticks save [70, 70]. |
| GameMechanics.CaptureTickCorrected | hooks/useGameMechanics.ts:140-152 | No contract of its own. The tick with completion also ending the capture and clearing the session once it is saved; see CorrectedVisitSavesAtMostOnce. |
| GameMechanics.CaptureTickCorrectedInv | hooks/useGameMechanics.ts:140-152 | The corrected tick keeps the invariant, and a tick that saves a claim leaves the blocked state in which nothing more is earned. |
| GameMechanics.VisitKeepsSavedAtMostOnce | hooks/useGameMechanics.ts:119-159 | Inside the radius, any frames, ticks and re-entries under the corrected tick save at most one claim, and after it nothing can be earned. |
| GameMechanics.CorrectedVisitSavesAtMostOnce | hooks/useGameMechanics.ts:140-204 | With the corrected tick, a visit from entering to leaving appends at most one claim and never removes one. |
| GameMechanics.CorrectedTicksComplete | hooks/useGameMechanics.ts:119-152 | Under the corrected tick, the ticks that reach 60 save the session plus the minute bonus once and end the capture. |
| GameMechanics.CorrectedCompletionSavesOnce | hooks/useGameMechanics.ts:140-204 | The corrected completion from seed s still saves 70 − s, and leaving afterwards saves nothing more. |
| GameMechanics.CaptureMachine.constructor | hooks/useGameMechanics.ts:19-31 | The new object holds the initial state and satisfies the invariant. |
| GameMechanics.CaptureMachine.EnterRadius | hooks/useGameMechanics.ts:37-38 | The new state is `EnterRadiusSpec` of the old, and the invariant is kept. |
| GameMechanics.CaptureMachine.EntryFrame | hooks/useGameMechanics.ts:44-114 | The new state is `EntryFrameSpec` of the old, and the invariant is kept. |
| GameMechanics.CaptureMachine.CaptureTick | hooks/useGameMechanics.ts:106-159 | The new state is `CaptureTickSpec` of the old, and the invariant is kept. The amount returned is the one passed to `onSaveClaim`, if any. |
| GameMechanics.CaptureMachine.LeaveRadius | hooks/useGameMechanics.ts:87-206 | The new state is `LeaveRadiusSpec` of the old, and the invariant is kept. The amount returned is the one passed to `onSaveClaim`, if any. |
| GameMechanics.FullVisit | hooks/useGameMechanics.ts:37-206 | Entering, completing entry from seed s < 60, 60 − s ticks and leaving save 70 − s exactly once, on the last tick; leaving adds nothing. |
| Config.PoiCategories | constants/config.ts:18-25 | The category table has exactly the keys park, museum, historic, church, monument and other. |
| Config.POIType.Name | types/index.ts:17-23 | Every POI type's tag has a category entry. |
| Config.NameInjective | types/index.ts:17-23 | Distinct POI types have distinct tags. |
| FormatTime.FormatTime | utils/formatTime.ts:9-34 | No contract of its own; see FormatTimeAboveMinute, FormatTimeBelowMinute and FormatTimeExamples. |
| FormatTime.FormatTimeDetailed | utils/formatTime.ts:39-57 | No contract of its own; see DetailedRoundTrip and DetailedNonPositive. |
| FormatTime.JsRem | utils/formatTime.ts:15-16 | JavaScript `%` by a positive divisor: Euclidean on non-negative input, result in (−b, 0] for negative input. |
| FormatTime.Split | utils/formatTime.ts:14-16 | For n ≥ 0, minutes and seconds are below 60 and hours·3600 + minutes·60 + seconds = n. |
| FormatTime.PartsCanonical | utils/formatTime.ts:18-31 | The parts list holds only positive components, in h, m, s order. |
| FormatTime.PartsTotal | utils/formatTime.ts:18-31 | The parts list is worth its components' weighted sum in seconds. |
| FormatTime.RenderNotZero | utils/formatTime.ts:33 | A non-empty canonical parts list never renders as the "0s" fallback. |
| FormatTime.FormatTimeAboveMinute | utils/formatTime.ts:14-33 | For n ≥ 60 the parts are non-empty and canonical and the text is never "0s". It reads back as n, minus n mod 60 once there are hours. |
| FormatTime.FormatTimeBelowMinute | utils/formatTime.ts:10-12 | For 0 ≤ n < 60 the text is "{n}s" and reads back as n. |
| FormatTime.FormatTimeExamples | utils/formatTime.ts:3-33 | 45 → "45s", 120 → "2m", 3665 → "1h 1m", 7325 → "2h 2m". |
| FormatTime.DetailedRoundTrip | utils/formatTime.ts:39-57 | For n > 0 every positive component appears in h, m, s order and the text reads back as exactly n. |
| FormatTime.DetailedNonPositive | utils/formatTime.ts:56 | Zero and negative inputs give "0s". |
| FormatTime.FormatTimeDetailedExamples | utils/formatTime.ts:39-57 | 7325 → "2h 2m 5s", 3665 → "1h 1m 5s", 0 → "0s". |
| DateFormat.FormatDuration | utils/date.ts:11-17 | No contract of its own; see FormatDurationAboveHour and FormatDurationBelowHour. |
| DateFormat.FormatDurationAboveHour | utils/date.ts:15-17 | For n ≥ 60 the text is exactly an hours component n/60 and a minutes component n%60 < 60 (present even when 0). It reads back as n. |
| DateFormat.HoursAndMinutes | utils/date.ts:17 | For n ≥ 60 the text is the two-component rendering "{h}h {m}m". |
| DateFormat.FormatDurationBelowHour | utils/date.ts:12-14 | For 0 ≤ n < 60 the text is the single component "{n}m" and reads back as n. |
| DateFormat.FormatDurationExamples | utils/date.ts:11-17 | 45 → "45m", 120 → "2h 0m", 61 → "1h 1m". |
| CaptureTimerView.TimerText | components/map/CaptureTimer.tsx:10-21 | No contract of its own; see TimerRoundTrip and InactiveRendersNothing. |
| CaptureTimerView.PaddedSeconds | components/map/CaptureTimer.tsx:21 | A seconds value below 60 pads to exactly two digits whose value is the input. |
| CaptureTimerView.ClockRoundTrip | components/map/CaptureTimer.tsx:21 | "m:ss" built from minutes and seconds < 60 reads back as minutes·60 + seconds, with the seconds in the last two digits. |
| CaptureTimerView.TimerRoundTrip | components/map/CaptureTimer.tsx:15-21 | While active the overlay always renders. Its text reads back as the counter, and its last two digits are the counter mod 60. |
| CaptureTimerView.InactiveRendersNothing | components/map/CaptureTimer.tsx:11-13 | Nothing is rendered while capture is inactive. |
| CaptureTimerView.TimerExamples | components/map/CaptureTimer.tsx:15-21 | 5 → "0:05", 60 → "1:00", 75 → "1:15". |
| ErrorHandling.Classify | utils/errorHandling.ts:18-97 | No contract of its own. The ordered rule chain of `parseSupabaseError`; see InvalidCredentialsFirst, ClassifierOrder, DuplicateKeyConstraints, ForeignKeyAfterDuplicate and LaterRules. |
| ErrorHandling.IsNetworkError | utils/errorHandling.ts:103-111 | No contract of its own; see NetworkKeywordIsNetworkError and NetworkCaseInsensitiveTest. |
| ErrorHandling.IsAuthError | utils/errorHandling.ts:116-124 | No contract of its own; see CredentialsPhraseIsAuthError and NoMessageNoKeywords. |
| ErrorHandling.OrEmpty | utils/errorHandling.ts:15-16 | `x \|\| ''`: a present non-empty string is kept, absence gives "". |
| ErrorHandling.ErrorCode.Name | utils/errorHandling.ts:14-98 | Every error code has a non-empty name. |
| ErrorHandling.Report | utils/errorHandling.ts:20-97 | Each record carries the chosen code and a translated or non-empty literal message. The generic record carries the message, or the fixed text when it is empty. |
| ErrorHandling.ParseSupabaseError | utils/errorHandling.ts:14-98 | Every result has a non-empty code and message. UNKNOWN_ERROR carries the original message, or the fixed text when there is none. |
| ErrorHandling.InvalidCredentialsFirst | utils/errorHandling.ts:19-25 | The result is INVALID_CREDENTIALS exactly when the message contains "Invalid login credentials", whatever the code. |
| ErrorHandling.AlreadyRegisteredSubsumes | utils/errorHandling.ts:27 | "User already registered" implies "already registered", so the first test adds nothing. |
| ErrorHandling.FailedToFetchSubsumes | utils/errorHandling.ts:75 | "Failed to fetch" implies "fetch". |
| ErrorHandling.ClassifierOrder | utils/errorHandling.ts:27-64 | Past the credentials rule: "already registered" → USER_EXISTS, else "Email not confirmed" → EMAIL_NOT_CONFIRMED, else code 23505 / "duplicate key" → one of the three duplicate codes. |
| ErrorHandling.DuplicateKeyConstraints | utils/errorHandling.ts:44-64 | Past the earlier rules, under code 23505 or a "duplicate key" message with any code: users_username_key → USERNAME_EXISTS first, then users_pkey or users_email_key → USER_EXISTS, otherwise DUPLICATE_KEY. |
| ErrorHandling.ForeignKeyAfterDuplicate | utils/errorHandling.ts:44-72 | FOREIGN_KEY_VIOLATION needs code 23503 and no "duplicate key" in the message, and a "duplicate key" message never gives it. Conversely, code 23503 past the account rules with no "duplicate key" always gives it. |
| ErrorHandling.LaterRules | utils/errorHandling.ts:75-90 | Past the earlier rules: "network"/"fetch" gives NETWORK_ERROR exactly when present, and otherwise the row-level-security phrases give RLS_VIOLATION exactly when present. |
| ErrorHandling.NetworkClassifiedIsNetworkError | utils/errorHandling.ts:75-111 | Whatever the classifier files as NETWORK_ERROR, `isNetworkError` also accepts. |
| ErrorHandling.NetworkRuleMatched | utils/errorHandling.ts:75 | A NETWORK_ERROR result means the message holds one of the rule's keywords. |
| ErrorHandling.NetworkKeywordIsNetworkError | utils/errorHandling.ts:103-111 | A message with "network", "fetch" or "Failed to fetch" is accepted by `isNetworkError`. |
| ErrorHandling.InvalidCredentialsIsAuthError | utils/errorHandling.ts:116-124 | Whatever is filed as INVALID_CREDENTIALS, `isAuthError` also accepts. |
| ErrorHandling.CredentialsPhraseIsAuthError | utils/errorHandling.ts:116-124 | A message containing "Invalid login credentials" is accepted by `isAuthError`. |
| ErrorHandling.NoKeywordFallsThrough | utils/errorHandling.ts:93-97 | A message that lacks a character of every keyword, with no code, reaches the generic rule. |
| ErrorHandling.NetworkCaseSensitiveClassifier | utils/errorHandling.ts:75-97 | "Network Error" is classified UNKNOWN_ERROR with its own text. |
| ErrorHandling.CapitalNetworkUnclassified | utils/errorHandling.ts:75 | "Network Error" matches no rule of the classifier. |
| ErrorHandling.NetworkCaseInsensitiveTest | utils/errorHandling.ts:103-111 | `isNetworkError` lower-cases first and accepts "Network Error". |
| ErrorHandling.NoMessageNoKeywords | utils/errorHandling.ts:103-124 | With no error or no message, both `isNetworkError` and `isAuthError` are false. |
| ErrorHandling.MissingErrorIsUnknown | utils/errorHandling.ts:93-97 | A missing error gives UNKNOWN_ERROR with the fixed text. |
| PoiService.DetectPOIType | services/poi.service.ts:56-62 | No contract of its own; see DetectPOITypeRange and DetectPOITypePriority. |
| PoiService.ToPoi | services/poi.service.ts:39-46 | No contract of its own; see ToPoiFields, CategoryFallback and CoordinatesFallBackToCenter. |
| PoiService.NearbyPois | services/poi.service.ts:32-49 | No contract of its own; see NearbyPoisKeepsOrder and NearbyPoisAreNamedElements. |
| PoiService.Leaderboard | services/poi.service.ts:113-130 | No contract of its own; see LeaderboardOrder and LeaderboardEntries. |
| PoiService.OrElse | services/poi.service.ts:46 | `a \|\| b`: a present non-empty tag is kept, anything else gives the fallback. |
| PoiService.DetectPOITypeRange | services/poi.service.ts:56-62 | The classifier never yields monument. Every element the query can return (bar an empty historic tag) gets a specific type. |
| PoiService.DetectPOITypePriority | services/poi.service.ts:56-62 | Each type as an if-and-only-if: park for leisure park/garden; else museum for tourism museum; else historic for a truthy historic tag; else church for place_of_worship; otherwise other. |
| PoiService.NearbyPoisKeepsOrder | services/poi.service.ts:32-49 | The POIs of a + b are those of a followed by those of b, and one element gives its own POI when named and none otherwise: one POI per named element, in element order. |
| PoiService.NearbyPoisAreNamedElements | services/poi.service.ts:32-49 | Every named element becomes a POI, every POI comes from a named element, and there are no more POIs than elements. |
| PoiService.ToPoiFields | services/poi.service.ts:39-46 | Name and category are non-empty. The id is "osm_" followed by the element id. Coordinates are [lon, lat]. |
| PoiService.ToPoiIdInjective | services/poi.service.ts:40 | Equal POI ids mean equal element ids. |
| PoiService.CategoryFallback | services/poi.service.ts:46 | Category is tourism, else amenity, else leisure, else "other". |
| PoiService.CoordinatesFallBackToCenter | services/poi.service.ts:36-37 | A falsy own latitude or longitude falls back to the center's. |
| PoiService.DisplayName | services/poi.service.ts:115 | The display name is never empty. |
| PoiService.AggregateMinutes | services/poi.service.ts:113-125 | The reduce loop produces one total per user in first-claim order, each the user's first name and minute sum. |
| PoiService.AccumulateRow | services/poi.service.ts:114-120 | One reduce step extends the accumulator invariant from rows to rows + [claim]. |
| PoiService.CollectTotals | services/poi.service.ts:125 | `Object.values` of an exact accumulator is the totals in insertion order. |
| PoiService.AccumulateStep | services/poi.service.ts:117-120 | Creating on the first row and adding on every row keeps the accumulator exact. |
| PoiService.GetPOILeaderboard | services/poi.service.ts:113-130 | The method's result is the specified leaderboard. |
| PoiService.LeaderboardOrder | services/poi.service.ts:125-130 | One entry per claiming user, ranks 1..n without gaps, minutes non-increasing. |
| PoiService.LeaderboardEntries | services/poi.service.ts:113-122 | Each entry is a claiming user with the sum of their minutes and the display name of their first claim row. Every claiming user has an entry. |
| PoiService.MissingUsernameIsUnknown | services/poi.service.ts:115-118 | For any claims, an entry shows "Unknown" when the user's first row has no username, and that username otherwise. |
| Geocoding.GetCountryCode | services/geocoding.service.ts:165-182 | No contract of its own; see CodesAreLowerCased and UnknownCountryHasNoCode. |
| Geocoding.SearchUrl | services/geocoding.service.ts:57-61 | No contract of its own; see SearchUrlCountryFilter. |
| Geocoding.SearchCities | services/geocoding.service.ts:68-80 | No contract of its own; see SearchCitiesKeepsOrder, SearchCitiesKeepsSettlements and SearchNameFallback. |
| Geocoding.CityFromAnswer | services/geocoding.service.ts:29-44 | No contract of its own; see CityNameFallback. |
| Geocoding.PopularCities | services/geocoding.service.ts:106-132 | No contract of its own; see PopularCitiesOrder, PopularCitiesCounts and PopularCitiesAreTop. |
| Geocoding.PopularCountries | services/geocoding.service.ts:187-203 | The intended popular-country list has 13 entries. |
| Geocoding.CodesAreLowerCased | services/geocoding.service.ts:165-203 | For every popular country, `getCountryCode(name)` is its code lower-cased. |
| Geocoding.FlagsSpellCodes | services/geocoding.service.ts:189-201 | Each intended flag is the two regional indicators of the country's code. |
| Geocoding.CodeTableNamesArePopular | services/geocoding.service.ts:166-180 | Every name in the code table is a popular country. |
| Geocoding.UnknownCountryHasNoCode | services/geocoding.service.ts:181 | A name outside the list gets "". |
| Geocoding.PopularCountriesAsWritten | services/geocoding.service.ts:187-203 | The list as the file spells it has 13 entries. |
| Geocoding.IndicatorBytes | services/geocoding.service.ts:189-201 | A regional indicator encodes as the UTF-8 bytes F0 9F 87 A6+k. |
| Geocoding.DecodeIndicatorBytes | services/geocoding.service.ts:189-201 | Those four bytes read as Windows-1252 are "ðŸ‡" followed by one Latin-1 character. |
| Geocoding.MisreadFlag | services/geocoding.service.ts:189-201 | A flag saved as UTF-8 and opened as Windows-1252 is the two misread indicators. |
| Geocoding.AsWrittenCodesAndNames | services/geocoding.service.ts:189-201 | The as-written list has the intended codes and names, in order. |
| Geocoding.AsWrittenFlagsSpelled | services/geocoding.service.ts:189-201 | Each as-written flag is the two misread indicators of its code. |
| Geocoding.FlagsAreMisreadUtf8 | services/geocoding.service.ts:189-201 | Every as-written flag is the misreading of the intended flag and differs from it. |
| Geocoding.SearchUrlCountryFilter | services/geocoding.service.ts:57-61 | `countrycodes` is appended, lower-cased, exactly when a code is given. The URL does not depend on the code's case. |
| Geocoding.SearchCitiesKeepsOrder | services/geocoding.service.ts:68-80 | The results of a + b are those of a followed by those of b, and one item gives its own city when it is a settlement and none otherwise: one city per settlement, in answer order. |
| Geocoding.SearchCitiesKeepsSettlements | services/geocoding.service.ts:68-80 | Exactly the city/town/village/municipality items become results, and there are no more results than items. |
| Geocoding.SearchNameFallback | services/geocoding.service.ts:76 | Without a name, the result is named after the display name up to its first comma. |
| Geocoding.CityNameFallback | services/geocoding.service.ts:31-36 | No address gives null. Otherwise the name is city, else town, else village, else municipality as it is (even when unset). |
| Geocoding.CountCities | services/geocoding.service.ts:106-126 | The forEach loop produces one group per key in first-appearance order, each the first row with its key and the count of such rows. |
| Geocoding.CountRow | services/geocoding.service.ts:109-122 | One forEach step extends the counting invariant from rows to rows + [row]. |
| Geocoding.CollectGroups | services/geocoding.service.ts:126 | `Array.from(cityMap.values())` of an exact Map is the groups in insertion order. |
| Geocoding.CountStep | services/geocoding.service.ts:110-122 | A new key gets the row and count 1, a known key gets +1, and the Map stays exact. |
| Geocoding.GetPopularCities | services/geocoding.service.ts:106-132 | The method's result is the specified popular-cities list. |
| Geocoding.GroupFacts | services/geocoding.service.ts:108-122 | A key's group holds a row with that key, and its count is the number of rows with that key (≥ 1). |
| Geocoding.GroupsAreCounts | services/geocoding.service.ts:106-123 | Every group is its key's first row and the number of rows with that key. |
| Geocoding.GroupsDistinct | services/geocoding.service.ts:106-123 | No key is grouped twice. |
| Geocoding.RankedGroupsFacts | services/geocoding.service.ts:126-132 | The ranking is a permutation of the groups, sorted by count descending, and the result is its first min(n, 20) entries. |
| Geocoding.GroupRanked | services/geocoding.service.ts:126-127 | Every key's group appears in the ranking. |
| Geocoding.PopularCitiesOrder | services/geocoding.service.ts:126-132 | At most 20 cities, in non-increasing `playerCount`, with no key twice. |
| Geocoding.PopularCitiesCounts | services/geocoding.service.ts:106-132 | Each city is the first row of its key, and `playerCount` is the number of rows with that key. |
| Geocoding.PopularCitiesAreTop | services/geocoding.service.ts:126-128 | A key left out of the list has no more rows than any city in it. |
| Geocoding.HyphenatedNamesShareAKey | services/geocoding.service.ts:109 | "A-B"/"C" and "A"/"B-C" share a key and are counted as one city named "A-B". |
| Notifications.GetIcon | app/profile/notifications.tsx:55-65 | No contract of its own; see GetIconDispatch. |
| Notifications.FormatTimestamp | app/profile/notifications.tsx:67-81 | No contract of its own; see FormatTimestampBuckets and FormatTimestampMonotone. |
| Notifications.MarkAsRead | app/profile/notifications.tsx:83-89 | No contract of its own; see MarkAsReadEffect, MarkAsReadIdempotent and MarkAsReadCount. |
| Notifications.MarkAllAsRead | app/profile/notifications.tsx:91-95 | No contract of its own; see MarkAllAsReadEffect and MarkAllIsMarkEach. |
| Notifications.ClearAll | app/profile/notifications.tsx:97-99 | No contract of its own; see ClearAllEffect. |
| Notifications.UnreadCount | app/profile/notifications.tsx:125 | No contract of its own; see UnreadCountCountsUnread. |
| Notifications.GetIconDispatch | app/profile/notifications.tsx:55-65 | Every type gets its own icon. Any other string gets MapPin, the "poi" icon. |
| Notifications.FormatTimestampBuckets | app/profile/notifications.tsx:72-80 | Each label covers exactly one range of differences (negative ones are "just now") and shows the whole units elapsed. |
| Notifications.FormatTimestampMonotone | app/profile/notifications.tsx:76-80 | A larger difference never gives an earlier label kind. |
| Notifications.FormatTimestampExamples | app/profile/notifications.tsx:72-80 | −5 s and 59.999 s → just now. 5 min → 5 minutes ago. 2 h → 2 hours ago. 1 day → 1 day ago. 7 days → date. |
| Notifications.UnreadCountCountsUnread | app/profile/notifications.tsx:125 | The badge is the number of unread entries, and is 0 exactly when every entry is read. |
| Notifications.MarkAsReadEffect | app/profile/notifications.tsx:83-89 | Length, order and all other fields are kept. Read becomes true exactly on the entries with the id. |
| Notifications.MarkAsReadIdempotent | app/profile/notifications.tsx:86 | Marking twice is marking once, and marks of two ids commute. |
| Notifications.MarkAsReadCount | app/profile/notifications.tsx:83-125 | The badge drops by the number of unread entries with that id. |
| Notifications.MarkAllAsReadEffect | app/profile/notifications.tsx:91-125 | Everything becomes read, with other fields and order kept. The badge is 0, and the operation is idempotent. |
| Notifications.MarkAllIsMarkEach | app/profile/notifications.tsx:83-95 | Marking all is marking every id in turn. |
| Notifications.MarkEachReads | app/profile/notifications.tsx:83-89 | Marking a list of ids reads exactly the entries with one of those ids. |
| Notifications.ClearAllEffect | app/profile/notifications.tsx:97-99 | Clearing gives the empty list and a zero badge. |
| SignUp.IndexOf | app/auth/signup.tsx:37 | The first position of a character, or none when it is absent. |
| SignUp.EmailCheckSound | app/auth/signup.tsx:37-38 | What the scan accepts matches `/^[^\s@]+@[^\s@]+\.[^\s@]+$/`. |
| SignUp.EmailCheckComplete | app/auth/signup.tsx:37-38 | What the pattern matches the scan accepts. |
| SignUp.EmailCheckMatchesPattern | app/auth/signup.tsx:37-38 | The scan accepts exactly what the pattern matches. |
| SignUp.ValidEmailExamples | app/auth/signup.tsx:37 | "a@b.c" and "a@b.c.d" pass. |
| SignUp.InvalidEmailExamples | app/auth/signup.tsx:37 | No dot, a dot right after "@", a trailing dot, two "@" or a space each fail. |
| SignUp.HandleSignUp | app/auth/signup.tsx:26-45 | When signUp is called, it gets exactly the email, password and username typed. |
| SignUp.HandleSignUpGuards | app/auth/signup.tsx:26-45 | An empty field gives fillAllFields. A password under 6 gives passwordTooShort. A bad email gives invalidEmail. signUp is called exactly when all checks pass. Each is an if-and-only-if in that order. |
| SignUp.HandleSignUpOrderExamples | app/auth/signup.tsx:26-41 | A short password is reported before a bad email. Length 6 passes. |
| SignUp.HandleSignUpCallExample | app/auth/signup.tsx:43-45 | The username reaches signUp untrimmed. |
| SelectCountry.FilterCountries | app/profile/select-country.tsx:19-21 | No contract of its own; see FilterIsSubsequence, FilterMembership and FilterIgnoresCase. |
| SelectCountry.FilteredCountries | app/profile/select-country.tsx:17-21 | No contract of its own. The search over `getPopularCountries()` as the file spells it; see FilteredCountriesFacts. |
| SelectCountry.FilterIsSubsequence | app/profile/select-country.tsx:19-21 | The result keeps the countries in their original order. |
| SelectCountry.FilterMembership | app/profile/select-country.tsx:20 | A country is listed exactly when its lower-cased name contains the lower-cased search. |
| SelectCountry.EmptySearchKeepsAll | app/profile/select-country.tsx:19-21 | An empty search lists every country. |
| SelectCountry.FilterIgnoresCase | app/profile/select-country.tsx:20 | Searches that differ only in letter case give the same list. |
| SelectCountry.FilterPointwise | app/profile/select-country.tsx:19-21 | Lists that agree entry by entry up to a misread flag filter to lists that agree the same way. |
| SelectCountry.FilteredCountriesFacts | app/profile/select-country.tsx:17-21 | The screen lists a subsequence of the 13 as-written countries, all 13 for "". Entry by entry it is what the intended list gives for the same search, with the same codes and names and the flags misread. |
| Rules.InitialSections | app/profile/rules.tsx:18-61 | No contract of its own; see InitialSectionsShape. |
| Rules.ToggleSection | app/profile/rules.tsx:63-71 | No contract of its own; see ToggleSectionEffect and ToggleSectionInvolution. |
| Rules.InitialSectionsShape | app/profile/rules.tsx:18-61 | Six sections with ids "1".."6", only "1" expanded. |
| Rules.ToggleSectionEffect | app/profile/rules.tsx:63-71 | Length, order and all fields but `expanded` are kept. `expanded` flips exactly on the sections with the id. |
| Rules.ToggleSectionInvolution | app/profile/rules.tsx:66-67 | Toggling twice restores the list, and toggles of two ids commute. |
| Rules.ToggleSectionExample | app/profile/rules.tsx:18-71 | Tapping "2" on the initial screen opens it and keeps "1" open. |
| NotificationSettings.InitialSettings | app/profile/notification-settings.tsx:12-21 | No contract of its own; see InitialSettingsValues. |
| NotificationSettings.ToggleSetting | app/profile/notification-settings.tsx:23-25 | No contract of its own; see ToggleSettingEffect and ToggleSettingInvolution. |
| NotificationSettings.SettingsByKey | app/profile/notification-settings.tsx:12-21 | Two records equal under every key are equal. |
| NotificationSettings.InitialSettingsValues | app/profile/notification-settings.tsx:12-21 | Exactly newChallenge and leaderboardUpdate start off. |
| NotificationSettings.ToggleSettingEffect | app/profile/notification-settings.tsx:23-25 | The toggled key flips, and every other key keeps its value. |
| NotificationSettings.ToggleSettingInvolution | app/profile/notification-settings.tsx:24 | Toggling the same key twice restores the record. |
| PoiMarker.GetIconGenerator | components/map/POIMarker.tsx:22-42 | No contract of its own; see IconDispatch. |
| PoiMarker.CategoryFor | components/map/POIMarker.tsx:50 | No contract of its own; see MarkerForType. |
| PoiMarker.IconDispatch | components/map/POIMarker.tsx:22-42 | Each named shape has its own generator. Monument and historic share one. "attraction" and every other string get the castle. |
| PoiMarker.MarkerForType | components/map/POIMarker.tsx:22-50 | Each POI type gets its generator and its own category. castle and windmill fall back to the "other" category. |

## Left out

- Distance and `isInRadius` (floating-point trigonometry) are not modelled. Being inside the radius is an input.
- React scheduling is not modelled:
  - `requestAnimationFrame` and `setInterval` timing;
  - effect ordering and batching;
  - `onSaveClaim` being invoked from inside a state updater;
  - the effect cleanup (hooks/useGameMechanics.ts:180-184) that clears the interval whenever a dependency changes.
  Each frame and tick is one explicit call, and each input folds in the effect runs it triggers.
- `CaptureTickSpec` models the timer the hook evidently means: one tick per second until 60. The cleanup clears the interval but does not forget it, and every tick changes `sessionSeconds`, a dependency of the capture effect. So after the first tick React clears the interval and the effect's re-run starts none, because the ref is still set. As written, the counter therefore stalls at seed + 1 and never reaches 60 unless the seed is 59. With seed 59 the first tick saves 11 and the start branch starts a new interval, but its own `setSessionSeconds(0)` triggers the cleanup again, so the counter stalls after that one claim. The model does not capture this stall.
- The asynchronous daily-seconds lookup is not modelled. Its result is passed with the completing frame. A result arriving late, or after the player has left, is not modelled.
- `totalCapturedSeconds` is left out. Its two updaters interact through React batching.
- `captureStartTimeRef` and the console logging are left out. Neither affects state.
- `Date.now`, `new Date()` and `toLocaleDateString` are not modelled. `formatTimestamp` takes the difference in milliseconds and returns a label kind with its count, not the translated text. `getCurrentMonth` and `getMonthStart` depend on the clock and are not modelled.
- Translation (`t()`) is not modelled. Messages and titles are translation keys.
- The formatters take integers: fractional seconds or minutes (`number` in the source) are not modelled.
- `parseFloat` is a parameter of the geocoding transforms. `encodeURIComponent` is not modelled: `SearchUrl` takes the already-encoded query.
- The HTTP requests and database queries are not modelled. Nominatim, Overpass and Supabase are out, as are their error paths that return `[]` or `null`, and server-side filters. The transforms take the parsed answer. `getOrCreatePOI`, `autoDetectLocation` and the profile update handlers do only this I/O.
- `createdAt` on fetched POIs is not modelled (it is the clock).
- `logError` and `console` output are not modelled.
- Object lookups by arbitrary strings (`acc[userId]`, `codes[country]`, `POI_CATEGORIES[type]`) are maps. Prototype keys such as "constructor" are not modelled.
- `Object.values` is taken in insertion order. JavaScript lists integer-like keys first; user ids are not integer-like.
- The sort used for the leaderboard and popular cities is a stable insertion sort, like `Array.prototype.sort`. Stability itself (ties keep first-appearance order) is not stated as a lemma.
- The password length counts characters, where JavaScript counts UTF-16 code units. The two differ only for characters outside the Basic Multilingual Plane.
- `toLowerCase` is modelled on ASCII letters only, with no Unicode case mapping.
- The mock notification list and its timestamps are not modelled: they are clock-relative sample data.
- `PoiMarker.CategoryFor` has no contract of its own. `PoiMarker.MarkerForType` states its behaviour for every POI type and for castle and windmill.
- `NotificationSettings.ToggleSettingEffect` does not state that toggles of different keys commute.
- The icon shapes, polygon geometry and map rendering are not modelled.

## Findings

| source | as written | input that shows it | evidently intended | confidence | as-written member | corrected member |
|---|---|---|---|---|---|---|
| services/geocoding.service.ts:189-201 | Each flag literal holds the UTF-8 bytes of a flag emoji read back as Windows-1252 text. The Netherlands shows "ðŸ‡³ðŸ‡±" instead of its flag. | any call of `getPopularCountries()`, e.g. the entry for NL | the regional-indicator flag emoji of each country code | high, not executed | Geocoding.PopularCountriesAsWritten, Geocoding.FlagsAreMisreadUtf8 | Geocoding.PopularCountries, Geocoding.FlagsSpellCodes |
| hooks/useGameMechanics.ts:140-204 | Completion at 60 saves the session total and forgets the interval but leaves `isCaptureActive` set. With the interval surviving re-renders, as modelled, the capture effect then restarts from the daily seconds, so a player who stays inside claims 70 − s again every 60 − s ticks. | with the interval surviving re-renders: seed 0 and 120 ticks inside the radius give claims [70, 70] | one claim per session: completion ends the capture ("Stop at 60 seconds") | latent, masked by the cleanup stall; not executed | GameMechanics.CompletionClaimsAgain | GameMechanics.CorrectedVisitSavesAtMostOnce, GameMechanics.CorrectedCompletionSavesOnce |
