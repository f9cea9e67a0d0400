# Mental-health check-in app: verified model of its core

The app lets a person log a daily check-in (hours slept, social activity,
screen time, an optional 1–5 mood). It scores each check-in with a heuristic
risk engine and shows trends. Signed-in users' daily logs are stored in
Postgres and listed page by page. This project models the parts of the app
that decide things, in Dafny, and proves what they promise:

- **Risk engine** (`risk.dfy`, `Risk`). Each factor is clamped, scored 0, 1
  or 2 and given a reason. The points are summed into a score, and the score
  is cut into low, medium or high. The engine is written as the source writes
  it: an accumulator and a growing reason list. It is proved equal to a
  factor-by-factor specification, and the bands, bounds and reason order are
  proved about that specification.
- **Check-in schema** (`checkin_schema.dfy`, `CheckInSchema`). This states
  which JSON bodies are accepted and which record an accepted body becomes.
- **Rate limiter** (`rate_limit.dfy`, `RateLimit`). This is the in-memory,
  fixed-window limiter, a class over a map of buckets. The clock is a
  parameter.
- **Check-in store** (`checkin_store.dfy`, `CheckInStore`). This is the
  client store, a class whose methods replace its list and flag. The list is
  kept in creation order by a stable sort.
- **Daily-log listing** (`daily_logs.dfy`, `DailyLogs`). It builds the
  parameterised query by successive pushes and cuts a page and its base64
  cursor from the returned rows.
- **E-mail privacy** (`privacy.dfy`, `Privacy`). It normalises an address
  and hashes it with a pepper.
- **Session helpers** (`auth.dfy`, `Auth`). These cover the choice of the
  signing key, the claims read from a verified token, and the client address
  taken from proxy headers.
- **Shared modules.**
  - `js_strings.dfy` (`JsStrings`) covers the ECMAScript string built-ins
    the code calls: `trim`, ASCII `toLowerCase`, `split(sep)[0]`, and UTF-16
    `length`.
  - `encoding.dfy` (`Encoding`) covers the Node `Buffer` conversions:
    - UTF-8 encoding follows RFC 3629. UTF-8 decoding is the WHATWG decoder,
      which turns ill-formed input into U+FFFD.
    - base64 encoding follows section 4 of RFC 4648. base64 decoding is
      Node's lenient decoder.
  - `basics.dfy` (`Basics`) holds `Option`, `Result`, bytes and JSON values.

The clock, the HMAC function, HTTP headers and database rows enter the model
as parameters.

## Model

| member | source | states |
|---|---|---|
| `Risk.Clamp` | src/lib/risk.ts:3-5 | the result never exceeds the upper bound and is at least the lower one; a value inside the range is unchanged, and a value below or above it becomes that bound |
| `Risk.SleepFactor` | src/lib/risk.ts:17-26 | the sleep rule adds at most 2 points and gives a reason exactly when it adds any (one reason at most) |
| `Risk.SocialFactor` | src/lib/risk.ts:28-34 | the social rule adds at most 2 points and gives a reason exactly when it adds any |
| `Risk.ScreenFactor` | src/lib/risk.ts:36-42 | the screen rule adds at most 2 points and gives a reason exactly when it adds any |
| `Risk.MoodFactor` | src/lib/risk.ts:44-53 | the mood rule adds at most 2 points and gives a reason exactly when it adds any |
| `Risk.LevelOf` | src/lib/risk.ts:55 | high iff score ≥ 6, medium iff 3 ≤ score < 6, low iff score < 3 |
| `Risk.AssessRisk` | src/lib/risk.ts:7-57 | the accumulator-and-push engine returns exactly the specification's assessment: the four factors' points summed, their reasons concatenated in rule order, and the level cut from the sum |
| `Risk.Assessment` | src/lib/risk.ts:7-57 | every score lies in [0, 8]; \|reasons\| ≤ score ≤ 2·\|reasons\|, no reasons iff score 0, and at most four reasons |
| `Risk.LevelFollowsScore` | src/lib/risk.ts:55 | the returned level is high, medium or low exactly for scores ≥ 6, in [3, 6) and < 3 |
| `Risk.SleepBands` | src/lib/risk.ts:14-26 | on the raw hours: +2 iff < 6, +1 iff in [6, 7) or > 9, 0 iff in [7, 9] |
| `Risk.ScreenBands` | src/lib/risk.ts:36-42 | on the raw hours: +2 iff > 8, +1 iff in [5, 8], 0 iff < 5 |
| `Risk.SocialPoints` | src/lib/risk.ts:28-34 | low adds 2, medium 1, high 0, and each only for that value |
| `Risk.MoodBands` | src/lib/risk.ts:44-53 | no mood adds nothing; a present mood adds 2 iff ≤ 2, 1 iff exactly 3, 0 otherwise (3.5 and values above 5 included) |
| `Risk.OutOfRangeHoursScoreAsBound` | src/lib/risk.ts:14-15 | sleep or screen time below 0 or above 24 gives the same assessment as 0 or 24 |
| `Risk.MoodIsLastAndSeparate` | src/lib/risk.ts:44-53 | adding a mood adds only the mood factor's points and appends only its reason, at the end |
| `Risk.ReasonsInRuleOrder` | src/lib/risk.ts:17-53 | every reason is one of the nine fixed texts, and the reasons appear in rule order (sleep, social, screen, mood) with none repeated |
| `Risk.RiskLabel` | src/lib/risk.ts:59-68 | every level has a non-empty label |
| `Risk.RiskColor` | src/lib/risk.ts:70-79 | every level has a non-empty style token |
| `Risk.PresentationDistinguishesLevels` | src/lib/risk.ts:59-79 | two levels share a label, or a colour, only if they are the same level |
| `Risk.WorkedExamples` | src/lib/risk.ts:7-57 | four concrete check-ins get the scores 0, 8, 3 and 2 with the expected levels and reasons |
| `CheckInSchema.Parse` | src/lib/schemas/checkin.ts:3-16 | an accepted record has sleep and screen in [0, 24], a mood (if any) in [1, 5], a date (if any) of the `dddd-dd-dd` shape, a non-empty timezone (if any) and notes (if any) of at most 4000 UTF-16 units |
| `CheckInSchema.AcceptsExactly` | src/lib/schemas/checkin.ts:3-16 | a body is accepted iff sleep and screen are numbers in [0, 24], social activity is one of the three names, mood is missing or a number in [1, 5], the date is missing or has the `dddd-dd-dd` shape, the timezone is missing or non-empty, and the notes are missing or at most 4000 UTF-16 units |
| `CheckInSchema.AcceptedValuesAreTheSent` | src/lib/schemas/checkin.ts:3-16 | an accepted record carries every sent value unchanged (sleep, screen, social activity, and mood, date, timezone and notes when present), and an optional field is absent exactly when its key was missing |
| `CheckInSchema.NullIsNotAbsent` | src/lib/schemas/checkin.ts:7-15 | an optional field sent as `null` makes the body rejected |
| `CheckInSchema.FractionalMoodAccepted` | src/lib/schemas/checkin.ts:7 | a mood of 3.5 is accepted as is |
| `CheckInSchema.DateShapeOnly` | src/lib/schemas/checkin.ts:10-13 | "2024-99-99" passes the date check; a one-digit month, a trailing newline or a day-first date does not |
| `CheckInSchema.NotesLengthCountsCodeUnits` | src/lib/schemas/checkin.ts:15 | 4000 characters including one outside the Basic Multilingual Plane exceed the notes limit |
| `CheckInSchema.ClampsAreNoOpsOnAcceptedInput` | src/lib/schemas/checkin.ts:4-7 | for an accepted body the engine's clamps leave sleep, screen and mood unchanged, and the score is the sum of the factors on the sent values |
| `RateLimit.Admit` | src/lib/server/rateLimit.ts:15-30 | the returned limit is always the requested one |
| `RateLimit.MemoryLimiter.constructor` | src/lib/server/rateLimit.ts:13 | the bucket table starts empty |
| `RateLimit.MemoryLimiter.Limit` | src/lib/server/rateLimit.ts:15-30 | the key's bucket becomes the one the rule gives and the answer is the rule's answer; every other key's bucket (or absence) is unchanged |
| `RateLimit.NewWindow` | src/lib/server/rateLimit.ts:17-20 | with no bucket or an expired one (resetAt ≤ now), the bucket becomes {1, now + window} and the call is allowed with remaining = limit − 1 and resetMs = window |
| `RateLimit.SameWindow` | src/lib/server/rateLimit.ts:22-28 | in a live window the count rises by exactly one and resetAt stays; ok iff the new count ≤ limit; remaining = max(0, limit − count) ≥ 0; resetMs = resetAt − now > 0 |
| `RateLimit.RunInWindow` | src/lib/server/rateLimit.ts:22-25 | while a window lasts, the i-th further call on a bucket holding c calls is allowed iff c + i + 1 ≤ limit |
| `RateLimit.WindowAdmitsFirstCalls` | src/lib/server/rateLimit.ts:18-25 | among calls made before the window opened by the first one ends, call i is allowed iff i = 0 or i < limit, so the opening call passes even when limit ≤ 0 |
| `CheckInStore.InsertPoint` | src/store/checkins.ts:25-27 | the place a stable sort gives a new check-in: after an entry not later than it, and before only later entries |
| `CheckInStore.InsertKeepsEntries` | src/store/checkins.ts:25-27 | inserting yields one more entry: the old entries plus the new one, as a multiset |
| `CheckInStore.InsertKeepsOrder` | src/store/checkins.ts:25-27 | inserting into a time-ordered list leaves it time-ordered |
| `CheckInStore.SortByTime` | src/store/checkins.ts:25-27 | the sort returns a time-ordered permutation of its input, of the same length |
| `CheckInStore.Store.constructor` | src/store/checkins.ts:19-20 | the store starts with no check-ins and hasHydrated false |
| `CheckInStore.Store.AddCheckIn` | src/store/checkins.ts:24-29 | the list becomes the old list plus the check-in, sorted by time, and the flag is unchanged |
| `CheckInStore.Store.ClearAll` | src/store/checkins.ts:31 | the list becomes empty and the flag is unchanged |
| `CheckInStore.Store.SetHasHydrated` | src/store/checkins.ts:22 | only the flag changes, to the given value |
| `CheckInStore.Store.Rehydrate` | src/store/checkins.ts:33-39 | after loading, the list is the persisted one and the flag is set |
| `CheckInStore.WithTimeInsert` | src/store/checkins.ts:25-27 | inserting a check-in places it after every entry with the same creation time, and keeps those entries' order |
| `CheckInStore.SortIsStable` | src/store/checkins.ts:25-27 | the sort is stable: the check-ins with any one creation time come out in the order they went in |
| `CheckInStore.SortSortedIsIdentity` | src/store/checkins.ts:25-27 | sorting a list that is already in time order changes nothing |
| `CheckInStore.AddToSorted` | src/store/checkins.ts:24-28 | adding to a time-ordered list inserts the check-in after every entry not later than it and before every later one, and moves nothing else |
| `CheckInStore.AddCheckInResult` | src/store/checkins.ts:24-28 | after adding: one more entry, the same multiset plus the new check-in, time-ordered, and the last entry is the latest |
| `DailyLogs.Filters` | src/lib/server/repos/dailyLogs.ts:76-92 | the owner filter `user_id = userId` always comes first, followed by at most three more filters |
| `DailyLogs.BuildQuery` | src/lib/server/repos/dailyLogs.ts:76-101 | condition i is the i-th filter (owner, from, to, cursor, each only when given) and its placeholder is $(i+1), which holds that filter's own value; there is one more value than conditions, and the LIMIT placeholder is the last value, equal to limit + 1 |
| `DailyLogs.BuildWhere` | src/lib/server/repos/dailyLogs.ts:76-92 | the conditions are the filters in order, condition i numbered $(i+1), and value i is filter i's own value |
| `DailyLogs.PushKeepsNumbering` | src/lib/server/repos/dailyLogs.ts:79-92 | pushing a value and then a condition numbered by the new length keeps every placeholder pointing at its own value |
| `DailyLogs.WithLimit` | src/lib/server/repos/dailyLogs.ts:94-101 | appending the LIMIT value leaves every condition's placeholder pointing at its own value, and the LIMIT placeholder is the new last value |
| `DailyLogs.SliceTo` | src/lib/server/repos/dailyLogs.ts:107 | `slice(0, end)` is a prefix of the rows; a non-negative end takes min(end, n) rows, a negative end takes max(n + end, 0) |
| `DailyLogs.ListDailyLogs` | src/lib/server/repos/dailyLogs.ts:67-113 | the query as in `BuildQuery`; a limit below −1 fails, because Postgres rejects the negative LIMIT; otherwise there is a cursor iff there are more rows than the limit; the items are the first `limit` rows then, and all rows otherwise; the cursor is the base64 of the last item's date and decodes back to that date; a limit of 0 or −1 with more rows than the limit (always so for −1) fails, as the source throws there |
| `DailyLogs.NextPageContinuesBeforeLastDate` | src/lib/server/repos/dailyLogs.ts:87-110 | sending a page's cursor back makes the next query's last filter `log_date < last date`, after the same owner, from and to filters |
| `DailyLogs.EmptyParametersAddNothing` | src/lib/server/repos/dailyLogs.ts:79-92 | an empty from, to or cursor gives the same filters as a missing one, and the number of filters is one plus the number of given parameters |
| `Privacy.HmacEmail` | src/lib/server/privacy.ts:8-16 | no hash iff the pepper is missing or empty |
| `Privacy.NormalizeEmail` | src/lib/server/privacy.ts:4-6 | a normalised address has no white space at either end, no upper-case ASCII letter, and is no longer than the input |
| `Privacy.LowerOfLower` | src/lib/server/privacy.ts:5 | lower-casing a string with no upper-case ASCII letter changes nothing |
| `Privacy.NormalizeIdempotent` | src/lib/server/privacy.ts:4-6 | normalising twice gives the same as normalising once |
| `Privacy.SurroundingWhiteSpaceIgnored` | src/lib/server/privacy.ts:5 | white space before and after an address does not change its normal form |
| `Privacy.AsciiCaseIgnored` | src/lib/server/privacy.ts:5 | addresses that differ only in ASCII letter case have the same normal form |
| `Privacy.SameAddressSameHash` | src/lib/server/privacy.ts:8-16 | addresses that differ only in surrounding white space and ASCII case get the same hash |
| `Auth.JwtSecret` | src/lib/server/auth.ts:12-19 | a key is at least 32 bytes and is either the base64 or the UTF-8 reading of the secret; it is an error, with the source's message, iff both readings are shorter than 32 bytes |
| `Auth.Base64Preferred` | src/lib/server/auth.ts:14-16 | when the base64 reading has at least 32 bytes it is the key |
| `Auth.GeneratedKeyUsedAsIs` | src/lib/server/auth.ts:15-16 | a key of at least 32 random bytes configured in base64 is used as exactly those bytes |
| `Auth.LongSecretAccepted` | src/lib/server/auth.ts:15-17 | every secret of at least 32 characters is accepted |
| `Auth.ClaimsOf` | src/lib/server/auth.ts:37-46 | a payload is accepted iff it has a non-empty `sub`, which becomes the claims' subject; `isAnonymous` is true iff the claim is the JSON boolean true; otherwise the error is "Missing sub" |
| `Auth.SignedPayload` | src/lib/server/auth.ts:29-31 | claims this server signs read back unchanged when the user id is non-empty, and are refused when it is empty |
| `Auth.OnlyBooleanTrueIsAnonymous` | src/lib/server/auth.ts:44 | boolean true marks a session anonymous; the string "true", the number 1 and a missing claim do not |
| `Auth.ClientIp` | src/lib/server/auth.ts:48-54 | the client address is never empty; when forwarded-for is given, it has no comma and no surrounding white space |
| `Auth.FirstSegmentOf` | src/lib/server/auth.ts:52 | `split(",")[0]` of a comma-free part followed by a comma (or nothing) is that part |
| `Auth.FirstHopIsClient` | src/lib/server/auth.ts:51-52 | with a forwarded-for list, the address is its first hop with the white space around it removed, whatever x-real-ip says |
| `Auth.BlankFirstHopIsUnknown` | src/lib/server/auth.ts:52 | a forwarded-for list whose first hop is blank gives "unknown", even when x-real-ip is set |
| `Auth.RealIpFallback` | src/lib/server/auth.ts:53 | without forwarded-for, the address is x-real-ip when it is non-empty, else "unknown" |
| `JsStrings.Trim` | src/lib/server/privacy.ts:5 | `trim` leaves no white space at either end and never lengthens the string |
| `JsStrings.TrimOfPadded` | src/lib/server/auth.ts:52 | `trim` of white space, a string without white space at its ends, and more white space is exactly the middle string |
| `JsStrings.BlankTrimsToEmpty` | src/lib/server/auth.ts:52 | `trim` of a string made only of white space is empty |
| `JsStrings.TrimSplit` | src/lib/server/privacy.ts:5 | `trim` removes a white-space run from each end and nothing else |
| `JsStrings.TrimLower` | src/lib/server/privacy.ts:5 | trimming and ASCII lower-casing commute |
| `JsStrings.ToLowerAscii` | src/lib/server/privacy.ts:5 | lower-casing keeps the length, maps every character by the ASCII lower-case rule, and keeps a string trimmed iff it was |
| `JsStrings.FirstSegment` | src/lib/server/auth.ts:52 | `split(sep)[0]` is a prefix with no separator, and it ends where the first separator stands |
| `JsStrings.Utf16Length` | src/lib/schemas/checkin.ts:14-15 | a string's `length` lies between its character count and twice that |
| `Encoding.Utf8Encode` | src/lib/server/auth.ts:16 | a string's UTF-8 form has between one and four bytes per character |
| `Encoding.Utf8Decode` | src/lib/server/repos/dailyLogs.ts:88 | decoding gives at most one character per byte |
| `Encoding.Utf8RoundTrip` | src/lib/server/repos/dailyLogs.ts:88-109 | decoding the UTF-8 form of any string gives the string back |
| `Encoding.Base64Encode` | src/lib/server/repos/dailyLogs.ts:109 | base64 text has 4·⌈n/3⌉ characters for n bytes |
| `Encoding.EncodedLength` | src/lib/server/repos/dailyLogs.ts:109 | base64 text is whole groups of four characters, and empty only for no bytes |
| `Encoding.Base64Decode` | src/lib/server/auth.ts:15 | decoding gives at most three bytes for every four characters |
| `Encoding.ToBase64Text` | src/lib/server/repos/dailyLogs.ts:109 | a cursor is whole groups of four characters, empty only for the empty date, and decodes (base64, then UTF-8) back to the date |
| `Encoding.FromBase64Text` | src/lib/server/repos/dailyLogs.ts:88 | decoding a cursor gives at most three characters for every four characters of cursor |
| `Encoding.Base64RoundTrip` | src/lib/server/auth.ts:15 | Node's lenient decoder reads back exactly the bytes that the padded base64 encoding wrote |
| `Encoding.Base64TextRoundTrip` | src/lib/server/repos/dailyLogs.ts:88-110 | a cursor made from a string (UTF-8 then base64) decodes back to that string |

## Left out

- I/O and foreign code are not modelled:
  - JWT signing and signature/expiry checking (`jose`), cookies and `next/headers`;
  - the HMAC-SHA-256 primitive, which is a function parameter of `HmacEmail`;
  - `crypto.randomUUID`, `Date.now()` (the clock is a parameter);
  - Upstash/Redis rate limiting and its cached configuration;
  - the Postgres pool and the SQL of `upsertDailyLog`;
  - environment loading and the React components.
- The SQL text is not rendered. `DailyLogs.Query` keeps each condition's operator and placeholder number in structured form instead of the `WHERE … AND …` string.
- Postgres executing the query is not modelled. The returned rows are a parameter, assumed to honour the LIMIT (`|rows| ≤ limit + 1`) whenever that LIMIT is not negative. A negative LIMIT is Postgres's error, returned as a `Failure`.
- `DailyLogs.DbDailyLog.logDate` is modelled as the text of the date. With node-postgres' default type parsing, a DATE column arrives as a JavaScript `Date` rather than text; `src/lib/server/db.ts` installs no type parser. The driver's type parsing, and what `Buffer.from` then does with a `Date`, are not part of this model.
- Limits below 1 are not excluded by a precondition. A limit below −1 is a `Failure`, because Postgres rejects a negative LIMIT. A limit of −1 is always a `Failure`, and a limit of 0 is one when a row comes back: in both cases there are more rows than the limit but no item to take the cursor from, so line 109 of `src/lib/server/repos/dailyLogs.ts` reads the date of a missing item. A limit of 0 with no rows gives an empty page without a cursor. The route handler clamps the limit to [1, 100] before calling.
- `DailyLogs.ListParams.limit` and the bound `DailyLogs.SqlValue.Number` are integers. In the source the limit is a JavaScript number: `src/app/api/checkins/route.ts:89` clamps it to [1, 100] without rounding, so `?limit=2.5` binds a LIMIT of 3.5 and slices at 2.5, and a non-numeric `?limit=` gives NaN. Fractional and NaN limits are not modelled.
- `CheckInSchema.RawCheckIn` is always a JSON object with the seven known keys. A body that is not an object (the `null` that `src/app/api/checkins/route.ts:33` passes for malformed JSON, an array, a scalar) is rejected by the schema in the source and cannot be expressed in the model.
- `CheckInStore.CheckIn.createdAt` is the instant `+new Date(createdAt)` gives, in milliseconds. Parsing ISO strings is not modelled, nor are invalid dates. Those give NaN, which the comparator treats as "equal".
- Persistence to local storage (the `persist` middleware's storage, its name and version) is not modelled. `Rehydrate` models only a successful load and the `onRehydrateStorage` callback. When loading fails, the middleware passes `undefined` to the callback at `src/store/checkins.ts:36-38`, `state?.setHasHydrated(true)` does nothing, and `hasHydrated` stays false; that path is not modelled.
- Strings are sequences of Unicode scalar values. JavaScript strings can also hold unpaired surrogates (JSON `"\ud800"` in `notes` or `timezone`, which `Buffer.from(s, "utf8")` writes as U+FFFD); those are not modelled, so `Encoding.Utf8RoundTrip` holds for every well-formed string.
- `RateLimit.MemoryLimiter.Limit`: the source increments the bucket object in place (`bucket.count += 1`). The model stores buckets as values in the map and writes the updated bucket back. This is equivalent, because no other reference to a bucket exists.
- `JsStrings.ToLowerAscii`: `toLowerCase` is modelled on ASCII letters only. Other characters are left as they are, though full Unicode lower-casing can change or lengthen them. The `Privacy` lemmas hold for this ASCII model.
- `Encoding.Base64Decode` follows Node's legacy lenient decoder:
  - characters outside the alphabet are skipped;
  - the URL-safe `-` and `_` are accepted;
  - decoding stops at the first `=`.
  Newer Node versions may handle some malformed inputs differently. Only well-formed input is relied on in the round-trip lemmas.
- NaN, infinities and floating-point rounding are not modelled. Hours and mood are exact reals.
- zod's issue messages and the stripping of unknown keys are not modelled. `Parse` returns only whether the body was accepted and, if so, the record.
- The `sub` claim's type check belongs to `jose`. The payload's `sub` is modelled as an optional string.
- HTTP headers are not modelled in full: a repeated header and the case-insensitive header lookup belong to the runtime. Headers are given as optional strings.
