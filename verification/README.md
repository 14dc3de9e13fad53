# Telemetry store and reporting gate, modelled in Dafny

This project models the core of a desktop application's telemetry package: the
day-bucketed metrics store `StatsDatabase` (`src/database.ts`) and the decision logic of
the reporting orchestrator `StatsStore` (`src/index.ts`).

The store keeps a collection of entries `{date, metrics}`, where `date` is an integer
day key and `metrics` is that day's bucket of counters (`measures`), custom events and
timings. Every mutator first finds today's entry or inserts one built by a report
factory (`getCurrentMetrics`), then edits that entry in place. `clearData` and
`getMetrics` select by "day key strictly below the cutoff"; `getMetricsForDate` selects
by exact key. The model is a class `Database.StatsDatabase` whose field `entries`
(a `seq<Entry>` in insertion order) the methods reassign. Every mutator is proved equal
to a function of the old collection in `StoreSpec`, and the lemmas there state what the
store promises:
- one entry per day key is kept by every operation;
- find-or-create never duplicates a day;
- `n` increments add exactly `n`;
- the two range selections partition the collection;
- a purge leaves the cutoff day and later days alone.

The orchestrator reads its opt-out flag and its last-report timestamp from a
string settings store, through JavaScript's `parseInt(value, 10)`. `JsNumber` models
that parser exactly (leading ECMAScript white space, one optional sign, the longest digit
run, NaN when there are no digits). It proves that the parser reads back the decimal
text of every integer. `Reporting` models:
- the constructor;
- the strict 24-hour cadence gate `shouldReportDailyStats`;
- the payload built by `getDailyStats`;
- `reportStats`, which catches and logs both a non-200 status and a rejected post.

Environment inputs are parameters:
- `today` is the day key of the current time;
- `nowIso` is its ISO-8601 text;
- `now` is epoch milliseconds;
- `newReport` is the value the report factory returns;
- `settings` is the settings store as a `map<string, string>`;
- `post` maps a payload to the transport's response;
- `platform` and `guid` are the process platform and the install id.

As written, the code has these gaps, and the model keeps them:
- `reportStats` neither records the report time nor purges data after a 200 response;
- `reportStats` consults neither the opt-out flag nor the cadence gate;
- `index.d.ts` declares `setOptOut` and `sendOptInStatusPing`, but `src/index.ts` defines neither;
- the constructor's call to the opt-in ping is commented out, so that branch does nothing.

`Database.SameDayIncrements` is a small client of the store: it increments one counter
three times on one day and asserts that `getMetricsForDate` then shows one entry
with the counter at 3.

## Model

| member | source | states |
|---|---|---|
| MetricsModel.Stamp | src/database.ts:34-37 | the stamped event has `date` = now and `eventType` = the given type, and every other property unchanged |
| MetricsModel.Apply | src/database.ts:38-55 | an edit of a bucket only adds: the dimensions stay, no counter disappears or decreases, and the earlier events and timings stay as a prefix; the exact effect of each edit is stated by IncrementEffect, AddEventEffect and AddTimingEffect |
| MetricsModel.IncrementEffect | src/database.ts:46-49 | an increment raises exactly the named counter by one (an unknown one to 1) and changes nothing else in the bucket |
| MetricsModel.AddEventEffect | src/database.ts:38 | appending an event grows `customEvents` by one at the end, earlier events unchanged |
| MetricsModel.AddTimingEffect | src/database.ts:55 | appending a timing grows `timings` by one at the end, earlier timings unchanged |
| StoreSpec.FindDay | src/database.ts:82 | `findOne` by day key yields the first position holding that key, or nothing exactly when no entry has it |
| StoreSpec.FindDayUnique | src/database.ts:89-96 | with one entry per day, the lookup finds that entry |
| StoreSpec.FindOrCreate | src/database.ts:89-98 | find-or-create returns a position holding today's key; an existing entry leaves the collection unchanged, otherwise exactly one entry is appended; one-entry-per-day is kept and today's entry is then the only one |
| StoreSpec.FindOrCreateTwice | src/database.ts:89-98 | a second find-or-create for the same day finds the entry the first found or inserted and leaves the collection unchanged |
| StoreSpec.TodayBucket | src/database.ts:89-98 | the bucket today's edits start from is the stored one for today, or the factory's report when there is none |
| StoreSpec.ApplyToday | src/database.ts:34-57 | a mutator keeps one-entry-per-day, leaves today's entry present, grows the collection by at most one, keeps the day key at every old position, and leaves the entries of other days untouched, so `getMetricsForDate` of every other day is unchanged |
| StoreSpec.ApplyTodayBucket | src/database.ts:34-57 | after a mutator, today's bucket is the previous one with the edit applied, whatever a later factory call would build |
| StoreSpec.IncrementedTimesCount | src/database.ts:43-51 | n same-day increments of a counter raise it by exactly n |
| StoreSpec.IncrementFromEmpty | src/database.ts:43-51 | from an empty store, n increments leave one entry, for today, with the counter at n |
| StoreSpec.OneEntryAfterIncrements | src/database.ts:89-98 | `n > 0` same-day increments from an empty store leave exactly one entry, dated today |
| StoreSpec.KeepFrom | src/database.ts:65-68 | the purge keeps exactly the entries whose day key is not below the cutoff |
| StoreSpec.Before | src/database.ts:72-74 | the selection holds exactly the entries whose day key is strictly below the cutoff |
| StoreSpec.Lookup | src/database.ts:80-87 | the lookup is absent exactly when no entry has the key; otherwise it is that day's bucket |
| StoreSpec.KeepFromUnique | src/database.ts:62-68 | a dated purge keeps one-entry-per-day |
| StoreSpec.BeforeKeepFromPartition | src/database.ts:62-78 | what `getMetrics(d)` selects and what `clearData(d)` keeps together make up the whole collection, each entry once |
| StoreSpec.ClearedHasNothingBefore | src/database.ts:62-78 | after `clearData(d)`, `getMetrics(d)` finds nothing |
| StoreSpec.KeepFromLookup | src/database.ts:62-87 | `clearData(d)` does not change the lookup of day d or any later day |
| Database.StatsDatabase.constructor | src/database.ts:17-20 | a new store has no entries |
| Database.StatsDatabase.GetCurrentMetrics | src/database.ts:89-98 | today's entry afterwards exists and is the only one for today; an existing entry leaves the collection unchanged, otherwise the factory's report is appended |
| Database.StatsDatabase.IncrementCounter | src/database.ts:43-51 | the new collection is one increment applied to today's bucket, and today's counter is the old count (0 if absent) plus one |
| Database.StatsDatabase.AddCustomEvent | src/database.ts:34-41 | the caller's event is stamped with `date` and `eventType`, and today's events become the old ones plus that event |
| Database.StatsDatabase.AddTiming | src/database.ts:53-57 | today's timings become the old ones plus `{eventType, durationInMilliseconds, metadata or {}, date}` |
| Database.StatsDatabase.ClearData | src/database.ts:62-69 | without a date the collection is emptied; with one, exactly the entries strictly before it are removed |
| Database.StatsDatabase.GetMetrics | src/database.ts:71-78 | returns all buckets, or exactly the buckets of entries strictly before the given day, and changes nothing |
| Database.StatsDatabase.GetMetricsForDate | src/database.ts:80-87 | returns the bucket stored under exactly that day key, or nothing when there is none |
| JsNumber.IsWhiteSpace | src/index.ts:85 | the white space `parseInt` skips (ECMAScript WhiteSpace and LineTerminator) includes space, tab, LF and CR, and never contains a digit or a sign |
| JsNumber.TrimStart | src/index.ts:85 | drops exactly the leading white-space characters |
| JsNumber.DigitPrefix | src/index.ts:85 | the longest prefix of decimal digits |
| JsNumber.ParseInt | src/index.ts:170 | `parseInt(s, 10)` is NaN exactly when no digit follows the white space and optional sign, and its sign follows a leading `-` |
| JsNumber.NatDigits | src/index.ts:103 | the decimal text of a natural number is non-empty digits with no leading zero |
| JsNumber.Decimal | src/index.ts:103 | the decimal text of an integer starts with a digit or `-`, and is all digits exactly when the integer is not negative |
| JsNumber.ParseIntDecimal | src/index.ts:170 | `parseInt` reads back any integer's decimal text, after any white space and before any non-digit text |
| JsNumber.ParseIntOfDecimal | src/index.ts:170 | `parseInt` inverts the decimal text of an integer |
| JsNumber.ParseIntNaN | src/index.ts:173-175 | text without any decimal digit, the empty string included, parses to NaN |
| Reporting.OptedOut | src/index.ts:82-94 | the stored opt-out value opts out only if it is present and holds a digit other than `0`; OptOutDefaults and OptOutNumeric give the exact cases |
| Reporting.Due | src/index.ts:177-178 | due exactly when `now` exceeds the last report time plus 86 400 000 ms; a store with no stored time compares `now` with 86 400 000 |
| Reporting.FailureMessage | src/index.ts:102-103 | the message of the error that is thrown and then logged is "Stats reporting failure: ", the status in decimal, and a stray `)`; the status reads back from the text between prefix and `)` |
| Reporting.LastReportTime | src/index.ts:167-175 | an absent or unparsable stored timestamp counts as 0 |
| Reporting.StatsStore.constructor | src/index.ts:79-95 | records the version, sets the URL to the usage base plus the app name, and sets the opt-out flag from the stored value |
| Reporting.StatsStore.ShouldReportDailyStats | src/index.ts:166-179 | due exactly when `now - lastDate` exceeds 24 hours; an absent, empty or NaN stored value makes `lastDate` 0; nothing is written |
| Reporting.StatsStore.GetDailyStats | src/index.ts:117-130 | the payload carries the given measures and dimensions: the store's version, the given platform, guid and date, `eventType` "usage", null access token and language |
| Reporting.StatsStore.ReportStats | src/index.ts:97-112 | posts the daily payload; reports success exactly on status 200; logs any other status or a rejection without propagating it, and changes no state |
| Reporting.OptOutDefaults | src/index.ts:82-94 | an absent, empty or NaN opt-out value means opted in |
| Reporting.OptOutNumeric | src/index.ts:84-85 | a stored integer opts out exactly when it is non-zero |
| Reporting.LastReportTimeDecimal | src/index.ts:168-171 | a stored decimal timestamp is read back as that time |
| Reporting.DueBoundary | src/index.ts:177-178 | exactly 24 hours after the stored time the report is not due; one millisecond later it is |
| Reporting.DueMonotone | src/index.ts:177-178 | once due, the report stays due as time advances |
| Reporting.NeverReportedIsDue | src/index.ts:167-178 | with no usable timestamp the gate compares the clock against time 0 |
| Reporting.DailyStatsDateOnly | src/index.ts:117-130 | payloads for two dates differ only in `dimensions.date` |

## Left out

- `close()` and the lokijs handle lifecycle are not modelled. They are storage-engine plumbing with no logic of the store's own.
- Storage failures are not modelled. The collection is a plain sequence, so an insert always succeeds; the source's `insertOne` returning nothing, and the `report!` that follows it, cannot happen here.
- The lokijs bookkeeping fields (`$loki`, `meta`) are not modelled either.
- Asynchronous interleaving is left out: every operation is one atomic call. The duplicate-bucket race between two interleaved find-then-insert flows is therefore not modelled.
- `getYearMonthDay` is not part of this model. Operations take the integer day key (`today`, the cutoff) directly, so turning a `Date` into a key is outside the model.
- `Date.now()`, `toISOString()`, `getGUID()` and `process.platform` are parameters.
- The report factory `createCurrentReport` is a value parameter, consulted only when today's entry is missing.
- Database.StatsDatabase.GetMetrics: returns the buckets as values. In the source, lokijs hands back the stored bucket objects themselves (it does not clone by default), so a returned bucket follows later same-day edits, and a caller's write to it changes the store. The model captures neither.
- Database.StatsDatabase.GetMetricsForDate: returns the bucket as a value, with the same difference: the source returns the stored object itself.
- Database.StatsDatabase.AddCustomEvent: only an object event is modelled. The source accepts `customEvent: any`; for `null`, `undefined`, a primitive or a frozen object, the assignment at `src/database.ts:36` throws a TypeError (the module runs in strict mode). That happens after `getCurrentMetrics` at line 35 may already have inserted today's bucket, so the call rejects and still leaves a new bucket for today behind. The model has no such failing call.
- Database.StatsDatabase.AddTiming: metadata is either omitted (stored as `{}`) or an object. The source stores whatever is passed explicitly at `src/database.ts:55`, including `null` or a number, and the model's `Option<Object>` cannot hold those.
- Database.StatsDatabase.AddCustomEvent: the stored event is a value, not the caller's object. Later mutation of that object through an alias does not reach the store; the method returns the stamped object the caller would see.
- JavaScript numbers are unbounded integers here. Fractional durations, precision loss above 2^53, and `parseInt` returning an inexact or infinite value for very long digit runs are not modelled.
- JsNumber.ParseInt: a negative zero is returned as 0. Both callers treat -0 like 0.
- `incrementCounter` with the counter name `"__proto__"` is not modelled: in the source both the `= 0` and the `++` go through the prototype setter, so the counter is never stored, while the model stores it like any other name.
- `incrementCounter` after a counter named `"hasOwnProperty"` has been stored is not modelled: in the source the stored number hides the method, so every later `incrementCounter` on that day's bucket throws a TypeError at `src/database.ts:46`. Every other counter name, including other names inherited from `Object.prototype` such as `"toString"`, behaves as modelled. A stored counter holding a non-number is not modelled either.
- The HTTP transport (`post`, `fetch`) is the function parameter `post`. `console.log` output is the returned `LogLine`.
- The delegations to `measuresDb.getMeasures()` and `incrementMeasure` are left out. `measuresDb` is a `StatsDatabase`, which defines neither method, so `getDailyStats` takes its measures as a parameter.
- Reporting.StatsStore.ReportStats: always posts. In the source, the payload is built at `src/index.ts:98`, outside the `try` at lines 100-111. With `src/database.ts` as written, `measuresDb.getMeasures` is not a function (`src/index.ts:119`). Every call therefore rejects with a TypeError before anything is posted. The model states what the method does once `getDailyStats` succeeds.
- Reporting.StatsStore.GetDailyStats: always succeeds, for the same reason: the model does not capture the TypeError the source raises at `src/index.ts:119`.
- `setOptOut`, `sendOptInStatusPing`, the opt-in ping at construction and `getMeasure` are absent from the source (or commented out), so they are not modelled.
- Advancing `last-daily-stats-report` and purging after a successful report are absent from the source, so they are not modelled.
- `index.d.ts` holds type declarations only. The stored bucket's dimensions follow its `IDimensions`; the payload's follow the interface in `src/index.ts`.
