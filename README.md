# Bot-detection admission pipeline in Dafny

This project models the request-scoring core of a multi-tenant bot-detection
edge service written in JavaScript (Express). It covers six pieces:

- **Client IP resolution.** Each route has its own `getClientIp`. Each takes the first comma token of `x-forwarded-for`, trimmed, and they differ in their fallbacks.
- **Bounded per-IP history.** A map from IP to an array. Each request pushes onto the array, then `splice` drops the oldest entries so only the newest `MAX_EVENTS_PER_IP` remain (200 in src/routes/event.js; configured through `app.locals` in src/routes/evaluate.js).
- **Sliding-window statistics.** `computeStats` gives the counts in the trailing 10 s and 60 s windows, `rpm`, and the number of distinct paths in the 60 s window. Events with a malformed timestamp are skipped.
- **The rule-based decision engine.** `decideFromStats` has three rule families: rate, burst and path diversity. Each adds at most one tier's points and at most one reason code; a family below its lower threshold adds nothing. The total score is then thresholded into ALLOW, CHALLENGE or BLOCK.
- **Three routes.** `POST /v1/event` with its `GET /stats` and `GET /decision` lookups, `POST /v1/evaluate`, and the proxy admission gate. The gate forwards on ALLOW, answers 401 on CHALLENGE and 403 on BLOCK.
- **The tenant-scoped event store that the gate writes and reads.** It is modelled abstractly.

Modules follow the source files:

| module | file | models |
|---|---|---|
| `JsValues` | js_values.dfy | JavaScript values the code relies on: `typeof`, `Number(...)` on a timestamp, `split(",")[0]`, `trim()`, `||` on strings |
| `Types` | types.dfy | events, request metadata, stats, verdicts, reason codes, decisions |
| `Windows` | windows.dfy | the window filter both stats copies compute, parameterised by their timestamp test; the distinct-path set |
| `Scoring` | scoring.dfy | the decision policy as a table (`Decide`) and its properties |
| `Detection` | detection.dfy | src/detection.js |
| `Ledger` | ledger.dfy | the push-then-splice bounded history shared by src/routes/event.js and src/routes/evaluate.js |
| `EventRoute` | event_route.dfy | src/routes/event.js |
| `EvaluateRoute` | evaluate_route.dfy | src/routes/evaluate.js |
| `ProxyRoute` | proxy_route.dfy | src/routes/proxy.js and the part of src/data/eventStore.js it calls |

The modelling choices:

- **Clock.** `Date.now()` becomes a parameter `now`. The stats read it once for both windows.
- **Timestamps.** A timestamp is a `Stamp`: a number, NaN, text that `Number(...)` reads as a number, other text, `null` or a missing property.
- **Imperative code.** Code with loops or accumulators is a method proved against a specification function:
  - both `computeStats` copies and the loop-based `filterEventsByWindow` are methods;
  - both `decideFromStats` copies are methods;
  - the history maps are class fields updated by the handlers.
- **The two `decideFromStats` copies.** Both are proved to return `Scoring.Decide(stats)`. This shows they agree on every stats input.

Where the route copies differ from one another, the model follows the code:

- **IP fallbacks differ.** The in-memory routes fall back to `req.ip` with no `"unknown"` sentinel. The proxy variant accepts an empty `x-forwarded-for` and then yields `""`.
- **Numeric-text timestamps.** In src/routes/event.js a timestamp that is numeric text is dropped from the windows, because that file checks `typeof` rather than using `Number(...)`.

The gate code has no verdict cache, no reputation lookup or increment, and no combining step, so none is modelled.

## Model

| member | source | states |
|---|---|---|
| `JsValues.OrElse` | src/routes/proxy.js:13 | `a || b` on strings: the first operand when it is a non-empty string, otherwise the second |
| `JsValues.ToNumber` | src/detection.js:12 | `Number(timestamp)`: a number or numeric text gives its value, `null` gives 0, NaN, other text and a missing property give NaN (`None`) |
| `JsValues.IsNumber` | src/routes/event.js:92 | `typeof timestamp === "number"`: true for numbers, NaN included, and false for text, `null` and a missing property |
| `JsValues.FirstCommaToken` | src/routes/event.js:22 | the token holds no comma, is a prefix of the header, and is followed by a comma when it is shorter than the header |
| `JsValues.Trim` | src/routes/event.js:22 | the result is a contiguous slice `s[i..j]` of the input with only whitespace before `i` and after `j`; it has no JavaScript whitespace at either end, and is empty iff the input is all whitespace |
| `JsValues.TrimIdempotent` | src/routes/event.js:22 | trimming twice equals trimming once |
| `Windows.Keeps` | src/detection.js:12-13 | the per-event window test: `Number(ts)` not NaN and at least the cutoff, or for the event route's copy a `typeof`-number timestamp at least the cutoff, NaN failing |
| `Windows.Filter` | src/detection.js:10-14 | the window is no longer than the input and holds exactly the input events that pass the timestamp test |
| `Windows.FilterAppend` | src/detection.js:10-14 | filtering distributes over concatenation, so kept events stay in their original order |
| `Windows.FilterSingleton` | src/detection.js:10-14 | a single event is kept iff it passes the test |
| `Windows.FilterCount` | src/detection.js:10-14 | each kept event occurs in the window as often as in the input; a dropped one does not occur |
| `Windows.FilterPermutation` | src/detection.js:10-14 | inputs that are permutations of each other give windows that are permutations of each other |
| `Windows.FilterWeaker` | src/detection.js:21-22 | a window whose test implies another's is no larger, so the 10 s window never exceeds the 60 s one |
| `Windows.FilterAgree` | src/routes/event.js:91-94 | two tests that agree on every input event give the same window |
| `Windows.FilterAllKept` | src/detection.js:10-14 | when every event passes, the window is the whole input |
| `Windows.PathSet` | src/detection.js:24-27 | a path is in the set iff some window event carries it as a string |
| `Windows.PathSetStep` | src/detection.js:25-27 | one more event adds its string path, if it has one, to the set |
| `Windows.PathSetSize` | src/detection.js:24-33 | there are no more distinct paths than events |
| `Windows.PathSetByMembership` | src/detection.js:24-27 | the path set depends only on which events occur |
| `Detection.FilterEventsByWindow` | src/detection.js:4-15 | a non-array gives `[]`; an array keeps exactly the events whose `Number(timestamp)` is not NaN and is at least `now - windowMs` |
| `Detection.StatsOf` | src/detection.js:20-35 | the specification of `computeStats`: the sizes of the 10 s and 60 s windows, `rpm` as the 60 s size, and the size of the 60 s path set; its properties are `Detection.StatsBounds` and `Detection.StatsPermutation` |
| `Detection.ComputeStats` | src/detection.js:20-35 | the Set-filling loop returns the two window sizes, `rpm` equal to the 60 s count, and the number of distinct string paths in the 60 s window |
| `Detection.DecideFromStats` | src/detection.js:40-77 | the accumulator code returns the policy-table decision `Scoring.Decide(stats)` |
| `Detection.NotArrayAllows` | src/detection.js:5-35 | a non-array gives all-zero stats, hence ALLOW with score 0 and no reasons |
| `Detection.StatsBounds` | src/detection.js:21-33 | `count_10s <= count_60s`, `rpm == count_60s` and `unique_paths_60s <= count_60s` |
| `Detection.StatsPermutation` | src/detection.js:20-35 | stats depend only on the multiset of events, so any reordering gives the same stats |
| `Detection.CurrentEventCounted` | src/detection.js:10-14 | an event whose timestamp coerces to `now` is counted in both windows |
| `Scoring.Decide` | src/detection.js:40-77 | the policy table: the score is the sum of each family's tier points, the reasons are each family's tier reason in the order rate, burst, path diversity, and the verdict is the score's band; both `decideFromStats` copies are proved equal to it |
| `Scoring.SumPointsAppend` | src/detection.js:41-69 | the points of concatenated reason lists add up |
| `Scoring.FamilyPoints` | src/detection.js:45-69 | a family's reason is worth exactly the points that family adds: a multiple of 20, at most 80 for rate and 40 for the others |
| `Scoring.ScoreShape` | src/detection.js:45-69 | the score is a multiple of 20 in [0, 160] and equals the sum of the points of the reported reasons |
| `Scoring.ReasonsOrdered` | src/detection.js:41-69 | at most three reasons, at most one per family, in the order rate, burst, path diversity |
| `Scoring.ReasonPresence` | src/detection.js:45-69 | each reason is present iff its threshold holds and the higher tier's does not, for all six codes |
| `Scoring.VerdictBands` | src/detection.js:72-74 | BLOCK iff score >= 80, CHALLENGE iff 30 <= score < 80, ALLOW iff score < 30 |
| `Scoring.Monotone` | src/detection.js:45-74 | raising `rpm`, `count_10s` or `unique_paths_60s` never lowers the score or the verdict's severity |
| `Scoring.IgnoresCount60` | src/detection.js:40-76 | `count_60s` has no influence on the decision |
| `Scoring.DecideZero` | src/detection.js:40-76 | zero stats decide ALLOW, 0, no reasons |
| `Scoring.ExampleVeryHighRpm` | src/detection.js:45-47 | rpm 130 with the other stats low gives BLOCK (the action text `"BLOCK"`), 80, `["very_high_rpm"]` |
| `Scoring.ExampleBurstOnly` | src/detection.js:57-59 | a burst of 20 alone scores 20 and is allowed (stats with count_10s above count_60s, which `computeStats` never returns) |
| `Scoring.ExampleThreeLowTiers` | src/detection.js:48-74 | rpm 70, burst 16 and 26 paths add 40 + 20 + 20 = 80, which is BLOCK |
| `Ledger.SpliceFront` | src/routes/event.js:68 | `splice(0, k)` leaves the last `len - k` entries, all of them for `k <= 0` and none for `k >= len` |
| `Ledger.PushBounded` | src/routes/event.js:64-69 | `push` then `splice(0, length - cap)` when the length exceeds the cap; its meaning is `Ledger.PushBoundedIsNewest` and `Ledger.PushBoundedShape` |
| `Ledger.Newest` | src/routes/event.js:66-69 | the newest `n` entries: the suffix of the list whose length is `min(len, n)` |
| `Ledger.Lookup` | src/routes/event.js:131 | `ipEvents.get(ip) || []`: the stored list of a known IP, the empty list for an unknown one |
| `Ledger.Recorded` | src/routes/event.js:58-69 | the history map after one request: the IP's list, empty when unknown, pushed onto and spliced, every other key as before (`Ledger.RecordedIsolation`) |
| `Ledger.PushBoundedIsNewest` | src/routes/event.js:63-69 | push-then-splice leaves exactly the newest `cap` of old history ++ [evt]; a cap below zero leaves nothing |
| `Ledger.PushBoundedShape` | src/routes/event.js:63-74 | with a positive cap the list is bounded, ends with the new event, is a suffix of old ++ [evt], and has length min(old length + 1, cap) |
| `Ledger.NewestAppend` | src/routes/event.js:63-69 | trimming, appending and trimming again is the same as trimming the whole |
| `Ledger.PushAllIsNewest` | src/routes/event.js:63-69 | recording any number of events keeps exactly the newest `cap` of them, oldest discarded first |
| `Ledger.RecordedIsolation` | src/routes/event.js:58-64 | recording for one IP changes no other IP's history, adds only that key, and an unknown IP starts from an empty list |
| `EventRoute.GetClientIp` | src/routes/event.js:17-26 | a non-empty header gives its first comma token, trimmed and comma-free; otherwise `req.ip` |
| `EventRoute.QueriedIp` | src/routes/event.js:128-129 | a non-empty trimmed `?ip=` wins; otherwise the client IP |
| `EventRoute.IngestedEvent` | src/routes/event.js:40-56 | the recorded event: a string body path or method wins over `req.originalUrl` / `req.method`, the two headers default to `""`, and the timestamp is the number `now` |
| `EventRoute.FilterEventsByWindow` | src/routes/event.js:85-97 | the loop keeps exactly the events whose timestamp is a number at least the cutoff, in order |
| `EventRoute.StatsOf` | src/routes/event.js:102-119 | the specification of this file's `computeStats`: the same shape as `Detection.StatsOf` over the `typeof`-number windows; `EventRoute.StatsCopiesAgree` says when the two coincide |
| `EventRoute.ComputeStats` | src/routes/event.js:102-119 | this copy returns the window sizes and distinct-path count over the `typeof`-filtered windows |
| `EventRoute.DecideFromStats` | src/routes/event.js:150-187 | this copy returns `Scoring.Decide(stats)`, the same as `Detection.DecideFromStats`, for every stats input |
| `EventRoute.EventRouter.constructor` | src/routes/event.js:8 | the history map starts empty |
| `EventRoute.EventRouter.PostEvent` | src/routes/event.js:36-76 | the map becomes the old map with the request's event recorded under its IP with cap 200; the reply carries that IP and the new list's length |
| `EventRoute.EventRouter.Record` | src/routes/event.js:58-69 | the map becomes the old map with `evt` pushed onto the IP's list (empty when unknown) and trimmed to the newest 200; the returned list is the IP's new list |
| `EventRoute.EventRouter.GetStats` | src/routes/event.js:127-140 | the reply carries the queried IP, its stored count (0 when unknown) and this copy's stats over its history |
| `EventRoute.EventRouter.GetDecision` | src/routes/event.js:193-210 | the reply carries the queried IP, the stats over its history and the policy decision over them |
| `EventRoute.StoredForIp` | src/routes/event.js:63-75 | `stored_for_ip` is min(previous length + 1, 200), and the list ends with the new event |
| `EventRoute.UnknownIpLookup` | src/routes/event.js:131-137 | an IP with no history has 0 stored events, zero stats and an ALLOW decision with score 0 |
| `EventRoute.StatsCopiesAgree` | src/routes/event.js:85-97 | with no numeric-text or null timestamps, this file's stats equal the shared engine's |
| `EventRoute.StatsCopiesDifferOnText` | src/routes/event.js:92 | a timestamp stored as numeric text is counted by the shared engine and not by this file |
| `EvaluateRoute.GetClientIp` | src/routes/evaluate.js:6-12 | a non-empty header gives its first comma token, trimmed; otherwise `req.ip` |
| `EvaluateRoute.ClientIpAsInEventRoute` | src/routes/evaluate.js:6-12 | this variant resolves the same IP as the event route's |
| `EvaluateRoute.EvaluatedEvent` | src/routes/evaluate.js:25-48 | the recorded event: string body fields win for all four of path, method, user agent and language, then the request's own values, then `""`; the timestamp is the number `now` |
| `EvaluateRoute.FieldDefaults` | src/routes/evaluate.js:25-39 | string body fields win; otherwise path and method are as in the event route, user agent and language fall back to the header and then `""` |
| `EvaluateRoute.AppLocals.constructor` | src/routes/evaluate.js:50-51 | the shared map starts empty with the given cap |
| `EvaluateRoute.AppLocals.Record` | src/routes/evaluate.js:53-60 | the map becomes the old map with `evt` pushed onto the IP's list and trimmed to the newest `MAX_EVENTS_PER_IP`; the cap is unchanged |
| `EvaluateRoute.AppLocals.Evaluate` | src/routes/evaluate.js:22-71 | the request is recorded under its IP with the configured cap, the cap is unchanged, and the reply carries the stats of the updated list and their decision |
| `EvaluateRoute.CurrentRequestCounted` | src/routes/evaluate.js:53-62 | with a positive cap the current request is counted in both windows; a cap of zero or less yields zero stats |
| `EvaluateRoute.PushedEventCounted` | src/routes/evaluate.js:56-62 | the same, for any history and an event stamped `now` |
| `ProxyRoute.GetClientIp` | src/routes/proxy.js:8-14 | any string header, `""` included, gives its first comma token trimmed; otherwise a non-empty `remoteAddress`, else a non-empty `req.ip`, else `"unknown"`, never `""` |
| `ProxyRoute.ClientIpOnEmptyHeader` | src/routes/proxy.js:10-11 | an empty header gives `""` here and `req.ip` in the event route |
| `ProxyRoute.ClientIpVariantsAgree` | src/routes/proxy.js:10-11 | with a non-empty header this variant agrees with the event route's |
| `ProxyRoute.ProxyEvent` | src/routes/proxy.js:20-26 | the recorded event: `req.originalUrl`, `req.method`, the user agent or `""`, no accept-language, and the timestamp `now` |
| `ProxyRoute.Respond` | src/routes/proxy.js:35-45 | the decision-to-response mapping; its cases are `ProxyRoute.RespondCases` |
| `ProxyRoute.Gate` | src/routes/proxy.js:32-45 | `computeStats`, `decideFromStats` and the response mapping applied to what the gate was handed |
| `ProxyRoute.RespondCases` | src/routes/proxy.js:35-45 | the gate forwards iff ALLOW; otherwise it answers 401 iff CHALLENGE and 403 iff BLOCK, with body `{ok: false, action, tenant: tenant.id, ip, stats}` |
| `ProxyRoute.GateBlocksFlood` | src/routes/proxy.js:32-39 | scoring a history of at least 120 requests stamped now yields a 403 rejection |
| `ProxyRoute.MiddlewareBlocksFlood` | src/routes/proxy.js:29-39 | when the key already holds at least 119 rows stamped now, the read after the awaited write holds at least 120, and the outcome `ProxyRoute.Middleware` ensures is `Reject(403, {ok: false, BLOCK, tenant.id, ip, stats})` |
| `ProxyRoute.AsWrittenAlwaysForwards` | src/routes/proxy.js:29-35 | scoring the un-awaited `getEvents` Promise gives zero stats and always forwards |
| `ProxyRoute.Reverse` | src/data/eventStore.js:22 | the newest-first order is the reversed insertion order |
| `ProxyRoute.ReverseMultiset` | src/data/eventStore.js:22 | reversing keeps the same multiset of rows |
| `ProxyRoute.StoredRow` | src/data/eventStore.js:3-24 | the row a read returns for a recorded event: its path and method, and the store's own `Date.now()` read back as numeric text |
| `ProxyRoute.Rows` | src/data/eventStore.js:21 | the rows under one (tenant_id, ip) key in insertion order, none for a key never written |
| `ProxyRoute.Inserted` | src/data/eventStore.js:3-15 | the table after one insert: one row appended under exactly that key (`ProxyRoute.TenantIsolation`) |
| `ProxyRoute.NewestFirst` | src/data/eventStore.js:17-24 | `ORDER BY timestamp DESC LIMIT 200` over rows stamped in insertion order: the newest 200, reversed; `ProxyRoute.ReadOrderHarmless` shows the order does not affect the stats |
| `ProxyRoute.EventStore.constructor` | src/data/eventStore.js:3-27 | the store starts empty |
| `ProxyRoute.EventStore.RecordEvent` | src/data/eventStore.js:3-15 | appends one row under exactly the (tenant, ip) key; its timestamp is the store's own clock |
| `ProxyRoute.EventStore.GetEvents` | src/data/eventStore.js:17-27 | returns the newest 200 rows of the (tenant, ip) key, newest first |
| `ProxyRoute.MiddlewareAsWritten` | src/routes/proxy.js:16-46 | records under (tenant.id, ip), then answers what the gate gives for a non-array |
| `ProxyRoute.Middleware` | src/routes/proxy.js:16-46 | with the store calls awaited, writes and reads the same (tenant.id, ip) key and answers the gate's outcome over the rows read |
| `ProxyRoute.TenantIsolation` | src/routes/proxy.js:29-30 | a write under (tenant, ip) leaves every other (tenant, ip) key's rows unchanged |
| `ProxyRoute.ReadOrderHarmless` | src/data/eventStore.js:17-27 | the newest-first read gives the same stats as the newest 200 rows in insertion order |
| `ProxyRoute.AwaitedGateCountsCurrentRequest` | src/routes/proxy.js:29-33 | after an awaited write, the read contains the current request and both windows count it |

## Findings

| source | as written | input that shows it | evidently intended | confidence | as-written member | corrected member |
|---|---|---|---|---|---|---|
| src/routes/proxy.js:29-30 | `recordEvent` and `getEvents` are called without `await`, so `events` is a Promise, which the filter treats as a non-array: the stats are always zero and the gate always forwards | 120 or more requests in one second from a single IP to one tenant: the stored history calls for 403, but the as-written gate forwards | await the write, then score the rows read back for (tenant.id, ip) | high (not executed) | `ProxyRoute.AsWrittenAlwaysForwards` | `ProxyRoute.AwaitedGateCountsCurrentRequest` |

`ProxyRoute.MiddlewareAsWritten` models the code as it stands. `ProxyRoute.Middleware` is the corrected middleware. `ProxyRoute.MiddlewareBlocksFlood` shows that once the key holds 119 rows stamped now, the corrected middleware answers the next request with 403; `ProxyRoute.GateBlocksFlood` is the same fact for the gate alone. `ProxyRoute.AsWrittenAlwaysForwards` shows that the as-written gate forwards it.

## Left out

- HTTP plumbing is not modelled. This covers Express routing, `res.status().json`, `next()` and server start-up. Responses are returned values, and forwarding is the `Forward` outcome.
- The byte-level forwarding through `createProxyMiddleware` (src/routes/proxy.js:49-55) is a foreign library and is left out.
- The event store is an abstract map keyed by (tenant, ip), not Postgres. The model assumes that `ORDER BY timestamp DESC` returns the rows in insertion order reversed, that is, that the store's `Date.now()` stamps never decrease from one insert to the next. A wall clock can step back and several processes can write the table, so this is an assumption, not a fact about the source.
- Ties at the `LIMIT 200` boundary (src/data/eventStore.js:22-23) are not modelled. With more than 200 rows under a key and equal stamps at the 200th place, the database may return a different set of rows than the newest 200 inserted. The counts are the same, but `unique_paths_60s` can differ. `Detection.StatsPermutation` covers only a reordering of the same rows.
- The authentication middleware, the tenant store and routes, the reputation store, the Redis client and the toy origin server are not part of this model. They are database or connection wrappers.
- No verdict cache exists in the code (src/db/redis.js only opens a connection), and the gate does not call src/data/reputationStore.js, so neither is modelled.
- The handler at src/routes/event.js:213-222 is not modelled. It reads an undefined `ipQuery` and never responds.
- Concurrency and async timing are not modelled; handlers run one at a time.
- `Date.now()` is a parameter. `computeStats` reads the clock once per window in the source; the model uses one `now` for both windows.
- Timestamps are whole milliseconds, not floating-point numbers. Numeric text is classified by its `Number(...)` value; the text itself is not parsed.
- `req.ip` is modelled as a string, so `undefined` is not modelled.
- `app.locals.ipEvents` is assumed to be a Map and `app.locals.MAX_EVENTS_PER_IP` a whole number.
- A header value repeated as an array is not modelled; Node joins `x-forwarded-for` into one string.
- The events table's column types are not part of this model. The timestamp read back is taken as numeric text, as the comment at src/detection.js:11 describes.
- The rows the store returns carry only path, method and timestamp. Their other fields are `""` in the model.
