# Bus-ticket fulfillment webhook: location resolver, departure normalisers and reply

A Dafny model of the core of `my-node-app`, a Dialogflow fulfillment webhook for
bus tickets. The user asks for trips with the `TimVeXe` intent, giving an origin
(`diemDi`), a destination (`diemDen`) and a time (`thoiGian`). The webhook turns the
two place names into location ids, sends a trip search to the backend and writes
the answer as Vietnamese text. The model covers three parts.

- **Location resolver** (`api/webhook.js`, module `Locations`). The resolver keeps a
  process-wide alias → id map (`LOCATION_MAP`) and the time it was built
  (`LOCATION_CACHE_TIME`). The model is the class `LocationCache`:
  - its entries are a `seq<(string, int)>` in JavaScript property order;
  - its `Load`, `Refresh` and `Resolve` methods update the map in place, as the source does;
  - each method is proved against a specification function (`Loaded`, `Refreshed`, `Match`).
  - `Put` models property assignment: a key that is already present keeps its position, and a new key is appended.
  - What a reload would fetch (`Catalog`) is an input, and so is the clock (`now`).
- **Departure-time normaliser**, in four revisions of `formatDepartureDate`:
  - `test-dialogflow-object.js` (`ObjectRevision`);
  - `test-dialogflow-string.js` (`StringRevision`);
  - `test-dialogflow.js` (`LastSpecificRevision`);
  - `test-format.js` (`FirstSpecificRevision`).

  They share the input datatype, the candidate filter and the date check (module `Departures`). They differ in how they pick from an array:
  - the last candidate with an hour in [5, 22];
  - the last one that is not midnight;
  - the first one that is not midnight.

  Module `Revisions` relates the four. Whether `new Date(s)` is valid is engine-defined, so it is a parameter `valid`. `IsoDate.Valid` is a strict reading of the ECMA-262 date-time string format, used for the scripts' concrete examples.
- **Request handler** (`api/webhook.js`, module `Fulfillment`):
  - `Respond` is the handler as a function of the resolver state;
  - `Handle` is the method that runs it against a `LocationCache`;
  - `RenderListing` appends the trip entries to the reply in a loop.

  The backend's search answer is an input. The locale formatters `formatTime`, `formatPrice` and `toFixed(1)` are function parameters. So is the engine's `new Date(…).toISOString()` conversion.

The JavaScript built-ins the code relies on are defined in `JsText` with their
ECMA-262 meaning for the arguments the code passes:
- `trim`, `toLowerCase`, `includes`, `startsWith`;
- `split`/`join` on one character, `slice(0, 3)`;
- `replace(' ', 'T')`, which changes only the first space, and `replace(/\.000000$/, '')`;
- `parseInt`, and `${n}` for an integer.

Behaviour of the code that is easy to misread:
- A failed reload does not stamp the cache time (`api/webhook.js:308-312`). The next lookup therefore tries again unless the kept stamp is still fresh. It is still fresh when a good load of a catalog with no usable record stamped an empty map: that empty map forces the next reload (line 307), and if that reload fails, the fallback map keeps the fresh stamp and is reused for the rest of the hour (`Locations.FallbackInheritsStamp`).
- An HTTP error from the trip search shows `Lỗi server: ` followed by the server's message (`api/webhook.js:472`), not the generic apology.
- A search payload that is a single object, not an array, has no `length`, so it gives the "no trips" text (`api/webhook.js:442`).
- The object revision returns `date_time` verbatim, without appending `+07:00` (`test-dialogflow-object.js:11-13`).
- The webhook's own `formatDepartureDate` re-serialises through `toISOString()`, which is a UTC conversion (`api/webhook.js:335-339`). Only the revisions in the test scripts keep the `+07:00` text.
- A place name that is an array or an object has no `trim`. The lookup throws after its reload check, and the reply is the generic apology (`api/webhook.js:315`).
- Seats are shown as `availableSeats || 0` (`api/webhook.js:451`). Price, time and rating go through the opaque formatters.

## Model

| member | source | states |
|---|---|---|
| JsText.Trim | api/webhook.js:315 | `trim()`: the result is a slice of the input with only whitespace around it in the input, it has no whitespace at either end, and it is the input itself when the input has none there |
| JsText.ToLower | api/webhook.js:262 | `toLowerCase()`: same length, each character mapped by the simple lower-case mapping |
| JsText.LowerIdempotent | api/webhook.js:262 | lower-casing a lower-cased key changes nothing |
| JsText.StripMicros | test-dialogflow.js:34 | `/\.000000$/` removes exactly a trailing `.000000`, and changes the text iff that suffix is present |
| JsText.ReplaceFirst | api/webhook.js:335 | `replace(' ', 'T')` changes only the first occurrence; the text is unchanged when there is none |
| JsText.Split | api/webhook.js:264 | `split(c)` gives at least one piece, no piece holds `c`, and joining the pieces gives the input back |
| JsText.SplitJoin | test-dialogflow.js:35 | splitting a join of separator-free pieces gives the pieces back |
| JsText.SplitCount | test-dialogflow.js:37 | the number of pieces is one more than the number of separators |
| JsText.KeepThreeFields | test-dialogflow.js:40 | `split(':').slice(0, 3).join(':')` is a prefix of the time, equal to it iff it has at most two colons; it keeps min(2, n) of the n colons and a shorter result is cut just before the third colon |
| JsText.ParseDecimal | test-dialogflow-object.js:46 | `parseInt` of a run of decimal digits is its decimal value |
| JsText.IntToString | api/webhook.js:444 | `${n}` of a non-negative integer parses back to `n` and starts with `0` only for 0, which is `"0"`; a negative integer is `-` and the digits of its magnitude, with no leading zero |
| Departures.Candidates | test-dialogflow.js:12-14 | a string is a candidate iff it is an array element holding both `T` and `:`; non-strings are dropped |
| Departures.CandidatesSnoc | test-dialogflow.js:12-14 | one more array element adds itself at the end of the candidates when it is an ISO-like string, and nothing otherwise |
| Departures.CandidatesAppend | test-dialogflow.js:12-14 | the filter keeps order and repeats: the candidates of `a + b` are those of `a` followed by those of `b` |
| Departures.CandidatesAfterObject | test-dialogflow.js:75-80 | a leading date-range object does not change the candidates |
| Departures.LastOfKeep | test-dialogflow.js:18-25 | the last element of `filter(p)` is the element at the last index where `p` holds |
| Departures.FindIsFirst | test-format.js:14-17 | `find(p)` returns the element at the first index where `p` holds |
| Departures.Checked | test-dialogflow-object.js:58-71 | a value comes back iff it is non-empty and the date check accepts it, and it comes back unchanged |
| Departures.CheckedThenZoned | test-dialogflow.js:48-64 | a value comes back iff it is non-empty and valid; it is the text itself exactly when the text holds `+` or `Z`, and the text plus `+07:00` otherwise |
| Departures.SpecificOf | test-dialogflow.js:18-21 | a timestamp is "specific" iff its clock is not `00:00:00` |
| Departures.TimeOfDay | test-dialogflow.js:40 | a time with a colon is cut to a prefix ending before its third colon; a bare hour gets `:00:00` appended; the result holds one colon if the time had one, else two |
| ObjectRevision.Normalize | test-dialogflow-object.js:2-76 | a result is non-empty and valid; a falsy or unsupported value gives null |
| ObjectRevision.ObjectBranch | test-dialogflow-object.js:10-14 | an object gives its `date_time` verbatim when it is non-empty and valid, and null otherwise or without one |
| ObjectRevision.ObjectKeepsNoOffset | test-dialogflow-object.js:10-25 | the same `YYYY-MM-DDTHH:MM:SS` comes back without offset from an object and with `+07:00` as a string |
| ObjectRevision.BareHour | test-dialogflow-object.js:26-33 | `YYYY-MM-DD HH` has no colon, so it gets the whole midnight suffix after the hour |
| ObjectRevision.BareHourChecked | test-dialogflow-object.js:26-33 | through the date check, `YYYY-MM-DD HH` gives `YYYY-MM-DD HHT00:00:00+07:00` or null |
| ObjectRevision.ListChoice | test-dialogflow-object.js:36-56 | for an array: null without candidates, else the last candidate with hour in [5, 22], else the last candidate, then the date check |
| ObjectRevision.DaytimeOf | test-dialogflow-object.js:43-48 | on `YYYY-MM-DDTHH:MM:SS…` the hour filter holds iff `5 <= HH <= 22` |
| ObjectRevision.SpaceForm | test-dialogflow-object.js:26-30 | `YYYY-MM-DD HH:MM:SS`, with or without `.000000`, becomes `YYYY-MM-DDTHH:MM:SS+07:00` |
| ObjectRevision.DateOnly | test-dialogflow-object.js:31-33 | `YYYY-MM-DD` becomes `YYYY-MM-DDT00:00:00+07:00` |
| ObjectRevision.IsoWithoutOffset | test-dialogflow-object.js:20-24 | an ISO timestamp without offset gets `+07:00` |
| ObjectRevision.IsoWithOffset | test-dialogflow-object.js:20-25 | an ISO timestamp ending in `+07:00` is kept unchanged |
| ObjectRevision.PicksMorningOverNight | test-dialogflow-object.js:43-52 | a last candidate at 07:00 wins over any two earlier candidates |
| ObjectRevision.ScriptObjectCase | test-dialogflow-object.js:78-81 | `{date_time: '2025-11-24T07:00:00+07:00'}` gives that string |
| ObjectRevision.ScriptIsoCase | test-dialogflow-object.js:83-86 | `2025-11-24T07:00:00+07:00` is returned unchanged |
| ObjectRevision.ScriptSpaceCase | test-dialogflow-object.js:88-91 | `2025-11-24 07:00:00` gives `2025-11-24T07:00:00+07:00` |
| ObjectRevision.ScriptArrayCase | test-dialogflow-object.js:93-100 | of 23:00, 00:00 and 07:00 the 07:00 timestamp is chosen |
| StringRevision.Normalize | test-dialogflow-string.js:3-52 | a result is non-empty and valid; anything but a string gives null |
| StringRevision.AgreesWithObjectRevision | test-dialogflow-string.js:10-31 | on every string this revision and the object revision give the same result |
| StringRevision.ScriptNoOffsetCase | test-dialogflow-string.js:61-64 | `2025-11-24T07:00:00` gives `2025-11-24T07:00:00+07:00` |
| StringRevision.ScriptMicrosCase | test-dialogflow-string.js:71-74 | `2025-11-24 07:00:00.000000` gives `2025-11-24T07:00:00+07:00` |
| StringRevision.ScriptDateOnlyCase | test-dialogflow-string.js:76-79 | `2025-11-24` gives `2025-11-24T00:00:00+07:00` |
| StringRevision.ScriptEarlyMorningCase | test-dialogflow-string.js:86-89 | `2025-12-01 05:15:30` gives `2025-12-01T05:15:30+07:00` |
| LastSpecificRevision.Normalize | test-dialogflow.js:3-69 | a result is valid itself, or is valid text plus `+07:00`; it always carries `+` or `Z`; falsy values and objects give null |
| LastSpecificRevision.BareHour | test-dialogflow.js:34-41 | `YYYY-MM-DD HH`, a date and a bare hour, becomes `YYYY-MM-DDTHH:00:00+07:00` |
| LastSpecificRevision.BareHourChecked | test-dialogflow.js:34-61 | through the date check, `YYYY-MM-DD HH` gives `YYYY-MM-DDTHH:00:00+07:00` or null |
| LastSpecificRevision.ListChoice | test-dialogflow.js:8-32 | for an array: null without candidates, else the last non-midnight candidate, else the last candidate, then check and zone |
| LastSpecificRevision.LastSpecificChosen | test-dialogflow.js:18-26 | when the last candidate is not midnight, it is the one handed to the date check |
| LastSpecificRevision.SpaceForm | test-dialogflow.js:34-41 | `YYYY-MM-DD HH:MM:SS`, with or without `.000000`, becomes `YYYY-MM-DDTHH:MM:SS+07:00` |
| LastSpecificRevision.DateOnly | test-dialogflow.js:42-45 | `YYYY-MM-DD` becomes `YYYY-MM-DDT00:00:00+07:00` |
| LastSpecificRevision.KeptWithT | test-dialogflow.js:42-44 | text without a space that holds `T` is kept as it is |
| LastSpecificRevision.IsoForm | test-dialogflow.js:42-44 | an ISO timestamp with or without `+07:00` is built unchanged |
| LastSpecificRevision.PicksLastSpecific | test-dialogflow.js:18-26 | a valid specific last candidate is the result, whatever precedes it |
| LastSpecificRevision.PicksLastAfterObject | test-dialogflow.js:18-26 | behind a range object and two ISO-like strings, a specific last timestamp is chosen |
| LastSpecificRevision.ScriptDialogflowCase | test-dialogflow.js:75-85 | the Dialogflow array gives `2025-11-08T07:00:00+07:00` |
| LastSpecificRevision.OnlyCandidate | test-dialogflow.js:27-30 | a lone non-specific candidate with an offset is returned when valid |
| LastSpecificRevision.LoneMidnight | test-dialogflow.js:27-30 | behind a range object, a lone valid midnight timestamp is returned |
| LastSpecificRevision.ScriptOnlyMidnightCase | test-dialogflow.js:91-99 | `[range, 2025-11-24T00:00:00+07:00]` gives that midnight |
| LastSpecificRevision.ScriptManyTimesCase | test-dialogflow.js:105-114 | of 14:00, 07:00 and 09:30 the last, 09:30, is chosen |
| LastSpecificRevision.ScriptMicrosCase | test-dialogflow.js:120-124 | `2025-11-24 07:00:00.000000` gives `2025-11-24T07:00:00+07:00` |
| FirstSpecificRevision.Normalize | test-format.js:3-57 | a result is valid itself, or is valid text plus `+07:00`; it always carries `+` or `Z`; falsy values and objects give null |
| FirstSpecificRevision.ListChoice | test-format.js:8-21 | for an array: null without candidates, else the first non-midnight candidate, else the last candidate, then check and zone |
| FirstSpecificRevision.AgreesOnStrings | test-format.js:22-33 | on strings this revision equals the test-dialogflow.js revision |
| FirstSpecificRevision.AgreesWithOneSpecific | test-format.js:14-20 | when at most one candidate is specific, this revision equals the test-dialogflow.js revision on arrays |
| FirstSpecificRevision.PicksFirstSpecific | test-format.js:14-20 | a valid specific first candidate is the result, whatever follows it |
| FirstSpecificRevision.PicksFirstAfterObject | test-format.js:14-20 | behind a range object, a first specific timestamp wins over later ones |
| FirstSpecificRevision.ScriptDialogflowCase | test-format.js:88-99 | the test 5 array gives `2025-11-07T23:00:00+07:00`, which differs from the expected 07:00 |
| FirstSpecificRevision.TwoMidnights | test-format.js:20 | with two midnight candidates, the later one is returned |
| FirstSpecificRevision.ScriptMidnightsCase | test-format.js:101-110 | `[2025-11-08 midnight, 2025-11-09 midnight]` gives the 2025-11-09 one |
| FirstSpecificRevision.SpaceStamp | test-format.js:23-29 | `YYYY-MM-DD HH:MM:SS`, with or without `.000000`, gives `YYYY-MM-DDTHH:MM:SS+07:00` when valid |
| FirstSpecificRevision.ScriptMicrosCase | test-format.js:60-65 | `2025-11-24 07:00:00.000000` gives `2025-11-24T07:00:00+07:00` |
| FirstSpecificRevision.ScriptDateOnlyCase | test-format.js:67-72 | `2025-11-24` gives `2025-11-24T00:00:00+07:00` |
| FirstSpecificRevision.ScriptSecondsCase | test-format.js:74-79 | `2025-11-24 14:30:45` gives `2025-11-24T14:30:45+07:00` |
| FirstSpecificRevision.ScriptMorningCase | test-format.js:81-86 | `2025-12-01 09:15:00` gives `2025-12-01T09:15:00+07:00` |
| Revisions.SpaceFormEverywhere | test-dialogflow-string.js:22-26 | all four revisions map `YYYY-MM-DD HH:MM:SS[.000000]` to the same `…T…+07:00`, or all give null |
| Revisions.DateOnlyEverywhere | test-dialogflow-string.js:28-30 | all four revisions map `YYYY-MM-DD` to its midnight, or all give null |
| Revisions.IsoWithoutOffsetEverywhere | test-dialogflow.js:52-61 | all revisions answer `…+07:00` for an offset-less ISO timestamp; the object and string revisions validate it with the offset, the other two without |
| Revisions.BareHourDiverges | test-dialogflow.js:37-41 | on `YYYY-MM-DD HH` the object and string revisions give `YYYY-MM-DD HHT00:00:00+07:00` while the test-dialogflow.js and test-format.js revisions give `YYYY-MM-DDTHH:00:00+07:00`, each or null |
| IsoDate.StampValid | test-dialogflow-object.js:64-68 | a valid date, `T`, a valid `HH:MM:SS` and a valid zone make a valid date-time string |
| Locations.Lookup | api/webhook.js:316 | `LOCATION_MAP[k]` is defined iff some entry has key `k`, and then it is that entry's id |
| Locations.Put | api/webhook.js:262 | assignment keeps every key's position and appends a new key at the end |
| Locations.PutLookup | api/webhook.js:262 | after `m[k] = v`, `k` reads `v` and every other key reads as before |
| Locations.PutKeepsShape | api/webhook.js:262 | assignment keeps keys distinct and ids non-zero |
| Locations.PutAll | api/webhook.js:273-275 | `keys.forEach(key => m[key] = id)` keeps keys distinct, ids non-zero and existing key order |
| Locations.PutAllLookup | api/webhook.js:273-275 | after the loop, the listed keys read the id and other keys are untouched |
| Locations.Aliases | api/webhook.js:262-285 | a record registers its lower-cased name, the trimmed base before `-`, and each synonym group iff its marker occurs in the name; nothing else |
| Locations.Synonyms | api/webhook.js:273-285 | each synonym group is registered iff its marker (`miền đông`, `giáp bát`, `điện biên` or `dien bien`, `an giang`) occurs in the lower-cased name, and no other synonym is |
| Locations.RegisterLookup | api/webhook.js:258-286 | after one usable record, each of its aliases reads its id and every other key reads as before |
| Locations.Build | api/webhook.js:257-287 | the built map has distinct keys and non-zero ids |
| Locations.BuildLookup | api/webhook.js:257-287 | each key of the built map reads the id of the last record that registers it (later records overwrite) |
| Locations.FirstThrow | api/webhook.js:258-262 | the first record whose truthy name is not a string (its `toLowerCase` throws), or the end |
| Locations.RefreshOutcome | api/webhook.js:305-313 | a fresh cache is left alone; a good reload holds exactly the catalog's map stamped `now`; a failed one holds exactly the fallback map with the old stamp |
| Locations.FreshWithinAnHour | api/webhook.js:305-307 | within 3 600 000 ms of a non-zero stamp, a non-empty map is reused |
| Locations.FallbackInheritsStamp | api/webhook.js:257-312 | an empty catalog load stamps an empty map; the reload it forces, when it fails, gives the fallback map that stamp, and the next refresh within the hour leaves it alone |
| Locations.RefreshKeepsShape | api/webhook.js:305-313 | every refresh keeps keys distinct and ids non-zero |
| Locations.FirstOverlap | api/webhook.js:319-323 | the index of the first entry whose key contains the query or is contained in it |
| Locations.Match | api/webhook.js:315-326 | a truthy exact hit wins; else the id of the first overlapping entry in property order; null iff neither exists; a result is always some entry's id |
| Locations.ScanOverlaps | api/webhook.js:319-323 | the loop returns the id of the first entry whose key overlaps the query, or null when none does |
| Locations.BuildFirstKey | api/webhook.js:257-265 | the first key of the built map is the lower-cased name of the first record when that record is usable |
| Locations.PartialMatchesFirstRecord | api/webhook.js:315-323 | a non-key query overlapping the first record's name resolves to the id that name holds, that of the last record registering it |
| Locations.BlankQuery | api/webhook.js:315-323 | a whitespace-only name resolves to the first entry's id |
| Locations.FallbackIds | api/webhook.js:226-231 | the fallback map resolves `điện biên` and `dien bien` to 22 and `an giang` to 8 |
| Locations.FallbackShape | api/webhook.js:226-231 | the fallback map has distinct keys and non-zero ids |
| Locations.BuiltMatch | api/webhook.js:257-317 | on a registered key, the resolver answers the id of the last record registering it |
| Locations.MienDongMeansSaigon | api/webhook.js:272-274 | a record `bến xe miền đông` makes `sài gòn` resolve to its id |
| Locations.PropertyAsWritten | api/webhook.js:315 | `LOCATION_MAP[q]` also reads the lower-case members of `Object.prototype` when `q` is not an own key |
| Locations.PrototypeLeak | api/webhook.js:315-316 | `Constructor` returns the inherited `constructor` function as an id; `Match` returns an id of the map or null |
| Locations.LocationCache.constructor | api/webhook.js:221-222 | the map starts empty and the stamp null |
| Locations.LocationCache.Load | api/webhook.js:239-297 | the new map and stamp, and the flag, are those of `Loaded` |
| Locations.LocationCache.Refresh | api/webhook.js:305-313 | the new state is `Refreshed` of the old one |
| Locations.LocationCache.Resolve | api/webhook.js:302-327 | an empty name gives null and changes nothing; otherwise the state is refreshed and the id is `Match` of the trimmed, lower-cased name |
| Fulfillment.Unwrap | api/webhook.js:398-400 | an object's non-empty `original` string replaces it, otherwise the object stays; a string stays itself; a missing parameter stays missing |
| Fulfillment.WebhookDeparture | api/webhook.js:332-344 | a falsy or non-string time gives null; a non-empty string gives the engine's conversion of the line-335 text |
| Fulfillment.WebhookDepartureOfDialogflow | api/webhook.js:332-344 | `YYYY-MM-DD HH:MM:SS[.000000]` is converted from `YYYY-MM-DDTHH:MM:SS+07:00` |
| Fulfillment.DepartureTextOfDialogflow | api/webhook.js:335 | `YYYY-MM-DD HH:MM:SS[.000000]` becomes `YYYY-MM-DDTHH:MM:SS+07:00` before the conversion |
| Fulfillment.DepartureTextAgrees | api/webhook.js:335 | on that input the webhook builds the same text as the test-dialogflow.js revision |
| Fulfillment.OffsetTwice | api/webhook.js:335 | a timestamp already ending in `+07:00` gets a second offset, and the result is not a valid date-time string |
| Fulfillment.SeatsText | api/webhook.js:451 | a missing or zero seat count shows `0`; a positive count shows its decimal digits without leading zero, which parse back to it; a negative one shows `-` and its magnitude |
| Fulfillment.Entry | api/webhook.js:446-459 | a trip's entry starts with its number and the operator, or `Nhà xe không xác định`, and ends with the seats line, the rating line and the booking link with `tripId`; a null trip gives the error line |
| Fulfillment.RatingLine | api/webhook.js:452-454 | the rating line is present iff the rating is above 0 |
| Fulfillment.When | api/webhook.js:444 | the ` vào …` part is present iff `thoiGian` is truthy |
| Fulfillment.Remainder | api/webhook.js:461 | `... và N chuyến khác.` with N = length − 5, present iff there are more than 5 trips |
| Fulfillment.EntriesPrefix | api/webhook.js:443-445 | the first k entries depend only on the first k trips |
| Fulfillment.OnlyFiveShown | api/webhook.js:443 | with more than 5 trips, the entries are exactly those of the first five |
| Fulfillment.RenderListing | api/webhook.js:442-461 | the text appended trip by trip equals the listing: header, first `min(n, 5)` entries numbered from 1, remainder line |
| Fulfillment.ErrorText | api/webhook.js:469-474 | no HTTP answer gives the generic apology; an HTTP error gives `Lỗi server: ` followed by the body's `message` when non-empty, else the error's own message |
| Fulfillment.AfterLookups | api/webhook.js:413-464 | status 200, the state is not changed further, and a search is posted iff both ids are truthy |
| Fulfillment.Served | api/webhook.js:397-466 | every path of the `TimVeXe` intent answers with status 200 |
| Fulfillment.OnlyPost | api/webhook.js:380-383 | status 405 iff the method is not POST, and then nothing is posted or changed |
| Fulfillment.OtherIntent | api/webhook.js:395-397 | any other intent keeps the default text, posts nothing and changes no state |
| Fulfillment.MissingPlace | api/webhook.js:406-408 | a missing or empty origin or destination gives the prompt before any lookup |
| Fulfillment.TwoNames | api/webhook.js:410-429 | both lookups run; a search with the two ids, `on_sell` and the converted date is posted iff both are truthy, and then the reply is the text for the search's outcome (listing, no trips, server message or apology); otherwise the reply names the origin if it failed, else the destination |
| Fulfillment.BothLooked | api/webhook.js:406-411 | with two non-empty names, the handler looks up the origin on the refreshed map, then the destination on the map refreshed again, and continues with both results |
| Fulfillment.Resolved | api/webhook.js:413-429 | a posted search carries the two ids, `on_sell` and the converted date, and the reply is the text for the search's outcome; an unresolved origin is named in the reply, else an unresolved destination |
| Fulfillment.ObjectPlace | api/webhook.js:410 | an object-valued origin throws after its reload check: the generic apology and nothing posted |
| Fulfillment.ResolvedIsTruthy | api/webhook.js:413 | on a map with non-zero ids, every id the resolver finds is truthy |
| Fulfillment.ReplyToSearch | api/webhook.js:442-472 | trips give the listing; an empty or non-array payload gives the "no trips" text; an HTTP error shows `Lỗi server: ` and the body's non-empty `message` or else the error's message; no answer gives the generic apology |
| Fulfillment.RenderReply | api/webhook.js:442-472 | the reply text the method builds is the listing, the "no trips" text or the error text that the search outcome calls for |
| Fulfillment.LookupOn | api/webhook.js:302-327 | the lookup's new state and result are `LookupValue` of the old state |
| Fulfillment.Answer | api/webhook.js:413-464 | the text and posted search are those of `AfterLookups` |
| Fulfillment.Handle | api/webhook.js:379-475 | the status, text, posted search and new cache state are those of `Respond` on the old state |

## Left out

- Network I/O is not modelled: axios, the retry policy, timeouts and the ngrok header. The catalog fetch is the input `Catalog`, and the search answer is the input `Search`.
- Trip searches are not executed. A single search outcome stands for whatever the backend answers to the posted request.
- `Date.now()` is the parameter `now`. The handler passes the same `now` to both lookups, whereas the source reads the clock twice.
- `formatTime`, `formatPrice` and `averageRating.toFixed(1)` are opaque function parameters. They depend on the engine's locale data and on floating point.
- `new Date(s)` validity is the parameter `valid`. The webhook's `toISOString()` conversion is the parameter `toIso`.
- `toLowerCase` maps only ASCII, Latin-1 and the precomposed Vietnamese capitals, not the whole Unicode table.
- JavaScript objects list integer-like keys first. `Put` keeps insertion order for every key. Assigning to a `__proto__` key is not modelled.
- Locations.LocationCache.Resolve, Fulfillment.Handle: the handler resolves names with the own-keys `Match`, not `MatchAsWritten`. So for `Constructor` and `__proto__` (on a map without such own keys) they do not return the inherited `Object.prototype` member that line 317 reads, and the handler does not post a search for them. The as-written lookup is stated separately by `Locations.PropertyAsWritten` and `Locations.PrototypeLeak`.
- ObjectRevision.ObjectBranch: a `date_time` can only be a string or missing (`Departure.Record(dateTime: Option<string>)`). A truthy non-string `date_time`, such as a number that `new Date` accepts, is taken as is by lines 10-11 and returned unchanged at line 70; the model has no input for that case.
- A location name that is a truthy non-string is not modelled beyond making the load stop. Such a record's `toLowerCase` throws, so the load is abandoned with the map half-built and the stamp unchanged.
- A location id that is a truthy non-number is not modelled: ids are integers, and a falsy id is 0.
- Payload selection (`result || data || body`) is not modelled: the search and catalog inputs are the selected payload. A string payload (which has a `length`) is not modelled.
- Fulfillment.Entry: an `averageRating` that is a numeric string would pass `> 0` and then throw in `toFixed`, leaving half an entry. The model's rating is a number, so this is not captured.
- Fulfillment.Entry: the contract states the first line and the closing seats, rating and booking-link lines. The time and price lines between them are formatter output and are stated by the body alone.
- Fulfillment.Entry: a missing `tripId` renders as `undefined` in the link. The model's id is a string.
- Departures.Candidates: its own contract states membership only. The order and repeats of the filter are stated by `Departures.CandidatesSnoc` and `Departures.CandidatesAppend`.
- A request whose `parameters` is missing with intent `TimVeXe` throws, and this is not modelled separately. `Malformed` covers only a missing `queryResult` or `intent`.
- Concurrent requests racing on the module-level cache are not modelled. The model is sequential.
- Logging (`console.log`/`console.error`) and the PASS/FAIL printing of the test scripts are not modelled.
- The commented-out earlier revision of the webhook (`api/webhook.js:1-211`) is not modelled.
- `webhook.js` (a thin GET handler) and `api/index.js` (a status endpoint) are not part of this model.

## Findings

| source | as written | input that shows it | evidently intended | confidence | as-written member | corrected member |
|---|---|---|---|---|---|---|
| test-format.js:14-20 | `candidates.find(…)` takes the first non-midnight candidate | the test 5 array `[range, 2025-11-07T23:00:00+07:00, 2025-11-08T00:00:00+07:00, 2025-11-08T07:00:00+07:00]` gives `2025-11-07T23:00:00+07:00` | `2025-11-08T07:00:00+07:00`, as the assertion at line 99 expects and the later test-dialogflow.js revision returns | high (not executed) | FirstSpecificRevision.ScriptDialogflowCase | LastSpecificRevision.ScriptDialogflowCase |
| api/webhook.js:315-317 | `LOCATION_MAP[normalized]` also reads inherited members of `Object.prototype` | the place name `Constructor` on any map without a `constructor` key returns the `Object` constructor function as the location id | only the map's own keys are looked up, so the id is one of the map's ids, or null | high (not executed) | Locations.PrototypeLeak | Locations.Match |
