# HAR recorder core, modelled in Dafny

This project models the computational core of a command-line HAR (HTTP Archive) recorder. The
recorder drives a browser, saves the traffic as a HAR 1.2 file, and prints a statistics report.
The model has three parts:

- **The statistics pass** (`har_stats.dfy`, module `HarStats`). It covers `getResourceType`, the
  classifier that maps a MIME type to one of eight categories, and `calculateMetrics`, the single
  `forEach` pass over `log.entries`. The pass accumulates the request, byte and time totals, the
  success and failure counts, the per-type, per-status and per-hostname dictionaries, and the six
  timing-phase totals. It also keeps two bounded top-5 arrays (slowest and largest requests).
  The report's "top domains" selection is modelled too.
  - The pass is a `while` loop in `TallyAll`. It calls `Visit`, the body of the `forEach`
    callback, on every entry. `Visit` is the counting part (`Count`, with `TallyType`,
    `TallyStatus` and `TallyDomain` for the three dictionaries) followed by the ranking part
    (`RankEntry`). `CalculateMetrics` runs the loop and reverses the arrays.
  - Each dictionary update (`AddToTypeBucket`, `AddToStatusBucket`, `AddToDomainBucket`) assigns
    the grown bucket in one step. The source creates a zero bucket and then increments its fields;
    the end state is the same for every key that is not the name of an `Object.prototype` member.
    For such a hostname the source's update differs (see "## Findings"), and the pass uses the
    corrected update.
  - Each loop step is proved against reference aggregates over the entries seen so far (`Total`,
    `CountOf`, `TypeBucket`, `StatusBucket`, `DomainBucket`, `PhaseTotal`, and `TopSoFar` for the
    arrays). The final metrics satisfy `Describes`.
  - The top-5 update (push, stable sort, shift) is the method `Offer`. It is proved equal to the
    function `Offered`. The lemmas then show that the array always holds the largest values seen.
    Records are counted with multiplicity: when two entries give equal records and only one copy
    is kept, the discarded copy is bounded like any other record left out.
- **The shared helpers** (`constants.dfy`, module `Constants`). These are the `BROWSER_CONFIGS`
  table, the fixed-capacity `SimpleCache` with first-in first-out eviction (a `class` whose `cache`
  field is an insertion-ordered dictionary), `trim` and `formatUrl`, and the two helpers memoised
  through the shared cache. A coherence invariant shows that memoisation never changes a result.
- **HAR file naming** (`input.dfy`, module `Input`). This is `generateHarPath`, with the ISO-8601
  clock text and the directory join as parameters.

Supporting modules:

- `OrderedDict` is the insertion-ordered dictionary behind JavaScript objects and `Map`.
  Assigning to a present key overwrites in place; a new key goes last.
- `JsArray` holds the stable sort of `Array.prototype.sort` (stable since ECMAScript 2019),
  written as insertion sort, and `reverse`.
- `JsObject` lists the property names every plain object inherits from `Object.prototype`.
- `Wrappers` defines `Option`, whose `GetOr` stands for the source's `x || 0` defaults.

## Model

| member | source | states |
|---|---|---|
| HarStats.FirstMatchIsFirst | src/utils/stats.js:11-21 | the table-driven classifier yields `Other` exactly when no pattern occurs, and otherwise the category of the first pattern that occurs |
| HarStats.GetResourceType | src/utils/stats.js:11-21 | the if-chain classifier; its meaning is stated by ResourceTypeIsFirstMatch, which equates it with the rule-table classifier FirstMatch |
| HarStats.ResourceTypeIsFirstMatch | src/utils/stats.js:11-21 | `getResourceType` gives `other` for a missing MIME type, and otherwise the category of the first of `text/html`, `text/css`, `javascript`, `image`, `font`, `video`, `audio` contained in it (the empty string contains none) |
| HarStats.SuccessFailureBound | src/utils/stats.js:64-68 | success (2xx) and failure (>= 400) are disjoint, so together they count at most every entry, with equality exactly when every status is in one of the two ranges |
| HarStats.AddToTypeBucket | src/utils/stats.js:71-76 | the bucket of the type is created as zero when missing and then gains one request and the entry's size; no other bucket changes; the count sum grows by one and the size sum by the size |
| HarStats.AddToStatusBucket | src/utils/stats.js:79-82 | the status counter is created as zero when missing and then incremented; no other code changes; the counts' sum grows by one |
| HarStats.AddToDomainBucket | src/utils/stats.js:97-102 | the host's bucket is created when missing and then gains one request, the size and the time; no other host changes; the counts' sum grows by one |
| HarStats.AddToDomainBucketAsWritten | src/utils/stats.js:97-102 | the update as written agrees with the corrected one for every host that is not an inherited `Object.prototype` name |
| HarStats.InheritedHostnameIsDropped | src/utils/stats.js:97-102 | as written, a request to host `constructor` leaves the domain counts at zero; the corrected update gives it a bucket of one request |
| HarStats.AggregatesSnoc | src/utils/stats.js:54-91 | one more entry adds its size (absent = 0), time (absent = 0), success or failure, and each timing phase (absent = 0) to the running totals |
| HarStats.TypeBucketOfEntry | src/utils/stats.js:71-76 | the bucket of the entry's type, one entry later, is the old bucket (zero when missing) plus one request and the entry's size |
| HarStats.TypeTableAfter | src/utils/stats.js:71-76 | any dictionary that grows the entry's type bucket as the update does, and changes nothing else, is exactly the per-type count and size over the entries seen plus the new one |
| HarStats.StatusBucketOfEntry | src/utils/stats.js:79-82 | the counter of the entry's status, one entry later, is the old counter (zero when missing) plus one |
| HarStats.StatusTableAfter | src/utils/stats.js:79-82 | any dictionary that increments the entry's status counter and changes nothing else is exactly the per-code count over the entries seen plus the new one, summing to the request count |
| HarStats.DomainBucketOfEntry | src/utils/stats.js:94-102 | the bucket of the entry's hostname, one entry later, is the old bucket (zero when missing) plus one request, the size and the time |
| HarStats.DomainTableAfter | src/utils/stats.js:94-102 | any dictionary that grows the entry's host bucket as the update does, and changes nothing else, is exactly the per-host count, size and time over the parsed entries seen plus the new one |
| HarStats.DomainTableUnparsed | src/utils/stats.js:94-105 | an entry whose URL does not parse leaves the domain dictionary exact as it stands |
| HarStats.TallyType | src/utils/stats.js:71-76 | the type part of the callback keeps the type dictionary exact for the entries seen |
| HarStats.TallyStatus | src/utils/stats.js:79-82 | the status part of the callback keeps the status dictionary exact for the entries seen |
| HarStats.TallyDomain | src/utils/stats.js:94-105 | the domain part of the callback keeps the domain dictionary exact for the entries seen, skipping an entry whose URL does not parse |
| HarStats.ToRecord | src/utils/stats.js:108-113 | a top-5 record keeps the first min(60, length) characters of the URL, and the entry's time, size and status |
| HarStats.Offer | src/utils/stats.js:114-118 | push, stable sort and shift give exactly `Offered`: admission when fewer than five, or when strictly above element 0 |
| HarStats.OfferKeepsTop | src/utils/stats.js:114-118 | after each offer the array has min(5, n) records, sorted ascending, drawn from the entries' records (all of them while at most five), and no record left out is larger than element 0, counting repeated records with multiplicity (a record occurring more often among the entries than in the array is left out) |
| HarStats.OfferWhileFilling | src/utils/stats.js:114-116 | while fewer than five are kept, every record seen is kept, in ascending order |
| HarStats.InsertAfterMinimum | src/utils/stats.js:115-117 | dropping element 0 of a sorted array and inserting a record gives a sorted array holding exactly the other old elements and the record |
| HarStats.MinimumDoesNotDrop | src/utils/stats.js:114-117 | when a record strictly above element 0 displaces it, the new element 0 is no smaller than the old one |
| HarStats.LeftOutStayBelow | src/utils/stats.js:114-117 | after that exchange, no record occurring more often among the candidates than in the array (so a discarded copy of a kept record too) is larger than its new element 0 |
| HarStats.OfferAdmits | src/utils/stats.js:114-117 | on a full array, a record strictly above element 0 replaces element 0 and the invariant holds |
| HarStats.OfferRejects | src/utils/stats.js:114 | on a full array, a record not strictly above element 0 is dropped and the invariant holds |
| HarStats.TopSoFarReversed | src/utils/stats.js:135-136 | reversing the final ascending array gives min(5, n) records in non-increasing order, drawn from the entries' records, none smaller than a record left out, counted with multiplicity |
| HarStats.LeftOutBelowReversed | src/utils/stats.js:135-136 | in the reversed array, every kept record's key is at least that of any record occurring more often among the entries than in the array |
| HarStats.AddPhases | src/utils/stats.js:85-91 | each of the six phase totals grows by that phase of the entry, 0 when the phase or the whole `timings` object is absent |
| HarStats.RankEntry | src/utils/stats.js:107-131 | one entry keeps both top-5 arrays correct for the entries seen |
| HarStats.Count | src/utils/stats.js:54-105 | the counting part of the callback keeps the totals, the success and failure counts, the phase totals and the three dictionaries exact for the entries seen, and leaves the arrays alone |
| HarStats.Visit | src/utils/stats.js:53-132 | the callback turns tallies that summarise the entries seen into tallies that summarise them plus the new entry |
| HarStats.SummarizesNothing | src/utils/stats.js:27-50 | the initial metrics object summarises the empty sequence of entries |
| HarStats.FinishDescribes | src/utils/stats.js:134-138 | reversing the arrays turns the final tallies into metrics that describe all the entries |
| HarStats.Finish | src/utils/stats.js:134-138 | the published arrays have the same length and the same records as the final ascending arrays |
| HarStats.TallyAll | src/utils/stats.js:53-132 | after the `forEach`, the tallies summarise every entry |
| HarStats.CalculateMetrics | src/utils/stats.js:26-139 | the metrics give the request count, the size and time totals, the success and failure counts, the exact type, status and domain tables, the six phase totals, and the top-5 slowest and largest arrays |
| HarStats.MetricsConserveRequests | src/utils/stats.js:28-105 | type counts and status counts each add up to the request count, type sizes to the total size, domain counts to at most the request count, and success plus failure to at most the request count |
| HarStats.TopDomains | src/utils/stats.js:234-236 | `slice(0, 5)` keeps at most five domains; the ranking is stated by TopDomainsRanked and TopDomainsBusiest |
| HarStats.TopDomainsRanked | src/utils/stats.js:234-236 | the top domains are min(5, number of domains) entries of the dictionary, in non-increasing order of count |
| HarStats.TopDomainsBusiest | src/utils/stats.js:234-236 | no domain left out of the top domains has a larger count than one kept |
| JsArray.Insert | src/utils/stats.js:115-116 | pushing one item and stable-sorting a sorted array adds exactly that item |
| JsArray.InsertKeepsSorted | src/utils/stats.js:115-116 | the result of the insertion is sorted by the key |
| JsArray.InsertMembers | src/utils/stats.js:115-116 | after the insertion the array holds exactly the old elements and the new one |
| JsArray.SortBy | src/utils/stats.js:235 | the stable sort yields a sorted permutation of its input |
| JsArray.InsertMaximal | src/utils/stats.js:115-116 | an item no smaller than any present goes last, after equal keys, which is the stable order |
| JsArray.SortBySorted | src/utils/stats.js:116 | sorting an already sorted array leaves it as it is |
| JsArray.SortedPrefixHasLeastKeys | src/utils/stats.js:235-236 | in a sorted array, an element outside the first `n` has a key no smaller than any of them |
| JsArray.Reversed | src/utils/stats.js:135-136 | the reversed array has the same length with positions mirrored |
| JsArray.ReversedSameElements | src/utils/stats.js:135-136 | reversing keeps exactly the same elements |
| JsArray.ReversedDescends | src/utils/stats.js:135-136 | reversing an ascending array gives a non-increasing one |
| OrderedDict.Lookup | src/utils/constants.js:149-151 | a lookup finds a value exactly when the key is present, and the value is the one stored with it |
| OrderedDict.LookupFound | src/utils/constants.js:149-151 | a value found under a key is stored in the dictionary with that key |
| OrderedDict.Put | src/utils/constants.js:158 | assignment overwrites a present key in place and appends a new key last; afterwards the key maps to the value and every other key is unchanged |
| OrderedDict.PutPairs | src/utils/constants.js:158 | assignment brings in no key-value pair other than the assigned one |
| OrderedDict.DropOldest | src/utils/constants.js:155-156 | deleting the first key removes that key and nothing else |
| OrderedDict.PutKeepsDistinct | src/utils/constants.js:158 | assignment never duplicates a key |
| OrderedDict.SumByPut | src/utils/stats.js:75-76 | the sum over the values moves by the new value minus the replaced one |
| Constants.BrowserConfigFor | src/utils/constants.js:27-31 | choices `2` and `3` select Edge and Firefox, and every other choice, `''` included, selects Chrome |
| Constants.BrowserConfigAsWritten | src/utils/constants.js:181 | as written, the lookup gives an inherited `Object.prototype` member exactly for those names, and otherwise agrees with the corrected lookup |
| Constants.InheritedChoiceEscapesDefault | src/utils/constants.js:181 | the choice `constructor` yields the inherited member as written, and Chrome once corrected |
| Constants.Capacity | src/utils/constants.js:153-158 | the size bound is `maxSize` when it is at least 1, and 1 otherwise |
| Constants.Evict | src/utils/constants.js:154-157 | eviction removes the first-inserted entry or nothing, and from a cache within capacity it always leaves room for one more entry |
| Constants.SetEntry | src/utils/constants.js:153-159 | after `set`, the key maps to the value |
| Constants.SetKeepsCapacity | src/utils/constants.js:153-158 | `set` keeps the keys distinct and the size within `maxSize` (at least 1) |
| Constants.SetWhenFullEvictsOldest | src/utils/constants.js:154-158 | on a full cache, `set` removes the oldest key and no other, even when the key is already present; the key order is the old one without its first key, plus the key when it is new |
| Constants.OverwriteWhenFullShrinks | src/utils/constants.js:154-158 | overwriting a key other than the oldest in a cache of exactly `maxSize` entries leaves `maxSize - 1` entries |
| Constants.SetBelowCapacity | src/utils/constants.js:153-159 | below capacity, `set` evicts nothing: an existing key keeps its position and a new key goes last |
| Constants.SimpleCache.constructor | src/utils/constants.js:144-147 | a new cache is empty with the given `maxSize` |
| Constants.NewGlobalCache | src/utils/constants.js:171 | the shared cache starts empty, with room for 100 entries |
| Constants.SimpleCache.Get | src/utils/constants.js:149-151 | `get` finds a value exactly when the key is present, and it is the stored one |
| Constants.SimpleCache.Has | src/utils/constants.js:161-163 | `has` holds exactly when `get` finds a value |
| Constants.SimpleCache.Set | src/utils/constants.js:153-159 | `set` keeps the cache within capacity and makes `has(key)` hold with `get(key)` returning the value |
| Constants.SimpleCache.Clear | src/utils/constants.js:165-167 | after `clear`, `has` is false for every key |
| Constants.LeadingSpace | src/utils/constants.js:194 | the leading run of whitespace ends at the first non-whitespace character |
| Constants.TrailingSpace | src/utils/constants.js:194 | the trailing run of whitespace starts after the last non-whitespace character |
| Constants.Trim | src/utils/constants.js:194 | the trimmed text is a slice of the input with only whitespace before and after it, and, if non-empty, starts and ends with non-whitespace, which fixes it exactly |
| Constants.TrimOfTrimmed | src/utils/constants.js:194 | text without whitespace at either end is its own trim |
| Constants.TrimIdempotent | src/utils/constants.js:194 | trimming twice is trimming once |
| Constants.FormatUrl | src/utils/constants.js:194-197 | the result starts with `http://` or `https://` (case-sensitive); it is the trimmed input when that already has such a prefix, and `https://` plus the trimmed input otherwise |
| Constants.FormatUrlIdempotent | src/utils/constants.js:194-197 | formatting a formatted URL changes nothing |
| Constants.MemoKeySpacesDisjoint | src/utils/constants.js:177-190 | no `browserConfig_` key equals or starts a `formatUrl_` key, and the other way round |
| Constants.SetKeepsCoherent | src/utils/constants.js:182-198 | storing a helper's own result keeps every cache entry equal to what its helper computes for that key |
| Constants.GetBrowserConfig | src/utils/constants.js:176-184 | the memoised lookup returns the corrected lookup `BrowserConfigFor` (an inherited `Object.prototype` name gets Chrome) whether or not it was cached, and leaves it cached; on a hit the shared cache is unchanged (no reordering), on a miss it is exactly the old cache after one `set` of the new entry, which may evict the oldest entry of either helper |
| Constants.FormatUrlMemo | src/utils/constants.js:189-200 | the memoised `formatUrl` returns the formatted URL whether or not it was cached, and leaves it cached; on a hit the shared cache is unchanged (no reordering), on a miss it is exactly the old cache after one `set` of the new entry, which may evict the oldest entry of either helper |
| Input.DashSeparators | src/utils/input.js:25 | the mapping keeps the length and turns every `:` (and `-`) into `-`, leaving other characters alone |
| Input.DashSeparatorsIdempotent | src/utils/input.js:25 | the mapping leaves no `:`, and applying it twice is applying it once |
| Input.Timestamp | src/utils/input.js:25 | the timestamp has min(19, length) characters; each `:` of the ISO text becomes `-` and every other character is kept |
| Input.DefaultFileName | src/utils/input.js:26 | the default name is 15 characters longer than the timestamp plus the browser name |
| Input.DefaultFileNameParts | src/utils/input.js:25-26 | the default name starts with `recording-`, holds the timestamp at characters 10-28 and the browser name between the following `-` and the closing `.har` |
| Input.DefaultFileNamesDistinguishBrowsers | src/utils/input.js:25-26 | two browsers recording in the same second get different default names |
| Input.GenerateHarPath | src/utils/input.js:20-28 | a non-empty custom name is joined under the HAR directory unchanged; otherwise the default name is |

## Left out

- Reading and parsing the HAR file (`existsSync`, `statSync`, `readFileSync`, `JSON.parse`) is I/O. The entries arrive as a sequence of `Entry` values. The no-op large-file branch and the catch-all warning are left out too.
- The report's console output is left out. This covers `toFixed` rounding, the floating-point percentages and averages, and the division by the request count that gives NaN for an empty file.
- `new URL(url).hostname` is parsing under the WHATWG URL Standard. It is the parameter `hostOf`, and `None` stands for the exception the pass catches.
- JavaScript numbers are modelled as unbounded integers. NaN, fractions and non-numeric fields are not modelled. The `|| 0` defaults treat a missing field and a zero field alike, exactly as the source does. Negative HAR timings (`-1`, "not applicable") are added as they are, as the source adds them.
- The comparators `a.time - b.time` and `b[1].count - a[1].count` become integer keys, and the sort is assumed stable as ECMAScript 2019 requires.
- `url.substring(0, 60)` counts UTF-16 code units. The model counts characters, which differs only for characters outside the Basic Multilingual Plane.
- The status-code dictionary is kept in insertion order. A JavaScript object enumerates integer-like keys in ascending order instead. The core never enumerates that dictionary; only the report does.
- The second effect of an inherited hostname such as `__proto__` is not modelled: the increments are written onto `Object.prototype`. The model only records that the host gets no bucket.
- `SimpleCache` keys compare with `==`, where `Map` uses SameValueZero. When the cache is empty and `maxSize <= 0`, the source deletes `undefined`; the model treats that as a no-op. The constructor's default `maxSize` of 100 is not modelled as a default argument; the shared cache is built with `GlobalCacheSize` (100) explicitly, as the source builds it.
- The module-level `globalCache` is passed to the memoised helpers as a parameter.
- `Date` and `path.join`, and the HAR directory derived from `import.meta.url`, are parameters of `GenerateHarPath`.
- `src/utils/browser.js` is left out: it launches the browser and polls for its close over a foreign library, concurrently.
- `src/cli.js` is left out: prompts, `process.exit`, SIGINT handling and orchestration. Its `fileName.trim() || null` becomes the `Option` argument of `GenerateHarPath`.
- `src/utils/ui.js`, the print helpers, `delay`, `COLORS`, `MESSAGES`, `BROWSER_NAMES` and `SEPARATOR` are left out. They are terminal presentation only.
- `tests/example.spec.js` is left out: it drives a live browser and states nothing about the core.
- HarStats.CalculateMetrics: its contract states the top-5 arrays through `TopK`: length, non-increasing order, records drawn from the entries, and nothing left out (counted with multiplicity) larger than what is kept. The exact order among equal values (later entries first) follows from `Offer`'s contract but is not restated there.
- HarStats.CalculateMetrics: the domain table is the one the corrected update `AddToDomainBucket` builds, not the one the code at `src/utils/stats.js:97-102` builds. The two differ only for a hostname that names an `Object.prototype` member; `AddToDomainBucketAsWritten` models the code as written.
- Constants.GetBrowserConfig: it returns the corrected lookup `BrowserConfigFor`, not the bracket lookup of `src/utils/constants.js:181` as written. The two differ only for a choice that names an `Object.prototype` member; `BrowserConfigAsWritten` models the code as written.

## Findings

| source | as written | input that shows it | evidently intended | confidence | as-written member | corrected member |
|---|---|---|---|---|---|---|
| src/utils/constants.js:181 | The table is read with a bracket lookup on a plain object, so the names every object inherits from `Object.prototype` are found too. Those values are truthy, so the Chrome default is skipped. | The choice `constructor` typed at the browser prompt: the configuration becomes the `Object` function, whose `name` is `Object`. | Every choice other than `1`, `2` and `3` selects Chrome. | high; not executed | Constants.BrowserConfigAsWritten, Constants.InheritedChoiceEscapesDefault | Constants.BrowserConfigFor |
| src/utils/stats.js:97-102 | A domain bucket is created only when the lookup is falsy. For an inherited name the lookup finds the inherited member, so the increments go to that member and no own bucket appears. | A request to `http://constructor/`: the domain statistics do not count it. | Every request with a parsable hostname is counted under that hostname. | high; not executed | HarStats.AddToDomainBucketAsWritten, HarStats.InheritedHostnameIsDropped | HarStats.AddToDomainBucket |
