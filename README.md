# Cloudflare IP ranges for Laravel, modelled in Dafny

This project models the service class `LaravelCloudflare` of the Laravel package
`usesorane/laravel-cloudflare`. The class keeps Cloudflare's published IPv4 and IPv6 range
lists in a key-value cache under three keys: v4, v6 and all. It has four parts:

- **The response parser of `fetchFromEndpoint`** (`line_parsing.dfy`, `fetcher.dfy`). It
  trims the body and splits it on `\r?\n`. It then trims every line and drops blank lines and
  `#` comments. Order is kept and duplicates stay.
  - PHP `trim` is modelled with its default character set: space, tab, LF, CR, NUL and
    vertical tab.
  - `preg_split('/\r?\n/')` is modelled as a split on `\n` that drops one `\r` before each
    separator.
  - The HTTP call becomes its answer: the configured endpoint and the response a GET to it
    returns.
- **The "all" merge** `array_values(array_unique(array_merge($v4, $v6)))`
  (`range_merge.dfy`). It keeps the first occurrence of every string, IPv4 entries first.
- **The cache-aside reads** `ipv4()`, `ipv6()` and `all()` through `remember`.
  - A present key is answered from the store.
  - A missing key runs the closure and stores what it returns.
  - A present non-array value is a PHP `TypeError`, because `remember` is declared to return
    `array`.
- **`refresh()`**. It fetches both families. A family whose fetch came back empty keeps its
  cached list, or `[]` when none is cached. It then writes the v4, v6 and all keys in that
  order, with `forever` when the TTL is null and `put` with the TTL otherwise.

The model has two layers:

- **`cache_model.dfy`** states every operation as a function of the store's contents and
  proves the properties. A refresh never erases a cached family list, it is idempotent, and
  it writes exactly three keys. A cache hit sends no request. A cold `all()` fills all three
  keys.
  - This layer sees only what each family's fetch yields (`Fetches`), never the bodies.
  - `Fetcher.FetchesOf` connects it to the parser.
- **`service.dfy`** holds the class itself.
  - It has the keys and the TTL, a `cache` map that its methods update in place, and a ghost
    log of the GETs it has sent.
  - Each method is proved to leave the store, and to send the requests, that the matching
    `CacheModel` function describes.

The two closures handed to `remember` are represented as data (`Resolver`): fetch one family,
or merge `ipv4()` and `ipv6()`.

`scenarios.dfy` restates the feature tests as lemmas over the responses those tests fake.
Some are about the parser and the fetch alone and involve no cache. The refresh scenarios
hold for every prior cache content and every later network. The cold `all()` scenario holds
for every cache that lacks the three keys.

The package's tests and console commands assume more than the service class implements:

- a `last_good` tier, static fallback lists, and auto-fetch with a rate limit;
- `throw_on_empty`, `cacheInfo`, failed-fetch logging, and a boolean result from `refresh()`.

The source has none of these: `refresh()` is declared `void`, and `remember` and `refresh` read
only the cache. This model follows the source.

## Model

| member | source | states |
|---|---|---|
| LineParsing.Trim | src/LaravelCloudflare.php:123 | The result of trim has no strippable character at either end. |
| LineParsing.TrimBlank | src/LaravelCloudflare.php:123 | The result of trim is empty exactly when the input is all strippable characters. |
| LineParsing.TrimSplits | src/LaravelCloudflare.php:123 | The input is the trimmed text with runs of strippable characters on both sides. |
| LineParsing.TrimAddsNoLineFeed | src/LaravelCloudflare.php:127 | Trimming never introduces a line feed. |
| LineParsing.TrimPadded | src/LaravelCloudflare.php:127 | Padding a trimmed text with strippable characters and trimming it again gives the text back. |
| LineParsing.TrimOfTrimmed | src/LaravelCloudflare.php:127 | Trim leaves an already trimmed string unchanged. |
| LineParsing.TrimIdempotent | src/LaravelCloudflare.php:127 | Trimming twice is the same as trimming once. |
| LineParsing.SplitLines | src/LaravelCloudflare.php:123 | The split gives at least one piece, and no piece holds a line feed. |
| LineParsing.SplitJoin | src/LaravelCloudflare.php:123 | Splitting lines joined by `\n` gives them back, provided no line holds `\n` and no line but the last ends in `\r`. |
| LineParsing.JoinSplit | src/LaravelCloudflare.php:123 | Joining the split pieces with `\n` gives back any text without `\r`. |
| LineParsing.CleanLines | src/LaravelCloudflare.php:126-133 | The map/filter pipeline gives no more entries than lines. Every entry is trimmed, non-empty and not a `#` comment, and no entry holds a line feed when no line does. |
| LineParsing.CleanLinesMembers | src/LaravelCloudflare.php:126-133 | A string survives the map/filter pipeline iff it is the trimmed form of some line and is neither empty nor starts with `#`. |
| LineParsing.CleanLinesKeepsEntries | src/LaravelCloudflare.php:126-133 | Lines that are already parsed entries pass through unchanged, duplicates included. |
| LineParsing.ParseBody | src/LaravelCloudflare.php:123-135 | Every parsed entry is non-empty, trimmed, a single line, and does not start with `#`. |
| LineParsing.TrimDropsCarriageReturn | src/LaravelCloudflare.php:123-127 | Dropping the `\r` of a `\r\n` separator does not change the trimmed line. |
| LineParsing.CleanSplitIgnoresCarriageReturn | src/LaravelCloudflare.php:123-133 | Splitting on `\r?\n` or on a bare `\n` gives the same lines once they are trimmed and filtered. |
| LineParsing.ParseBodyOnLineFeeds | src/LaravelCloudflare.php:123-135 | The parser equals the reference parser that trims, splits on bare `\n`, then trims and filters each line. |
| LineParsing.ParseBodyMembers | src/LaravelCloudflare.php:123-135 | The entries of a body are exactly its trimmed non-blank, non-comment lines. |
| LineParsing.ParseJoinRoundTrip | src/LaravelCloudflare.php:123-135 | Joining any list of entries with `\n` and parsing it gives the list back, order and duplicates included. |
| LineParsing.ParseJoined | src/LaravelCloudflare.php:123-135 | A body without padding, made of lines joined by `\n`, parses to those lines trimmed and filtered. |
| Fetcher.FetchRanges | src/LaravelCloudflare.php:102-135 | A fetch gives `[]` when the endpoint is not a non-empty string or the response is not 2xx. Otherwise it gives the parsed body, and every element is an entry. |
| RangeMerge.DedupeFrom | src/LaravelCloudflare.php:34-37 | array_unique keeps no duplicates and holds exactly the strings of its input not seen before. |
| RangeMerge.Dedupe | src/LaravelCloudflare.php:34-37 | array_unique leaves no duplicates and keeps exactly the strings of its input. |
| RangeMerge.MergeUnique | src/LaravelCloudflare.php:34-37 | The all list has no duplicates and holds exactly the strings of both lists. It is no longer than the two together. |
| RangeMerge.DedupeFromAppend | src/LaravelCloudflare.php:34-37 | De-duplicating a concatenation de-duplicates the second part against the strings of the first. |
| RangeMerge.MergeIpv4First | src/LaravelCloudflare.php:34-37 | The merge is the de-duplicated IPv4 list followed by the IPv6 strings not among the IPv4 strings. |
| RangeMerge.MergeSections | src/LaravelCloudflare.php:93 | The merge's first part holds exactly the IPv4 strings. The rest holds exactly the IPv6 strings that are not IPv4 strings. |
| RangeMerge.DedupeFromDistinct | src/LaravelCloudflare.php:34-37 | A duplicate-free list with no string seen before passes unchanged. |
| RangeMerge.MergeDisjoint | src/LaravelCloudflare.php:93 | Disjoint duplicate-free lists merge to their plain concatenation. |
| RangeMerge.MergeKeepsIpv4Prefix | src/LaravelCloudflare.php:93 | A duplicate-free IPv4 list is an exact prefix of the merge. |
| RangeMerge.DedupeIdempotent | src/LaravelCloudflare.php:34-37 | array_unique applied twice equals applied once. |
| RangeMerge.DedupeIsFirstOccurrences | src/LaravelCloudflare.php:34-37 | array_unique equals the reference that keeps each string whose value does not occur earlier. |
| CacheModel.Put | src/LaravelCloudflare.php:160-169 | A put writes the list under its key, forever iff the TTL is null and for the TTL otherwise, and no other key changes. |
| CacheModel.PutUnchanged | src/LaravelCloudflare.php:160-169 | Writing the entry a key already holds leaves the store unchanged. |
| CacheModel.Hit | src/LaravelCloudflare.php:144-153 | On a hit, remember returns the stored list, or a TypeError for a non-array value. |
| CacheModel.Remember | src/LaravelCloudflare.php:144-153 | A present key is answered from the store with no write and no request. A missing key returns what its resolver returns, after the resolver's GETs. A successful result is stored under the key with the configured lifetime. A failure leaves the store as the resolver left it. |
| CacheModel.Resolve | src/LaravelCloudflare.php:33-37 | The fetch closure writes nothing and returns the family's fetched list after that fetch's GETs (lines 50-52 and 64-66). A successful merge closure returns a list without duplicates. |
| CacheModel.ReadFamily | src/LaravelCloudflare.php:46-67 | ipv4()/ipv6() answer a present key from the store. On a missing key they return the family's fetched list, store it under the key with the configured lifetime, and send that fetch's GETs. |
| CacheModel.ReadAll | src/LaravelCloudflare.php:29-39 | all() answers a present key from the store. On a miss, a successful result has no duplicates and is stored under the all key with the configured lifetime. |
| CacheModel.AllMergesFamilies | src/LaravelCloudflare.php:29-39 | On a missing all key, all() passes on a TypeError from ipv4(), then from ipv6(). Otherwise it returns and stores the merge of their results, with ipv4()'s GETs first. |
| CacheModel.Kept | src/LaravelCloudflare.php:85-89 | The fallback is the cached list when the key holds an array. It is non-empty only when the key holds that list. |
| CacheModel.Chosen | src/LaravelCloudflare.php:88-89 | The written list is the fetched one when that is non-empty, otherwise the fallback. It is empty only when both are. |
| CacheModel.RememberOnlyAdds | src/LaravelCloudflare.php:144-153 | A read only adds keys and never changes a key already present. |
| CacheModel.ResolveOnlyAdds | src/LaravelCloudflare.php:33-37 | The closures of ipv4/ipv6/all only add keys and never change a key already present. |
| CacheModel.Refresh | src/LaravelCloudflare.php:72-94 | Refresh writes exactly the v4, v6 and all keys, as lists with the configured lifetime. No other key changes, and there is one GET per usable endpoint, v4 first. |
| CacheModel.RefreshFamily | src/LaravelCloudflare.php:85-91 | A family key holds its fetched list when it is non-empty. Otherwise it holds the cached array, or `[]` when nothing usable was cached. |
| CacheModel.RefreshNeverErases | src/LaravelCloudflare.php:84-89 | An empty fetch keeps the cached list. A non-empty cached list stays non-empty whatever the fetch gives. |
| CacheModel.RefreshAllIsMerge | src/LaravelCloudflare.php:91-93 | After refresh the all key holds the merge of what the v4 and v6 keys hold. |
| CacheModel.RefreshIdempotent | src/LaravelCloudflare.php:81-93 | Refreshing twice with the same responses leaves the same store as refreshing once. |
| CacheModel.ReadsAfterRefresh | src/LaravelCloudflare.php:29-67 | After a refresh, ipv4/ipv6 return the stored lists and all returns their merge, with no write and no GET, whatever the network does. |
| CacheModel.ColdAll | src/LaravelCloudflare.php:29-38 | On a cold cache, all() fetches v4 then v6, fills each key through its own remember, and stores and returns their merge. |
| CacheModel.ColdFailedReadCachesEmpty | src/LaravelCloudflare.php:46-53 | A cold read whose fetch fails stores `[]`. Later reads return `[]` with no GET. |
| Service.LaravelCloudflare.constructor | src/LaravelCloudflare.php:14-22 | The service starts with the given keys, TTL and store, and no request sent. |
| Service.LaravelCloudflare.Get | src/LaravelCloudflare.php:85-86 | `cache->get` returns the stored value, or the default for a missing key. |
| Service.LaravelCloudflare.Put | src/LaravelCloudflare.php:160-169 | The store becomes CacheModel.Put of the old store: forever for a null TTL, the TTL otherwise. |
| Service.LaravelCloudflare.FetchFromEndpoint | src/LaravelCloudflare.php:102-135 | Returns FetchRanges of the family's upstream. It logs one GET only when the endpoint is usable. |
| Service.LaravelCloudflare.Remember | src/LaravelCloudflare.php:144-153 | The result, new store and GETs sent are those of CacheModel.Remember. |
| Service.LaravelCloudflare.RunResolver | src/LaravelCloudflare.php:33-37 | Running a closure gives the result, store and GETs of CacheModel.Resolve. |
| Service.LaravelCloudflare.Ipv4 | src/LaravelCloudflare.php:46-53 | ipv4() behaves as CacheModel.ReadFamily for IPv4. |
| Service.LaravelCloudflare.Ipv6 | src/LaravelCloudflare.php:60-67 | ipv6() behaves as CacheModel.ReadFamily for IPv6. |
| Service.LaravelCloudflare.All | src/LaravelCloudflare.php:29-39 | all() behaves as CacheModel.ReadAll. |
| Service.LaravelCloudflare.Refresh | src/LaravelCloudflare.php:72-94 | The new store is CacheModel.Refresh of the old one. Exactly the GETs for the usable endpoints are sent, v4 first. |
| Scenarios.ParseV4Body | tests/Feature/CloudflareServiceTest.php:9-18 | The faked IPv4 body parses to `["1.1.1.1/32", "10.0.0.0/8"]`. |
| Scenarios.ParseV6Body | tests/Feature/CloudflareServiceTest.php:10-19 | The faked IPv6 body parses to `["2606:4700::/32"]`. |
| Scenarios.FetchCloudflare | tests/Feature/CloudflareServiceTest.php:8-11 | Fetching from the faked endpoints yields the two lists, one GET each. |
| Scenarios.DefaultKeysDistinct | config/laravel-cloudflare.php:9-13 | The shipped keys are three different keys. |
| Scenarios.MergeTestRanges | tests/Feature/CloudflareServiceTest.php:20 | The test lists merge to their concatenation. |
| Scenarios.RefreshThenRead | tests/Feature/CloudflareServiceTest.php:7-24 | After refresh, ipv4/ipv6/all return the expected lists with no GET and no write, whatever the network does later. |
| Scenarios.FetchServed | tests/Feature/CloudflareServiceTest.php:27-30 | Bare bodies yield the same lists. |
| Scenarios.FetchFailing | tests/Feature/CloudflareServiceTest.php:38-40 | Endpoints answering 500 yield empty lists after one GET each. |
| Scenarios.FailedRefreshKeepsCache | tests/Feature/CloudflareServiceTest.php:26-45 | A refresh whose fetches fail leaves the store exactly as the previous refresh left it. all() still returns the merged list. |
| Scenarios.ColdAllReturnsMerge | tests/Feature/UsageExampleTest.php:6-17 | all() on a cache without the three keys returns the merged list after one GET per family. |

## Left out

- The HTTP transport: headers, user agent, timeout, and `retry` with its sleep. The response
  is an input value. A `retry` that throws after its last failed attempt is not modelled;
  a failure is a non-2xx response.
- Cache-store internals and TTL expiry. There is no clock. An entry records `Forever` or
  `Seconds(ttl)` and never expires within the model.
- Config lookups become constructor parameters: the three keys and the TTL.
  - `all()`, `ipv4()` and `ipv6()` read their key one by one with a default. `refresh` reads
    the `keys` array with `??` defaults. For string key entries both give the same keys, so
    one `Config` holds them.
  - A key entry that is present but null is not modelled. There `ipv4()`, `ipv6()` and
    `all()` pass null to `remember(string $key)` and throw a TypeError, while `refresh` falls
    back to the default key. The model takes string keys only.
  - The choice of cache store is left out.
- Service.LaravelCloudflare.Remember: the TTL is a positive whole number or null (`Ttl`). The
  `(int)` cast of a non-integer TTL is not modelled.
- CacheModel.Put, Service.LaravelCloudflare.Put, CacheModel.Refresh,
  Service.LaravelCloudflare.Refresh, CacheModel.Remember: a TTL of zero or less is outside
  the model. Laravel's `put` and `remember` then delete the key instead of writing it, so
  these writes would not happen.
- CacheModel.Remember: a stored `null` is the same as a missing key, as in Laravel's cache.
  Non-array values are a single `Scalar` case, whatever their type.
- `preg_split` returning `false` (the `?: []` branch) cannot happen for this fixed pattern on
  a string. The model has no such case.
- The service provider, facade, console commands, diagnostics controller, events, exception
  class and view guideline. They hold no logic of the service.
- Behaviour that only the tests or the commands assume and the service class does not
  implement: `last_good`, static fallback lists, auto-fetch and its rate limit,
  `throw_on_empty`, `cacheInfo`, failed-fetch logging, CIDR validation, and a boolean
  `refresh()` result.
- Concurrency between processes sharing the cache store.
