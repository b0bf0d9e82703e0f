# Item scraper: key rotation and quota governance

This project models the decision logic of the `Scraper` class in `index.js`.
The scraper walks the item ids `0 .. 199999` of a rate-limited web API one
after another and saves every item the API returns. Four things are modelled
and proved:

- **Key rotation.** The scraper holds one of six fixed API keys. `switchKey`
  looks the active key up with `findIndex` and moves to the next key. From the
  last key it wraps to the first.
- **Quota governance in `fetch`.** Each response carries per-second and
  total-quota counters in its headers. The scraper pauses when
  `qps-current + 2 >= qps-allotted`. It switches keys when
  `quota-current + 5 >= quota-allotted`. It saves the body only when the
  status is 200. The two quota checks are independent, and both run before
  the status check.
- **The pause length (`delay`).** The pause lasts until the next whole
  minute.
- **The driver loop (`start`).** It awaits one fetch per id, in increasing
  order. Each request uses the key left by the previous fetch.

Files:

- `rotation.dfy` (module `Rotation`): the key list, `findIndex`, the successor
  key, and lemmas that rotation is cyclic with period exactly six.
- `governor.dfy` (module `Governor`): the response record, the three
  threshold predicates, and the minute-boundary delay.
- `crawl.dfy` (module `Crawl`): the effects of one fetch as a value
  (`FetchEffects`) and of the loop (`Run`), with lemmas on order, counts and
  key use.
- `scraper.dfy` (module `Scraping`): the `Scraper` class. It has a `key`
  field and a ghost `log` of effects. `SwitchKey`, `Fetch` and `Start` update
  that state step by step and are proved against the `Crawl` functions.

The outside world becomes parameters of the model:

- The network is `respond: (int, string) -> Response`. It maps an id and the
  key in the request URL to a response.
- A response is `NetworkError` (the request promise rejects) or
  `Received(status, qpsCurrent, qpsAllotted, quotaCurrent, quotaAllotted, body)`.
- Each header is an `Option<int>`, standing for the result of `parseInt`.
  `None` stands for NaN: in JavaScript any comparison with NaN is false, so a
  missing header never causes a pause or a switch.
- The clock is `clock: int -> int`. It gives the millisecond timestamp at
  which `delay` reads the time while handling an id.
- The wait itself, the key switch and the database insert are recorded as
  `Paused(ms)`, `Switched` and `Inserted(id, body)` entries of the ghost log.
  The request is recorded as `Requested(id, key)`.

`index.js` has no upsert by natural key (it uses plain `insert`, so a re-run
duplicates records), no 429 retry, no worker pool and no resumption from the
highest stored id. None of these is modelled. A rejected fetch is not caught
either: it ends the `start` loop, and the model does the same.

## Model

| member | source | states |
|---|---|---|
| `Rotation.ApiKeysWellFormed` | index.js:1-8 | The key list has six entries. They are pairwise distinct and non-empty, so every entry is truthy. |
| `Rotation.IndexOf` | index.js:105 | `findIndex` returns -1 exactly when the key is absent. Otherwise it returns the first position holding the key. |
| `Rotation.Truthy` | index.js:107 | The truthiness test of `API_KEYS[next]`: a read past the end (`undefined`) or an empty string is falsy, so a truthy position always lies inside the list. |
| `Rotation.NextKey` | index.js:105-111 | The key `switchKey` assigns is always an element of the key list. |
| `Rotation.IndexOfAt` | index.js:105 | With distinct keys, looking up the key at position `i` yields `i`. |
| `Rotation.NextKeyAt` | index.js:105-111 | From the key at position `i`, `switchKey` moves to position `i + 1`, or to position 0 when `i` is the last position. |
| `Rotation.NextKeyOfUnknown` | index.js:105-110 | An active key missing from the list (`findIndex` gives -1) is replaced by the first key. |
| `Rotation.Rotate` | index.js:100-112 | The key after `n` consecutive `switchKey` calls. After at least one switch, or from a listed key, it is always a listed key. |
| `Rotation.RotateAdd` | index.js:100-112 | `a` switches followed by `b` switches equal `a + b` switches. |
| `Rotation.RotateAt` | index.js:100-112 | `n <= 6` switches from position `i` reach position `i + n`, counted around the end of the list. |
| `Rotation.FullCycle` | index.js:100-112 | As many switches as there are keys restore the original key. |
| `Rotation.CycleIsMinimal` | index.js:100-112 | Between 1 and 5 switches never restore the original key, so every key is used before any repeats. |
| `Rotation.RotatePeriodic` | index.js:100-112 | After any number of switches, six more switches give the same key again. |
| `Governor.AtLimit` | index.js:49-65 | The shared form of both quota checks, `parseInt(current) + margin >= parseInt(allotted)`. A NaN on either side never reaches the limit. |
| `Governor.ShouldPause` | index.js:49-54 | A received response pauses when both qps headers parse and `current + 2 >= allotted`. A failed request or a NaN header never pauses. |
| `Governor.ShouldSwitch` | index.js:60-65 | A received response switches keys when both quota headers parse and `current + 5 >= allotted`. A failed request or a NaN header never switches. |
| `Governor.ShouldSave` | index.js:69 | Only a received response with status 200 is saved. A failed request is never saved. |
| `Governor.MinuteStart` | index.js:115-116 | `startOf('minute')` is a multiple of 60000 at or below `t`, and less than one minute before it. |
| `Governor.Delay` | index.js:114-121 | The pause is between 1 and 60000 ms and ends exactly on a minute boundary. |
| `Governor.DelayReachesNextBoundary` | index.js:115-118 | No minute boundary falls strictly inside the pause, so the pause ends at the next boundary. |
| `Governor.DelayClosedForm` | index.js:115-118 | The pause equals `60000 - t mod 60000`. |
| `Crawl.FetchEffects` | index.js:38-82 | A fetch first records the request, made for `id` with the key read at its start. It has at most four effects. |
| `Crawl.KeyAfter` | index.js:65-67 | The key a fetch leaves: a listed key when the quota check fired, and the key it used otherwise. |
| `Crawl.FetchInStageOrder` | index.js:49-79 | One fetch has each kind of effect at most once. The order is always request, pause, switch, insert. |
| `Crawl.FetchPauses` | index.js:49-58 | A fetch pauses if and only if `qps-current + 2 >= qps-allotted` holds with both headers numeric. The pause length is `Delay` at that instant, within 1..60000 ms. |
| `Crawl.FetchSwitches` | index.js:60-67 | A fetch switches keys if and only if `quota-current + 5 >= quota-allotted` holds with both headers numeric. The key changes only when it does. |
| `Crawl.FetchVisits` | index.js:38-45 | One fetch makes exactly one request, for its own id. |
| `Crawl.FetchInserts` | index.js:69-79 | One fetch inserts its body exactly once when the status is 200, never otherwise, and never for another id. |
| `Crawl.InvalidResponseStillGoverns` | index.js:49-73 | A non-200 response at both limits still pauses, then switches keys, and saves nothing. |
| `Crawl.Run` | index.js:30-36 | Starting from a listed key, the loop ends on a listed key. An aborted run has a non-empty range. |
| `Crawl.RunPrefix` | index.js:33-35 | A run that did not stop early also did not stop within any prefix of its ids. |
| `Crawl.RunSplit` | index.js:33-35 | Fetching `lo..hi` is fetching `lo..mid` and then `mid..hi` from the key the first part leaves. |
| `Crawl.RunVisits` | index.js:31-35 | The ids are requested in increasing order, each once. A run covers all of `lo..hi` unless a request fails, and then it stops right after the first failed id. |
| `Crawl.RunInsertsOnlyInRange` | index.js:33-35 | A run inserts nothing for an id outside its range. |
| `Crawl.InsertedOncePerValidId` | index.js:69-79 | Over a run, a reached id is inserted exactly once if its response had status 200, and never otherwise. |
| `Crawl.KeyChangesExactlyOnSwitch` | index.js:60-67 | For any active key, a fetch leaves a different key if and only if its response reached the total quota. The keys are distinct, so a switch always changes a listed key. An unlisted key is replaced by the first listed one. |
| `Crawl.SwitchTakesEffectNextFetch` | index.js:39-67 | The request for id `n` uses the key active when fetch `n` starts. A switch made while handling `n` first shows in the request for `n + 1`. |
| `Crawl.QuotaExhaustedScenario` | index.js:60-79 | Example: a 200 response with total quota 999 of 1000 under the first key saves the item once. The next request then uses the second key. |
| `Crawl.InvalidIdScenario` | index.js:69-73 | Example: a 404 below both limits saves nothing and does not stop the loop. The next id is requested with the same key. |
| `Scraping.Scraper.constructor` | index.js:16-17 | A new scraper starts on the first key with an empty log. |
| `Scraping.Scraper.SwitchKey` | index.js:100-112 | Sets `key` to `NextKey(ApiKeys, old(key))`, keeps it in the key list, and appends `Switched` to the log. |
| `Scraping.Scraper.Fetch` | index.js:38-82 | Appends exactly `FetchEffects` for the key active at the start to the log. Leaves the key switched if and only if the quota check fired. Reports a rejected request. |
| `Scraping.Scraper.Start` | index.js:30-36 | Leaves the log and key that `Run` gives over ids `0..199999`. When no fetch rejects, the visited ids are exactly `0..199999` in order. |

## Left out

- The HTTP request, the URL string and JSON decoding are left out. The network is the `respond` parameter, and a response is an abstract record.
- A failing `response.json()` is left out. In the code it would reject `fetch` and end `start`; only a failed request is modelled that way.
- The MongoDB connection and `insert` are left out. Saving is an `Inserted` entry in the ghost log. A failed insert, which would also end `start`, is not modelled.
- The constructor connects to the database before it calls `start`. The connection is left out: the model's constructor sets only the key, and `Start` is called on its own.
- `moment`, `setTimeout` and real time are left out. The clock is a parameter. The two `moment()` readings in `delay` are treated as one instant. `startOf('minute')` is taken on the millisecond timestamp, which matches local time whenever the time zone's offset is a whole number of minutes.
- `parseInt` is abstracted. A header is either a whole number or NaN (`None`). Partial parses such as `"12abc"` and the rounding of very large numbers to JavaScript doubles are not modelled.
- `console.log` output is logging only and is left out.
- `Rotation.NextKey` requires a non-empty key list. The code's list is a fixed constant with six entries, and an empty list would make `switchKey` assign `undefined`.
