# mws-restaurant: data layer, local store and service workers in Dafny

This project models the data side of the mws-restaurant progressive web app
(a restaurant review site that keeps working offline). It covers two
generations of the code, the src/ version and the older js/ version. For
each it models:

- the calls to the REST API (`/restaurants`, `/reviews`) and the join of
  reviews onto restaurants by `restaurant_id`;
- the IndexedDB store `restaurants`, keyed by `id`, with its lazily opened
  and memoised handle (src) or its handle opened per call (js);
- how the list and detail reads choose between the stored data and the API
  data, and how API data is written back;
- the cuisine and neighborhood selections and their de-duplicated lists;
- the restaurant page link and the query-string reader that parses it back;
- the image URL and srcset of the older version;
- the favourite toggle (a read-modify-write of one store record);
- the review outbox record that a posted review is appended to;
- the service workers' `activate` cleanup, `fetch` routing, cache-first
  reply with cache refresh and offline page, and the `sync` and `message`
  dispatch.

Promises become values:

- a rejection is an `Err(Failure)`;
- an `undefined` result is `None`;
- each IndexedDB write the code does not wait for is applied to the store
  in the order the code issues it.

`fetch` outcomes are parameters (`Fetched<T>`: a network failure, or a
response with its `ok` flag and its JSON body). Whether the database opens
is a boolean parameter. `decodeURIComponent` is a function parameter.

Modules (one file each):

| file | module | models |
|---|---|---|
| wrappers.dfy | Wrappers | Option and Result |
| text.dfy | Text | `startsWith`, number to text in template literals, unary `+` on text, `join`, `split`, `replace(/\+/g, ' ')` |
| seqs.dfy | Seqs | `filter`, `indexOf`, first-occurrence de-duplication |
| records.dfy | Records | restaurants, reviews, failures, unary `+` on a key, `Object.keys` |
| gateway.dfy | Gateway | `jsonFromResponse`, API fetches, the review join |
| storage.dfy | Storage | src/js/storage.js: the object store and the memoised handle; `ObjectStore` is also the store of js/dbhelper.js |
| dbhelper.dfy | DbHelper | src/js/dbhelper.js |
| legacy_dbhelper.dfy | LegacyDbHelper | js/dbhelper.js |
| favorites.dfy | Favorites | src/js/main.js favourite checkbox and `toggleFavorite` |
| reviews.dfy | Reviews | src/js/restaurant_info.js `postReview` and the outbox |
| query.dfy | Query | `getParameterByName` (identical in src/js/restaurant_info.js and js/restaurant_info.js) |
| navigation.dfy | Navigation | restaurant link to page id round trip |
| service_worker.dfy | ServiceWorker | src/sw.js and sw.js |

Behaviour of the code that the model keeps as it is:

- The read paths give local data priority: a non-empty stored list, or a
  stored record, wins over the API result. The API result is used only
  when the store has nothing.
- No pending outbox change is overlaid on what a read returns. The reads
  return the store or API data as they are.
- There is no outbox drain. `syncFavorites` and the outbox functions are
  called but defined nowhere.
- The favourite toggle writes the string "true"/"false" straight into the
  cached record (with `sync.favorite = true`). It does not queue an outbox
  change.
- A failed store read in src `fetchRestaurants` / `fetchRestaurantById`
  does not degrade to the API. The `return` inside `finally` swallows the
  rejection, and the API is never asked, so the result is undefined.

## Model

| member | source | states |
|---|---|---|
| Text.StringToNumber | src/js/storage.js:37 | unary `+` on a digit string is its decimal value; a leading `-` negates it and a leading `+` keeps it; a lone sign is NaN |
| Text.IntToStringRoundTrip | src/js/dbhelper.js:129 | an id rendered in a template literal reads back as the same number under unary `+` |
| Text.PlusToSpace | src/js/restaurant_info.js:202 | same length; every `+` becomes a space, and every other character is kept in place |
| Seqs.Filter | src/js/dbhelper.js:79 | the result is no longer than the input; an element is in the result iff it is in the input and satisfies the predicate |
| Seqs.IndexOf | src/js/dbhelper.js:102 | -1 iff absent; otherwise the position of the first occurrence |
| Seqs.KeepFirstFrom | src/js/dbhelper.js:102 | keeps exactly the values whose first occurrence is at or after the start position, in increasing order of first occurrence |
| Seqs.DistinctSpec | src/js/dbhelper.js:102 | the de-duplicated list holds every input value, each once, in first-occurrence order, and is no longer than the input |
| Records.ToNumber | src/js/storage.js:37 | a numeric key is used as is |
| Records.ObjectKeys | js/dbhelper.js:171 | every record has at least the key `id`, so `Object.keys(r).length` is never 0 |
| Gateway.JsonFromResponse | src/js/dbhelper.js:16-21 | a response that is not ok rejects; malformed JSON rejects; otherwise it yields the parsed body (None for null) |
| Gateway.FetchJson | src/js/dbhelper.js:27 | a network failure rejects; otherwise the result of `jsonFromResponse` |
| Gateway.JoinReviews | src/js/dbhelper.js:29-31 | the loop gives each restaurant exactly the reviews with its id; length and every other field are unchanged |
| Gateway.JoinReviewsIsJoined | src/js/dbhelper.js:29-31 | any list with those properties is the joined list |
| Gateway.ReviewsForExact | src/js/dbhelper.js:30 | a review is attached iff its `restaurant_id` is strictly equal to the id; multiplicities are kept; order is kept across concatenation |
| Gateway.ReviewsForAllMatching | src/js/dbhelper.js:30 | a list of reviews all of one restaurant is attached whole |
| Gateway.JoinedFromApi | src/js/dbhelper.js:26-31 | success needs both fetches to succeed; the length is that of the restaurant list; two ok value responses give exactly the joined list; a JSON null restaurant list rejects; a JSON null review list rejects unless the restaurant list is empty |
| Storage.UpgradeSchema | src/js/storage.js:9-14 | the upgrade creates one store, `restaurants` with key path `id`, exactly when upgrading from version 0 |
| Storage.SortedKeys | src/js/storage.js:24-31 | the store's keys in strictly increasing order, each once |
| Storage.GetAllExactlyOnce | src/js/storage.js:24-31 | `getAll` returns every stored record, only stored records, once each, in increasing id order |
| Storage.LastIndexWithId | src/js/storage.js:44-46 | the last position in the list holding a record with this id, or -1 |
| Storage.PutAllAt | src/js/storage.js:40-48 | after the put loop, each id in the list maps to the list's last record with that id; every other key is untouched |
| Storage.PutAllIdempotent | src/js/storage.js:40-48 | putting the same list twice leaves the same store as putting it once |
| Storage.PutAllKeyedById | src/js/storage.js:40-48 | the put loop keeps every record stored under its own id |
| Storage.ObjectStore.Get | src/js/storage.js:34-37 | a record iff the key is stored, and then the stored record |
| Storage.ObjectStore.GetAll | src/js/storage.js:24-31 | `getAll`: see `Storage.GetAllExactlyOnce` for every record once, in key order |
| Storage.PutAll | src/js/storage.js:40-48 | the store after the put loop: see `Storage.PutAllAt`, `Storage.PutAllIdempotent` and `Storage.PutAllKeyedById` |
| Storage.ObjectStore.Put | src/js/storage.js:52 | key `r.id` now maps to `r` in full; every other key is unchanged |
| Storage.Store.GetDB | src/js/storage.js:6-21 | the database is opened at most once: after the first call the handle is marked opened and its outcome never changes, so later calls return the memoised handle, a failed open included |
| Storage.Store.GetAllRestaurants | src/js/storage.js:24-31 | all records in key order, or a TypeError without a handle |
| Storage.Store.GetRestaurant | src/js/storage.js:32-39 | looks up `+id`: `"5"` and `5` read the same key; a missing key is undefined; NaN is a DataError; no handle is a TypeError |
| Storage.Store.PutAllRestaurants | src/js/storage.js:40-48 | the for loop writes exactly the list's upserts, in order |
| Storage.Store.PutRestaurant | src/js/storage.js:49-54 | one whole-record upsert under `r.id`, nothing else changed |
| DbHelper.PreferStored | src/js/dbhelper.js:42 | a non-empty stored list wins; a missing or empty stored list gives the API list |
| DbHelper.RestaurantsOutcome | src/js/dbhelper.js:36-44 | undefined without a handle; a non-empty stored list; with an empty store, the API list when the API call succeeds and undefined when it fails |
| DbHelper.FetchAllRestaurantsFromApi | src/js/dbhelper.js:26-34 | returns the joined API list; writes it to the store when a handle is ready; leaves the store untouched on failure |
| DbHelper.FetchRestaurants | src/js/dbhelper.js:36-44 | undefined without a handle; a non-empty stored list is returned as it was before the write; otherwise the API list; the API list is written in every case; afterwards the handle is memoised |
| DbHelper.RestaurantFromApi | src/js/dbhelper.js:49-51 | succeeds iff both fetches succeed and the restaurant is not null; the record carries the fetched review list as its `reviews` |
| DbHelper.FetchRestaurantFromApi | src/js/dbhelper.js:49-54 | returns that record and upserts it when a handle is ready |
| DbHelper.FetchRestaurantById | src/js/dbhelper.js:56-64 | undefined without a handle or for a NaN id; otherwise the stored record when there is one, else the API record; afterwards the handle is memoised |
| DbHelper.OrAll | src/js/dbhelper.js:69 | the default parameters `cuisine = "all"`, `neighborhood = "all"`; stated through `DbHelper.FetchRestaurantByCuisineAndNeighborhood` |
| DbHelper.SelectByCuisineAndNeighborhood | src/js/dbhelper.js:69-87 | the two filters of `fetchRestaurantByCuisineAndNeighborhood`: see `DbHelper.SelectionIsMatchingSublist` |
| DbHelper.SelectionIsMatchingSublist | src/js/dbhelper.js:69-87 | the selection is the order-preserving sublist matching both criteria ("all" matches everything); a missing list gives [] |
| DbHelper.Neighborhoods | src/js/dbhelper.js:92-105 | the de-duplicated neighborhood list: see `DbHelper.NeighborhoodsSpec` |
| DbHelper.Cuisines | src/js/dbhelper.js:110-123 | the de-duplicated cuisine list: see `DbHelper.CuisinesSpec` |
| DbHelper.NeighborhoodsSpec | src/js/dbhelper.js:92-105 | every neighborhood present, once each, in first-occurrence order |
| DbHelper.CuisinesSpec | src/js/dbhelper.js:110-123 | every cuisine present, once each, in first-occurrence order |
| DbHelper.FetchRestaurantByCuisineAndNeighborhood | src/js/dbhelper.js:69-87 | the selection applied to the outcome of `fetchRestaurants`; missing arguments default to "all"; the handle is memoised and the store holds the API list written by `fetchRestaurants` |
| DbHelper.FetchNeighborhoods | src/js/dbhelper.js:92-105 | the neighborhood list of the outcome of `fetchRestaurants`; the handle is memoised and the store holds the API list written by `fetchRestaurants` |
| DbHelper.FetchCuisines | src/js/dbhelper.js:110-123 | the cuisine list of the outcome of `fetchRestaurants`; the handle is memoised and the store holds the API list written by `fetchRestaurants` |
| DbHelper.UrlForRestaurant | src/js/dbhelper.js:128-130 | the link starts with `./restaurant.html?id=`, and what follows reads back as the id |
| LegacyDbHelper.HandleOpened | js/dbhelper.js:14-30 | `DBHelper.IDB`: a handle exactly when the browser has a service worker and the open succeeds, opened afresh on every access; its effect is stated by the contracts of `LegacyDbHelper.FetchRestaurants` and `LegacyDbHelper.FetchRestaurantById` |
| LegacyDbHelper.PutRestaurantsToDatabase | js/dbhelper.js:81-90 | returns the list it was given; the loop writes exactly the list's upserts, in order |
| LegacyDbHelper.FetchRestaurants | js/dbhelper.js:95-121 | undefined without a handle; otherwise a non-empty stored list, else the API list (undefined on any API failure); the API list is always written |
| LegacyDbHelper.LegacyRestaurantFromApi | js/dbhelper.js:136-168 | a record iff the restaurant and its review list are both fetched and non-null; then it is the restaurant with that review list |
| LegacyDbHelper.LegacyRestaurantAgreesWithSrc | js/dbhelper.js:136-168 | the older single-restaurant API path yields a record only when the src path does, and then the same record |
| LegacyDbHelper.FetchRestaurantById | js/dbhelper.js:126-174 | with a handle, the API record is fetched and upserted in every case, a NaN `+id` included; a NaN `+id` rejects with DataError; otherwise a stored record always wins, and the API record is the fallback |
| LegacyDbHelper.FetchRestaurantByCuisineAndNeighborhood | js/dbhelper.js:179-197 | the shared selection applied to the older `fetchRestaurants`; the store holds the API list it writes |
| LegacyDbHelper.FetchNeighborhoods | js/dbhelper.js:202-215 | the shared neighborhood list of the older `fetchRestaurants`; the store holds the API list it writes |
| LegacyDbHelper.FetchCuisines | js/dbhelper.js:220-233 | the shared cuisine list of the older `fetchRestaurants`; the store holds the API list it writes |
| LegacyDbHelper.PhotoName | js/dbhelper.js:247 | never empty; it is the photograph unless the photograph is absent or empty, in which case it is "placeholder" |
| LegacyDbHelper.ImageSizeText | js/dbhelper.js:246 | example: the image width 840 renders as "840" |
| LegacyDbHelper.ImageUrlForRestaurant | js/dbhelper.js:245-250 | `/img/<photograph>-840px.jpg`, with "placeholder" for an absent or empty photograph |
| LegacyDbHelper.ImageSrcsetForRestaurant | js/dbhelper.js:255-260 | `imageSrcsetForRestaurant`: see `LegacyDbHelper.SrcsetIsJoin` and `LegacyDbHelper.SrcsetCandidates` |
| LegacyDbHelper.SrcsetIsJoin | js/dbhelper.js:255-260 | for every record, the srcset is the five candidates 840, 720, 600, 480, 360 joined by commas, and it starts with the image URL and `840w` |
| LegacyDbHelper.CandidateHasNoComma | js/dbhelper.js:259 | a srcset candidate contains a comma only if the photograph name does |
| LegacyDbHelper.SrcsetCandidates | js/dbhelper.js:255-260 | split at commas, the srcset is exactly five candidates for 840, 720, 600, 480 and 360 px, in that order; the first is the image URL with `840w` |
| Favorites.IsChecked | src/js/main.js:186 | checked iff `is_favorite` is exactly the string "true"; a boolean or absent value renders unchecked |
| Favorites.DataId | src/js/main.js:189 | the checkbox's `data-id` coerces back to the restaurant id |
| Favorites.Toggled | src/js/main.js:236-237 | the record written back: see `Favorites.ToggledSpec` and `Favorites.ToggleLastWins` |
| Favorites.ToggledSpec | src/js/main.js:236-237 | `is_favorite` becomes "true"/"false" to match the box; `sync.favorite` is set; other `sync` fields and all other fields are kept |
| Favorites.ToggleLastWins | src/js/main.js:236-237 | toggling twice equals toggling once to the last state |
| Favorites.ToggleFavorite | src/js/main.js:234-238 | succeeds iff the record under `+dataId` exists; only that entry is rewritten, to its toggled form; on failure nothing is written; afterwards the handle is memoised |
| Favorites.ToggleFindsItsRecord | src/js/main.js:235 | the `data-id` of a stored record leads to that same record |
| Reviews.NewReview | src/js/restaurant_info.js:153-163 | `restaurant_id` is the page's restaurant id; `createdAt == updatedAt`; the form fields are carried over |
| Reviews.Merged | src/js/restaurant_info.js:164-166 | the record written to the outbox: see `Reviews.MergedSpec` and `Reviews.PostTwice` |
| Reviews.MergedSpec | src/js/restaurant_info.js:164-166 | with no record the result is `{id, reviews: [review]}`; otherwise all fields are kept and the review becomes the last of the list (missing reviews start from []); fails only on a null list |
| Reviews.PostTwice | src/js/restaurant_info.js:164-167 | two posts leave both reviews pending, in posting order |
| Reviews.Outbox.Get | src/js/restaurant_info.js:164 | the outbox record for the id, if any |
| Reviews.Outbox.Put | src/js/restaurant_info.js:167 | a whole-record upsert under the record's id |
| Reviews.PostReview | src/js/restaurant_info.js:152-167 | only the outbox entry of this restaurant is written, with the merged record, and nothing is written on a null list; the source returns nothing, and the model's result (the review built, or the TypeError) is added to make the outcome observable |
| Query.ValueSpan | src/js/restaurant_info.js:198 | `[^&#]*`: the longest prefix without `&` or `#` |
| Query.Search | src/js/restaurant_info.js:198-199 | the leftmost match position, and no match before it; None iff no position matches |
| Query.GetParameterByName | src/js/restaurant_info.js:195-203 | `getParameterByName`: see `Query.NotFoundIff`, `Query.EmptyWithoutValue` and `Query.LeftmostValue` |
| Query.NotFoundIff | src/js/restaurant_info.js:198-200 | null iff no `?name`/`&name` is followed by `=`, `&`, `#` or the end |
| Query.EmptyWithoutValue | src/js/restaurant_info.js:201 | at the leftmost `?name`/`&name`, a name followed by `&`, `#` or the end, or by `=` and then `&`, `#` or the end, yields "" |
| Query.LeftmostValue | src/js/restaurant_info.js:198-202 | the leftmost occurrence's value runs to the next `&`/`#` or the end, and is decoded after `+` becomes space |
| Query.UrlOrHref | src/js/restaurant_info.js:196 | `if (!url) url = window.location.href`: an absent or empty url falls back to the page's own; its effect is stated through `Query.NotFoundIff` and `Query.LeftmostValue`, which quantify over the chosen URL |
| Query.LongerNameDoesNotMatch | js/restaurant_info.js:152 | example: `?idx=1` has no parameter `id` |
| Query.FirstOccurrenceWins | js/restaurant_info.js:152-155 | example: `?id=1&id=2` reads "1" for `id` |
| Query.PlusBecomesSpace | js/restaurant_info.js:156 | the decoder receives the value with each `+` turned into a space |
| Navigation.IdQueryRoundTrip | js/restaurant_info.js:149-157 | a page URL with `?id=<id>` reads back `<id>`, which unary `+` turns into the id |
| Navigation.RestaurantPageRoundTrip | src/js/dbhelper.js:128-130 | the restaurant link leads the restaurant page back to the restaurant's id |
| ServiceWorker.CacheNameValue | src/sw.js:3-5 | the current cache is "mws-restaurant-v1", a name of this app |
| ServiceWorker.CachesToDelete | src/sw.js:29-30 | a name is deleted iff it is present, is not the current cache and starts with the app name; no more names than there are |
| ServiceWorker.ActivateDeletesStale | src/sw.js:24-34 | deletes exactly this app's caches other than the current one; the current cache and other apps' caches survive |
| ServiceWorker.ActivateIdempotent | sw.js:25-35 | a second `activate` finds nothing to delete |
| ServiceWorker.OnFetch | src/sw.js:48-66 | non-http protocols and port 1337 pass through untouched; everything else is the cache-first reply |
| ServiceWorker.OnFetchLegacy | sw.js:37-56 | URLs not starting with `http` pass through; everything else is the cache-first reply |
| ServiceWorker.CacheFirst | src/sw.js:52-63 | the shared cache-first step: see `ServiceWorker.CacheFirstReply` and `ServiceWorker.CacheFirstRefresh` |
| ServiceWorker.CacheFirstReply | src/sw.js:52-63 | a cached response wins; else the network response; else the cached offline page; else undefined |
| ServiceWorker.CacheFirstRefresh | sw.js:43-47 | every network response is stored under the request even when the cached one was served; nothing else changes; a network failure changes nothing |
| ServiceWorker.OnlineThenOffline | sw.js:41-53 | a page fetched on line is served from the cache when the network later fails |
| ServiceWorker.ApiCallsBypassOnlyInSrc | src/sw.js:50 | API-port requests bypass the src worker; the older worker answers every http(s) API request itself and caches its network response |
| ServiceWorker.OnSync | src/sw.js:36-40 | `syncFavorites` runs iff the tag is "sync-favorites" |
| ServiceWorker.OnMessage | src/sw.js:42-46 | `skipWaiting` iff `data.action === "skipWaiting"`; a message without data throws |

## Left out

- DOM, Google Maps, notify.js and date formatting: these are rendering, not data logic. This covers `createRestaurantHTML`, the fill functions, `mapMarkerForRestaurant` and the `state` resets.
- Favorites.ToggleFavorite: the background-sync registration at the end of `toggleFavorite` (`sw.sync.register("sync-favorites")`, src/js/main.js:240-242) is not modelled. It is a platform call whose promise nobody awaits, and the handler it triggers calls the undefined `syncFavorites`.
- `registerServiceWorker`, `registerSync` and the `install` step with `cache.addAll`: they are platform registration calls with no decision logic.
- `storage.getOutboxData`, `putOutboxData`, `syncFavorites` and `DBHelper.postReview` are called but not defined in any of the modelled files. The outbox is modelled as a keyed map with get and put; no sync or drain exists to be modelled. The "sync-restaurants" tag has no handler.
- The timing of writes issued but not awaited (`storage.putAllRestaurants`, `putRestaurant`, `tx.complete`): each is applied in issue order, before the call returns. A read that starts before a write finishes sees the old data; this is the case in `fetchRestaurants`, and there the model returns the data read before the write. Interleavings with other tabs are not modelled.
- Text.StringToNumber: models unary `+` only for the empty string and digit strings with an optional leading `-` or `+`. Whitespace, decimals, exponents, hex literals and `Infinity` are all treated as NaN.
- Ids and keys are unbounded integers (`int`), whereas JavaScript numbers are IEEE doubles. The rounding of unary `+` on digit strings above 2^53, and the exponent form (`1e+21`) that `${n}` produces from 10^21 on, are not modelled; Text.IntToString always writes decimal digits.
- Query.GetParameterByName: treats the parameter name literally. The code escapes only `[` and `]`, so other regular-expression metacharacters in a name would act as patterns.
- `decodeURIComponent` is a parameter, not defined here. `new URL(...)` parsing is also left out: a request carries its protocol and port already parsed.
- Cache keys are resolved GET request URLs. The offline page key `/offline.html` stands for that path resolved against the worker's origin, as `cache.match` resolves it. A request carries no method, so `cache.match` finding nothing for a non-GET request is not modelled.
- The Cache API's own refusals (non-GET requests, partial 206 responses) reject the un-awaited `cache.put` and are not modelled. So a put is modelled as always succeeding; the response served is unaffected.
- Response bodies, status codes other than the `ok` flag, and the byte-level `response.clone()` are abstracted to values. The `sync` object's values are booleans, since the code only ever writes `favorite: true`.
- Review ratings are kept as the form's text (`Str`); the code enforces no range on them.
- In `fetchRestaurantFromApi` with a null restaurant, the model rejects with the review fetch's error if that fetch fails and with TypeError otherwise. The JSON-null case fails either way, and the caller treats both the same.
- Records keep only the fields the core reads or writes. Address, coordinates, operating hours and photograph sizes pass through untouched.
