# Fast-food nutrition lookup — a Dafny model

This project models the logic of a small nutrition-lookup web application.
The user picks a country, then a restaurant brand (a *branch*), then browses
or searches that branch's menu and opens one item to see its nutrition facts.

- **Router** (`backend/server.js`): each Express route is a pure function from
  the store and the request parameters to the HTTP response and the store
  after the route's one SQL statement. The store holds four tables:
  `countries`, `branches`, `branch_locations` and `food_items`. The SQL
  joins are written as recursive enumerations, and each one is proved equal,
  as a multiset, to an independent description of the rows it must return.
  Whether the statement fails in the store is an explicit `storeFails`
  argument.
- **Home** (`frontend/hello.js`): brand-logo resolution, the search-box
  filter, the layout of the result cards and the random-item button.
- **ItemPage** (`frontend/item.js`): `getQueryParam`, the single fetch of
  `/item?id=`, and the `value || "N/A"` display fallback.
- **Js** and **Store** hold the shared pieces. `Js` covers JavaScript
  truthiness, `||`, `toLowerCase`, `includes` and `trim`. `Store` covers the
  row types, the schema's key guarantees (`Valid`), and how a string request
  parameter is compared with an integer column (`Matches`).

The model follows the code as written:
- The routes in backend/server.js have no `/api` prefix.
- There is no `/health` route.
- `/countries` has no `ORDER BY` (backend/server.js:78), so no row order is promised.
- A required parameter that is present but empty fails the falsy test
  (backend/server.js:88, 107, 128) and is rejected like a missing one.

## Model

| member | source | states |
|---|---|---|
| Router.Countries | backend/server.js:76-83 | 200 with one `{id, name}` row per country and nothing else; a store failure is 500 "Database error"; the store is unchanged |
| Router.Branches | backend/server.js:86-102 | absent or empty `country_id` gives 400 "country_id is required"; otherwise a store failure gives 500; otherwise 200, and a row is listed iff it is some branch's `{id, name}` and that branch has a location in the country (an empty list is still 200); the store never changes |
| Router.JoinBranchesMembers | backend/server.js:91-97 | the branch/location join contains exactly the rows of branches that have a location in the requested country |
| Router.BranchRowMultiplicity | backend/server.js:91-97 | a branch's row appears (copies of the branch) × (its locations in the country) times: one row per joined pair, no DISTINCT |
| Router.BranchesOnePerLocation | backend/server.js:91-98 | on a store with primary keys, `/branches` lists a branch exactly once per location it has in the country |
| Router.BranchListedPerLocation | backend/server.js:92-95 | a branch with two locations in one country is listed twice |
| Router.Items | backend/server.js:105-123 | 400 "country_id and branch_id are required" if either parameter is falsy; 500 on store failure; otherwise 200 with exactly the projected rows of items whose location matches both the country and the branch; the store never changes |
| Router.ViewsViaAtMostOne | backend/server.js:115-116 | an item joins with at most one location (location ids are a primary key), and with one exactly when it is in scope |
| Router.ItemsExactlyOnce | backend/server.js:111-119 | on a valid store, every in-scope item appears exactly once in `/items` and every other item not at all; the projection drops `branch_location_id` |
| Router.SelectFirst | backend/server.js:131-133 | the first selected row is the first row, in table order, whose id the parameter names |
| Router.Item | backend/server.js:126-137 | 400 "id is required" on a falsy id; 500 on store failure; 404 "Item not found" iff no row has that id; otherwise 200 with the whole stored row (all columns) of the first matching row |
| Router.ItemReturnsStoredRow | backend/server.js:131-133 | on a valid store, `/item` returns exactly the row stored under that id |
| Router.AddItem | backend/server.js:140-160 | on success: 201 with an id no existing item has, and exactly one row appended carrying the submitted fields (undefined ones as NULL); other tables unchanged; the store stays valid. On failure: 500 and the store unchanged |
| Router.AddThenGet | backend/server.js:140-156 | the id returned by a POST, sent back as `/item?id=<id>`, fetches a row with the submitted field values |
| Router.WithoutIdempotent | backend/server.js:166 | running the DELETE statement twice leaves what running it once leaves |
| Router.DeleteItem | backend/server.js:163-171 | 204 whether or not a row existed; afterwards no row has the id and every other row is still there; the other tables and the counter are unchanged; on failure 500 and nothing changes |
| Router.DeleteIdempotent | backend/server.js:163-167 | a second delete of the same id answers 204 and leaves the store as the first left it |
| Router.DeleteThenGet | backend/server.js:163-167 | after a delete, `/item` with that id answers 404 |
| Router.Handle | backend/server.js:61-171 | every answer is one of 200/201/204/400/404/500; a missing parameter is 400 with the store unchanged; a store failure is 500 "Database error" with the store unchanged; read-only routes never change the store; validity is preserved |
| Router.ValidationBeforeStore | backend/server.js:86-128 | a request missing a required parameter gets the same answer whatever the store holds and whether or not it would fail: no query is issued |
| Router.Walkthrough | backend/server.js:86-171 | seeded store: branches list `[{2, "Test Co"}]`, items list `[]`, POST answers 201 with id 1, `/item?id=1` returns the burger, DELETE answers 204, then `/item?id=1` answers 404 |
| Store.ParseShowNat | backend/server.js:131 | an id rendered in decimal reads back as the same id, so an id taken from a response and sent as `?id=` selects that row |
| Js.IncludesIffOccurs | frontend/hello.js:96 | the recursive `includes` is true exactly when the key occurs at some position of the name |
| Js.TrimEmptyIff | frontend/item.js:10 | `trim()` gives the empty string exactly when every character is whitespace |
| Home.ResolveLogo | frontend/hello.js:87-101 | the chosen logo is either the placeholder or a url from the brand table |
| Home.ExactKeyWins | frontend/hello.js:90-92 | a lower-cased name equal to a key gets that key's url |
| Home.FirstIncludedKeyWins | frontend/hello.js:94-99 | otherwise, the url of the first key in table order that the lower-cased name includes |
| Home.FirstIncludedFindsUrl | frontend/hello.js:95-99 | the scan finds nothing iff no key is included; when it finds one, it is the first included key in table order |
| Home.NoKeyPlaceholder | frontend/hello.js:88 | a name that includes no key gets the base64 placeholder |
| Home.LogoIgnoresCase | frontend/hello.js:87 | names with the same lower-case form get the same logo, and lower-casing the name first changes nothing |
| Home.BrandLogosWellFormed | frontend/hello.js:24-40 | the table's keys are distinct and every url is non-empty |
| Home.ResolveLogoAsWritten | frontend/hello.js:87-101 | the logo as the page computes it: the placeholder, a url from the brand table, or the text of a member inherited from `Object.prototype` |
| Home.ConstructorBranchLogo | frontend/hello.js:91-92 | the lookup as written gives a branch named "Constructor" the `Object` function's text as its image source; the corrected lookup gives the placeholder |
| Home.AsWrittenAgreesElsewhere | frontend/hello.js:91-92 | for every other lower-cased name, the lookup as written and the corrected one choose the same logo |
| Home.FilterLowered | frontend/hello.js:263-265 | the filter throws iff some name is not a string; otherwise it returns an in-order subsequence in which each item that hits keeps all its copies and every other item has none |
| Home.SearchFilter | frontend/hello.js:261-266 | the search keeps, in original order, exactly the items whose lower-cased name includes the lower-cased term |
| Home.SearchIdempotent | frontend/hello.js:262-265 | filtering the results again with the same term changes nothing |
| Home.EmptyTermKeepsAll | frontend/hello.js:262-265 | an empty term keeps every item |
| Home.DisplayResults | frontend/hello.js:169-235 | an empty list shows "No menu items found" and no cards; otherwise there is one card, in list order, per item with a truthy id. The card at list position i has category (i % 5) + 1 in 1..5 and icon i % 5 in 0..4, counted over the unfiltered positions |
| Home.RandomPick | frontend/hello.js:238-245 | with no items the button alerts; otherwise it opens an item from the list |
| ItemPage.ParamGet | frontend/item.js:8-9 | `get` is absent iff no pair has the name; otherwise it returns the first pair's value |
| ItemPage.GetQueryParam | frontend/item.js:7-11 | null iff the value is absent, empty or whitespace only, or the literal "undefined"; otherwise the raw, untrimmed value |
| ItemPage.Shown | frontend/item.js:19-29 | a shown field is always truthy: the stored value if truthy, else "N/A" |
| ItemPage.ZeroShowsNotAvailable | frontend/item.js:21 | a numeric 0 (zero calories) and a null are shown as "N/A"; the string "0.00" is shown as is |
| ItemPage.Details | frontend/item.js:19-29 | the eleven fields in page order, each its stored value if truthy, else "N/A" |
| ItemPage.OnLoad | frontend/item.js:36-41 | exactly one effect: a fetch for the raw id when it is usable, otherwise the "No valid item ID" alert and no fetch |
| ItemPage.OnResponse | frontend/item.js:13-33 | a non-2xx response raises "Failed to fetch food details"; a 2xx item record is shown field by field |
| ItemPage.StoredItemPage | frontend/item.js:15-29 | a page opened with a stored item's id fetches that id once and shows that item's facts |
| ItemPage.MissingItemPage | frontend/item.js:16 | an id no row has ends in the failure alert |

## Findings

| source | as written | input that shows it | evidently intended | confidence | as-written member | corrected member |
|---|---|---|---|---|---|---|
| frontend/hello.js:91-92 | `if (brandLogos[branchNameLower])` also finds members an object literal inherits from `Object.prototype` | a branch named "Constructor" (or "__proto__"): the image source becomes `function Object() { [native code] }` (or `[object Object]`) | an own-key lookup, so such a branch falls through to the substring scan and gets the placeholder | high (follows from JavaScript property lookup), not executed | Home.ConstructorBranchLogo | Home.ResolveLogo |

The model's logo functions (`Home.ResolveLogo` and the lemmas about it) use
the corrected own-key lookup. `Home.ResolveLogoAsWritten` keeps the page's
behaviour for comparison.

## Left out

- Express middleware, CORS, body parsing, static file serving, the MySQL pool, `testConnection`, `process.exit` and `startServer`: framework plumbing and process lifecycle. A store failure is the `storeFails` argument.
- The SQL engine: joins and filters are recursive enumerations over the tables. The model's row order is one possible order; the contracts speak only of membership and multiplicity, because the queries have no `ORDER BY`.
- MySQL's lax coercion of string parameters against integer columns (`"1abc"`, `" 1"`, `"1.0"`): `Matches` accepts decimal digit strings only. Array-valued query parameters (`?id=1&id=2`) are not modelled.
- Column type coercion on insert: a row stores the submitted JSON values as they are, except `undefined`, which the driver writes as NULL. Foreign-key and type rejections by the store are part of `storeFails`. The join key of `branch_location_id` is read through `AsKey`.
- Router.Countries: states the row count and row membership, not the multiplicity of each row; with primary keys every country is distinct, so the two agree.
- `fetch`, `res.json`, `alert`, `console`, every DOM update and event listener, scrolling, the mobile menu and back-to-top: I/O and user interface. Effects are returned as values instead (`ItemPage.Effect`, `ItemPage.Screen`, `Home.Results`).
- The branch list's own "No branches available" message and the country selector's show/hide logic (frontend/hello.js:64-78, 247-259): user-interface wiring around the logo rule.
- Home.DisplayResults: the card's description paragraph is not modelled. Rows from `/items` have no `description` column, so it is always the default text.
- Home.RandomPick: `Math.floor(Math.random() * n)` is the parameter `pick`, an arbitrary index below n; floating point is not modelled.
- The `/api` prefix the home page uses against the backend's unprefixed routes: deployment wiring.
- Case mapping: `toLowerCase` lowers ASCII letters only. JavaScript's full Unicode case mapping is not modelled. `trim` removes exactly the ECMAScript whitespace and line-terminator code points.
- Percent-encoding: `encodeURIComponent` and the URL decoding of query strings are taken to be inverse. The page's parameters are given already decoded.
- JavaScript `NaN`: numbers are exact reals, so the falsy number is 0 only.
- tailwind.config.js and backend/tailwind.config.js: build configuration with no logic.
