# Settlements: router, aggregation strategies and table pagination in Dafny

This project models the core of the *settlements* web application. The core has three parts.

- **The HTTP router** (`internal/transport/http/router/router.go`) is a segment trie.
  - A segment is a literal, a `:param` or a `*catchall`.
  - Each node stores its handlers keyed by the upper-cased method.
  - Routing uses `match`, `pathExists` and `ServeHTTP`. `ServeHTTP` answers 404 or 405, or runs the handler wrapped in the middlewares.
- **The aggregations of the service package**:
  - the settlement-type statistics, the district totals and the longitude buckets, as `AggregationStrategy` implementations (`internal/service/strategy.go`);
  - the same first two written out with explicit presence checks (`internal/service/service.go`);
  - `ServiceV2` and the custom filter strategy (`internal/service/service_refactored.go`).
- **The pagination of the statistics table** (`web/static/js/tables.js`): the rows of a page, the window of page buttons, the ellipses, and the page change on a click.

## How the model is built

- **Router.** The Go `*node` graph becomes an arena.
  - The class `Router.Router` owns a `seq<Trie.Node>` with the root at index 0, and every `*node` is an index.
  - `Handle`, `match`, `pathExists` and `ServeHTTP` are imperative methods with the Go loops. Each is proved equal to a pure function of module `Trie`: `Register`, `MatchOf`, `PathExistsIn`, and `Router.Dispatch`.
  - The facts about the router are proved about those functions (module `TrieFacts`), and on the scenarios of the repository's router tests (module `RouterScenarios`).
  - A middleware is an identity. What a wrapped handler does is a trace `Enter(m) … Run(h) … Exit(m)`.
- **Aggregations.**
  - They are methods with the Go loops over the records and over the keys of the accumulated maps. Go's unspecified map order is an arbitrary choice (`:|`) of the next key.
  - `sort.Slice` is an insertion sort, proved to give an ordered permutation.
  - Each loop is proved against functions of the records (`CountOf`, `PopulationSum`, `MinPopulation`, `DistrictSum`, `BucketSum`, …).
  - Each result is characterised by a predicate (`IsSettlementTypeAggregate`, `IsDistrictAggregate`, `Buckets`). That predicate fixes the result up to the order of equal keys (`SettlementTypeAggregateUnique`, `DistrictAggregateUnique`); the longitude result is fixed exactly.
  - The repository read is the parameter `cities`, one snapshot for every strategy.
- **Pagination.** The module-level `currentPage` of the script is a field of the class `Pagination.Pager`.
  - The DOM output is a sequence of `Control` values: `Previous`, `PageButton(n)`, `Ellipsis` and `Next`.
  - `renderPagination`'s loop is proved to produce `Controls(currentPage, totalPages)`.

Where the code and its documentation disagree, the model follows the code:

- A request for `/api` does not reach the catch-all of `/api/*rest`. `match` ends on the literal node `api`, which has no handler (`RouterScenarios.CatchAllRest`).
- Empty interior segments (`/a//b`) are kept as empty literal segments, as `strings.Split` does.
- A late catch-all makes `Handle` panic, but the nodes created before the panic stay in the trie (`Trie.Register`).
- The longitude aggregation's half-open buckets never count the city with the largest longitude. In exact arithmetic the last bucket ends at the maximum (`Longitude.LargestLongitudeInNoBucket`).

## Model

| member | source | states |
|---|---|---|
| GoStrings.ToUpper | internal/transport/http/router/router.go:102 | same length as the input, each character upper-cased (ASCII letters) |
| GoStrings.ToUpperIdempotent | internal/transport/http/router/router.go:172 | upper-casing twice is upper-casing once, so a handler stored under the upper-cased method is found under any casing of it |
| GoStrings.TrimPrefix | internal/transport/http/router/router.go:152 | when the prefix is present the input is prefix + result, otherwise the input is returned unchanged |
| GoStrings.TrimLeftSlashes | internal/transport/http/router/router.go:212 | the result is a suffix of the input, only '/' was removed, and it does not start with '/' |
| GoStrings.TrimRightSlashes | internal/transport/http/router/router.go:212 | the result is a prefix of the input, only '/' was removed, and it does not end with '/' |
| GoStrings.Split | internal/transport/http/router/router.go:216 | at least one part, and no part contains '/' |
| GoStrings.JoinSplit | internal/transport/http/router/router.go:160 | joining the parts of a split with "/" gives back the string |
| GoStrings.SplitJoin | internal/transport/http/router/router.go:216 | splitting the "/"-join of slash-free parts gives back the parts |
| Trie.SplitPath | internal/transport/http/router/router.go:208-217 | the segments are slash-free and join to the path with its outer slashes trimmed; no segments exactly when the trimmed path is empty |
| Trie.FindLiteral | internal/transport/http/router/router.go:86-91 | a found child is a listed child with that segment; nothing is found exactly when no listed child has that segment |
| Trie.Attach | internal/transport/http/router/router.go:75-77 | the new node is a fresh leaf at the end of the arena, the parent is updated and every other node is unchanged; the arena stays well formed and only grows |
| Trie.Insert | internal/transport/http/router/router.go:64-102 | the arena stays well formed and only grows: no node loses its segment, a child or a served method; apart from the upper-cased method being registered, every node serves exactly the handlers it served before and new nodes serve none; registration succeeds exactly when no catch-all precedes the last segment |
| Trie.Register | internal/transport/http/router/router.go:58-103 | registration succeeds exactly when the path starts with '/' and a catch-all is only last; a path without a leading '/' leaves the trie unchanged; handlers of every other method are kept exactly |
| TrieFacts.WalkImpliesReaches | internal/transport/http/router/router.go:179-206 | whenever match finds a handler, pathExists holds for that path |
| TrieFacts.ReachesGivesMethod | internal/transport/http/router/router.go:205 | whenever pathExists holds, some method matches the path |
| TrieFacts.PathExistsIffSomeMethodMatches | internal/transport/http/router/router.go:178-206 | pathExists(path) exactly when match succeeds for some method |
| TrieFacts.FindLiteralExtends | internal/transport/http/router/router.go:140-145 | a static child found before a registration is still the one found after it |
| TrieFacts.FindLiteralAppended | internal/transport/http/router/router.go:92-95 | a static child appended because none matched is then the one found |
| TrieFacts.InsertThenWalkLiteral | internal/transport/http/router/router.go:84-98 | after registering a literal-only rest of a path below a node, walking that rest from the node finds the handler, for any casing of the method |
| TrieFacts.MatchAfterRegisterLiteral | internal/transport/http/router/router.go:58-103 | after Handle of a literal-only path, match of the same path and method (any casing) returns that handler with no parameters |
| TrieFacts.InsertFromLeafFrame | internal/transport/http/router/router.go:75-95 | registering below a fresh leaf changes no other node |
| TrieFacts.InsertFromLeafThenWalk | internal/transport/http/router/router.go:64-98 | registering a template below a fresh leaf, then walking a request that fits it, returns the handler and the bindings of its parameters |
| TrieFacts.MatchOnFreshRouter | internal/transport/http/router/router.go:137-167 | on a new router, a registered template matches every request that fits it: ':' names bind their segments and the catch-all name binds the "/"-joined rest |
| TrieFacts.SplitPathRoundTrip | internal/transport/http/router/router.go:208-217 | "/" followed by the join of nonempty-ended, slash-free parts splits back into those parts |
| TrieFacts.SplitPathIgnoresTrailingSlash | internal/transport/http/router/router.go:208-217 | for every path p, p + "/" has the same segments as p |
| TrieFacts.SplitPathOfRoot | internal/transport/http/router/router.go:209-211 | "/" and "" have no segments |
| Router.ChainOrder | internal/transport/http/router/router.go:123-128 | the wrapped handler enters the middlewares in the order of Use, runs the handler, and leaves them in reverse order (2n+1 events) |
| Router.DispatchOutcomes | internal/transport/http/router/router.go:113-122 | 404 exactly when no method matches the path; 405 exactly when this method does not match but another does; a handler runs exactly when match succeeds |
| Router.Router.constructor | internal/transport/http/router/router.go:35-50 | a new router holds only the root "/" and no middleware |
| Router.Router.Use | internal/transport/http/router/router.go:53-55 | appends the middleware and leaves the trie unchanged |
| Router.Router.FindChild | internal/transport/http/router/router.go:86-91 | the static-child scan returns the first child with the segment (FindLiteral) |
| Router.Router.Handle | internal/transport/http/router/router.go:58-103 | the new trie and the success flag are those of Register on the old trie (the flag is false where Go panics); the middlewares are unchanged |
| Router.Router.GET | internal/transport/http/router/router.go:106 | Handle with method "GET" |
| Router.Router.POST | internal/transport/http/router/router.go:107 | Handle with method "POST" |
| Router.Router.Match | internal/transport/http/router/router.go:132-176 | the loop's result is MatchOf: static child first, then the parameter child, then the catch-all, never backtracking |
| Router.Router.PathExists | internal/transport/http/router/router.go:179-206 | the loop's result is PathExistsIn |
| Router.Router.ServeHTTP | internal/transport/http/router/router.go:110-129 | the outcome is Dispatch: 405 or 404 on a failed match, otherwise the handler wrapped from the last middleware to the first |
| RouterScenarios.StaticChildrenPriority | internal/transport/http/router/router.go:139-149 | with /users/me and /users/:id registered, /users/me reaches the static handler and /users/123 the parameter handler with id = 123 |
| RouterScenarios.CatchAllRest | internal/transport/http/router/router.go:158-164 | /api/*rest matches /api/v1/users/123/posts with rest = "v1/users/123/posts"; /api alone matches nothing and is a 404 |
| RouterScenarios.MethodsAndStatuses | internal/transport/http/router/router.go:113-121 | with GET /test registered, POST /test is a 405 and GET /nonexistent a 404; with POST /test also registered, each method reaches its own handler |
| RouterScenarios.ChainOfTwo | internal/transport/http/router/router.go:124-127 | two middlewares run as m1, m2, handler, then leave as m2, m1 |
| RouterScenarios.TwoMiddlewares | internal/transport/http/router/router.go:123-128 | ServeHTTP of GET /test with two middlewares yields the trace m1, m2, handler, m2, m1 |
| RouterScenarios.NoBacktracking | internal/transport/http/router/router.go:137-167 | with /a/b/c and /a/:x/d registered, /a/b/d matches nothing for any method and is a 404, because the static child b is taken and there is no backtracking |
| RouterScenarios.FirstParameterNameKept | internal/transport/http/router/router.go:80-83 | after /users/:id and /users/:uid/posts, /users/7/posts binds id, the first registered name of the shared parameter node |
| Cities.CountPositiveIffType | internal/service/strategy.go:64 | a type has a positive record count exactly when it occurs |
| Cities.AbsentTypeSumsZero | internal/service/strategy.go:35-41 | a type that does not occur has count, population sum and children sum zero |
| Cities.AbsentDistrictSumZero | internal/service/strategy.go:97 | a district that does not occur has total population zero |
| Cities.MinPopulationIsLeast | internal/service/strategy.go:43-50 | the minimum population of a type is at most each of its records' populations, and some record attains it |
| Cities.MaxPopulationIsGreatest | internal/service/strategy.go:52-59 | the maximum population of a type is at least each of its records' populations, and some record attains it |
| Cities.MinAtMostMax | internal/service/strategy.go:69-70 | the minimum population of a type is at most its maximum |
| Strategies.TypeRow | internal/service/strategy.go:65-71 | a row carries its type; its average population times the count is the population sum, and likewise for children |
| Strategies.TypeRowBounds | internal/service/strategy.go:69-70 | every record of the type lies between the row's minimum and maximum, and both are attained |
| Strategies.AccumulatedStep | internal/service/strategy.go:33-60 | one pass of the loop body (zero-value map reads and the existence checks) turns the maps for the records seen into the maps for one more record |
| Strategies.AccumulateByType | internal/service/strategy.go:27-60 | the five maps have exactly the occurring types as keys and hold each type's count, population sum, children sum, minimum and maximum |
| Strategies.TypeRows | internal/service/strategy.go:63-73 | one row per occurring type, each with that type's statistics, no type twice |
| Strategies.SortByAveragePopulation | internal/service/strategy.go:75-78 | the rows are a permutation of the input, by non-increasing average population |
| Strategies.SettlementTypeAggregate | internal/service/strategy.go:26-81 | the result has exactly one row per occurring type with its statistics, by non-increasing average population |
| Strategies.DistrictSumsStep | internal/service/strategy.go:97 | one `+=` on the zero-value map turns the totals for the records seen into the totals for one more record |
| Strategies.AccumulateByDistrict | internal/service/strategy.go:94-98 | the map has exactly the occurring districts as keys, each with its total population |
| Strategies.DistrictPoints | internal/service/strategy.go:100-106 | one point per occurring district, carrying its total, no district twice |
| Strategies.SortByPopulation | internal/service/strategy.go:108-111 | the points are a permutation of the input, by non-increasing total |
| Strategies.DistrictAggregate | internal/service/strategy.go:93-114 | exactly one point per occurring district with its total population, by non-increasing total |
| Strategies.SettlementTypeAggregateUnique | internal/service/strategy.go:75-78 | any two results of the settlement-type aggregation hold the same rows, so map order only reorders ties |
| Strategies.DistrictAggregateUnique | internal/service/strategy.go:108-111 | any two results of the district aggregation hold the same points |
| Sorting.SortDescending | internal/service/strategy.go:76-78 | the result is ordered by non-increasing key and is a permutation of the input |
| Sorting.PermutationKeepsKeysDistinct | internal/service/strategy.go:75-78 | reordering rows whose keys are distinct keeps them distinct |
| Sorting.SameElementsPermutation | internal/service/strategy.go:101-106 | two duplicate-free sequences with the same elements are permutations of each other |
| Longitude.NewLongitudeAggregationStrategy | internal/service/strategy.go:128-133 | a positive count is kept, any other becomes the default 100 |
| Longitude.MinLongitudeIsLeast | internal/service/strategy.go:142-152 | the minimum longitude is at most every record's, and some record attains it |
| Longitude.MaxLongitudeIsGreatest | internal/service/strategy.go:142-152 | the maximum longitude is at least every record's, and some record attains it |
| Longitude.StepSign | internal/service/strategy.go:154 | the step is non-negative, and zero exactly when all longitudes are equal |
| Longitude.EmptyBucketSumsZero | internal/service/strategy.go:162-167 | a bucket no record falls into sums to zero |
| Longitude.Buckets | internal/service/strategy.go:157-173 | as many buckets as the count, none when it is not positive |
| Longitude.BucketsIncreasing | internal/service/strategy.go:159 | with a positive step, bucket starts strictly increase |
| Longitude.BucketsEmpty | internal/service/strategy.go:154-167 | when all longitudes are equal, every bucket starts at that longitude and sums to zero |
| Longitude.BucketsShape | internal/service/strategy.go:157-173 | the buckets either strictly increase by start, or all equal (minimum, 0) |
| Longitude.LargestLongitudeInNoBucket | internal/service/strategy.go:159-164 | in exact arithmetic the record with the largest longitude falls in no bucket, because the last bucket's exclusive end is the maximum |
| Longitude.StrictlyAscendingUnique | internal/service/strategy.go:176-178 | an ascending permutation of a strictly ascending sequence is that sequence |
| Longitude.ConstantUnique | internal/service/strategy.go:176-178 | any permutation of a constant sequence is that sequence |
| Longitude.LongitudeRange | internal/service/strategy.go:142-152 | the scan returns the minimum and maximum longitude |
| Longitude.BucketTotal | internal/service/strategy.go:162-167 | the inner loop sums the population of the records in [start, end) |
| Longitude.FillBuckets | internal/service/strategy.go:157-173 | bucket k starts at min + k*step and holds the population of [start, start+step) |
| Longitude.SortByBucketStart | internal/service/strategy.go:176-178 | sorting by start leaves the buckets as built |
| Longitude.LongitudeAggregate | internal/service/strategy.go:136-181 | no buckets for no records; otherwise exactly Buckets, count many, ordered by start |
| CustomStrategy.FilterAccepted | internal/service/service_refactored.go:80-81 | every kept record passes the filter |
| CustomStrategy.FilterMembership | internal/service/service_refactored.go:79-83 | a record is kept exactly when it is an input record that passes the filter |
| CustomStrategy.FilterIsSubsequence | internal/service/service_refactored.go:79-83 | the kept records appear in the input order |
| CustomStrategy.FilterNotLonger | internal/service/service_refactored.go:78-84 | no more records are kept than given |
| CustomStrategy.FilterIdempotent | internal/service/service_refactored.go:77-85 | filtering the kept records again keeps them all |
| CustomStrategy.CustomAggregate | internal/service/service_refactored.go:77-85 | the loop's result is Filter of the records |
| Aggregator.NameIdentifiesKind | internal/service/strategy.go:84-86 | the four strategy names (this one and those at strategy.go lines 117-119 and 184-186, and service_refactored.go lines 88-90) tell the kinds apart: equal names exactly when same kind |
| Aggregator.Aggregate | internal/service/strategy.go:202-205 | the result is the strategy's own aggregation of the records |
| Aggregator.AggregateMultiple | internal/service/strategy.go:208-214 | one result per strategy, in order, each that strategy's aggregation |
| Service.AccumulateWithPresenceChecks | internal/service/service.go:38-77 | the presence-checked loop leaves the same maps as the strategy's loop |
| Service.GetAllSettlementTypeData | internal/service/service.go:29-97 | the same result as the settlement-type strategy |
| Service.AccumulateDistrictsWithPresenceChecks | internal/service/service.go:132-139 | the presence-checked loop leaves each district's total population |
| Service.GetDistrictPopulationData | internal/service/service.go:127-155 | the same result as the district strategy |
| ServiceV2.GetLongitudePopulationData | internal/service/service_refactored.go:42-46 | 100 buckets for nonempty records, none otherwise |
| ServiceV2.GetLongitudePopulationDataWithBuckets | internal/service/service_refactored.go:50-54 | the given count of buckets, or 100 when it is not positive; none for no records |
| Pagination.SliceIndex | web/static/js/tables.js:7 | Array.prototype.slice's index normalisation: clamped to the length, negative indices count from the end |
| Pagination.PageRowsWindow | web/static/js/tables.js:4-7 | page p shows the rows from (p-1)*5 on, at most 5 of them |
| Pagination.RowOnItsPage | web/static/js/tables.js:5-7 | row i is shown on page i/5 + 1 at position i%5 |
| Pagination.TotalPages | web/static/js/tables.js:26 | the ceiling of rows/5: enough pages for every row, and no empty last page |
| Pagination.PageWindow | web/static/js/tables.js:30-36 | the window starts at page 1 or later, ends no later than the last page and spans at most 10 pages |
| Pagination.WindowSize | web/static/js/tables.js:30-36 | the window spans exactly min(10, page count) pages |
| Pagination.CurrentPageInWindow | web/static/js/tables.js:31-36 | a current page in range is inside its window |
| Pagination.PageButtons | web/static/js/tables.js:54-60 | one numbered button per page of the window, in order |
| Pagination.NumberedButtons | web/static/js/tables.js:54-60 | the loop emits the window's numbered buttons |
| Pagination.RenderPagination | web/static/js/tables.js:25-75 | the rendered controls are: previous, leading "1 …" when the window starts after 1, the window, trailing "… last" when it ends before the last page, next |
| Pagination.LeadingEllipsisIff | web/static/js/tables.js:46-51 | the controls start with "1 …" exactly when the window starts after page 1 |
| Pagination.TrailingEllipsisIff | web/static/js/tables.js:63-68 | the controls end with "… last" exactly when the window ends before the last page |
| Pagination.ButtonsWithinPages | web/static/js/tables.js:46-68 | every numbered button names an existing page |
| Pagination.ClickKeepsInRange | web/static/js/tables.js:80-84 | a click on a rendered control keeps the current page between 1 and the page count |
| Pagination.ArrowsUndo | web/static/js/tables.js:82-83 | previous then next, or next then previous, returns to the page when neither arrow is blocked |
| Pagination.Pager.constructor | web/static/js/tables.js:1-2 | the table starts on page 1 |
| Pagination.Pager.RenderTable | web/static/js/tables.js:4-7 | the rows shown are PageRows of the current page |
| Pagination.Pager.Render | web/static/js/tables.js:25-75 | the controls shown are those of the current page |
| Pagination.Pager.Click | web/static/js/tables.js:79-87 | the current page becomes NextPage of the old one and stays in range |

## Left out

- HTTP plumbing is left out: `http.ResponseWriter`, `*http.Request`, the 404/405 writers and their response bodies. Outcomes are the values `NotFound`, `MethodNotAllowed` and `Handled`.
- What a middleware or a handler does is left out. A middleware is an identity whose effect is the Enter/Exit events around the next handler, and one that does not call next is not modelled.
- Concurrent use of the router and of the services is left out. The Go code has no locking either.
- `*node` references are arena indices, so node sharing is limited to what the Go code creates: every node has one parent.
- Handler values are opaque identities, and the `cur.handlers == nil` guards are omitted. Every node is created with a map in the Go code. A nil handler is not modelled: in Go, `Handle(m, p, nil)` stores nil, and `match` then reports no handler, so ServeHTTP answers 405; in the model every registered handler is dispatched.
- GoStrings.ToUpper: upper-cases ASCII letters only, because Unicode case mapping is not modelled.
- `int` overflow is left out. Population sums are unbounded integers.
- Strategies.TypeRow: averages are exact reals, not `float32` quotients, because floating-point rounding is not modelled. The sort by average can therefore order rows whose `float32` averages would tie.
- Longitude.Buckets: longitudes (`float32` in the DTO), the step and the bucket bounds (`float64` in the strategy) are exact reals. As a result, rounding can change which bucket a city near a boundary falls in, and whether the easternmost city is counted.
- `CityDTO.Childrens` is a `float32` in the DTO but is added to a `map[string]int`; the model uses an integer.
- The repository is not modelled. `cityRepo.All()` is the parameter `cities`: one snapshot shared by all strategies of `AggregateMultiple`. Go reads the repository again for each strategy, so the two agree only while the repository does not change between those reads. `Service.GetLongitudePopulationData` (service.go) is left out because it queries the repository per range with a float-stepped loop.
- ServiceV2.GetSettlementTypeData, ServiceV2.GetDistrictPopulationData, ServiceV2.ExecuteCustomStrategy and ServiceV2.ExecuteMultipleStrategies are not separate members. Each is a single unchanged call to `Aggregator.Aggregate` or `Aggregator.AggregateMultiple`, whose contracts cover them.
- The custom filter function is pure and total, with no side effects on the record.
- `sort.Slice` is an insertion sort. Only the ordering and the permutation are stated, not Go's placement of equal keys.
- The DOM, CSS classes and HTML strings of `tables.js` are not modelled. The button label is not parsed: a click carries the `Control` value rendered, and a click on an ellipsis changes nothing, like the NaN test on "...". The `DOMContentLoaded` wiring is also left out.
- Pagination.Pager.Click: requires a control from the current rendering, because the script only attaches handlers to rendered buttons.
