# AdTech hackathon service: a Dafny model

The service is a thin HTTP layer over PostgreSQL. At start-up it creates its
tables and seeds a fixed category taxonomy. It then answers five requests:

- a health check;
- categories under a parent;
- partners with their headline banners;
- a banner image by URL;
- promotions, either of one partner or ordered by distance to a point.

This project models that behaviour with the database as in-memory tables,
one sequence of rows per table, and proves properties of the model.

- `values.dfy` (`Values`): the Option and Result types, an abstract float
  with an "is zero" test, and a counting function.
- `schema.dfy` (`Schema`):
  - the row types and integrity predicates of the schema;
  - the category seed and its `insert ... ON CONFLICT DO NOTHING`;
  - the tree shape of the taxonomy.
- `params.dfy` (`Params`): `url.Values.Get` and `strconv.Atoi`, whose error
  the handlers discard. It is modelled digit by digit, like
  `strconv.ParseInt`: a syntax error gives 0 and an overflow gives the int64
  bound of the sign. The overflow is found before a later non-digit, so a
  text that is not a number reads as 0 only when its leading run of digits
  (after the sign) fits in a uint64; otherwise it reads as a bound (see
  Findings).
- `http.dfy` (`Http`): a `ResponseWriter` class with net/http's ordering
  rules:
  - the first `WriteHeader` fixes the status and the headers the handler set;
  - `Write` implies status 200;
  - later changes do not reach the client.
- `ranking.dfy` (`Ranking`): `ORDER BY ... DESC` over nullable keys, with
  NULLs first. A stable insertion sort is one admissible order among equal
  keys.
- `storage.dfy` (`Storage`): the five queries of storage.go as functions over
  the tables, and the `Storage` methods as the query plus error wrapping.
  - A failing store is a `fault` parameter.
  - A `?::int` parameter outside PostgreSQL's `int` is a query error.
  - gorm scans NULL into the zero value, so an unmatched left join gives the
    URL "" and a NULL price level gives 0.
- `application.dfy` (`Application`): the handlers of application.go. Each is
  a method on a `ResponseWriter`, proved to produce the response that a
  response function describes. The lemmas are about those functions.
  - The JSON encoder refuses NaN and the infinities before writing anything,
    and the handlers drop its error. A partners answer whose store holds a
    non-finite location is therefore 200 with an empty body.
  - The promotions handler is modelled over the corrected storage methods
    (see Findings); over the methods as written every promotions request is
    a 500 (`Application.PromotionsResponseAsWritten`). Every promotions
    claim of a 200 answer below holds over the corrected methods only.
- `snapshot.dfy` (`Snapshot`): the older main.go. Its partners query has no
  join. `GetBannerURLs` groups banner URLs by partner id in a loop, and
  `GetPartners` writes each partner's `BannerURLs` in place in an array.
  - The errgroup is two sequential reads. When both fail, a scheduling flag
    picks which error `Wait` reports.
  - main.go's seed, category query and image lookup are the same SQL as in
    storage.go. They are modelled once, in `Schema` and `Storage`.

In geo mode the handler passes the parsed latitude into the storage
parameter named `long`. The point built from it therefore has the latitude
as x. That is also the component the partners query reports as latitude
(`location[0]`), so the two orders agree (`Application.GeoPointIsLatitudeFirst`).

## Model

| member | source | states |
|---|---|---|
| Schema.InsertOnConflictDoNothing | storage.go:35-48 | the insert keeps every existing row in place, adds only rows from the statement, and leaves exactly the union of old and inserted ids |
| Schema.InsertAppendsOnlyFresh | storage.go:48 | every appended row has an id that no earlier row (of the table or of the same statement) has; with the id union above, every free id is taken by exactly one appended row |
| Schema.InsertKeepsFirstOfEachId | storage.go:35-48 | when a statement repeats an id, the first of its rows wins: every appended row is the first statement row with its id, and every such first row whose id the table lacks is appended |
| Schema.InsertKeepsIdsUnique | storage.go:29 | the insert keeps the category primary key unique |
| Schema.InsertKeepsTree | storage.go:28-48 | inserting a tree-shaped set of rows into a tree-shaped table keeps it tree-shaped |
| Schema.InsertKeepsWellFormed | storage.go:28-48 | an insert whose rows' parents are present keeps every constraint of the store |
| Schema.MoreCategoriesKeepWellFormed | storage.go:28-71 | a larger category table that keeps the category constraints keeps every foreign key into it satisfied |
| Schema.InitCategories | storage.go:35-48 | start-up keeps every existing category row in place and leaves every seeded id 0-11 present |
| Schema.Init | storage.go:127-132 | start-up changes only the category table, keeping its rows and adding the seeded ids |
| Schema.InitKeepsTree | storage.go:35-48 | start-up keeps a tree-shaped category table tree-shaped |
| Schema.InitKeepsWellFormed | storage.go:10-72 | start-up keeps every key, foreign key and check constraint satisfied |
| Schema.InsertAllPresent | storage.go:35-48 | when every inserted id is already taken, the table is unchanged |
| Schema.InsertAllFresh | storage.go:35-48 | distinct rows whose ids are all new are appended in order |
| Schema.SeedAt | main.go:40-52 | seed row i has id i; row 0 has no parent, rows 1-6 have parent 0 and rows 7-11 have parent 1 |
| Schema.SeedIdsExact | main.go:40-52 | the seed's ids are exactly 0 to 11 |
| Schema.SeedIsTree | main.go:40-52 | the seed ids are distinct; only Root (id 0) has a null parent; every parent is a seeded id smaller than the child's |
| Schema.SeedParentsSeeded | main.go:40-52 | every seeded parent_id names a seeded row |
| Schema.InitIdempotent | main.go:40-53 | starting up twice leaves the store as starting up once does |
| Schema.InitKeepsSeededTable | main.go:40-53 | a category table that already holds ids 0-11 is left unchanged by start-up |
| Schema.InitOfEmpty | storage.go:35-48 | on an empty category table, start-up inserts exactly the seed rows, in order |
| Schema.InsertKeepsParentsPresent | storage.go:30 | the insert keeps the parent_id foreign key satisfied when each new row's parent is present or inserted alongside |
| Schema.InitKeepsParentsPresent | storage.go:28-48 | start-up keeps the parent_id foreign key satisfied |
| Schema.CategoryById | storage.go:29 | the row found for a present primary key is in the table and has that id |
| Schema.PathToRoot | storage.go:28-33 | in a tree-shaped table every category reaches Root through present parents, one parent link per step |
| Params.Get | application.go:25 | a query parameter reads as its first value, or "" when it is absent |
| Params.Atoi | application.go:25 | the parsed number is always an int64; the empty text reads as 0; a signed decimal reads as its value clamped to the int64 range; any other text reads as 0, unless the digits after its sign begin with a run above the uint64 maximum, which reads as the int64 bound of the sign |
| Params.ParseUint | application.go:25 | the empty text is a syntax error; a decimal parses to its value, or is a range error above the uint64 maximum; any other text is a range error when its leading run of digits exceeds the uint64 maximum and a syntax error otherwise; a value is parsed only from a decimal |
| Params.ScanValue | application.go:25 | the digit loop from accumulator n over digits s yields n·10^len(s) + value(s), or a range error exactly when that exceeds the uint64 maximum |
| Params.ScanParsedIsDecimal | application.go:25 | the digit loop yields a value only when every character is a digit |
| Params.ScanRangeErrorAppend | application.go:25 | once the digit loop has overflowed, appending characters, non-digits included, still gives a range error |
| Params.OverflowIgnoresTail | application.go:25 | a decimal above the uint64 maximum reads as the int64 maximum whatever follows it |
| Params.OverflowingTextIsNotZero | application.go:25 | the text of twenty nines and an "x" is not a signed decimal, yet reads as the int64 maximum rather than 0 |
| Params.AtoiOrZero | application.go:25 | the evidently intended parse: any text that is not a signed decimal, and any out-of-range value, reads as 0; an in-range signed decimal reads as its value |
| Params.AtoiOrZeroAgrees | application.go:25 | the intended parse agrees with Atoi exactly on the in-range signed decimals and on the other texts whose leading digits fit in a uint64, and differs on all the rest |
| Params.AtoiItoa | application.go:68 | every int64 written in decimal is read back as itself |
| Params.AtoiDefaultsToZero | application.go:25 | a text that is not a signed decimal and whose leading digits fit in a uint64 reads as 0; every such text of at most 19 characters qualifies (longer ones can overflow first: Params.OverflowingTextIsNotZero) |
| Params.ScanDigitsOfValue | application.go:68 | scanning the decimal digits of a uint64 gives it back |
| Params.ShortScanHasNoRangeError | application.go:25 | with at most 19 digits the scan cannot overflow, and fails exactly at a non-digit |
| Params.LeadingDigits | application.go:25 | the longest prefix of digits: a prefix, all digits, and followed by a non-digit unless it is the whole text |
| Params.ScanLeading | application.go:25 | over a text that is not all digits, the digit loop gives a range error exactly when the leading run of digits drives the value above the uint64 maximum, and a syntax error otherwise |
| Params.ShortTextCannotOverflow | application.go:25 | no text of at most 19 characters begins with digits above the uint64 maximum |
| Params.LetterFirstReadsAsZero | application.go:25 | a text starting with neither a sign nor a digit reads as 0, whatever its length |
| Params.LongWordReadsAsZero | application.go:25 | the twenty-letter text "abcdefghijklmnopqrst" reads as 0 |
| Http.ResponseWriter.WriteHeader | application.go:17 | only the first call sets the status and fixes the headers the handler has set so far |
| Http.ResponseWriter.Write | application.go:18 | appends the chunk and implies status 200 when no status was sent |
| Http.ResponseWriter.SetHeader | application.go:62 | changes the header map and nothing else |
| Ranking.Insert | storage.go:119 | inserting a row keeps every row with its own key (a multiset of rows) and adds the new one |
| Ranking.Sort | storage.go:119 | the ordering is a permutation of its input rows, each row keeping its own key, and so keeps the row count and the values |
| Ranking.SortSorted | storage.go:119 | the ordered rows are in descending key order with NULL keys first, and are a permutation of the input rows, keys included |
| Storage.BannerURLs | storage.go:78 | the joined URLs are exactly those of the banners linked to the id, one per linked banner |
| Storage.OrNull | storage.go:78 | a left join with no match yields one row with the empty URL; otherwise one row per match |
| Storage.CategoryItems | storage.go:76 | one category row per joined URL, carrying the category's id and name |
| Storage.CategoriesSQL | storage.go:75-79 | the category query yields at least one row for each category whose parent_id is the parameter |
| Storage.CategoriesMembership | storage.go:75-79 | a row is returned exactly when it comes from a category whose parent_id equals the parameter |
| Storage.CategoriesMultiplicity | storage.go:75-79 | with distinct ids, a child with k banners appears max(1, k) times, and a non-child never |
| Storage.NoChildren | storage.go:79 | a table with no row under the parent yields no rows |
| Storage.SeedRootChildren | storage.go:75-79 | on the seed alone with no banners, parent 0 yields ids 1-6 with their names and empty URLs, in order |
| Storage.PartnerItems | storage.go:83-86 | each partner row reports location[0] as latitude, location[1] as longitude, and NULL price level as 0 |
| Storage.PartnersSQL | storage.go:82-88 | the partners query yields at least one row per partner |
| Storage.PartnersMultiplicity | storage.go:82-88 | with distinct ids, each partner appears max(1, k) times; with no banner it appears once with the empty URL |
| Storage.PartnersMembership | storage.go:82-88 | a row is returned exactly when it is some partner joined with one of its banners or with the empty URL |
| Storage.PromotionItems | storage.go:98-104 | one promotion row per joined URL, carrying the promotion's id, title and description |
| Storage.AllPromotions | storage.go:98-104 | the unfiltered promotion join yields at least one row per promotion |
| Storage.PromotionsByPartnerSQL | storage.go:98-107 | the by-partner query yields at least one row for each promotion the filter keeps |
| Storage.ByPartnerZeroIsAll | storage.go:105-107 | partner id 0 returns the join of every promotion |
| Storage.ByPartnerFilters | storage.go:105-107 | any other partner id returns exactly the rows of that partner's promotions |
| Storage.OneDistanceKey | storage.go:117 | with distinct partner ids, the partner join adds exactly one row per promotion |
| Storage.DistanceKeyOfPartner | storage.go:116-119 | with distinct partner ids, a promotion whose partner exists is ranked by exactly that partner's distance to the point |
| Storage.DistanceKeyWithoutPartner | storage.go:116-119 | a promotion whose partner id matches no partner is ranked by a NULL distance |
| Storage.GeoRows | storage.go:110-118 | the geo join, before ordering, yields at least one row per promotion |
| Storage.PromotionsByGeoSQL | storage.go:110-120 | the geo query yields at least one row per promotion and holds exactly the joined rows, each as often |
| Storage.GeoRowsAreAllPromotions | storage.go:116-118 | before ordering, the geo join has the same rows as the by-partner join with id 0 |
| Storage.GeoRowMembership | storage.go:110-118 | with distinct partner ids, a ranked row is in the geo join exactly when it is a joined row of some promotion carrying that promotion's distance key |
| Storage.GeoIsPermutationOfAll | storage.go:110-120 | the geo result is a permutation of the by-partner(0) result, ordered by descending key with NULLs first, where each row's key is the distance key of the promotion it came from |
| Storage.ImageSQL | storage.go:91-94 | no row exactly when no banner has the URL; otherwise the image of a banner with that URL |
| Storage.ImageOfUniqueUrl | storage.go:67 | with the URL as primary key, the lookup returns that banner's image |
| Storage.ImageLookupExact | main.go:160-165 | on a healthy store the lookup returns the banner's image, or the no-row error when no banner has the URL |
| Storage.QueryFault | storage.go:142 | a query fails exactly when the store fails or the int parameter is out of range |
| Storage.GetCategories | storage.go:140-146 | errors carry the "GetCategories: " label; success is exactly the category query |
| Storage.GetPartners | storage.go:158-164 | errors carry the "GetPartners: " label; success is exactly the partners query |
| Storage.GetBannerImageByURL | storage.go:166-178 | errors carry the "GetBannerURLs: " label; success exactly when a banner has the URL, returning its image |
| Storage.GetPromotionsByPartner | storage.go:187-193 | the corrected method: fails only when the store fails or the id is out of range; success is the by-partner query |
| Storage.GetPromotionsByGeo | storage.go:195-201 | the corrected method: fails only when the store fails; success is the geo query at Point(long, lat) |
| Storage.GetPromotionsByPartnerAsWritten | storage.go:187-193 | as written, the method always fails |
| Storage.GetPromotionsByGeoAsWritten | storage.go:195-201 | as written, the method always fails |
| Storage.PromotionsAsWrittenLoseRows | storage.go:189-199 | on a healthy store both methods as written fail, while the corrected ones succeed and return each stored promotion |
| Application.Envelope | application.go:79-87 | an error becomes status 500 with its text as the only body; a success becomes status 200 with no headers and one JSON document, or an empty body when the encoder refuses the document |
| Application.HealthCheckResponse | application.go:15-21 | "ok" with status 200 on a good ping, otherwise 500 with the ping error's text |
| Application.HealthCheck | application.go:13-22 | the client receives HealthCheckResponse |
| Application.GetCategories | application.go:24-37 | the client receives CategoriesResponse |
| Application.CategoriesFor | application.go:24-37 | for a parent id: 200 with the children's rows exactly when the store is healthy and the id is an int; otherwise the labelled 500 (store error or "integer out of range") |
| Application.CategoriesResponse | application.go:24-37 | 200 with the category query for the parsed parent exactly when the store is healthy and the parsed id is an int; otherwise 500 with one text chunk |
| Application.UnparsableParentActsAsZero | application.go:25 | a missing parent, or one that is not a signed decimal and whose leading digits fit in a uint64, is answered exactly as parent=0 |
| Application.OverflowingParameterIs500 | application.go:25 | on a healthy store, a parent or partner of twenty nines and an "x" is answered with the labelled "integer out of range" 500, where a request without it is answered 200 |
| Application.IntendedParametersActAsZero | application.go:25 | with the intended parse, every parent that is not a signed decimal, of any length, is answered as parent=0, and every such partner lists all promotions |
| Application.CategoriesAreChildren | application.go:24-37 | a healthy store answers 200 with one JSON list holding exactly the requested parent's children |
| Application.FreshStoreTopLevel | application.go:24-37 | right after start-up on an empty store, a request without parent lists categories 1-6 with empty URLs |
| Application.PartnersResponse | application.go:39-50 | on a healthy store, 200 with every row of the partners query when every location is finite and 200 with an empty body otherwise; a failing store gives the labelled 500 |
| Application.GetPartners | application.go:39-50 | the client receives PartnersResponse |
| Application.PartnersEncodableIffFinite | application.go:47-49 | the partners document can be encoded exactly when every stored location is finite |
| Application.ImageResponse | application.go:52-64 | 200 exactly when the store is healthy and a banner has the URL; then the handler sets Content-Type image/jpeg and the body is such a banner's image; otherwise a 500 with no header set by the handler |
| Application.GetImage | application.go:52-64 | the client receives ImageResponse |
| Application.ImageHeaderOnlyOnSuccess | application.go:55-63 | the handler sets Content-Type image/jpeg only on success, which happens exactly when a banner has the URL, and the body is its image; a miss is a 500 with the no-row error |
| Application.Dispatch | application.go:68-78 | geo mode exactly when both parsed coordinates are non-zero, passing the latitude first; otherwise by-partner mode with the parsed partner id |
| Application.PromotionsResponse | application.go:66-88 | over the corrected storage methods: 200 exactly when the store is healthy and, in by-partner mode, the partner id is an int; the body is the dispatched query's rows |
| Application.GetPromotions | application.go:66-88 | the client receives PromotionsResponse, over the corrected storage methods |
| Application.GeoModeIgnoresPartner | application.go:74-75 | over the corrected storage methods, geo mode holds exactly when both coordinates are non-zero, and then the partner parameter has no effect |
| Application.PartnerModeIgnoresCoordinates | application.go:76-78 | over the corrected storage methods, the by-partner query otherwise runs with the parsed partner id, and the coordinates have no further effect |
| Application.GeoPointIsLatitudeFirst | application.go:75 | the geo reference point is (latitude, longitude), in the same order as the partner latitude (location x) |
| Application.DefaultRequestListsAllPromotions | application.go:68 | over the corrected storage methods, a request without lat, whose partner is missing or is a non-number whose leading digits fit in a uint64, lists every promotion |
| Application.StoreFaultIs500 | application.go:79-83 | every storage failure reaches the client as 500 with the labelled error text and no JSON (for promotions, over the corrected storage methods) |
| Application.PromotionsResponseAsWritten | application.go:66-88 | over the storage methods as written, every promotions request is answered with a 500 carrying one text chunk |
| Application.PromotionsAsWrittenAlways500 | application.go:66-88 | with the storage methods as written, every promotions request is a 500, while the corrected handler answers 200 on a healthy store |
| Snapshot.PartnersSQL | main.go:87-89 | one row per partner, in order, with its id, headline and description, location[0] as latitude, location[1] as longitude, a NULL price level as 0, and an empty URL list |
| Snapshot.GetPartnerRows | main.go:138-144 | fails exactly when the store fails, with the "GetPartners: " label; success is exactly the partners query |
| Snapshot.ScanBanners | main.go:92-94 | each banner scans to its URL and partner id, with NULL read as 0 |
| Snapshot.Grouped | main.go:174-177 | every scanned banner's partner id is a key of the map, and no key holds an empty list |
| Snapshot.URLsOf | main.go:175-177 | the URLs of a partner's banners, in input order, at most one per banner |
| Snapshot.GetBannerURLs | main.go:168-180 | the grouping loop builds the map Grouped of the scanned banners; errors carry the "GetBannerURLs: " label |
| Snapshot.GroupedIsFilter | main.go:174-177 | the list under key k is exactly the URLs of the banners with partner id k, in input order, and k is present exactly when such a banner exists |
| Snapshot.GroupedTotal | main.go:174-177 | the lists hold as many URLs as there were banner rows |
| Snapshot.UnownedBannersUnderZero | main.go:148 | a banner without a partner is listed under partner id 0 |
| Snapshot.Merged | main.go:232-236 | the merge keeps length, order and every other field, and gives each partner the map's list for its id (empty when absent); a nil map changes nothing |
| Snapshot.MergeBannerURLs | main.go:232-236 | the in-place loop leaves the array equal to Merged of its old contents |
| Snapshot.WaitError | main.go:213-226 | the wait fails exactly when a read fails, and reports one of the failed reads' errors |
| Snapshot.PartnersResponse | main.go:212-241 | 200 exactly when both reads succeed; then, when every location is finite, the one document is the partners query with each partner's list replaced by the grouped banner URLs for its id, and otherwise the body is empty; a failed read gives 500 with one text chunk |
| Snapshot.GetPartners | main.go:212-241 | the client receives the snapshot's PartnersResponse |
| Snapshot.MergedEncodableIffFinite | main.go:238-240 | the merged partners list can be encoded exactly when every stored location is finite |
| Snapshot.PartnersFailureIs500 | main.go:226-240 | if either read fails, the answer is 500 with a failed read's text and no list; otherwise, with finite locations, one JSON list of every partner, in order, with every field of its row and its banners' URLs |

## Left out

- HTTP plumbing: `main()`, route registration, `ListenAndServe` and
  environment variables. The request is reduced to its query parameters.
- gorm, `database/sql` and the connection pool are replaced by in-memory
  tables. Driver error texts are abstract: a failing store is one `fault`
  text per call.
- The out-of-range error text is a fixed placeholder, not PostgreSQL's exact
  message.
- `Ping` is a parameter of HealthCheck.
- The error path of `db.DB()` in GetBannerImageByURL (storage.go:167-170) is
  not modelled, because it is not an error with this driver.
- Storage.GetBannerImageByURL: the path above would return an unlabelled
  error, which is not modelled.
- JSON text and HTML escaping are left out. A document is the value it
  encodes, so a nil slice (encoded as `null`) and an empty one (`[]`) are
  the same. Only whether the encoder accepts a document is modelled: it
  refuses NaN and the infinities, and nothing else in these documents.
- Snapshot.Merged: a partner without banners gets an empty list. Go gives it
  a nil slice, which encodes differently.
- Floating point is abstract. `strconv.ParseFloat` is a parameter of the
  promotions handler.
- Storage.PromotionsByGeoSQL: the PostGIS `<->` distance is an abstract
  function parameter. Among rows at equal distance, PostgreSQL's order is
  unspecified; the model fixes one admissible order (stable).
- Storage.GetPromotionsByPartnerAsWritten and
  Storage.GetPromotionsByGeoAsWritten: the exact text Go's `fmt` prints for a
  `*gorm.DB` under `%w` is abbreviated.
- The storage queries other than the geo query leave row order to the store.
  The model produces one order (left table first, then banners in table
  order), and the lemmas speak of membership and multiplicity only.
- Concurrency: the errgroup of main.go:213-224 is two sequential reads. The
  cancelled context is unused in the source and is left out.
- main.go's duplicate handlers are not modelled again:
  - HealthCheck, GetCategories and GetImage at main.go:186-210 and
    main.go:243-255 behave identically to application.go's. main.go's
    `Category.Id` is a string. main.go:198 keeps Atoi's error in `err`
    where application.go:25 discards it, but the next line overwrites it;
  - `NewStorage` (main.go:107-112) matches storage.go:127-132;
  - main.go's `initSQL` differs from storage.go's only in naming the
    banner table's promotion column `action_id` (main.go:74) where
    storage.go has `promotion_id` (storage.go:69). The row type uses
    storage.go's name; the snapshot never reads that column.
- Schema.Init: models a start-up whose statement succeeds. When `Exec`
  fails, `NewStorage` returns the error labelled "NewStorage: "
  (storage.go:128-130), and `main` stops the process with `log.Fatalf`
  (main.go:264-267), so no request is ever answered. That path is not
  modelled.
- Headers the server adds on its own are not modelled: a `Content-Type`
  sniffed from the body (`text/plain; charset=utf-8` for the error texts
  and the JSON answers), `Date` and `Content-Length`. A response's header
  map is only what the handler set.
- Storage.PartnerItems: assumes gorm fills `BannerURL` from the query's
  `url` column. The field's tag (storage.go:155) names no `column:`, so
  gorm's default column name for it is `banner_url`, and the `url` column
  may match no field, leaving every partner's URL "". This depends on gorm's
  tag parsing, which is not part of this model.
- Application.PromotionsResponse: states the answers of the handler over
  the corrected storage methods. Over the methods as written (storage.go:189
  and 197) every promotions request is a 500; that case is
  `Application.PromotionsResponseAsWritten`.
- The handlers keep `Atoi` as written (application.go:25 and 68), so a
  long non-number can read as an int64 bound. The intended parse,
  `Params.AtoiOrZero`, is modelled beside it (see Findings).
- The `user` and `action` tables and the DDL column types are left out,
  except the `price_level` 1-5 check and the keys. Those appear in
  `Schema.WellFormed` but no operation depends on them.

## Findings

| source | as written | input that shows it | evidently intended | confidence | as-written member | corrected member |
|---|---|---|---|---|---|---|
| storage.go:189 | `GetPromotionsByPartner` tests the `*gorm.DB` that `Scan` returns against nil. That is never nil, so it always returns nil and an error | any call, e.g. partner 0 on a healthy store holding one promotion | test `.Error`, as the other methods do, and return the rows | not executed; high | Storage.GetPromotionsByPartnerAsWritten | Storage.PromotionsAsWrittenLoseRows |
| storage.go:197 | `GetPromotionsByGeo` makes the same test, so it too always returns nil and an error | any call, e.g. a healthy store holding one promotion and any point | test `.Error` and return the ordered rows | not executed; high | Storage.GetPromotionsByGeoAsWritten | Storage.GetPromotionsByGeo |
| application.go:25 | `strconv.Atoi` with its error discarded. A value beyond int64 is reported as the bound of its sign, and the digit loop finds the overflow before a later non-digit. So a long text that is not a number reads as an int64 bound, which is outside the int query parameter | `parent=99999999999999999999x` (also as `partner`) on a healthy store: 500 "integer out of range" instead of the parent=0 answer | an unparsable parameter reads as 0, as for short non-numbers | not executed; medium | Params.OverflowingTextIsNotZero | Params.AtoiOrZero |
