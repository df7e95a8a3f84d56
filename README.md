# Fund-data pipeline: verified model

This project models the core of a pipeline that loads a fund
administrator's data into a PostgreSQL schema. Three groups of logic are
modelled:

- **The trading calendar** of the Brazilian exchange (`TarponCalendar`).
  It covers the holiday rule table and the pandas offsets built on it:
  previous trading day, last and first trading day of a month, the
  "N months back" lookups, and business days in a range or a month.
- **The paginated fetchers** of the four API clients.
  - `positions`: pages, global de-duplication by an item identity, and the
    stop on two empty pages.
  - `prices` / `objects`: a single shot, or pages until one comes back empty.
  - `objects` with a cap of 100 pages and no error handling.
  - The portfolio endpoint, flattened into `POSITION` and `PROVISION` rows and
    cleaned for PostgreSQL.
- **The loaders** that merge a day's batch into an append-only table:
  positions, portfolio positions, trades (operations), movements and fund
  net assets (`fund_pls`). Each covers the key filter, the first-write,
  read-failure and write-failure branches, the column checks and row
  filters of `run`, and the `batch` loop over business days.

Dates are integer day numbers, counted from 1970-01-01 (module `Civil`).
Western Easter has its own module (`Easter`). JSON values are a datatype
whose dictionaries keep their insertion order (`Json`). pandas frames are
sequences of rows (`Frames`). The database is a `Store` class holding a
map from table names to sequences of rows. Its reads may fail and its
writes may be refused; both are inputs of the model. The network is a
`Server` value: an answer for every (token, page) pair, and a grant or
refusal for every token request (`Http`).

Several operations are loops in the source. Each becomes a `method`
proved against a function: `ensures r == F(...)`, or, for one that changes
the database, `ensures Outcome(db.tables, raised) == F(old(db.tables), ...)`.
The properties are then proved about `F` as lemmas. The API clients and
the de-duplicating accumulator of the positions fetcher are classes.

Where the code and its documentation disagree, the model follows the
code:

- `src/plfund.py:115-117` says that sources 15 and 11 are kept. The code
  keeps 15, 11, 7 and 33, and so does the model (`PlFundLoader.KeptRows`).
- The portfolio loader keeps only the desired columns that are present
  (`src/portfolio.py:143-145`). The group-by that follows needs all six key
  columns and all aggregated columns, and `run` first reads `position_type`
  (`src/portfolio.py:132`). So a frame lacking any of them raises `KeyError`
  before anything is written (`PortfolioLoader.MissingColumnWritesNothing`).
- June 12 is a holiday in 2014 by the single-year rule. Corpus Christi can
  also fall on June 12 (as in 2031 and 2036), and then that day is a
  holiday too (`TradingCalendar.WorldCupDay`).
- Ash Wednesday is defined but not listed. It is proved to be always a
  business day (`TradingCalendar.AshWednesdayIsBusinessDay`).
- The movements and fund net-asset loaders read the whole table with no
  `try`. A failed read there raises (`EntityMerge.UnreadableTableRaises`).
  It is not treated as an empty table, as it is in the positions,
  portfolio and trades loaders.

## Model

| member | source | states |
|---|---|---|
| Frames.Project | src/movimentos.py:108-130 | a projected row holds the wanted columns in order, each with the row's cell there or null |
| Frames.Selected | src/movimentos.py:108-130 | `df[cols]` keeps one row per record, each holding exactly the selected columns |
| Frames.AvailableColumns | src/trades_tpe.py:146 | the available columns are exactly the wanted columns the frame has |
| Frames.MissingColumns | src/trades_tpe.py:147 | the missing columns are exactly the wanted columns the frame lacks |
| Frames.ColumnsSplit | src/trades_tpe.py:146-147 | every wanted column is either available or missing |
| Frames.Filter | src/trades_tpe.py:180 | a boolean mask keeps exactly the rows it selects, in order |
| Frames.FilterAppend | src/portfolio.py:26-34 | filtering two frames one after the other is filtering their concatenation |
| Frames.FilterSplit | src/trades_tpe.py:56-59 | a mask and its negation split the frame |
| Frames.FilterUnique | src/movimentos.py:146-147 | filtering distinct rows leaves distinct rows |
| Frames.KeepNew | src/trades_tpe.py:56 | `df[~df[key].isin(existing)]` keeps exactly the rows whose key is not known, in order |
| Frames.KeepKnown | src/trades_tpe.py:59 | the rows skipped all have a known key |
| Frames.KeepNewCount | src/trades_tpe.py:59 | inserted plus skipped is the batch size |
| Frames.KeepNewDisjoint | src/trades_tpe.py:56 | with no known key the whole batch is kept |
| Frames.KeepNewSettles | src/trades_tpe.py:56 | once the keys kept are known too, nothing is new |
| Frames.KeepFirst | src/positions.py:121-140 | `duplicated(subset, keep="first")` removed: the rows kept are input rows, every key of the input appears exactly once, each kept row is the first input row of its key, and the kept rows keep their input order |
| Frames.FirstIndexOf | src/positions.py:121-130 | the position of a key's first row: that row has the key and no earlier row has it |
| Frames.FirstIndexIs | src/positions.py:121-130 | a row with the key and none before it is the key's first row |
| Frames.FirstIndexSnoc | src/positions.py:121-130 | a row appended after the others leaves the first rows of the keys already present |
| Frames.KeepFirstDistinct | src/positions.py:136-143 | a frame without duplicate keys is returned as it is |
| Frames.KeepFirstTwice | src/positions.py:122-140 | removing duplicates twice is removing them once |
| Frames.DropDuplicates | src/movimentos.py:146 | `drop_duplicates()` holds every distinct row exactly once, in the order of the rows' first occurrences |
| Frames.DroppedDuplicates | src/movimentos.py:146 | the first occurrences of the rows are distinct and are all the rows |
| Frames.MapColumn | src/movimentos.py:133-134 | `df[c] = f(df[c])` changes only column `c`, by `f` |
| Frames.MapColumns | src/movimentos.py:132-139 | converting a list of distinct columns applies `f` to each of them and leaves the rest |
| Frames.ConvertColumns | src/movimentos.py:132-139 | the conversion loop computes `MapColumns` |
| Frames.CastColumn | src/movimentos.py:141 | `astype("Int64")` succeeds exactly when every cell of the column casts, changing only that column, and otherwise raises `TypeError` |
| Frames.CastColumns | src/movimentos.py:141-143 | a run of casts keeps rows and columns and raises only `TypeError` |
| Frames.CastEachColumn | src/trades_tpe.py:174-177 | the cast loop computes `CastColumns`, stopping at the first cast that raises |
| Frames.CastsStop | src/trades_tpe.py:176-177 | once a cast raised, the later columns change nothing |
| Frames.Appended | src/movimentos.py:36 | `append_to_db` creates a missing table and appends the rows, touching no other table |
| Frames.AppendedKeeps | src/movimentos.py:47 | appending never removes a stored row |
| Frames.Store.constructor | src/movimentos.py:35-39 | the database starts with the given tables |
| Frames.Store.Append | src/movimentos.py:47 | a write that is accepted appends the rows; a refused one changes nothing and is reported |
| Batches.RunIsolated | src/trades_tpe.py:76-84 | the days that raised are among the days run, each day at most once per run |
| Batches.IsolatedContinues | src/trades_tpe.py:78-84 | a run over two spans of days is the second span run on what the first left, with the failures of both |
| Batches.IsolatedNext | src/trades_tpe.py:78-84 | one more day runs on the state the earlier days left, and is recorded when it raises |
| Batches.IsolatedGrows | src/trades_tpe.py:76-84 | when every day only appends, so does the loop |
| Batches.StoppingNext | src/movimentos.py:55-57 | while nothing raised, one more day runs on the state the earlier days left |
| Batches.RunStopping | src/movimentos.py:51-57 | `for data in datas: run(data)`: the first exception leaves `batch` |
| Batches.StoppingHalts | src/movimentos.py:55-57 | after a day raised, later days change nothing |
| Batches.StoppingContinues | src/movimentos.py:55-57 | when the first span raised nothing, the rest runs on what it left |
| Batches.StoppingGrows | src/movimentos.py:51-57 | when every day only appends, so does the loop |
| Batches.StoppingAgreesWhenNothingRaises | src/movimentos.py:51-57 | when no day raises, stopping at the first raise and skipping failed days give the same database |
| Json.Get | src/api2.py:81 | a lookup finds a value exactly when the dictionary has the key |
| Json.GetMember | src/api4.py:92-96 | in a dictionary, the lookup of a key gives a value exactly when that pair is among its items |
| Json.GetOr | src/api4.py:88-96 | `d.get(k, default)` is the stored value when the key is there and the default otherwise |
| Json.SetField | src/api4.py:100-104 | after `d[k] = v`, `k` maps to `v` and every other key to what it mapped to before |
| Json.SetFieldKeys | src/api4.py:100-104 | assigning an existing key keeps the key order; a new key goes last |
| Json.SetFieldNew | src/api4.py:45-53 | assigning a new key appends the pair |
| Json.SetFieldDistinct | src/api4.py:100-104 | assignment keeps a dictionary's keys distinct |
| Json.Iterate | src/api2.py:82-85 | iteration yields a list's items, a dictionary's keys or a string's characters, and fails on anything else |
| Json.Len | src/api.py:104 | `len` exists for lists, dictionaries and strings, and is zero exactly when the value is falsy |
| Json.Join | src/api2.py:248 | joining no parts gives the empty string and joining one part gives that part |
| Json.PyStr | src/api2.py:241 | `str()` of a string is the string itself and of anything else its `repr` |
| Json.Repr | src/api2.py:245 | `repr()` of a value: `None`, `True`/`False`, digits, strings quoted by `QuoteRepr`, lists and dictionaries element by element |
| Json.ReprQuote | src/api2.py:245 | `repr` quotes with `"` exactly when the string holds `'` and no `"`, and with `'` otherwise |
| Json.QuoteRepr | src/api2.py:245 | `repr(s)` of a string starts and ends with the quote `ReprQuote` picks |
| Json.ReprUnescapeChar | src/api2.py:245 | one character escaped by `repr` reads back as itself |
| Json.ReprEscapeRoundTrip | src/api2.py:245 | the escaped body of a `repr` reads back as the string |
| Json.ReprRoundTrip | src/api2.py:245 | `repr(s)` reads back as `s` |
| Json.QuoteReprInjective | src/api2.py:245 | two strings with the same `repr` are equal, so quoted list items cannot run together |
| Json.Dumps | src/api4.py:48-51 | `json.dumps(v)`: `null`, `true`/`false`, digits, strings escaped by `JsonString`, lists and dictionaries with the default separators |
| Json.JsonEscape | src/api4.py:48-51 | `json.dumps` with its default ASCII escaping produces only printable ASCII characters |
| Http.Authenticated | src/api2.py:16-38 | one more token request is made; the client holds a token afterwards exactly when it held one before or the server grants this request |
| Http.FetchTokenRequests | src/api2.py:186-198 | a fetch asks for at most one token per 401 retry allowed, plus one when it starts without credentials |
| Http.FetchKeeps | src/api2.py:186-202 | every answer a fetch can return (the empty frame, one pass's records, a retry's records) satisfies any property all of them satisfy |
| Http.Fetch | src/api2.py:40-206 | `fetch_data` around one pass: authenticate when no token is held, return the pass's records, the empty frame on an error, and on a 401 authenticate again and start over, at most `depth` times |
| PositionsApi.Ids | src/api2.py:217 | one identity per record, in order |
| PositionsApi.AllObjectsSnoc | src/api2.py:215-223 | a list holds only dictionaries exactly when its front does and its last item is one |
| PositionsApi.IdsSnoc | src/api2.py:215-223 | appending a record appends its identity |
| PositionsApi.IdsAppend | src/api2.py:222 | the identities of two lists joined are the two identity lists joined |
| PositionsApi.DistinctAppend | src/api2.py:220-222 | two duplicate-free identity lists with nothing in common join to a duplicate-free list |
| PositionsApi.DistinctCount | src/api2.py:221-223 | a duplicate-free identity list is as long as its set |
| PositionsApi.AppendFresh | src/api2.py:220-222 | appending a record with an unseen identity keeps identities distinct and adds exactly that identity |
| PositionsApi.AppendDistinct | src/api2.py:91-93 | appending a batch of new identities keeps all identities distinct; the identity set is the union |
| PositionsApi.DistinctIdsCount | src/api2.py:205 | with distinct identities, the number of records equals the number of identities seen |
| PositionsApi.Dedupe | src/api2.py:208-225 | `_add_unique_items` completes exactly when every item is a dictionary (otherwise `_get_item_identifier` raises) |
| PositionsApi.DedupeDistinct | src/api2.py:208-225 | the records added have distinct identities, none of them seen before, and the seen set grows by exactly those |
| PositionsApi.DedupeFresh | src/api2.py:215-222 | every record added is an item of the batch |
| PositionsApi.DedupeSeen | src/api2.py:215-221 | after the batch, the seen set is the old one plus the identity of every item, added or skipped |
| PositionsApi.DedupeSnocSeen | src/api2.py:215-221 | one more item adds exactly its identity to the seen set |
| PositionsApi.DedupeStep | src/api2.py:215-223 | one loop turn: a seen identity is skipped, an unseen one is recorded and its item appended; a non-dictionary item makes the whole call raise |
| PositionsApi.UniqueRecords.constructor | src/api2.py:53-69 | `all_data` and `processed_items` start empty |
| PositionsApi.UniqueRecords.AddUniqueItems | src/api2.py:208-225 | appends the de-duplicated batch and records its identities, returns the count added, and keeps records and seen set in one-to-one correspondence |
| PositionsApi.UniqueRecords.CollectFirst | src/api2.py:73-99 | the first request, on fresh state, is the first step of the pass |
| PositionsApi.UniqueRecords.CollectPage | src/api2.py:106-177 | one page of the loop is `PageStep`; a step that continues leaves fewer than two empty pages behind it |
| PositionsApi.Items | src/api2.py:82-85 | a list is taken as it is and a dictionary by its values; anything else has no items |
| PositionsApi.PageStepWithItems | src/api2.py:152-177 | a page with items stops when nothing new was added, stops after adding when it is shorter than 1000 items, and otherwise continues with the empty-page count reset |
| PositionsApi.TwoEmptyPagesStop | src/api2.py:121-150 | two empty pages in a row end the loop with what was collected |
| PositionsApi.PageLoopBelowCap | src/api2.py:104-106 | the loop never looks at a page from 100 on |
| PositionsApi.PageLoop | src/api2.py:106-177 | the `while` loop: one `PageStep` per page until a step stops it or the page cap of 100 is reached |
| PositionsApi.FetchAttempt | src/api2.py:71-177 | one pass: the first request, then the page loop from page 1 |
| PositionsApi.FetchAttemptBelowCap | src/api2.py:104-106 | servers that agree on pages 0 to 99 give the same pass |
| PositionsApi.PageStepDistinct | src/api2.py:106-177 | a page keeps what was collected, adds only new identities, and stops at the second empty page in a row |
| PositionsApi.PageLoopDistinct | src/api2.py:106-177 | the loop keeps the records collected so far and never collects two with the same identity |
| PositionsApi.AfterStepDistinct | src/api2.py:98-177 | from any step that keeps identities distinct, the rest of the pass does too |
| PositionsApi.FetchAttemptDistinct | src/api2.py:71-177 | a pass collects no two records with the same identity |
| PositionsApi.FetchDistinct | src/api2.py:40-206 | `fetch_data` returns no two records with the same identity, retries included |
| PositionsApi.RetryDropsKey | src/api2.py:186-195 | after a 401 and a successful re-authentication, the retry asks for the default key `positions` whatever key was asked for |
| PositionsApi.Client.constructor | src/api2.py:7-14 | a client starts without credentials |
| PositionsApi.Client.Authenticate | src/api2.py:16-38 | `authenticate()` succeeds exactly when the server grants the token, and the session moves as `Authenticated` says |
| PositionsApi.Client.FetchPages | src/api2.py:71-177 | the `try` block with credentials held is the pass `FetchAttempt` over that token's pages |
| PositionsApi.Client.FetchData | src/api2.py:40-206 | `fetch_data` returns the records and leaves the session that `Fetched` gives |
| ItemIdentity.LexIrreflexive | src/api2.py:245 | no string sorts before itself under Python's string order |
| ItemIdentity.LexTransitive | src/api2.py:245 | Python's string order is transitive |
| ItemIdentity.LexTotal | src/api2.py:245 | any two different strings are ordered one way or the other |
| ItemIdentity.InsertByKey | src/api2.py:245 | inserting a pair into a key-sorted list keeps it sorted and adds exactly that pair |
| ItemIdentity.SortByKey | src/api2.py:245 | `sorted(item.items())` is sorted by key and a permutation of the items |
| ItemIdentity.SortedSameHead | src/api2.py:245 | two key-sorted permutations of the same items with distinct keys start with the same pair |
| ItemIdentity.SortedUnique | src/api2.py:245 | the key-sorted order of items with distinct keys is unique |
| ItemIdentity.DistinctKeysFunctional | src/api2.py:245 | a dictionary's items never hold two different pairs with one key |
| ItemIdentity.KeyParts | src/api2.py:233-241 | at most one part per important key, and no part exactly when the record holds none of the important keys |
| ItemIdentity.ItemIdentifier | src/api2.py:227-248 | an identifier exists exactly for dictionaries (anything else makes the source raise) |
| ItemIdentity.KeyPartsAppend | src/api2.py:239-241 | the parts of two runs of keys are the two runs' parts joined |
| ItemIdentity.GetItemIdentifier | src/api2.py:227-248 | the loop over the important keys computes `ItemIdentifier` |
| ItemIdentity.KeyPartsAgree | src/api2.py:239-241 | the parts depend only on the values under the keys asked for |
| ItemIdentity.SameIdentifyingFieldsSameIdentifier | src/api2.py:237-248 | records that agree on the four important fields, and hold one of them, get the same identifier: the parts joined with a bar, whatever else they hold |
| ItemIdentity.IdentifierIgnoresFieldOrder | src/api2.py:227-248 | the identifier does not depend on the order of a dictionary's fields, in either branch |
| ItemIdentity.SameItemsSameGet | src/api2.py:240-241 | dictionaries with the same items answer every lookup alike |
| ItemIdentity.SameItemsSameSort | src/api2.py:245 | dictionaries with the same items sort to the same item list |
| PricesApi.ObjectsLoopAnyStop | src/api.py:91-111 | the `objects` loop's outcome does not depend on which non-continuing page is named as its end |
| PricesApi.ObjectsLoopStep | src/api.py:99-111 | a page with a non-empty `objects` dictionary adds its values and moves on to the next page |
| PricesApi.RunEnd | src/api.py:91-111 | the loop stops at the first page from `page` on that does not continue it |
| PricesApi.RunEndStep | src/api.py:104-111 | a continuing page does not move where the loop stops |
| PricesApi.ObjectsThroughStep | src/api.py:109 | the objects of a run of pages are the first page's values followed by the rest |
| PricesApi.ObjectsLoopConcatenates | src/api.py:91-111 | the loop's result is what was collected followed by the values of every page up to the stopping page, in page order; the stopping page decides between success, an HTTP error and an exception |
| PricesApi.ObjectsLoopConcatenatesFrom | src/api.py:91-111 | the same, from a page that continues the loop |
| PricesApi.ObjectsLoopEnds | src/api.py:104-106 | a page that does not continue the loop ends it with what was collected (or its error) |
| PricesApi.PricesSingleShot | src/api.py:73-81 | a first answer holding `prices` decides the result alone: later pages are never read |
| PricesApi.ObjectsPaged | src/api.py:83-111 | an `objects` answer gives page 0's values followed by the values of every later page until one comes back empty |
| PricesApi.ObjectsLoop | src/api.py:91-111 | the `while True` loop: the values of each page with a truthy `objects` dictionary, until a falsy one; an error or malformed answer ends the pass |
| PricesApi.FetchAttempt | src/api.py:66-116 | one pass: `prices` taken at once, `objects` paged |
| PricesApi.Client.constructor | src/api.py:7-14 | a client starts without credentials |
| PricesApi.Client.Authenticate | src/api.py:16-38 | `authenticate()` succeeds exactly when the server grants the token, and the session moves as `Authenticated` says |
| PricesApi.Client.FetchPages | src/api.py:66-116 | the `try` block with credentials held is the pass over that token's pages |
| PricesApi.Client.WalkObjects | src/api.py:91-111 | the `while True` loop computes `ObjectsLoop` from page 1 |
| PricesApi.Client.FetchData | src/api.py:40-135 | `fetch_data` returns the records and leaves the session that `Fetch` gives, with the 401 retry |
| ObjectsApi.Raised | src/api3.py:54-56 | a failed answer raises `HTTPError` exactly when the server answered with an error status |
| ObjectsApi.FetchData | src/api3.py:35-99 | the method, with its `while True` loop and safety break, computes `Fetched` |
| ObjectsApi.LoopReadsUpToCap | src/api3.py:67-92 | the loop never reads a page past 100 |
| ObjectsApi.AnswersPastCapIgnored | src/api3.py:89-92 | servers that agree on pages 0 to 100 give the same result |
| ObjectsApi.CappedEnd | src/api3.py:67-92 | the loop stops at the first page that does not continue it, or after page 100 |
| ObjectsApi.LoopStep | src/api3.py:75-87 | a continuing page adds its values and moves on |
| ObjectsApi.CappedEndStep | src/api3.py:80-87 | a continuing page does not move where the loop stops |
| ObjectsApi.LoopEnds | src/api3.py:80-92 | a page that does not continue the loop ends it (empty, error or malformed); past page 100 the loop ends with what it has |
| ObjectsApi.LoopConcatenates | src/api3.py:67-92 | the loop's result is what was collected followed by the values of every page up to where it stops, in page order |
| ObjectsApi.LoopConcatenatesFrom | src/api3.py:67-92 | the same, from a page that continues the loop |
| ObjectsApi.Loop | src/api3.py:67-92 | the `while True` loop: the values of each page with a truthy `objects` dictionary, until a falsy one or past page 100; an error or malformed answer raises |
| ObjectsApi.Fetched | src/api3.py:59-99 | `fetch_data`: empty when page 0 has no `objects` key, else its values and the loop from page 1 |
| ObjectsApi.FullRunStopsAtCap | src/api3.py:59-92 | when every page continues, the result is the values of pages 0 to 100 in order, and no more |
| ObjectsApi.NoObjectsKeyEmpty | src/api3.py:59-99 | a first answer without `objects` gives the empty frame |
| PortfolioApi.CleanValue | src/api4.py:46-53 | a cleaned value is never a dictionary or list; other values pass unchanged; an empty dictionary or list becomes `None` and a non-empty one its JSON text |
| PortfolioApi.SetFieldFlat | src/api4.py:45-53 | assigning a flat value keeps a record flat |
| PortfolioApi.Cleaned | src/api4.py:41-55 | the cleaned record has distinct keys and holds no dictionary or list |
| PortfolioApi.CleanEach | src/api4.py:45-53 | one cleaned field per field |
| PortfolioApi.CleanedIsPointwise | src/api4.py:41-55 | on a dictionary, the loop's result is each field cleaned in place, in order |
| PortfolioApi.DistinctKeysPrefix | src/api4.py:45 | a prefix of a dictionary's items repeats no key |
| PortfolioApi.CleanEachLacksKey | src/api4.py:45-53 | the last key of a dictionary is not among the earlier cleaned keys |
| PortfolioApi.CleanEachSnoc | src/api4.py:45-53 | cleaning one more field appends it cleaned |
| PortfolioApi.GetCleanEach | src/api4.py:45-53 | every lookup on the cleaned fields is the original lookup, cleaned |
| PortfolioApi.CleanedGet | src/api4.py:41-55 | on a dictionary, every lookup in the cleaned record is the original lookup, cleaned |
| PortfolioApi.CleanedIdempotent | src/api4.py:41-55 | cleaning twice is cleaning once |
| PortfolioApi.WithPortfolioDistinct | src/api4.py:100-104 | assigning the portfolio's fields keeps a dictionary a dictionary |
| PortfolioApi.PositionRecordFields | src/api4.py:98-108 | a position row has the portfolio name, id and date cleaned, type `POSITION`, and every other field of the position cleaned |
| PortfolioApi.WithPortfolioGet | src/api4.py:100-104 | the four assignments overwrite those keys and leave every other field alone |
| PortfolioApi.ProvisionColumnsType | src/api4.py:115-129 | a provision row has type `PROVISION` and the portfolio's id |
| PortfolioApi.ProvisionColumnsPrice | src/api4.py:115-129 | a provision row has quantity 1 and both price and asset value equal to the financial value |
| PortfolioApi.ProvisionColumnsDistinct | src/api4.py:115-129 | a provision row repeats no column |
| PortfolioApi.Rows | src/api4.py:98-131 | one row per item, and the rows exist exactly when every item is a dictionary |
| PortfolioApi.RowsPointwise | src/api4.py:98-131 | row `i` is built from item `i` |
| PortfolioApi.PrependPrepend | src/api4.py:108-131 | appending two runs of rows is appending their concatenation |
| PortfolioApi.PrependNothing | src/api4.py:108-131 | appending no rows changes nothing |
| PortfolioApi.FlattenedCount | src/api4.py:90-131 | the flattened list has one row per position and transaction of every portfolio |
| PortfolioApi.Flattened | src/api4.py:90-131 | all rows, portfolio by portfolio: its positions, then its provisions |
| PortfolioApi.ListedDecoded | src/api4.py:96-111 | what a decoded JSON list or dictionary yields is decoded JSON |
| PortfolioApi.GetDecoded | src/api4.py:92-96 | a value looked up in decoded JSON is decoded JSON |
| PortfolioApi.PortfolioRowsSplit | src/api4.py:90-131 | a portfolio's rows are its position rows followed by its provision rows |
| PortfolioApi.PositionsPrecedeProvisions | src/api4.py:90-131 | within a portfolio, every position row comes before every provision row, and each is typed accordingly |
| PortfolioApi.TypedRuns | src/api4.py:98-131 | a run of position rows followed by a run of provision rows keeps both typings |
| PortfolioApi.PositionRowsTyped | src/api4.py:98-108 | every position row is typed `POSITION` |
| PortfolioApi.ProvisionRowsTyped | src/api4.py:113-131 | every provision row is typed `PROVISION` |
| PortfolioApi.AttemptCount | src/api4.py:81-133 | a successful request returns one row per position and transaction |
| PortfolioApi.FetchAttempt | src/api4.py:81-137 | the single request: an error answer, the empty frame without an `objects` key, or the flattened rows of the `objects` dictionary |
| PortfolioApi.Client.constructor | src/api4.py:8-15 | a client starts without credentials |
| PortfolioApi.Client.Authenticate | src/api4.py:17-39 | `authenticate()` succeeds exactly when the server grants the token, and the session moves as `Authenticated` says |
| PortfolioApi.Client.CleanForPostgres | src/api4.py:41-55 | the loop computes `Cleaned` |
| PortfolioApi.Client.AddPositions | src/api4.py:98-108 | the position loop computes `Rows` with the position builder |
| PortfolioApi.Client.AddProvisions | src/api4.py:113-131 | the transaction loop computes `Rows` with the provision builder |
| PortfolioApi.Client.FlattenPortfolios | src/api4.py:90-131 | the loop over the portfolios computes `Flattened` |
| PortfolioApi.Client.FetchPage | src/api4.py:81-137 | the single request is `FetchAttempt` on page 0 |
| PortfolioApi.Client.FetchData | src/api4.py:57-155 | `fetch_data` returns the records and leaves the session that `Fetched` gives, with the 401 retry |
| PositionsLoader.Round2 | src/positions.py:63-64 | `round(2)` of an amount in millionths lands within half a hundredth of it, on the even hundredth at a tie |
| PositionsLoader.CompositeKey | src/positions.py:57-65 | a row has a composite key exactly when it has a date |
| PositionsLoader.CheckDataQuality | src/positions.py:106-143 | the kept rows are input rows, every seven-column key of the input is still there and appears once, each kept row is the first row of its key, and the kept rows keep their order |
| PositionsLoader.CheckDataQualityUnchanged | src/positions.py:134-143 | a frame with no internal duplicate comes back unchanged |
| PositionsLoader.AppendPositionsDataSimple | src/positions.py:16-103 | the method leaves the database and raises as `AppendPositions` says |
| PositionsLoader.InsertsUnseenKeys | src/positions.py:36-88 | once rows are found for the batch's dates, the rows appended are exactly the batch rows whose key is not among theirs, in batch order, and inserted plus skipped is the batch size |
| PositionsLoader.UnreadableOrNothingStoredInsertsAll | src/positions.py:48-92 | a failed read, or no stored row on the batch's dates, appends the whole batch |
| PositionsLoader.UndatedRowRaises | src/positions.py:36 | a batch holding a row without a date raises at the date rendering and writes nothing |
| PositionsLoader.BatchOnItsDates | src/positions.py:36-45 | every row of a dated batch lies on one of the dates the query asks for |
| PositionsLoader.AgainAfterAll | src/positions.py:67-80 | after the whole batch was stored, the same batch finds nothing to insert |
| PositionsLoader.AgainAfterNew | src/positions.py:67-80 | after the new rows were stored, the same batch finds nothing to insert |
| PositionsLoader.MergeTwiceInsertsNothing | src/positions.py:16-103 | idempotence: a merge that went through, repeated with the same batch, writes nothing and raises nothing |
| PositionsLoader.RowsToInsert | src/positions.py:36-92 | the rows of the batch to insert: all of them when the read failed or nothing is stored, else those whose composite key is not stored on the batch's dates |
| PositionsLoader.AppendPositions | src/positions.py:16-103 | `append_positions_data_simple`: nothing for an empty batch, then the insert or the exception |
| PositionsLoader.PortfolioNames | src/positions.py:246-252 | one name per record; names that are not all numeric are kept as text and never raise |
| PositionsLoader.IntegerNames | src/positions.py:248-249 | the `Int64` cast succeeds exactly when every name casts, and then gives each record's cast name |
| PositionsLoader.InvestorId | src/positions.py:238-243 | `int(x[0])` of a non-empty list, `<NA>` for any other cell, and the exception `int()` raises |
| PositionsLoader.InvestorIds | src/positions.py:238-243 | the ids convert exactly when every record's converts; otherwise the first failing record's exception is raised |
| PositionsLoader.ToPosition | src/positions.py:227-243 | one record after the numeric, date and id conversions and with its portfolio name |
| PositionsLoader.ToPositions | src/positions.py:227-243 | one converted row per record, holding that record's name, investor id, parsed date and parsed amounts |
| PositionsLoader.Converted | src/positions.py:237-258 | the investor ids convert first and their exception wins; what comes through is dated and every row carries the date and id of one of the records |
| PositionsLoader.CleanBatch | src/positions.py:209-258 | `run` goes on exactly when the frame is non-empty with every required column; an investor id `int()` cannot read raises; what reaches the merge is dated and every row carries the date and id of one of the records |
| PositionsLoader.MissingColumnWritesNothing | src/positions.py:214-223 | a frame without one of the required columns writes nothing and raises nothing |
| PositionsLoader.UnreadableInvestorIdWritesNothing | src/positions.py:237-243 | a record whose investor id `int()` cannot read makes `run` raise before anything is written |
| PositionsLoader.Run | src/positions.py:203-263 | `run` from the fetched records on: early return, exception, or the merge of the cleaned batch |
| PositionsLoader.RunAppendsDatedRows | src/positions.py:255-263 | `run` keeps the stored rows, and every row it appends has a date |
| PositionsLoader.AppendsDatedRows | src/positions.py:16-103 | a merge of dated rows keeps the stored rows and appends only dated rows |
| PositionsLoader.RunTwiceInsertsNothing | src/positions.py:159-263 | idempotence: `run` on the same records after a run that went through writes nothing |
| PortfolioLoader.Add | src/portfolio.py:162-175 | one more row either folds into its group's row or opens one new row |
| PortfolioLoader.Aggregate | src/portfolio.py:162-175 | `groupby(...).agg(...)`: rows folded into their groups one by one |
| PortfolioLoader.ExpectedOutside | src/portfolio.py:165-172 | a group with no row sums to zero and has no first book name |
| PortfolioLoader.FindAdd | src/portfolio.py:165-175 | one more row changes only its own group: it opens it, or adds its amounts and keeps the first non-null book name |
| PortfolioLoader.AggregateFind | src/portfolio.py:162-175 | the aggregate holds a row for a group exactly when some input row belongs to it, and that row carries the sums of `asset_value`, `quantity` and both percentages and the first `book_name` |
| PortfolioLoader.Groups | src/portfolio.py:162 | one group per aggregated row |
| PortfolioLoader.GroupsAdd | src/portfolio.py:162-175 | in the model's group order, a new group is added after the existing ones, and a known group adds nothing |
| PortfolioLoader.AggregateDistinct | src/portfolio.py:175 | the aggregate never holds two rows for one group |
| PortfolioLoader.AppendPortfolioDataSimple | src/portfolio.py:12-79 | the method leaves the database and raises as `AppendPortfolio` says |
| PortfolioLoader.InsertsUnseenKeys | src/portfolio.py:26-66 | once rows are found for the batch's dates, the rows appended are exactly the batch rows whose key is not among theirs, in batch order, and inserted plus skipped is the batch size |
| PortfolioLoader.UnreadableOrNothingStoredInsertsAll | src/portfolio.py:36-69 | a failed read, or no stored row on the batch's dates, appends the whole batch |
| PortfolioLoader.BatchOnItsDates | src/portfolio.py:26-34 | every row of a dated batch lies on one of the dates the query asks for |
| PortfolioLoader.KeysAgree | src/portfolio.py:45-57 | when the stored date renders as `strftime('%Y-%m-%d')` does, the stored and the incoming keys of a row coincide |
| PortfolioLoader.AgainAfterAll | src/portfolio.py:45-61 | with agreeing date renderings, after the whole batch was stored the same batch finds nothing to insert |
| PortfolioLoader.AgainAfterNew | src/portfolio.py:45-61 | with agreeing date renderings, after the new rows were stored the same batch finds nothing to insert |
| PortfolioLoader.MergeTwiceInsertsNothing | src/portfolio.py:12-79 | idempotence, provided the two date renderings agree |
| PortfolioLoader.RowsToInsert | src/portfolio.py:26-69 | the rows of the batch to insert: all of them when the read failed or nothing is stored, else those whose key is not stored on the batch's dates |
| PortfolioLoader.AppendPortfolio | src/portfolio.py:12-79 | `append_portfolio_data_simple`: nothing for an empty batch, then the insert or the exception |
| PortfolioLoader.BarIndex | src/portfolio.py:45-57 | the position of the first bar lies within the text |
| PortfolioLoader.BarIndexAfter | src/portfolio.py:45-57 | the first bar of `a|b` follows `a` when `a` holds none |
| PortfolioLoader.SplitAtBar | src/portfolio.py:45-57 | `a|b == c|d` with bar-free `a` and `c` means `a == c` and `b == d` |
| PortfolioLoader.KeyDates | src/portfolio.py:45-57 | two equal keys with bar-free portfolio names and dates render the same date |
| PortfolioLoader.IsoDateNoBar | src/portfolio.py:47 | `strftime('%Y-%m-%d')` holds no bar |
| PortfolioLoader.NoKeyMatch | src/portfolio.py:45-60 | a stored row whose date renders differently from the incoming one never blocks it |
| PortfolioLoader.MismatchedDatesReinsert | src/portfolio.py:45-61 | when the stored date never renders as `strftime` does (a timestamp with a time part), every batch row is inserted again |
| PortfolioLoader.PortfolioIds | src/portfolio.py:156-157 | one converted `portfolio_id` per record |
| PortfolioLoader.ToLines | src/portfolio.py:147-157 | one converted row per record |
| PortfolioLoader.AggregateGroupsOfLines | src/portfolio.py:175 | every aggregated row is the group of some input row |
| PortfolioLoader.CleanBatch | src/portfolio.py:127-182 | `run` stops early exactly on an empty frame; what reaches the merge had every desired column, holds only dated rows, and no key column of it is null |
| PortfolioLoader.MissingColumnWritesNothing | src/portfolio.py:136-175 | a non-empty frame without one of the desired columns writes nothing and raises (the group-by needs every column) |
| PortfolioLoader.Run | src/portfolio.py:127-183 | `run` from the fetched records on: early return, exception, or the merge of the aggregated batch |
| TradesLoader.TextIds | src/trades_tpe.py:55 | the id column is turned into text, row by row; every other column and every non-null id is kept |
| TradesLoader.AppendEntityData | src/trades_tpe.py:17-73 | the method leaves the database and raises as `AppendEntity` says |
| TradesLoader.AppendEntity | src/trades_tpe.py:17-73 | `append_entity_data`: nothing for an empty batch; a missing table is created with the batch, else the rows whose id is not stored for the day are appended (a failed read counts as nothing stored); a refused write raises and changes nothing |
| TradesLoader.InsertsUnseenIds | src/trades_tpe.py:36-67 | with the table present, the rows appended are exactly the batch rows (id as text) whose id is not among the ids stored on that date, in batch order, and inserted plus skipped is the batch size |
| TradesLoader.MissingTableGetsBatch | src/trades_tpe.py:28-32 | a missing table is created with the whole batch, as it came |
| TradesLoader.UnseenBatchInsertedWhole | src/trades_tpe.py:45-67 | a batch none of whose ids is known (a failed read counts as none known) is appended whole |
| TradesLoader.OtherDaysDoNotCount | src/trades_tpe.py:37-43 | stored rows of other dates never block a row |
| TradesLoader.RefusedWriteRaises | src/trades_tpe.py:29-71 | a refused write, when there is something to write, raises and leaves the database as it was |
| TradesLoader.StoredIdOf | src/trades_tpe.py:37-48 | a stored row on the date with a non-null id contributes its id as text |
| TradesLoader.SentIdsFound | src/trades_tpe.py:37-67 | every row written on its own date is found by the next read of that date |
| TradesLoader.StoredIdsGrow | src/trades_tpe.py:37-48 | appending rows never removes an id from those found |
| TradesLoader.AgainAfterCreate | src/trades_tpe.py:28-56 | after a table was created from a batch, the same batch finds nothing new |
| TradesLoader.AgainAfterNew | src/trades_tpe.py:54-67 | after the new rows were appended, the same batch finds nothing new |
| TradesLoader.MergeTwiceInsertsNothing | src/trades_tpe.py:17-73 | idempotence: a batch dated on `data` with non-null ids, merged twice with a readable database, inserts nothing the second time and raises nothing |
| TradesLoader.Converted | src/trades_tpe.py:155-177 | the conversions keep the number of rows and their columns, and only a failed `Int64` cast raises |
| TradesLoader.Typed | src/trades_tpe.py:146-177 | the typed frame has one row per record, holding exactly the desired columns the frame has |
| TradesLoader.Operations | src/trades_tpe.py:146-180 | what is sent to the merge has only rows with a non-null `id`, each holding exactly the available desired columns; a missing `id` column raises `KeyError` |
| TradesLoader.IdentifiedRows | src/trades_tpe.py:180 | the `id` filter keeps only rows with an id, and their columns |
| TradesLoader.RunDay | src/trades_tpe.py:86-181 | the method leaves the database and raises as `Run` says |
| TradesLoader.Run | src/trades_tpe.py:86-181 | `run` of one day: a failed fetch raises, an empty frame writes nothing, else the typed and filtered operations are merged |
| TradesLoader.AppendEntityGrows | src/trades_tpe.py:17-73 | the merge only appends, to its own table, and writes nothing when it raises |
| TradesLoader.AppendEntityIdentified | src/trades_tpe.py:54-67 | rows appended to an existing table all have a non-null id when the batch had |
| TradesLoader.RunMerges | src/trades_tpe.py:113-181 | `run` either writes nothing or is the merge of its operations frame |
| TradesLoader.RaisingRunWritesNothing | src/trades_tpe.py:86-181 | a `run` that raises has written nothing |
| TradesLoader.RunGrows | src/trades_tpe.py:86-181 | `run` only appends, and only to `operations` |
| TradesLoader.RunAppendsIdentifiedRows | src/trades_tpe.py:180-181 | every row `run` adds to an existing `operations` table has an `id` |
| TradesLoader.RunTwiceInsertsNothing | src/trades_tpe.py:86-181 | the same day run twice inserts nothing the second time, when the operations are dated on that day |
| TradesLoader.Batch | src/trades_tpe.py:76-84 | the batch runs every business day from 2020-01-01 to 2025-08-26 in order, each on the state the previous left, and reports the days that raised |
| TradesLoader.RunDays | src/trades_tpe.py:78-84 | the loop leaves the database as the isolated runs of its days do and collects the days that raised |
| TradesLoader.BatchGrows | src/trades_tpe.py:76-84 | the batch never removes a stored row |
| EntityMerge.AppendEntityData | src/movimentos.py:15-49 | the method leaves the database and raises as `AppendEntity` says |
| EntityMerge.AppendEntity | src/movimentos.py:15-49 | `append_entity_data`: create a missing table with the batch, else append the rows whose id is not stored; a failed read or write raises and changes nothing |
| EntityMerge.InsertsUnseenIds | src/movimentos.py:37-47 | with the table present, the rows appended are exactly the batch rows whose id no stored row has, in batch order, and inserted plus skipped is the batch size |
| EntityMerge.MissingTableGetsBatch | src/movimentos.py:34-36 | a missing table is created with the whole batch, even an empty one |
| EntityMerge.UnreadableTableRaises | src/movimentos.py:38-39 | a read of an existing table that fails raises and writes nothing |
| EntityMerge.RefusedWriteRaises | src/movimentos.py:35-47 | a refused write, when there is something to write, raises and leaves the database as it was |
| EntityMerge.StoredIdBlocks | src/movimentos.py:41-42 | no row whose id is already stored is inserted |
| EntityMerge.UnseenBatchInsertedWhole | src/movimentos.py:41-47 | a batch none of whose ids is stored is appended whole |
| EntityMerge.AppendEntityGrows | src/movimentos.py:15-49 | the merge only appends, to its own table, creates it when it succeeds, and writes nothing when it raises |
| EntityMerge.AppendEntityFrom | src/movimentos.py:41-47 | every row the merge appends to an existing table comes from the batch, so keeps any property all batch rows have |
| EntityMerge.MergedIdsStored | src/movimentos.py:34-47 | after a merge that raised nothing, every batch id is stored |
| EntityMerge.MergeTwiceInsertsNothing | src/movimentos.py:15-49 | idempotence: merging the same batch again into a table left as the first merge left it writes nothing and raises nothing |
| MovimentosLoader.Prepared | src/movimentos.py:108-143 | the prepared frame has one row per record holding exactly the required columns, and only a failed `Int64` cast raises |
| MovimentosLoader.Prepare | src/movimentos.py:108-143 | the conversion loops compute `Prepared` |
| MovimentosLoader.EntityRows | src/movimentos.py:146-159 | an entity table holds each distinct projection that has an id exactly once, and nothing else |
| MovimentosLoader.Entity | src/movimentos.py:146-159 | `df[cols].drop_duplicates()`, then the rows whose id is not null |
| MovimentosLoader.RunDay | src/movimentos.py:59-165 | the method leaves the database and raises as `Run` says |
| MovimentosLoader.Run | src/movimentos.py:59-165 | `run` of one day: the fetch, the column check and conversions, then the four merges |
| MovimentosLoader.MergeDay | src/movimentos.py:145-165 | the four merges run in order, and the first that raises ends the run with the earlier ones kept |
| MovimentosLoader.MergeAll | src/movimentos.py:145-165 | the merges one after the other; the first exception ends the run |
| MovimentosLoader.MergeAllGrows | src/movimentos.py:145-165 | the merges only append, and only to their own tables |
| MovimentosLoader.MergeAllSplit | src/movimentos.py:145-165 | a run of merges is the first part, then the rest on what it left unless it raised |
| MovimentosLoader.MergeAllAppendsFrom | src/movimentos.py:145-165 | every row appended to one of the tables comes from that table's batch |
| MovimentosLoader.MergeAllTwice | src/movimentos.py:145-165 | idempotence of a run of merges over distinct tables |
| MovimentosLoader.MergesTables | src/movimentos.py:148-165 | the four merges write to `portfolio`, `investor`, `distributor` and `movements`, each once |
| MovimentosLoader.MissingColumnWritesNothing | src/movimentos.py:92-105 | a frame without one of the required columns returns without writing or raising |
| MovimentosLoader.RunMerges | src/movimentos.py:84-165 | `run` either writes nothing or is the four merges of its prepared frame |
| MovimentosLoader.RunGrows | src/movimentos.py:59-165 | `run` only appends, and only to its four tables |
| MovimentosLoader.MergesIdentified | src/movimentos.py:146-165 | each merge goes to its table, keyed on its id column, with only rows whose id is not null |
| MovimentosLoader.RunAppendsIdentifiedRows | src/movimentos.py:146-165 | every row `run` adds to an existing table of the four has a non-null id |
| MovimentosLoader.MergeAllRaisesAt | src/movimentos.py:145-165 | a merge that raises ends the run with the raise, and the tables as the earlier merges left them |
| MovimentosLoader.RaisingRunKeepsEarlierMerges | src/movimentos.py:145-165 | in `run`, a failing merge keeps the writes of the merges before it |
| MovimentosLoader.RunTwiceInsertsNothing | src/movimentos.py:59-165 | the same day run again, with every table readable, inserts nothing and raises nothing |
| MovimentosLoader.Batch | src/movimentos.py:51-57 | the batch runs every business day from 2025-07-31 to 2025-09-25 in order and stops at the first day that raises |
| MovimentosLoader.RunDays | src/movimentos.py:55-57 | the loop leaves the database as running its days until one raises does |
| MovimentosLoader.BatchGrows | src/movimentos.py:51-57 | the batch never removes a stored row |
| PlFundLoader.KeptRows | src/plfund.py:104-116 | the rows kept are exactly the records whose `source_id` is 15, 11, 7 or 33, projected on the required columns |
| PlFundLoader.Kept | src/plfund.py:104-116 | the records whose `source_id` is one of the kept sources |
| PlFundLoader.Prepared | src/plfund.py:104-128 | after the conversions every row still comes from a kept source, and only a failed `Int64` cast raises |
| PlFundLoader.Prepare | src/plfund.py:104-128 | the conversion loops compute `Prepared` |
| PlFundLoader.SentRowsMergeable | src/plfund.py:136 | the rows sent to the merge come from a kept source and have an `id` |
| PlFundLoader.Load | src/plfund.py:86-136 | nothing is sent for an empty frame, a missing column or no kept row; what is sent is mergeable |
| PlFundLoader.LoadDay | src/plfund.py:86-136 | the method computes `Load` |
| PlFundLoader.RunDay | src/plfund.py:58-137 | the method leaves the database and raises as `Run` says |
| PlFundLoader.Run | src/plfund.py:58-137 | `run` of one day: the fetch, the load, then the merge into `fund_pls` |
| PlFundLoader.MissingColumnWritesNothing | src/plfund.py:90-101 | a frame without one of the required columns returns without writing or raising |
| PlFundLoader.NoKeptSourceWritesNothing | src/plfund.py:116-133 | a frame with no record from a kept source returns without writing or raising |
| PlFundLoader.RunAppendsMergeableRows | src/plfund.py:58-137 | `run` only appends, only to `fund_pls`, and every row it adds to an existing table comes from a kept source and has an `id` |
| PlFundLoader.RunTwiceInsertsNothing | src/plfund.py:58-137 | the same day run again with the table readable inserts nothing and raises nothing |
| PlFundLoader.Batch | src/plfund.py:51-56 | the batch runs the business days of 2025-07-25 alone and stops at the first that raises |
| PlFundLoader.RunDays | src/plfund.py:54-56 | the loop leaves the database as running its days until one raises does |
| PlFundLoader.BatchGrows | src/plfund.py:51-56 | the batch never removes a stored row |
| Civil.Weekday | src/calendar.py:140 | the weekday is one of seven, Monday 0 to Sunday 6 |
| Civil.DayNumber | src/calendar.py:140-143 | a date as the count of days from 1970-01-01 |
| Civil.NextDayNumber | src/calendar.py:140-143 | the next calendar day is a valid date one day number later |
| Civil.FromDayNumberCorrect | src/calendar.py:142-143 | every day number decodes to a valid date that encodes back to it |
| Civil.DayNumberRoundTrip | src/calendar.py:154 | every valid date encodes to a day number that decodes back to it |
| Civil.FromDayNumberNext | src/calendar.py:140-143 | decoding the next day number gives the next calendar day |
| Civil.DayNumberInjective | src/calendar.py:154 | two valid dates with one day number are the same date |
| Civil.NextMonth | src/calendar.py:199 | the month after a month is a month |
| Civil.NextOfPrevMonth | src/calendar.py:154 | the month after the month before is the month itself |
| Civil.MonthsBack | src/calendar.py:167-195 | `relativedelta(months=k)` subtracted from a month's first day lands `k` months earlier, on a valid month |
| Civil.InMonthRange | src/calendar.py:197-200 | a month is the run of day numbers from its first day to its last |
| Civil.DayInMonth | src/calendar.py:198 | the days of a month have consecutive day numbers |
| Civil.MonthEndThenStart | src/calendar.py:199 | the day after a month's last day is the first of the next month |
| Easter.EasterInSpring | src/calendar.py:33-47 | Western Easter is a valid date of its own year between March 22 and April 25 |
| Easter.EasterIsSunday | src/calendar.py:33-47 | Western Easter always falls on a Sunday |
| Easter.WesternEaster | src/calendar.py:33-47 | Easter Sunday of a year, by the Gregorian computus |
| TradingCalendar.ObservedByAnyExists | src/calendar.py:22-24 | a day is a holiday of a rule list exactly when some rule of it observes the day |
| TradingCalendar.IsHoliday | src/calendar.py:114-130 | a day is a holiday when a rule of the active list observes it |
| TradingCalendar.IsBusinessDay | src/calendar.py:140 | a business day is a Monday to Friday that is not a holiday |
| TradingCalendar.HolidaySet | src/calendar.py:27-130 | inside pandas' 1970 to 2200 window the holidays are exactly the nine fixed dates, Easter -48, -47, -2 and +60, July 9 from 1998-01-01 to 2020-01-01, and 2014-06-12 |
| TradingCalendar.HolidaySetSound | src/calendar.py:114-130 | every holiday of the active list is in the spelled-out set |
| TradingCalendar.HolidaySetComplete | src/calendar.py:114-130 | every day of the spelled-out set is a holiday of the active list |
| TradingCalendar.NineDaysBackHoldBusinessDay | src/calendar.py:113-140 | no nine days in a row ending at a day are all non-business days |
| TradingCalendar.NineDaysAheadHoldBusinessDay | src/calendar.py:113-140 | no nine days in a row starting at a day are all non-business days |
| TradingCalendar.BusinessDayAtOrBefore | src/calendar.py:140 | rolling back gives the latest business day at or before the day, at most 8 days back |
| TradingCalendar.BusinessDayAtOrAfter | src/calendar.py:140 | rolling forward gives the earliest business day at or after the day, at most 8 days ahead |
| TradingCalendar.PreviousTradingDay | src/calendar.py:142-143 | the result is the latest business day strictly before the day |
| TradingCalendar.LastBusinessDayOfMonth | src/calendar.py:134-136 | every month has a last business day, later than its first day |
| TradingCalendar.FirstBusinessDayOfMonth | src/calendar.py:137-139 | every month has a first business day, earlier than its last day |
| TradingCalendar.MonthFinalUnique | src/calendar.py:134-136 | a month has exactly one last business day |
| TradingCalendar.MonthInitialUnique | src/calendar.py:137-139 | a month has exactly one first business day |
| TradingCalendar.LastTradingDayOfMonth | src/calendar.py:145-147 | the result is a month's last business day after the day: that of the day's month before it, else that of the next month |
| TradingCalendar.LastTradingDayOfMonthIsEarliest | src/calendar.py:145-147 | no month's last business day lies between the day and the result |
| TradingCalendar.FirstTradingDayOfMonth | src/calendar.py:149-151 | the result is a month's first business day before the day: that of the day's month after it, else that of the previous month |
| TradingCalendar.FirstTradingDayOfMonthIsLatest | src/calendar.py:149-151 | no month's first business day lies between the result and the day |
| TradingCalendar.LastTradingDayFromMonthStart | src/calendar.py:153-156 | from a month's first day the month-end offset gives that month's last business day |
| TradingCalendar.LastTradingDayMonthsBack | src/calendar.py:153-195 | the previous-month, 6-, 12-, 24-, 36-, 48- and 60-month lookups give the last business day of the month `k` months back |
| TradingCalendar.LastTradingDayOfPreviousYear | src/calendar.py:158-165 | the result is the last business day of December of the previous year |
| TradingCalendar.BusinessDaysInRange | src/calendar.py:202-221 | the range lists exactly the business days between its ends, ascending, and nothing when the end precedes the start |
| TradingCalendar.BusinessDaysInMonth | src/calendar.py:197-200 | a valid month lists the range from its first to its last day; an invalid month raises |
| TradingCalendar.BusinessDaysInMonthAreTheMonthsBusinessDays | src/calendar.py:197-200 | the days listed for a month are exactly its business days, ascending |
| TradingCalendar.ConstitutionalistWindow | src/calendar.py:61-67 | July 9 is a holiday exactly in the years 1998 to 2019 |
| TradingCalendar.WorldCupDay | src/calendar.py:108 | June 12 is a holiday in 2014 and otherwise only when it is Corpus Christi |
| TradingCalendar.AshWednesdayIsBusinessDay | src/calendar.py:38 | Ash Wednesday, defined but left out of the active list, is always a business day |
| TradingCalendar.NoMovableHolidayOnWednesday | src/calendar.py:33-47 | no movable holiday falls on a Wednesday |
| TradingCalendar.WorldCupDayIsThursday | src/calendar.py:108 | 2014-06-12 was a Thursday |
| TradingCalendar.MidweekBusinessDay | src/calendar.py:114-130 | of a Tuesday, Wednesday and Thursday in a row, one is a business day |

## Left out

- Token acquisition is reduced to a grant or refusal per token request. The HTTP transport (`requests.post`, headers, payloads, timeouts, status codes other than 401) is reduced to the `Server` answers `Ok`, `HttpError` and `Broken`.
- The 401 retry recurses without bound in the source. The model bounds it by a `depth` argument (standing for Python's recursion limit), and a call with no depth left returns the empty frame.
- `src/db.py` is not part of this model. `table_exists`, `get_data_from_db`, `read_sql` and `append_to_db` are the `Store` class and the `readOk` / `accepted` inputs. SQL text, schemas, `to_sql` chunking and the `ON CONFLICT` fallback are left out.
- Logging, `print`, `time.sleep` and `os.getenv` are left out; they have no effect on the data.
- `datetime.date.today()`: `run(data=None)` defaulting to the previous trading day is left out. The date is always passed in.
- The `batch` functions of the positions and portfolio loaders (month-end dates chosen over hard-coded ranges, then `run`) are left out: they only choose dates, and `run` is modelled.
- Floating point: `to_numeric`, `to_datetime` and the `Int64` cast are abstract parsers, passed in as functions. Amounts are exact integers in millionths.
- PositionsLoader.Round2: `round(x, 2)` is modelled as rounding half to even on the exact millionths, not on the binary float, so ties that a float stores slightly off are not reproduced. `str()` of the rounded amount is written as plain digits; the exponent notation Python uses from 1e16 on is not modelled.
- The `price` mean of the portfolio aggregation is not modelled: the aggregate carries no price.
- The group-by at `src/portfolio.py:175` drops rows with a null key, by its `dropna` default; the model does so too (`PortfolioLoader.KeyComplete`). Other pandas details are left out, for example `isin` comparing values of different types: the model compares values by structural equality. `astype(str)` of the stored portfolio date is an abstract rendering function.
- PortfolioLoader.GroupsAdd: the model lists the aggregated groups in the order they first appear, while `groupby` sorts them by key. Sorting needs an order on mixed Python values that the model does not define, so the order of the rows `run` appends to `fund_portfolio` differs; which rows are appended does not (`PortfolioLoader.Aggregate` and `PortfolioLoader.AggregateFind` do not depend on it).
- PositionsLoader.CheckDataQuality: `duplicated` (`src/positions.py:121`) and `groupby` (`src/portfolio.py:175`) raise `TypeError` when a key cell holds a list or a dictionary, which Python cannot hash. The model compares such cells structurally and does not raise; `PortfolioLoader.Aggregate` likewise.
- Json.QuoteRepr: characters beyond ASCII that Python's `str.isprintable` rejects (for example U+00A0 or U+2028) are written as they are, where `repr` writes a `\x`, `\u` or `\U` escape. Printable ASCII, the quote choice, backslash, the short escapes and the other ASCII control characters follow `repr`.
- PositionsLoader.AmountText: an amount that is exactly `-0.0` is written `0.0`, as millionths carry no sign for zero. A negative amount that rounds to zero is written `-0.0`, as `str()` writes it.
- Dates are total over all integers (`Civil`, `TradingCalendar`). Python's `date` raises outside the years 1 to 9999 and pandas' `Timestamp` outside 1677 to 2262; those errors are not modelled. Only the bad-month `ValueError` of `get_business_days_in_month` is (`TradingCalendar.BusinessDaysInMonth`).
- PositionsLoader.Run: `m.authenticate()` at `src/positions.py:180` is not guarded, so a refused token request raises out of `run`. The model starts from the fetched records and does not model that failure; the same holds for `PortfolioLoader.Run` (`src/portfolio.py:108`).
- PricesApi.Client.constructor: the `while True` loop at `src/api.py:91-111` has no page cap. The model requires that the server's pages eventually end the loop (`PagingEnds`); a server that never does is not modelled.
- PositionsLoader.InvestorId: a `numpy` array cell is treated like a list; JSON decoding only produces lists.
- A stored table without the id column, which makes the source raise `KeyError`, is not modelled: every stored row has every column it is asked for.
- The caller's frame is changed in place by the merges: `composite_key` in the positions and portfolio loaders, and the id column turned into text in the trades loader. The model returns new values instead and does not model that aliasing.
- `MovimentosLoader.MergeDay` runs the four merges of the movements `run` as a loop over a list of (table, id column, rows). The source makes four explicit calls in that order.
- Hard-coded portfolio-id lists and request payload constants are left out, except `per_page`, page caps and data keys, which decide the paging.
- `manage.py` (the command-line wiring) is not part of this model.
