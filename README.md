# Trades API — a Dafny model of its query builder, record mapping and search

The trades service answers two read requests over a `trades` table: a list of
trades, narrowed by optional filters, sorted, paged and then searched, and a
single trade looked up by its id. This project models the service's core,
`TradeAPI.py`:

- **the list query** (`fetch_trades_from_db`): a fixed base text, one
  `AND col op %s` condition per truthy filter, with its value bound as a
  parameter, then an optional `ORDER BY`, then an optional `LIMIT … OFFSET …`;
- **the record mapping**: a result row's ten columns become a `Trade`, with
  its nested `TradeDetails`, and then its dictionary form (`.dict()`), both in
  the list fetch and in the lookup by id (`fetch_trade_by_id`);
- **the search** (`filter_trades_by_search`): a stable filter that keeps the
  trades whose counterparty, instrument id, instrument name or trader contain
  the search text, ignoring letter case;
- the two steps of the list endpoint that tie these together: the page
  defaults (0 and 10) and searching only inside the fetched page.

Modules:

- `py.dfy` (`Py`) holds the Python conventions the code relies on: optional
  arguments, truthiness, dynamically typed column values and raised errors.
- `text.dfy` (`Text`) holds `lower`/`upper`, the `in` substring test,
  `str(int)` with its read-back, and the count of `%s` placeholders.
- `records.dfy` (`Records`) holds the trade shapes, the row mapping and the
  lookup by id.
- `query_builder.dfy` (`QueryBuilder`) holds the list query. `BuildQuery`
  follows the source's chain of `if` statements step by step. It is proved
  equal to the specification functions `QueryText` and `QueryParams`, and the
  properties are proved as lemmas about those functions.
- `search.dfy` (`Search`) holds the search. `FilterTradesBySearch` is the
  source's loop, proved equal to the function `SearchFilter`, and the
  properties are proved as lemmas about that function.

Three behaviours of the code are worth knowing:

- **NULL counterparty.** `trade.get(key, "")` supplies `""` only when the key
  is missing. Every record the service builds has a `counterparty` key, which
  may hold NULL (line 27 declares it optional). So a NULL counterparty reaches
  `.lower()` as `None`, and the whole search raises. The model returns an
  error in that case: see `Search.Matches` and `Search.SearchOnTrade`. The
  list endpoint turns that error into its generic server-error response. The
  Findings section below records it, with the corrected search beside it.
- **Unrecognised sort column.** For any `sort_by` other than
  `trade_date_time`, the code writes `ORDER BY trade_details.price` into the
  text, with the requested direction upper-cased. Which column the store
  understands by that name is not part of this model.
- **Pagination in the list endpoint.** The builder adds the page window only
  when both `page` and `page_size` are given. The list endpoint always passes
  both, defaulting to 0 and 10, so every list query is paged.

## Model

| member | source | states |
|---|---|---|
| QueryBuilder.BuildQuery | TradeAPI.py:50-85 | The query handed to `execute` starts with the base text `SELECT * FROM trades WHERE 1=1`. It equals `QueryText(f)`: the conditions of the truthy filters, then the ordering, then the page window. The parameters are the truthy filter values, and the number of `%s` placeholders equals the number of parameters. |
| QueryBuilder.AddCondition | TradeAPI.py:54-71 | One filter step: after filter k, the query and the parameters are the base text plus the conditions of the truthy filters among the first k+1, and their values in that order. |
| QueryBuilder.AddOrdering | TradeAPI.py:74-77 | Appends exactly the ordering clause and nothing else. |
| QueryBuilder.AddPageWindow | TradeAPI.py:80-82 | Appends exactly the page-window clause and nothing else. |
| QueryBuilder.SortColumn | TradeAPI.py:75 | The column written into `ORDER BY` is `trade_date_time` iff that is the requested column. For any other requested column the code writes `trade_details.price`. |
| QueryBuilder.Direction | TradeAPI.py:76-77 | The direction is `ASC` when no truthy order is given. Otherwise it is the given order upper-cased. It contains no ASCII lower-case letter. |
| QueryBuilder.OrderClause | TradeAPI.py:74-77 | The ordering clause is present iff `sort_by` is truthy, and it starts with a space. |
| QueryBuilder.OrderClauseHasNoPlaceholders | TradeAPI.py:77 | Whatever direction is requested, the ordering clause adds no `%s` placeholder. |
| QueryBuilder.PageClause | TradeAPI.py:80-82 | The page window is present iff both `page` and `page_size` are given, and it starts with a space. |
| QueryBuilder.PageClauseHasNoPlaceholders | TradeAPI.py:82 | The page window adds no `%s` placeholder. |
| QueryBuilder.PlaceholdersMatchParams | TradeAPI.py:50-85 | The text passed to `execute` holds exactly as many `%s` placeholders as there are parameters. |
| QueryBuilder.ParamPositions | TradeAPI.py:51-71 | There is one parameter per truthy filter. The value of the i-th filter sits at the position equal to the number of truthy filters before it. No parameter is empty. |
| QueryBuilder.QueryParamsOrder | TradeAPI.py:54-71 | The parameters of the list query are the truthy filter values in the fixed filter order. There are at most six of them, and none is empty. |
| QueryBuilder.FilterValuesNotInText | TradeAPI.py:54-71 | Two requests that agree on which filters are truthy, and on sorting and paging, send the same query text. So filter values never enter the text. |
| QueryBuilder.FalsyFilterAddsNothing | TradeAPI.py:54-71 | An absent filter and an empty one produce the same text and the same parameters. |
| QueryBuilder.PageWindowLast | TradeAPI.py:79-82 | The page window comes last, after any ordering. It reads ` LIMIT size OFFSET page*size`, and reading its numbers back gives the page size and the offset. |
| QueryBuilder.ListFilters | TradeAPI.py:204-205 | The list endpoint always passes a page and a page size, 0 and 10 when the request omits them. |
| QueryBuilder.ListQueriesPaginate | TradeAPI.py:222-224 | Every list query has a page window. Without page arguments it is ` LIMIT 10 OFFSET 0`. |
| Text.Lower | TradeAPI.py:156 | `lower()` on ASCII text: it keeps the length, turns each upper-case letter into its lower-case letter (code point + 32), and changes nothing else. |
| Text.Upper | TradeAPI.py:77 | `upper()` on ASCII text: it keeps the length, turns each lower-case letter into its upper-case letter (code point - 32), and changes nothing else. |
| Text.LowerOfUpper | TradeAPI.py:156 | Under the ASCII case mapping, lower-casing an upper-cased text gives the lower-cased original. |
| Text.LowerIdempotent | TradeAPI.py:156 | Lower-casing twice is lower-casing once. |
| Text.IsSubstring | TradeAPI.py:156-159 | `needle in hay` holds iff `needle` occurs in `hay` at some position. |
| Text.IntToDecimal | TradeAPI.py:82 | `str(i)` as the f-string writes it: a minus sign exactly when `i` is negative, then digits with no leading zero (only 0 itself is written `0`). Reading it back with `int` gives `i`. |
| Records.ToTrade | TradeAPI.py:90-103 | Row column i becomes the field named by column i. Writing the record back as a row gives the same row. |
| Records.WellTypedRow | TradeAPI.py:18-33 | A mapped row has the declared field types iff each of its columns has the type declared for that column. |
| Records.AsDict | TradeAPI.py:104 | The dictionary form has exactly the eight field names as keys. Each holds its field's value, and `trade_details` holds a nested dictionary whose keys are exactly the three detail fields, each holding its value. |
| Records.RowsToDicts | TradeAPI.py:88-104 | The list fetch yields one record dictionary per row, in the store's order. |
| Records.ByIdSqlPlaceholders | TradeAPI.py:124 | The lookup text holds exactly one placeholder. |
| Records.ByIdQuery | TradeAPI.py:124 | The lookup text is the same for every id. The id is its single bound parameter. |
| Records.LookupById | TradeAPI.py:124-143 | The result is None iff the store returns no row. Otherwise it is the first row as a record dictionary, which carries the requested id when the row does. |
| Search.MatchesIsDisjunction | TradeAPI.py:155-160 | The condition is an OR over the fields. A match is always backed by a field containing the text. When every field can be read, the condition is true iff some field contains the text. |
| Search.MissingFieldReadsEmpty | TradeAPI.py:156-159 | A missing field is searched exactly as if it held the empty text. |
| Search.FieldText | TradeAPI.py:156-159 | `trade.get(key, "").lower()`: a missing field reads as `""` and a string field as its lower-cased text. The read fails iff the field is present and not a string. |
| Search.Matches | TradeAPI.py:155-160 | The condition fails only on a searched field that is present and not a string. A counterparty that is present but not a string, such as NULL, makes it fail with that field's error, whatever the other fields hold. |
| Search.ErrorNamesUnreadableField | TradeAPI.py:156-159 | A failing `or` chain names one of its fields, which is present in the record and is not a string. |
| Search.SearchOnTrade | TradeAPI.py:156-159 | On a record with the declared types, the condition fails iff the counterparty is NULL. Otherwise it is true iff one of the four fields contains the lower-cased text. |
| Search.SearchOnRow | TradeAPI.py:89-104 | On a fetched row whose columns have their declared types, the search fails iff the counterparty column is NULL. |
| Search.SearchFilter | TradeAPI.py:152-162 | A successful search returns no more trades than it was given. |
| Search.FilterTradesBySearch | TradeAPI.py:152-162 | The loop returns the search result, including the failure of the first trade whose condition cannot be evaluated. |
| Search.FailureIsFinal | TradeAPI.py:154-161 | Once some trade's condition fails, the whole search fails with that error. |
| Search.SearchSucceedsIff | TradeAPI.py:154-161 | The search succeeds iff the condition can be evaluated on every trade. |
| Search.SearchKeepsExactlyMatches | TradeAPI.py:154-161 | A trade is in the result iff it is in the input and matches. |
| Search.SearchKeepsEveryOccurrence | TradeAPI.py:154-161 | A successful search keeps every occurrence of each matching trade, duplicates included, and no occurrence of the others. |
| Search.SearchIsSubsequence | TradeAPI.py:153-162 | The result is a subsequence of the input, in the original order. |
| Search.AllMatchingKept | TradeAPI.py:154-161 | A list of trades that all match is returned unchanged. |
| Search.SearchIdempotent | TradeAPI.py:152-162 | Searching the result again with the same text returns it unchanged. |
| Search.SearchCaseInsensitive | TradeAPI.py:156-159 | Two search texts that are equal after lower-casing select the same trades. |
| Search.SearchIgnoresUpperCase | TradeAPI.py:156-159 | Under the ASCII case mapping, searching for the upper-cased text gives the same result. |
| Search.SearchPage | TradeAPI.py:225-226 | Without a truthy search text the fetched page is returned as it is. A successful search returns no more trades than the page holds. |
| Search.SearchStaysInPage | TradeAPI.py:225-226 | The search narrows the fetched page: its result is a subsequence of the page and never includes a trade from outside it. |
| Search.IntendedSearch | TradeAPI.py:152-162 | The corrected search, which reads a NULL field as `""`: it never fails and returns no more trades than it was given. |
| Search.IntendedSearchAgrees | TradeAPI.py:154-161 | The corrected search keeps exactly the trades that match under the corrected reading. Wherever the search as written succeeds, the two return the same trades. |
| Search.IntendedAgreesWhereReadable | TradeAPI.py:155-160 | Wherever the condition as written can be evaluated, the corrected condition gives the same answer. |
| Search.IntendedNullReadsEmpty | TradeAPI.py:156-159 | Under the corrected reading, a NULL field is searched exactly as the empty text. |
| Search.IntendedMatchesWhenContains | TradeAPI.py:155-160 | Under the corrected reading, one field containing the text is enough for a match. |
| Search.NullCounterpartyDiscrepancy | TradeAPI.py:156 | A record with a NULL counterparty whose trader contains the search text makes the search as written fail. The corrected search keeps that record. |
| Py.OrElse | TradeAPI.py:76 | `x or default` is the argument when it is truthy and the default otherwise. So `sort_order or "asc"` is never empty. |

## Left out

- The database connection, its credentials and cursor handling, and the execution of the query are not modelled. `BuildQuery` stops at the text and parameters handed to `execute`, and `LookupById` takes the store's answer as a parameter.
- The store's own semantics are left out: what `WHERE`, `ORDER BY` and `LIMIT … OFFSET` select, the uniqueness of `trade_id`, and the database error handlers that print and return an empty list or `None`.
- The Flask routes, request-argument reading, the `int()` parsing of `page` and `page_size`, JSON serialisation, HTTP status codes and the home page are not modelled. Only the page defaults and the search-after-fetch order from the list endpoint are.
- Filter values are kept as the query-string texts the endpoint passes. The datetime and float parameter types in the signature are not enforced by Python either.
- `float(trade_data[6])` and pydantic's validation and coercion are not modelled. Prices and date-times are opaque values forwarded unchanged. `WellTyped` states the declared types but nothing enforces them.
- `.dict()` is modelled as a plain map from field name to value.
- Text.Lower: maps only the ASCII letters, one character to one. Python's `str.lower` also maps other Unicode letters and can change the length (`"İ".lower()` has two characters). So its length ensures holds of the program only on ASCII text.
- QueryBuilder.Direction: states only that no ASCII lower-case letter remains. Python's `str.upper` leaves some non-ASCII lower-case letters unchanged (`"ĸ".upper()` is `"ĸ"`), and the model maps only ASCII.
- Text.Upper: maps only the ASCII letters, one character to one. Python's `str.upper` also maps other Unicode letters and can change the length (`"ß".upper()` is `"SS"`). So its length ensures holds of the program only on ASCII text.
- Text.LowerOfUpper: holds of the program only on ASCII text. In Python, `"ß".upper().lower()` is `"ss"`, not `"ß"`.
- Search.SearchIgnoresUpperCase: holds of the program only on ASCII text. In Python, searching for "ß" finds "Straße", but searching for "SS" does not.
- Integers are unbounded, as Python's are, for arithmetic. Turning an integer into decimal text is not unbounded in Python: see the `Text.IntToDecimal` line.
- Text.IntToDecimal: is total over all integers. Python, since 3.11 and in the security releases of 3.7 to 3.10, refuses to write an integer of more than 4300 digits as decimal text and raises `ValueError`. With `page` and `page_size` both `10**2500`, the offset at TradeAPI.py:82 has 5001 digits, so the f-string raises. That error is not a database error, so the handler at TradeAPI.py:109 does not catch it, and the list endpoint answers with its server error. `QueryBuilder.AddPageWindow`, `QueryBuilder.PageClause` and `QueryBuilder.PageWindowLast` build and read back a window in that case and do not capture the failure.

## Findings

| source | as written | input that shows it | evidently intended | confidence | as-written member | corrected member |
|---|---|---|---|---|---|---|
| TradeAPI.py:156 | `trade.get("counterparty", "").lower()` calls `.lower()` on `None` when the counterparty is NULL. Line 27 declares the field optional, and `.dict()` keeps the key. So the whole search raises, and the list endpoint answers with a server error. | A trade whose counterparty is NULL and whose trader is "Alice", searched for "alice". | A NULL field reads as the empty text, so the trade is kept because its trader matches. | high, not executed | Search.NullCounterpartyDiscrepancy | Search.IntendedSearch |
