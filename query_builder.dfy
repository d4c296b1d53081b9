/**
 * The query the list fetch sends to the `trades` table: a fixed base text,
 * one bound condition per supplied filter, an optional ordering and an
 * optional page window. Filter values reach the store only as bound
 * parameters; the sort direction and the page numbers are written into the
 * text.
 */
module QueryBuilder {
  import opened Py
  import opened Text

  /**
   * The arguments of the list fetch. Filter values are the raw query-string
   * texts; the page fields are already-parsed integers.
   */
  datatype Filters = Filters(
    assetClass: Option<string>,
    start: Option<string>,
    end: Option<string>,
    minPrice: Option<string>,
    maxPrice: Option<string>,
    tradeType: Option<string>,
    page: Option<int>,
    pageSize: Option<int>,
    sortBy: Option<string>,
    sortOrder: Option<string>)

  const BaseSql: string := "SELECT * FROM trades WHERE 1=1"

  const AssetClassCondition: string := " AND asset_class = " + "%s"
  const StartCondition: string := " AND trade_date_time >= " + "%s"
  const EndCondition: string := " AND trade_date_time <= " + "%s"
  const MinPriceCondition: string := " AND price >= " + "%s"
  const MaxPriceCondition: string := " AND price <= " + "%s"
  const TradeTypeCondition: string := " AND buySellIndicator = " + "%s"

  /** The filter conditions in the order the builder considers them. */
  const Conditions: seq<string> := [
    AssetClassCondition, StartCondition, EndCondition,
    MinPriceCondition, MaxPriceCondition, TradeTypeCondition]

  /** The filter arguments, in the order of `Conditions`. */
  function FilterValues(f: Filters): (vs: seq<Option<string>>)
    ensures |vs| == |Conditions|
  {
    [f.assetClass, f.start, f.end, f.minPrice, f.maxPrice, f.tradeType]
  }

  /** The conditions whose filter value is truthy, concatenated in order. */
  function WhereClauses(conds: seq<string>, vs: seq<Option<string>>): string
    requires |conds| == |vs|
  {
    if vs == [] then ""
    else
      var n := |vs| - 1;
      WhereClauses(conds[..n], vs[..n]) + (if Truthy(vs[n]) then conds[n] else "")
  }

  /** The truthy filter values, in order: the parameters bound to the conditions. */
  function BoundParams(vs: seq<Option<string>>): seq<string> {
    if vs == [] then []
    else
      var n := |vs| - 1;
      BoundParams(vs[..n]) + (if Truthy(vs[n]) then [vs[n].value] else [])
  }

  /** The number of truthy values among `vs`. */
  function TruthyCount(vs: seq<Option<string>>): nat {
    if vs == [] then 0 else TruthyCount(vs[..|vs| - 1]) + (if Truthy(vs[|vs| - 1]) then 1 else 0)
  }

  /**
   * The column written into `ORDER BY`: the date-time when asked for by name,
   * the price column for any other requested column.
   */
  function SortColumn(sortBy: string): (c: string)
    ensures c == "trade_date_time" <==> sortBy == "trade_date_time"
    ensures c == "trade_date_time" || c == "trade_details.price"
  {
    if sortBy == "trade_date_time" then "trade_date_time" else "trade_details.price"
  }

  /**
   * The sort direction written into the text: the requested order upper-cased,
   * or `ASC` when none is given. It holds no ASCII lower-case letter.
   */
  function Direction(sortOrder: Option<string>): (d: string)
    ensures !Truthy(sortOrder) ==> d == "ASC"
    ensures Truthy(sortOrder) ==> d == Upper(sortOrder.value)
    ensures forall i :: 0 <= i < |d| ==> !IsLowerAscii(d[i])
  {
    Upper(OrElse(sortOrder, "asc"))
  }

  /**
   * The ordering clause: present exactly when a sort column is requested.
   * The requested direction is written into the text.
   */
  function OrderClause(sortBy: Option<string>, sortOrder: Option<string>): (r: string)
    ensures r == "" <==> !Truthy(sortBy)
    ensures r == "" || r[0] == ' '
  {
    if Truthy(sortBy) then " ORDER BY " + SortColumn(sortBy.value) + " " + Direction(sortOrder) else ""
  }

  /** The ordering clause holds no placeholder, whatever direction is requested. */
  lemma OrderClauseHasNoPlaceholders(sortBy: Option<string>, sortOrder: Option<string>)
    ensures Placeholders(OrderClause(sortBy, sortOrder)) == 0
  {
    if Truthy(sortBy) {
      var head := " ORDER BY " + SortColumn(sortBy.value) + " ";
      assert '%' !in head by {
        if sortBy.value == "trade_date_time" {
          assert head == " ORDER BY " + "trade_date_time" + " ";
        } else {
          assert head == " ORDER BY " + "trade_details.price" + " ";
        }
      }
      NoPlaceholders(head);
      UpperHasNoPlaceholders(OrElse(sortOrder, "asc"));
      PlaceholdersAppend(head, Direction(sortOrder));
    }
  }

  /**
   * The page window: present exactly when both the page and the page size are
   * given, page 0 included. The page size and the offset are written into the
   * text as decimal numbers.
   */
  function PageClause(page: Option<int>, pageSize: Option<int>): (r: string)
    ensures r == "" <==> page.None? || pageSize.None?
    ensures r == "" || r[0] == ' '
  {
    if page.Some? && pageSize.Some? then
      " LIMIT " + IntToDecimal(pageSize.value) + " OFFSET " + IntToDecimal(page.value * pageSize.value)
    else
      ""
  }

  /** The page window holds no placeholder. */
  lemma PageClauseHasNoPlaceholders(page: Option<int>, pageSize: Option<int>)
    ensures Placeholders(PageClause(page, pageSize)) == 0
  {
    if page.Some? && pageSize.Some? {
      var size := IntToDecimal(pageSize.value);
      var offset := IntToDecimal(page.value * pageSize.value);
      var r := " LIMIT " + size + " OFFSET " + offset;
      forall i | 0 <= i < |r| ensures r[i] != '%' {
        if i < 7 {
          assert r[i] == " LIMIT "[i];
        } else if i < 7 + |size| {
          assert r[i] == size[i - 7];
        } else if i < 7 + |size| + 8 {
          assert r[i] == " OFFSET "[i - 7 - |size|];
        } else {
          assert r[i] == offset[i - 15 - |size|];
        }
      }
      NoPlaceholders(r);
    }
  }

  /** The query text the list fetch sends. */
  function QueryText(f: Filters): string {
    BaseSql + WhereClauses(Conditions, FilterValues(f))
      + OrderClause(f.sortBy, f.sortOrder) + PageClause(f.page, f.pageSize)
  }

  /** The parameters the list fetch binds to the query's placeholders. */
  function QueryParams(f: Filters): seq<string> {
    BoundParams(FilterValues(f))
  }

  /**
   * One filter step, for the filter at position `k` of the table: a truthy
   * value appends its condition to the text and itself to the parameters; a
   * falsy one changes neither. Before the step the text and parameters hold
   * the choice among the first `k` filters, after it among the first `k + 1`.
   */
  method AddCondition(ghost vs: seq<Option<string>>, ghost k: nat, query: string, params: seq<string>,
                      condition: string, value: Option<string>)
    returns (query': string, params': seq<string>)
    requires |vs| == |Conditions| && k < |vs|
    requires condition == Conditions[k] && value == vs[k]
    requires query == BaseSql + WhereClauses(Conditions[..k], vs[..k]) && params == BoundParams(vs[..k])
    ensures query' == BaseSql + WhereClauses(Conditions[..k + 1], vs[..k + 1])
    ensures params' == BoundParams(vs[..k + 1])
  {
    query', params' := query, params;
    if Truthy(value) {
      query' := query' + condition;
      params' := params' + [value.value];
    }
    FilterStep(Conditions, vs, k, BaseSql, query, params, query', params');
  }

  /** The sorting step: appends the ordering clause when a sort column is requested. */
  method AddOrdering(query: string, sortBy: Option<string>, sortOrder: Option<string>) returns (query': string)
    ensures query' == query + OrderClause(sortBy, sortOrder)
  {
    query' := query;
    if Truthy(sortBy) {
      var sortColumn := if sortBy.value == "trade_date_time" then "trade_date_time" else "trade_details.price";
      var direction := OrElse(sortOrder, "asc");
      var clause := " ORDER BY " + sortColumn + " " + Upper(direction);
      query' := query' + clause;
    }
  }

  /** The pagination step: appends the page window when both page fields are given. */
  method AddPageWindow(query: string, page: Option<int>, pageSize: Option<int>) returns (query': string)
    ensures query' == query + PageClause(page, pageSize)
  {
    query' := query;
    if page.Some? && pageSize.Some? {
      var offset := page.value * pageSize.value;
      var window := " LIMIT " + IntToDecimal(pageSize.value) + " OFFSET " + IntToDecimal(offset);
      query' := query' + window;
    }
  }

  /**
   * Builds the list query the way the service does: start from the base text,
   * append one condition and one parameter per truthy filter, then the
   * ordering, then the page window. The result is what is handed to `execute`.
   */
  method BuildQuery(f: Filters) returns (q: Query)
    ensures q.sql == QueryText(f)
    ensures q.params == QueryParams(f)
    ensures BaseSql <= q.sql
    ensures Placeholders(q.sql) == |q.params|
  {
    var query := BaseSql;
    var params: seq<string> := [];
    ghost var vs := FilterValues(f);
    assert Conditions[..0] == [] && vs[..0] == [];
    assert BaseSql + "" == BaseSql;
    query, params := AddCondition(vs, 0, query, params, AssetClassCondition, f.assetClass);
    query, params := AddCondition(vs, 1, query, params, StartCondition, f.start);
    query, params := AddCondition(vs, 2, query, params, EndCondition, f.end);
    query, params := AddCondition(vs, 3, query, params, MinPriceCondition, f.minPrice);
    query, params := AddCondition(vs, 4, query, params, MaxPriceCondition, f.maxPrice);
    query, params := AddCondition(vs, 5, query, params, TradeTypeCondition, f.tradeType);
    FullPrefix(Conditions, vs, BaseSql, query, params);
    query := AddOrdering(query, f.sortBy, f.sortOrder);
    query := AddPageWindow(query, f.page, f.pageSize);
    PlaceholdersMatchParams(f);
    q := Query(query, params);
  }

  /**
   * Considering the filter at position `k` extends the conditions and the
   * parameters chosen so far by that filter's condition and value, if truthy.
   */
  lemma FilterStep(conds: seq<string>, vs: seq<Option<string>>, k: nat, base: string,
                   query: string, params: seq<string>, query': string, params': seq<string>)
    requires |conds| == |vs| && k < |vs|
    requires query == base + WhereClauses(conds[..k], vs[..k]) && params == BoundParams(vs[..k])
    requires query' == query + (if Truthy(vs[k]) then conds[k] else "")
    requires params' == params + (if Truthy(vs[k]) then [vs[k].value] else [])
    ensures query' == base + WhereClauses(conds[..k + 1], vs[..k + 1])
    ensures params' == BoundParams(vs[..k + 1])
  {
    assert conds[..k + 1][..k] == conds[..k];
    assert vs[..k + 1][..k] == vs[..k];
  }

  /** Once every filter is considered, the choice is the whole table's. */
  lemma FullPrefix(conds: seq<string>, vs: seq<Option<string>>, base: string, query: string, params: seq<string>)
    requires |conds| == |vs|
    requires query == base + WhereClauses(conds[..|vs|], vs[..|vs|])
    requires params == BoundParams(vs[..|vs|])
    ensures query == base + WhereClauses(conds, vs)
    ensures params == BoundParams(vs)
  {
    assert conds[..|vs|] == conds && vs[..|vs|] == vs;
  }

  /** Every condition of a table opens with a blank and holds exactly one placeholder. */
  predicate WellFormedConditions(conds: seq<string>) {
    forall i :: 0 <= i < |conds| ==> |conds[i]| > 0 && conds[i][0] == ' ' && Placeholders(conds[i]) == 1
  }

  /** The builder's conditions are well formed. */
  lemma ConditionsWellFormed()
    ensures WellFormedConditions(Conditions)
  {
    OnePlaceholder(" AND asset_class = ");
    OnePlaceholder(" AND trade_date_time >= ");
    OnePlaceholder(" AND trade_date_time <= ");
    OnePlaceholder(" AND price >= ");
    OnePlaceholder(" AND price <= ");
    OnePlaceholder(" AND buySellIndicator = ");
  }

  /**
   * Over any table of conditions that each open with a blank and hold one
   * placeholder, the chosen conditions hold as many placeholders as there are
   * bound parameters.
   */
  lemma {:induction false} WherePlaceholders(conds: seq<string>, vs: seq<Option<string>>)
    requires |conds| == |vs|
    requires WellFormedConditions(conds)
    ensures Placeholders(WhereClauses(conds, vs)) == |BoundParams(vs)|
    ensures WhereClauses(conds, vs) == "" || WhereClauses(conds, vs)[0] == ' '
  {
    if vs != [] {
      var n := |vs| - 1;
      assert WellFormedConditions(conds[..n]);
      WherePlaceholders(conds[..n], vs[..n]);
      var last := if Truthy(vs[n]) then conds[n] else "";
      PlaceholdersAppend(WhereClauses(conds[..n], vs[..n]), last);
    }
  }

  /**
   * Every query the list fetch sends opens with the base text, and holds
   * exactly one placeholder per bound parameter.
   */
  lemma PlaceholdersMatchParams(f: Filters)
    ensures BaseSql <= QueryText(f)
    ensures Placeholders(QueryText(f)) == |QueryParams(f)|
  {
    ConditionsWellFormed();
    WherePlaceholders(Conditions, FilterValues(f));
    OrderClauseHasNoPlaceholders(f.sortBy, f.sortOrder);
    PageClauseHasNoPlaceholders(f.page, f.pageSize);
    var where, order, window :=
      WhereClauses(Conditions, FilterValues(f)), OrderClause(f.sortBy, f.sortOrder), PageClause(f.page, f.pageSize);
    BaseSqlHasNoPercent();
    FourParts(BaseSql, where, order, window);
    Associate(BaseSql, where, order, window);
  }

  /** The base text holds no `%`, so no placeholder can start in it. */
  lemma BaseSqlHasNoPercent()
    ensures '%' !in BaseSql
  {
  }

  /** Placeholders of a query assembled from a placeholder-free base and blank-led clauses. */
  lemma FourParts(base: string, where: string, order: string, window: string)
    requires '%' !in base
    requires where == "" || where[0] == ' '
    requires order == "" || order[0] == ' '
    requires window == "" || window[0] == ' '
    ensures base <= base + (where + (order + window))
    ensures Placeholders(base + (where + (order + window)))
      == Placeholders(where) + Placeholders(order) + Placeholders(window)
  {
    PlaceholdersAppend(order, window);
    PlaceholdersAppend(where, order + window);
    NoPlaceholders(base);
    PlaceholdersAppend(base, where + (order + window));
  }

  lemma Associate(a: string, b: string, c: string, d: string)
    ensures a + b + c + d == a + (b + (c + d))
  {
  }

  /**
   * Parameters keep the fixed filter order and hold only truthy values: there
   * is one per truthy filter, and the value of the i-th filter sits at the
   * position given by the number of truthy filters before it.
   */
  lemma {:induction false} ParamPositions(vs: seq<Option<string>>)
    ensures |BoundParams(vs)| == TruthyCount(vs)
    ensures forall i :: 0 <= i < |vs| && Truthy(vs[i]) ==>
      TruthyCount(vs[..i]) < |BoundParams(vs)| && BoundParams(vs)[TruthyCount(vs[..i])] == vs[i].value
    ensures forall j :: 0 <= j < |BoundParams(vs)| ==> BoundParams(vs)[j] != ""
  {
    if vs != [] {
      var n := |vs| - 1;
      ParamPositions(vs[..n]);
      forall i | 0 <= i < |vs| && Truthy(vs[i])
        ensures TruthyCount(vs[..i]) < |BoundParams(vs)| && BoundParams(vs)[TruthyCount(vs[..i])] == vs[i].value
      {
        if i < n {
          assert vs[..n][..i] == vs[..i];
          assert vs[..n][i] == vs[i];
        } else {
          assert vs[..i] == vs[..n];
        }
      }
    }
  }

  /** The list query binds the truthy filters, in the fixed filter order. */
  lemma QueryParamsOrder(f: Filters)
    ensures |QueryParams(f)| == TruthyCount(FilterValues(f)) <= |Conditions|
    ensures forall i :: 0 <= i < |Conditions| && Truthy(FilterValues(f)[i]) ==>
      TruthyCount(FilterValues(f)[..i]) < |QueryParams(f)| &&
      QueryParams(f)[TruthyCount(FilterValues(f)[..i])] == FilterValues(f)[i].value
    ensures forall p :: p in QueryParams(f) ==> p != ""
  {
    ParamPositions(FilterValues(f));
    CountBound(FilterValues(f));
  }

  lemma {:induction false} CountBound(vs: seq<Option<string>>)
    ensures TruthyCount(vs) <= |vs|
  {
    if vs != [] {
      CountBound(vs[..|vs| - 1]);
    }
  }

  /** Truthiness alone decides which conditions appear, never the filter values. */
  lemma {:induction false} WhereShape(conds: seq<string>, vs: seq<Option<string>>, ws: seq<Option<string>>)
    requires |conds| == |vs| == |ws|
    requires forall i :: 0 <= i < |vs| ==> Truthy(vs[i]) == Truthy(ws[i])
    ensures WhereClauses(conds, vs) == WhereClauses(conds, ws)
  {
    if vs != [] {
      var n := |vs| - 1;
      WhereShape(conds[..n], vs[..n], ws[..n]);
    }
  }

  /** Two sets of filters that agree on which filters are truthy. */
  predicate SameShape(f: Filters, g: Filters) {
    (forall i :: 0 <= i < |Conditions| ==> Truthy(FilterValues(f)[i]) == Truthy(FilterValues(g)[i]))
    && f.page == g.page && f.pageSize == g.pageSize
    && f.sortBy == g.sortBy && f.sortOrder == g.sortOrder
  }

  /**
   * Filter values never reach the query text: two requests that differ only in
   * the values of their truthy filters send the same text.
   */
  lemma FilterValuesNotInText(f: Filters, g: Filters)
    requires SameShape(f, g)
    ensures QueryText(f) == QueryText(g)
  {
    WhereShape(Conditions, FilterValues(f), FilterValues(g));
  }

  /** A filter argument as the builder sees it: `None` unless truthy. */
  function Effective(o: Option<string>): Option<string> {
    if Truthy(o) then o else None
  }

  lemma {:induction false} BoundEffective(vs: seq<Option<string>>, ws: seq<Option<string>>)
    requires |vs| == |ws|
    requires forall i :: 0 <= i < |vs| ==> Effective(vs[i]) == Effective(ws[i])
    ensures BoundParams(vs) == BoundParams(ws)
  {
    if vs != [] {
      var n := |vs| - 1;
      BoundEffective(vs[..n], ws[..n]);
      assert Effective(vs[n]) == Effective(ws[n]);
    }
  }

  /**
   * A falsy filter adds neither a condition nor a parameter: an absent filter
   * and an empty one produce the same query and the same parameters.
   */
  lemma FalsyFilterAddsNothing(f: Filters, g: Filters)
    requires forall i :: 0 <= i < |Conditions| ==> Effective(FilterValues(f)[i]) == Effective(FilterValues(g)[i])
    requires f.page == g.page && f.pageSize == g.pageSize && f.sortBy == g.sortBy && f.sortOrder == g.sortOrder
    ensures QueryText(f) == QueryText(g)
    ensures QueryParams(f) == QueryParams(g)
  {
    forall i | 0 <= i < |Conditions|
      ensures Truthy(FilterValues(f)[i]) == Truthy(FilterValues(g)[i])
    {
      assert Effective(FilterValues(f)[i]) == Effective(FilterValues(g)[i]);
    }
    FilterValuesNotInText(f, g);
    BoundEffective(FilterValues(f), FilterValues(g));
  }

  /**
   * The page window closes the query, after any ordering, and reading its two
   * numbers back gives the page size and the offset `page * pageSize`.
   */
  lemma PageWindowLast(f: Filters)
    requires f.page.Some? && f.pageSize.Some?
    ensures QueryText(f) == QueryText(f.(page := None)) + PageClause(f.page, f.pageSize)
    ensures var size := IntToDecimal(f.pageSize.value);
      var offset := IntToDecimal(f.page.value * f.pageSize.value);
      PageClause(f.page, f.pageSize) == " LIMIT " + size + " OFFSET " + offset
      && ParseDecimal(size) == f.pageSize.value
      && ParseDecimal(offset) == f.page.value * f.pageSize.value
  {
    assert PageClause(None, f.pageSize) == "";
    var g := f.(page := None);
    assert FilterValues(g) == FilterValues(f);
  }

  /**
   * The filters the list endpoint passes: the page and page size default to 0
   * and 10 when the request leaves them out, so they are always given.
   */
  function ListFilters(
    assetClass: Option<string>, start: Option<string>, end: Option<string>,
    minPrice: Option<string>, maxPrice: Option<string>, tradeType: Option<string>,
    page: Option<int>, pageSize: Option<int>,
    sortBy: Option<string>, sortOrder: Option<string>): (f: Filters)
    ensures f.page.Some? && f.pageSize.Some?
    ensures f.page.value == (if page.Some? then page.value else 0)
    ensures f.pageSize.value == (if pageSize.Some? then pageSize.value else 10)
  {
    Filters(assetClass, start, end, minPrice, maxPrice, tradeType,
      Some(if page.Some? then page.value else 0),
      Some(if pageSize.Some? then pageSize.value else 10),
      sortBy, sortOrder)
  }

  /**
   * Every list query is paginated; a request without page arguments reads the
   * first ten trades.
   */
  lemma ListQueriesPaginate(
    assetClass: Option<string>, start: Option<string>, end: Option<string>,
    minPrice: Option<string>, maxPrice: Option<string>, tradeType: Option<string>,
    page: Option<int>, pageSize: Option<int>,
    sortBy: Option<string>, sortOrder: Option<string>)
    ensures var f := ListFilters(assetClass, start, end, minPrice, maxPrice, tradeType, page, pageSize, sortBy, sortOrder);
      PageClause(f.page, f.pageSize) != ""
    ensures page.None? && pageSize.None? ==>
      var f := ListFilters(assetClass, start, end, minPrice, maxPrice, tradeType, page, pageSize, sortBy, sortOrder);
      PageClause(f.page, f.pageSize) == " LIMIT 10 OFFSET 0"
  {
    if page.None? && pageSize.None? {
      assert IntToDecimal(10) == "10";
      assert IntToDecimal(0) == "0";
    }
  }
}
