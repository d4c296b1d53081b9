/**
 * The trade record (`TradeDetails` and `Trade`), the positional mapping from a
 * 10-column row of the `trades` table to a record, the record's dictionary form
 * (the `.dict()` the service returns), and the lookup of one trade by its id.
 */
module Records {
  import opened Py
  import opened Text

  /** Direction, price and size of a trade. The price is forwarded unread. */
  datatype TradeDetails = TradeDetails(buySellIndicator: Value, price: Value, quantity: Value)

  /**
   * One executed trade. Every field holds the value read from the row; the
   * types the record declares are stated separately by `WellTyped`.
   */
  datatype Trade = Trade(
    assetClass: Value,
    counterparty: Value,
    instrumentId: Value,
    instrumentName: Value,
    tradeDateTime: Value,
    tradeDetails: TradeDetails,
    tradeId: Value,
    trader: Value)

  /** The columns of the `trades` table, in the order `SELECT *` returns them. */
  const Columns: seq<string> := [
    "asset_class", "counterparty", "instrument_id", "instrument_name", "trade_date_time",
    "buySellIndicator", "price", "quantity", "trade_id", "trader"]

  /** One row of `SELECT * FROM trades`: one value per column. */
  type Row = r: seq<Value> | |r| == 10 witness [Null, Null, Null, Null, Null, Null, Null, Null, Null, Null]

  /** The record field that holds the value of the named column, if any. */
  function ColumnValue(t: Trade, column: string): Option<Value> {
    match column
    case "asset_class" => Some(t.assetClass)
    case "counterparty" => Some(t.counterparty)
    case "instrument_id" => Some(t.instrumentId)
    case "instrument_name" => Some(t.instrumentName)
    case "trade_date_time" => Some(t.tradeDateTime)
    case "buySellIndicator" => Some(t.tradeDetails.buySellIndicator)
    case "price" => Some(t.tradeDetails.price)
    case "quantity" => Some(t.tradeDetails.quantity)
    case "trade_id" => Some(t.tradeId)
    case "trader" => Some(t.trader)
    case _ => None
  }

  /** The row a record is stored as: its fields in column order. */
  function RowOf(t: Trade): Row {
    [t.assetClass, t.counterparty, t.instrumentId, t.instrumentName, t.tradeDateTime,
     t.tradeDetails.buySellIndicator, t.tradeDetails.price, t.tradeDetails.quantity,
     t.tradeId, t.trader]
  }

  /**
   * Builds a record from a row by position. Every column lands in the field of
   * the same name, and storing the record again gives back the very row.
   */
  function ToTrade(row: Row): (t: Trade)
    ensures forall i :: 0 <= i < |Columns| ==> ColumnValue(t, Columns[i]) == Some(row[i])
    ensures RowOf(t) == row
  {
    Trade(
      assetClass := row[0],
      counterparty := row[1],
      instrumentId := row[2],
      instrumentName := row[3],
      tradeDateTime := row[4],
      tradeDetails := TradeDetails(buySellIndicator := row[5], price := row[6], quantity := row[7]),
      tradeId := row[8],
      trader := row[9])
  }

  /** Whether a column value has the type the record declares for that column. */
  predicate ColumnTypeOk(column: string, v: Value) {
    match column
    case "asset_class" => v.Null? || v.Str?
    case "counterparty" => v.Null? || v.Str?
    case "trade_date_time" => v.DateTime?
    case "price" => v.Decimal? || v.Int?
    case "quantity" => v.Int?
    case _ => v.Str?
  }

  /**
   * The declared field types: asset class and counterparty are optional
   * strings, the date-time a date-time, the price a number, the quantity an
   * integer, and every other field a string.
   */
  predicate WellTyped(t: Trade) {
    forall i :: 0 <= i < |Columns| ==> ColumnTypeOk(Columns[i], ColumnValue(t, Columns[i]).value)
  }

  /** A mapped row has the declared types exactly when each of its columns does. */
  lemma WellTypedRow(row: Row)
    ensures WellTyped(ToTrade(row)) <==> forall i :: 0 <= i < |Columns| ==> ColumnTypeOk(Columns[i], row[i])
  {
  }

  /** The names of the record's fields, which are the keys of its dictionary form. */
  const FieldNames: set<string> := {
    "asset_class", "counterparty", "instrument_id", "instrument_name", "trade_date_time",
    "trade_details", "trade_id", "trader"}

  /**
   * The record as a dictionary from field name to value, the nested details
   * as a dictionary of their own.
   */
  function AsDict(t: Trade): (d: map<string, Value>)
    ensures d.Keys == FieldNames
    ensures forall k :: k in FieldNames && k != "trade_details" ==> Some(d[k]) == ColumnValue(t, k)
    ensures d["trade_details"].Dict? && d["trade_details"].fields.Keys == {"buySellIndicator", "price", "quantity"}
    ensures forall k :: k in {"buySellIndicator", "price", "quantity"} ==>
      k in d["trade_details"].fields && Some(d["trade_details"].fields[k]) == ColumnValue(t, k)
  {
    map[
      "asset_class" := t.assetClass,
      "counterparty" := t.counterparty,
      "instrument_id" := t.instrumentId,
      "instrument_name" := t.instrumentName,
      "trade_date_time" := t.tradeDateTime,
      "trade_details" := Dict(map[
        "buySellIndicator" := t.tradeDetails.buySellIndicator,
        "price" := t.tradeDetails.price,
        "quantity" := t.tradeDetails.quantity]),
      "trade_id" := t.tradeId,
      "trader" := t.trader]
  }

  /**
   * The list fetch turns every row the store returns into a record dictionary,
   * keeping the store's order.
   */
  method RowsToDicts(rows: seq<Row>) returns (trades: seq<map<string, Value>>)
    ensures |trades| == |rows|
    ensures forall i :: 0 <= i < |rows| ==> trades[i] == AsDict(ToTrade(rows[i]))
  {
    trades := [];
    for i := 0 to |rows|
      invariant |trades| == i
      invariant forall j :: 0 <= j < i ==> trades[j] == AsDict(ToTrade(rows[j]))
    {
      var trade := ToTrade(rows[i]);
      trades := trades + [AsDict(trade)];
    }
  }

  /** The fixed query of the lookup by id: an equality on `trade_id`, bound to one parameter. */
  const ByIdSql: string := ByIdPrefix + "%s"
  const ByIdPrefix: string := "SELECT * FROM trades WHERE trade_id = "

  /** The lookup query holds exactly one placeholder. */
  lemma ByIdSqlPlaceholders()
    ensures Placeholders(ByIdSql) == 1
  {
    OnePlaceholder(ByIdPrefix);
  }

  /**
   * The query the lookup by id issues. Its text is the same for every id; the
   * id reaches the store only as the one bound parameter.
   */
  function ByIdQuery(tradeId: string): (q: Query)
    ensures q.sql == ByIdSql
    ensures q.params == [tradeId]
    ensures Placeholders(q.sql) == |q.params|
  {
    ByIdSqlPlaceholders();
    Query(ByIdSql, [tradeId])
  }

  /**
   * The lookup by id, given the rows the store answers `ByIdQuery(tradeId)`
   * with: the first row as a record dictionary, or `None` when there is none.
   * When the store honours the equality, the record found carries the id asked for.
   */
  function LookupById(tradeId: string, answer: seq<Row>): (r: Option<map<string, Value>>)
    ensures r.None? <==> answer == []
    ensures r.Some? ==> r.value == AsDict(ToTrade(answer[0]))
    ensures r.Some? && answer[0][8] == Str(tradeId) ==> r.value["trade_id"] == Str(tradeId)
  {
    if |answer| > 0 then Some(AsDict(ToTrade(answer[0]))) else None
  }
}
