/**
 * The free-text search the list endpoint applies to the page of trades it has
 * fetched: a stable filter that keeps a trade when the lower-cased search text
 * occurs in the lower-cased counterparty, instrument id, instrument name or
 * trader. A field missing from the record reads as the empty text; a field
 * present with a value that is not a string (such as a NULL counterparty) has
 * no `lower` method, and the search fails.
 */
module Search {
  import opened Py
  import opened Text
  import Records

  /** A trade as the list fetch returns it: a dictionary from field name to value. */
  type Record = map<string, Value>

  /** The fields searched, in the order they are tried. */
  const SearchKeys: seq<string> := ["counterparty", "instrument_id", "instrument_name", "trader"]

  /**
   * `trade.get(key, "").lower()`: a missing field reads as the empty text, a
   * string field as its lower-cased text, and any other value has no `lower`.
   */
  function FieldText(trade: Record, key: string): (r: Result<string>)
    ensures key !in trade ==> r == Ok("")
    ensures key in trade && trade[key].Str? ==> r == Ok(Lower(trade[key].s))
    ensures r.Err? <==> key in trade && !trade[key].Str?
  {
    if key !in trade then Ok("")
    else if trade[key].Str? then Ok(Lower(trade[key].s))
    else Err(NoLowerMethod(key))
  }

  /**
   * `needle in f1 or needle in f2 or ...` over the given keys, left to right:
   * the first field that contains the needle decides, and a field that cannot
   * be lowered fails the test unless an earlier field already matched.
   */
  function MatchesFrom(needle: string, trade: Record, keys: seq<string>): Result<bool> {
    if keys == [] then Ok(false)
    else
      match FieldText(trade, keys[0])
      case Err(e) => Err(e)
      case Ok(text) => if IsSubstring(needle, text) then Ok(true) else MatchesFrom(needle, trade, keys[1..])
  }

  /**
   * The search condition for one trade. It fails only on a searched field that
   * is present and not a string, and a counterparty that is present but not a
   * string, such as a NULL, makes it fail whatever the other fields hold.
   * `MatchesIsDisjunction` states what it answers.
   */
  function Matches(query: string, trade: Record): (r: Result<bool>)
    ensures r.Err? ==> r.error.key in SearchKeys && r.error.key in trade && !trade[r.error.key].Str?
    ensures "counterparty" in trade && !trade["counterparty"].Str? ==> r == Err(NoLowerMethod("counterparty"))
  {
    ErrorNamesUnreadableField(Lower(query), trade, SearchKeys);
    MatchesFrom(Lower(query), trade, SearchKeys)
  }

  /** A failing condition names one of the searched fields, present and not a string. */
  lemma {:induction false} ErrorNamesUnreadableField(needle: string, trade: Record, keys: seq<string>)
    ensures MatchesFrom(needle, trade, keys).Err? ==>
      var key := MatchesFrom(needle, trade, keys).error.key;
      key in keys && key in trade && !trade[key].Str?
  {
    if keys != [] {
      ErrorNamesUnreadableField(needle, trade, keys[1..]);
    }
  }

  /** Some searched field of the trade reads as a text that contains `needle`. */
  predicate SomeFieldContains(needle: string, trade: Record, keys: seq<string>) {
    exists i :: 0 <= i < |keys| && FieldText(trade, keys[i]).Ok? && IsSubstring(needle, FieldText(trade, keys[i]).value)
  }

  /** Every searched field of the trade can be read. */
  predicate AllFieldsReadable(trade: Record, keys: seq<string>) {
    forall i :: 0 <= i < |keys| ==> FieldText(trade, keys[i]).Ok?
  }

  /**
   * The search condition is a disjunction over the fields: a match is always
   * backed by a field that contains the text, and when every field can be read
   * the test succeeds, answering whether some field contains the text.
   */
  lemma {:induction false} MatchesIsDisjunction(needle: string, trade: Record, keys: seq<string>)
    ensures MatchesFrom(needle, trade, keys) == Ok(true) ==> SomeFieldContains(needle, trade, keys)
    ensures AllFieldsReadable(trade, keys) ==>
      MatchesFrom(needle, trade, keys) == Ok(SomeFieldContains(needle, trade, keys))
  {
    if keys != [] {
      MatchesIsDisjunction(needle, trade, keys[1..]);
      if SomeFieldContains(needle, trade, keys[1..]) {
        var i :| 0 <= i < |keys[1..]| && FieldText(trade, keys[1..][i]).Ok?
          && IsSubstring(needle, FieldText(trade, keys[1..][i]).value);
        assert keys[1..][i] == keys[i + 1];
      }
      if SomeFieldContains(needle, trade, keys) && FieldText(trade, keys[0]).Ok?
        && !IsSubstring(needle, FieldText(trade, keys[0]).value)
      {
        var i :| 0 <= i < |keys| && FieldText(trade, keys[i]).Ok? && IsSubstring(needle, FieldText(trade, keys[i]).value);
        assert i != 0;
        assert keys[1..][i - 1] == keys[i];
      }
      if AllFieldsReadable(trade, keys) {
        assert FieldText(trade, keys[0]).Ok?;
        forall i | 0 <= i < |keys[1..]| ensures FieldText(trade, keys[1..][i]).Ok? {
          assert keys[1..][i] == keys[i + 1];
        }
      }
    }
  }

  /** A missing field is searched as the empty text. */
  lemma {:induction false} MissingFieldReadsEmpty(needle: string, trade: Record, key: string, keys: seq<string>)
    requires key !in trade
    ensures MatchesFrom(needle, trade, keys) == MatchesFrom(needle, trade[key := Str("")], keys)
  {
    if keys != [] {
      assert FieldText(trade, keys[0]) == FieldText(trade[key := Str("")], keys[0]);
      MissingFieldReadsEmpty(needle, trade, key, keys[1..]);
    }
  }

  /**
   * On a trade the service built, the search fails exactly when the trade has
   * no counterparty; otherwise it answers whether one of the four fields
   * contains the text.
   */
  lemma SearchOnTrade(query: string, t: Records.Trade)
    requires Records.WellTyped(t)
    ensures Matches(query, Records.AsDict(t)).Err? <==> t.counterparty.Null?
    ensures t.counterparty.Str? ==>
      Matches(query, Records.AsDict(t)) == Ok(SomeFieldContains(Lower(query), Records.AsDict(t), SearchKeys))
  {
    var d := Records.AsDict(t);
    assert Records.Columns[1] == "counterparty" && Records.Columns[2] == "instrument_id";
    assert Records.Columns[3] == "instrument_name" && Records.Columns[9] == "trader";
    assert Records.ColumnTypeOk(Records.Columns[1], t.counterparty);
    assert Records.ColumnTypeOk(Records.Columns[2], t.instrumentId);
    assert Records.ColumnTypeOk(Records.Columns[3], t.instrumentName);
    assert Records.ColumnTypeOk(Records.Columns[9], t.trader);
    if t.counterparty.Str? {
      assert d["counterparty"] == t.counterparty && d["instrument_id"] == t.instrumentId;
      assert d["instrument_name"] == t.instrumentName && d["trader"] == t.trader;
      forall i | 0 <= i < |SearchKeys| ensures FieldText(d, SearchKeys[i]).Ok? {
      }
      MatchesIsDisjunction(Lower(query), d, SearchKeys);
    }
  }

  /** On a row whose columns have their declared types, the search fails exactly when the counterparty column is NULL. */
  lemma SearchOnRow(query: string, row: Records.Row)
    requires forall i :: 0 <= i < |Records.Columns| ==> Records.ColumnTypeOk(Records.Columns[i], row[i])
    ensures Matches(query, Records.AsDict(Records.ToTrade(row))).Err? <==> row[1].Null?
  {
    Records.WellTypedRow(row);
    SearchOnTrade(query, Records.ToTrade(row));
  }

  /**
   * The search over a list of trades, in order: the trades that match, or
   * the failure of the first trade whose condition cannot be evaluated.
   */
  function SearchFilter(query: string, trades: seq<Record>): (r: Result<seq<Record>>)
    ensures r.Ok? ==> |r.value| <= |trades|
    decreases |trades|
  {
    if trades == [] then Ok([])
    else
      var n := |trades| - 1;
      match SearchFilter(query, trades[..n])
      case Err(e) => Err(e)
      case Ok(kept) =>
        match Matches(query, trades[n])
        case Err(e) => Err(e)
        case Ok(m) => Ok(if m then kept + [trades[n]] else kept)
  }

  /**
   * `filter_trades_by_search`: walks the trades in order and collects those
   * that match; a trade whose condition fails aborts the walk.
   */
  method FilterTradesBySearch(trades: seq<Record>, searchQuery: string) returns (r: Result<seq<Record>>)
    ensures r == SearchFilter(searchQuery, trades)
  {
    var filtered: seq<Record> := [];
    for i := 0 to |trades|
      invariant SearchFilter(searchQuery, trades[..i]) == Ok(filtered)
    {
      assert trades[..i + 1][..i] == trades[..i];
      var m := Matches(searchQuery, trades[i]);
      if m.Err? {
        FailureIsFinal(searchQuery, trades, i + 1);
        return Err(m.error);
      }
      if m.value {
        filtered := filtered + [trades[i]];
      }
    }
    assert trades[..|trades|] == trades;
    return Ok(filtered);
  }

  /** Once a prefix of the trades fails, the whole search fails with the same error. */
  lemma {:induction false} FailureIsFinal(query: string, trades: seq<Record>, k: nat)
    requires k <= |trades| && SearchFilter(query, trades[..k]).Err?
    ensures SearchFilter(query, trades) == SearchFilter(query, trades[..k])
    decreases |trades| - k
  {
    if k == |trades| {
      assert trades[..k] == trades;
    } else {
      var n := |trades| - 1;
      assert trades[..n][..k] == trades[..k];
      FailureIsFinal(query, trades[..n], k);
    }
  }

  /** The search succeeds exactly when the condition can be evaluated on every trade. */
  lemma {:induction false} SearchSucceedsIff(query: string, trades: seq<Record>)
    ensures SearchFilter(query, trades).Ok? <==> forall i :: 0 <= i < |trades| ==> Matches(query, trades[i]).Ok?
    decreases |trades|
  {
    if trades != [] {
      var n := |trades| - 1;
      SearchSucceedsIff(query, trades[..n]);
      assert forall i :: 0 <= i < n ==> trades[..n][i] == trades[i];
    }
  }

  /** A successful search keeps exactly the trades that match. */
  lemma {:induction false} SearchKeepsExactlyMatches(query: string, trades: seq<Record>)
    requires SearchFilter(query, trades).Ok?
    ensures forall t :: t in SearchFilter(query, trades).value <==> t in trades && Matches(query, t) == Ok(true)
    decreases |trades|
  {
    if trades != [] {
      var n := |trades| - 1;
      SearchKeepsExactlyMatches(query, trades[..n]);
      assert trades == trades[..n] + [trades[n]];
    }
  }

  /** A successful search keeps every occurrence of a matching trade and none of the others. */
  lemma {:induction false} SearchKeepsEveryOccurrence(query: string, trades: seq<Record>)
    requires SearchFilter(query, trades).Ok?
    ensures forall t ::
      multiset(SearchFilter(query, trades).value)[t] == (if Matches(query, t) == Ok(true) then multiset(trades)[t] else 0)
    decreases |trades|
  {
    if trades != [] {
      var n := |trades| - 1;
      SearchKeepsEveryOccurrence(query, trades[..n]);
      assert trades == trades[..n] + [trades[n]];
      assert multiset(trades) == multiset(trades[..n]) + multiset{trades[n]};
    }
  }

  /** `idx` picks, in increasing order, the positions of `s` that make up `r`. */
  ghost predicate Embedding(idx: seq<int>, r: seq<Record>, s: seq<Record>) {
    |idx| == |r|
    && (forall j :: 0 <= j < |idx| ==> 0 <= idx[j] < |s| && r[j] == s[idx[j]])
    && (forall j, k :: 0 <= j < k < |idx| ==> idx[j] < idx[k])
  }

  /** `r` is `s` with some elements left out, the rest in their original order. */
  ghost predicate IsSubsequence(r: seq<Record>, s: seq<Record>) {
    exists idx :: Embedding(idx, r, s)
  }

  /** The search result is a subsequence of its input: it never reorders or invents trades. */
  lemma {:induction false} SearchIsSubsequence(query: string, trades: seq<Record>)
    requires SearchFilter(query, trades).Ok?
    ensures IsSubsequence(SearchFilter(query, trades).value, trades)
    decreases |trades|
  {
    if trades == [] {
      assert Embedding([], [], trades);
    } else {
      var n := |trades| - 1;
      SearchIsSubsequence(query, trades[..n]);
      var kept := SearchFilter(query, trades[..n]).value;
      var idx :| Embedding(idx, kept, trades[..n]);
      assert Embedding(idx, kept, trades);
      if Matches(query, trades[n]) == Ok(true) {
        assert Embedding(idx + [n], kept + [trades[n]], trades);
      }
    }
  }

  /** A list of trades that all match passes the search unchanged. */
  lemma {:induction false} AllMatchingKept(query: string, trades: seq<Record>)
    requires forall i :: 0 <= i < |trades| ==> Matches(query, trades[i]) == Ok(true)
    ensures SearchFilter(query, trades) == Ok(trades)
    decreases |trades|
  {
    if trades != [] {
      var n := |trades| - 1;
      var prefix := trades[..n];
      forall i | 0 <= i < n ensures Matches(query, prefix[i]) == Ok(true) {
        assert prefix[i] == trades[i];
      }
      AllMatchingKept(query, prefix);
      assert prefix + [trades[n]] == trades;
    }
  }

  /** Searching the result again with the same text changes nothing. */
  lemma SearchIdempotent(query: string, trades: seq<Record>)
    requires SearchFilter(query, trades).Ok?
    ensures SearchFilter(query, SearchFilter(query, trades).value) == SearchFilter(query, trades)
  {
    var kept := SearchFilter(query, trades).value;
    SearchKeepsExactlyMatches(query, trades);
    assert forall i :: 0 <= i < |kept| ==> kept[i] in kept;
    AllMatchingKept(query, kept);
  }

  /** Two search texts that differ only in letter case select the same trades. */
  lemma {:induction false} SearchCaseInsensitive(q1: string, q2: string, trades: seq<Record>)
    requires Lower(q1) == Lower(q2)
    ensures SearchFilter(q1, trades) == SearchFilter(q2, trades)
    decreases |trades|
  {
    if trades != [] {
      SearchCaseInsensitive(q1, q2, trades[..|trades| - 1]);
    }
  }

  /** In particular, searching for the upper-cased text is the same search. */
  lemma SearchIgnoresUpperCase(query: string, trades: seq<Record>)
    ensures SearchFilter(Upper(query), trades) == SearchFilter(query, trades)
  {
    LowerOfUpper(query);
    SearchCaseInsensitive(Upper(query), query, trades);
  }

  /**
   * The list endpoint's last step: a truthy search text narrows the page
   * already fetched; otherwise the page is returned as it is.
   */
  function SearchPage(page: seq<Record>, search: Option<string>): (r: Result<seq<Record>>)
    ensures !Truthy(search) ==> r == Ok(page)
    ensures r.Ok? ==> |r.value| <= |page|
  {
    if Truthy(search) then SearchFilter(search.value, page) else Ok(page)
  }

  /** The search narrows the fetched page and never reaches beyond it. */
  lemma SearchStaysInPage(page: seq<Record>, search: Option<string>)
    requires SearchPage(page, search).Ok?
    ensures IsSubsequence(SearchPage(page, search).value, page)
    ensures forall t :: t in SearchPage(page, search).value ==> t in page
  {
    if Truthy(search) {
      SearchIsSubsequence(search.value, page);
      SearchKeepsExactlyMatches(search.value, page);
    } else {
      var idx := seq(|page|, i => i);
      assert Embedding(idx, page, page);
    }
  }

  /**
   * The field as the search evidently means to read it: like `FieldText`, but a
   * value that is present and not a string, such as a NULL, reads as the empty text.
   */
  function FieldTextOrEmpty(trade: Record, key: string): string {
    match FieldText(trade, key)
    case Ok(text) => text
    case Err(_) => ""
  }

  /** The `or` over the fields with the corrected field reading, which cannot fail. */
  function IntendedMatchesFrom(needle: string, trade: Record, keys: seq<string>): bool {
    keys != [] && (IsSubstring(needle, FieldTextOrEmpty(trade, keys[0])) || IntendedMatchesFrom(needle, trade, keys[1..]))
  }

  function IntendedMatches(query: string, trade: Record): bool {
    IntendedMatchesFrom(Lower(query), trade, SearchKeys)
  }

  /** The corrected search: the trades that match under the corrected field reading, in order. */
  function IntendedSearch(query: string, trades: seq<Record>): (r: seq<Record>)
    ensures |r| <= |trades|
    decreases |trades|
  {
    if trades == [] then []
    else
      var n := |trades| - 1;
      IntendedSearch(query, trades[..n]) + (if IntendedMatches(query, trades[n]) then [trades[n]] else [])
  }

  /** Where the condition as written can be evaluated, the corrected one gives the same answer. */
  lemma {:induction false} IntendedAgreesWhereReadable(needle: string, trade: Record, keys: seq<string>)
    ensures MatchesFrom(needle, trade, keys).Ok? ==> MatchesFrom(needle, trade, keys).value == IntendedMatchesFrom(needle, trade, keys)
  {
    if keys != [] {
      IntendedAgreesWhereReadable(needle, trade, keys[1..]);
    }
  }

  /** Under the corrected reading, a NULL field is searched exactly as the empty text. */
  lemma {:induction false} IntendedNullReadsEmpty(needle: string, trade: Record, key: string, keys: seq<string>)
    requires key in trade && trade[key].Null?
    ensures IntendedMatchesFrom(needle, trade, keys) == IntendedMatchesFrom(needle, trade[key := Str("")], keys)
  {
    if keys != [] {
      assert FieldTextOrEmpty(trade, keys[0]) == FieldTextOrEmpty(trade[key := Str("")], keys[0]);
      IntendedNullReadsEmpty(needle, trade, key, keys[1..]);
    }
  }

  /**
   * The corrected search keeps exactly the trades that match under the
   * corrected reading, and wherever the search as written succeeds the two
   * return the same trades.
   */
  lemma {:induction false} IntendedSearchAgrees(query: string, trades: seq<Record>)
    ensures forall t :: t in IntendedSearch(query, trades) <==> t in trades && IntendedMatches(query, t)
    ensures SearchFilter(query, trades).Ok? ==> IntendedSearch(query, trades) == SearchFilter(query, trades).value
    decreases |trades|
  {
    if trades != [] {
      var n := |trades| - 1;
      IntendedSearchAgrees(query, trades[..n]);
      IntendedAgreesWhereReadable(Lower(query), trades[n], SearchKeys);
      assert trades == trades[..n] + [trades[n]];
    }
  }

  /**
   * The discrepancy: a trade the service built with a NULL counterparty and a
   * trader containing the search text makes the search as written fail,
   * while the corrected search keeps the trade.
   */
  lemma NullCounterpartyDiscrepancy(query: string, t: Records.Trade)
    requires Records.WellTyped(t) && t.counterparty.Null?
    requires t.trader.Str? && IsSubstring(Lower(query), Lower(t.trader.s))
    ensures Matches(query, Records.AsDict(t)).Err?
    ensures SearchFilter(query, [Records.AsDict(t)]).Err?
    ensures IntendedSearch(query, [Records.AsDict(t)]) == [Records.AsDict(t)]
  {
    var d := Records.AsDict(t);
    SearchOnTrade(query, t);
    var single: seq<Record> := [d];
    assert single[..0] == [];
    assert d["trader"] == t.trader;
    assert FieldTextOrEmpty(d, SearchKeys[3]) == Lower(t.trader.s);
    IntendedMatchesWhenContains(Lower(query), d, SearchKeys, 3);
  }

  /** Under the corrected reading, one field that contains the text is enough for a match. */
  lemma {:induction false} IntendedMatchesWhenContains(needle: string, trade: Record, keys: seq<string>, i: nat)
    requires i < |keys| && IsSubstring(needle, FieldTextOrEmpty(trade, keys[i]))
    ensures IntendedMatchesFrom(needle, trade, keys)
  {
    if i > 0 {
      assert keys[1..][i - 1] == keys[i];
      IntendedMatchesWhenContains(needle, trade, keys[1..], i - 1);
    }
  }
}
