/**
 * fetch.js: `fetchTickersData` asks the quote endpoint for the fundamentals of a
 * list of symbols and keeps only the entries that are equities carrying a
 * fundamental payload. Every failure degrades to an empty result.
 */
module Fetch {
  import opened Wrappers
  import opened Json
  import opened Seqs

  /** One entry of the quote response: its asset class and, when present, its
      fundamental payload (absent, null or otherwise falsy is None). */
  datatype AssetData = AssetData(assetMainType: Option<string>, fundamental: Option<Payload>)

  /** What one request to the quote endpoint comes to. A response entry that is
      null or missing is None. */
  datatype Response =
    | Threw                                  // the request or `response.json()` raised
    | NotOk(status: int)                     // `response.ok` is false
    | Ok(body: JsObject<Option<AssetData>>)  // the parsed JSON object, keyed by symbol

  /** The quote endpoint, as a function of the `symbol` query parameter. */
  type QuoteApi = string -> Response

  const Equity: string := "EQUITY"

  /** `symbols.join(',')`. */
  function Join(symbols: seq<string>): (s: string)
    ensures |symbols| == 0 ==> s == ""
    ensures |symbols| == 1 ==> s == symbols[0]
    ensures |symbols| >= 1 ==> symbols[0] <= s
  {
    if |symbols| == 0 then ""
    else if |symbols| == 1 then symbols[0]
    else symbols[0] + "," + Join(symbols[1..])
  }

  /** `s.split(',')`, the inverse of Join on comma-free symbols. */
  function Split(s: string): (parts: seq<string>)
    ensures |parts| >= 1
  {
    if s == [] then [""]
    else
      var rest := Split(s[1..]);
      if s[0] == ',' then [""] + rest else [[s[0]] + rest[0]] + rest[1..]
  }

  lemma {:induction false} SplitNoComma(s: string)
    requires ',' !in s
    ensures Split(s) == [s]
  {
    if s != [] {
      SplitNoComma(s[1..]);
      assert [s[0]] + s[1..] == s;
    }
  }

  lemma {:induction false} SplitAtComma(a: string, b: string)
    requires ',' !in a
    ensures Split(a + "," + b) == [a] + Split(b)
  {
    if a == [] {
      assert a + "," + b == [','] + b;
      assert (a + "," + b)[1..] == b;
    } else {
      assert (a + "," + b)[1..] == a[1..] + "," + b;
      SplitAtComma(a[1..], b);
      assert [a[0]] + a[1..] == a;
    }
  }

  /** The `symbol` query parameter names exactly the requested symbols, in the
      requested order, as long as no symbol itself contains a comma. */
  lemma {:induction false} JoinSplit(symbols: seq<string>)
    requires |symbols| >= 1
    requires forall i :: 0 <= i < |symbols| ==> ',' !in symbols[i]
    ensures Split(Join(symbols)) == symbols
  {
    if |symbols| == 1 {
      SplitNoComma(symbols[0]);
    } else {
      JoinSplit(symbols[1..]);
      SplitAtComma(symbols[0], Join(symbols[1..]));
      assert [symbols[0]] + symbols[1..] == symbols;
    }
  }

  /** The one key a bracket assignment cannot add to a plain object: assigning
      `obj["__proto__"]` runs the prototype setter and creates no own key. */
  const ProtoKey: string := "__proto__"

  /** An entry ends up in the result when it is present, is an equity, and has
      a fundamental payload, and its key is one the assignment can add. */
  predicate Usable(key: string, entry: Option<AssetData>)
  {
    key != ProtoKey && entry.Some? && entry.value.assetMainType == Some(Equity) && entry.value.fundamental.Some?
  }

  /** The filtered response: usable entries in response order, each mapped to
      its fundamental payload. */
  function Filter(body: JsObject<Option<AssetData>>): (kept: JsObject<Payload>)
    ensures |kept| <= |body|
    ensures Keys(kept) <= Keys(body)
  {
    if |body| == 0 then []
    else
      var tail: JsObject<Option<AssetData>> := body[1..];
      assert Keys(tail) <= Keys(body) by {
        forall k | k in Keys(tail) ensures k in Keys(body) {
          var i :| 0 <= i < |tail| && tail[i].0 == k;
          assert body[i + 1].0 == k;
        }
      }
      var rest := Filter(tail);
      if Usable(body[0].0, body[0].1) then
        assert body[0].0 !in Keys(tail);
        [(body[0].0, body[0].1.value.fundamental.value)] + rest
      else
        rest
  }

  /** What `fetchTickersData(symbols)` returns against the given endpoint. */
  function Fetched(symbols: seq<string>, api: QuoteApi): JsObject<Payload>
  {
    if |symbols| == 0 then []
    else
      match api(Join(symbols))
      case Ok(body) => Filter(body)
      case _ => []
  }

  /** Fetches the fundamentals of `symbols`. `request` is the `symbol` query
      parameter sent, or None when no request is issued. */
  method FetchTickersData(symbols: seq<string>, api: QuoteApi)
    returns (validData: JsObject<Payload>, request: Option<string>)
    ensures request == if |symbols| == 0 then None else Some(Join(symbols))
    ensures validData == Fetched(symbols, api)
  {
    if |symbols| == 0 {
      return [], None;
    }
    var symbolString := Join(symbols);
    request := Some(symbolString);
    var response := api(symbolString);
    match response {
      case Threw =>
        validData := [];
      case NotOk(_) =>
        validData := [];
      case Ok(data) =>
        var entries: seq<(string, Payload)> := [];
        for i := 0 to |data|
          invariant Filter(data) == entries + Filter(data[i..])
        {
          assert data[i..][1..] == data[i + 1..];
          var (symbol, assetData) := data[i];
          if assetData.None? {
            continue;
          }
          if assetData.value.assetMainType != Some(Equity) {
            continue;
          }
          if assetData.value.fundamental.None? {
            continue;
          }
          if symbol == ProtoKey {
            // `validData["__proto__"] = ...` sets the prototype; no entry is added
            continue;
          }
          entries := entries + [(symbol, assetData.value.fundamental.value)];
        }
        assert |data[|data|..]| == 0;
        assert entries == Filter(data);
        validData := entries;
    }
  }

  /** An entry's key appears in the result exactly when the entry is usable, and
      then with that entry's fundamental payload. */
  lemma {:induction false} FilterKeeps(body: JsObject<Option<AssetData>>, i: nat)
    requires i < |body|
    ensures body[i].0 in Keys(Filter(body)) <==> Usable(body[i].0, body[i].1)
    ensures Usable(body[i].0, body[i].1) ==> (body[i].0, body[i].1.value.fundamental.value) in Filter(body)
  {
    var tail: JsObject<Option<AssetData>> := body[1..];
    var kept := Filter(body);
    if Usable(body[0].0, body[0].1) {
      assert kept == [(body[0].0, body[0].1.value.fundamental.value)] + Filter(tail);
      assert kept[1..] == Filter(tail);
      KeysCons(kept);
    }
    if i == 0 {
      assert body[0].0 !in Keys(tail);
    } else {
      assert tail[i - 1] == body[i];
      assert body[0].0 != body[i].0;
      FilterKeeps(tail, i - 1);
    }
  }

  /** Every entry of the result comes from a usable response entry with the same
      key, and carries exactly that entry's fundamental payload. */
  lemma {:induction false} FilterSound(body: JsObject<Option<AssetData>>, j: nat)
    requires j < |Filter(body)|
    ensures exists i :: 0 <= i < |body| && body[i].0 == Filter(body)[j].0 && Usable(body[i].0, body[i].1)
                        && body[i].1.value.fundamental.value == Filter(body)[j].1
  {
    var tail: JsObject<Option<AssetData>> := body[1..];
    if Usable(body[0].0, body[0].1) && j == 0 {
      assert body[0].0 == Filter(body)[0].0;
    } else {
      var j' := if Usable(body[0].0, body[0].1) then j - 1 else j;
      assert Filter(body)[j] == Filter(tail)[j'];
      FilterSound(tail, j');
      var i :| 0 <= i < |tail| && tail[i].0 == Filter(tail)[j'].0 && Usable(tail[i].0, tail[i].1)
               && tail[i].1.value.fundamental.value == Filter(tail)[j'].1;
      assert body[i + 1] == tail[i];
    }
  }

  /** The filter keeps response order: filtering two consecutive parts of a
      response is filtering each part and concatenating the results. */
  lemma {:induction false} FilterAppend(a: seq<(string, Option<AssetData>)>, b: seq<(string, Option<AssetData>)>)
    requires DistinctKeys(a + b)
    ensures DistinctKeys(a) && DistinctKeys(b)
    ensures Filter(a + b) == Filter(a) + Filter(b)
    decreases |a|
  {
    DistinctParts(a, b);
    if a != [] {
      DropHead(a, b);
      FilterAppend(a[1..], b);
    } else {
      Whole(b);
    }
  }

  /** A one-entry response keeps its entry, mapped to its fundamental payload,
      exactly when the entry is usable. */
  lemma FilterSingle(key: string, entry: Option<AssetData>)
    ensures Filter([(key, entry)]) == if Usable(key, entry) then [(key, entry.value.fundamental.value)] else []
  {
    Single((key, entry));
  }

  /** A usable equity keyed `__proto__` is not returned: the assignment that
      would add it sets the result's prototype instead. */
  lemma ProtoKeyDropped(p: Payload)
    ensures Filter([(ProtoKey, Some(AssetData(Some(Equity), Some(p))))]) == []
  {
    FilterSingle(ProtoKey, Some(AssetData(Some(Equity), Some(p))));
  }

  /** A failed request, a non-ok status and an empty symbol list all yield an
      empty result. */
  lemma FetchFailureIsEmpty(symbols: seq<string>, api: QuoteApi)
    requires |symbols| == 0 || !api(Join(symbols)).Ok?
    ensures Fetched(symbols, api) == []
  {
  }

  /** An ETF that carries a fundamental payload is still dropped. */
  lemma EtfExcluded(fundamental: Payload)
    ensures Filter([("SPY", Some(AssetData(Some("ETF"), Some(fundamental))))]) == []
  {
  }

  /** An equity without a fundamental payload is dropped. */
  lemma EquityWithoutFundamentalExcluded()
    ensures Filter([("AAPL", Some(AssetData(Some(Equity), None)))]) == []
  {
  }

  /** Response keys are not checked against the request: a symbol that was not
      asked for still comes through when it is a usable equity. */
  lemma {:induction false} UnrequestedKeyKept(api: QuoteApi, p: Payload)
    requires api("AAPL") == Ok([("MSFT", Some(AssetData(Some(Equity), Some(p))))])
    ensures Fetched(["AAPL"], api) == [("MSFT", p)]
  {
    assert Join(["AAPL"]) == "AAPL";
  }
}
