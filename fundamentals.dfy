/**
 * worker.js, `upsertFundamentalData`: the `fundamentals` table keyed by symbol,
 * and the insert-or-overwrite that writes one symbol's payload into it.
 */
module Fundamentals {
  import opened Json

  /** The sixteen fundamental columns, in the order the INSERT statement lists them. */
  const Columns: seq<string> := [
    "avg10DaysVolume", "avg1YearVolume", "declarationDate", "divAmount",
    "divExDate", "divFreq", "divPayAmount", "divPayDate", "divYield",
    "eps", "fundLeverageFactor", "lastEarningsDate", "nextDivExDate",
    "nextDivPayDate", "peRatio", "sharesOutstanding"
  ]

  /** One row of the table, without its `symbol` key: a value per column and the
      epoch second of its last write. */
  datatype Row = Row(columns: map<string, Value>, updatedAt: int)

  /** The table: symbol to row. A map holds at most one row per symbol, which is
      the table's uniqueness constraint on `symbol`. */
  type Table = map<string, Row>

  /** The row written for `payload` at time `now`, stamped with `now`. */
  function ToRow(payload: Payload, now: int): (row: Row)
    ensures row.updatedAt == now
  {
    Row(map c | c in Columns :: Coalesce(payload, c), now)
  }

  /** Every column of the written row is set, to the payload's value when it
      has a non-null one and to null otherwise, and nothing outside the sixteen
      columns is stored. */
  lemma ToRowColumns(payload: Payload, now: int)
    ensures ToRow(payload, now).columns.Keys == set c | c in Columns
    ensures forall c :: c in Columns && c in payload ==> ToRow(payload, now).columns[c] == payload[c]
    ensures forall c :: c in Columns && c !in payload ==> ToRow(payload, now).columns[c] == Null
  {
  }

  /** The table after upserting `symbol` with `payload` at time `now`: exactly
      one row for `symbol`, built from `payload` alone, and every other row as it
      was. */
  function Upserted(table: Table, symbol: string, payload: Payload, now: int): Table
  {
    table[symbol := ToRow(payload, now)]
  }

  /** After an upsert the table has a row for `symbol` and otherwise the same
      symbols; that row holds each column of the payload, null for an absent
      one, and the write time; every other row is unchanged. */
  lemma UpsertedRow(table: Table, symbol: string, payload: Payload, now: int)
    ensures Upserted(table, symbol, payload, now).Keys == table.Keys + {symbol}
    ensures Upserted(table, symbol, payload, now)[symbol].updatedAt == now
    ensures forall c :: c in Columns ==> c in Upserted(table, symbol, payload, now)[symbol].columns
    ensures forall c :: c in Columns && c in payload ==> Upserted(table, symbol, payload, now)[symbol].columns[c] == payload[c]
    ensures forall c :: c in Columns && c !in payload ==> Upserted(table, symbol, payload, now)[symbol].columns[c] == Null
    ensures forall other :: other in table && other != symbol ==> Upserted(table, symbol, payload, now)[other] == table[other]
  {
    ToRowColumns(payload, now);
  }

  /** Two upserts of the same symbol leave one row, exactly what the second alone
      would write: no value from the first payload survives. */
  lemma UpsertTwice(table: Table, symbol: string, first: Payload, t1: int, second: Payload, t2: int)
    ensures Upserted(Upserted(table, symbol, first, t1), symbol, second, t2)
         == Upserted(table, symbol, second, t2)
    ensures Upserted(Upserted(table, symbol, first, t1), symbol, second, t2)[symbol] == ToRow(second, t2)
  {
  }

  /** The D1 database handle as the upsert sees it. `clock(k)` is what
      `unixepoch()` gives the k-th write statement and `accepts(k)` whether that
      statement commits; `attempts` counts the write statements issued so far. */
  class Database {
    var fundamentals: Table
    var attempts: nat
    const clock: nat -> int
    const accepts: nat -> bool

    constructor (initial: Table, clock: nat -> int, accepts: nat -> bool)
      ensures fundamentals == initial && attempts == 0
      ensures this.clock == clock && this.accepts == accepts
    {
      fundamentals := initial;
      attempts := 0;
      this.clock := clock;
      this.accepts := accepts;
    }

    /** Issues one insert-or-update for `symbol`. `ok` is false when the
        statement fails; the source rethrows then, and nothing was written. */
    method UpsertFundamentalData(symbol: string, tickerData: Payload) returns (ok: bool)
      modifies this
      ensures attempts == old(attempts) + 1
      ensures ok == accepts(old(attempts))
      ensures fundamentals == if ok then Upserted(old(fundamentals), symbol, tickerData, clock(old(attempts)))
                              else old(fundamentals)
    {
      ok := accepts(attempts);
      if ok {
        fundamentals := fundamentals[symbol := ToRow(tickerData, clock(attempts))];
      }
      attempts := attempts + 1;
    }
  }
}
