/**
 * worker.js, `updateAllTickers` and `scheduled`: collect the symbols, fetch
 * them 50 at a time, and upsert every returned payload in order. A failed
 * upsert ends the run; the writes before it stay.
 */
module Worker {
  import opened Wrappers
  import opened Json
  import opened Fetch
  import opened Fundamentals
  import opened Symbols
  import opened Chunking
  import opened Seqs

  /** The upserts a run attempts when none fails: chunk by chunk, and within a
      chunk in the order of its fetch result. */
  function Plan(chunks: seq<seq<string>>, api: QuoteApi): seq<(string, Payload)>
  {
    if chunks == [] then [] else Fetched(chunks[0], api) + Plan(chunks[1..], api)
  }

  /** The table after the upserts `ops` in order, the k-th stamped with
      `clock(start + k)`. */
  function Applied(table: Table, ops: seq<(string, Payload)>, clock: nat -> int, start: nat): Table
    decreases |ops|
  {
    if ops == [] then table
    else Applied(Upserted(table, ops[0].0, ops[0].1, clock(start)), ops[1..], clock, start + 1)
  }

  /** How many of `n` write attempts from attempt number `start` commit: all
      up to the first that fails. */
  function Committed(accepts: nat -> bool, start: nat, n: nat): (k: nat)
    ensures k <= n
    decreases n
  {
    if n == 0 || !accepts(start) then 0 else 1 + Committed(accepts, start + 1, n - 1)
  }

  /** The table and the write-attempt count after carrying out `plan` from
      attempt number `attempts`: every write up to the first failed one, which
      is attempted and then ends the run. */
  function Execute(table: Table, attempts: nat, plan: seq<(string, Payload)>,
                   clock: nat -> int, accepts: nat -> bool): (Table, nat)
  {
    var k := Committed(accepts, attempts, |plan|);
    (Applied(table, plan[..k], clock, attempts), attempts + if k < |plan| then k + 1 else k)
  }

  /** A symbol that no upsert of `ops` names keeps its row, or its absence. */
  lemma {:induction false} AppliedUntouched(table: Table, ops: seq<(string, Payload)>, clock: nat -> int, start: nat,
                                            symbol: string)
    requires forall i :: 0 <= i < |ops| ==> ops[i].0 != symbol
    ensures (symbol in Applied(table, ops, clock, start)) == (symbol in table)
    ensures symbol in table ==> Applied(table, ops, clock, start)[symbol] == table[symbol]
    decreases |ops|
  {
    if ops != [] {
      var next := Upserted(table, ops[0].0, ops[0].1, clock(start));
      UpsertedRow(table, ops[0].0, ops[0].1, clock(start));
      assert forall i :: 0 <= i < |ops[1..]| ==> ops[1..][i] == ops[i + 1];
      AppliedUntouched(next, ops[1..], clock, start + 1, symbol);
    }
  }

  /** The row of a symbol is the one its last upsert in `ops` wrote, stamped
      with that upsert's attempt number. */
  lemma {:induction false} AppliedLastWrite(table: Table, ops: seq<(string, Payload)>, clock: nat -> int, start: nat,
                                            j: nat)
    requires j < |ops|
    requires forall i :: j < i < |ops| ==> ops[i].0 != ops[j].0
    ensures ops[j].0 in Applied(table, ops, clock, start)
    ensures Applied(table, ops, clock, start)[ops[j].0] == ToRow(ops[j].1, clock(start + j))
    decreases j
  {
    var next := Upserted(table, ops[0].0, ops[0].1, clock(start));
    assert forall i :: 0 <= i < |ops[1..]| ==> ops[1..][i] == ops[i + 1];
    if j == 0 {
      UpsertedRow(table, ops[0].0, ops[0].1, clock(start));
      AppliedUntouched(next, ops[1..], clock, start + 1, ops[0].0);
    } else {
      AppliedLastWrite(next, ops[1..], clock, start + 1, j - 1);
    }
  }

  /** The symbols of the table after `ops` are those before and those the
      upserts name: nothing is deleted and nothing else is added. */
  lemma {:induction false} AppliedKeys(table: Table, ops: seq<(string, Payload)>, clock: nat -> int, start: nat)
    ensures Applied(table, ops, clock, start).Keys == table.Keys + Keys(ops)
    decreases |ops|
  {
    if ops != [] {
      var next := Upserted(table, ops[0].0, ops[0].1, clock(start));
      UpsertedRow(table, ops[0].0, ops[0].1, clock(start));
      AppliedKeys(next, ops[1..], clock, start + 1);
      KeysCons(ops);
    }
  }

  /** Every write of `plan` from attempt number `attempts` commits. */
  predicate Completes(accepts: nat -> bool, attempts: nat, plan: seq<(string, Payload)>)
  {
    Committed(accepts, attempts, |plan|) == |plan|
  }

  /** The table and the write-attempt count after one run. A failed read of
      `user_layouts` ends the run before anything is fetched; otherwise the
      plan for the collected symbols is executed. */
  function Run(table: Table, attempts: nat, layouts: Option<seq<LayoutRow>>, parse: Parser, api: QuoteApi,
               clock: nat -> int, accepts: nat -> bool): (Table, nat)
  {
    if layouts.None? then (table, attempts)
    else Execute(table, attempts, Plan(Chunks(Collected(layouts.value, parse)), api), clock, accepts)
  }

  lemma PlanCons(chunk: seq<string>, rest: seq<seq<string>>, api: QuoteApi)
    ensures Plan([chunk] + rest, api) == Fetched(chunk, api) + Plan(rest, api)
  {
    assert ([chunk] + rest)[1..] == rest;
  }

  /** From offset `i`, the chunks still to go are `slice(i, i + 50)` and
      then the chunks from `i + 50`, and so are their upserts. */
  lemma NextChunk(xs: seq<string>, i: nat, api: QuoteApi)
    requires i < |xs|
    ensures Chunks(Slice(xs, i, |xs|)) == [Slice(xs, i, i + ChunkSize)] + Chunks(Slice(xs, i + ChunkSize, |xs|))
    ensures Plan(Chunks(Slice(xs, i, |xs|)), api)
         == Fetched(Slice(xs, i, i + ChunkSize), api) + Plan(Chunks(Slice(xs, i + ChunkSize, |xs|)), api)
  {
    ChunksFrom(xs, i);
    PlanCons(Slice(xs, i, i + ChunkSize), Chunks(Slice(xs, i + ChunkSize, |xs|)), api);
  }

  /** The plan for two runs of chunks back to back is their plans back to back. */
  lemma {:induction false} PlanAppend(chunks: seq<seq<string>>, more: seq<seq<string>>, api: QuoteApi)
    ensures Plan(chunks + more, api) == Plan(chunks, api) + Plan(more, api)
  {
    if chunks == [] {
      Whole(more);
      Whole(Plan(more, api));
    } else {
      DropHead(chunks, more);
      PlanAppend(chunks[1..], more, api);
      AppendAssoc(Fetched(chunks[0], api), Plan(chunks[1..], api), Plan(more, api));
    }
  }

  /** The plan splits around any one chunk: the chunks before it, its own
      fetch result, and the chunks after it. */
  lemma PlanAround(chunks: seq<seq<string>>, c: nat, api: QuoteApi)
    requires c < |chunks|
    ensures Plan(chunks, api) == Plan(chunks[..c], api) + (Fetched(chunks[c], api) + Plan(chunks[c + 1..], api))
  {
    SplitAround(chunks, c);
    PlanAppend(chunks[..c], [chunks[c]] + chunks[c + 1..], api);
    PlanCons(chunks[c], chunks[c + 1..], api);
  }

  /** A chunk whose request fails contributes no upsert, and the chunks after
      it are still fetched and upserted. */
  lemma FailedChunkSkipped(chunks: seq<seq<string>>, c: nat, api: QuoteApi)
    requires c < |chunks|
    requires !api(Join(chunks[c])).Ok?
    ensures Plan(chunks, api) == Plan(chunks[..c], api) + Plan(chunks[c + 1..], api)
  {
    PlanAround(chunks, c, api);
    FetchFailureIsEmpty(chunks[c], api);
    Whole(Plan(chunks[c + 1..], api));
  }

  /** The committed writes are a run of accepted attempts, ended by a refused
      one unless all `n` commit. */
  lemma {:induction false} CommittedMeaning(accepts: nat -> bool, start: nat, n: nat)
    ensures forall i :: start <= i < start + Committed(accepts, start, n) ==> accepts(i)
    ensures Committed(accepts, start, n) < n ==> !accepts(start + Committed(accepts, start, n))
    decreases n
  {
    if n > 0 && accepts(start) {
      CommittedMeaning(accepts, start + 1, n - 1);
    }
  }

  /** Conversely, a run of `d` accepted attempts ended by a refused one, or
      reaching `n`, is what Committed counts. */
  lemma {:induction false} CommittedExactly(accepts: nat -> bool, start: nat, n: nat, d: nat)
    requires d <= n
    requires forall i :: start <= i < start + d ==> accepts(i)
    requires d < n ==> !accepts(start + d)
    ensures Committed(accepts, start, n) == d
    decreases n
  {
    if d > 0 {
      CommittedExactly(accepts, start + 1, n - 1, d - 1);
    }
  }

  /** Once the first `m` attempts from `start` all commit, the commits among
      `m + n` attempts are those `m` and then the commits from `start + m` on. */
  lemma {:induction false} CommittedAppend(accepts: nat -> bool, start: nat, m: nat, n: nat)
    requires Committed(accepts, start, m) == m
    ensures Committed(accepts, start, m + n) == m + Committed(accepts, start + m, n)
    decreases m
  {
    if m > 0 {
      CommittedAppend(accepts, start + 1, m - 1, n);
    }
  }

  /** Applying `ops + more` is applying `ops`, then `more` from the next attempt
      number on. */
  lemma {:induction false} AppliedAppend(table: Table, ops: seq<(string, Payload)>, more: seq<(string, Payload)>,
                                         clock: nat -> int, start: nat)
    ensures Applied(table, ops + more, clock, start)
         == Applied(Applied(table, ops, clock, start), more, clock, start + |ops|)
    decreases |ops|
  {
    if ops == [] {
      Whole(more);
    } else {
      DropHead(ops, more);
      AppliedAppend(Upserted(table, ops[0].0, ops[0].1, clock(start)), ops[1..], more, clock, start + 1);
    }
  }

  /** The last upsert of `ops + [op]` is `op`, stamped with the next attempt number. */
  lemma AppliedSnoc(table: Table, ops: seq<(string, Payload)>, op: (string, Payload), clock: nat -> int, start: nat)
    ensures Applied(table, ops + [op], clock, start)
         == Upserted(Applied(table, ops, clock, start), op.0, op.1, clock(start + |ops|))
  {
    AppliedAppend(table, ops, [op], clock, start);
  }

  /** Execute with its count of committed writes named. */
  lemma ExecuteUnfold(table: Table, attempts: nat, plan: seq<(string, Payload)>,
                      clock: nat -> int, accepts: nat -> bool, k: nat)
    requires k == Committed(accepts, attempts, |plan|)
    ensures k <= |plan|
    ensures Execute(table, attempts, plan, clock, accepts)
         == (Applied(table, plan[..k], clock, attempts), attempts + if k < |plan| then k + 1 else k)
  {
  }

  /** An empty plan changes nothing. */
  lemma ExecuteNothing(table: Table, attempts: nat, clock: nat -> int, accepts: nat -> bool)
    ensures Execute(table, attempts, [], clock, accepts) == (table, attempts)
  {
    var none: seq<(string, Payload)> := [];
    assert none[..0] == none;
  }

  /** When every write of `ops` commits, carrying them out applies all of them
      and counts one attempt each. */
  lemma ExecuteComplete(table: Table, attempts: nat, ops: seq<(string, Payload)>,
                        clock: nat -> int, accepts: nat -> bool)
    requires Completes(accepts, attempts, ops)
    ensures Execute(table, attempts, ops, clock, accepts) == (Applied(table, ops, clock, attempts), attempts + |ops|)
  {
    Whole(ops);
  }

  /** When the next write commits, carrying out `[op] + rest` is applying `op`
      and then carrying out `rest` from the next attempt number. */
  lemma ExecuteCons(table: Table, attempts: nat, op: (string, Payload), rest: seq<(string, Payload)>,
                    clock: nat -> int, accepts: nat -> bool)
    requires accepts(attempts)
    ensures Execute(table, attempts, [op] + rest, clock, accepts)
         == Execute(Upserted(table, op.0, op.1, clock(attempts)), attempts + 1, rest, clock, accepts)
  {
    var k := Committed(accepts, attempts + 1, |rest|);
    assert |[op] + rest| == |rest| + 1;
    ExecuteUnfold(table, attempts, [op] + rest, clock, accepts, k + 1);
    ExecuteUnfold(Upserted(table, op.0, op.1, clock(attempts)), attempts + 1, rest, clock, accepts, k);
    TakeLong([op], rest, k);
    DropHead([op], rest[..k]);
    Single(op);
  }

  /** When every write of `ops` commits, carrying out `ops + more` is applying
      `ops` and then carrying out `more` from the next attempt number. */
  lemma {:induction false} ExecuteAppend(table: Table, attempts: nat, ops: seq<(string, Payload)>,
                                         more: seq<(string, Payload)>, clock: nat -> int, accepts: nat -> bool)
    requires Completes(accepts, attempts, ops)
    ensures Execute(table, attempts, ops + more, clock, accepts)
         == Execute(Applied(table, ops, clock, attempts), attempts + |ops|, more, clock, accepts)
    decreases |ops|
  {
    if ops == [] {
      Whole(more);
    } else {
      var next := Upserted(table, ops[0].0, ops[0].1, clock(attempts));
      assert ops == [ops[0]] + ops[1..];
      AppendAssoc([ops[0]], ops[1..], more);
      assert Applied(table, ops, clock, attempts) == Applied(next, ops[1..], clock, attempts + 1);
      ExecuteCons(table, attempts, ops[0], ops[1..] + more, clock, accepts);
      ExecuteAppend(next, attempts + 1, ops[1..], more, clock, accepts);
    }
  }

  /** When every write of `ops` commits, all of `ops + more` commit exactly
      when all of `more` do, from the next attempt number. */
  lemma CompletesAppend(accepts: nat -> bool, attempts: nat, ops: seq<(string, Payload)>, more: seq<(string, Payload)>)
    requires Completes(accepts, attempts, ops)
    ensures Completes(accepts, attempts, ops + more) <==> Completes(accepts, attempts + |ops|, more)
  {
    CommittedAppend(accepts, attempts, |ops|, |more|);
  }

  /** When a write of `ops` fails, nothing after `ops` is attempted. */
  lemma ExecuteAborted(table: Table, attempts: nat, ops: seq<(string, Payload)>, more: seq<(string, Payload)>,
                       clock: nat -> int, accepts: nat -> bool)
    requires !Completes(accepts, attempts, ops)
    ensures Execute(table, attempts, ops + more, clock, accepts) == Execute(table, attempts, ops, clock, accepts)
    ensures !Completes(accepts, attempts, ops + more)
  {
    var k := Committed(accepts, attempts, |ops|);
    CommittedMeaning(accepts, attempts, |ops|);
    CommittedExactly(accepts, attempts, |ops| + |more|, k);
    TakeShort(ops, more, k);
  }

  /** The inner loop of the run: upserts each pair of one fetch result in
      order, and stops at the first failed upsert, reporting it as `ok == false`. */
  method UpsertAll(db: Database, tickersData: seq<(string, Payload)>) returns (ok: bool)
    modifies db
    ensures ok == Completes(db.accepts, old(db.attempts), tickersData)
    ensures (db.fundamentals, db.attempts)
         == Execute(old(db.fundamentals), old(db.attempts), tickersData, db.clock, db.accepts)
  {
    ghost var start := db.attempts;
    for j := 0 to |tickersData|
      invariant db.fundamentals == Applied(old(db.fundamentals), tickersData[..j], db.clock, start)
      invariant db.attempts == start + j
      invariant forall a :: start <= a < db.attempts ==> db.accepts(a)
    {
      var (symbol, tickerData) := tickersData[j];
      ok := db.UpsertFundamentalData(symbol, tickerData);
      if !ok {
        CommittedExactly(db.accepts, start, |tickersData|, j);
        return;
      }
      AppliedSnoc(old(db.fundamentals), tickersData[..j], (symbol, tickerData), db.clock, start);
      assert tickersData[..j + 1] == tickersData[..j] + [(symbol, tickerData)];
    }
    ok := true;
    CommittedExactly(db.accepts, start, |tickersData|, |tickersData|);
    assert tickersData[..|tickersData|] == tickersData;
  }

  /** One chunk's upserts `ops`, carried out from `before`, left `after`; what
      the rest of the run does from there. */
  lemma ChunkStep(before: (Table, nat), after: (Table, nat), ops: seq<(string, Payload)>, more: seq<(string, Payload)>,
                  clock: nat -> int, accepts: nat -> bool)
    requires after == Execute(before.0, before.1, ops, clock, accepts)
    ensures Completes(accepts, before.1, ops) ==>
              && Execute(before.0, before.1, ops + more, clock, accepts) == Execute(after.0, after.1, more, clock, accepts)
              && (Completes(accepts, before.1, ops + more) <==> Completes(accepts, after.1, more))
    ensures !Completes(accepts, before.1, ops) ==>
              && Execute(before.0, before.1, ops + more, clock, accepts) == after
              && !Completes(accepts, before.1, ops + more)
  {
    if Completes(accepts, before.1, ops) {
      ExecuteComplete(before.0, before.1, ops, clock, accepts);
      ExecuteAppend(before.0, before.1, ops, more, clock, accepts);
      CompletesAppend(accepts, before.1, ops, more);
    } else {
      ExecuteAborted(before.0, before.1, ops, more, clock, accepts);
    }
  }

  /** The batching loop of `updateAllTickers`: for each chunk of at most 50
      symbols, fetch the fundamentals and upsert every returned payload in
      order. `requests` lists the chunks handed to `fetchTickersData`, in
      order: all of them unless a write fails. */
  method UpsertInChunks(db: Database, symbolsToFetch: seq<string>, api: QuoteApi)
    returns (requests: seq<seq<string>>)
    modifies db
    ensures (db.fundamentals, db.attempts)
         == Execute(old(db.fundamentals), old(db.attempts), Plan(Chunks(symbolsToFetch), api), db.clock, db.accepts)
    ensures requests <= Chunks(symbolsToFetch)
    ensures Completes(db.accepts, old(db.attempts), Plan(Chunks(symbolsToFetch), api)) ==> requests == Chunks(symbolsToFetch)
    ensures !Completes(db.accepts, old(db.attempts), Plan(Chunks(symbolsToFetch), api)) ==>
              && requests != []
              && Completes(db.accepts, old(db.attempts), Plan(requests[..|requests| - 1], api))
              && !Completes(db.accepts, old(db.attempts), Plan(requests, api))
  {
    requests := [];
    ghost var start := db.attempts;
    ghost var chunks := Chunks(symbolsToFetch);
    ghost var plan := Plan(chunks, api);
    ghost var outcome := Execute(db.fundamentals, db.attempts, plan, db.clock, db.accepts);
    ghost var completes := Completes(db.accepts, db.attempts, plan);
    ghost var rest := chunks;
    if |symbolsToFetch| > 0 {
      var i: nat := 0;
      assert Slice(symbolsToFetch, 0, |symbolsToFetch|) == symbolsToFetch;
      while i < |symbolsToFetch|
        invariant rest == Chunks(Slice(symbolsToFetch, i, |symbolsToFetch|))
        invariant chunks == requests + rest
        invariant outcome == Execute(db.fundamentals, db.attempts, Plan(rest, api), db.clock, db.accepts)
        invariant completes == Completes(db.accepts, db.attempts, Plan(rest, api))
        invariant Completes(db.accepts, start, Plan(requests, api))
        invariant db.attempts == start + |Plan(requests, api)|
        decreases |symbolsToFetch| - i
      {
        var chunk := Slice(symbolsToFetch, i, i + ChunkSize);
        ghost var rest' := Chunks(Slice(symbolsToFetch, i + ChunkSize, |symbolsToFetch|));
        ghost var later := Plan(rest', api);
        NextChunk(symbolsToFetch, i, api);
        var tickersData, _ := FetchTickersData(chunk, api);
        ghost var earlier := requests;
        requests := requests + [chunk];
        AppendAssoc(earlier, [chunk], rest');
        ghost var before := (db.fundamentals, db.attempts);
        var ok := UpsertAll(db, tickersData);
        ChunkStep(before, (db.fundamentals, db.attempts), tickersData, later, db.clock, db.accepts);
        RequestStep(earlier, chunk, api, db.clock, db.accepts, start, before, (db.fundamentals, db.attempts));
        if !ok {
          // rethrown by the upsert: every remaining symbol and chunk is abandoned
          Prefix(requests, rest');
          return;
        }
        rest := rest';
        i := i + ChunkSize;
      }
    }
    assert rest == [];
    ExecuteNothing(db.fundamentals, db.attempts, db.clock, db.accepts);
    Whole(requests);
  }

  /** One more chunk requested: when the earlier chunks' upserts all
      committed, the requested chunks' upserts commit exactly when the new
      chunk's do, and then each of them was attempted once. */
  lemma RequestStep(earlier: seq<seq<string>>, chunk: seq<string>, api: QuoteApi,
                    clock: nat -> int, accepts: nat -> bool, start: nat, before: (Table, nat), after: (Table, nat))
    requires Completes(accepts, start, Plan(earlier, api))
    requires before.1 == start + |Plan(earlier, api)|
    requires after == Execute(before.0, before.1, Fetched(chunk, api), clock, accepts)
    ensures (earlier + [chunk])[..|earlier + [chunk]| - 1] == earlier
    ensures Completes(accepts, start, Plan(earlier + [chunk], api)) <==> Completes(accepts, before.1, Fetched(chunk, api))
    ensures Completes(accepts, before.1, Fetched(chunk, api)) ==> after.1 == start + |Plan(earlier + [chunk], api)|
  {
    PlanSnoc(earlier, chunk, api);
    CompletesAppend(accepts, start, Plan(earlier, api), Fetched(chunk, api));
    if Completes(accepts, before.1, Fetched(chunk, api)) {
      ExecuteComplete(before.0, before.1, Fetched(chunk, api), clock, accepts);
    }
    DropLast(earlier, chunk);
  }

  /** The upserts of one more chunk come after those of the earlier chunks. */
  lemma PlanSnoc(earlier: seq<seq<string>>, chunk: seq<string>, api: QuoteApi)
    ensures Plan(earlier + [chunk], api) == Plan(earlier, api) + Fetched(chunk, api)
  {
    PlanAppend(earlier, [chunk], api);
    PlanCons(chunk, [], api);
    Whole([chunk]);
    Whole(Fetched(chunk, api));
  }

  /** A symbol that no committed write names keeps its row, or its absence,
      whether or not the run was cut short. */
  lemma ExecuteUntouched(table: Table, attempts: nat, plan: seq<(string, Payload)>,
                         clock: nat -> int, accepts: nat -> bool, symbol: string)
    requires forall i :: 0 <= i < |plan| && i < Committed(accepts, attempts, |plan|) ==> plan[i].0 != symbol
    ensures (symbol in Execute(table, attempts, plan, clock, accepts).0) == (symbol in table)
    ensures symbol in table ==> Execute(table, attempts, plan, clock, accepts).0[symbol] == table[symbol]
  {
    var k := Committed(accepts, attempts, |plan|);
    assert forall i :: 0 <= i < |plan[..k]| ==> plan[..k][i] == plan[i];
    AppliedUntouched(table, plan[..k], clock, attempts, symbol);
  }

  /** After a run whose writes all commit, a symbol's row holds the payload of
      its last upsert, stamped with the clock of that write. */
  lemma ExecuteLastWrite(table: Table, attempts: nat, plan: seq<(string, Payload)>,
                         clock: nat -> int, accepts: nat -> bool, j: nat)
    requires Completes(accepts, attempts, plan)
    requires j < |plan|
    requires forall i :: j < i < |plan| ==> plan[i].0 != plan[j].0
    ensures plan[j].0 in Execute(table, attempts, plan, clock, accepts).0
    ensures Execute(table, attempts, plan, clock, accepts).0[plan[j].0] == ToRow(plan[j].1, clock(attempts + j))
  {
    ExecuteComplete(table, attempts, plan, clock, accepts);
    AppliedLastWrite(table, plan, clock, attempts, j);
  }

  /** The symbols stored after a run: those stored before and those of the
      committed writes. */
  lemma ExecuteKeys(table: Table, attempts: nat, plan: seq<(string, Payload)>,
                    clock: nat -> int, accepts: nat -> bool)
    ensures Execute(table, attempts, plan, clock, accepts).0.Keys
         == table.Keys + Keys(plan[..Committed(accepts, attempts, |plan|)])
  {
    AppliedKeys(table, plan[..Committed(accepts, attempts, |plan|)], clock, attempts);
  }

  /** When the first write fails, the table is as before and exactly one
      write was attempted. */
  lemma FirstWriteFails(table: Table, attempts: nat, plan: seq<(string, Payload)>,
                        clock: nat -> int, accepts: nat -> bool)
    requires plan != []
    requires !accepts(attempts)
    ensures Execute(table, attempts, plan, clock, accepts) == (table, attempts + 1)
    ensures !Completes(accepts, attempts, plan)
  {
    assert plan[..0] == [];
  }

  /** With no symbol collected, nothing is fetched and nothing is written. */
  lemma NoSymbolsNoWrites(table: Table, attempts: nat, rows: seq<LayoutRow>, parse: Parser, api: QuoteApi,
                          clock: nat -> int, accepts: nat -> bool)
    requires Collected(rows, parse) == []
    ensures Chunks(Collected(rows, parse)) == []
    ensures Run(table, attempts, Some(rows), parse, api, clock, accepts) == (table, attempts)
  {
    ExecuteNothing(table, attempts, clock, accepts);
  }

  /** The `scheduled` handler: runs the update and answers with the default
      (200) status, since every failure of the update is caught inside it. */
  method Scheduled(db: Database, layouts: Option<seq<LayoutRow>>, parse: Parser, api: QuoteApi)
    returns (status: int)
    modifies db
    ensures status == 200
    ensures (db.fundamentals, db.attempts)
         == Run(old(db.fundamentals), old(db.attempts), layouts, parse, api, db.clock, db.accepts)
  {
    var _ := UpdateAllTickers(db, layouts, parse, api);
    status := 200;
  }

  /** Reads the layouts, collects the symbols, and fetches and upserts them
      chunk by chunk. A failed upsert is rethrown, ends the run, and is caught
      and logged here. `layouts` is None when the read of `user_layouts` fails;
      `requests` lists the chunks handed to `fetchTickersData`, in order. */
  method UpdateAllTickers(db: Database, layouts: Option<seq<LayoutRow>>, parse: Parser, api: QuoteApi)
    returns (requests: seq<seq<string>>)
    modifies db
    ensures (db.fundamentals, db.attempts)
         == Run(old(db.fundamentals), old(db.attempts), layouts, parse, api, db.clock, db.accepts)
    ensures layouts.None? ==> requests == []
    ensures layouts.Some? ==> requests <= Chunks(Collected(layouts.value, parse))
    ensures layouts.Some? ==>
              var plan := Plan(Chunks(Collected(layouts.value, parse)), api);
              Completes(db.accepts, old(db.attempts), plan) ==> requests == Chunks(Collected(layouts.value, parse))
    ensures layouts.Some? ==>
              var plan := Plan(Chunks(Collected(layouts.value, parse)), api);
              !Completes(db.accepts, old(db.attempts), plan) ==>
                && requests != []
                && Completes(db.accepts, old(db.attempts), Plan(requests[..|requests| - 1], api))
                && !Completes(db.accepts, old(db.attempts), Plan(requests, api))
  {
    requests := [];
    if layouts.None? {
      return;
    }
    var symbolsToFetch := CollectSymbols(layouts.value, parse);
    requests := UpsertInChunks(db, symbolsToFetch, api);
  }
}
