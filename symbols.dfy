/**
 * worker.js, first half of `updateAllTickers`: the ticker symbols referenced by
 * the stored dashboard layouts, upper-cased and collected into an
 * insertion-ordered set.
 */
module Symbols {
  import opened Wrappers
  import opened Seqs

  /** The `symbol` property of a widget. `Other` is any value that is not a
      string, with its JavaScript truthiness. */
  datatype SymbolField = Missing | Str(s: string) | Other(truthy: bool)

  /** An element of a parsed layout. Reading `.symbol` of a null element throws;
      any other non-object element reads as a widget without a symbol. */
  datatype Widget = NullWidget | Widget(symbol: SymbolField)

  /** A row of `user_layouts`: its `layout` text, None when null. */
  datatype LayoutRow = LayoutRow(layout: Option<string>)

  /** `JSON.parse` followed by iteration: the widget list a layout text denotes,
      or None when the text does not parse to an iterable list. */
  type Parser = string -> Option<seq<Widget>>

  /** ASCII upper case of one character. */
  function UpperChar(c: char): (u: char)
    ensures 'a' <= c <= 'z' ==> u as int == c as int - 32
    ensures !('a' <= c <= 'z') ==> u == c
  {
    if 'a' <= c <= 'z' then (c as int - 32) as char else c
  }

  /** `toUpperCase`, restricted to ASCII letters: the same length, each
      character upper-cased on its own. */
  function UpperCase(s: string): (u: string)
    ensures |u| == |s|
    ensures forall i :: 0 <= i < |s| ==> u[i] == UpperChar(s[i])
  {
    if s == [] then [] else [UpperChar(s[0])] + UpperCase(s[1..])
  }

  /** Upper-casing an upper-cased string changes nothing. */
  lemma {:induction false} UpperCaseIdempotent(s: string)
    ensures UpperCase(UpperCase(s)) == UpperCase(s)
  {
    if s != [] {
      UpperCaseIdempotent(s[1..]);
      assert UpperCase(s)[1..] == UpperCase(s[1..]);
    }
  }

  /** What processing one widget does to the set: nothing, add a symbol, or
      throw (which abandons the rest of its row). */
  datatype Step = Skip | Add(symbol: string) | Throw

  function WidgetStep(w: Widget): (st: Step)
    ensures st == Throw <==> w.NullWidget? || w.symbol == Other(true)
    ensures st.Add? <==> w.Widget? && w.symbol.Str? && w.symbol.s != ""
    ensures st.Add? ==> st.symbol == UpperCase(w.symbol.s)
  {
    match w
    case NullWidget => Throw
    case Widget(Missing) => Skip
    case Widget(Str(s)) => if s == "" then Skip else Add(UpperCase(s))
    case Widget(Other(truthy)) => if truthy then Throw else Skip
  }

  /** The symbols a parsed layout adds, in widget order, up to the first widget
      that throws. */
  function WidgetSymbols(widgets: seq<Widget>): seq<string>
  {
    if widgets == [] then []
    else
      match WidgetStep(widgets[0])
      case Throw => []
      case Skip => WidgetSymbols(widgets[1..])
      case Add(s) => [s] + WidgetSymbols(widgets[1..])
  }

  /** The symbols one row adds: none for an empty layout or one that does not
      parse. */
  function RowSymbols(row: LayoutRow, parse: Parser): (symbols: seq<string>)
    ensures row.layout.None? || row.layout.value == "" || parse(row.layout.value).None? ==> symbols == []
    ensures row.layout.Some? && row.layout.value != "" && parse(row.layout.value).Some? ==>
              symbols == WidgetSymbols(parse(row.layout.value).value)
  {
    if row.layout.None? || row.layout.value == "" then []
    else
      match parse(row.layout.value)
      case None => []
      case Some(widgets) => WidgetSymbols(widgets)
  }

  /** The symbols all rows add, in row order, repeats included. */
  function AllSymbols(rows: seq<LayoutRow>, parse: Parser): seq<string>
  {
    if rows == [] then [] else RowSymbols(rows[0], parse) + AllSymbols(rows[1..], parse)
  }

  /** `Set.add` on an insertion-ordered set. */
  function Insert(ordered: seq<string>, x: string): seq<string>
  {
    if x in ordered then ordered else ordered + [x]
  }

  /** The insertion-ordered set `ordered` after adding `xs` one by one. */
  function InsertAll(ordered: seq<string>, xs: seq<string>): seq<string>
  {
    if xs == [] then ordered else Insert(InsertAll(ordered, xs[..|xs| - 1]), xs[|xs| - 1])
  }

  /** The insertion-ordered set built from `xs`. */
  function Dedup(xs: seq<string>): seq<string>
  {
    InsertAll([], xs)
  }

  /** `Array.from(uniqueSymbols)` at the end of the collection loop. */
  function Collected(rows: seq<LayoutRow>, parse: Parser): seq<string>
  {
    Dedup(AllSymbols(rows, parse))
  }

  predicate NoDuplicates(xs: seq<string>)
  {
    forall i, j :: 0 <= i < j < |xs| ==> xs[i] != xs[j]
  }

  lemma InsertAllSnoc(ordered: seq<string>, xs: seq<string>, x: string)
    ensures InsertAll(ordered, xs + [x]) == Insert(InsertAll(ordered, xs), x)
  {
    assert (xs + [x])[..|xs|] == xs;
  }

  /** Adding `xs + ys` is adding `xs`, then `ys`. */
  lemma {:induction false} InsertAllAppend(ordered: seq<string>, xs: seq<string>, ys: seq<string>)
    ensures InsertAll(ordered, xs + ys) == InsertAll(InsertAll(ordered, xs), ys)
  {
    if ys == [] {
      assert xs + ys == xs;
    } else {
      var init := ys[..|ys| - 1];
      assert xs + ys == (xs + init) + [ys[|ys| - 1]];
      assert ys == init + [ys[|ys| - 1]];
      InsertAllAppend(ordered, xs, init);
      InsertAllSnoc(ordered, xs + init, ys[|ys| - 1]);
      InsertAllSnoc(InsertAll(ordered, xs), init, ys[|ys| - 1]);
    }
  }

  lemma AllSymbolsSnoc(rows: seq<LayoutRow>, i: nat, parse: Parser)
    requires i < |rows|
    ensures AllSymbols(rows[..i + 1], parse) == AllSymbols(rows[..i], parse) + RowSymbols(rows[i], parse)
  {
    assert rows[..i + 1] == rows[..i] + [rows[i]];
    AllSymbolsAppend(rows[..i], [rows[i]], parse);
    assert AllSymbols([rows[i]], parse) == RowSymbols(rows[i], parse) + AllSymbols([], parse);
  }

  /** The symbols from widget `j` on: what widget `j` does, then the rest. */
  lemma WidgetSymbolsAt(layout: seq<Widget>, j: nat)
    requires j < |layout|
    ensures WidgetSymbols(layout[j..]) == match WidgetStep(layout[j])
                                         case Throw => []
                                         case Skip => WidgetSymbols(layout[j + 1..])
                                         case Add(s) => [s] + WidgetSymbols(layout[j + 1..])
  {
    assert layout[j..][1..] == layout[j + 1..];
  }

  /** The `try` block for one parsed layout: adds each truthy widget symbol,
      upper-cased, to the insertion-ordered set, until a widget throws. */
  method AddWidgetSymbols(uniqueSymbols: seq<string>, layout: seq<Widget>) returns (updated: seq<string>)
    ensures updated == InsertAll(uniqueSymbols, WidgetSymbols(layout))
  {
    updated := uniqueSymbols;
    ghost var added: seq<string> := [];
    for j := 0 to |layout|
      invariant updated == InsertAll(uniqueSymbols, added)
      invariant WidgetSymbols(layout) == added + WidgetSymbols(layout[j..])
    {
      WidgetSymbolsAt(layout, j);
      var widget := layout[j];
      if widget.NullWidget? {
        break;  // reading `.symbol` of null throws
      }
      match widget.symbol {
        case Missing =>
        case Other(truthy) =>
          if truthy {
            break;  // `toUpperCase` is not a function of a non-string
          }
        case Str(s) =>
          if s != "" {
            var symbol := UpperCase(s);
            InsertAllSnoc(uniqueSymbols, added, symbol);
            AppendAssoc(added, [symbol], WidgetSymbols(layout[j + 1..]));
            if symbol !in updated {
              updated := updated + [symbol];
            }
            added := added + [symbol];
          }
      }
    }
    assert added == WidgetSymbols(layout) by {
      assert |layout[|layout|..]| == 0;
    }
  }

  /** Walks the layout rows and collects every truthy widget symbol, upper-cased,
      into an insertion-ordered set. */
  method CollectSymbols(rows: seq<LayoutRow>, parse: Parser) returns (symbols: seq<string>)
    ensures symbols == Collected(rows, parse)
  {
    var uniqueSymbols: seq<string> := [];
    for i := 0 to |rows|
      invariant uniqueSymbols == Dedup(AllSymbols(rows[..i], parse))
    {
      AllSymbolsSnoc(rows, i, parse);
      var row := rows[i];
      if row.layout.None? || row.layout.value == "" {
        assert AllSymbols(rows[..i], parse) + [] == AllSymbols(rows[..i], parse);
        continue;
      }
      var parsed := parse(row.layout.value);
      if parsed.None? {
        assert AllSymbols(rows[..i], parse) + [] == AllSymbols(rows[..i], parse);
        continue;  // the parse error is logged and the row skipped
      }
      InsertAllAppend([], AllSymbols(rows[..i], parse), WidgetSymbols(parsed.value));
      uniqueSymbols := AddWidgetSymbols(uniqueSymbols, parsed.value);
    }
    assert rows[..|rows|] == rows;
    symbols := uniqueSymbols;
  }

  /** Position of the first occurrence of `x` in `xs`. */
  function FirstIndex(xs: seq<string>, x: string): (k: nat)
    requires x in xs
    ensures k < |xs| && xs[k] == x && x !in xs[..k]
  {
    if xs[0] == x then 0 else 1 + FirstIndex(xs[1..], x)
  }

  lemma {:induction false} FirstIndexSnoc(xs: seq<string>, x: string, y: string)
    requires y in xs + [x]
    ensures y in xs ==> FirstIndex(xs + [x], y) == FirstIndex(xs, y)
    ensures y !in xs ==> FirstIndex(xs + [x], y) == |xs|
  {
    var k := FirstIndex(xs + [x], y);
    if y in xs {
      var m := FirstIndex(xs, y);
      assert (xs + [x])[m] == y && (xs + [x])[..m] == xs[..m];
    }
  }

  /** Adding to an insertion-ordered set keeps it duplicate-free and holds
      exactly the old members and the added values. */
  lemma {:induction false} InsertAllMembers(ordered: seq<string>, xs: seq<string>)
    requires NoDuplicates(ordered)
    ensures NoDuplicates(InsertAll(ordered, xs))
    ensures forall x :: x in InsertAll(ordered, xs) <==> x in ordered || x in xs
  {
    if xs != [] {
      var init := xs[..|xs| - 1];
      InsertAllMembers(ordered, init);
      assert xs == init + [xs[|xs| - 1]];
    }
  }

  /** The set is built in first-occurrence order: of two members, the one seen
      first in `xs` comes first. */
  lemma {:induction false} DedupOrder(xs: seq<string>)
    ensures forall i, j :: 0 <= i < j < |Dedup(xs)| ==>
              Dedup(xs)[i] in xs && Dedup(xs)[j] in xs &&
              FirstIndex(xs, Dedup(xs)[i]) < FirstIndex(xs, Dedup(xs)[j])
  {
    InsertAllMembers([], xs);
    if xs == [] {
      assert Dedup(xs) == [];
    } else {
      var init, x := xs[..|xs| - 1], xs[|xs| - 1];
      assert xs == init + [x];
      DedupOrder(init);
      InsertAllMembers([], init);
      var d, d' := Dedup(init), Dedup(xs);
      forall i, j | 0 <= i < j < |d'|
        ensures d'[i] in xs && d'[j] in xs && FirstIndex(xs, d'[i]) < FirstIndex(xs, d'[j])
      {
        FirstIndexSnoc(init, x, d'[i]);
        FirstIndexSnoc(init, x, d'[j]);
        if j < |d| {
          assert d'[i] == d[i] && d'[j] == d[j];
        } else {
          assert d'[i] == d[i] && d'[i] in init;
          assert d'[j] == x && x !in d;
        }
      }
    }
  }

  /** The collected list: no symbol twice, each one contributed by some row, in
      order of first appearance. */
  lemma CollectedIsOrderedSet(rows: seq<LayoutRow>, parse: Parser)
    ensures NoDuplicates(Collected(rows, parse))
    ensures forall x :: x in Collected(rows, parse) <==> x in AllSymbols(rows, parse)
    ensures forall i, j :: 0 <= i < j < |Collected(rows, parse)| ==>
              FirstIndex(AllSymbols(rows, parse), Collected(rows, parse)[i])
              < FirstIndex(AllSymbols(rows, parse), Collected(rows, parse)[j])
  {
    InsertAllMembers([], AllSymbols(rows, parse));
    DedupOrder(AllSymbols(rows, parse));
  }

  lemma {:induction false} AllSymbolsAppend(rows: seq<LayoutRow>, more: seq<LayoutRow>, parse: Parser)
    ensures AllSymbols(rows + more, parse) == AllSymbols(rows, parse) + AllSymbols(more, parse)
  {
    if rows == [] {
      Whole(more);
      Whole(AllSymbols(more, parse));
    } else {
      DropHead(rows, more);
      AllSymbolsAppend(rows[1..], more, parse);
      AppendAssoc(RowSymbols(rows[0], parse), AllSymbols(rows[1..], parse), AllSymbols(more, parse));
    }
  }

  /** A row with a null or empty layout, or one that does not parse, yields no symbol. */
  lemma SkippedRowEmpty(skipped: LayoutRow, parse: Parser)
    requires skipped.layout.None? || skipped.layout.value == "" || parse(skipped.layout.value).None?
    ensures AllSymbols([skipped], parse) == []
  {
    Single(skipped);
    assert AllSymbols([skipped], parse) == RowSymbols(skipped, parse) + AllSymbols([], parse);
  }

  /** A row with a null or empty layout, or one that does not parse, changes
      nothing wherever it stands among the rows. */
  lemma SkippedRowIgnored(rows: seq<LayoutRow>, k: nat, skipped: LayoutRow, parse: Parser)
    requires k <= |rows|
    requires skipped.layout.None? || skipped.layout.value == "" || parse(skipped.layout.value).None?
    ensures Collected(rows[..k] + [skipped] + rows[k..], parse) == Collected(rows, parse)
  {
    var before, after := rows[..k], rows[k..];
    SkippedRowEmpty(skipped, parse);
    AllSymbolsAppend(before + [skipped], after, parse);
    AllSymbolsAppend(before, [skipped], parse);
    AllSymbolsAppend(before, after, parse);
    Whole(AllSymbols(before, parse));
    TakeDrop(rows, k);
  }

  lemma {:induction false} AllSymbolsHasRow(rows: seq<LayoutRow>, r: nat, parse: Parser)
    requires r < |rows|
    ensures forall x :: x in RowSymbols(rows[r], parse) ==> x in AllSymbols(rows, parse)
  {
    AllSymbolsAppend(rows[..r + 1], rows[r + 1..], parse);
    AllSymbolsSnoc(rows, r, parse);
    assert rows[..r + 1] + rows[r + 1..] == rows;
  }

  /** Processing stops at the first widget that throws: the row keeps the
      symbols of the widgets before it and loses all after it. */
  lemma {:induction false} WidgetSymbolsStopAtThrow(widgets: seq<Widget>, j: nat)
    requires j < |widgets| && WidgetStep(widgets[j]) == Throw
    ensures WidgetSymbols(widgets) == WidgetSymbols(widgets[..j])
  {
    if j > 0 {
      assert widgets[1..][j - 1] == widgets[j];
      WidgetSymbolsStopAtThrow(widgets[1..], j - 1);
      assert widgets[..j][1..] == widgets[1..][..j - 1];
    }
  }

  lemma {:induction false} WidgetSymbolsComplete(widgets: seq<Widget>, j: nat)
    requires j < |widgets| && WidgetStep(widgets[j]).Add?
    requires forall k :: 0 <= k < j ==> WidgetStep(widgets[k]) != Throw
    ensures WidgetStep(widgets[j]).symbol in WidgetSymbols(widgets)
  {
    if j > 0 {
      assert widgets[1..][j - 1] == widgets[j];
      WidgetSymbolsComplete(widgets[1..], j - 1);
    }
  }

  /** A row that parses contributes the upper-cased form of every non-empty
      string symbol that comes before its first throwing widget, whatever other
      rows hold. */
  lemma ValidRowContributes(rows: seq<LayoutRow>, r: nat, parse: Parser, widgets: seq<Widget>, j: nat, s: string)
    requires r < |rows| && rows[r].layout.Some? && rows[r].layout.value != ""
    requires parse(rows[r].layout.value) == Some(widgets)
    requires j < |widgets| && widgets[j] == Widget(Str(s)) && s != ""
    requires forall k :: 0 <= k < j ==> WidgetStep(widgets[k]) != Throw
    ensures UpperCase(s) in Collected(rows, parse)
  {
    WidgetSymbolsComplete(widgets, j);
    AllSymbolsHasRow(rows, r, parse);
    CollectedIsOrderedSet(rows, parse);
  }

  /** A symbol in normal form: non-empty and already upper case. */
  predicate Normalized(x: string)
  {
    x != "" && UpperCase(x) == x
  }

  lemma {:induction false} WidgetSymbolsNormalized(widgets: seq<Widget>)
    ensures forall x :: x in WidgetSymbols(widgets) ==> Normalized(x)
  {
    if widgets != [] {
      WidgetSymbolsNormalized(widgets[1..]);
      if WidgetStep(widgets[0]).Add? {
        var s := widgets[0].symbol.s;
        UpperCaseIdempotent(s);
      }
    }
  }

  lemma {:induction false} AllSymbolsNormalized(rows: seq<LayoutRow>, parse: Parser)
    ensures forall x :: x in AllSymbols(rows, parse) ==> Normalized(x)
  {
    if rows != [] {
      AllSymbolsNormalized(rows[1..], parse);
      var first := rows[0];
      if first.layout.Some? && first.layout.value != "" && parse(first.layout.value).Some? {
        WidgetSymbolsNormalized(parse(first.layout.value).value);
      }
    }
  }

  /** Symbols differing only in case end up as one upper-cased entry: every
      collected symbol is normalized, and no two are equal ignoring case. */
  lemma CaseVariantsCollapse(rows: seq<LayoutRow>, parse: Parser)
    ensures forall x :: x in Collected(rows, parse) ==> Normalized(x)
    ensures forall i, j :: 0 <= i < j < |Collected(rows, parse)| ==>
              UpperCase(Collected(rows, parse)[i]) != UpperCase(Collected(rows, parse)[j])
  {
    AllSymbolsNormalized(rows, parse);
    CollectedIsOrderedSet(rows, parse);
    var c := Collected(rows, parse);
    forall i, j | 0 <= i < j < |c| ensures UpperCase(c[i]) != UpperCase(c[j]) {
      assert c[i] in c && c[j] in c;
    }
  }

  /** Inserting the same symbol twice keeps one copy. */
  lemma DedupRepeated(x: string)
    ensures Dedup([x, x]) == [x]
  {
    assert [x, x][..1] == [x];
    Single(x);
    Whole([x]);
    assert InsertAll([], [x]) == Insert(InsertAll([], []), x) == [x];
    assert InsertAll([], [x, x]) == Insert(InsertAll([], [x]), x);
  }

  /** Widgets naming "aapl" and "AAPL" yield the single entry "AAPL". */
  lemma AaplCollapses(parse: Parser)
    requires parse("L") == Some([Widget(Str("aapl")), Widget(Str("AAPL"))])
    ensures Collected([LayoutRow(Some("L"))], parse) == ["AAPL"]
  {
    var widgets := [Widget(Str("aapl")), Widget(Str("AAPL"))];
    assert UpperCase("aapl") == "AAPL";
    assert UpperCase("AAPL") == "AAPL";
    assert WidgetSymbols(widgets[1..]) == ["AAPL"];
    assert WidgetSymbols(widgets) == ["AAPL", "AAPL"];
    var rows := [LayoutRow(Some("L"))];
    Single(rows[0]);
    Whole(WidgetSymbols(widgets));
    assert AllSymbols(rows, parse) == ["AAPL", "AAPL"];
    DedupRepeated("AAPL");
  }
}
