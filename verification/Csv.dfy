/** The CSV printer and parser of d3 (the format of RFC 4180, section 2). */
module Csv {
  import opened Options

  // ---------- printing ----------

  predicate NeedsQuotes(cell: string) { '"' in cell || ',' in cell || '\n' in cell }

  function DoubleQuotes(s: string): string {
    if s == "" then "" else (if s[0] == '"' then "\"\"" else [s[0]]) + DoubleQuotes(s[1..])
  }

  function Quoted(cell: string): string { "\"" + DoubleQuotes(cell) + "\"" }

  function FormatValue(cell: string): string { if NeedsQuotes(cell) then Quoted(cell) else cell }

  function FormatRow(row: seq<string>): string {
    if row == [] then ""
    else if |row| == 1 then FormatValue(row[0])
    else FormatValue(row[0]) + "," + FormatRow(row[1..])
  }

  function Format(rows: seq<seq<string>>): string {
    if rows == [] then ""
    else if |rows| == 1 then FormatRow(rows[0])
    else FormatRow(rows[0]) + "\n" + Format(rows[1..])
  }

  // ---------- reading one cell off the rest of the text ----------

  datatype Token = Cell(text: string) | Eol

  // A cell, the text behind its separator, and whether that separator ended the line.
  datatype Step = Step(cell: string, rest: string, eol: bool)

  predicate IsSeparator(c: char) { c == ',' || c == '\r' || c == '\n' }

  function FirstSeparator(s: string): (k: nat)
    ensures k <= |s| && (forall i :: 0 <= i < k ==> !IsSeparator(s[i])) && (k < |s| ==> IsSeparator(s[k]))
  {
    if s == "" || IsSeparator(s[0]) then 0 else 1 + FirstSeparator(s[1..])
  }

  // Where the closing quote is: the first quote that is not doubled.
  function ClosingQuote(s: string): (k: nat)
    ensures k <= |s|
  {
    if s == "" then 0
    else if s[0] != '"' then 1 + ClosingQuote(s[1..])
    else if |s| > 1 && s[1] == '"' then 2 + ClosingQuote(s[2..])
    else 0
  }

  function UndoubleQuotes(s: string): string {
    if s == "" then ""
    else if |s| > 1 && s[0] == '"' && s[1] == '"' then "\"" + UndoubleQuotes(s[2..])
    else [s[0]] + UndoubleQuotes(s[1..])
  }

  function Drop(s: string, n: nat): string { if n <= |s| then s[n..] else "" }

  // A line end in front of s: \r\n, \r or \n.
  function SeparatorLength(s: string): nat { if |s| > 1 && s[0] == '\r' && s[1] == '\n' then 2 else 1 }

  function First(s: string): (f: Step)
    requires s != ""
    ensures |f.rest| < |s|
  {
    if s[0] == '"' then
      var k := ClosingQuote(s[1..]);
      var after := Drop(s, k + 2);
      Step(UndoubleQuotes(s[1..k + 1]), Drop(after, SeparatorLength(after)),
        after != "" && (after[0] == '\r' || after[0] == '\n'))
    else
      var k := FirstSeparator(s);
      if k == |s| then Step(s, "", false) else Step(s[..k], Drop(s[k..], SeparatorLength(s[k..])), s[k] != ',')
  }

  /** The tokens of a text, its end not included: the end of the text hides a last line end. */
  function Tokens(s: string): seq<Token>
    decreases |s|, 0
  {
    if s == "" then []
    else
      var f := First(s);
      [Cell(f.cell)] + AfterCell(f)
  }

  function AfterCell(f: Step): seq<Token>
    decreases |f.rest|, 1
  {
    (if f.eol && f.rest != "" then [Eol] else []) + Tokens(f.rest)
  }

  // The rows made of tokens, with a row begun.
  function RowsFrom(a: seq<string>, ts: seq<Token>): seq<seq<string>>
    decreases ts
  {
    if ts == [] then [a]
    else match ts[0]
      case Cell(c) => RowsFrom(a + [c], ts[1..])
      case Eol => [a] + Rows(ts[1..])
  }

  function Rows(ts: seq<Token>): seq<seq<string>>
    decreases ts
  {
    if ts == [] then []
    else match ts[0]
      case Cell(c) => RowsFrom([c], ts[1..])
      case Eol => [[]] + Rows(ts[1..])
  }

  function Parse(text: string): seq<seq<string>> { Rows(Tokens(text)) }

  // ---------- the round trip ----------

  // What a printed table should be read as: row is what is left of the current row.
  ghost function Expected(row: seq<string>, rest: seq<seq<string>>): seq<Token>
    decreases |rest|, |row|
  {
    if row == [] then []
    else
      [Cell(row[0])] +
      if |row| > 1 then Expected(row[1..], rest)
      else if rest == [] then []
      else [Eol] + Expected(rest[0], rest[1..])
  }

  function Body(row: seq<string>, rest: seq<seq<string>>): string {
    FormatRow(row) + if rest == [] then "" else "\n" + Format(rest)
  }

  // A carriage return alone does not make the printer quote a cell.
  predicate CellSurvives(cell: string) { '\r' in cell ==> '"' in cell || ',' in cell || '\n' in cell }

  ghost predicate Good(row: seq<string>, rest: seq<seq<string>>)
    decreases |rest|, |row|
  {
    row != [] && CellSurvives(row[0]) &&
    if |row| > 1 then Good(row[1..], rest)
    else if rest == [] then row[0] != ""
    else Good(rest[0], rest[1..])
  }

  ghost predicate NoEmptyRow(rows: seq<seq<string>>) {
    forall i :: 0 <= i < |rows| ==> rows[i] != []
  }

  lemma {:induction false} UndoubleDouble(s: string)
    ensures UndoubleQuotes(DoubleQuotes(s)) == s
  {
    if s != "" {
      var d := DoubleQuotes(s[1..]);
      UndoubleDouble(s[1..]);
      if s[0] == '"' {
        assert ("\"\"" + d)[2..] == d;
      } else {
        assert ([s[0]] + d)[1..] == d;
      }
    }
  }

  // One character further, the closing quote is as much nearer as the printed character is long.
  lemma ClosingQuoteStep(c: char, d: string)
    ensures c == '"' ==> ClosingQuote("\"\"" + d) == 2 + ClosingQuote(d)
    ensures c != '"' ==> ClosingQuote([c] + d) == 1 + ClosingQuote(d)
  {
    assert ("\"\"" + d)[2..] == d;
    assert ([c] + d)[1..] == d;
  }

  lemma QuotesSplit(s: string, tail: string)
    requires s != ""
    ensures DoubleQuotes(s) + tail == (if s[0] == '"' then "\"\"" else [s[0]]) + (DoubleQuotes(s[1..]) + tail)
  {}

  lemma {:induction false} ClosingQuoteFound(s: string, tail: string)
    requires tail == "" || tail[0] != '"'
    ensures ClosingQuote(DoubleQuotes(s) + ("\"" + tail)) == |DoubleQuotes(s)|
  {
    if s == "" {
      assert "" + ("\"" + tail) == "\"" + tail;
    } else {
      hide ClosingQuote;
      ClosingQuoteFound(s[1..], tail);
      QuotesSplit(s, "\"" + tail);
      ClosingQuoteStep(s[0], DoubleQuotes(s[1..]) + ("\"" + tail));
    }
  }

  // A cell known to begin with a quote is read up to its closing quote.
  lemma FirstUpTo(s: string, k: nat, tail: string)
    requires s != "" && s[0] == '"' && k == ClosingQuote(s[1..]) && Drop(s, k + 2) == tail
    ensures First(s) ==
      Step(UndoubleQuotes(s[1..k + 1]), Drop(tail, SeparatorLength(tail)),
      tail != "" && (tail[0] == '\r' || tail[0] == '\n'))
  {
    hide UndoubleQuotes, ClosingQuote, Drop, SeparatorLength;
  }

  lemma CutQuoted(d: string, tail: string)
    ensures var s := "\"" + d + "\"" + tail;
      s[0] == '"' && s[1..] == d + ("\"" + tail) && s[1..|d| + 1] == d && Drop(s, |d| + 2) == tail
  {
    var s := "\"" + d + "\"" + tail;
    assert |s| == |d| + |tail| + 2;
    assert s[1..] == d + ("\"" + tail);
    assert s[1..|d| + 1] == d;
    assert s[|d| + 2..] == tail;
  }

  // A quoted cell is read back, whatever separator follows.
  lemma FirstOfQuoted(cell: string, tail: string)
    requires tail == "" || tail[0] != '"'
    ensures
      var s := Quoted(cell) + tail;
      s != "" && First(s) ==
        Step(cell, Drop(tail, SeparatorLength(tail)), tail != "" && (tail[0] == '\r' || tail[0] == '\n'))
  {
    hide DoubleQuotes, UndoubleQuotes, ClosingQuote, SeparatorLength, Drop, First;
    var d := DoubleQuotes(cell);
    ClosingQuoteFound(cell, tail);
    UndoubleDouble(cell);
    CutQuoted(d, tail);
    FirstUpTo(Quoted(cell) + tail, |d|, tail);
  }

  lemma FirstQuoted(cell: string, tail: string)
    requires NeedsQuotes(cell) && (tail == "" || tail[0] != '"')
    ensures
      var s := FormatValue(cell) + tail;
      s != "" && First(s) ==
        Step(cell, Drop(tail, SeparatorLength(tail)), tail != "" && (tail[0] == '\r' || tail[0] == '\n'))
  {
    hide NeedsQuotes, DoubleQuotes, First, Drop, SeparatorLength;
    FirstOfQuoted(cell, tail);
  }

  // An unquoted cell is read up to its first separator.
  lemma FirstPlain(cell: string, tail: string)
    requires !NeedsQuotes(cell) && (tail == "" || tail[0] == ',' || tail[0] == '\n') && cell + tail != ""
    ensures '\r' !in cell ==>
      First(cell + tail) == Step(cell, Drop(tail, SeparatorLength(tail)), tail != "" && tail[0] == '\n')
    ensures '\r' in cell ==> First(cell + tail).cell != cell
  {
    var s := cell + tail;
    var k := FirstSeparator(s);
    assert forall i :: 0 <= i < |cell| ==> s[i] == cell[i] && cell[i] in cell;
    if '\r' in cell {
      var i :| 0 <= i < |cell| && cell[i] == '\r';
      assert IsSeparator(s[i]) && k <= i;
    } else {
      assert k >= |cell|;
      assert tail != "" ==> s[|cell|] == tail[0] && k == |cell|;
      assert s[..|cell|] == cell && s[|cell|..] == tail;
    }
  }

  // The text behind the first cell.
  function Behind(row: seq<string>, rest: seq<seq<string>>): string
    requires row != []
  {
    if |row| > 1 then "," + Body(row[1..], rest)
    else if rest == [] then ""
    else "\n" + Body(rest[0], rest[1..])
  }

  lemma BodySplits(row: seq<string>, rest: seq<seq<string>>)
    requires row != []
    ensures Body(row, rest) == FormatValue(row[0]) + Behind(row, rest)
  {
    var end := if rest == [] then "" else "\n" + Format(rest);
    if |row| > 1 {
      assert FormatRow(row) + end == FormatValue(row[0]) + ("," + (FormatRow(row[1..]) + end));
    } else if rest == [] {
      assert FormatRow(row) + "" == FormatValue(row[0]) + "";
    } else {
      FormatIsBody(rest);
    }
  }

  lemma FormatIsBody(rows: seq<seq<string>>)
    requires rows != []
    ensures Format(rows) == Body(rows[0], rows[1..])
  {
    if |rows| == 1 {
      assert FormatRow(rows[0]) + "" == FormatRow(rows[0]);
    } else {
      assert FormatRow(rows[0]) + "\n" + Format(rows[1..]) == FormatRow(rows[0]) + ("\n" + Format(rows[1..]));
    }
  }

  // Reading the first cell of a table: it is right exactly if the cell survives and is not an empty end.
  lemma FirstOfBody(row: seq<string>, rest: seq<seq<string>>)
    requires row != [] && Body(row, rest) != ""
    ensures
      var f := First(Body(row, rest));
      var tail := Behind(row, rest);
      && (CellSurvives(row[0]) ==> f == Step(row[0], Drop(tail, 1), tail != "" && tail[0] == '\n'))
      && (!CellSurvives(row[0]) ==> f.cell != row[0])
  {
    BodySplits(row, rest);
    if NeedsQuotes(row[0]) {
      FirstQuoted(row[0], Behind(row, rest));
    } else {
      FirstPlain(row[0], Behind(row, rest));
    }
  }

  lemma NextOfBehind(row: seq<string>, rest: seq<seq<string>>)
    requires row != []
    ensures |row| > 1 ==> Drop(Behind(row, rest), 1) == Body(row[1..], rest) && Behind(row, rest)[0] == ','
    ensures |row| == 1 && rest == [] ==> Drop(Behind(row, rest), 1) == ""
    ensures |row| == 1 && rest != [] ==>
      Drop(Behind(row, rest), 1) == Body(rest[0], rest[1..]) && Behind(row, rest)[0] == '\n'
  {}

  /** A printed table is read back token by token if and only if it is good. */
  lemma {:induction false} TokensIffGood(row: seq<string>, rest: seq<seq<string>>)
    requires row != [] && NoEmptyRow(rest)
    ensures Tokens(Body(row, rest)) == Expected(row, rest) <==> Good(row, rest)
    decreases |rest|, |row|
  {
    var s := Body(row, rest);
    if s == "" {
      EmptyBody(row, rest);
    } else {
      FirstOfBody(row, rest);
      NextOfBehind(row, rest);
      BodySplits(row, rest);
      assert |row| == 1 && rest == [] ==> row[0] != "";
      hide Body, Behind, First, FormatRow, Format, FormatValue, NeedsQuotes, Drop;
      if |row| > 1 {
        TokensIffGood(row[1..], rest);
      } else if rest != [] {
        assert rest[0] != [];
        TokensIffGood(rest[0], rest[1..]);
      }
      TokensStep(s, row, rest);
    }
  }

  lemma EmptyBody(row: seq<string>, rest: seq<seq<string>>)
    requires row != [] && Body(row, rest) == ""
    ensures !Good(row, rest) && Tokens(Body(row, rest)) != Expected(row, rest)
  {
    BodySplits(row, rest);
    assert FormatValue(row[0]) == "" && Behind(row, rest) == "";
    assert |row| == 1 && rest == [] && row[0] == "";
  }

  // The tokens of a text against the tokens of a table, one cell further.
  lemma TokensStep(s: string, row: seq<string>, rest: seq<seq<string>>)
    requires s != "" && row != [] && NoEmptyRow(rest)
    requires
      var f := First(s);
      && (!CellSurvives(row[0]) ==> f.cell != row[0])
      && (CellSurvives(row[0]) ==>
        && f.cell == row[0] && (f.eol <==> |row| == 1 && rest != [])
        && (|row| > 1 ==> (Tokens(f.rest) == Expected(row[1..], rest) <==> Good(row[1..], rest)))
        && (|row| == 1 && rest == [] ==> f.rest == "")
        && (|row| == 1 && rest != [] ==>
          (Tokens(f.rest) == Expected(rest[0], rest[1..]) <==> Good(rest[0], rest[1..]))))
    requires |row| == 1 && rest == [] ==> row[0] != ""
    ensures Tokens(s) == Expected(row, rest) <==> Good(row, rest)
  {
    hide First, CellSurvives;
    var f := First(s);
    ExpectedStep(row, rest);
    ConsEqual(Cell(f.cell), AfterCell(f), Cell(row[0]), AfterExpected(row, rest));
    if CellSurvives(row[0]) { AfterStep(f, row, rest); }
  }

  ghost function AfterExpected(row: seq<string>, rest: seq<seq<string>>): seq<Token>
    requires row != []
  {
    if |row| > 1 then Expected(row[1..], rest)
    else if rest == [] then []
    else [Eol] + Expected(rest[0], rest[1..])
  }

  lemma ExpectedStep(row: seq<string>, rest: seq<seq<string>>)
    requires row != []
    ensures Expected(row, rest) == [Cell(row[0])] + AfterExpected(row, rest)
  {}

  lemma ConsEqual(a: Token, x: seq<Token>, b: Token, y: seq<Token>)
    ensures [a] + x == [b] + y <==> a == b && x == y
  {
    assert ([a] + x)[0] == a && ([a] + x)[1..] == x && ([b] + y)[0] == b && ([b] + y)[1..] == y;
  }

  lemma AfterStep(f: Step, row: seq<string>, rest: seq<seq<string>>)
    requires row != [] && NoEmptyRow(rest) && (f.eol <==> |row| == 1 && rest != [])
    requires |row| > 1 ==> (Tokens(f.rest) == Expected(row[1..], rest) <==> Good(row[1..], rest))
    requires |row| == 1 && rest == [] ==> f.rest == ""
    requires |row| == 1 && rest != [] ==> (Tokens(f.rest) == Expected(rest[0], rest[1..]) <==> Good(rest[0], rest[1..]))
    ensures AfterCell(f) == AfterExpected(row, rest) <==>
      if |row| > 1 then Good(row[1..], rest) else if rest == [] then true else Good(rest[0], rest[1..])
  {
    hide Good, First;
    if |row| > 1 {
      assert AfterCell(f) == Tokens(f.rest);
    } else if rest != [] {
      assert rest[0] != [];
      if f.rest != "" {
        ConsEqual(Eol, Tokens(f.rest), Eol, Expected(rest[0], rest[1..]));
      } else {
        assert AfterCell(f) == [] && Expected(rest[0], rest[1..]) != [];
      }
    }
  }

  lemma RowsFromStep(a: seq<string>, c: string, ts: seq<Token>)
    ensures RowsFrom(a, [Cell(c)] + ts) == RowsFrom(a + [c], ts)
    ensures RowsFrom(a, [Eol] + ts) == [a] + Rows(ts)
  {
    assert ([Cell(c)] + ts)[1..] == ts && ([Eol] + ts)[1..] == ts;
  }

  lemma {:induction false} RowsOfExpected(a: seq<string>, row: seq<string>, rest: seq<seq<string>>)
    requires row != [] && NoEmptyRow(rest)
    ensures RowsFrom(a, Expected(row, rest)) == [a + row] + rest
    decreases |rest|, |row|
  {
    ExpectedStep(row, rest);
    RowsFromStep(a, row[0], AfterExpected(row, rest));
    hide RowsFrom, Rows;
    if |row| > 1 {
      RowsOfExpected(a + [row[0]], row[1..], rest);
      assert a + [row[0]] + row[1..] == a + row;
    } else {
      assert a + [row[0]] == a + row;
      if rest != [] {
        assert rest[0] != [];
        var more := Expected(rest[0], rest[1..]);
        RowsOfExpected([], rest[0], rest[1..]);
        RowsBegin(more);
        RowsFromStep(a + row, "", more);
        assert [] + rest[0] == rest[0];
      } else {
        RowsEnd(a + row);
      }
    }
  }

  lemma RowsEnd(a: seq<string>)
    ensures RowsFrom(a, []) == [a]
  {}

  lemma RowsBegin(ts: seq<Token>)
    requires ts != []
    ensures Rows(ts) == RowsFrom([], ts)
  {
    if ts[0].Cell? { assert [] + [ts[0].text] == [ts[0].text]; }
  }

  /** Whatever the text, its tokens are those of some table without empty rows. */
  lemma {:induction false} TokensAreATable(s: string) returns (row: seq<string>, rest: seq<seq<string>>)
    requires s != ""
    ensures row != [] && NoEmptyRow(rest) && Tokens(s) == Expected(row, rest)
    decreases |s|
  {
    hide First, Tokens, Expected, AfterExpected;
    var f := First(s);
    TokensBegin(s);
    if f.rest == "" {
      row, rest := [f.cell], [];
    } else {
      var r, more := TokensAreATable(f.rest);
      if f.eol {
        row, rest := [f.cell], [r] + more;
        assert rest[0] == r && rest[1..] == more;
      } else {
        row, rest := [f.cell] + r, more;
        assert row[1..] == r;
      }
    }
    ExpectedStep(row, rest);
    AfterExpectedCases(row, rest);
  }

  lemma TokensBegin(s: string)
    requires s != ""
    ensures
      var f := First(s);
      Tokens(s) ==
        [Cell(f.cell)] + (if f.rest == "" then [] else if f.eol then [Eol] + Tokens(f.rest) else Tokens(f.rest))
  {
    hide First;
    assert [] + Tokens(First(s).rest) == Tokens(First(s).rest);
  }

  lemma AfterExpectedCases(row: seq<string>, rest: seq<seq<string>>)
    requires row != []
    ensures AfterExpected(row, rest) ==
      if |row| > 1 then Expected(row[1..], rest) else if rest == [] then [] else [Eol] + Expected(rest[0], rest[1..])
  {}

  /** Reading never yields an empty row. */
  lemma ParseHasNoEmptyRow(text: string)
    ensures NoEmptyRow(Parse(text))
  {
    if text != "" {
      var row, rest := TokensAreATable(text);
      RowsOfExpected([], row, rest);
      RowsBegin(Tokens(text));
      assert [] + row == row;
    }
  }

  /** The tables that survive: no row is empty, a carriage return occurs only in cells that are quoted
      for another reason, and the very last cell is not empty. */
  ghost predicate Survives(rows: seq<seq<string>>) {
    rows == [] || (
      && NoEmptyRow(rows)
      && (forall i, j :: 0 <= i < |rows| && 0 <= j < |rows[i]| ==> CellSurvives(rows[i][j]))
      && var last := rows[|rows| - 1]; last[|last| - 1] != "")
  }

  lemma {:induction false} GoodMeans(row: seq<string>, rest: seq<seq<string>>)
    requires row != [] && NoEmptyRow(rest)
    ensures Good(row, rest) <==> Survives([row] + rest)
    decreases |rest|, |row|
  {
    hide CellSurvives, Survives;
    if |row| > 1 {
      GoodMeans(row[1..], rest);
      SurvivesNextCell(row, rest);
    } else if rest != [] {
      assert rest[0] != [];
      GoodMeans(rest[0], rest[1..]);
      assert [rest[0]] + rest[1..] == rest;
      SurvivesNextRow(row, rest);
    } else {
      SurvivesLast(row);
    }
  }

  lemma SurvivesLast(row: seq<string>)
    requires |row| == 1
    ensures Survives([row] + []) <==> CellSurvives(row[0]) && row[0] != ""
  {
    assert [row] + [] == [row];
  }

  lemma SurvivesNextCell(row: seq<string>, rest: seq<seq<string>>)
    requires |row| > 1 && NoEmptyRow(rest)
    ensures Survives([row] + rest) <==> CellSurvives(row[0]) && Survives([row[1..]] + rest)
  {
    hide CellSurvives;
    var rows, tail := [row] + rest, [row[1..]] + rest;
    if CellSurvives(row[0]) && Survives(tail) {
      forall i, j | 0 <= i < |rows| && 0 <= j < |rows[i]| ensures CellSurvives(rows[i][j]) {
        if i > 0 { assert tail[i] == rows[i]; } else if j > 0 { assert tail[0][j - 1] == rows[0][j]; }
      }
    }
    if Survives(rows) {
      assert rows[0][0] == row[0];
      forall i, j | 0 <= i < |tail| && 0 <= j < |tail[i]| ensures CellSurvives(tail[i][j]) {
        if i > 0 { assert tail[i] == rows[i]; } else { assert tail[0][j] == rows[0][j + 1]; }
      }
    }
  }

  lemma SurvivesNextRow(row: seq<string>, rest: seq<seq<string>>)
    requires |row| == 1 && NoEmptyRow(rest) && rest != []
    ensures Survives([row] + rest) <==> CellSurvives(row[0]) && Survives(rest)
  {
    hide CellSurvives;
    var rows := [row] + rest;
    if CellSurvives(row[0]) && Survives(rest) {
      forall i, j | 0 <= i < |rows| && 0 <= j < |rows[i]| ensures CellSurvives(rows[i][j]) {
        if i > 0 { assert rest[i - 1] == rows[i]; }
      }
    }
    if Survives(rows) {
      assert rows[0][0] == row[0];
      forall i, j | 0 <= i < |rest| && 0 <= j < |rest[i]| ensures CellSurvives(rest[i][j]) {
        assert rest[i] == rows[i + 1];
      }
    }
  }

  /** Printing and reading back gives the same table if and only if the table survives. */
  lemma RoundTripIff(rows: seq<seq<string>>)
    ensures Parse(Format(rows)) == rows <==> Survives(rows)
  {
    if rows != [] {
      FormatIsBody(rows);
      if rows[0] != [] && NoEmptyRow(rows[1..]) {
        TokensIffGood(rows[0], rows[1..]);
        GoodMeans(rows[0], rows[1..]);
        assert [rows[0]] + rows[1..] == rows && [] + rows[0] == rows[0];
        RowsOfExpected([], rows[0], rows[1..]);
        if Survives(rows) { RowsBegin(Expected(rows[0], rows[1..])); }
      }
      hide Body, Good, Survives;
      var text := Format(rows);
      if Parse(text) == rows {
        assert text != "";
        ParseHasNoEmptyRow(text);
        assert forall i :: 0 <= i < |rows| - 1 ==> rows[1..][i] == rows[i + 1];
        var row, rest := TokensAreATable(text);
        RowsOfExpected([], row, rest);
        RowsBegin(Tokens(text));
        assert [] + row == row;
        assert rows[0] == row && rows[1..] == rest;
      }
    }
  }

  /** Three tables that do not survive: a carriage return in a cell without quotes, an empty last cell, an empty
      row. */
  lemma LostTables()
    ensures forall rows :: rows == [["\r"]] || rows == [["a", ""]] || rows == [["a"], []] ==>
      Parse(Format(rows)) != rows
  {
    forall rows | rows == [["\r"]] || rows == [["a", ""]] || rows == [["a"], []] ensures Parse(Format(rows)) != rows {
      RoundTripIff(rows);
      assert !Survives(rows);
    }
  }

  // ---------- other ways to write a table ----------

  // A cell, whether it is quoted, and what stands behind it.
  datatype Field = Field(cell: string, quoted: bool, end: string)

  predicate IsLineEnd(e: string) { e == "\n" || e == "\r" || e == "\r\n" }

  // A cell without quotes has no separators and does not begin with a quote.
  predicate FieldOk(f: Field) {
    && (f.end == "" || f.end == "," || IsLineEnd(f.end))
    && (!f.quoted ==> (forall i :: 0 <= i < |f.cell| ==> !IsSeparator(f.cell[i])) && (f.cell == "" || f.cell[0] != '"'))
  }

  function FieldText(f: Field): string { (if f.quoted then Quoted(f.cell) else f.cell) + f.end }

  function TextOf(fs: seq<Field>): string { if fs == [] then "" else FieldText(fs[0]) + TextOf(fs[1..]) }

  /** Every field but the last has a separator behind it; a carriage return has no line feed behind it that belongs to
      another field; and the last cell is not an empty one without quotes, unless a line end follows. */
  predicate LayoutOk(fs: seq<Field>) {
    fs == [] || (
      && FieldOk(fs[0]) && LayoutOk(fs[1..])
      && if |fs| == 1 then fs[0].end != "," && (fs[0].end == "" ==> fs[0].quoted || fs[0].cell != "")
         else fs[0].end != "" && (fs[0].end == "\r" ==> !("\n" <= TextOf(fs[1..]))))
  }

  // The rows of cells: a row ends where a separator is no comma.
  function Table(fs: seq<Field>): (rows: seq<seq<string>>)
    ensures fs != [] ==> rows != []
  {
    if fs == [] then []
    else if |fs| == 1 || fs[0].end != "," then [[fs[0].cell]] + Table(fs[1..])
    else
      var rows := Table(fs[1..]);
      [[fs[0].cell] + rows[0]] + rows[1..]
  }

  ghost function FieldTokens(fs: seq<Field>): seq<Token> {
    if fs == [] then []
    else [Cell(fs[0].cell)] + (if |fs| > 1 && fs[0].end != "," then [Eol] else []) + FieldTokens(fs[1..])
  }

  // What is behind the separator.
  lemma SeparatorIsDropped(end: string, rest: string)
    requires end == "," || IsLineEnd(end) || (end == "" && rest == "")
    requires end == "\r" ==> !("\n" <= rest)
    ensures Drop(end + rest, SeparatorLength(end + rest)) == rest
  {
    var s := end + rest;
    if end == "" {
      assert s == "";
    } else {
      assert s[|end|..] == rest;
      assert end == "\r" && |s| > 1 ==> rest[0] == s[1] && (s[1] == '\n' ==> "\n" <= rest);
    }
  }

  // A cell without quotes is read up to the separator behind it.
  lemma FirstOfPlain(f: Field, rest: string)
    requires FieldOk(f) && !f.quoted && (f.end == "" ==> rest == "" && f.cell != "")
    ensures
      var tail := f.end + rest;
      First(f.cell + tail) == Step(f.cell, Drop(tail, SeparatorLength(tail)), IsLineEnd(f.end))
  {
    hide SeparatorLength, Drop;
    var tail := f.end + rest;
    var s := f.cell + tail;
    var k := FirstSeparator(s);
    assert forall i :: 0 <= i < |f.cell| ==> s[i] == f.cell[i];
    assert k >= |f.cell|;
    assert tail != "" ==> s[|f.cell|] == tail[0] && tail[0] == f.end[0] && k == |f.cell|;
    assert s[..|f.cell|] == f.cell && s[|f.cell|..] == tail;
    NothingDropped();
  }

  lemma NothingDropped()
    ensures Drop("", SeparatorLength("")) == ""
  {}

  // The first field of a text is read as it is.
  lemma FirstOfField(f: Field, rest: string)
    requires FieldOk(f) && (f.end == "" ==> rest == "" && (f.quoted || f.cell != ""))
    requires f.end == "\r" ==> !("\n" <= rest)
    ensures var s := FieldText(f) + rest; s != "" && First(s) == Step(f.cell, rest, IsLineEnd(f.end))
  {
    hide First, Drop, SeparatorLength, Quoted;
    var tail := f.end + rest;
    SeparatorIsDropped(f.end, rest);
    if f.quoted {
      assert FieldText(f) + rest == Quoted(f.cell) + tail;
      FirstOfQuoted(f.cell, tail);
    } else {
      assert FieldText(f) + rest == f.cell + tail;
      FirstOfPlain(f, rest);
    }
  }

  lemma {:induction false} FieldsAreRead(fs: seq<Field>)
    requires LayoutOk(fs)
    ensures Tokens(TextOf(fs)) == FieldTokens(fs)
    decreases |fs|
  {
    if fs != [] {
      hide First, FieldText, FieldOk;
      var rest := TextOf(fs[1..]);
      LayoutSplits(fs);
      FirstOfField(fs[0], rest);
      TokensBegin(TextOf(fs));
      FieldsAreRead(fs[1..]);
      if |fs| > 1 { TextIsNotEmpty(fs[1..]); }
    }
  }

  lemma LayoutSplits(fs: seq<Field>)
    requires fs != [] && LayoutOk(fs)
    ensures FieldOk(fs[0]) && LayoutOk(fs[1..]) && (fs[0].end == "," <==> !IsLineEnd(fs[0].end) && |fs| > 1)
    ensures fs[0].end == "" ==> |fs| == 1 && TextOf(fs[1..]) == "" && (fs[0].quoted || fs[0].cell != "")
    ensures fs[0].end == "\r" ==> !("\n" <= TextOf(fs[1..]))
  {
    assert |fs| == 1 ==> fs[1..] == [];
  }

  lemma TextIsNotEmpty(fs: seq<Field>)
    requires fs != [] && LayoutOk(fs)
    ensures TextOf(fs) != ""
  {
    hide First;
    LayoutSplits(fs);
    FirstOfField(fs[0], TextOf(fs[1..]));
  }

  lemma {:induction false} FieldRows(a: seq<string>, fs: seq<Field>)
    requires fs != []
    ensures RowsFrom(a, FieldTokens(fs)) == [a + Table(fs)[0]] + Table(fs)[1..]
    decreases |fs|
  {
    hide RowsFrom, Rows;
    var c, more := fs[0].cell, fs[1..];
    if |fs| == 1 {
      assert FieldTokens(fs) == [Cell(c)] + [] && Table(fs) == [[c]];
      RowsFromStep(a, c, []);
      RowsEnd(a + [c]);
    } else if fs[0].end == "," {
      assert FieldTokens(fs) == [Cell(c)] + FieldTokens(more);
      RowsFromStep(a, c, FieldTokens(more));
      FieldRows(a + [c], more);
      assert a + [c] + Table(more)[0] == a + ([c] + Table(more)[0]);
    } else {
      assert FieldTokens(fs) == [Cell(c)] + ([Eol] + FieldTokens(more));
      RowsFromStep(a, c, [Eol] + FieldTokens(more));
      RowsFromStep(a + [c], "", FieldTokens(more));
      FieldRows([], more);
      RowsBegin(FieldTokens(more));
      assert [] + Table(more)[0] == Table(more)[0] && [Table(more)[0]] + Table(more)[1..] == Table(more);
    }
  }

  /** However a table is written, with quotes or without where they are not needed, with any line ends, and with one at
      the end or not, it is read as that table. */
  lemma AnyLayoutIsRead(fs: seq<Field>)
    requires LayoutOk(fs)
    ensures Parse(TextOf(fs)) == Table(fs)
  {
    hide RowsFrom, First;
    FieldsAreRead(fs);
    if fs != [] {
      FieldRows([], fs);
      RowsBegin(FieldTokens(fs));
      assert [] + Table(fs)[0] == Table(fs)[0] && [Table(fs)[0]] + Table(fs)[1..] == Table(fs);
    } else {
      NoRows();
    }
  }

  // The printer with another line end.
  function FormatWith(rows: seq<seq<string>>, e: string): string {
    if rows == [] then ""
    else if |rows| == 1 then FormatRow(rows[0])
    else FormatRow(rows[0]) + e + FormatWith(rows[1..], e)
  }

  // The fields of a table as the printer writes them: row is what is left of the current row.
  ghost function FieldsOf(row: seq<string>, rest: seq<seq<string>>, e: string): seq<Field>
    requires row != [] && NoEmptyRow(rest)
    decreases |rest|, |row|
  {
    if |row| > 1 then [Field(row[0], NeedsQuotes(row[0]), ",")] + FieldsOf(row[1..], rest, e)
    else if rest == [] then [Field(row[0], NeedsQuotes(row[0]), "")]
    else [Field(row[0], NeedsQuotes(row[0]), e)] + FieldsOf(rest[0], rest[1..], e)
  }

  lemma {:induction false} FieldsOfTable(row: seq<string>, rest: seq<seq<string>>, e: string)
    requires row != [] && NoEmptyRow(rest) && IsLineEnd(e)
    ensures Table(FieldsOf(row, rest, e)) == [row] + rest
    decreases |rest|, |row|
  {
    if |row| > 1 {
      FieldsOfTable(row[1..], rest, e);
      FieldsNext(row, rest, e);
      assert [row[0]] + row[1..] == row;
      assert ([row[1..]] + rest)[1..] == rest;
    } else if rest != [] {
      FieldsOfTable(rest[0], rest[1..], e);
      FieldsNext(row, rest, e);
      assert [rest[0]] + rest[1..] == rest && [row[0]] == row;
    } else {
      assert [row[0]] == row && FieldsOf(row, rest, e)[1..] == [];
    }
  }

  lemma FieldsNext(row: seq<string>, rest: seq<seq<string>>, e: string)
    requires row != [] && NoEmptyRow(rest)
    ensures FieldsOf(row, rest, e) != []
    ensures |row| > 1 ==>
      var fs := FieldsOf(row, rest, e);
      fs[0] == Field(row[0], NeedsQuotes(row[0]), ",") && fs[1..] == FieldsOf(row[1..], rest, e) && |fs| > 1
    ensures |row| == 1 && rest != [] ==>
      var fs := FieldsOf(row, rest, e);
      fs[0] == Field(row[0], NeedsQuotes(row[0]), e) && fs[1..] == FieldsOf(rest[0], rest[1..], e) && |fs| > 1
  {
    if |row| > 1 {
      assert FieldsOf(row[1..], rest, e) != [];
    } else if rest != [] {
      assert FieldsOf(rest[0], rest[1..], e) != [];
    }
  }

  lemma {:induction false} FieldsOfText(row: seq<string>, rest: seq<seq<string>>, e: string)
    requires row != [] && NoEmptyRow(rest)
    ensures TextOf(FieldsOf(row, rest, e)) == FormatRow(row) + if rest == [] then "" else e + FormatWith(rest, e)
    decreases |rest|, |row|
  {
    hide NeedsQuotes, Quoted, FieldsOf;
    FieldsNext(row, rest, e);
    var tail := if rest == [] then "" else e + FormatWith(rest, e);
    if |row| > 1 {
      FieldsOfText(row[1..], rest, e);
      assert FormatValue(row[0]) + "," + (FormatRow(row[1..]) + tail) == FormatRow(row) + tail;
    } else if rest != [] {
      FieldsOfText(rest[0], rest[1..], e);
      FormatWithSplits(rest, e);
      assert FormatRow(row) + e + FormatWith(rest, e) == FormatRow(row) + tail;
    } else {
      LastField(row, e);
    }
  }

  lemma LastField(row: seq<string>, e: string)
    requires |row| == 1
    ensures TextOf(FieldsOf(row, [], e)) == FormatRow(row) + ""
  {
    assert FieldsOf(row, [], e)[1..] == [];
  }

  lemma FormatWithSplits(rows: seq<seq<string>>, e: string)
    requires rows != []
    ensures FormatWith(rows, e) ==
      FormatRow(rows[0]) + if rows[1..] == [] then "" else e + FormatWith(rows[1..], e)
  {}

  lemma {:induction false} FieldsOfLayout(row: seq<string>, rest: seq<seq<string>>, e: string)
    requires row != [] && NoEmptyRow(rest) && IsLineEnd(e) && Good(row, rest)
    ensures LayoutOk(FieldsOf(row, rest, e))
    ensures !("\n" <= TextOf(FieldsOf(row, rest, e))) || e == "\n"
    decreases |rest|, |row|
  {
    FieldsNext(row, rest, e);
    PlainField(row[0], if |row| > 1 then "," else if rest == [] then "" else e);
    if |row| > 1 {
      FieldsOfLayout(row[1..], rest, e);
    } else if rest != [] {
      FieldsOfLayout(rest[0], rest[1..], e);
    }
    hide FieldOk, NeedsQuotes;
    var fs := FieldsOf(row, rest, e);
    assert |row| == 1 && rest == [] ==> fs == [fs[0]] && fs[1..] == [];
    StartsOff(fs[0], TextOf(fs[1..]));
  }

  lemma PlainField(cell: string, end: string)
    requires CellSurvives(cell) && (end == "" || end == "," || IsLineEnd(end))
    ensures FieldOk(Field(cell, NeedsQuotes(cell), end))
  {
    assert forall i :: 0 <= i < |cell| ==> cell[i] in cell;
  }

  // A text that begins with a field begins with a line feed only if the field is empty and a line feed ends it.
  lemma StartsOff(f: Field, rest: string)
    requires FieldOk(f) && (f.end == "" ==> rest == "")
    ensures "\n" <= FieldText(f) + rest ==> f.end == "\n"
  {
    var s := FieldText(f) + rest;
    assert f.quoted ==> s[0] == '"';
    assert !f.quoted && f.cell != "" ==> s[0] == f.cell[0];
    assert !f.quoted && f.cell == "" && f.end != "" ==> s[0] == f.end[0];
  }

  /** A table that survives is read back with each of the three line ends between its rows. */
  lemma LineEndsAreRead(rows: seq<seq<string>>, e: string)
    requires IsLineEnd(e) && Survives(rows)
    ensures Parse(FormatWith(rows, e)) == rows
  {
    if rows != [] {
      var row, rest := rows[0], rows[1..];
      assert [row] + rest == rows && row != [] && NoEmptyRow(rest);
      GoodMeans(row, rest);
      hide Survives, Good, NoEmptyRow;
      FieldsOfLayout(row, rest, e);
      FieldsOfTable(row, rest, e);
      FieldsOfText(row, rest, e);
      FormatWithSplits(rows, e);
      AnyLayoutIsRead(FieldsOf(row, rest, e));
    }
  }

  // ---------- the reader ----------

  class Reader {
    const text: string
    var lastIndex: nat
    var eol: bool

    constructor (text: string)
      ensures this.text == text && Remaining() == Tokens(text)
    {
      this.text, lastIndex, eol := text, 0, false;
    }

    ghost function Remaining(): seq<Token>
      reads this
    {
      var rest := Drop(text, lastIndex);
      if rest == "" then [] else (if eol then [Eol] else []) + Tokens(rest)
    }

    // The index of the quote that closes the one at j, or one past the end of the text.
    method ScanQuoted(j: nat) returns (i: nat)
      requires j < |text| && text[j] == '"'
      ensures j < i && (i < |text| || i == |text| + 1)
      ensures ClosingQuote(text[j + 1..]) == (if i < |text| then i else |text|) - (j + 1)
    {
      i := j;
      while true
        invariant j <= i <= |text|
        invariant i < |text| ==> ClosingQuote(text[j + 1..]) == i - j + ClosingQuote(text[i + 1..])
        invariant i == |text| ==> ClosingQuote(text[j + 1..]) == |text| - (j + 1)
        decreases |text| - i
      {
        var more := i < |text|;
        i := i + 1;
        if !more {
          break;
        }
        if i < |text| {
          assert text[i..][1..] == text[i + 1..];
          if text[i] == '"' {
            if !(i + 1 < |text| && text[i + 1] == '"') {
              break;
            }
            assert text[i..][2..] == text[i + 2..];
            i := i + 1;
          }
        }
      }
    }

    // The special case of token() for quotes.
    method QuotedCell() returns (cell: string)
      requires lastIndex < |text| && text[lastIndex] == '"' && !eol
      modifies this
      ensures First(text[old(lastIndex)..]) == Step(cell, Drop(text, lastIndex), eol)
    {
      hide First, UndoubleQuotes, Drop, ClosingQuote, SeparatorLength;
      var j := lastIndex;
      var i := ScanQuoted(j);
      QuotedStep(text, j, i);
      lastIndex := i + 2;
      if i + 1 < |text| && text[i + 1] == '\r' {
        eol := true;
        if i + 2 < |text| && text[i + 2] == '\n' {
          lastIndex := lastIndex + 1;
        }
      } else if i + 1 < |text| && text[i + 1] == '\n' {
        eol := true;
      }
      cell := UndoubleQuotes(text[j + 1..if i <= |text| then i else |text|]);
    }

    // The common case of token().
    method PlainCell() returns (cell: string)
      requires lastIndex < |text| && text[lastIndex] != '"' && !eol
      modifies this
      ensures First(text[old(lastIndex)..]) == Step(cell, Drop(text, lastIndex), eol)
    {
      var j := lastIndex;
      var k := FirstSeparator(text[j..]);
      if j + k < |text| {
        eol := text[j + k] != ',';
        cell := text[j..j + k];
        lastIndex := j + k + SeparatorLength(text[j + k..]);
        assert text[j..][k..] == text[j + k..];
      } else {
        lastIndex := |text|;
        cell := text[j..];
      }
    }

    /** token(): the next token, None at the end of the text. */
    method NextToken() returns (t: Option<Token>)
      modifies this
      ensures old(Remaining()) == [] ==> t == None && Remaining() == []
      ensures old(Remaining()) != [] ==> t == Some(old(Remaining())[0]) && Remaining() == old(Remaining())[1..]
    {
      hide First, FirstSeparator, SeparatorLength, UndoubleQuotes, ClosingQuote;
      if lastIndex >= |text| {
        return None;
      }
      assert Drop(text, lastIndex) == text[lastIndex..] != "";
      if eol {
        eol := false;
        return Some(Eol);
      }
      var cell: string;
      if text[lastIndex] == '"' {
        cell := QuotedCell();
      } else {
        cell := PlainCell();
      }
      hide First;
      TokensBegin(text[old(lastIndex)..]);
      return Some(Cell(cell));
    }
  }

  // The step over a quoted cell in terms of the whole text.
  lemma QuotedStep(text: string, j: nat, i: nat)
    requires j < |text| && text[j] == '"' && j < i && (i < |text| || i == |text| + 1)
    requires ClosingQuote(text[j + 1..]) == (if i < |text| then i else |text|) - (j + 1)
    ensures
      var f := First(text[j..]);
      var ended := i + 1 < |text| && (text[i + 1] == '\r' || text[i + 1] == '\n');
      var both := i + 2 < |text| && text[i + 1] == '\r' && text[i + 2] == '\n';
      && f.cell == UndoubleQuotes(text[j + 1..if i <= |text| then i else |text|])
      && f.rest == Drop(text, if both then i + 3 else i + 2) && f.eol == ended
  {
    hide ClosingQuote, UndoubleQuotes;
    var s := text[j..];
    assert s[1..] == text[j + 1..];
    var k := ClosingQuote(s[1..]);
    assert s[1..k + 1] == text[j + 1..if i <= |text| then i else |text|];
    assert Drop(s, k + 2) == Drop(text, i + 1);
  }

  // The inner loop of parseRows: the cells up to the end of the line or of the text.
  method ReadRow(re: Reader, first: Token) returns (a: seq<string>)
    modifies re
    ensures RowsFrom([], [first] + old(re.Remaining())) == [a] + Rows(re.Remaining())
    ensures |re.Remaining()| <= |old(re.Remaining())|
  {
    hide RowsFrom, Rows, Tokens, First, Drop;
    ghost var all := RowsFrom([], [first] + re.Remaining());
    ghost var size := |re.Remaining()|;
    var t := Some(first);
    a := [];
    while t != Some(Eol) && t != None
      invariant t.Some? ==> RowsFrom(a, [t.value] + re.Remaining()) == all
      invariant t == None ==> re.Remaining() == [] && RowsFrom(a, []) == all
      invariant |re.Remaining()| <= size
      decreases |re.Remaining()| + (if t == None then 0 else 1)
    {
      RowsFromStep(a, t.value.text, re.Remaining());
      a := a + [t.value.text];
      ghost var ts := re.Remaining();
      t := re.NextToken();
      assert t.Some? ==> ts == [t.value] + re.Remaining();
    }
    RowsFromStep(a, "", re.Remaining());
    RowsEnd(a);
    NoRows();
  }

  lemma NoRows()
    ensures Rows([]) == []
  {}

  // The rows that a token and those behind it make.
  ghost function RowsOf(t: Option<Token>, behind: seq<Token>): seq<seq<string>> {
    if t.Some? then Rows([t.value] + behind) else []
  }

  lemma RowsOfBegin(first: Token, behind: seq<Token>, a: seq<string>, rest: seq<Token>)
    requires RowsFrom([], [first] + behind) == [a] + Rows(rest)
    ensures RowsOf(Some(first), behind) == [a] + Rows(rest)
  {
    RowsBegin([first] + behind);
  }

  lemma RowsOfNext(ts: seq<Token>, t: Option<Token>, behind: seq<Token>)
    requires if t.Some? then ts == [t.value] + behind else ts == []
    ensures RowsOf(t, behind) == Rows(ts)
  {}

  /** d3.csv.parseRows without a row function. */
  method ParseRows(text: string) returns (rows: seq<seq<string>>)
    ensures rows == Parse(text)
  {
    hide RowsFrom, Rows, RowsOf, Tokens, First, Drop;
    var re := new Reader(text);
    ghost var ts := re.Remaining();
    rows := [];
    var t := re.NextToken();
    assert if t.Some? then ts == [t.value] + re.Remaining() else ts == [];
    RowsOfNext(ts, t, re.Remaining());
    while t != None
      invariant rows + RowsOf(t, re.Remaining()) == Parse(text)
      decreases |re.Remaining()| + (if t == None then 0 else 1)
    {
      ghost var behind := re.Remaining();
      var a := ReadRow(re, t.value);
      ts := re.Remaining();
      RowsOfBegin(t.value, behind, a, ts);
      t := re.NextToken();
      assert if t.Some? then ts == [t.value] + re.Remaining() else ts == [];
      RowsOfNext(ts, t, re.Remaining());
      assert rows + ([a] + Rows(ts)) == rows + [a] + Rows(ts);
      rows := rows + [a];
    }
    NothingLeft(re.Remaining());
    assert rows + [] == rows;
  }

  lemma NothingLeft(behind: seq<Token>)
    ensures RowsOf(None, behind) == []
  {}

  /** d3.csv.format, and d3.csv.parseRows on what it prints. */
  method PrintAndRead(rows: seq<seq<string>>) returns (again: seq<seq<string>>)
    ensures again == rows <==> Survives(rows)
  {
    RoundTripIff(rows);
    again := ParseRows(Format(rows));
  }
}
