/** The row interpreter: reads every row of every table as the columns
    (x text, character text, y text), skips short rows, header rows and rows
    whose coordinates do not parse, and collects the remaining rows as
    entries together with the running maxima of x and y. */
module RowInterpreter {
  import opened Wrappers
  import opened Seqs
  import opened IntParse

  /** The trimmed texts of one table row's cells, in column order. */
  type Row = seq<string>

  type Table = seq<Row>

  /** One data point: the character cell's text (any length) at (x, y). */
  datatype Entry = Entry(ch: string, x: int, y: int)

  datatype Axis = X | Y

  function Coord(e: Entry, a: Axis): int {
    match a
    case X => e.x
    case Y => e.y
  }

  function Max(a: int, b: int): int {
    if a >= b then a else b
  }

  /** What the loop does with one row. */
  datatype Verdict = TooShort | Header | BadCoordinate | Accepted(entry: Entry)

  /** Python's `str.lower` on one character, restricted to ASCII letters.
      No non-ASCII character lowers to `x` or `y`, so the header test below
      is unaffected by the restriction. */
  function LowerChar(c: char): char {
    if 'A' <= c <= 'Z' then (c as int + 32) as char else c
  }

  function Lower(s: string): (r: string)
    ensures |r| == |s|
    ensures forall i :: 0 <= i < |s| ==> r[i] == LowerChar(s[i])
  {
    seq(|s|, i requires 0 <= i < |s| => LowerChar(s[i]))
  }

  /** A lower-case letter occurs in the lowered text exactly when the letter
      occurs in the text in either case. */
  lemma LowerMentions(s: string, lower: char, upper: char)
    requires 'a' <= lower <= 'z' && upper as int == lower as int - 32
    ensures lower in Lower(s) <==> lower in s || upper in s
  {
    var t := Lower(s);
    if lower in t {
      var i :| 0 <= i < |t| && t[i] == lower;
      assert s[i] == lower || s[i] == upper;
    }
    if lower in s {
      var i :| 0 <= i < |s| && s[i] == lower;
      assert t[i] == lower;
    }
    if upper in s {
      var i :| 0 <= i < |s| && s[i] == upper;
      assert t[i] == lower;
    }
  }

  /** The verdict on the row at position `idx` of its table. */
  function Classify(cells: Row, idx: nat): (v: Verdict)
    ensures v == TooShort <==> |cells| < 3
    ensures v == Header <==>
      && |cells| >= 3
      && idx == 0
      && ('x' in cells[0] || 'X' in cells[0] || 'y' in cells[2] || 'Y' in cells[2])
    ensures v.Accepted? <==>
      && |cells| >= 3
      && !(idx == 0 && ('x' in cells[0] || 'X' in cells[0] || 'y' in cells[2] || 'Y' in cells[2]))
      && IsIntLiteral(cells[0])
      && IsIntLiteral(cells[2])
    ensures v.Accepted? ==>
      && v.entry.ch == cells[1]
      && ParseInt(cells[0]) == Some(v.entry.x)
      && ParseInt(cells[2]) == Some(v.entry.y)
  {
    if |cells| < 3 then
      TooShort
    else
      var xText, chText, yText := cells[0], cells[1], cells[2];
      LowerMentions(xText, 'x', 'X');
      LowerMentions(yText, 'y', 'Y');
      if idx == 0 && ('x' in Lower(xText) || 'y' in Lower(yText)) then
        Header
      else
        match (ParseInt(xText), ParseInt(yText))
        case (Some(x), Some(y)) => Accepted(Entry(chText, x, y))
        case _ => BadCoordinate
  }

  // ---------------------------------------------------------------------
  // The loop, as a left fold over tables and their rows.

  /** The loop's state: the collected entries and the running maxima. */
  datatype Scan = Scan(data: seq<Entry>, maxX: int, maxY: int)

  /** Both maxima start at 0 and no entry has been collected. */
  const Start := Scan([], 0, 0)

  /** One row's effect on the state. */
  function Absorb(s: Scan, v: Verdict): (r: Scan)
    ensures v.Accepted? ==> r.data == s.data + [v.entry]
    ensures !v.Accepted? ==> r == s
    ensures r.maxX >= s.maxX && r.maxY >= s.maxY
    ensures v.Accepted? ==> r.maxX >= v.entry.x && r.maxY >= v.entry.y
  {
    match v
    case Accepted(e) => Scan(s.data + [e], Max(s.maxX, e.x), Max(s.maxY, e.y))
    case _ => s
  }

  /** The inner loop: the rows of one table, indexed from 0. */
  function ScanRows(s: Scan, rows: Table): Scan
  {
    if |rows| == 0 then s
    else
      var n := |rows| - 1;
      Absorb(ScanRows(s, rows[..n]), Classify(rows[n], n))
  }

  /** The outer loop: the tables in document order, sharing one state. */
  function ScanTables(s: Scan, tables: seq<Table>): Scan
  {
    if |tables| == 0 then s
    else
      var n := |tables| - 1;
      ScanRows(ScanTables(s, tables[..n]), tables[n])
  }

  // ---------------------------------------------------------------------
  // A reference description of the result, without a running state.

  /** The entries a verdict contributes: one when accepted, none otherwise. */
  function VerdictEntries(v: Verdict): seq<Entry> {
    match v
    case Accepted(e) => [e]
    case _ => []
  }

  function RowEntries(cells: Row, idx: nat): seq<Entry> {
    VerdictEntries(Classify(cells, idx))
  }

  function RowEntryLists(rows: Table): (r: seq<seq<Entry>>)
    ensures |r| == |rows|
    ensures forall i :: 0 <= i < |rows| ==> r[i] == RowEntries(rows[i], i)
  {
    seq(|rows|, i requires 0 <= i < |rows| => RowEntries(rows[i], i))
  }

  /** A table's entries, in row order. */
  function TableEntries(rows: Table): seq<Entry> {
    Flatten(RowEntryLists(rows))
  }

  function TableEntryLists(tables: seq<Table>): (r: seq<seq<Entry>>)
    ensures |r| == |tables|
    ensures forall k :: 0 <= k < |tables| ==> r[k] == TableEntries(tables[k])
  {
    seq(|tables|, k requires 0 <= k < |tables| => TableEntries(tables[k]))
  }

  /** All entries: table order first, then row order, duplicates kept. */
  function AllEntries(tables: seq<Table>): seq<Entry> {
    Flatten(TableEntryLists(tables))
  }

  /** The largest coordinate on an axis, or 0 when that is larger. */
  function MaxCoord(es: seq<Entry>, a: Axis): (m: int)
    ensures m >= 0
    ensures forall i :: 0 <= i < |es| ==> Coord(es[i], a) <= m
    ensures m == 0 || exists i :: 0 <= i < |es| && Coord(es[i], a) == m
  {
    if |es| == 0 then 0
    else
      var n := |es| - 1;
      var m := MaxCoord(es[..n], a);
      if m >= Coord(es[n], a) then
        assert forall i :: 0 <= i < n ==> es[..n][i] == es[i];
        m
      else
        Coord(es[n], a)
  }

  lemma {:induction false} MaxCoordAppend(a: seq<Entry>, b: seq<Entry>, ax: Axis)
    ensures MaxCoord(a + b, ax) == Max(MaxCoord(a, ax), MaxCoord(b, ax))
  {
    if |b| == 0 {
      assert a + b == a;
    } else {
      var n := |b| - 1;
      assert (a + b)[..|a + b| - 1] == a + b[..n];
      MaxCoordAppend(a, b[..n], ax);
    }
  }

  lemma TableEntriesSnoc(rows: Table)
    requires |rows| > 0
    ensures TableEntries(rows) == TableEntries(rows[..|rows| - 1]) + RowEntries(rows[|rows| - 1], |rows| - 1)
  {
    var n := |rows| - 1;
    assert RowEntryLists(rows) == RowEntryLists(rows[..n]) + [RowEntries(rows[n], n)];
    FlattenSnoc(RowEntryLists(rows[..n]), RowEntries(rows[n], n));
  }

  lemma AllEntriesSnoc(tables: seq<Table>)
    requires |tables| > 0
    ensures AllEntries(tables) == AllEntries(tables[..|tables| - 1]) + TableEntries(tables[|tables| - 1])
  {
    var n := |tables| - 1;
    assert TableEntryLists(tables) == TableEntryLists(tables[..n]) + [TableEntries(tables[n])];
    FlattenSnoc(TableEntryLists(tables[..n]), TableEntries(tables[n]));
  }

  /** One step of the loop appends the verdict's entries and raises each
      maximum to theirs. */
  lemma AbsorbMeetsReference(s: Scan, v: Verdict)
    requires s.maxX >= 0 && s.maxY >= 0
    ensures Absorb(s, v) == Extend(s, VerdictEntries(v))
  {
    if v.Accepted? {
      var es := VerdictEntries(v);
      assert es[..0] == [];
    } else {
      assert s.data + [] == s.data;
    }
  }

  /** The state reached from `s` after appending `es`, judged without the loop. */
  function Extend(s: Scan, es: seq<Entry>): Scan {
    Scan(s.data + es, Max(s.maxX, MaxCoord(es, X)), Max(s.maxY, MaxCoord(es, Y)))
  }

  /** Appending two batches one after the other is appending their concatenation. */
  lemma ExtendTwice(s: Scan, a: seq<Entry>, b: seq<Entry>)
    ensures Extend(Extend(s, a), b) == Extend(s, a + b)
  {
    assert s.data + a + b == s.data + (a + b);
    MaxCoordAppend(a, b, X);
    MaxCoordAppend(a, b, Y);
  }

  /** The inner loop appends exactly the table's entries and raises each
      maximum to the table's largest coordinate. */
  lemma {:induction false} ScanRowsMeetsReference(s: Scan, rows: Table)
    requires s.maxX >= 0 && s.maxY >= 0
    ensures ScanRows(s, rows) == Extend(s, TableEntries(rows))
  {
    if |rows| == 0 {
      assert TableEntries(rows) == [];
      assert s.data + [] == s.data;
    } else {
      var n := |rows| - 1;
      var mid := ScanRows(s, rows[..n]);
      var v := Classify(rows[n], n);
      ScanRowsMeetsReference(s, rows[..n]);
      AbsorbMeetsReference(mid, v);
      TableEntriesSnoc(rows);
      ExtendTwice(s, TableEntries(rows[..n]), VerdictEntries(v));
    }
  }

  lemma {:induction false} ScanTablesMeetsReference(s: Scan, tables: seq<Table>)
    requires s.maxX >= 0 && s.maxY >= 0
    ensures ScanTables(s, tables) == Extend(s, AllEntries(tables))
  {
    if |tables| == 0 {
      assert AllEntries(tables) == [];
      assert s.data + [] == s.data;
    } else {
      var n := |tables| - 1;
      var mid := ScanTables(s, tables[..n]);
      ScanTablesMeetsReference(s, tables[..n]);
      ScanRowsMeetsReference(mid, tables[n]);
      AllEntriesSnoc(tables);
      ExtendTwice(s, AllEntries(tables[..n]), TableEntries(tables[n]));
    }
  }

  /** The bounds of `MaxCoord` spelled out on the entries' fields. */
  lemma MaxCoordNamesEntry(es: seq<Entry>)
    ensures forall i :: 0 <= i < |es| ==> es[i].x <= MaxCoord(es, X) && es[i].y <= MaxCoord(es, Y)
    ensures MaxCoord(es, X) == 0 || exists i :: 0 <= i < |es| && es[i].x == MaxCoord(es, X)
    ensures MaxCoord(es, Y) == 0 || exists i :: 0 <= i < |es| && es[i].y == MaxCoord(es, Y)
  {
    assert forall i :: 0 <= i < |es| ==> Coord(es[i], X) == es[i].x && Coord(es[i], Y) == es[i].y;
  }

  /** The whole loop of the program, from the initial state: the entries in
      table-then-row order, and maxima that are at least 0, bound every
      entry, and are 0 or attained by some entry. */
  function Interpret(tables: seq<Table>): (r: Scan)
    ensures r.data == AllEntries(tables)
    ensures r.maxX == MaxCoord(r.data, X) && r.maxY == MaxCoord(r.data, Y)
    ensures r.maxX >= 0 && r.maxY >= 0
    ensures forall i :: 0 <= i < |r.data| ==> r.data[i].x <= r.maxX && r.data[i].y <= r.maxY
    ensures r.maxX == 0 || exists i :: 0 <= i < |r.data| && r.data[i].x == r.maxX
    ensures r.maxY == 0 || exists i :: 0 <= i < |r.data| && r.data[i].y == r.maxY
  {
    var es := AllEntries(tables);
    ScanTablesMeetsReference(Start, tables);
    assert [] + es == es;
    MaxCoordNamesEntry(es);
    ScanTables(Start, tables)
  }

  /** The reference entries of a concatenation of table lists are the
      concatenation of the parts' entries, with the larger maxima. */
  lemma AllEntriesAppend(a: seq<Table>, b: seq<Table>)
    ensures AllEntries(a + b) == AllEntries(a) + AllEntries(b)
    ensures MaxCoord(AllEntries(a + b), X) == Max(MaxCoord(AllEntries(a), X), MaxCoord(AllEntries(b), X))
    ensures MaxCoord(AllEntries(a + b), Y) == Max(MaxCoord(AllEntries(a), Y), MaxCoord(AllEntries(b), Y))
  {
    assert TableEntryLists(a + b) == TableEntryLists(a) + TableEntryLists(b);
    FlattenAppend(TableEntryLists(a), TableEntryLists(b));
    MaxCoordAppend(AllEntries(a), AllEntries(b), X);
    MaxCoordAppend(AllEntries(a), AllEntries(b), Y);
  }

  /** Processing more tables only appends entries and never lowers a bound:
      interpreting a concatenation of table lists is the concatenation of the
      parts, with the larger maxima. */
  lemma InterpretAppend(a: seq<Table>, b: seq<Table>)
    ensures Interpret(a + b).data == Interpret(a).data + Interpret(b).data
    ensures Interpret(a + b).maxX == Max(Interpret(a).maxX, Interpret(b).maxX)
    ensures Interpret(a + b).maxY == Max(Interpret(a).maxY, Interpret(b).maxY)
  {
    var ra, rb, rab := Interpret(a), Interpret(b), Interpret(a + b);
    assert ra.data == AllEntries(a) && rb.data == AllEntries(b) && rab.data == AllEntries(a + b);
    AllEntriesAppend(a, b);
  }

  /** A short row still takes its index: when row 0 has fewer than three
      cells, no row of the table is tested as a header. */
  lemma ShortFirstRowTakesHeaderIndex(rows: Table)
    requires |rows| > 0 && |rows[0]| < 3
    ensures forall i :: 0 <= i < |rows| ==> Classify(rows[i], i) != Header
  {
  }

  /** The header test changes no entry: a coordinate text holding `x`, `X`,
      `y` or `Y` never parses as an integer, so a header-like first row would
      be rejected by the coordinate parse anyway. Only the diagnostic differs. */
  lemma HeaderTestChangesNoEntry(cells: Row)
    ensures RowEntries(cells, 0) == RowEntries(cells, 1)
  {
    if |cells| >= 3 {
      if 'x' in cells[0] {
        var i :| 0 <= i < |cells[0]| && cells[0][i] == 'x';
        ParseRejectsForeignChar(cells[0], i);
      } else if 'X' in cells[0] {
        var i :| 0 <= i < |cells[0]| && cells[0][i] == 'X';
        ParseRejectsForeignChar(cells[0], i);
      } else if 'y' in cells[2] {
        var i :| 0 <= i < |cells[2]| && cells[2][i] == 'y';
        ParseRejectsForeignChar(cells[2], i);
      } else if 'Y' in cells[2] {
        var i :| 0 <= i < |cells[2]| && cells[2][i] == 'Y';
        ParseRejectsForeignChar(cells[2], i);
      }
    }
  }
}
