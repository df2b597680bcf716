/** The pure part of `print_grid_from_google_doc`: the tables found in the
    document go through the row interpreter, and the renderer runs only when
    at least one entry was accepted. */
module Pipeline {
  import opened Wrappers
  import opened Seqs
  import opened IntParse
  import opened RowInterpreter
  import opened GridRenderer

  /** How a run ends: no table at all, no usable row, or the two renderings. */
  datatype Report = NoTables | NoValidData | Drawn(rendering: Rendering)

  function Run(tables: seq<Table>): (r: Report)
    ensures r == NoTables <==> |tables| == 0
    ensures r == NoValidData <==> |tables| > 0 && AllEntries(tables) == []
    ensures r.Drawn? ==>
      var es := AllEntries(tables);
      && |es| > 0
      && r.rendering == Render(es, MaxCoord(es, X), MaxCoord(es, Y))
  {
    if |tables| == 0 then
      NoTables
    else
      var s := Interpret(tables);
      if |s.data| == 0 then NoValidData else Drawn(Render(s.data, s.maxX, s.maxY))
  }

  /** Every accepted entry with non-negative coordinates lies inside the
      grid, and the last one at each position is what that cell shows. */
  lemma LastEntryShows(tables: seq<Table>, i: nat)
    requires i < |Interpret(tables).data|
    requires Interpret(tables).data[i].x >= 0 && Interpret(tables).data[i].y >= 0
    requires forall j :: i < j < |Interpret(tables).data| ==>
      !At(Interpret(tables).data[j], Interpret(tables).data[i].x, Interpret(tables).data[i].y)
    ensures InBounds(Interpret(tables).data[i], Interpret(tables).maxX, Interpret(tables).maxY)
    ensures
      var s := Interpret(tables);
      BuildGrid(s.data, s.maxX, s.maxY)[s.data[i].y][s.data[i].x] == s.data[i].ch
  {
    var s := Interpret(tables);
    var e := s.data[i];
    var l := LastAt(s.data, e.x, e.y);
    assert At(s.data[i], e.x, e.y);
    var k :| 0 <= k < |s.data| && At(s.data[k], e.x, e.y) && s.data[k].ch == l.value
             && forall j :: k < j < |s.data| ==> !At(s.data[j], e.x, e.y);
    assert k == i;
  }

  /** A worked example: a header row and the rows
      ("0", "A", "0"), ("1", "B", "0"), ("0", "C", "1"). */
  const ExampleTable: Table := [["x", "char", "y"], ["0", "A", "0"], ["1", "B", "0"], ["0", "C", "1"]]

  const ExampleData := [Entry("A", 0, 0), Entry("B", 1, 0), Entry("C", 0, 1)]

  /** The header row is skipped and the three data rows are kept in order. */
  lemma ExampleEntries()
    ensures AllEntries([ExampleTable]) == ExampleData
  {
    var table := ExampleTable;
    var a, b, c := ExampleData[0], ExampleData[1], ExampleData[2];
    assert ParseInt("0") == Some(0) && ParseInt("1") == Some(1);
    assert Classify(table[0], 0) == Header;
    assert Classify(table[1], 1) == Accepted(a);
    assert Classify(table[2], 2) == Accepted(b);
    assert Classify(table[3], 3) == Accepted(c);
    assert RowEntryLists(table) == [[], [a], [b], [c]];
    assert TableEntries(table) == [a, b, c];
    assert TableEntryLists([table]) == [[a, b, c]];
    assert Flatten([[a, b, c]]) == [a, b, c] + Flatten([[a, b, c]][1..]);
  }

  /** The 2 by 2 grid is printed with the y = 1 row on top. */
  lemma ExampleRendering()
    ensures Render(ExampleData, 1, 1) == Rendering(["+--+", "|C |", "|AB|", "+--+"], ["C ", "AB"])
  {
    var data := ExampleData;
    var r := Render(data, 1, 1);
    assert data[..2][..1] == [data[0]];
    assert LastAt([data[0]], 0, 0) == Some("A");
    assert LastAt(data[..2], 0, 0) == Some("A");
    assert CellText(data, 0, 1) == "C" && CellText(data, 1, 1) == " ";
    assert CellText(data, 0, 0) == "A" && CellText(data, 1, 0) == "B";
    assert seq(Extent(1), x => CellText(data, x, 1)) == ["C", " "];
    assert seq(Extent(1), x => CellText(data, x, 0)) == ["A", "B"];
    assert Flatten(["C", " "]) == "C" + Flatten([" "]) == "C ";
    assert Flatten(["A", "B"]) == "A" + Flatten(["B"]) == "AB";
    assert r.plain == ["C ", "AB"];
    assert BorderLine(1) == "+--+";
    assert Frame("C ") == "|C |" && Frame("AB") == "|AB|";
    assert r.bordered == ["+--+", "|C |", "|AB|", "+--+"];
  }

  lemma ExampleRun()
    ensures Run([ExampleTable]) == Drawn(Rendering(["+--+", "|C |", "|AB|", "+--+"], ["C ", "AB"]))
  {
    ExampleEntries();
    var data := ExampleData;
    assert MaxCoord(data, X) == 1 && MaxCoord(data, Y) == 1;
    ExampleRendering();
  }
}
