/** The grid renderer: a dense grid of cell texts, default one space, filled
    from the entries with last-write-wins and bounds-checked writes, then
    printed top row first (largest y) with and without a `+`/`-`/`|` frame. */
module GridRenderer {
  import opened Wrappers
  import opened Seqs
  import opened RowInterpreter

  /** `grid[y][x]` is the text of cell (x, y); each cell is a string. */
  type Grid = seq<seq<string>>

  /** Length of Python's `[c] * (m + 1)` and of `range(m + 1)`: a
      non-positive count gives nothing. */
  function Extent(m: int): nat {
    if m < 0 then 0 else m + 1
  }

  /** `maxY + 1` rows of `maxX + 1` cells each. */
  predicate Shaped(g: Grid, maxX: int, maxY: int) {
    |g| == Extent(maxY) && forall y :: 0 <= y < |g| ==> |g[y]| == Extent(maxX)
  }

  /** The freshly allocated grid, every cell one space. */
  function Blank(maxX: int, maxY: int): (g: Grid)
    ensures Shaped(g, maxX, maxY)
    ensures forall y, x :: 0 <= y < |g| && 0 <= x < |g[y]| ==> g[y][x] == " "
  {
    seq(Extent(maxY), _ => seq(Extent(maxX), _ => " "))
  }

  /** The write guard of the fill loop. */
  predicate InBounds(e: Entry, maxX: int, maxY: int) {
    0 <= e.y <= maxY && 0 <= e.x <= maxX
  }

  /** One iteration of the fill loop: an in-range entry overwrites its cell
      and nothing else; any other entry changes nothing. */
  function Paint(g: Grid, e: Entry, maxX: int, maxY: int): (r: Grid)
    requires Shaped(g, maxX, maxY)
    ensures Shaped(r, maxX, maxY)
    ensures !InBounds(e, maxX, maxY) ==> r == g
    ensures InBounds(e, maxX, maxY) ==> r[e.y][e.x] == e.ch
    ensures forall y, x :: 0 <= y < |g| && 0 <= x < |g[y]| && (y != e.y || x != e.x) ==> r[y][x] == g[y][x]
  {
    if InBounds(e, maxX, maxY) then g[e.y := g[e.y][e.x := e.ch]] else g
  }

  /** The fill loop over the entries in order. */
  function Fill(g: Grid, data: seq<Entry>, maxX: int, maxY: int): (r: Grid)
    requires Shaped(g, maxX, maxY)
    ensures Shaped(r, maxX, maxY)
  {
    if |data| == 0 then g
    else
      var n := |data| - 1;
      Paint(Fill(g, data[..n], maxX, maxY), data[n], maxX, maxY)
  }

  predicate At(e: Entry, x: int, y: int) {
    e.x == x && e.y == y
  }

  /** The text of the last entry placed at (x, y), if any. */
  function LastAt(data: seq<Entry>, x: int, y: int): (r: Option<string>)
    ensures r.None? <==> forall i :: 0 <= i < |data| ==> !At(data[i], x, y)
    ensures r.Some? ==> exists i :: && 0 <= i < |data| && At(data[i], x, y) && data[i].ch == r.value
                                    && forall j :: i < j < |data| ==> !At(data[j], x, y)
  {
    if |data| == 0 then None
    else
      var n := |data| - 1;
      if At(data[n], x, y) then Some(data[n].ch)
      else
        var r := LastAt(data[..n], x, y);
        assert forall i :: 0 <= i < n ==> data[..n][i] == data[i];
        r
  }

  /** Last write wins: after the fill loop every cell holds the text of the
      last entry at its coordinates, or what it held before if there is none. */
  lemma {:induction false} FillIsLastWrite(g: Grid, data: seq<Entry>, maxX: int, maxY: int)
    requires Shaped(g, maxX, maxY)
    ensures forall y, x :: 0 <= y < |g| && 0 <= x < |g[y]| ==>
      Fill(g, data, maxX, maxY)[y][x] == LastAt(data, x, y).GetOr(g[y][x])
  {
    if |data| > 0 {
      var n := |data| - 1;
      FillIsLastWrite(g, data[..n], maxX, maxY);
      forall y, x | 0 <= y < |g| && 0 <= x < |g[y]|
        ensures Fill(g, data, maxX, maxY)[y][x] == LastAt(data, x, y).GetOr(g[y][x])
      {
        if At(data[n], x, y) {
          assert InBounds(data[n], maxX, maxY);
        }
      }
    }
  }

  /** What cell (x, y) shows: the last entry's text there, or a space. */
  function CellText(data: seq<Entry>, x: int, y: int): string {
    LastAt(data, x, y).GetOr(" ")
  }

  /** The filled grid. */
  function BuildGrid(data: seq<Entry>, maxX: int, maxY: int): (g: Grid)
    ensures Shaped(g, maxX, maxY)
    ensures forall y, x :: 0 <= y < |g| && 0 <= x < |g[y]| ==> g[y][x] == CellText(data, x, y)
  {
    var blank := Blank(maxX, maxY);
    FillIsLastWrite(blank, data, maxX, maxY);
    Fill(blank, data, maxX, maxY)
  }

  /** An entry outside the bounds is dropped: it changes no cell. */
  lemma OutOfBoundsDropped(data: seq<Entry>, e: Entry, maxX: int, maxY: int)
    requires !InBounds(e, maxX, maxY)
    ensures BuildGrid(data + [e], maxX, maxY) == BuildGrid(data, maxX, maxY)
  {
    assert (data + [e])[..|data|] == data;
  }

  /** The lines for rows `y`, `y - 1`, ..., `0`: the grid printed upside
      down, so that row 0 comes last. */
  function RowsDown(g: Grid, y: int): (lines: seq<string>)
    requires y < |g|
    ensures |lines| == Extent(y)
    ensures forall k :: 0 <= k < |lines| ==> lines[k] == Flatten(g[y - k])
    decreases y + 1
  {
    if y < 0 then [] else [Flatten(g[y])] + RowsDown(g, y - 1)
  }

  /** `"+" + "-" * (maxX + 1) + "+"`. */
  function BorderLine(maxX: int): (s: string)
    ensures |s| == Extent(maxX) + 2
    ensures s[0] == '+' && s[|s| - 1] == '+'
    ensures forall i :: 0 < i < |s| - 1 ==> s[i] == '-'
  {
    "+" + seq(Extent(maxX), _ => '-') + "+"
  }

  function Frame(line: string): string {
    "|" + line + "|"
  }

  /** The two printed renderings, as lists of output lines. */
  datatype Rendering = Rendering(bordered: seq<string>, plain: seq<string>)

  /** The line the row at height `y` should show, described cell by cell. */
  function ExpectedLine(data: seq<Entry>, maxX: int, y: int): string {
    Flatten(seq(Extent(maxX), x => CellText(data, x, y)))
  }

  /** The whole renderer: the plain rendering has one line per row from
      `maxY` down to 0, each the cells' texts joined in x order; the bordered
      rendering is the same lines framed by `|`, between two border lines. */
  function Render(data: seq<Entry>, maxX: int, maxY: int): (r: Rendering)
    ensures |r.plain| == Extent(maxY)
    ensures forall k :: 0 <= k < |r.plain| ==> r.plain[k] == ExpectedLine(data, maxX, maxY - k)
    ensures |r.bordered| == |r.plain| + 2
    ensures r.bordered[0] == BorderLine(maxX) && r.bordered[|r.bordered| - 1] == BorderLine(maxX)
    ensures forall k :: 0 <= k < |r.plain| ==> r.bordered[k + 1] == Frame(r.plain[k])
  {
    var grid := BuildGrid(data, maxX, maxY);
    var lines := RowsDown(grid, maxY);
    var border := BorderLine(maxX);
    forall k | 0 <= k < |lines|
      ensures lines[k] == ExpectedLine(data, maxX, maxY - k)
    {
      assert grid[maxY - k] == seq(Extent(maxX), x => CellText(data, x, maxY - k));
    }
    Rendering([border] + seq(|lines|, k requires 0 <= k < |lines| => Frame(lines[k])) + [border], lines)
  }

  /** With one-character texts, every cell shows exactly one character. */
  lemma CellTextIsOneChar(data: seq<Entry>, x: int, y: int)
    requires forall i :: 0 <= i < |data| ==> |data[i].ch| == 1
    ensures |CellText(data, x, y)| == 1
  {
    var l := LastAt(data, x, y);
    if l.Some? {
      var i :| 0 <= i < |data| && At(data[i], x, y) && data[i].ch == l.value;
    }
  }

  /** With one-character texts, a row's line is one character per cell. */
  lemma ExpectedLineWidth(data: seq<Entry>, maxX: int, y: int)
    requires forall i :: 0 <= i < |data| ==> |data[i].ch| == 1
    ensures |ExpectedLine(data, maxX, y)| == Extent(maxX)
  {
    var cells := seq(Extent(maxX), x => CellText(data, x, y));
    forall x | 0 <= x < |cells|
      ensures |cells[x]| == 1
    {
      CellTextIsOneChar(data, x, y);
    }
    FlattenUnitLength(cells);
  }

  /** When every character text is a single character, each plain line is
      exactly `maxX + 1` characters wide; longer texts widen their line. */
  lemma PlainLinesHaveGridWidth(data: seq<Entry>, maxX: int, maxY: int)
    requires forall i :: 0 <= i < |data| ==> |data[i].ch| == 1
    ensures forall k :: 0 <= k < |Render(data, maxX, maxY).plain| ==> |Render(data, maxX, maxY).plain[k]| == Extent(maxX)
  {
    var r := Render(data, maxX, maxY);
    forall k | 0 <= k < |r.plain|
      ensures |r.plain[k]| == Extent(maxX)
    {
      assert r.plain[k] == ExpectedLine(data, maxX, maxY - k);
      ExpectedLineWidth(data, maxX, maxY - k);
    }
  }
}
