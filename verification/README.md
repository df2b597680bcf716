# Character grid from a published document — Dafny model

The program fetches a published document, reads its HTML tables as rows of
`(x, character, y)` cells and prints the characters as a grid whose row
`y = 0` is at the bottom. This project models its two pure components, both
in `test1.py`:

- the **row interpreter**, the loop of `print_grid_from_google_doc`: for every
  table and every row it skips rows with fewer than three cells, skips a
  header-like first row, parses the x and y texts as integers (skipping rows
  where either fails), and collects `(char, x, y)` entries with the running
  maxima `max_x` and `max_y`, both starting at 0;
- the **grid renderer**, `create_and_print_grid`: a `(max_y+1) × (max_x+1)`
  grid of one-space cells, filled in entry order with a bounds check (last
  write wins, out-of-range entries dropped), printed framed and plain with
  the highest row first.

Input is the document's tables as `seq<seq<seq<string>>>` of already trimmed
cell texts; output is the list of printed lines of each rendering.

Files:

- `wrappers.dfy` — `Option`.
- `seqs.dfy` — `Flatten`, the concatenation that `''.join` performs, with its lemmas.
- `int_parse.dfy` — Python's `int()` on a cell text (signed decimal), its
  character-level grammar, and the round trip with decimal printing.
- `row_interpreter.dfy` — the per-row verdict, the loop as a left fold
  (`ScanRows`, `ScanTables`, `Interpret`), and a reference description
  without running state (`AllEntries`, `MaxCoord`) proved equal to it.
- `grid_renderer.dfy` — blank grid, bounds-checked write, fill loop, the
  last-writer reference (`LastAt`), row order and borders, `Render`.
- `pipeline.dfy` — `Run`, which renders only when entries exist, and a
  worked example (header row plus three data rows giving
  `"C "` above `"AB"`).

Two behaviours of the program worth stating:

- Coordinates may be negative: `int("-3")` succeeds. Such an entry is kept,
  never raises a bound above 0 (test1.py:54-55), and is dropped by the range
  check at test1.py:84.
- `Render` has no precondition: Python's `[' '] * n` and `range(n)` are
  empty for `n <= 0`, and the model renders any bounds the same way.

A consequence proved along the way (`RowInterpreter.HeaderTestChangesNoEntry`):
the header test never changes the collected entries. A coordinate text that
contains `x`, `X`, `y` or `Y` never parses as an integer, so a header-like
first row would be skipped by the parse anyway; only the diagnostic differs.

## Model

| member | source | states |
|---|---|---|
| IntParse.ParseInt | test1.py:49-51 | `int(text)` succeeds exactly on texts that are a digit or sign followed by digits with at least one digit; a negative result only comes from a leading `-`, and a leading `-` never yields a positive value |
| IntParse.ParsePlus | test1.py:50-51 | a `+` in front of a digit string leaves the parsed value unchanged |
| IntParse.ParseLeadingZero | test1.py:50-51 | a leading `0` in front of a digit string leaves the parsed value unchanged, so `"05"` reads as 5 |
| IntParse.ParseMinus | test1.py:50-51 | a `-` in front of a digit string negates its value, so `"-0"` reads as 0; with the two lemmas above and the round trip this fixes the value of every accepted text |
| Seqs.FlattenAppend | test1.py:93 | `Flatten`, the model of `''.join`: joining a concatenation of pieces is the concatenation of the two joins |
| IntParse.ParseShowRoundTrip | test1.py:50-51 | every integer, negative ones included, parses back from its decimal text |
| IntParse.ParseRejectsForeignChar | test1.py:59-61 | a coordinate text holding any character other than a digit or sign is rejected (the `ValueError` branch) |
| RowInterpreter.LowerMentions | test1.py:44 | `Lower`, the model of `.lower()`: `'x' in text.lower()` holds exactly when the text contains `x` or `X` (likewise `y`/`Y`) |
| RowInterpreter.Classify | test1.py:33-61 | a row is too short iff it has fewer than 3 cells; a header iff it has 3 cells, is index 0 of its table and its x text holds `x`/`X` or its y text holds `y`/`Y`; accepted iff neither and both coordinate texts are integers, giving `(cells[1], int(cells[0]), int(cells[2]))` |
| RowInterpreter.Absorb | test1.py:53-55 | an accepted row appends its entry and raises the maxima to cover it; any other row leaves the state unchanged; the maxima never decrease |
| RowInterpreter.MaxCoord | test1.py:27-28 | the tracked maximum is at least 0, bounds every entry's coordinate, and is 0 or equal to some entry's coordinate |
| RowInterpreter.MaxCoordAppend | test1.py:54-55 | the maximum over a concatenation of entry lists is the larger of the two maxima |
| RowInterpreter.AbsorbMeetsReference | test1.py:53-55 | one loop step equals appending the row's entries and taking maxima over them |
| RowInterpreter.ScanRowsMeetsReference | test1.py:33-61 | `ScanRows`, the inner loop over a table's rows, with indices restarting at 0, appends exactly that table's accepted entries in row order and raises the maxima to theirs |
| RowInterpreter.ScanTablesMeetsReference | test1.py:30-61 | `ScanTables`, the outer loop over tables appends the tables' entries in table order, sharing one pair of maxima |
| RowInterpreter.Interpret | test1.py:26-61 | the loop from `data = []`, `max_x = max_y = 0` yields all accepted entries in table-then-row order with no deduplication, and maxima that are ≥ 0, bound every entry and are 0 or attained |
| RowInterpreter.AllEntriesAppend | test1.py:30-33 | the entries of a concatenation of table lists are the parts' entries concatenated, and its maxima are the larger of the parts' |
| RowInterpreter.InterpretAppend | test1.py:30-55 | processing more tables only appends entries and never lowers a bound |
| RowInterpreter.ShortFirstRowTakesHeaderIndex | test1.py:33-36 | a row with fewer than 3 cells still uses its index, so after a short row 0 no row of that table is header-tested |
| RowInterpreter.HeaderTestChangesNoEntry | test1.py:43-51 | the row index (hence the header test) never changes which entry a row yields |
| GridRenderer.Blank | test1.py:80 | the new grid has `max_y+1` rows of `max_x+1` cells, every cell `' '` |
| GridRenderer.Paint | test1.py:84-85 | an entry within `0..max_x` × `0..max_y` overwrites exactly its cell; any other entry changes nothing |
| GridRenderer.Fill | test1.py:83-85 | the fill loop keeps the grid's shape |
| GridRenderer.LastAt | test1.py:83-85 | the text of the last entry at (x, y): none iff no entry is there, otherwise one at that position with no later one there |
| GridRenderer.FillIsLastWrite | test1.py:83-85 | after the loop each cell holds the text of the last entry at its coordinates, or its previous content when there is none |
| GridRenderer.BuildGrid | test1.py:79-85 | the filled grid is shaped by the bounds and each cell is the last entry's text there or `' '` |
| GridRenderer.OutOfBoundsDropped | test1.py:84 | an entry outside the bounds, e.g. with a negative coordinate, changes no cell |
| GridRenderer.RowsDown | test1.py:92-93 | the rows are emitted from `max_y` down to 0, the k-th line being row `max_y - k` joined |
| GridRenderer.BorderLine | test1.py:89 | the border is `+`, then `max_x+1` dashes, then `+` |
| GridRenderer.Render | test1.py:77-100 | plain output has `max_y+1` lines, line k being the cells of row `max_y - k` joined in x order; bordered output is the top border, the same lines each between two vertical bars, and the bottom border |
| GridRenderer.ExpectedLineWidth | test1.py:93 | when every character text is one character, a row's joined line is `max_x+1` characters wide |
| GridRenderer.PlainLinesHaveGridWidth | test1.py:99-100 | when every character text is one character, each plain line is `max_x+1` characters wide |
| Pipeline.Run | test1.py:22-70 | no tables ends early; no accepted entry ends without rendering; otherwise the renderer runs on all entries with their maxima |
| Pipeline.LastEntryShows | test1.py:53-85 | an accepted entry with non-negative coordinates lies within the bounds, and if no later entry shares its position the grid shows its text there |
| Pipeline.ExampleEntries | test1.py:30-61 | a header row followed by rows `0,A,0`, `1,B,0`, `0,C,1` yields those three entries in order |
| Pipeline.ExampleRendering | test1.py:89-100 | those entries render framed as the border `+--+`, the rows `C ` and `AB` between vertical bars, and the border again, and plain as `C ` then `AB` |
| Pipeline.ExampleRun | test1.py:26-100 | the whole run on the example table draws that rendering |

## Left out

- Fetching the document (`requests.get`, `raise_for_status`, test1.py:12-13): network I/O.
- HTML parsing and table/row/cell discovery with BeautifulSoup and `get_text(strip=True)` (test1.py:18-21, 31, 34, 39-41): foreign library calls; the model takes the tables as already trimmed cell texts.
- Every diagnostic and heading `print` (test1.py:9, 15, 45, 57, 60, 63, 87-88, 98): console output; the two renderings are returned as lists of lines instead.
- Failures the model assumes never happen, each of which ends the run with no grid printed:
  - Memory exhaustion when a bound is huge. A row `"0","A","10000000000"` makes the allocation at test1.py:80 raise `MemoryError`, which the handler at test1.py:72-75 catches, or the process is killed outright; `Run` still returns `Drawn`.
  - Output-encoding errors in a `print`. An encoding error at test1.py:57 is a `ValueError` and is caught at 59. The print at 60 then fails again, and the handler at test1.py:72-75 ends the run.
- The broad `except Exception` handler with traceback (test1.py:72-75) and the module-level URL and call (test1.py:103-104): exception plumbing and script entry.
- IntParse.ParseInt: accepts only ASCII digits after an optional sign. Python's `int()` also takes underscores between digits, non-ASCII decimal digits and surrounding whitespace; none of these is modelled.
- IntParse.ParseInt: accepts digit strings of any length. Recent Python versions (3.11 on, plus security backports) make `int()` reject a text of more than 4300 digits (`sys.get_int_max_str_digits()`) with a `ValueError`; that row would be skipped, while the model accepts it. The limit depends on the interpreter version and settings, so it is not modelled. For the same reason `IntParse.ParseShowRoundTrip` is a property of the model's parser: in such a Python, `int(str(n))` fails once `n` has more than 4300 digits.
- RowInterpreter.LowerMentions: lower-cases ASCII letters only; Python's `str.lower` covers all of Unicode, but no other character lowers to `x` or `y`, so the header test is the same.
