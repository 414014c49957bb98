/**
 * Win evaluation after a spin (src/entities/SlotMachine.ts, `checkForWins` and
 * `checkRowForWin`), stated on values.
 *
 * The grid is a JavaScript array of rows, and each row is itself a sparse
 * array: cell `[row][reel]` is assigned only when reel `reel` shows a symbol in
 * visible row `row`. An unassigned cell reads as `undefined` (here `None`), and
 * a row's length is one past its last assigned cell. `undefined === undefined`
 * holds, so unassigned cells match one another when runs are counted.
 */
module WinCheck {
  import opened Wrappers
  import opened Constants

  /** One grid cell: the symbol type shown there, or `None` where nothing was assigned. */
  type Cell = Option<SymbolType>

  /** A row wins when its leading run holds at least this many cells. */
  const WinThreshold: nat := 3

  // ---------------------------------------------------------------------
  // Runs
  // ---------------------------------------------------------------------

  /** The number of leading elements of `s` equal to `x`. */
  function LeadingRun<T(==)>(s: seq<T>, x: T): (n: nat)
    ensures n <= |s|
    ensures forall i :: 0 <= i < n ==> s[i] == x
    ensures n < |s| ==> s[n] != x
  {
    if |s| == 0 || s[0] != x then 0 else 1 + LeadingRun(s[1..], x)
  }

  /** The three facts above pin the run down: any n with them is the run. */
  lemma {:induction false} LeadingRunUnique<T>(s: seq<T>, x: T, n: nat)
    requires n <= |s|
    requires forall i :: 0 <= i < n ==> s[i] == x
    requires n < |s| ==> s[n] != x
    ensures n == LeadingRun(s, x)
  {
    if n > 0 {
      LeadingRunUnique(s[1..], x, n - 1);
    }
  }

  /** The value `checkRowForWin` returns: 1 for an empty row (the loop never runs),
      otherwise how many leading cells equal the first one. */
  function RunLength(row: seq<Cell>): (n: nat)
    ensures 1 <= n
    ensures |row| > 0 ==> n <= |row|
    ensures |row| == 0 ==> n == 1
    ensures |row| > 0 ==> forall i :: 0 <= i < n ==> row[i] == row[0]
    ensures n < |row| ==> row[n] != row[0]
  {
    if |row| == 0 then 1 else LeadingRun(row, row[0])
  }

  /** Whether the row counts as a win. */
  predicate Winning(row: seq<Cell>) {
    RunLength(row) >= WinThreshold
  }

  /** A row wins exactly when it has at least three cells and its second and third
      cells equal its first (holes included). */
  lemma WinningIffFirstThreeMatch(row: seq<Cell>)
    ensures Winning(row) <==> |row| >= 3 && row[1] == row[0] && row[2] == row[0]
  {
  }

  // ---------------------------------------------------------------------
  // Sparse rows
  // ---------------------------------------------------------------------

  /** n unassigned cells. */
  function Holes(n: nat): seq<Cell> {
    seq(n, _ => None)
  }

  /** The JavaScript array left by assigning only the `Some` cells of `d`, in
      increasing index order: `d` cut after its last `Some`. */
  function Trim(d: seq<Cell>): (r: seq<Cell>)
    ensures |r| <= |d| && r == d[..|r|]
    ensures |r| > 0 ==> r[|r| - 1].Some?
    ensures forall i :: |r| <= i < |d| ==> d[i].None?
  {
    if |d| == 0 then []
    else if d[|d| - 1].Some? then d
    else Trim(d[..|d| - 1])
  }

  /** Reading the trimmed row back with holes up to the full width gives the dense row:
      trimming loses nothing but trailing holes. */
  lemma TrimPadded(d: seq<Cell>)
    ensures Trim(d) + Holes(|d| - |Trim(d)|) == d
  {
    var r := Trim(d);
    var padded := r + Holes(|d| - |r|);
    assert |padded| == |d|;
    forall i | 0 <= i < |d|
      ensures padded[i] == d[i]
    {
      if i >= |r| {
        assert padded[i] == None;
      }
    }
  }

  /** Assigning index j (beyond the current length) of a JavaScript array:
      holes fill the gap, then the value lands at j. */
  function AssignBeyond(row: seq<Cell>, j: nat, c: Cell): (r: seq<Cell>)
    requires |row| <= j
    ensures |r| == j + 1 && r[..|row|] == row && r[j] == c
    ensures forall i :: |row| <= i < j ==> r[i] == None
  {
    row + Holes(j - |row|) + [c]
  }

  /** Assigning the `Some` cells of `d + [c]` one after another: a `None` leaves the
      array as it was, a `Some` lands at its index. */
  lemma TrimStep(d: seq<Cell>, c: Cell)
    ensures c.None? ==> Trim(d + [c]) == Trim(d)
    ensures c.Some? ==> |Trim(d)| <= |d| && Trim(d + [c]) == AssignBeyond(Trim(d), |d|, c)
  {
    if c.None? {
      assert (d + [c])[..|d|] == d;
    } else {
      TrimPadded(d);
    }
  }

  // ---------------------------------------------------------------------
  // The grid
  // ---------------------------------------------------------------------

  /** Cell `row` of one reel's column of visible symbol types. */
  function CellOf(col: seq<SymbolType>, row: nat): Cell {
    if row < |col| then Some(col[row]) else None
  }

  /** Row `row` of the grid as the first n reels fill it, holes written out. */
  function RowCells(cols: seq<seq<SymbolType>>, row: nat, n: nat): seq<Cell>
    requires n <= |cols|
  {
    seq(n, j requires 0 <= j < n => CellOf(cols[j], row))
  }

  /** One more reel adds its own cell at the end. */
  lemma RowCellsStep(cols: seq<seq<SymbolType>>, row: nat, n: nat)
    requires n < |cols|
    ensures RowCells(cols, row, n + 1) == RowCells(cols, row, n) + [CellOf(cols[n], row)]
  {
  }

  /** One turn of the inner fill loop: reel n assigns its cell only when it shows a
      symbol in that row. */
  lemma FillStep(cols: seq<seq<SymbolType>>, row: nat, n: nat)
    requires n < |cols|
    ensures |Trim(RowCells(cols, row, n))| <= n
    ensures Trim(RowCells(cols, row, n + 1))
         == if row < |cols[n]| then AssignBeyond(Trim(RowCells(cols, row, n)), n, Some(cols[n][row]))
            else Trim(RowCells(cols, row, n))
  {
    RowCellsStep(cols, row, n);
    TrimStep(RowCells(cols, row, n), CellOf(cols[n], row));
  }

  /** One turn of the inner fill loop on the row built so far, given what reel n shows. */
  lemma FillCell(cols: seq<seq<SymbolType>>, row: nat, n: nat, shown: seq<SymbolType>, filled: seq<Cell>)
    requires n < |cols| && cols[n] == shown && filled == Trim(RowCells(cols, row, n))
    ensures |filled| <= n
    ensures (if row < |shown| then AssignBeyond(filled, n, Some(shown[row])) else filled)
         == Trim(RowCells(cols, row, n + 1))
  {
    FillStep(cols, row, n);
  }

  /** Row `row` of the grid with every reel's cell written out, holes included. */
  function Dense(cols: seq<seq<SymbolType>>, row: nat): seq<Cell>
    requires |cols| >= ReelCount
  {
    RowCells(cols, row, ReelCount)
  }

  /** The grid `checkForWins` builds from the reels' visible columns: three rows, each
      at most five cells long and, when not empty, ending in an assigned cell. */
  function Grid(cols: seq<seq<SymbolType>>): (g: seq<seq<Cell>>)
    requires |cols| >= ReelCount
    ensures |g| == RowCount
    ensures forall r :: 0 <= r < RowCount ==>
              |g[r]| <= ReelCount && (|g[r]| > 0 ==> g[r][|g[r]| - 1].Some?)
  {
    seq(RowCount, r requires 0 <= r < RowCount => Trim(Dense(cols, r)))
  }

  /** Grid row `row` is what assigning the five reels' cells of that row leaves. */
  lemma GridRowCells(cols: seq<seq<SymbolType>>, row: nat)
    requires |cols| >= ReelCount && row < RowCount
    ensures Grid(cols)[row] == Trim(RowCells(cols, row, ReelCount))
  {
  }

  /** The grid's rows, taken one more at a time. */
  lemma GridPrefixGrows(cols: seq<seq<SymbolType>>, row: nat)
    requires |cols| >= ReelCount && row < RowCount
    ensures Grid(cols)[..row + 1] == Grid(cols)[..row] + [Grid(cols)[row]]
  {
  }

  /** Every assigned cell of the grid holds that reel's symbol in that row, every
      cell a reel shows is present, and everything else reads as a hole. */
  lemma GridCells(cols: seq<seq<SymbolType>>, r: nat, j: nat)
    requires |cols| >= ReelCount && r < RowCount && j < ReelCount
    ensures |Grid(cols)| == RowCount && |Grid(cols)[r]| <= ReelCount
    ensures r < |cols[j]| ==> j < |Grid(cols)[r]| && Grid(cols)[r][j] == Some(cols[j][r])
    ensures j < |Grid(cols)[r]| && r >= |cols[j]| ==> Grid(cols)[r][j] == None
  {
    var d := Dense(cols, r);
    assert d[j] == CellOf(cols[j], r);
  }

  /** When every reel shows all three rows, each grid row is the five symbols of that
      row, with no holes. */
  lemma FullGrid(cols: seq<seq<SymbolType>>, r: nat)
    requires |cols| >= ReelCount && r < RowCount
    requires forall j :: 0 <= j < ReelCount ==> |cols[j]| == RowCount
    ensures Grid(cols)[r] == seq(ReelCount, j requires 0 <= j < ReelCount => Some(cols[j][r]))
  {
    var d := Dense(cols, r);
    assert d[ReelCount - 1] == Some(cols[ReelCount - 1][r]);
  }

  // ---------------------------------------------------------------------
  // Counting wins
  // ---------------------------------------------------------------------

  /** `totalWins`: the number of winning rows. */
  function WinCount(rows: seq<seq<Cell>>): (n: nat)
    ensures n <= |rows|
  {
    if |rows| == 0 then 0
    else WinCount(rows[..|rows| - 1]) + (if Winning(rows[|rows| - 1]) then 1 else 0)
  }

  /** The indices of the winning rows. */
  function WinningRows(rows: seq<seq<Cell>>): set<nat> {
    set r: nat | r < |rows| && Winning(rows[r])
  }

  /** The count is the number of winning rows. */
  lemma {:induction false} WinCountCountsWinningRows(rows: seq<seq<Cell>>)
    ensures WinCount(rows) == |WinningRows(rows)|
  {
    if |rows| > 0 {
      WinCountCountsWinningRows(rows[..|rows| - 1]);
      WinningRowsStep(rows);
    }
  }

  /** The winning rows of a non-empty grid: those of all rows but the last, plus the
      last one when it wins. */
  lemma WinningRowsStep(rows: seq<seq<Cell>>)
    requires |rows| > 0
    ensures |rows| - 1 !in WinningRows(rows[..|rows| - 1])
    ensures WinningRows(rows)
         == WinningRows(rows[..|rows| - 1]) + (if Winning(rows[|rows| - 1]) then {|rows| - 1} else {})
  {
    var last := |rows| - 1;
    var front := rows[..last];
    forall r: nat | r < |rows|
      ensures r in WinningRows(rows) <==> r in WinningRows(front) || (r == last && Winning(rows[last]))
    {
      if r < last {
        assert rows[r] == front[r];
      }
    }
  }

  /** What `checkForWins` arrives at from the reels' visible columns: the number of
      winning rows, or `None` when a reel it reads is missing (`this.reels[reel]` is
      `undefined` and the call on it throws). */
  function Evaluation(cols: seq<seq<SymbolType>>): (e: Option<nat>)
    ensures e.None? <==> |cols| < ReelCount
    ensures e.Some? ==> e.value <= RowCount
  {
    if |cols| < ReelCount then None else Some(WinCount(Grid(cols)))
  }

  /** The evaluation fails exactly when fewer than five reels exist; otherwise it
      counts the winning rows of the grid, at most three. */
  lemma EvaluationOutcome(cols: seq<seq<SymbolType>>)
    ensures Evaluation(cols).None? <==> |cols| < ReelCount
    ensures Evaluation(cols).Some? ==>
              Evaluation(cols).value == |WinningRows(Grid(cols))| <= RowCount
  {
    if |cols| >= ReelCount {
      WinCountCountsWinningRows(Grid(cols));
    }
  }

  /** When the first three reels agree on a fully shown row, that row wins, whatever
      the other two reels show. */
  lemma ThreeAlikeFromTheLeftWins(cols: seq<seq<SymbolType>>, r: nat)
    requires |cols| >= ReelCount && r < RowCount
    requires forall j :: 0 <= j < ReelCount ==> |cols[j]| == RowCount
    requires cols[1][r] == cols[0][r] && cols[2][r] == cols[0][r]
    ensures Winning(Grid(cols)[r]) && r in WinningRows(Grid(cols))
  {
    FullGrid(cols, r);
    WinningIffFirstThreeMatch(Grid(cols)[r]);
  }

  /** When the second reel differs from the first in a fully shown row, that row
      does not win: runs are anchored at the leftmost reel. */
  lemma BrokenFromTheLeftLoses(cols: seq<seq<SymbolType>>, r: nat)
    requires |cols| >= ReelCount && r < RowCount
    requires forall j :: 0 <= j < ReelCount ==> |cols[j]| == RowCount
    requires cols[1][r] != cols[0][r]
    ensures !Winning(Grid(cols)[r]) && RunLength(Grid(cols)[r]) == 1
  {
    FullGrid(cols, r);
    WinningIffFirstThreeMatch(Grid(cols)[r]);
  }

  /** When reels 0, 1 and 2 show nothing in a row and reel 3 or 4 shows something
      there, the row wins: its three leading cells are holes, and holes compare equal. */
  lemma LeadingHolesWin(cols: seq<seq<SymbolType>>, r: nat)
    requires |cols| >= ReelCount && r < RowCount
    requires r >= |cols[0]| && r >= |cols[1]| && r >= |cols[2]|
    requires r < |cols[3]| || r < |cols[4]|
    ensures Winning(Grid(cols)[r]) && r in WinningRows(Grid(cols))
  {
    var g := Grid(cols)[r];
    if r < |cols[3]| {
      GridCells(cols, r, 3);
    } else {
      GridCells(cols, r, 4);
    }
    GridCells(cols, r, 0);
    GridCells(cols, r, 1);
    GridCells(cols, r, 2);
    WinningIffFirstThreeMatch(g);
  }

  /** When no reel shows anything in a row, nothing is assigned there: the row is
      empty, its run is 1 and it does not win. */
  lemma EmptyRowLoses(cols: seq<seq<SymbolType>>, r: nat)
    requires |cols| >= ReelCount && r < RowCount
    requires forall j :: 0 <= j < ReelCount ==> r >= |cols[j]|
    ensures Grid(cols)[r] == [] && RunLength(Grid(cols)[r]) == 1 && !Winning(Grid(cols)[r])
  {
    var g := Grid(cols)[r];
    forall j | 0 <= j < ReelCount
      ensures j < |g| ==> g[j] == None
    {
      GridCells(cols, r, j);
    }
  }

  /** An example: with reels 0 to 2 empty and reels 3 and 4 showing one symbol each,
      row 0 wins on its three leading holes, and rows 1 and 2, shown by no reel, are
      empty and lose, so the spin counts one win. */
  lemma HolesMatchEachOther()
    ensures Winning(Grid([[], [], [], [M00], [M01]])[0])
    ensures Evaluation([[], [], [], [M00], [M01]]) == Some(1)
  {
    var cols: seq<seq<SymbolType>> := [[], [], [], [M00], [M01]];
    var g := Grid(cols);
    LeadingHolesWin(cols, 0);
    EmptyRowLoses(cols, 1);
    EmptyRowLoses(cols, 2);
    assert g[..2][..1] == g[..1] && g[..3] == g;
    assert WinCount(g[..1]) == 1;
  }
}
