/** The zig-zag walk that places codeword bits: two columns at a time, right to left, skipping column 6. */
module ZigZag {
  datatype Cell = Cell(row: nat, col: nat)

  predicate Odd(size: nat) {
    size >= 9 && size % 2 == 1
  }

  /** Where in the walk a pass begins: each pass visits two columns. */
  function PassStart(size: nat, pass: nat): nat {
    if pass == 0 then 0 else PassStart(size, pass - 1) + 2 * size
  }

  /** The walk visits every cell outside one column. */
  function WalkLength(size: nat): nat
    requires size > 0
  {
    PassStart(size, (size - 1) / 2)
  }

  /** The right-hand column of a pass, once column 6 has been stepped over. */
  function RightColumn(size: nat, pass: nat): int {
    if size - 1 - 2 * pass > 6 then size - 1 - 2 * pass else size - 2 - 2 * pass
  }

  function PassCell(size: nat, pass: nat, step: nat): Cell
    requires Odd(size) && pass < (size - 1) / 2 && step < 2 * size
  {
    Cell(if pass % 2 == 0 then size - 1 - step / 2 else step / 2, RightColumn(size, pass) - step % 2)
  }

  function PassIndex(size: nat, k: nat): nat
    requires size > 0
  {
    if k < 2 * size then 0 else PassIndex(size, k - 2 * size) + 1
  }

  function StepIndex(size: nat, k: nat): (step: nat)
    requires size > 0
    ensures step < 2 * size
  {
    if k < 2 * size then k else StepIndex(size, k - 2 * size)
  }

  /** The k-th cell of the walk. */
  function CellAt(size: nat, k: nat): Cell
    requires Odd(size) && k < WalkLength(size)
  {
    PassInRange(size, k);
    PassCell(size, PassIndex(size, k), StepIndex(size, k))
  }

  lemma {:induction false} PassStartGrows(size: nat, a: nat, b: nat)
    requires a < b
    ensures PassStart(size, a) + 2 * size <= PassStart(size, b)
  {
    if a < b - 1 { PassStartGrows(size, a, b - 1); }
  }

  lemma {:induction false} PassAndStep(size: nat, k: nat)
    requires size > 0
    ensures PassStart(size, PassIndex(size, k)) + StepIndex(size, k) == k
  {
    if k >= 2 * size { PassAndStep(size, k - 2 * size); }
  }

  lemma {:induction false} OnlyPassAndStep(size: nat, pass: nat, step: nat)
    requires step < 2 * size
    ensures PassIndex(size, PassStart(size, pass) + step) == pass
    ensures StepIndex(size, PassStart(size, pass) + step) == step
  {
    if pass > 0 { OnlyPassAndStep(size, pass - 1, step); }
  }

  lemma PassInRange(size: nat, k: nat)
    requires size > 0 && k < WalkLength(size)
    ensures PassIndex(size, k) < (size - 1) / 2
  {
    PassAndStep(size, k);
    if PassIndex(size, k) > (size - 1) / 2 { PassStartGrows(size, (size - 1) / 2, PassIndex(size, k)); }
  }

  // ---- The way back: from a cell to its place in the walk ------------------------------------------

  /** The right-hand column of the pass that visits a column. */
  function PairColumn(col: nat): nat {
    if col > 6 then (if col % 2 == 0 then col else col + 1)
    else (if col % 2 == 1 then col else col + 1)
  }

  function PassOf(size: nat, col: nat): nat
    requires Odd(size) && col < size && col != 6
  {
    if col > 6 then (size - 1 - PairColumn(col)) / 2 else (size - 2 - PairColumn(col)) / 2
  }

  function StepOf(size: nat, cell: Cell): nat
    requires Odd(size) && cell.row < size && cell.col < size && cell.col != 6
  {
    2 * (if PassOf(size, cell.col) % 2 == 0 then size - 1 - cell.row else cell.row) + PairColumn(cell.col) - cell.col
  }

  function IndexOf(size: nat, cell: Cell): nat
    requires Odd(size) && cell.row < size && cell.col < size && cell.col != 6
  {
    PassStart(size, PassOf(size, cell.col)) + StepOf(size, cell)
  }

  lemma PassCellInverse(size: nat, pass: nat, step: nat)
    requires Odd(size) && pass < (size - 1) / 2 && step < 2 * size
    ensures var cell := PassCell(size, pass, step);
      && cell.row < size && cell.col < size && cell.col != 6
      && PassOf(size, cell.col) == pass && StepOf(size, cell) == step
  {}

  lemma PassOfInverse(size: nat, cell: Cell)
    requires Odd(size) && cell.row < size && cell.col < size && cell.col != 6
    ensures PassOf(size, cell.col) < (size - 1) / 2 && StepOf(size, cell) < 2 * size
    ensures PassCell(size, PassOf(size, cell.col), StepOf(size, cell)) == cell
  {}

  /** Every step of the walk is on the grid, off column 6, and at a cell no other step visits. */
  lemma WalkInjective(size: nat, k: nat)
    requires Odd(size) && k < WalkLength(size)
    ensures var cell := CellAt(size, k);
      cell.row < size && cell.col < size && cell.col != 6 && IndexOf(size, cell) == k
  {
    hide PassCell, PassOf, StepOf, WalkLength;
    PassInRange(size, k);
    PassCellInverse(size, PassIndex(size, k), StepIndex(size, k));
    PassAndStep(size, k);
  }

  /** Every cell off column 6 is visited. */
  lemma WalkSurjective(size: nat, cell: Cell)
    requires Odd(size) && cell.row < size && cell.col < size && cell.col != 6
    ensures IndexOf(size, cell) < WalkLength(size) && CellAt(size, IndexOf(size, cell)) == cell
  {
    PassOfInverse(size, cell);
    StepInWalk(size, PassOf(size, cell.col), StepOf(size, cell));
  }

  lemma StepInWalk(size: nat, pass: nat, step: nat)
    requires Odd(size) && pass < (size - 1) / 2 && step < 2 * size
    ensures PassStart(size, pass) + step < WalkLength(size)
    ensures CellAt(size, PassStart(size, pass) + step) == PassCell(size, pass, step)
  {
    hide PassCell;
    PassStartGrows(size, pass, (size - 1) / 2);
    OnlyPassAndStep(size, pass, step);
  }

  /** It starts in the last row and column. */
  lemma WalkBegins(size: nat)
    requires Odd(size)
    ensures WalkLength(size) > 0 && CellAt(size, 0) == Cell(size - 1, size - 1)
  {
    StepInWalk(size, 0, 0);
  }

  /** Cells are paired from the right, column 6 standing apart. This one is the right one of its pair. */
  predicate OnTheRight(cell: Cell) {
    cell.col % 2 == if cell.col > 6 then 0 else 1
  }

  /** From the right cell to the left one, and from there on to a right one, next to it or, at the edge, in line. */
  predicate StepsTo(size: nat, here: Cell, next: Cell) {
    if OnTheRight(here) then next.row == here.row && next.col == here.col - 1
    else
      || (next.col == here.col + 1 && (next.row == here.row + 1 || next.row == here.row - 1))
      || (next.row == here.row && (here.row == 0 || here.row == size - 1) &&
            next.col == if here.col == 7 then 5 else here.col - 1)
  }

  lemma StepInPass(size: nat, pass: nat, step: nat)
    requires Odd(size) && pass < (size - 1) / 2 && step + 1 < 2 * size
    ensures StepsTo(size, PassCell(size, pass, step), PassCell(size, pass, step + 1))
  {}

  lemma StepToPass(size: nat, pass: nat)
    requires Odd(size) && pass + 1 < (size - 1) / 2
    ensures StepsTo(size, PassCell(size, pass, 2 * size - 1), PassCell(size, pass + 1, 0))
  {}

  /**
   * The walk goes from the right cell of a pair to the left one, and from there to the right one of the row above or
   * below, or at the edge to that of the next two columns in the same row. As no cell comes twice this is all there
   * is to say of its order.
   */
  lemma WalkNext(size: nat, k: nat)
    requires Odd(size) && k + 1 < WalkLength(size)
    ensures StepsTo(size, CellAt(size, k), CellAt(size, k + 1))
  {
    hide WalkLength, CellAt, PassCell, StepsTo;
    var pass, step := PassIndex(size, k), StepIndex(size, k);
    PassInRange(size, k);
    PassAndStep(size, k);
    StepInWalk(size, pass, step);
    PassInRange(size, k + 1);
    if step + 1 < 2 * size {
      StepInWalk(size, pass, step + 1);
      StepInPass(size, pass, step);
    } else {
      OnlyPassAndStep(size, pass + 1, 0);
      StepInWalk(size, pass + 1, 0);
      StepToPass(size, pass);
    }
  }

  // ---- Data cells ------------------------------------------------------------------------------------

  /** The cells among the first k of the walk that are not function modules, in walk order. */
  function DataCells(size: nat, func: set<Cell>, k: nat): (cells: seq<Cell>)
    requires Odd(size) && k <= WalkLength(size)
    ensures |cells| <= k
  {
    if k == 0 then []
    else
      var cells := DataCells(size, func, k - 1);
      if CellAt(size, k - 1) in func then cells else cells + [CellAt(size, k - 1)]
  }

  lemma {:induction false} DataCellsMembers(size: nat, func: set<Cell>, k: nat)
    requires Odd(size) && k <= WalkLength(size)
    ensures forall cell :: cell in DataCells(size, func, k) <==>
      cell.row < size && cell.col < size && cell.col != 6 && cell !in func && IndexOf(size, cell) < k
    ensures forall i, j :: 0 <= i < j < |DataCells(size, func, k)| ==>
      DataCells(size, func, k)[i] != DataCells(size, func, k)[j]
  {
    hide CellAt, IndexOf, WalkLength;
    if k > 0 {
      DataCellsMembers(size, func, k - 1);
      var next := CellAt(size, k - 1);
      WalkInjective(size, k - 1);
      forall cell: Cell | cell.row < size && cell.col < size && cell.col != 6 && IndexOf(size, cell) == k - 1
        ensures cell == next
      {
        WalkSurjective(size, cell);
      }
    }
  }

  lemma {:induction false} DataCellsPrefix(size: nat, func: set<Cell>, k: nat, n: nat)
    requires Odd(size) && k <= n <= WalkLength(size)
    ensures DataCells(size, func, k) <= DataCells(size, func, n)
  {
    hide CellAt, WalkLength;
    if k < n { DataCellsPrefix(size, func, k, n - 1); }
  }

  /** The data cells right of column 6: those of the passes before the walk meets it. */
  function RightCells(size: nat, func: set<Cell>): (cells: seq<Cell>)
    requires Odd(size)
  {
    PassStartGrows(size, (size - 7) / 2, (size - 1) / 2);
    DataCells(size, func, PassStart(size, (size - 7) / 2))
  }

  lemma RightCellsMembers(size: nat, func: set<Cell>)
    requires Odd(size)
    ensures forall cell :: cell in RightCells(size, func) <==> cell.row < size && 7 <= cell.col < size && cell !in func
    ensures forall i, j :: 0 <= i < j < |RightCells(size, func)| ==>
      RightCells(size, func)[i] != RightCells(size, func)[j]
    ensures RightCells(size, func) <= DataCells(size, func, WalkLength(size))
  {
    hide DataCells, IndexOf;
    var half := (size - 7) / 2;
    PassStartGrows(size, half, (size - 1) / 2);
    DataCellsMembers(size, func, PassStart(size, half));
    DataCellsPrefix(size, func, PassStart(size, half), WalkLength(size));
    forall cell: Cell | cell.row < size && cell.col < size && cell.col != 6
      ensures IndexOf(size, cell) < PassStart(size, half) <==> cell.col >= 7
    {
      IndexRightOfTiming(size, cell);
    }
  }

  lemma IndexRightOfTiming(size: nat, cell: Cell)
    requires Odd(size) && cell.row < size && cell.col < size && cell.col != 6
    ensures IndexOf(size, cell) < PassStart(size, (size - 7) / 2) <==> cell.col >= 7
  {
    var half, pass := (size - 7) / 2, PassOf(size, cell.col);
    PassOfInverse(size, cell);
    if pass < half { PassStartGrows(size, pass, half); }
    if half < pass { PassStartGrows(size, half, pass); }
  }

  // ---- The other twin -------------------------------------------------------------------------------

  /** Where the loop variable is set anew from its range, stepping over column 6 lasts for one pass only. */
  function TwinRightColumn(size: nat, pass: nat): int {
    if size - 1 - 2 * pass == 6 then 5 else size - 1 - 2 * pass
  }

  predicate TwinPasses(size: nat, pass: nat, col: nat) {
    TwinRightColumn(size, pass) - 1 <= col <= TwinRightColumn(size, pass)
  }

  /** Some of the first passes visits the column. */
  ghost predicate TwinReaches(size: nat, passes: nat, col: nat) {
    exists pass :: 0 <= pass < passes && TwinPasses(size, pass, col)
  }

  lemma TwinReachesNext(size: nat, passes: nat, col: nat)
    ensures !TwinReaches(size, 0, col)
    ensures TwinReaches(size, passes + 1, col) <==> TwinReaches(size, passes, col) || TwinPasses(size, passes, col)
  {}

  /** That walk misses column 0 as well, and goes through column 4 twice: it is not the walk above. */
  lemma TwinWalk(size: nat, col: nat)
    requires Odd(size)
    ensures TwinReaches(size, (size - 1) / 2, col) <==> 0 < col < size && col != 6
    ensures col == 4 <==> exists pass, again :: 0 <= pass < again < (size - 1) / 2 &&
                                                TwinPasses(size, pass, col) && TwinPasses(size, again, col)
  {
    var before := (size - 7) / 2;
    if col == 5 {
      assert TwinPasses(size, before, col);
    } else if col == 4 {
      assert TwinPasses(size, before, col) && TwinPasses(size, before + 1, col);
    } else if 0 < col < size && col != 6 {
      assert TwinPasses(size, if col % 2 == 0 then (size - 1 - col) / 2 else (size - 2 - col) / 2, col);
    }
  }
}
