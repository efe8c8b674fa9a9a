/** Writing the codeword bits along the walk, and reading them back. */
module Placement {
  import opened GaloisField
  import opened BitStream
  import opened ZigZag

  /** Bit i of the codewords, highest bit of each byte first; false once they are used up. */
  function StreamBit(codewords: seq<Byte>, i: nat): bool {
    i < 8 * |codewords| && codewords[i / 8] / Pow2(7 - i % 8) % 2 == 1
  }

  /** The cursor (byteIdx, bitIdx) has consumed n bits, or all there are. */
  predicate Cursor(length: nat, byteIdx: nat, bitIdx: int, n: nat) {
    && 0 <= bitIdx <= 7 && byteIdx <= length
    && (n < 8 * length ==> 8 * byteIdx + 7 - bitIdx == n)
    && (n >= 8 * length ==> byteIdx == length && bitIdx == 7)
  }

  // ---- Walking over a grid ---------------------------------------------------------------------------

  /** The module a pass over two columns comes to at a step. */
  function StepCell(size: nat, right: nat, up: bool, step: nat): Cell
    requires right > 0 && step < 2 * size
  {
    Cell(if up then size - 1 - step / 2 else step / 2, right - step % 2)
  }

  /** The modules that take a bit in the first steps of a pass. */
  function PassVisits(size: nat, func: set<Cell>, right: nat, up: bool, steps: nat): (visits: seq<Cell>)
    requires right > 0 && steps <= 2 * size
  {
    if steps == 0 then []
    else
      var visits, last := PassVisits(size, func, right, up, steps - 1), StepCell(size, right, up, steps - 1);
      if last in func then visits else visits + [last]
  }

  lemma NoVisits(size: nat, func: set<Cell>, right: nat, up: bool)
    requires right > 0
    ensures PassVisits(size, func, right, up, 0) == []
  {}

  lemma NextVisit(size: nat, func: set<Cell>, right: nat, up: bool, step: nat)
    requires right > 0 && step < 2 * size
    ensures var visits, next := PassVisits(size, func, right, up, step), StepCell(size, right, up, step);
      PassVisits(size, func, right, up, step + 1) == if next in func then visits else visits + [next]
  {}

  /** The last place of a cell in a list, or -1. */
  function LastIndex(visits: seq<Cell>, cell: Cell): (i: int)
    ensures -1 <= i < |visits| && (i >= 0 ==> visits[i] == cell)
    ensures forall j :: i < j < |visits| ==> visits[j] != cell
  {
    if visits == [] then -1
    else if visits[|visits| - 1] == cell then |visits| - 1
    else LastIndex(visits[..|visits| - 1], cell)
  }

  /** What is in a module after some visits: the bit of its last visit, if there is one. */
  function Value(codewords: seq<Byte>, visits: seq<Cell>, cell: Cell, before: bool): bool {
    var i := LastIndex(visits, cell);
    if i < 0 then before else StreamBit(codewords, i)
  }

  lemma ValueNext(codewords: seq<Byte>, visits: seq<Cell>, next: Cell, cell: Cell, before: bool)
    ensures Value(codewords, visits + [next], cell, before)
         == if cell == next then StreamBit(codewords, |visits|) else Value(codewords, visits, cell, before)
  {
    assert (visits + [next])[..|visits|] == visits;
  }

  // ---- Writing along a walk --------------------------------------------------------------------------

  type Grid = seq<seq<bool>>

  /** The contents of a matrix as a value. */
  function GridOf(m: array2<bool>): (g: Grid)
    reads m
    ensures |g| == m.Length0
    ensures forall r :: 0 <= r < |g| ==> |g[r]| == m.Length1
    ensures forall r, c :: 0 <= r < m.Length0 && 0 <= c < m.Length1 ==> g[r][c] == m[r, c]
  {
    seq(m.Length0, r requires 0 <= r < m.Length0 reads m =>
      seq(m.Length1, c requires 0 <= c < m.Length1 reads m => m[r, c]))
  }

  ghost predicate Square(g: Grid, size: nat) {
    |g| == size && forall r :: 0 <= r < size ==> |g[r]| == size
  }

  /** The i-th data cell holds bit i, for every i. */
  ghost predicate Holds(matrix: array2<bool>, cells: seq<Cell>, codewords: seq<Byte>)
    reads matrix
  {
    forall i :: 0 <= i < |cells| ==>
      cells[i].row < matrix.Length0 && cells[i].col < matrix.Length1 &&
      matrix[cells[i].row, cells[i].col] == StreamBit(codewords, i)
  }

  /** The i-th visit has written bit i; a module that was not visited is as before. */
  ghost predicate Written(matrix: array2<bool>, before: Grid, codewords: seq<Byte>, visits: seq<Cell>)
    reads matrix
  {
    && |before| == matrix.Length0 && (forall r :: 0 <= r < |before| ==> |before[r]| == matrix.Length1)
    && forall r, c :: 0 <= r < matrix.Length0 && 0 <= c < matrix.Length1 ==>
      matrix[r, c] == Value(codewords, visits, Cell(r, c), before[r][c])
  }

  ghost predicate Ready(matrix: array2<bool>, isFunc: array2<bool>, size: nat, func: set<Cell>)
    reads isFunc
  {
    && Odd(size) && matrix != isFunc
    && matrix.Length0 == matrix.Length1 == isFunc.Length0 == isFunc.Length1 == size
    && forall r, c :: 0 <= r < size && 0 <= c < size ==> (isFunc[r, c] <==> Cell(r, c) in func)
  }

  /** One visit: function modules are skipped, any other module takes the next bit. */
  method Visit(matrix: array2<bool>, isFunc: array2<bool>, codewords: array<Byte>, size: nat, ghost func: set<Cell>,
               ghost before: Grid, ghost visits: seq<Cell>, r: nat, c: nat, byteIdx0: nat, bitIdx0: int)
    returns (byteIdx: nat, bitIdx: int, ghost visited: seq<Cell>)
    requires Ready(matrix, isFunc, size, func) && r < size && c < size
    requires Written(matrix, before, codewords[..], visits)
    requires Cursor(codewords.Length, byteIdx0, bitIdx0, |visits|)
    modifies matrix
    ensures visited == if Cell(r, c) in func then visits else visits + [Cell(r, c)]
    ensures Written(matrix, before, codewords[..], visited)
    ensures Cursor(codewords.Length, byteIdx, bitIdx, |visited|)
  {
    hide Value;
    byteIdx, bitIdx, visited := byteIdx0, bitIdx0, visits;
    if !isFunc[r, c] {
      ghost var n := |visits|;
      var bit := false;
      if byteIdx < codewords.Length {
        assert n / 8 == byteIdx && n % 8 == 7 - bitIdx;
        bit := codewords[byteIdx] / Pow2(bitIdx) % 2 == 1;
        bitIdx := bitIdx - 1;
        if bitIdx < 0 {
          bitIdx := 7;
          byteIdx := byteIdx + 1;
        }
      }
      matrix[r, c] := bit;
      visited := visits + [Cell(r, c)];
      forall i, j | 0 <= i < size && 0 <= j < size
        ensures matrix[i, j] == Value(codewords[..], visited, Cell(i, j), before[i][j])
      {
        ValueNext(codewords[..], visits, Cell(r, c), Cell(i, j), before[i][j]);
      }
    }
  }

  /** One pass over two columns, upwards or downwards. */
  method PlacePass(matrix: array2<bool>, isFunc: array2<bool>, codewords: array<Byte>, size: nat, ghost func: set<Cell>,
                   ghost before: Grid, ghost visits: seq<Cell>, right: nat, up: bool, byteIdx0: nat, bitIdx0: int)
    returns (byteIdx: nat, bitIdx: int, ghost visited: seq<Cell>)
    requires Ready(matrix, isFunc, size, func) && 0 < right < size
    requires Written(matrix, before, codewords[..], visits)
    requires Cursor(codewords.Length, byteIdx0, bitIdx0, |visits|)
    modifies matrix
    ensures visited == visits + PassVisits(size, func, right, up, 2 * size)
    ensures Written(matrix, before, codewords[..], visited)
    ensures Cursor(codewords.Length, byteIdx, bitIdx, |visited|)
  {
    hide Written, Cursor, PassVisits;
    NoVisits(size, func, right, up);
    byteIdx, bitIdx, visited := byteIdx0, bitIdx0, visits;
    for vert := 0 to size
      invariant visited == visits + PassVisits(size, func, right, up, 2 * vert)
      invariant Written(matrix, before, codewords[..], visited)
      invariant Cursor(codewords.Length, byteIdx, bitIdx, |visited|)
    {
      var r := if up then size - 1 - vert else vert;
      for side := 0 to 2
        invariant visited == visits + PassVisits(size, func, right, up, 2 * vert + side)
        invariant Written(matrix, before, codewords[..], visited)
        invariant Cursor(codewords.Length, byteIdx, bitIdx, |visited|)
      {
        NextVisit(size, func, right, up, 2 * vert + side);
        byteIdx, bitIdx, visited :=
          Visit(matrix, isFunc, codewords, size, func, before, visited, r, right - side, byteIdx, bitIdx);
      }
    }
  }

  /** The passes, from right to left; column 6 is stepped over for good. */
  method PlaceBits(matrix: array2<bool>, isFunc: array2<bool>, codewords: array<Byte>, size: nat, ghost func: set<Cell>)
    requires Ready(matrix, isFunc, size, func)
    modifies matrix
    ensures Written(matrix, old(GridOf(matrix)), codewords[..], DataCells(size, func, WalkLength(size)))
  {
    hide Written, Cursor, WalkLength, DataCells, PassStart, PassVisits;
    ghost var before, visits := GridOf(matrix), [];
    var byteIdx, bitIdx := 0, 7;
    var up := true;
    var right: int := size - 1;
    ghost var pass := 0;
    StartOfWalk(matrix, codewords[..], size, func);
    while right > 0
      invariant pass <= (size - 1) / 2 && PassStart(size, pass) <= WalkLength(size)
      invariant right == if size - 1 - 2 * pass >= 6 then size - 1 - 2 * pass else size - 2 - 2 * pass
      invariant up == (pass % 2 == 0) && visits == DataCells(size, func, PassStart(size, pass))
      invariant Written(matrix, before, codewords[..], visits)
      invariant Cursor(codewords.Length, byteIdx, bitIdx, |visits|)
      decreases right
    {
      if right == 6 {
        right := right - 1;
      }
      byteIdx, bitIdx, visits :=
        PlacePass(matrix, isFunc, codewords, size, func, before, visits, right, up, byteIdx, bitIdx);
      WholePass(size, func, pass);
      up := !up;
      right := right - 2;
      pass := pass + 1;
    }
    assert pass == (size - 1) / 2;
    WholeWalk(size);
  }

  /** The passes of the other twin: its range sets the column anew, so column 6 is stepped over for one pass only. */
  method TwinPlaceBits(matrix: array2<bool>, isFunc: array2<bool>, codewords: array<Byte>, size: nat,
                       ghost func: set<Cell>)
    requires Ready(matrix, isFunc, size, func)
    modifies matrix
    ensures Written(matrix, old(GridOf(matrix)), codewords[..], TwinVisits(size, func, (size - 1) / 2))
  {
    hide Written, Cursor, PassVisits;
    ghost var before, visits := GridOf(matrix), [];
    var byteIdx, bitIdx := 0, 7;
    var up := true;
    StartOfWalk(matrix, codewords[..], size, func);
    for k := 0 to (size - 1) / 2
      invariant up == (k % 2 == 0) && visits == TwinVisits(size, func, k)
      invariant Written(matrix, before, codewords[..], visits)
      invariant Cursor(codewords.Length, byteIdx, bitIdx, |visits|)
    {
      var right := size - 1 - 2 * k;
      if right == 6 {
        right := right - 1;
      }
      byteIdx, bitIdx, visits :=
        PlacePass(matrix, isFunc, codewords, size, func, before, visits, right, up, byteIdx, bitIdx);
      up := !up;
    }
  }

  lemma StartOfWalk(matrix: array2<bool>, codewords: seq<Byte>, size: nat, func: set<Cell>)
    requires Odd(size) && matrix.Length0 == matrix.Length1 == size
    ensures Written(matrix, GridOf(matrix), codewords, [])
    ensures PassStart(size, 0) == 0 <= WalkLength(size) && DataCells(size, func, 0) == []
    ensures Cursor(|codewords|, 0, 7, 0)
  {}

  lemma WholeWalk(size: nat)
    requires size > 0
    ensures PassStart(size, (size - 1) / 2) == WalkLength(size)
  {}

  // ---- The walk as a whole -----------------------------------------------------------------------------

  /** A pass adds the next stretch of the walk's data cells. */
  lemma {:induction false} PartOfPass(size: nat, func: set<Cell>, pass: nat, steps: nat)
    requires Odd(size) && pass < (size - 1) / 2 && steps <= 2 * size
    ensures PassStart(size, pass) + steps <= WalkLength(size) && 0 < RightColumn(size, pass) < size
    ensures DataCells(size, func, PassStart(size, pass) + steps)
         == DataCells(size, func, PassStart(size, pass))
          + PassVisits(size, func, RightColumn(size, pass), pass % 2 == 0, steps)
  {
    hide CellAt, WalkLength;
    if steps > 0 {
      PartOfPass(size, func, pass, steps - 1);
      StepInWalk(size, pass, steps - 1);
    } else {
      StepInWalk(size, pass, 0);
    }
  }

  lemma WholePass(size: nat, func: set<Cell>, pass: nat)
    requires Odd(size) && pass < (size - 1) / 2
    ensures PassStart(size, pass + 1) <= WalkLength(size) && 0 < RightColumn(size, pass) < size
    ensures DataCells(size, func, PassStart(size, pass + 1))
         == DataCells(size, func, PassStart(size, pass))
          + PassVisits(size, func, RightColumn(size, pass), pass % 2 == 0, 2 * size)
  {
    PartOfPass(size, func, pass, 2 * size);
  }

  /** Where no later visit comes to them, the first cells hold the first bits. */
  lemma WrittenHolds(matrix: array2<bool>, before: Grid, codewords: seq<Byte>, cells: seq<Cell>, later: seq<Cell>)
    requires Written(matrix, before, codewords, cells + later)
    requires forall i :: 0 <= i < |cells| ==> cells[i].row < matrix.Length0 && cells[i].col < matrix.Length1
    requires forall i, j :: 0 <= i < j < |cells| ==> cells[i] != cells[j]
    requires forall i :: 0 <= i < |cells| ==> cells[i] !in later
    ensures Holds(matrix, cells, codewords)
  {
    var visits := cells + later;
    forall i | 0 <= i < |cells| ensures matrix[cells[i].row, cells[i].col] == StreamBit(codewords, i) {
      var last := LastIndex(visits, cells[i]);
      assert visits[i] == cells[i];
      assert visits[|cells|..] == later;
    }
  }

  /** In the original walk every data cell holds its bit, and every other module is as before. */
  lemma WalkHolds(matrix: array2<bool>, before: Grid, codewords: seq<Byte>, size: nat, func: set<Cell>)
    requires Odd(size) && matrix.Length0 == matrix.Length1 == size
    requires Written(matrix, before, codewords, DataCells(size, func, WalkLength(size)))
    ensures Holds(matrix, DataCells(size, func, WalkLength(size)), codewords)
    ensures forall r, c :: 0 <= r < size && 0 <= c < size && (Cell(r, c) in func || c == 6) ==>
      matrix[r, c] == before[r][c]
  {
    hide WalkLength, DataCells;
    var cells := DataCells(size, func, WalkLength(size));
    DataCellsMembers(size, func, WalkLength(size));
    assert cells + [] == cells;
    forall i | 0 <= i < |cells| ensures cells[i].row < size && cells[i].col < size { assert cells[i] in cells; }
    WrittenHolds(matrix, before, codewords, cells, []);
    forall r, c | 0 <= r < size && 0 <= c < size && (Cell(r, c) in func || c == 6)
      ensures matrix[r, c] == before[r][c]
    {
      assert Cell(r, c) !in cells;
    }
  }

  // ---- The walk of the other twin ------------------------------------------------------------------------

  /** The modules that take a bit in the first passes, in order; some come twice. */
  function TwinVisits(size: nat, func: set<Cell>, passes: nat): (visits: seq<Cell>)
    requires Odd(size) && passes <= (size - 1) / 2
  {
    if passes == 0 then []
    else
      var last := passes - 1;
      TwinVisits(size, func, last) + PassVisits(size, func, TwinRightColumn(size, last), last % 2 == 0, 2 * size)
  }

  lemma PassVisitsMembers(size: nat, func: set<Cell>, right: nat, up: bool)
    requires 0 < right < size
    ensures forall cell :: cell in PassVisits(size, func, right, up, 2 * size) <==>
      cell.row < size && right - 1 <= cell.col <= right && cell !in func
  {
    PassVisitsSteps(size, func, right, up, 2 * size);
    forall cell: Cell | cell.row < size && right - 1 <= cell.col <= right && cell !in func
      ensures cell in PassVisits(size, func, right, up, 2 * size)
    {
      var step := 2 * (if up then size - 1 - cell.row else cell.row) + right - cell.col;
      assert StepCell(size, right, up, step) == cell;
    }
  }

  lemma {:induction false} PassVisitsSteps(size: nat, func: set<Cell>, right: nat, up: bool, steps: nat)
    requires 0 < right < size && steps <= 2 * size
    ensures forall cell :: cell in PassVisits(size, func, right, up, steps) ==>
      cell.row < size && right - 1 <= cell.col <= right && cell !in func
    ensures forall step :: 0 <= step < steps && StepCell(size, right, up, step) !in func ==>
      StepCell(size, right, up, step) in PassVisits(size, func, right, up, steps)
  {
    if steps > 0 { PassVisitsSteps(size, func, right, up, steps - 1); }
  }

  lemma {:induction false} TwinVisitsPasses(size: nat, func: set<Cell>, passes: nat)
    requires Odd(size) && passes <= (size - 1) / 2
    ensures forall cell :: cell in TwinVisits(size, func, passes) <==>
      cell.row < size && cell !in func && TwinReaches(size, passes, cell.col)
  {
    hide PassVisits, TwinReaches;
    if passes > 0 {
      var last := passes - 1;
      var right := TwinRightColumn(size, last);
      TwinVisitsPasses(size, func, last);
      PassVisitsMembers(size, func, right, last % 2 == 0);
      forall cell: Cell
        ensures cell in TwinVisits(size, func, passes) <==>
          cell.row < size && cell !in func && TwinReaches(size, passes, cell.col)
      {
        TwinReachesNext(size, last, cell.col);
        assert cell in TwinVisits(size, func, passes) <==>
          cell in TwinVisits(size, func, last) || cell in PassVisits(size, func, right, last % 2 == 0, 2 * size);
      }
    } else {
      forall col: nat ensures !TwinReaches(size, passes, col) { TwinReachesNext(size, 0, col); }
    }
  }

  /** A bit comes to every module but those of columns 0 and 6. */
  lemma TwinVisitsMembers(size: nat, func: set<Cell>)
    requires Odd(size)
    ensures forall cell :: cell in TwinVisits(size, func, (size - 1) / 2) <==>
      cell.row < size && 0 < cell.col < size && cell.col != 6 && cell !in func
  {
    hide TwinVisits, TwinReaches;
    var passes := (size - 1) / 2;
    TwinVisitsPasses(size, func, passes);
    forall col: nat ensures TwinReaches(size, passes, col) <==> 0 < col < size && col != 6 {
      TwinWalk(size, col);
    }
  }

  /** Up to the pass that meets column 6 the twins go the same way. */
  lemma {:induction false} TwinsAgree(size: nat, func: set<Cell>, passes: nat)
    requires Odd(size) && passes <= (size - 5) / 2
    ensures PassStart(size, passes) <= WalkLength(size)
    ensures TwinVisits(size, func, passes) == DataCells(size, func, PassStart(size, passes))
  {
    hide WalkLength, PassVisits;
    if passes > 0 {
      TwinsAgree(size, func, passes - 1);
      WholePass(size, func, passes - 1);
    }
  }

  /** From that pass on the twin stays to the left of column 6. */
  lemma {:induction false} TwinStaysLeft(size: nat, func: set<Cell>, passes: nat) returns (later: seq<Cell>)
    requires Odd(size) && (size - 7) / 2 <= passes <= (size - 1) / 2
    ensures TwinVisits(size, func, passes) == TwinVisits(size, func, (size - 7) / 2) + later
    ensures forall cell :: cell in later ==> 1 <= cell.col <= 5
  {
    hide PassVisits;
    if passes == (size - 7) / 2 {
      later := [];
    } else {
      var right := TwinRightColumn(size, passes - 1);
      later := TwinStaysLeft(size, func, passes - 1);
      PassVisitsMembers(size, func, right, (passes - 1) % 2 == 0);
      later := later + PassVisits(size, func, right, (passes - 1) % 2 == 0, 2 * size);
    }
  }

  /** The twin's data cells right of column 6 hold the same bits as in the original; function modules are as before. */
  lemma TwinHolds(matrix: array2<bool>, before: Grid, codewords: seq<Byte>, size: nat, func: set<Cell>)
    requires Odd(size) && matrix.Length0 == matrix.Length1 == size
    requires Written(matrix, before, codewords, TwinVisits(size, func, (size - 1) / 2))
    ensures Holds(matrix, RightCells(size, func), codewords)
    ensures forall r, c :: 0 <= r < size && 0 <= c < size && (Cell(r, c) in func || c == 0 || c == 6) ==>
      matrix[r, c] == before[r][c]
  {
    hide WalkLength, DataCells, TwinVisits;
    RightCellsMembers(size, func);
    TwinsAgree(size, func, (size - 7) / 2);
    var cells := RightCells(size, func);
    var later := TwinStaysLeft(size, func, (size - 1) / 2);
    forall i | 0 <= i < |cells| ensures cells[i].row < size && cells[i].col < size && cells[i] !in later {
      assert cells[i] in cells;
    }
    WrittenHolds(matrix, before, codewords, cells, later);
    TwinVisitsMembers(size, func);
    forall r, c | 0 <= r < size && 0 <= c < size && (Cell(r, c) in func || c == 0 || c == 6)
      ensures matrix[r, c] == before[r][c]
    {
      assert Cell(r, c) !in TwinVisits(size, func, (size - 1) / 2);
    }
  }
}
