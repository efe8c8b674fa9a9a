/** The function modules: finders, timing lines, alignment patterns, the reserved format area. */
module FunctionModules {
  import opened BitStream
  import opened ZigZag

  // ---- Where they are ---------------------------------------------------------------------------

  predicate InRect(r: int, c: int, top: int, left: int, height: int, width: int) {
    top <= r < top + height && left <= c < left + width
  }

  /** A finder with its corner at (r0, c0) and its separator, one module wider on every side. */
  predicate InFinder(r: int, c: int, r0: int, c0: int) {
    InRect(r, c, r0 - 1, c0 - 1, 9, 9)
  }

  predicate InTiming(size: int, r: int, c: int) {
    (r == 6 && 8 <= c < size - 8) || (c == 6 && 8 <= r < size - 8)
  }

  /** Alignment patterns that would meet a finder are left out. */
  predicate MeetsFinder(size: int, ar: int, ac: int) {
    (ar <= 8 && ac <= 8) || (ar <= 8 && ac >= size - 8) || (ar >= size - 8 && ac <= 8)
  }

  predicate InAlignment(r: int, c: int, ar: int, ac: int) {
    InRect(r, c, ar - 2, ac - 2, 5, 5)
  }

  /** A centre of the coordinate table whose pattern is drawn. */
  predicate Drawn(spec: VersionSpec, ar: int, ac: int) {
    ar in spec.alignment && ac in spec.alignment && !MeetsFinder(spec.size, ar, ac)
  }

  predicate InAlignments(spec: VersionSpec, r: int, c: int) {
    exists ar, ac | ar in spec.alignment && ac in spec.alignment ::
      Drawn(spec, ar, ac) && InAlignment(r, c, ar, ac)
  }

  /** The strips next to the finders that carry the format bits, with the module that is always dark. */
  predicate InFormat(size: int, r: int, c: int) {
    (r == 8 && (c <= 8 || c >= size - 8)) || (c == 8 && (r <= 8 || r >= size - 8))
  }

  predicate IsFunction(spec: VersionSpec, r: int, c: int) {
    || InFinder(r, c, 0, 0) || InFinder(r, c, 0, spec.size - 7) || InFinder(r, c, spec.size - 7, 0)
    || InTiming(spec.size, r, c) || InAlignments(spec, r, c) || InFormat(spec.size, r, c)
  }

  function FunctionCells(spec: VersionSpec): (cells: set<Cell>)
    ensures forall cell :: cell in cells <==>
      cell.row < spec.size && cell.col < spec.size && IsFunction(spec, cell.row, cell.col)
  {
    set r, c | 0 <= r < spec.size && 0 <= c < spec.size && IsFunction(spec, r, c) :: Cell(r, c)
  }

  // ---- What they look like -----------------------------------------------------------------------

  /** A dark ring around a dark square, seen from the corner of the finder. */
  predicate FinderDark(r: int, c: int) {
    || (0 <= r <= 6 && (c == 0 || c == 6)) || (0 <= c <= 6 && (r == 0 || r == 6))
    || (2 <= r <= 4 && 2 <= c <= 4)
  }

  /** Every other module, starting with a dark one. */
  predicate TimingDark(r: int, c: int) {
    (if r == 6 then c else r) % 2 == 0
  }

  function Abs(x: int): int {
    if x < 0 then -x else x
  }

  /** A dark ring around a dark module, seen from the centre of the pattern. */
  predicate AlignmentDark(r: int, c: int) {
    (if Abs(r) > Abs(c) then Abs(r) else Abs(c)) != 1
  }

  /** No two patterns of the table overlap. */
  predicate Apart(spec: VersionSpec) {
    forall a, b :: a in spec.alignment && b in spec.alignment && a != b ==> Abs(a - b) > 4
  }

  lemma TableApart(spec: VersionSpec)
    requires spec in VERSION_SPECS
    ensures Apart(spec) && spec.size >= 21
  {}

  predicate AlignedDark(spec: VersionSpec, r: int, c: int) {
    exists ar, ac | ar in spec.alignment && ac in spec.alignment ::
      Drawn(spec, ar, ac) && InAlignment(r, c, ar, ac) && AlignmentDark(r - ar, c - ac)
  }

  /** Alignment patterns cover the timing lines; whatever is no function module is light. */
  predicate FunctionDark(spec: VersionSpec, r: int, c: int) {
    var size := spec.size;
    if InAlignments(spec, r, c) then AlignedDark(spec, r, c)
    else if InTiming(size, r, c) then TimingDark(r, c)
    else if InFinder(r, c, size - 7, 0) then FinderDark(r - (size - 7), c)
    else if InFinder(r, c, 0, size - 7) then FinderDark(r, c - (size - 7))
    else InFinder(r, c, 0, 0) && FinderDark(r, c)
  }

  /** A cell belongs to one pattern at most. */
  lemma OnePattern(spec: VersionSpec, r: int, c: int, ar: nat, ac: nat)
    requires Apart(spec) && Drawn(spec, ar, ac) && InAlignment(r, c, ar, ac)
    ensures InAlignments(spec, r, c) && (AlignedDark(spec, r, c) <==> AlignmentDark(r - ar, c - ac))
  {
    forall br: nat, bc: nat | Drawn(spec, br, bc) && InAlignment(r, c, br, bc) ensures br == ar && bc == ac {}
  }

  // ---- Drawing them -----------------------------------------------------------------------------

  ghost predicate Pair(matrix: array2<bool>, isFunc: array2<bool>, size: nat) {
    matrix != isFunc && matrix.Length0 == matrix.Length1 == isFunc.Length0 == isFunc.Length1 == size
  }

  method SetFunc(matrix: array2<bool>, isFunc: array2<bool>, size: nat, r: int, c: int, v: bool)
    requires Pair(matrix, isFunc, size)
    modifies matrix, isFunc
    ensures forall i, j :: 0 <= i < size && 0 <= j < size ==>
      && (isFunc[i, j] <==> old(isFunc[i, j]) || (i == r && j == c))
      && (matrix[i, j] == if i == r && j == c then v else old(matrix[i, j]))
  {
    if 0 <= r < size && 0 <= c < size {
      matrix[r, c] := v;
      isFunc[r, c] := true;
    }
  }

  method DrawFinder(matrix: array2<bool>, isFunc: array2<bool>, size: nat, r0: int, c0: int)
    requires Pair(matrix, isFunc, size)
    modifies matrix, isFunc
    ensures forall i, j :: 0 <= i < size && 0 <= j < size ==>
      && (isFunc[i, j] <==> old(isFunc[i, j]) || InFinder(i, j, r0, c0))
      && (matrix[i, j] == if InFinder(i, j, r0, c0) then FinderDark(i - r0, j - c0) else old(matrix[i, j]))
  {
    hide FinderDark;
    for r := -1 to 8
      invariant forall i, j :: 0 <= i < size && 0 <= j < size ==>
        var done := InRect(i, j, r0 - 1, c0 - 1, r + 1, 9);
        && (isFunc[i, j] <==> old(isFunc[i, j]) || done)
        && (matrix[i, j] == if done then FinderDark(i - r0, j - c0) else old(matrix[i, j]))
    {
      for c := -1 to 8
        invariant forall i, j :: 0 <= i < size && 0 <= j < size ==>
          var done := InRect(i, j, r0 - 1, c0 - 1, r + 1, 9) || InRect(i, j, r0 + r, c0 - 1, 1, c + 1);
          && (isFunc[i, j] <==> old(isFunc[i, j]) || done)
          && (matrix[i, j] == if done then FinderDark(i - r0, j - c0) else old(matrix[i, j]))
      {
        SetFunc(matrix, isFunc, size, r0 + r, c0 + c, FinderDark(r, c));
      }
    }
  }

  method DrawTiming(matrix: array2<bool>, isFunc: array2<bool>, size: nat)
    requires Pair(matrix, isFunc, size) && size >= 16
    modifies matrix, isFunc
    ensures forall i, j :: 0 <= i < size && 0 <= j < size ==>
      && (isFunc[i, j] <==> old(isFunc[i, j]) || InTiming(size, i, j))
      && (matrix[i, j] == if InTiming(size, i, j) then TimingDark(i, j) else old(matrix[i, j]))
  {
    for k := 8 to size - 8
      invariant forall i, j :: 0 <= i < size && 0 <= j < size ==>
        var done := (i == 6 && 8 <= j < k) || (j == 6 && 8 <= i < k);
        && (isFunc[i, j] <==> old(isFunc[i, j]) || done)
        && (matrix[i, j] == if done then TimingDark(i, j) else old(matrix[i, j]))
    {
      SetFunc(matrix, isFunc, size, 6, k, k % 2 == 0);
      SetFunc(matrix, isFunc, size, k, 6, k % 2 == 0);
    }
  }

  method DrawAlignment(matrix: array2<bool>, isFunc: array2<bool>, size: nat, ar: int, ac: int)
    requires Pair(matrix, isFunc, size)
    modifies matrix, isFunc
    ensures forall i, j :: 0 <= i < size && 0 <= j < size ==>
      && (isFunc[i, j] <==> old(isFunc[i, j]) || InAlignment(i, j, ar, ac))
      && (matrix[i, j] == if InAlignment(i, j, ar, ac) then AlignmentDark(i - ar, j - ac) else old(matrix[i, j]))
  {
    hide AlignmentDark;
    for r := -2 to 3
      invariant forall i, j :: 0 <= i < size && 0 <= j < size ==>
        var done := InRect(i, j, ar - 2, ac - 2, r + 2, 5);
        && (isFunc[i, j] <==> old(isFunc[i, j]) || done)
        && (matrix[i, j] == if done then AlignmentDark(i - ar, j - ac) else old(matrix[i, j]))
    {
      for c := -2 to 3
        invariant forall i, j :: 0 <= i < size && 0 <= j < size ==>
          var done := InRect(i, j, ar - 2, ac - 2, r + 2, 5) || InRect(i, j, ar + r, ac - 2, 1, c + 2);
          && (isFunc[i, j] <==> old(isFunc[i, j]) || done)
          && (matrix[i, j] == if done then AlignmentDark(i - ar, j - ac) else old(matrix[i, j]))
      {
        SetFunc(matrix, isFunc, size, ar + r, ac + c, AlignmentDark(r, c));
      }
    }
  }

  /** The alignment patterns drawn after some rows and columns of the coordinate table. */
  predicate AlignedUpTo(spec: VersionSpec, r: int, c: int, rows: nat, cols: nat) {
    exists i, j :: 0 <= i < |spec.alignment| && 0 <= j < |spec.alignment| && (i < rows || (i == rows && j < cols)) &&
      Drawn(spec, spec.alignment[i], spec.alignment[j]) && InAlignment(r, c, spec.alignment[i], spec.alignment[j])
  }

  method DrawAlignments(matrix: array2<bool>, isFunc: array2<bool>, spec: VersionSpec)
    requires Pair(matrix, isFunc, spec.size) && Apart(spec)
    modifies matrix, isFunc
    ensures forall i, j :: 0 <= i < spec.size && 0 <= j < spec.size ==>
      && (isFunc[i, j] <==> old(isFunc[i, j]) || InAlignments(spec, i, j))
      && (matrix[i, j] == if InAlignments(spec, i, j) then AlignedDark(spec, i, j) else old(matrix[i, j]))
  {
    hide InAlignment, AlignmentDark, AlignedDark, InAlignments, AlignedUpTo, Apart, MeetsFinder;
    var size, n := spec.size, |spec.alignment|;
    forall i: int, j: int
      ensures !AlignedUpTo(spec, i, j, 0, 0) && (AlignedUpTo(spec, i, j, n, 0) <==> InAlignments(spec, i, j))
    {
      NoneToAll(spec, i, j);
    }
    for a := 0 to n
      invariant forall i, j :: 0 <= i < size && 0 <= j < size ==>
        var done := AlignedUpTo(spec, i, j, a, 0);
        && (isFunc[i, j] <==> old(isFunc[i, j]) || done)
        && (matrix[i, j] == if done then AlignedDark(spec, i, j) else old(matrix[i, j]))
    {
      for b := 0 to n
        invariant forall i, j :: 0 <= i < size && 0 <= j < size ==>
          var done := AlignedUpTo(spec, i, j, a, b);
          && (isFunc[i, j] <==> old(isFunc[i, j]) || done)
          && (matrix[i, j] == if done then AlignedDark(spec, i, j) else old(matrix[i, j]))
      {
        var ar, ac := spec.alignment[a], spec.alignment[b];
        forall i: int, j: int | InAlignment(i, j, ar, ac) && Drawn(spec, ar, ac)
          ensures AlignedDark(spec, i, j) <==> AlignmentDark(i - ar, j - ac)
        {
          OnePattern(spec, i, j, ar, ac);
        }
        forall i: int, j: int ensures AlignedUpTo(spec, i, j, a, b + 1) <==>
          AlignedUpTo(spec, i, j, a, b) || (Drawn(spec, ar, ac) && InAlignment(i, j, ar, ac))
        {
          NextPattern(spec, i, j, a, b);
        }
        if !MeetsFinder(size, ar, ac) {
          DrawAlignment(matrix, isFunc, size, ar, ac);
        }
      }
      forall i: int, j: int ensures AlignedUpTo(spec, i, j, a, n) <==> AlignedUpTo(spec, i, j, a + 1, 0) {
        NextRow(spec, i, j, a);
      }
    }
  }

  lemma NextPattern(spec: VersionSpec, r: int, c: int, a: nat, b: nat)
    requires a < |spec.alignment| && b < |spec.alignment|
    ensures var ar, ac := spec.alignment[a], spec.alignment[b];
      AlignedUpTo(spec, r, c, a, b + 1) <==>
      (AlignedUpTo(spec, r, c, a, b) || (Drawn(spec, ar, ac) && InAlignment(r, c, ar, ac)))
  {}

  lemma NextRow(spec: VersionSpec, r: int, c: int, a: nat)
    requires a < |spec.alignment|
    ensures AlignedUpTo(spec, r, c, a, |spec.alignment|) <==> AlignedUpTo(spec, r, c, a + 1, 0)
  {}

  lemma NoneToAll(spec: VersionSpec, r: int, c: int)
    ensures !AlignedUpTo(spec, r, c, 0, 0)
    ensures AlignedUpTo(spec, r, c, |spec.alignment|, 0) <==> InAlignments(spec, r, c)
  {}

  /** What is reserved is light, but for one module, and what was drawn before stays as it was. */
  method ReserveFormat(matrix: array2<bool>, isFunc: array2<bool>, size: nat)
    requires Pair(matrix, isFunc, size) && size >= 18
    modifies matrix, isFunc
    ensures forall i, j :: 0 <= i < size && 0 <= j < size ==>
      && (isFunc[i, j] <==> old(isFunc[i, j]) || InFormat(size, i, j))
      && (matrix[i, j] == if i == size - 8 && j == 8 then true
                          else if InFormat(size, i, j) && !old(isFunc[i, j]) then false else old(matrix[i, j]))
  {
    SetFunc(matrix, isFunc, size, size - 8, 8, true);
    for k := 0 to 9
      invariant forall i, j :: 0 <= i < size && 0 <= j < size ==>
        var dark, done := i == size - 8 && j == 8, (i == 8 && j < k) || (j == 8 && i < k);
        && (isFunc[i, j] <==> old(isFunc[i, j]) || dark || done)
        && (matrix[i, j] == if dark then true else if done && !old(isFunc[i, j]) then false else old(matrix[i, j]))
    {
      if k < size {
        if !isFunc[8, k] { SetFunc(matrix, isFunc, size, 8, k, false); }
        if !isFunc[k, 8] { SetFunc(matrix, isFunc, size, k, 8, false); }
      }
    }
    for k := 0 to 8
      invariant forall i, j :: 0 <= i < size && 0 <= j < size ==>
        var dark := i == size - 8 && j == 8;
        var done := (i == 8 && (j <= 8 || j >= size - k)) || (j == 8 && (i <= 8 || i >= size - k));
        && (isFunc[i, j] <==> old(isFunc[i, j]) || dark || done)
        && (matrix[i, j] == if dark then true else if done && !old(isFunc[i, j]) then false else old(matrix[i, j]))
    {
      if 0 <= size - 1 - k < size {
        if !isFunc[8, size - 1 - k] { SetFunc(matrix, isFunc, size, 8, size - 1 - k, false); }
        if !isFunc[size - 1 - k, 8] { SetFunc(matrix, isFunc, size, size - 1 - k, 8, false); }
      }
    }
  }

  /** Every module is given, function module or not: what no pattern claims stays light. */
  method DrawFunctionModules(matrix: array2<bool>, isFunc: array2<bool>, spec: VersionSpec)
    requires Pair(matrix, isFunc, spec.size) && spec.size >= 18 && Apart(spec)
    requires forall i, j :: 0 <= i < spec.size && 0 <= j < spec.size ==> !isFunc[i, j] && !matrix[i, j]
    modifies matrix, isFunc
    ensures forall i, j :: 0 <= i < spec.size && 0 <= j < spec.size ==>
      && (isFunc[i, j] <==> IsFunction(spec, i, j))
      && (matrix[i, j] <==> FunctionDark(spec, i, j) || (i == spec.size - 8 && j == 8))
  {
    hide InFinder, InTiming, InAlignments, InFormat, FinderDark, TimingDark, AlignedDark;
    var size := spec.size;
    DrawFinder(matrix, isFunc, size, 0, 0);
    DrawFinder(matrix, isFunc, size, 0, size - 7);
    DrawFinder(matrix, isFunc, size, size - 7, 0);
    DrawTiming(matrix, isFunc, size);
    DrawAlignments(matrix, isFunc, spec);
    ReserveFormat(matrix, isFunc, size);
    DarkModule(size);
  }

  lemma DarkModule(size: int)
    ensures InFormat(size, size - 8, 8)
  {}
}
