/** How many data modules each version offers: a covering of the function modules by rectangles. */
module Capacity {
  import opened Arithmetic
  import opened Collections
  import opened BitStream
  import opened ZigZag
  import opened FunctionModules

  datatype Rect = Rect(top: nat, left: nat, height: nat, width: nat) {
    function Area(): nat { height * width }
  }

  /** The data modules of a version, in the order of the walk. */
  function DataModules(spec: VersionSpec): seq<Cell>
    requires Odd(spec.size)
  {
    DataCells(spec.size, FunctionCells(spec), WalkLength(spec.size))
  }

  function RowCells(row: nat, left: nat, width: nat): (cells: set<Cell>)
    ensures forall cell :: cell in cells <==> cell.row == row && left <= cell.col < left + width
  {
    if width == 0 then {} else RowCells(row, left, width - 1) + {Cell(row, left + width - 1)}
  }

  function RectCells(rect: Rect): (cells: set<Cell>)
    ensures forall cell :: cell in cells <==> InRect(cell.row, cell.col, rect.top, rect.left, rect.height, rect.width)
    decreases rect.height
  {
    if rect.height == 0 then {}
    else RectCells(rect.(height := rect.height - 1)) + RowCells(rect.top + rect.height - 1, rect.left, rect.width)
  }

  lemma {:induction false} RowSize(row: nat, left: nat, width: nat)
    ensures |RowCells(row, left, width)| == width
  {
    if width > 0 { RowSize(row, left, width - 1); }
  }

  lemma {:induction false} RectSize(rect: Rect)
    ensures |RectCells(rect)| == rect.height * rect.width
    decreases rect.height
  {
    hide RectCells;
    if rect.height == 0 {
      assert RectCells(rect) == {};
    } else {
      var h, w := rect.height - 1, rect.width;
      RectSize(rect.(height := h));
      LastRow(rect);
      Distribute(h, 1, w);
    }
  }

  lemma SplitLastRow(rect: Rect)
    requires rect.height > 0
    ensures RectCells(rect)
         == RectCells(rect.(height := rect.height - 1)) + RowCells(rect.top + rect.height - 1, rect.left, rect.width)
  {
    hide RowCells, InRect;
  }

  lemma LastRow(rect: Rect)
    requires rect.height > 0
    ensures |RectCells(rect)| == |RectCells(rect.(height := rect.height - 1))| + rect.width
  {
    hide RectCells, RowCells;
    var upper, last := rect.(height := rect.height - 1), rect.top + rect.height - 1;
    SplitLastRow(rect);
    RowSize(last, rect.left, rect.width);
    AboveAndBelow(RectCells(upper), RowCells(last, rect.left, rect.width), last);
  }

  lemma AboveAndBelow(above: set<Cell>, below: set<Cell>, row: nat)
    requires forall cell :: cell in above ==> cell.row < row
    requires forall cell :: cell in below ==> cell.row >= row
    ensures |above + below| == |above| + |below|
  {
    assert above !! below;
  }

  function TotalArea(rects: seq<Rect>): nat {
    if rects == [] then 0 else rects[0].Area() + TotalArea(rects[1..])
  }

  predicate Covered(cell: Cell, rects: seq<Rect>) {
    exists i :: 0 <= i < |rects| &&
      InRect(cell.row, cell.col, rects[i].top, rects[i].left, rects[i].height, rects[i].width)
  }

  /** A set covered by rectangles has at most as many cells as their areas add up to. */
  lemma {:induction false} CoverSize(cells: set<Cell>, rects: seq<Rect>)
    requires forall cell :: cell in cells ==> Covered(cell, rects)
    ensures |cells| <= TotalArea(rects)
    decreases |rects|
  {
    hide RectCells, InRect;
    if rects != [] {
      var first := RectCells(rects[0]);
      RestCovered(cells, rects);
      CoverSize(cells - first, rects[1..]);
      RectSize(rects[0]);
      SplitSize(cells, first);
    } else {
      assert cells == {} by { NothingCovered(cells); }
    }
  }

  lemma NothingCovered(cells: set<Cell>)
    requires forall cell :: cell in cells ==> Covered(cell, [])
    ensures cells == {}
  {}

  lemma RestCovered(cells: set<Cell>, rects: seq<Rect>)
    requires rects != [] && forall cell :: cell in cells ==> Covered(cell, rects)
    ensures forall cell :: cell in cells - RectCells(rects[0]) ==> Covered(cell, rects[1..])
  {
    forall cell | cell in cells - RectCells(rects[0]) ensures Covered(cell, rects[1..]) {
      var i :| 0 <= i < |rects| &&
        InRect(cell.row, cell.col, rects[i].top, rects[i].left, rects[i].height, rects[i].width);
      assert rects[1..][i - 1] == rects[i];
    }
  }

  lemma TwoParts<T>(cells: set<T>, first: set<T>)
    ensures cells * first + (cells - first) == cells && cells * first !! cells - first && cells * first <= first
  {}

  lemma SplitSize<T>(cells: set<T>, first: set<T>)
    ensures |cells| <= |cells - first| + |first|
  {
    var both, rest := cells * first, cells - first;
    TwoParts(cells, first);
    SubsetSize(both, first);
    DisjointSize(both, rest);
  }

  /** What a covering leaves of a region is in the list. */
  lemma RestCount(region: Rect, rects: seq<Rect>, data: seq<Cell>)
    requires forall cell :: cell in RectCells(region) ==> Covered(cell, rects) || cell in data
    requires forall i, j :: 0 <= i < j < |data| ==> data[i] != data[j]
    ensures |data| + TotalArea(rects) >= region.Area()
  {
    hide RectCells, Covered, TotalArea;
    var all, dataSet := RectCells(region), SetOf(data);
    var rest := all - dataSet;
    DistinctSize(data);
    RectSize(region);
    CoverSize(rest, rects);
    SplitSize(all, dataSet);
  }

  /** Whatever the function modules leave over is a data module. */
  lemma DataModulesCount(spec: VersionSpec, rects: seq<Rect>)
    requires Odd(spec.size) && forall r :: 0 <= r < spec.size ==> IsFunction(spec, r, 6)
    requires forall cell :: cell in FunctionCells(spec) ==> Covered(cell, rects)
    ensures |DataModules(spec)| + TotalArea(rects) >= spec.size * spec.size
  {
    hide Covered, IndexOf, TotalArea;
    var all, data := Rect(0, 0, spec.size, spec.size), DataModules(spec);
    DataCellsMembers(spec.size, FunctionCells(spec), WalkLength(spec.size));
    forall cell | cell in RectCells(all) ensures Covered(cell, rects) || cell in data {
      if cell !in FunctionCells(spec) { WalkSurjective(spec.size, cell); }
    }
    RestCount(all, rects, data);
  }

  /** Coordinates of the alignment patterns that are drawn. */
  function AlignmentCentres(spec: VersionSpec): seq<(nat, nat)> {
    if spec.alignment == [] then []
    else if |spec.alignment| == 2 then [(spec.alignment[1], spec.alignment[1])]
    else [(6, 22), (22, 6), (22, 22), (22, 38), (38, 22), (38, 38)]
  }

  function CentreRects(centres: seq<(nat, nat)>): (rects: seq<Rect>)
    ensures |rects| == |centres|
  {
    seq(|centres|, i requires 0 <= i < |centres| =>
      Rect(if centres[i].0 >= 2 then centres[i].0 - 2 else 0, if centres[i].1 >= 2 then centres[i].1 - 2 else 0, 5, 5))
  }

  /** The alignment patterns, without the part of them that lies on a timing line. */
  function Squares(spec: VersionSpec): seq<Rect> {
    if spec.alignment == [] then []
    else if |spec.alignment| == 2 && spec.size >= 21 then [Rect(spec.size - 9, spec.size - 9, 5, 5)]
    else [Rect(4, 20, 2, 5), Rect(7, 20, 2, 5), Rect(20, 4, 5, 2), Rect(20, 7, 5, 2),
          Rect(20, 20, 5, 5), Rect(20, 36, 5, 5), Rect(36, 20, 5, 5), Rect(36, 36, 5, 5)]
  }

  /** Corners, the free part of the timing lines, alignment patterns: no two of them overlap. */
  function Tiles(spec: VersionSpec): seq<Rect>
    requires spec.size >= 21
  {
    [Rect(0, 0, 9, 9), Rect(0, spec.size - 8, 9, 8), Rect(spec.size - 8, 0, 8, 9),
     Rect(6, 9, 1, spec.size - 17), Rect(9, 6, spec.size - 17, 1)] + Squares(spec)
  }

  lemma FunctionCovered(spec: VersionSpec, cell: Cell)
    requires spec in VERSION_SPECS && cell in FunctionCells(spec)
    ensures Covered(cell, Tiles(spec))
  {
    var n, tiles := spec.size, Tiles(spec);
    assert tiles[0] == Rect(0, 0, 9, 9) && tiles[1] == Rect(0, n - 8, 9, 8) && tiles[2] == Rect(n - 8, 0, 8, 9);
    assert tiles[3] == Rect(6, 9, 1, n - 17) && tiles[4] == Rect(9, 6, n - 17, 1);
    if InAlignments(spec, cell.row, cell.col) && cell.row != 6 && cell.col != 6 {
      hide Covered, InFinder, InFormat;
      var ar, ac :| ar in spec.alignment && ac in spec.alignment &&
        Drawn(spec, ar, ac) && InAlignment(cell.row, cell.col, ar, ac);
      SquareTile(spec, cell, ar, ac);
      SquareCovers(cell, tiles[..5], Squares(spec));
    }
  }

  /** Off the timing lines a pattern is among the squares. */
  lemma SquareTile(spec: VersionSpec, cell: Cell, ar: nat, ac: nat)
    requires spec in VERSION_SPECS && Drawn(spec, ar, ac) && InAlignment(cell.row, cell.col, ar, ac)
    requires cell.row != 6 && cell.col != 6
    ensures Covered(cell, Squares(spec))
  {
    AlignmentListed(spec, ar, ac);
    var squares := Squares(spec);
    if |spec.alignment| == 2 {
      CoveredBy(cell, squares, 0);
    } else if (ar, ac) == (6, 22) {
      CoveredBy(cell, squares, if cell.row < 6 then 0 else 1);
    } else if (ar, ac) == (22, 6) {
      CoveredBy(cell, squares, if cell.col < 6 then 2 else 3);
    } else if (ar, ac) == (22, 22) {
      CoveredBy(cell, squares, 4);
    } else if (ar, ac) == (22, 38) {
      CoveredBy(cell, squares, 5);
    } else if (ar, ac) == (38, 22) {
      CoveredBy(cell, squares, 6);
    } else {
      CoveredBy(cell, squares, 7);
    }
  }

  lemma AlignmentListed(spec: VersionSpec, ar: nat, ac: nat)
    requires spec in VERSION_SPECS && Drawn(spec, ar, ac)
    ensures (ar, ac) in AlignmentCentres(spec) && ar >= 2 && ac >= 2
  {}

  lemma CentreCovers(centres: seq<(nat, nat)>, ar: nat, ac: nat, cell: Cell)
    requires (ar, ac) in centres && ar >= 2 && ac >= 2 && InAlignment(cell.row, cell.col, ar, ac)
    ensures Covered(cell, CentreRects(centres))
  {
    var i :| 0 <= i < |centres| && centres[i] == (ar, ac);
    assert CentreRects(centres)[i] == Rect(ar - 2, ac - 2, 5, 5);
  }

  lemma {:induction false} TotalAreaConcat(a: seq<Rect>, b: seq<Rect>)
    ensures TotalArea(a + b) == TotalArea(a) + TotalArea(b)
  {
    if a == [] {
      assert a + b == b;
    } else {
      assert (a + b)[1..] == a[1..] + b;
      TotalAreaConcat(a[1..], b);
    }
  }

  lemma {:induction false} SquaresArea(rects: seq<Rect>)
    requires forall i :: 0 <= i < |rects| ==> rects[i].Area() == 25
    ensures TotalArea(rects) == 25 * |rects|
  {
    if rects != [] { SquaresArea(rects[1..]); }
  }

  lemma TilesArea(spec: VersionSpec)
    requires spec.size >= 21
    ensures TotalArea(Tiles(spec)) == 225 + 2 * (spec.size - 17) + TotalArea(Squares(spec))
  {
    hide Squares;
    var n := spec.size;
    var a, b := Rect(0, 0, 9, 9), Rect(0, n - 8, 9, 8);
    var c, d, e := Rect(n - 8, 0, 8, 9), Rect(6, 9, 1, n - 17), Rect(9, 6, n - 17, 1);
    var squares := Squares(spec);
    assert Tiles(spec) == [a] + ([b] + ([c] + ([d] + ([e] + squares))));
    TotalAreaConcat([a], [b] + ([c] + ([d] + ([e] + squares))));
    TotalAreaConcat([b], [c] + ([d] + ([e] + squares)));
    TotalAreaConcat([c], [d] + ([e] + squares));
    TotalAreaConcat([d], [e] + squares);
    TotalAreaConcat([e], squares);
  }

  lemma SquaresSum(spec: VersionSpec)
    requires spec in VERSION_SPECS
    ensures TotalArea(Squares(spec)) == if spec.version == 1 then 0 else if spec.version == 7 then 140 else 25
  {
    if spec.version == 7 {
      var a, b, c, d := Rect(4, 20, 2, 5), Rect(7, 20, 2, 5), Rect(20, 4, 5, 2), Rect(20, 7, 5, 2);
      var rest := [Rect(20, 20, 5, 5), Rect(20, 36, 5, 5), Rect(36, 20, 5, 5), Rect(36, 36, 5, 5)];
      assert Squares(spec) == [a] + ([b] + ([c] + ([d] + rest)));
      TotalAreaConcat([a], [b] + ([c] + ([d] + rest)));
      TotalAreaConcat([b], [c] + ([d] + rest));
      TotalAreaConcat([c], [d] + rest);
      TotalAreaConcat([d], rest);
      SquaresArea(rest);
    }
  }

  ghost predicate NoOverlap(rects: seq<Rect>) {
    forall i, j :: 0 <= i < j < |rects| ==> RectCells(rects[i]) !! RectCells(rects[j])
  }

  /** Rectangles that lie in a set and do not overlap have at most as many cells together. */
  lemma {:induction false} PackingSize(cells: set<Cell>, rects: seq<Rect>)
    requires NoOverlap(rects) && forall i :: 0 <= i < |rects| ==> RectCells(rects[i]) <= cells
    ensures TotalArea(rects) <= |cells|
    decreases |rects|
  {
    hide RectCells;
    if rects != [] {
      var first, rest := RectCells(rects[0]), rects[1..];
      forall i | 0 <= i < |rest| ensures RectCells(rest[i]) <= cells - first { assert rest[i] == rects[i + 1]; }
      forall i, j | 0 <= i < j < |rest| ensures RectCells(rest[i]) !! RectCells(rest[j]) {
        assert rest[i] == rects[i + 1] && rest[j] == rects[j + 1];
      }
      PackingSize(cells - first, rest);
      RectSize(rects[0]);
      TwoParts(cells, first);
      assert cells * first == first;
      DisjointSize(first, cells - first);
    }
  }

  lemma TilesInside(spec: VersionSpec)
    requires spec in VERSION_SPECS
    ensures var tiles := Tiles(spec);
      forall i :: 0 <= i < |tiles| ==> RectCells(tiles[i]) <= FunctionCells(spec)
  {
    hide RectCells, FunctionCells, IsFunction, Squares;
    var tiles := Tiles(spec);
    forall i | 0 <= i < |tiles| ensures RectCells(tiles[i]) <= FunctionCells(spec) {
      forall cell | cell in RectCells(tiles[i]) ensures cell in FunctionCells(spec) {
        if i < 5 {
          CornerInside(spec, cell, i);
        } else {
          assert tiles[i] == Squares(spec)[i - 5];
          SquareInside(spec, cell, i - 5);
        }
      }
    }
  }

  lemma CornerInside(spec: VersionSpec, cell: Cell, i: nat)
    requires spec in VERSION_SPECS && i < 5
    requires var tile := Tiles(spec)[i]; InRect(cell.row, cell.col, tile.top, tile.left, tile.height, tile.width)
    ensures cell in FunctionCells(spec)
  {
    hide InAlignments, Squares;
    TableShape(spec);
  }

  /** The pattern a square is of. */
  function Centre(spec: VersionSpec, i: nat): (nat, nat) {
    if |spec.alignment| == 2 && spec.size >= 21 then (spec.size - 7, spec.size - 7)
    else if i < 2 then (6, 22) else if i < 4 then (22, 6) else if i == 4 then (22, 22)
    else if i == 5 then (22, 38) else if i == 6 then (38, 22) else (38, 38)
  }

  lemma InSquare(spec: VersionSpec, r: nat, c: nat, i: nat)
    requires spec in VERSION_SPECS && i < |Squares(spec)|
    requires var square := Squares(spec)[i]; InRect(r, c, square.top, square.left, square.height, square.width)
    ensures InAlignment(r, c, Centre(spec, i).0, Centre(spec, i).1)
    ensures r < spec.size && c < spec.size
  {
    TableShape(spec);
    if spec.version == 7 {
      assert i == 0 || i == 1 || i == 2 || i == 3 || i == 4 || i == 5 || i == 6 || i == 7;
    }
  }

  lemma SquareInside(spec: VersionSpec, cell: Cell, i: nat)
    requires spec in VERSION_SPECS && i < |Squares(spec)| && cell in RectCells(Squares(spec)[i])
    ensures cell in FunctionCells(spec)
  {
    hide RectCells, FunctionCells, Squares, Drawn, InAlignment, InRect;
    var centre := Centre(spec, i);
    InSquare(spec, cell.row, cell.col, i);
    SquareCentre(spec, i);
    assert InAlignments(spec, cell.row, cell.col);
  }

  lemma SquareCentre(spec: VersionSpec, i: nat)
    requires spec in VERSION_SPECS && i < |Squares(spec)|
    ensures var (ar, ac) := Centre(spec, i); ar in spec.alignment && ac in spec.alignment && Drawn(spec, ar, ac)
  {
    TableShape(spec);
  }

  lemma TilesApart(spec: VersionSpec)
    requires spec in VERSION_SPECS
    ensures NoOverlap(Tiles(spec))
  {
    var tiles := Tiles(spec);
    forall i, j | 0 <= i < j < |tiles| ensures RectCells(tiles[i]) !! RectCells(tiles[j]) {
      TwoTiles(spec, i, j);
      NoCommonCell(tiles[i], tiles[j]);
    }
  }

  predicate Beside(a: Rect, b: Rect) {
    || a.top + a.height <= b.top || b.top + b.height <= a.top
    || a.left + a.width <= b.left || b.left + b.width <= a.left
  }

  lemma NoCommonCell(a: Rect, b: Rect)
    requires Beside(a, b)
    ensures RectCells(a) !! RectCells(b)
  {
    forall cell | cell in RectCells(a) && cell in RectCells(b) ensures false {}
  }

  lemma TwoTiles(spec: VersionSpec, i: nat, j: nat)
    requires spec in VERSION_SPECS && i < j < |Tiles(spec)|
    ensures Beside(Tiles(spec)[i], Tiles(spec)[j])
  {}

  /**
   * How many data modules each version has: exactly as many as its codewords need, but for seven that a whole byte
   * does not fit into; version 7, which lacks the version information, has 36 to spare.
   */
  lemma CapacityIs(spec: VersionSpec)
    requires spec in VERSION_SPECS
    ensures Odd(spec.size)
    ensures |DataModules(spec)| ==
      8 * spec.totalCodewords + if spec.version == 1 then 0 else if spec.version == 7 then 36 else 7
  {
    hide DataModules, Tiles, TotalArea, Covered, RectCells;
    var all, func, data := RectCells(Rect(0, 0, spec.size, spec.size)), FunctionCells(spec), SetOf(DataModules(spec));
    forall cell | cell in func ensures Covered(cell, Tiles(spec)) { FunctionCovered(spec, cell); }
    TableShape(spec);
    DataModulesCount(spec, Tiles(spec));
    TilesArea(spec);
    SquaresSum(spec);
    TilesInside(spec);
    TilesApart(spec);
    PackingSize(func, Tiles(spec));
    DataAndFunction(spec);
    TableAreas(spec);
  }

  lemma DataAndFunction(spec: VersionSpec)
    requires Odd(spec.size)
    ensures |DataModules(spec)| + |FunctionCells(spec)| <= spec.size * spec.size
  {
    hide RectCells, IndexOf;
    var all, func, data := RectCells(Rect(0, 0, spec.size, spec.size)), FunctionCells(spec), SetOf(DataModules(spec));
    DataCellsMembers(spec.size, func, WalkLength(spec.size));
    DistinctSize(DataModules(spec));
    DisjointSize(data, func);
    SubsetSize(data + func, all);
    RectSize(Rect(0, 0, spec.size, spec.size));
  }

  /** Four modules more from version to version, patterns near the edges, and all codewords accounted for. */
  lemma TableShape(spec: VersionSpec)
    requires spec in VERSION_SPECS
    ensures spec.size == 17 + 4 * spec.version && Odd(spec.size) && 1 <= spec.version <= 7
    ensures spec.totalCodewords == spec.dataCodewords + spec.ecCodewords
    ensures spec.version == 1 <==> spec.alignment == []
    ensures spec.version > 1 ==> spec.alignment[0] == 6 && spec.alignment[|spec.alignment| - 1] == spec.size - 7
    ensures spec.version == 7 ==> spec.alignment == [6, 22, 38]
    ensures 1 < spec.version < 7 ==> |spec.alignment| == 2
  {}

  lemma TableAreas(spec: VersionSpec)
    requires spec in VERSION_SPECS
    ensures spec.size * spec.size == 225 + 2 * (spec.size - 17) +
      (if spec.version == 1 then 0 else if spec.version == 7 then 140 else 25) +
      8 * spec.totalCodewords + (if spec.version == 1 then 0 else if spec.version == 7 then 36 else 7)
  {}

  /** Every version of the table has room for all its codewords. */
  lemma CapacitySuffices(spec: VersionSpec)
    requires spec in VERSION_SPECS
    ensures Odd(spec.size) && |DataModules(spec)| >= 8 * spec.totalCodewords
    ensures spec.totalCodewords == spec.dataCodewords + spec.ecCodewords
  {
    CapacityIs(spec);
    TableShape(spec);
  }

  // ---- Right of column 6 ------------------------------------------------------------------------------

  /** The data modules of the columns right of column 6, in the order of the walk. */
  function RightModules(spec: VersionSpec): seq<Cell>
    requires Odd(spec.size)
  {
    RightCells(spec.size, FunctionCells(spec))
  }

  /** The pattern at (22, 6) of the largest version reaches two columns only. */
  function RightCentres(spec: VersionSpec): seq<(nat, nat)> {
    if |spec.alignment| == 3 then [(6, 22), (22, 22), (22, 38), (38, 22), (38, 38)] else AlignmentCentres(spec)
  }

  function RightCorners(spec: VersionSpec): seq<Rect>
    requires spec.size >= 21
  {
    [Rect(0, 7, 9, 2), Rect(0, spec.size - 8, 9, 8), Rect(spec.size - 8, 7, 8, 2), Rect(6, 9, 1, spec.size - 17),
     Rect(20, 7, if |spec.alignment| == 3 then 5 else 0, 2)]
  }

  function RightCover(spec: VersionSpec): seq<Rect>
    requires spec.size >= 21
  {
    RightCorners(spec) + CentreRects(RightCentres(spec))
  }

  lemma RightCovered(spec: VersionSpec, cell: Cell)
    requires spec in VERSION_SPECS && cell in FunctionCells(spec) && cell.col >= 7
    ensures Covered(cell, RightCover(spec))
  {
    hide CentreRects, RightCentres, Drawn;
    var n, corners := spec.size, RightCorners(spec);
    if InAlignments(spec, cell.row, cell.col) {
      RightAlignmentCovered(spec, cell);
    } else {
      assert corners[0] == Rect(0, 7, 9, 2) && corners[1] == Rect(0, n - 8, 9, 8);
      assert corners[2] == Rect(n - 8, 7, 8, 2) && corners[3] == Rect(6, 9, 1, n - 17);
      assert Covered(cell, corners);
      CornerCovers(cell, corners, CentreRects(RightCentres(spec)));
    }
  }

  lemma RightAlignmentCovered(spec: VersionSpec, cell: Cell)
    requires spec in VERSION_SPECS && InAlignments(spec, cell.row, cell.col) && cell.col >= 7
    ensures Covered(cell, RightCover(spec))
  {
    hide AlignmentCentres, RightCentres, Covered, CentreRects, Drawn;
    var corners, squares := RightCorners(spec), CentreRects(RightCentres(spec));
    var ar, ac :| ar in spec.alignment && ac in spec.alignment &&
      Drawn(spec, ar, ac) && InAlignment(cell.row, cell.col, ar, ac);
    AlignmentListed(spec, ar, ac);
    RightListed(spec, ar, ac);
    if (ar, ac) in RightCentres(spec) {
      CentreCovers(RightCentres(spec), ar, ac, cell);
      SquareCovers(cell, corners, squares);
    } else {
      assert corners[4] == Rect(20, 7, 5, 2);
      assert Covered(cell, corners) by { CoveredBy(cell, corners, 4); }
      CornerCovers(cell, corners, squares);
    }
  }

  lemma RightListed(spec: VersionSpec, ar: nat, ac: nat)
    requires spec in VERSION_SPECS && (ar, ac) in AlignmentCentres(spec)
    ensures (ar, ac) in RightCentres(spec) || (|spec.alignment| == 3 && ar == 22 && ac == 6)
  {}

  lemma CoveredBy(cell: Cell, rects: seq<Rect>, i: nat)
    requires i < |rects|
    requires InRect(cell.row, cell.col, rects[i].top, rects[i].left, rects[i].height, rects[i].width)
    ensures Covered(cell, rects)
  {}

  lemma CornerCovers(cell: Cell, corners: seq<Rect>, others: seq<Rect>)
    requires Covered(cell, corners)
    ensures Covered(cell, corners + others)
  {
    hide InRect;
    var i :| 0 <= i < |corners| &&
      InRect(cell.row, cell.col, corners[i].top, corners[i].left, corners[i].height, corners[i].width);
    assert (corners + others)[i] == corners[i];
  }

  lemma SquareCovers(cell: Cell, others: seq<Rect>, squares: seq<Rect>)
    requires Covered(cell, squares)
    ensures Covered(cell, others + squares)
  {
    hide InRect;
    var i :| 0 <= i < |squares| &&
      InRect(cell.row, cell.col, squares[i].top, squares[i].left, squares[i].height, squares[i].width);
    assert (others + squares)[|others| + i] == squares[i];
  }

  lemma RightCoverArea(spec: VersionSpec)
    requires spec.size >= 21
    ensures TotalArea(RightCover(spec)) ==
      106 + (spec.size - 17) + (if |spec.alignment| == 3 then 10 else 0) + 25 * |RightCentres(spec)|
  {
    hide RightCentres;
    var n := spec.size;
    var a, b, c, d := Rect(0, 7, 9, 2), Rect(0, n - 8, 9, 8), Rect(n - 8, 7, 8, 2), Rect(6, 9, 1, n - 17);
    var e := Rect(20, 7, if |spec.alignment| == 3 then 5 else 0, 2);
    var squares := CentreRects(RightCentres(spec));
    assert RightCover(spec) == [a] + ([b] + ([c] + ([d] + ([e] + squares))));
    TotalAreaConcat([a], [b] + ([c] + ([d] + ([e] + squares))));
    TotalAreaConcat([b], [c] + ([d] + ([e] + squares)));
    TotalAreaConcat([c], [d] + ([e] + squares));
    TotalAreaConcat([d], [e] + squares);
    TotalAreaConcat([e], squares);
    SquaresArea(squares);
  }

  /** How many of the last codewords reach beyond these columns: three for each version, and less in the largest. */
  function Endangered(spec: VersionSpec): nat {
    if spec.version == 7 then 16 else 3 * spec.version
  }

  /** They are check codewords. */
  lemma EndangeredAreChecks(spec: VersionSpec)
    requires spec in VERSION_SPECS
    ensures Endangered(spec) <= spec.ecCodewords && spec.totalCodewords == spec.dataCodewords + spec.ecCodewords
    ensures Odd(spec.size)
  {}

  lemma RightAreaSuffices(spec: VersionSpec, area: nat)
    requires spec in VERSION_SPECS
    requires area ==
      106 + (spec.size - 17) + (if |spec.alignment| == 3 then 10 else 0) + 25 * |RightCentres(spec)|
    ensures spec.size * (spec.size - 7) >= area + 8 * (spec.totalCodewords - Endangered(spec))
  {}

  /** The columns right of column 6 have room for all codewords but these. */
  lemma RightCapacitySuffices(spec: VersionSpec)
    requires spec in VERSION_SPECS
    ensures Odd(spec.size) && RightModules(spec) <= DataModules(spec)
    ensures |RightModules(spec)| >= 8 * (spec.totalCodewords - Endangered(spec)) >= 8 * spec.dataCodewords
  {
    hide RightCells, DataCells, FunctionCells, RightCover, RightCentres, TotalArea, Covered, Endangered, RectCells;
    EndangeredAreChecks(spec);
    RightCellsMembers(spec.size, FunctionCells(spec));
    RightCounted(spec);
    RightCoverArea(spec);
    RightAreaSuffices(spec, TotalArea(RightCover(spec)));
  }

  lemma RightCounted(spec: VersionSpec)
    requires spec in VERSION_SPECS && Odd(spec.size)
    ensures |RightModules(spec)| + TotalArea(RightCover(spec)) >= spec.size * (spec.size - 7)
  {
    hide RightCells, DataCells, FunctionCells, RightCover, TotalArea, Covered;
    var region, data := Rect(0, 7, spec.size, spec.size - 7), RightModules(spec);
    RightCellsMembers(spec.size, FunctionCells(spec));
    forall cell | cell in RectCells(region) ensures Covered(cell, RightCover(spec)) || cell in data {
      if cell in FunctionCells(spec) { RightCovered(spec, cell); }
    }
    RestCount(region, RightCover(spec), data);
  }
}
