/** What a finished symbol looks like, in plain terms. */
module SymbolLooks {
  import opened BitXor
  import opened BitStream
  import opened FunctionModules
  import opened Placement
  import opened Capacity
  import opened QrSymbol

  // ---- The patterns ---------------------------------------------------------------------------------------------

  const FINDER := ["#######",
                   "#.....#",
                   "#.###.#",
                   "#.###.#",
                   "#.###.#",
                   "#.....#",
                   "#######"]

  const ALIGNMENT := ["#####",
                      "#...#",
                      "#.#.#",
                      "#...#",
                      "#####"]

  predicate Dark(picture: seq<string>, r: nat, c: nat) {
    r < |picture| && c < |picture[r]| && picture[r][c] == '#'
  }

  /** The finder is as pictured, and the border around it is light. */
  lemma FinderLooks(r: int, c: int)
    requires -1 <= r <= 7 && -1 <= c <= 7
    ensures FinderDark(r, c) <==> 0 <= r <= 6 && 0 <= c <= 6 && Dark(FINDER, r, c)
  {
    if 0 <= r <= 6 && 0 <= c <= 6 { FinderRow(r, c); }
  }

  lemma FinderRow(r: nat, c: nat)
    requires r <= 6 && c <= 6
    ensures FinderDark(r, c) <==> Dark(FINDER, r, c)
  {
    assert c == 0 || c == 1 || c == 2 || c == 3 || c == 4 || c == 5 || c == 6;
    if r == 0 || r == 6 {
      assert FINDER[r] == "#######";
    } else if r == 1 || r == 5 {
      assert FINDER[r] == "#.....#";
    } else {
      assert FINDER[r] == "#.###.#";
    }
  }

  lemma AlignmentLooks(r: int, c: int)
    requires -2 <= r <= 2 && -2 <= c <= 2
    ensures AlignmentDark(r, c) <==> Dark(ALIGNMENT, r + 2, c + 2)
  {
    assert c == -2 || c == -1 || c == 0 || c == 1 || c == 2;
    if r == -2 || r == 2 {
      assert ALIGNMENT[r + 2] == "#####";
    } else if r == -1 || r == 1 {
      assert ALIGNMENT[r + 2] == "#...#";
    } else {
      assert ALIGNMENT[r + 2] == "#.#.#";
    }
  }

  /** A pattern of the table is left out exactly if it would overlap a finder or its border. */
  lemma LeftOutIfOverlapping(spec: VersionSpec, ar: nat, ac: nat)
    requires spec in VERSION_SPECS && ar in spec.alignment && ac in spec.alignment
    ensures Drawn(spec, ar, ac) <==>
      !exists r: int, c: int :: InAlignment(r, c, ar, ac) &&
        (InFinder(r, c, 0, 0) || InFinder(r, c, 0, spec.size - 7) || InFinder(r, c, spec.size - 7, 0))
  {
    TableShape(spec);
    if MeetsFinder(spec.size, ar, ac) {
      var r, c := if ar == 6 then 4 else ar - 2, if ac == 6 then 4 else ac - 2;
      var r', c' := if ar == 6 then 4 else ar + 2, if ac == 6 then 4 else ac + 2;
      assert InAlignment(r', c', ar, ac);
    }
  }

  // ---- The symbol -----------------------------------------------------------------------------------------------

  /** The corners of the finders. */
  predicate FinderAt(size: nat, top: int, left: int) {
    (top == 0 && left == 0) || (top == 0 && left == size - 7) || (top == size - 7 && left == 0)
  }

  /** All three finders are as pictured, with a light border. */
  lemma FinderShown(g: Grid, spec: VersionSpec, top: int, left: int, r: int, c: int)
    requires Patterned(g, spec) && spec in VERSION_SPECS && FinderAt(spec.size, top, left)
    requires -1 <= r <= 7 && -1 <= c <= 7 && 0 <= top + r < spec.size && 0 <= left + c < spec.size
    ensures g[top + r][left + c] <==> 0 <= r <= 6 && 0 <= c <= 6 && Dark(FINDER, r, c)
  {
    hide FinderDark, Dark, Formatted, FunctionDark, IsFunction, FormatCell;
    FinderColour(spec, top, left, r, c);
    FinderLooks(r, c);
  }

  lemma FinderColour(spec: VersionSpec, top: int, left: int, r: int, c: int)
    requires spec in VERSION_SPECS && FinderAt(spec.size, top, left)
    requires -1 <= r <= 7 && -1 <= c <= 7 && 0 <= top + r < spec.size && 0 <= left + c < spec.size
    ensures IsFunction(spec, top + r, left + c) && !FormatCell(spec.size, top + r, left + c)
    ensures FunctionDark(spec, top + r, left + c) <==> FinderDark(r, c)
  {
    hide FinderDark, InAlignments, AlignedDark;
    TableShape(spec);
    NoPatternThere(spec, top + r, left + c, top, left);
    if top == 0 && left == 0 {
      assert top + r == r && left + c == c;
    } else if top == 0 {
      assert top + r == r && left + c - (spec.size - 7) == c;
    } else {
      assert top + r - (spec.size - 7) == r && left + c == c;
    }
  }

  lemma NoPatternThere(spec: VersionSpec, r: int, c: int, top: int, left: int)
    requires spec in VERSION_SPECS && FinderAt(spec.size, top, left) && InFinder(r, c, top, left)
    ensures !InAlignments(spec, r, c)
  {
    hide Drawn;
    forall ar, ac | ar in spec.alignment && ac in spec.alignment && Drawn(spec, ar, ac)
      ensures !InAlignment(r, c, ar, ac)
    {
      LeftOutIfOverlapping(spec, ar, ac);
    }
  }

  lemma AlignmentColour(spec: VersionSpec, ar: nat, ac: nat, r: int, c: int)
    requires spec in VERSION_SPECS && Drawn(spec, ar, ac) && -2 <= r <= 2 && -2 <= c <= 2
    ensures 0 <= ar + r < spec.size && 0 <= ac + c < spec.size
    ensures IsFunction(spec, ar + r, ac + c) && !FormatCell(spec.size, ar + r, ac + c)
    ensures FunctionDark(spec, ar + r, ac + c) <==> AlignmentDark(r, c)
  {
    hide AlignmentDark, FinderDark, AlignedDark, InTiming, InFinder, Drawn, FormatCell;
    TableApart(spec);
    InsideGrid(spec, ar, ac);
    OnePattern(spec, ar + r, ac + c, ar, ac);
    assert ar + r - ar == r && ac + c - ac == c;
  }

  /** Every alignment pattern that is drawn is as pictured. */
  lemma AlignmentShown(g: Grid, spec: VersionSpec, ar: nat, ac: nat, r: int, c: int)
    requires Patterned(g, spec) && spec in VERSION_SPECS && Drawn(spec, ar, ac)
    requires -2 <= r <= 2 && -2 <= c <= 2
    ensures 0 <= ar + r < |g| && 0 <= ac + c < |g[ar + r]|
    ensures g[ar + r][ac + c] <==> Dark(ALIGNMENT, r + 2, c + 2)
  {
    hide AlignmentDark, Dark, Formatted, FunctionDark, IsFunction, FormatCell, Drawn;
    AlignmentColour(spec, ar, ac, r, c);
    AlignmentLooks(r, c);
  }

  lemma InsideGrid(spec: VersionSpec, ar: nat, ac: nat)
    requires spec in VERSION_SPECS && Drawn(spec, ar, ac)
    ensures 2 <= ar < spec.size - 2 && 2 <= ac < spec.size - 2
    ensures forall r, c :: InAlignment(r, c, ar, ac) ==> !FormatCell(spec.size, r, c)
  {}

  /** Between the finders every other module of the timing lines is dark, also under an alignment pattern. */
  lemma TimingShown(g: Grid, spec: VersionSpec, k: nat)
    requires Patterned(g, spec) && spec in VERSION_SPECS && 8 <= k < spec.size - 8
    ensures g[6][k] == g[k][6] == (k % 2 == 0)
  {
    hide FinderDark, Formatted, AlignedDark, InAlignments;
    TableShape(spec);
    TableApart(spec);
    TimingAligned(spec, 6, k);
    TimingAligned(spec, k, 6);
  }

  lemma TimingAligned(spec: VersionSpec, r: nat, c: nat)
    requires spec in VERSION_SPECS && InTiming(spec.size, r, c) && Apart(spec)
    ensures InAlignments(spec, r, c) ==> (AlignedDark(spec, r, c) <==> (if r == 6 then c else r) % 2 == 0)
  {
    hide AlignedDark, AlignmentCentres, Drawn, AlignmentDark, Apart;
    if InAlignments(spec, r, c) {
      var ar, ac :| ar in spec.alignment && ac in spec.alignment && Drawn(spec, ar, ac) && InAlignment(r, c, ar, ac);
      OnePattern(spec, r, c, ar, ac);
      TimingCentre(spec, r, c, ar, ac);
    }
  }

  /** A pattern on a timing line has its middle there, so that it goes with the line. */
  lemma TimingCentre(spec: VersionSpec, r: nat, c: nat, ar: nat, ac: nat)
    requires spec in VERSION_SPECS && InTiming(spec.size, r, c) && Drawn(spec, ar, ac) && InAlignment(r, c, ar, ac)
    ensures AlignmentDark(r - ar, c - ac) <==> (if r == 6 then c else r) % 2 == 0
  {
    AlignmentListed(spec, ar, ac);
    TableShape(spec);
    assert spec.version == 7 && (ar, ac) in {(6, 22), (22, 6)};
  }

  // ---- The format bits ------------------------------------------------------------------------------------------

  /** The fifteen bits, lowest first. */
  lemma FormatBits()
    ensures forall i: nat :: i < 15 ==> (FormatBit(i) <==> i in {2, 6, 7, 8, 9, 10, 12, 13, 14})
  {
    Powers();
    forall i: nat | i < 15 ensures FormatBit(i) <==> i in {2, 6, 7, 8, 9, 10, 12, 13, 14} {
      if i < 8 {
        assert i == 0 || i == 1 || i == 2 || i == 3 || i == 4 || i == 5 || i == 6 || i == 7;
      } else {
        assert i == 8 || i == 9 || i == 10 || i == 11 || i == 12 || i == 13 || i == 14;
      }
    }
  }

  lemma Powers()
    ensures Pow2(0) == 1 && Pow2(1) == 2 && Pow2(2) == 4 && Pow2(3) == 8 && Pow2(4) == 16 && Pow2(5) == 32
    ensures Pow2(6) == 64 && Pow2(7) == 128 && Pow2(8) == 256 && Pow2(9) == 512 && Pow2(10) == 1024
    ensures Pow2(11) == 2048 && Pow2(12) == 4096 && Pow2(13) == 8192 && Pow2(14) == 16384
  {
    assert Pow2(5) == 32 && Pow2(10) == 1024;
  }

  /**
   * With the fixed pattern 0x5412 taken off, the format bits are a multiple without carries, by 8 and 2, of the
   * generator 0x537 that the QR standard has for them. Their first five bits, 01 and 000, announce level L and the
   * mask that is applied.
   */
  lemma FormatWord()
    ensures Xor(0x77C4, 0x5412) == Xor(8 * 0x537, 2 * 0x537) && Xor(0x77C4, 0x5412) / 1024 == 8
  {
    UnmaskedFormat();
    FormatMultiple();
  }

  lemma UnmaskedFormat()
    ensures Xor(0x77C4, 0x5412) == 0x23D6
  {
    assert Xor(0, 0) == 0 && Xor(1, 1) == 0 && Xor(3, 2) == 1 && Xor(7, 5) == 2;
    assert Xor(14, 10) == 4 && Xor(29, 21) == 8 && Xor(59, 42) == 17 && Xor(119, 84) == 35;
    assert Xor(239, 168) == 71 && Xor(479, 336) == 143 && Xor(958, 672) == 286 && Xor(1916, 1345) == 573;
    assert Xor(3832, 2690) == 1146 && Xor(7665, 5380) == 2293 && Xor(15330, 10761) == 4587 && Xor(30660, 21522) == 9174;
  }

  lemma FormatMultiple()
    ensures Xor(8 * 0x537, 2 * 0x537) == 0x23D6
  {
    assert Xor(0, 0) == 0 && Xor(1, 0) == 1 && Xor(2, 0) == 2 && Xor(5, 1) == 4;
    assert Xor(10, 2) == 8 && Xor(20, 5) == 17 && Xor(41, 10) == 35 && Xor(83, 20) == 71;
    assert Xor(166, 41) == 143 && Xor(333, 83) == 286 && Xor(667, 166) == 573 && Xor(1335, 333) == 1146;
    assert Xor(2670, 667) == 2293 && Xor(5340, 1335) == 4587 && Xor(10680, 2670) == 9174;
  }
}
