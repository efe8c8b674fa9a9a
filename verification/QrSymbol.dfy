/** The whole encoder, from payload bytes to the final module matrix, and the reader it is proved against. */
module QrSymbol {
  import opened Collections
  import opened GaloisField
  import opened Tables
  import opened ReedSolomon
  import opened BitStream
  import opened BitStreamTheorems
  import opened ZigZag
  import opened FunctionModules
  import opened Placement
  import opened Capacity

  // ---- Specification ---------------------------------------------------------------------------

  function DataBytes(payload: seq<Byte>): seq<Byte> {
    BitsToBytes(Packed(payload, 8 * Choose(|payload|).dataCodewords))
  }

  /** Data codewords followed by the check bytes of the chosen version. */
  function Codewords(payload: seq<Byte>): seq<Byte> {
    ChooseValue(|payload|);
    Codeword(DataBytes(payload), Choose(|payload|).ecCodewords)
  }

  /** The checkerboard mask. */
  predicate Masked(r: int, c: int) {
    (r + c) % 2 == 0
  }

  /** One corner and its neighbours determine a checkerboard. */
  lemma Checkerboard(r: int, c: int)
    ensures Masked(0, 0) && Masked(r, c) != Masked(r + 1, c) && Masked(r, c) != Masked(r, c + 1)
  {}

  predicate InGrid(g: Grid, cells: seq<Cell>) {
    forall i :: 0 <= i < |cells| ==> cells[i].row < |g| && cells[i].col < |g[cells[i].row]|
  }

  /** Every given module in order, with the mask taken off. */
  function ReadModules(g: Grid, cells: seq<Cell>): (bits: seq<Bit>)
    requires InGrid(g, cells)
    ensures |bits| == |cells|
  {
    seq(|cells|, i requires 0 <= i < |cells| =>
      if g[cells[i].row][cells[i].col] != Masked(cells[i].row, cells[i].col) then 1 else 0)
  }

  function FormatBit(i: nat): bool {
    0x77C4 / Pow2(i) % 2 == 1
  }

  /** The modules that the format bits and the dark module are written to. */
  predicate FormatCell(size: int, r: int, c: int) {
    InFormat(size, r, c) && r != 6 && c != 6
  }

  /** Both copies of the format bits, with the dark module in the place of one of them. */
  ghost predicate Formatted(g: Grid, size: nat)
    requires size >= 17 && Square(g, size)
  {
    && (forall i :: 0 <= i < 6 ==> g[8][i] == FormatBit(i))
    && g[8][7] == FormatBit(6) && g[8][8] == FormatBit(7) && g[7][8] == FormatBit(8)
    && (forall i :: 9 <= i < 15 ==> g[14 - i][8] == FormatBit(i))
    && (forall i :: 0 <= i < 7 ==> g[size - 1 - i][8] == FormatBit(i)) && g[size - 8][8]
    && (forall i :: 8 <= i < 15 ==> g[8][size - 15 + i] == FormatBit(i))
  }

  /** Finders, timing lines, alignment patterns and format bits are all in place. */
  ghost predicate Patterned(g: Grid, spec: VersionSpec) {
    && spec.size >= 17 && Square(g, spec.size) && Formatted(g, spec.size)
    && forall r, c :: 0 <= r < spec.size && 0 <= c < spec.size ==>
      IsFunction(spec, r, c) && !FormatCell(spec.size, r, c) ==> g[r][c] == FunctionDark(spec, r, c)
  }

  // ---- The final passes ------------------------------------------------------------------------

  method ApplyMask(matrix: array2<bool>, isFunc: array2<bool>, size: nat) returns (finalResult: array2<bool>)
    requires Pair(matrix, isFunc, size)
    ensures fresh(finalResult) && finalResult.Length0 == finalResult.Length1 == size
    ensures forall i, j :: 0 <= i < size && 0 <= j < size ==>
      finalResult[i, j] == if isFunc[i, j] then matrix[i, j] else matrix[i, j] != Masked(i, j)
  {
    finalResult := new bool[size, size];
    for r := 0 to size
      invariant forall i, j :: 0 <= i < r && 0 <= j < size ==>
        finalResult[i, j] == if isFunc[i, j] then matrix[i, j] else matrix[i, j] != Masked(i, j)
    {
      for c := 0 to size
        invariant forall i, j :: (0 <= i < r && 0 <= j < size) || (i == r && 0 <= j < c) ==>
          finalResult[i, j] == if isFunc[i, j] then matrix[i, j] else matrix[i, j] != Masked(i, j)
      {
        if isFunc[r, c] {
          finalResult[r, c] := matrix[r, c];
        } else {
          finalResult[r, c] := matrix[r, c] != ((r + c) % 2 == 0);
        }
      }
    }
  }

  /** Both copies of the format bits, then the dark module; no other module is touched. */
  method WriteFormat(finalResult: array2<bool>, size: nat)
    requires finalResult.Length0 == finalResult.Length1 == size && size >= 17
    modifies finalResult
    ensures forall i, j :: 0 <= i < size && 0 <= j < size && !FormatCell(size, i, j) ==>
      finalResult[i, j] == old(finalResult[i, j])
    ensures Formatted(GridOf(finalResult), size)
  {
    hide FormatBit, Formatted, GridOf;
    for i := 0 to 6
      invariant forall r, c :: 0 <= r < size && 0 <= c < size && !FormatCell(size, r, c) ==>
        finalResult[r, c] == old(finalResult[r, c])
      invariant forall k :: 0 <= k < i ==> finalResult[8, k] == FormatBit(k)
    {
      finalResult[8, i] := FormatBit(i);
    }
    finalResult[8, 7] := FormatBit(6);
    finalResult[8, 8] := FormatBit(7);
    finalResult[7, 8] := FormatBit(8);
    label Row:
    for i := 9 to 15
      invariant forall r, c :: 0 <= r < size && 0 <= c < size && (c != 8 || r >= 6) ==>
        finalResult[r, c] == old@Row(finalResult[r, c])
      invariant forall k :: 9 <= k < i ==> finalResult[14 - k, 8] == FormatBit(k)
    {
      finalResult[14 - i, 8] := FormatBit(i);
    }
    label First:
    for i := 0 to 8
      invariant forall r, c :: 0 <= r < size && 0 <= c < size && (c != 8 || r < size - 8) ==>
        finalResult[r, c] == old@First(finalResult[r, c])
      invariant forall k :: 0 <= k < i ==> finalResult[size - 1 - k, 8] == FormatBit(k)
    {
      finalResult[size - 1 - i, 8] := FormatBit(i);
    }
    label Second:
    for i := 8 to 15
      invariant forall r, c :: 0 <= r < size && 0 <= c < size && (r != 8 || c < size - 7) ==>
        finalResult[r, c] == old@Second(finalResult[r, c])
      invariant forall k :: 8 <= k < i ==> finalResult[8, size - 15 + k] == FormatBit(k)
    {
      finalResult[8, size - 15 + i] := FormatBit(i);
    }
    finalResult[size - 8, 8] := true;
    FormatPlaced(finalResult, size);
  }

  lemma FormatPlaced(m: array2<bool>, size: nat)
    requires m.Length0 == m.Length1 == size && size >= 17
    requires forall i :: 0 <= i < 6 ==> m[8, i] == FormatBit(i)
    requires m[8, 7] == FormatBit(6) && m[8, 8] == FormatBit(7) && m[7, 8] == FormatBit(8)
    requires forall i :: 9 <= i < 15 ==> m[14 - i, 8] == FormatBit(i)
    requires forall i :: 0 <= i < 7 ==> m[size - 1 - i, 8] == FormatBit(i)
    requires forall i :: 8 <= i < 15 ==> m[8, size - 15 + i] == FormatBit(i)
    requires m[size - 8, 8]
    ensures Formatted(GridOf(m), size)
  {
    hide FormatBit, GridOf;
    var g := GridOf(m);
    forall i | 0 <= i < 6 ensures g[8][i] == FormatBit(i) {}
    forall i | 9 <= i < 15 ensures g[14 - i][8] == FormatBit(i) {}
    forall i | 0 <= i < 7 ensures g[size - 1 - i][8] == FormatBit(i) {}
    forall i | 8 <= i < 15 ensures g[8][size - 15 + i] == FormatBit(i) {}
  }

  // ---- The reader ------------------------------------------------------------------------------

  function FindSize(specs: seq<VersionSpec>, size: nat): (spec: Option<VersionSpec>)
    ensures spec.Some? ==> spec.value in specs && spec.value.size == size
    ensures spec.None? ==> forall s :: s in specs ==> s.size != size
  {
    if specs == [] then None
    else if specs[0].size == size then Some(specs[0])
    else FindSize(specs[1..], size)
  }

  /** The sizes of the table are all different. */
  lemma VersionFound(spec: VersionSpec)
    requires spec in VERSION_SPECS
    ensures FindSize(VERSION_SPECS, spec.size) == Some(spec)
  {
    var v :| 0 <= v < 7 && spec == VERSION_SPECS[v];
    FoundAt(VERSION_SPECS, v);
  }

  lemma {:induction false} FoundAt(specs: seq<VersionSpec>, v: nat)
    requires v < |specs| && forall i :: 0 <= i < v ==> specs[i].size != specs[v].size
    ensures FindSize(specs, specs[v].size) == Some(specs[v])
  {
    if v > 0 { FoundAt(specs[1..], v - 1); }
  }

  lemma ModulesInGrid(g: Grid, spec: VersionSpec)
    requires spec in VERSION_SPECS && Odd(spec.size) && Square(g, spec.size)
    ensures InGrid(g, DataModules(spec))
  {
    hide WalkLength, DataCells, IndexOf;
    var cells := DataModules(spec);
    DataCellsMembers(spec.size, FunctionCells(spec), WalkLength(spec.size));
    forall i | 0 <= i < |cells| ensures cells[i].row < spec.size && cells[i].col < spec.size {
      assert cells[i] in cells;
    }
  }

  /** A reader has nothing but the symbol: its size tells the version, and that which modules to read. */
  function VersionOf(g: Grid): (spec: Option<VersionSpec>)
    ensures spec.Some? ==>
      && Odd(spec.value.size) && InGrid(g, DataModules(spec.value))
      && 8 * spec.value.dataCodewords <= 8 * spec.value.totalCodewords <= |DataModules(spec.value)|
  {
    var version := FindSize(VERSION_SPECS, |g|);
    if version.None? || exists r | 0 <= r < |g| :: |g[r]| != |g| then None
    else
      CapacitySuffices(version.value);
      ModulesInGrid(g, version.value);
      version
  }

  lemma VersionSeen(g: Grid, spec: VersionSpec)
    requires spec in VERSION_SPECS && Square(g, spec.size)
    ensures VersionOf(g) == Some(spec)
  {
    VersionFound(spec);
  }

  function DecodeSymbol(g: Grid): Option<seq<Byte>> {
    var version := VersionOf(g);
    if version.None? then None
    else Decode(ReadModules(g, DataModules(version.value))[..8 * version.value.dataCodewords])
  }

  function BytesAtStart(bits: seq<Bit>, n: nat): (bytes: seq<Byte>)
    requires 8 * n <= |bits|
    ensures |bytes| == n
  {
    BitsToBytes(bits[..8 * n])
  }

  /** All codewords of a symbol, as they stand in its data modules. */
  function ReadCodewords(g: Grid): Option<seq<Byte>> {
    var version := VersionOf(g);
    if version.None? then None
    else Some(BytesAtStart(ReadModules(g, DataModules(version.value)), version.value.totalCodewords))
  }

  // ---- The encoder -----------------------------------------------------------------------------

  /** The given modules carry the bits of the codewords in order, and then zeros. */
  ghost predicate Reads(g: Grid, cells: seq<Cell>, codewords: seq<Byte>) {
    && InGrid(g, cells)
    && forall i :: 0 <= i < |cells| ==> ReadModules(g, cells)[i] == if StreamBit(codewords, i) then 1 else 0
  }

  /** The i-th of the modules is dark if bit i is set; the other way round where row and column make an even sum. */
  ghost predicate Flipped(g: Grid, cells: seq<Cell>, codewords: seq<Byte>) {
    && InGrid(g, cells)
    && forall i :: 0 <= i < |cells| ==>
      var (r, c) := (cells[i].row, cells[i].col);
      g[r][c] == if (r + c) % 2 == 0 then !StreamBit(codewords, i) else StreamBit(codewords, i)
  }

  lemma ReadsFlipped(g: Grid, cells: seq<Cell>, codewords: seq<Byte>)
    ensures Reads(g, cells, codewords) <==> Flipped(g, cells, codewords)
  {
    hide StreamBit;
    if InGrid(g, cells) {
      forall i | 0 <= i < |cells| ensures ReadModules(g, cells)[i] == (if StreamBit(codewords, i) then 1 else 0) <==>
        var (r, c) := (cells[i].row, cells[i].col);
        g[r][c] == if (r + c) % 2 == 0 then !StreamBit(codewords, i) else StreamBit(codewords, i)
      {}
    }
  }

  /** A symbol of the chosen version whose data modules carry all codewords of the payload. */
  ghost predicate Carries(g: Grid, payload: seq<Byte>) {
    var spec := Choose(|payload|);
    && spec in VERSION_SPECS && Odd(spec.size) && Square(g, spec.size)
    && Reads(g, DataModules(spec), Codewords(payload))
  }

  /** The symbol has the given codewords but, at most, for some of its last check codewords. */
  ghost predicate SpoiltAtMost(g: Grid, codewords: seq<Byte>, spec: VersionSpec) {
    var read := ReadCodewords(g);
    && read.Some? && |read.value| == spec.totalCodewords <= |codewords|
    && forall j :: 0 <= j < spec.totalCodewords && read.value[j] != codewords[j] ==>
      j >= spec.dataCodewords && j >= spec.totalCodewords - Endangered(spec)
  }

  /** The same of as many modules as the data codewords take. */
  ghost predicate Leads(g: Grid, payload: seq<Byte>) {
    var spec := Choose(|payload|);
    && spec in VERSION_SPECS && Odd(spec.size) && Square(g, spec.size)
    && 8 * spec.dataCodewords <= |DataModules(spec)|
    && Reads(g, DataModules(spec)[..8 * spec.dataCodewords], Codewords(payload))
  }

  method MakeCodewords(tables: GaloisTables, payload: seq<Byte>, spec: VersionSpec)
    returns (finalCodewords: array<Byte>)
    requires tables.Valid() && spec == Choose(|payload|)
    ensures fresh(finalCodewords) && finalCodewords[..] == Codewords(payload)
  {
    hide Remainder, Packed, Generator, BitsToBytes, Filled;
    ChooseValue(|payload|);
    var bits := PackBits(payload, spec);
    var dataBytes := CollectBytes(bits);
    ghost var data := dataBytes[..];
    var ecBytes := RsEncode(tables, dataBytes, spec.ecCodewords);
    ghost var ec := ecBytes[..];
    finalCodewords := new Byte[dataBytes.Length + ecBytes.Length](_ => 0);
    forall i | 0 <= i < dataBytes.Length { finalCodewords[i] := dataBytes[i]; }
    forall i | 0 <= i < ecBytes.Length { finalCodewords[dataBytes.Length + i] := ecBytes[i]; }
    assert finalCodewords[..] == data + ec;
  }

  /** The function modules of a version are drawn. */
  ghost predicate DrawnOn(matrix: array2<bool>, spec: VersionSpec)
    requires matrix.Length0 == matrix.Length1 == spec.size
    reads matrix
  {
    forall r, c :: 0 <= r < spec.size && 0 <= c < spec.size && IsFunction(spec, r, c) ==>
      (matrix[r, c] <==> FunctionDark(spec, r, c) || (r == spec.size - 8 && c == 8))
  }

  method FillModules(codewords: array<Byte>, spec: VersionSpec) returns (matrix: array2<bool>, isFunc: array2<bool>)
    requires spec in VERSION_SPECS
    ensures fresh(matrix) && fresh(isFunc)
    ensures Ready(matrix, isFunc, spec.size, FunctionCells(spec))
    ensures Holds(matrix, DataModules(spec), codewords[..])
    ensures DrawnOn(matrix, spec)
  {
    hide StreamBit, IsFunction, FunctionDark, WalkLength, DataCells, Written;
    var size := spec.size;
    matrix := new bool[size, size]((_, _) => false);
    isFunc := new bool[size, size]((_, _) => false);
    TableApart(spec);
    DrawFunctionModules(matrix, isFunc, spec);
    ghost var before := GridOf(matrix);
    PlaceBits(matrix, isFunc, codewords, size, FunctionCells(spec));
    WalkHolds(matrix, before, codewords[..], size, FunctionCells(spec));
  }

  /** The twin's walk differs: only its data modules right of column 6 are sure to hold their bits. */
  method TwinFillModules(codewords: array<Byte>, spec: VersionSpec)
    returns (matrix: array2<bool>, isFunc: array2<bool>)
    requires spec in VERSION_SPECS
    ensures fresh(matrix) && fresh(isFunc)
    ensures Ready(matrix, isFunc, spec.size, FunctionCells(spec))
    ensures Holds(matrix, RightModules(spec), codewords[..])
    ensures DrawnOn(matrix, spec)
  {
    hide StreamBit, IsFunction, FunctionDark, WalkLength, DataCells, Written, TwinVisits;
    var size := spec.size;
    matrix := new bool[size, size]((_, _) => false);
    isFunc := new bool[size, size]((_, _) => false);
    TableApart(spec);
    DrawFunctionModules(matrix, isFunc, spec);
    ghost var before := GridOf(matrix);
    TwinPlaceBits(matrix, isFunc, codewords, size, FunctionCells(spec));
    TwinHolds(matrix, before, codewords[..], size, FunctionCells(spec));
  }

  /** Mask and format: bits in modules that are no function modules can be read back, and the patterns are in place. */
  method FinishMatrix(matrix: array2<bool>, isFunc: array2<bool>, spec: VersionSpec, ghost cells: seq<Cell>,
                      ghost codewords: seq<Byte>)
    returns (finalResult: array2<bool>)
    requires spec in VERSION_SPECS && Ready(matrix, isFunc, spec.size, FunctionCells(spec))
    requires forall cell :: cell in cells ==> cell !in FunctionCells(spec)
    requires Holds(matrix, cells, codewords) && DrawnOn(matrix, spec)
    ensures fresh(finalResult) && finalResult.Length0 == finalResult.Length1 == spec.size
    ensures Reads(GridOf(finalResult), cells, codewords) && Patterned(GridOf(finalResult), spec)
  {
    hide StreamBit, FunctionDark, IsFunction, InFormat, Formatted, Masked;
    var size := spec.size;
    finalResult := ApplyMask(matrix, isFunc, size);
    WriteFormat(finalResult, size);
    FormatIsFunction(spec);
    forall i | 0 <= i < |cells| ensures
      && cells[i].row < size && cells[i].col < size
      && (finalResult[cells[i].row, cells[i].col] != Masked(cells[i].row, cells[i].col)) == StreamBit(codewords, i)
    {
      assert cells[i] in cells;
    }
    DarkModule(size);
  }

  lemma FormatIsFunction(spec: VersionSpec)
    ensures forall r, c :: InFormat(spec.size, r, c) ==> IsFunction(spec, r, c)
  {}

  method GenerateMatrix(tables: GaloisTables, payload: seq<Byte>) returns (finalResult: array2<bool>)
    requires tables.Valid()
    ensures fresh(finalResult) && Carries(GridOf(finalResult), payload)
    ensures Patterned(GridOf(finalResult), Choose(|payload|))
    ensures Flipped(GridOf(finalResult), DataModules(Choose(|payload|)), Codewords(payload))
    ensures DecodeSymbol(GridOf(finalResult)) == Some(payload) <==> |payload| <= 154
  {
    hide Codewords, Reads, Filled, Holds, Patterned, DecodeSymbol, DataModules, DrawnOn, Leads, Flipped;
    var spec := ChooseSpec(|payload|);
    ChooseValue(|payload|);
    var finalCodewords := MakeCodewords(tables, payload, spec);
    var matrix, isFunc := FillModules(finalCodewords, spec);
    NoFunctionModules(spec);
    finalResult := FinishMatrix(matrix, isFunc, spec, DataModules(spec), Codewords(payload));
    ReadsFlipped(GridOf(finalResult), DataModules(spec), Codewords(payload));
    SymbolRoundTrip(GridOf(finalResult), payload);
  }

  /**
   * The symbol of the twin: not all codewords are in place, but enough to decode it. Only some of the last ones, which
   * are check codewords, may differ from those of the original.
   */
  method TwinGenerateMatrix(tables: GaloisTables, payload: seq<Byte>) returns (finalResult: array2<bool>)
    requires tables.Valid()
    ensures fresh(finalResult) && Leads(GridOf(finalResult), payload)
    ensures Patterned(GridOf(finalResult), Choose(|payload|))
    ensures DecodeSymbol(GridOf(finalResult)) == Some(payload) <==> |payload| <= 154
    ensures Flipped(GridOf(finalResult), RightModules(Choose(|payload|)), Codewords(payload))
    ensures SpoiltAtMost(GridOf(finalResult), Codewords(payload), Choose(|payload|))
  {
    hide Codewords, Reads, Filled, Holds, Patterned, DecodeSymbol, DataModules, RightModules, DrawnOn, SpoiltAtMost;
    hide Flipped;
    var spec := ChooseSpec(|payload|);
    ChooseValue(|payload|);
    var finalCodewords := MakeCodewords(tables, payload, spec);
    var matrix, isFunc := TwinFillModules(finalCodewords, spec);
    NoFunctionModules(spec);
    finalResult := FinishMatrix(matrix, isFunc, spec, RightModules(spec), Codewords(payload));
    ReadsFlipped(GridOf(finalResult), RightModules(spec), Codewords(payload));
    RightModulesLead(GridOf(finalResult), payload);
    TwinReads(GridOf(finalResult), payload);
    SymbolDecodes(GridOf(finalResult), payload);
  }

  // ---- Reading it back --------------------------------------------------------------------------

  lemma {:induction false} StreamBitAt(codewords: seq<Byte>, i: nat)
    requires i < 8 * |codewords|
    ensures StreamBit(codewords, i) <==> BytesToBits(codewords)[i] == 1
    decreases |codewords|
  {
    var n := |codewords| - 1;
    if i < 8 * n {
      StreamBitAt(codewords[..n], i);
    } else {
      assert i / 8 == n;
      BitsOfAt(codewords[n], 8, i % 8);
    }
  }

  lemma {:induction false} BitsOfAt(value: nat, n: nat, j: nat)
    requires j < n
    ensures BitsOf(value, n)[j] == value / Pow2(n - 1 - j) % 2
    decreases n
  {
    if j > 0 { BitsOfAt(value, n - 1, j - 1); }
  }

  lemma NoFunctionModules(spec: VersionSpec)
    requires spec in VERSION_SPECS && Odd(spec.size)
    ensures forall cell :: cell in DataModules(spec) ==> cell !in FunctionCells(spec)
    ensures forall cell :: cell in RightModules(spec) ==> cell !in FunctionCells(spec)
  {
    DataCellsMembers(spec.size, FunctionCells(spec), WalkLength(spec.size));
    RightCellsMembers(spec.size, FunctionCells(spec));
  }

  lemma ReadsPrefix(g: Grid, cells: seq<Cell>, more: seq<Cell>, codewords: seq<Byte>)
    requires Reads(g, more, codewords) && cells <= more
    ensures Reads(g, cells, codewords) && ReadModules(g, cells) == ReadModules(g, more)[..|cells|]
  {
    hide StreamBit;
    forall i | 0 <= i < |cells| ensures ReadModules(g, cells)[i] == ReadModules(g, more)[i] {}
  }

  lemma ReadsBits(g: Grid, cells: seq<Cell>, codewords: seq<Byte>)
    requires Reads(g, cells, codewords) && |cells| <= 8 * |codewords|
    ensures ReadModules(g, cells) == BytesToBits(codewords)[..|cells|]
  {
    hide StreamBit, BytesToBits, ReadModules;
    forall i | 0 <= i < |cells| ensures ReadModules(g, cells)[i] == BytesToBits(codewords)[i] {
      StreamBitAt(codewords, i);
    }
  }

  lemma RightModulesLead(g: Grid, payload: seq<Byte>)
    requires var spec := Choose(|payload|); spec in VERSION_SPECS && Odd(spec.size) && Square(g, spec.size)
    requires Reads(g, RightModules(Choose(|payload|)), Codewords(payload))
    ensures Leads(g, payload)
  {
    hide Reads, DataModules, RightModules, Codewords, Choose;
    var spec := Choose(|payload|);
    RightCapacitySuffices(spec);
    var all, right, n := DataModules(spec), RightModules(spec), 8 * spec.dataCodewords;
    assert all[..n] == right[..n];
    ReadsPrefix(g, right[..n], right, Codewords(payload));
  }

  lemma CarriesLeads(g: Grid, payload: seq<Byte>)
    requires Carries(g, payload)
    ensures Leads(g, payload)
  {
    hide Reads, DataModules, Codewords, Choose;
    var spec := Choose(|payload|);
    CapacitySuffices(spec);
    ReadsPrefix(g, DataModules(spec)[..8 * spec.dataCodewords], DataModules(spec), Codewords(payload));
  }

  /** The codeword bits start with the packed stream; their number is known for every payload. */
  lemma CodewordBits(payload: seq<Byte>)
    ensures var spec := Choose(|payload|);
      var packed := Packed(payload, 8 * spec.dataCodewords);
      && |packed| <= 8 * |Codewords(payload)|
      && BytesToBits(Codewords(payload))[..|packed|] == packed
      && |Codewords(payload)| >= spec.dataCodewords + spec.ecCodewords
      && (|payload| <= 154 ==> |Codewords(payload)| == spec.dataCodewords + spec.ecCodewords)
  {
    hide Packed, Remainder, Generator, BitsToBytes, BytesToBits, Choose;
    var spec := Choose(|payload|);
    ChooseValue(|payload|);
    var data, check := DataBytes(payload), Remainder(DataBytes(payload), Generator(spec.ecCodewords));
    BitsOfBytes(Packed(payload, 8 * spec.dataCodewords));
    BytesToBitsConcat(data, check);
    if Fits(|payload|, spec) { PackedWhenFits(payload, spec); } else { PackedWhenTooLong(payload, spec); }
  }

  lemma {:induction false} FirstBytes(bits: seq<Bit>, n: nat)
    requires |bits| % 8 == 0 && 8 * n <= |bits|
    ensures BitsToBytes(bits)[..n] == BitsToBytes(bits[..8 * n])
  {
    if 8 * n == |bits| {
      assert bits[..8 * n] == bits;
    } else {
      var m := |bits| - 8;
      hide ValueOf;
      FirstBytes(bits[..m], n);
      assert bits[..m][..8 * n] == bits[..8 * n];
      assert BitsToBytes(bits)[..|bits| / 8 - 1] == BitsToBytes(bits[..m]);
      assert BitsToBytes(bits)[..n] == BitsToBytes(bits[..m])[..n];
    }
  }

  lemma FirstBits(bytes: seq<Byte>, n: nat)
    requires n <= |bytes|
    ensures BytesToBits(bytes)[..8 * n] == BytesToBits(bytes[..n])
  {
    hide BytesToBits;
    assert bytes == bytes[..n] + bytes[n..];
    BytesToBitsConcat(bytes[..n], bytes[n..]);
  }

  /** Modules at the head of the walk that carry bits of the codewords yield as many whole codewords. */
  lemma WordsRead(g: Grid, spec: VersionSpec, cells: seq<Cell>, codewords: seq<Byte>, n: nat)
    requires spec in VERSION_SPECS && Odd(spec.size) && Square(g, spec.size)
    requires Reads(g, cells, codewords) && cells <= DataModules(spec)
    requires 8 * n <= |cells| && n <= spec.totalCodewords && n <= |codewords|
    ensures var read := ReadCodewords(g);
      read.Some? && |read.value| == spec.totalCodewords && read.value[..n] == codewords[..n]
  {
    hide DataModules, BytesToBits, BitsToBytes, ReadModules, Reads, VersionOf;
    VersionSeen(g, spec);
    var all, m := DataModules(spec), 8 * n;
    var bits := ReadModules(g, all)[..8 * spec.totalCodewords];
    FirstBytes(bits, n);
    FirstModules(g, all, m);
    assert all[..m] == cells[..m];
    ReadsPrefix(g, cells[..m], cells, codewords);
    ReadsBits(g, cells[..m], codewords);
    FirstBits(codewords, n);
    BytesOfBits(codewords[..n]);
    assert bits[..m] == ReadModules(g, all)[..m];
  }

  lemma TwinReads(g: Grid, payload: seq<Byte>)
    requires var spec := Choose(|payload|); spec in VERSION_SPECS && Odd(spec.size) && Square(g, spec.size)
    requires Reads(g, RightModules(Choose(|payload|)), Codewords(payload))
    ensures SpoiltAtMost(g, Codewords(payload), Choose(|payload|))
  {
    hide Reads, DataModules, RightModules, Codewords, Choose, ReadCodewords, Endangered, Packed, BytesToBits;
    var spec := Choose(|payload|);
    EndangeredAreChecks(spec);
    RightCapacitySuffices(spec);
    CodewordBits(payload);
    var sure, codewords, read := spec.totalCodewords - Endangered(spec), Codewords(payload), ReadCodewords(g);
    WordsRead(g, spec, RightModules(spec), codewords, sure);
    forall j | 0 <= j < sure ensures read.value[j] == codewords[j] {
      assert read.value[..sure][j] == codewords[..sure][j];
    }
  }

  /** A symbol whose first modules carry the payload's data codewords decodes to it up to 154 bytes and not beyond. */
  lemma SymbolDecodes(g: Grid, payload: seq<Byte>)
    requires Leads(g, payload)
    ensures DecodeSymbol(g) == Some(payload) <==> |payload| <= 154
  {
    hide Packed, Codewords, Decode, DataModules, BytesToBits, Choose, ReadModules, Reads, VersionOf;
    var spec := Choose(|payload|);
    VersionSeen(g, spec);
    var codewords, n := Codewords(payload), 8 * spec.dataCodewords;
    var cells, packed, bits := DataModules(spec), Packed(payload, n), BytesToBits(codewords);
    CodewordBits(payload);
    StreamRoundTrip(payload);
    FirstModules(g, cells, n);
    ReadsBits(g, cells[..n], codewords);
    assert bits[..|packed|][..n] == bits[..n];
  }

  lemma FirstModules(g: Grid, cells: seq<Cell>, n: nat)
    requires InGrid(g, cells) && n <= |cells|
    ensures InGrid(g, cells[..n]) && ReadModules(g, cells)[..n] == ReadModules(g, cells[..n])
  {}

  /** The round trip of the whole symbol: it decodes to its payload, and all codewords can be read. */
  lemma SymbolRoundTrip(g: Grid, payload: seq<Byte>)
    requires Carries(g, payload)
    ensures DecodeSymbol(g) == Some(payload) <==> |payload| <= 154
    ensures |payload| <= 154 ==> ReadCodewords(g) == Some(Codewords(payload))
  {
    hide Packed, Codewords, DecodeSymbol, DataModules, BytesToBits, Choose, Reads, ReadCodewords;
    CarriesLeads(g, payload);
    SymbolDecodes(g, payload);
    if |payload| <= 154 {
      var spec, codewords, read := Choose(|payload|), Codewords(payload), ReadCodewords(g);
      CapacitySuffices(spec);
      CodewordBits(payload);
      WordsRead(g, spec, DataModules(spec), codewords, |codewords|);
      assert read.value[..|codewords|] == read.value && codewords[..|codewords|] == codewords;
    }
  }

  /** Different payloads have different symbols. */
  lemma SymbolInjective(g: Grid, first: seq<Byte>, second: seq<Byte>)
    requires Leads(g, first) && Leads(g, second) && |first| <= 154 && |second| <= 154
    ensures first == second
  {
    SymbolDecodes(g, first);
    SymbolDecodes(g, second);
  }
}
