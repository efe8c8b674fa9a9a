/** The byte-mode bit stream: version choice, bit packing, padding, and the matching decoder. */
module BitStream {
  import opened Collections
  import opened GaloisField

  type Bit = b: nat | b < 2

  datatype VersionSpec =
    VersionSpec(version: nat, size: nat, totalCodewords: nat, dataCodewords: nat, ecCodewords: nat, alignment: seq<nat>)

  const VERSION_SPECS: seq<VersionSpec> := [
    VersionSpec(1, 21, 26, 19, 7, []),
    VersionSpec(2, 25, 44, 34, 10, [6, 18]),
    VersionSpec(3, 29, 70, 55, 15, [6, 22]),
    VersionSpec(4, 33, 100, 80, 20, [6, 26]),
    VersionSpec(5, 37, 134, 108, 26, [6, 30]),
    VersionSpec(6, 41, 172, 136, 36, [6, 34]),
    VersionSpec(7, 45, 196, 156, 40, [6, 22, 38])]

  /** The entry the encoder works with: the first with three codewords to spare, else the last. */
  function ChooseFrom(i: nat, payloadLength: nat): VersionSpec
    requires i < 7
    decreases 7 - i
  {
    if i == 6 || VERSION_SPECS[i].dataCodewords >= payloadLength + 3 then VERSION_SPECS[i]
    else ChooseFrom(i + 1, payloadLength)
  }

  function Choose(payloadLength: nat): VersionSpec {
    ChooseFrom(0, payloadLength)
  }

  // ---- Bits and bytes -----------------------------------------------------------------------

  function Pow2(n: nat): (p: nat)
    ensures p > 0
  {
    if n == 0 then 1 else 2 * Pow2(n - 1)
  }

  /** The lowest n bits of a value, highest first. */
  function BitsOf(value: nat, n: nat): (bits: seq<Bit>)
    ensures |bits| == n
  {
    if n == 0 then [] else [value / Pow2(n - 1) % 2] + BitsOf(value, n - 1)
  }

  function ValueOf(bits: seq<Bit>): nat {
    if bits == [] then 0 else 2 * ValueOf(bits[..|bits| - 1]) + bits[|bits| - 1]
  }

  function BytesToBits(bytes: seq<Byte>): (bits: seq<Bit>)
    ensures |bits| == 8 * |bytes|
  {
    if bytes == [] then [] else BytesToBits(bytes[..|bytes| - 1]) + BitsOf(bytes[|bytes| - 1], 8)
  }

  function ZeroBits(n: nat): (bits: seq<Bit>)
    ensures |bits| == n
  {
    seq(n, i => 0)
  }

  // ---- The packed stream --------------------------------------------------------------------

  /** Mode indicator, one-byte character count, then the payload. */
  function Content(payload: seq<Byte>): (bits: seq<Bit>)
    ensures |bits| == 12 + 8 * |payload|
  {
    BitsOf(4, 4) + BitsOf(|payload|, 8) + BytesToBits(payload)
  }

  /** Up to four terminator bits, as far as they fit. */
  function TerminatorLength(used: nat, totalBits: nat): nat {
    if used >= totalBits then 0 else if totalBits - used < 4 then totalBits - used else 4
  }

  function ToByteBoundary(used: nat): (n: nat)
    ensures n < 8 && (used + n) % 8 == 0
  {
    (8 - used % 8) % 8
  }

  /** n alternating pad bytes, the first one being pad number 0. */
  function Pads(n: nat): (pads: seq<Byte>)
    ensures |pads| == n
  {
    seq(n, i => if i % 2 == 0 then 0xEC else 0x11)
  }

  function Aligned(payload: seq<Byte>, totalBits: nat): (bits: seq<Bit>)
    ensures |bits| % 8 == 0
  {
    var content := Content(payload);
    var terminated := content + ZeroBits(TerminatorLength(|content|, totalBits));
    terminated + ZeroBits(ToByteBoundary(|terminated|))
  }

  function Packed(payload: seq<Byte>, totalBits: nat): (bits: seq<Bit>)
    requires totalBits % 8 == 0
    ensures |bits| % 8 == 0
  {
    var aligned := Aligned(payload, totalBits);
    aligned + BytesToBits(Pads(if |aligned| < totalBits then (totalBits - |aligned|) / 8 else 0))
  }

  /** The reader: byte mode, count, that many bytes. */
  function Decode(bits: seq<Bit>): Option<seq<Byte>> {
    if |bits| < 12 || ValueOf(bits[..4]) != 4 then None
    else
      var n := ValueOf(bits[4..12]);
      if |bits| < 12 + 8 * n then None else Some(BitsToBytes(bits[12..12 + 8 * n]))
  }

  function BitsToBytes(bits: seq<Bit>): (bytes: seq<Byte>)
    requires |bits| % 8 == 0
    ensures |bytes| == |bits| / 8
  {
    if bits == [] then []
    else
      var n := |bits| - 8;
      ValueBound(bits[n..]);
      assert Pow2(8) == 256;
      BitsToBytes(bits[..n]) + [ValueOf(bits[n..])]
  }

  lemma {:induction false} ValueBound(bits: seq<Bit>)
    ensures ValueOf(bits) < Pow2(|bits|)
  {
    if bits != [] { ValueBound(bits[..|bits| - 1]); }
  }

  // ---- The loops ------------------------------------------------------------------------------

  method ChooseSpec(payloadLength: nat) returns (spec: VersionSpec)
    ensures spec == Choose(payloadLength)
  {
    for i := 0 to |VERSION_SPECS|
      invariant i == 7 ==> Choose(payloadLength) == VERSION_SPECS[6]
      invariant i < 7 ==> Choose(payloadLength) == ChooseFrom(i, payloadLength)
    {
      if VERSION_SPECS[i].dataCodewords >= payloadLength + 3 {
        return VERSION_SPECS[i];
      }
    }
    spec := VERSION_SPECS[|VERSION_SPECS| - 1];
  }

  /** A negative length pushes nothing. */
  method PushBits(bits: seq<Bit>, value: nat, length: int) returns (r: seq<Bit>)
    ensures r == bits + BitsOf(value, if length < 0 then 0 else length)
  {
    r := bits;
    var i := length - 1;
    while i >= 0
      invariant length > 0 ==> i >= -1
      invariant bits + BitsOf(value, if length < 0 then 0 else length) == r + BitsOf(value, if i < 0 then 0 else i + 1)
    {
      r := r + [value / Pow2(i) % 2];
      i := i - 1;
    }
  }

  method PushContent(payload: seq<Byte>) returns (bits: seq<Bit>)
    ensures bits == Content(payload)
  {
    hide BitsOf;
    bits := PushBits([], 4, 4);
    bits := PushBits(bits, |payload|, 8);
    for k := 0 to |payload|
      invariant bits == BitsOf(4, 4) + BitsOf(|payload|, 8) + BytesToBits(payload[..k])
    {
      bits := PushBits(bits, payload[k], 8);
      assert payload[..k + 1][..k] == payload[..k];
    }
    assert payload[..|payload|] == payload;
  }

  method PushTerminator(content: seq<Bit>, totalDataBits: nat) returns (bits: seq<Bit>)
    ensures var terminated := content + ZeroBits(TerminatorLength(|content|, totalDataBits));
      bits == terminated + ZeroBits(ToByteBoundary(|terminated|))
  {
    var termLen := if totalDataBits - |content| < 4 then totalDataBits - |content| else 4;
    bits := PushBits(content, 0, termLen);
    ZeroBitsOf(if termLen < 0 then 0 else termLen);
    ghost var terminated := bits;
    while |bits| % 8 != 0
      invariant |terminated| <= |bits| <= |terminated| + ToByteBoundary(|terminated|)
      invariant bits == terminated + ZeroBits(|bits| - |terminated|)
      decreases |terminated| + ToByteBoundary(|terminated|) - |bits|
    {
      bits := bits + [0];
    }
  }

  method PushPads(aligned: seq<Bit>, totalDataBits: nat) returns (bits: seq<Bit>)
    requires |aligned| % 8 == 0 && totalDataBits % 8 == 0
    ensures bits ==
      aligned + BytesToBits(Pads(if |aligned| < totalDataBits then (totalDataBits - |aligned|) / 8 else 0))
  {
    hide BitsOf;
    bits := aligned;
    var padBytes := [0xEC, 0x11];
    var padIdx := 0;
    while |bits| < totalDataBits
      invariant bits == aligned + BytesToBits(Pads(padIdx))
      invariant |aligned| + 8 * padIdx <= totalDataBits || padIdx == 0
    {
      bits := PushBits(bits, padBytes[padIdx % 2], 8);
      assert Pads(padIdx + 1)[..padIdx] == Pads(padIdx);
      padIdx := padIdx + 1;
    }
  }

  method PackBits(payload: seq<Byte>, spec: VersionSpec) returns (bits: seq<Bit>)
    ensures bits == Packed(payload, 8 * spec.dataCodewords)
  {
    hide Content, BytesToBits, Pads, ZeroBits, TerminatorLength, ToByteBoundary;
    bits := PushContent(payload);
    bits := PushTerminator(bits, spec.dataCodewords * 8);
    bits := PushPads(bits, spec.dataCodewords * 8);
  }

  lemma {:induction false} ZeroBitsOf(n: nat)
    ensures BitsOf(0, n) == ZeroBits(n)
  {
    if n > 0 { ZeroBitsOf(n - 1); }
  }

  method CollectBytes(bits: seq<Bit>) returns (dataBytes: array<Byte>)
    requires |bits| % 8 == 0
    ensures fresh(dataBytes) && dataBytes[..] == BitsToBytes(bits)
  {
    dataBytes := new Byte[|bits| / 8](_ => 0);
    for i := 0 to dataBytes.Length
      invariant dataBytes[..i] == BitsToBytes(bits[..8 * i])
    {
      var b: nat := 0;
      ghost var chunk := bits[8 * i..8 * i + 8];
      for j := 0 to 8
        invariant b == ValueOf(chunk[..j])
      {
        b := b * 2 + bits[8 * i + j];
        assert chunk[..j + 1][..j] == chunk[..j];
      }
      assert chunk[..8] == chunk;
      ValueBound(chunk);
      assert Pow2(8) == 256;
      dataBytes[i] := b;
      assert bits[..8 * (i + 1)][..8 * i] == bits[..8 * i];
      assert bits[..8 * (i + 1)][8 * i..] == chunk;
      assert dataBytes[..i + 1] == dataBytes[..i] + [b];
    }
    assert bits[..8 * dataBytes.Length] == bits;
  }
}
