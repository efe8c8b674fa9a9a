/** Round trip of the bit stream, its exact size and padding, and when the version choice is the smallest. */
module BitStreamTheorems {
  import opened Collections
  import opened GaloisField
  import opened BitStream
  import opened Arithmetic

  // ---- Bits and values --------------------------------------------------------------------------

  lemma {:induction false} ValueOfConcat(a: seq<Bit>, b: seq<Bit>)
    ensures ValueOf(a + b) == ValueOf(a) * Pow2(|b|) + ValueOf(b)
    decreases |b|
  {
    if b == [] {
      assert a + b == a;
    } else {
      var n := |b| - 1;
      assert (a + b)[..|a| + n] == a + b[..n];
      ValueOfConcat(a, b[..n]);
      assert Pow2(|b|) == 2 * Pow2(n) && ValueOf(b) == 2 * ValueOf(b[..n]) + b[n];
      assert ValueOf(a + b) == 2 * ValueOf(a + b[..n]) + b[n];
      hide ValueOf, Pow2;
      TwiceProduct(ValueOf(a), Pow2(n));
    }
  }

  lemma TwiceProduct(x: nat, y: nat)
    ensures x * (2 * y) == 2 * (x * y)
  {}

  lemma {:induction false} ValueOfBits(value: nat, n: nat)
    ensures ValueOf(BitsOf(value, n)) == value % Pow2(n)
  {
    if n > 0 {
      var p, bit := Pow2(n - 1), value / Pow2(n - 1) % 2;
      ValueOfBits(value, n - 1);
      ValueOfConcat([bit], BitsOf(value, n - 1));
      assert ValueOf([bit]) == bit by { assert [bit][..0] == []; }
      SplitModulus(value, p);
    }
  }

  lemma SplitModulus(value: nat, p: nat)
    requires p > 0
    ensures value % (2 * p) == (value / p % 2) * p + value % p
  {
    var q, r := value / p, value % p;
    var h, low := q / 2, q % 2;
    assert value == (2 * h + low) * p + r;
    assert value == h * (2 * p) + (low * p + r) by { assert (2 * h + low) * p == h * (2 * p) + low * p; }
    assert 0 <= low * p + r < 2 * p;
    UniqueRemainder(value, 2 * p, h, low * p + r);
  }

  lemma {:induction false} ValueInjective(a: seq<Bit>, b: seq<Bit>)
    requires |a| == |b| && ValueOf(a) == ValueOf(b)
    ensures a == b
  {
    if a != [] {
      var n := |a| - 1;
      ValueInjective(a[..n], b[..n]);
      assert a == a[..n] + [a[n]] && b == b[..n] + [b[n]];
    }
  }

  lemma BitsOfValue(bits: seq<Bit>)
    ensures BitsOf(ValueOf(bits), |bits|) == bits
  {
    ValueBound(bits);
    ValueOfBits(ValueOf(bits), |bits|);
    UniqueRemainder(ValueOf(bits), Pow2(|bits|), 0, ValueOf(bits));
    ValueInjective(BitsOf(ValueOf(bits), |bits|), bits);
  }

  lemma {:induction false} BytesOfBits(bytes: seq<Byte>)
    ensures BitsToBytes(BytesToBits(bytes)) == bytes
  {
    hide BitsOf;
    if bytes != [] {
      var n, last := |bytes| - 1, bytes[|bytes| - 1];
      var bits := BytesToBits(bytes);
      BytesOfBits(bytes[..n]);
      assert bits[..|bits| - 8] == BytesToBits(bytes[..n]);
      assert bits[|bits| - 8..] == BitsOf(last, 8);
      ValueOfBits(last, 8);
      assert Pow2(8) == 256;
    }
  }

  lemma {:induction false} BitsOfBytes(bits: seq<Bit>)
    requires |bits| % 8 == 0
    ensures BytesToBits(BitsToBytes(bits)) == bits
  {
    hide BitsOf;
    if bits != [] {
      var n := |bits| - 8;
      BitsOfBytes(bits[..n]);
      BitsOfValue(bits[n..]);
      var bytes := BitsToBytes(bits);
      assert bytes[..|bytes| - 1] == BitsToBytes(bits[..n]);
    }
  }

  lemma {:induction false} BytesToBitsConcat(a: seq<Byte>, b: seq<Byte>)
    ensures BytesToBits(a + b) == BytesToBits(a) + BytesToBits(b)
    decreases |b|
  {
    hide BitsOf;
    if b == [] {
      assert a + b == a;
    } else {
      var n := |b| - 1;
      assert (a + b)[..|a| + n] == a + b[..n];
      BytesToBitsConcat(a, b[..n]);
    }
  }

  // ---- Decoding -------------------------------------------------------------------------------

  lemma SamePart(a: seq<Bit>, b: seq<Bit>, m: nat, i: nat, j: nat)
    requires i <= j <= m <= |a| && m <= |b| && a[..m] == b[..m]
    ensures a[i..j] == b[i..j]
  {
    assert a[i..j] == a[..m][i..j] && b[i..j] == b[..m][i..j];
  }

  /** The decoder on any stream that starts with the content, whole or cut short. */
  lemma DecodeContent(payload: seq<Byte>, bits: seq<Bit>)
    requires |bits| >= 12
    requires var m := if |bits| < 12 + 8 * |payload| then |bits| else 12 + 8 * |payload|;
      bits[..m] == Content(payload)[..m]
    ensures var n := |payload| % 256;
      Decode(bits) == if |bits| < 12 + 8 * n then None else Some(payload[..n])
  {
    hide BitsOf, BytesToBits, BitsToBytes, ValueOf;
    var content, n := Content(payload), |payload| % 256;
    assert Pow2(8) == 256 && Pow2(4) == 16;
    ValueOfBits(4, 4); ValueOfBits(|payload|, 8);
    var m := if |bits| < 12 + 8 * |payload| then |bits| else 12 + 8 * |payload|;
    SamePart(bits, content, m, 0, 4); SamePart(bits, content, m, 4, 12);
    assert bits[..4] == content[..4] == BitsOf(4, 4);
    assert bits[4..12] == content[4..12] == BitsOf(|payload|, 8);
    if |bits| >= 12 + 8 * n {
      BytesToBitsConcat(payload[..n], payload[n..]);
      assert payload[..n] + payload[n..] == payload;
      SamePart(bits, content, m, 12, 12 + 8 * n);
      assert content[12..] == BytesToBits(payload);
      assert content[12..12 + 8 * n] == BytesToBits(payload)[..8 * n] == BytesToBits(payload[..n]);
      BytesOfBits(payload[..n]);
    }
  }

  lemma PackedStarts(payload: seq<Byte>, totalBits: nat)
    requires totalBits % 8 == 0
    ensures |Packed(payload, totalBits)| >= totalBits
    ensures |Packed(payload, totalBits)| >= 12 + 8 * |payload|
    ensures Packed(payload, totalBits)[..12 + 8 * |payload|] == Content(payload)
  {
    hide Content, BytesToBits;
  }

  lemma ChooseValue(payloadLength: nat)
    ensures Choose(payloadLength) in VERSION_SPECS
    ensures payloadLength >= 154 <==> Choose(payloadLength).dataCodewords < payloadLength + 3
    ensures var n := payloadLength + 3;
      Choose(payloadLength) ==
        if n <= 19 then VERSION_SPECS[0] else if n <= 34 then VERSION_SPECS[1] else if n <= 55 then VERSION_SPECS[2]
        else if n <= 80 then VERSION_SPECS[3] else if n <= 108 then VERSION_SPECS[4]
        else if n <= 136 then VERSION_SPECS[5]
        else VERSION_SPECS[6]
  {
    var n := payloadLength + 3;
    assert Choose(payloadLength) ==
      if n <= 19 then VERSION_SPECS[0] else if n <= 34 then VERSION_SPECS[1] else if n <= 55 then VERSION_SPECS[2]
      else if n <= 80 then VERSION_SPECS[3] else if n <= 108 then VERSION_SPECS[4]
      else if n <= 136 then VERSION_SPECS[5]
      else VERSION_SPECS[6] by {
      assert ChooseFrom(6, payloadLength) == VERSION_SPECS[6];
      assert ChooseFrom(4, payloadLength) ==
        if n <= 108 then VERSION_SPECS[4] else if n <= 136 then VERSION_SPECS[5] else VERSION_SPECS[6];
      assert ChooseFrom(2, payloadLength) ==
        if n <= 55 then VERSION_SPECS[2] else if n <= 80 then VERSION_SPECS[3] else ChooseFrom(4, payloadLength);
    }
  }

  /**
   * Reading back only the data codewords of the chosen version returns the payload exactly when the payload
   * has at most 154 bytes: one more than the encoder's own test for room asks for.
   */
  lemma StreamRoundTrip(payload: seq<Byte>)
    ensures var total := 8 * Choose(|payload|).dataCodewords;
      |Packed(payload, total)| >= total &&
      (Decode(Packed(payload, total)[..total]) == Some(payload) <==> |payload| <= 154)
  {
    hide Packed, Content, Decode;
    var total := 8 * Choose(|payload|).dataCodewords;
    var bits := Packed(payload, total);
    PackedStarts(payload, total);
    ChooseValue(|payload|);
    var content, read := Content(payload), bits[..total];
    var m := if total < |content| then total else |content|;
    assert read[..m] == content[..m] by {
      assert bits[..|content|] == content;
      assert bits[..|content|][..m] == bits[..m];
    }
    DecodeContent(payload, read);
    assert payload[..|payload|] == payload;
  }

  // ---- Size and padding --------------------------------------------------------------------------

  /** Whether content, a full terminator and byte alignment fit the data codewords of a version. */
  predicate Fits(payloadLength: nat, spec: VersionSpec) {
    12 + 8 * payloadLength <= 8 * spec.dataCodewords
  }

  /** A stream that fits fills the data codewords exactly, and the unused ones alternate 0xEC, 0x11. */
  lemma PackedWhenFits(payload: seq<Byte>, spec: VersionSpec)
    requires Fits(|payload|, spec)
    ensures var bytes := BitsToBytes(Packed(payload, 8 * spec.dataCodewords));
      && |bytes| == spec.dataCodewords
      && forall k :: |payload| + 2 <= k < |bytes| ==> bytes[k] == if (k - |payload|) % 2 == 0 then 0xEC else 0x11
  {
    hide Content, BytesToBits, BitsToBytes;
    var total := 8 * spec.dataCodewords;
    var aligned, n := Aligned(payload, total), spec.dataCodewords - |payload| - 2;
    assert |Content(payload)| == 12 + 8 * |payload| && total - |Content(payload)| >= 4;
    assert |aligned| == 8 * (|payload| + 2);
    assert Packed(payload, total) == aligned + BytesToBits(Pads(n));
    BitsOfBytes(aligned);
    BytesToBitsConcat(BitsToBytes(aligned), Pads(n));
    BytesOfBits(BitsToBytes(aligned) + Pads(n));
  }

  lemma LowNibble(value: nat)
    ensures BitsOf(value, 4) == [value / 8 % 2, value / 4 % 2, value / 2 % 2, value % 2]
  {
    assert Pow2(0) == 1 && Pow2(1) == 2 && Pow2(2) == 4 && Pow2(3) == 8;
    assert BitsOf(value, 0) == [];
    assert BitsOf(value, 1) == [value % 2] && BitsOf(value, 2) == [value / 2 % 2, value % 2];
    assert BitsOf(value, 3) == [value / 4 % 2, value / 2 % 2, value % 2];
  }

  lemma HighNibble(value: nat)
    ensures BitsOf(value, 8) == [value / 128 % 2, value / 64 % 2, value / 32 % 2, value / 16 % 2] + BitsOf(value, 4)
  {
    assert Pow2(4) == 16 && Pow2(5) == 32 && Pow2(6) == 64 && Pow2(7) == 128;
    var four := BitsOf(value, 4);
    assert BitsOf(value, 5) == [value / 16 % 2] + four;
    assert BitsOf(value, 6) == [value / 32 % 2, value / 16 % 2] + four;
    assert BitsOf(value, 7) == [value / 64 % 2, value / 32 % 2, value / 16 % 2] + four;
  }

  lemma HighDigits(high: nat, low: nat)
    requires low < 16
    ensures var value := 16 * high + low;
      value / 128 == high / 8 && value / 64 == high / 4 && value / 32 == high / 2 && value / 16 == high
  {
    var value := 16 * high + low;
    UniqueRemainder(value, 16, high, low);
    UniqueRemainder(value, 32, high / 2, 16 * (high % 2) + low);
    UniqueRemainder(value, 64, high / 4, 16 * (high % 4) + low);
    UniqueRemainder(value, 128, high / 8, 16 * (high % 8) + low);
  }

  lemma LowDigits(high: nat, low: nat)
    requires low < 16
    ensures var value := 16 * high + low;
      && value / 8 % 2 == low / 8 % 2 && value / 4 % 2 == low / 4 % 2 && value / 2 % 2 == low / 2 % 2
      && value % 2 == low % 2
  {
    var value := 16 * high + low;
    hide *;
    Eighths(high, low);
    Quarters(high, low);
    Halves(high, low);
    Parities(high, low / 8, low / 4, low / 2, low);
  }

  lemma Parities(high: nat, eighth: nat, quarter: nat, half: nat, low: nat)
    ensures (2 * high + eighth) % 2 == eighth % 2 && (4 * high + quarter) % 2 == quarter % 2
    ensures (8 * high + half) % 2 == half % 2 && (16 * high + low) % 2 == low % 2
  {}

  lemma Halves(high: nat, low: nat)
    requires low < 16
    ensures (16 * high + low) / 2 == 8 * high + low / 2
  {
    UniqueRemainder(16 * high + low, 2, 8 * high + low / 2, low % 2);
  }

  lemma Eighths(high: nat, low: nat)
    requires low < 16
    ensures (16 * high + low) / 8 == 2 * high + low / 8
  {
    UniqueRemainder(16 * high + low, 8, 2 * high + low / 8, low % 8);
  }

  lemma Quarters(high: nat, low: nat)
    requires low < 16
    ensures (16 * high + low) / 4 == 4 * high + low / 4
  {
    UniqueRemainder(16 * high + low, 4, 4 * high + low / 4, low % 4);
  }

  lemma BitsOfNibbles(high: nat, low: nat)
    requires high < 16 && low < 16
    ensures BitsOf(16 * high + low, 8) == BitsOf(high, 4) + BitsOf(low, 4)
  {
    hide BitsOf;
    HighNibble(16 * high + low);
    LowNibble(16 * high + low);
    LowNibble(high);
    LowNibble(low);
    HighDigits(high, low);
    LowDigits(high, low);
  }

  /** Each byte is made of the low half of the one before and its own high half. */
  function Shifted(before: nat, payload: seq<Byte>): (bytes: seq<Byte>)
    ensures |bytes| == |payload| + 1
    ensures forall i :: 0 <= i < |payload| ==>
      bytes[i] == 16 * ((if i == 0 then before else payload[i - 1]) % 16) + payload[i] / 16
    ensures bytes[|payload|] == 16 * ((if payload == [] then before else payload[|payload| - 1]) % 16)
    decreases |payload|
  {
    if payload == [] then [16 * (before % 16)]
    else [16 * (before % 16) + payload[0] / 16] + Shifted(payload[0], payload[1..])
  }

  lemma BytesToBitsOne(byte: Byte)
    ensures BytesToBits([byte]) == BitsOf(byte, 8)
  {
    assert [byte][..0] == [];
    assert BytesToBits([byte][..0]) == [];
  }

  lemma ShiftedNext(before: nat, payload: seq<Byte>)
    requires payload != []
    ensures Shifted(before, payload) == [16 * (before % 16) + payload[0] / 16] + Shifted(payload[0], payload[1..])
  {}

  lemma ShiftedNone(before: nat)
    ensures Shifted(before, []) == [16 * (before % 16)] && BytesToBits([]) == []
  {}

  lemma ShiftedByte(before: nat, byte: Byte)
    ensures BytesToBits([16 * (before % 16) + byte / 16]) == BitsOf(before % 16, 4) + BitsOf(byte / 16, 4)
    ensures BytesToBits([byte]) == BitsOf(byte / 16, 4) + BitsOf(byte % 16, 4)
  {
    hide BitsOf, BytesToBits;
    BytesToBitsOne(16 * (before % 16) + byte / 16);
    BytesToBitsOne(byte);
    BitsOfNibbles(before % 16, byte / 16);
    BitsOfNibbles(byte / 16, byte % 16);
  }

  lemma {:induction false} ShiftedBits(before: nat, payload: seq<Byte>)
    ensures BytesToBits(Shifted(before, payload)) == BitsOf(before % 16, 4) + BytesToBits(payload) + ZeroBits(4)
    decreases |payload|
  {
    hide BitsOf, BytesToBits, Shifted, ZeroBits;
    if payload == [] {
      ShiftedNone(before);
      ShiftedByte(before, 0);
      ZeroNibble();
      assert BitsOf(before % 16, 4) + [] == BitsOf(before % 16, 4);
    } else {
      ShiftedBits(payload[0], payload[1..]);
      ShiftedMore(before, payload);
    }
  }

  lemma ShiftedMore(before: nat, payload: seq<Byte>)
    requires payload != []
    requires BytesToBits(Shifted(payload[0], payload[1..])) ==
      BitsOf(payload[0] % 16, 4) + BytesToBits(payload[1..]) + ZeroBits(4)
    ensures BytesToBits(Shifted(before, payload)) == BitsOf(before % 16, 4) + BytesToBits(payload) + ZeroBits(4)
  {
    hide BitsOf, BytesToBits, Shifted, ZeroBits;
    var first, rest := payload[0], payload[1..];
    assert [first] + rest == payload;
    ShiftedNext(before, payload);
    ShiftedByte(before, first);
    BytesToBitsConcat([16 * (before % 16) + first / 16], Shifted(first, rest));
    BytesToBitsConcat([first], rest);
    Regroup(BitsOf(before % 16, 4), BitsOf(first / 16, 4), BitsOf(first % 16, 4), BytesToBits(rest), ZeroBits(4));
  }

  lemma ZeroNibble()
    ensures BitsOf(0, 4) == ZeroBits(4)
  {
    assert BitsOf(0, 0) == [] && BitsOf(0, 1) == [0] && BitsOf(0, 2) == [0, 0] && BitsOf(0, 3) == [0, 0, 0];
  }

  lemma Regroup(a: seq<Bit>, b: seq<Bit>, c: seq<Bit>, d: seq<Bit>, e: seq<Bit>)
    ensures (a + b) + (c + d + e) == a + ((b + c) + d) + e
  {}

  /**
   * The data codewords byte by byte: mode and count in halves of a byte, so that the payload is shifted by half a
   * byte, then the terminator, which fills the last one.
   */
  lemma PackedBytes(payload: seq<Byte>, spec: VersionSpec)
    requires Fits(|payload|, spec) && |payload| < 256
    ensures spec.dataCodewords >= |payload| + 2
    ensures BitsToBytes(Packed(payload, 8 * spec.dataCodewords)) ==
      [0x40 + |payload| / 16] + Shifted(|payload|, payload) + Pads(spec.dataCodewords - |payload| - 2)
  {
    hide BytesToBits, BitsToBytes, Pads, Shifted, Packed, Content, ZeroBits, Fits;
    PackedIs(payload, spec);
    StartBits(payload);
    var start, pads := [0x40 + |payload| / 16] + Shifted(|payload|, payload), Pads(spec.dataCodewords - |payload| - 2);
    BytesToBitsConcat(start, pads);
    BytesBack(Packed(payload, 8 * spec.dataCodewords), start + pads);
  }

  lemma BytesBack(bits: seq<Bit>, bytes: seq<Byte>)
    requires bits == BytesToBits(bytes)
    ensures |bits| % 8 == 0 && BitsToBytes(bits) == bytes
  {
    hide BytesToBits, BitsToBytes;
    BytesOfBits(bytes);
  }

  /** Where there is room for it the terminator has four bits, which end the last byte. */
  lemma PackedIs(payload: seq<Byte>, spec: VersionSpec)
    requires Fits(|payload|, spec)
    ensures spec.dataCodewords >= |payload| + 2
    ensures Packed(payload, 8 * spec.dataCodewords) ==
      (Content(payload) + ZeroBits(4)) + BytesToBits(Pads(spec.dataCodewords - |payload| - 2))
  {
    hide Content, BytesToBits, Pads;
    var content, total := Content(payload), 8 * spec.dataCodewords;
    assert TerminatorLength(|content|, total) == 4 && ToByteBoundary(|content| + 4) == 0;
    assert ZeroBits(0) == [];
    assert Aligned(payload, total) == content + ZeroBits(4);
  }

  lemma StartBits(payload: seq<Byte>)
    requires |payload| < 256
    ensures BytesToBits([0x40 + |payload| / 16] + Shifted(|payload|, payload)) == Content(payload) + ZeroBits(4)
  {
    hide BitsOf, BytesToBits, Shifted, ZeroBits;
    var n := |payload|;
    BytesToBitsConcat([0x40 + n / 16], Shifted(n, payload));
    BytesToBitsOne(0x40 + n / 16);
    ShiftedBits(n, payload);
    BitsOfNibbles(4, n / 16);
    BitsOfNibbles(n / 16, n % 16);
    HeadOfContent(BitsOf(4, 4), BitsOf(n / 16, 4), BitsOf(n % 16, 4), BytesToBits(payload), ZeroBits(4));
  }

  lemma HeadOfContent(a: seq<Bit>, b: seq<Bit>, c: seq<Bit>, d: seq<Bit>, e: seq<Bit>)
    ensures (a + b) + (c + d + e) == a + (b + c) + d + e
  {}

  /** A stream that does not fit is packed into payload length + 2 bytes, without any pad byte. */
  lemma PackedWhenTooLong(payload: seq<Byte>, spec: VersionSpec)
    requires !Fits(|payload|, spec)
    ensures |BitsToBytes(Packed(payload, 8 * spec.dataCodewords))| == |payload| + 2
  {
    hide Content, BytesToBits, BitsToBytes;
    assert |Content(payload)| == 12 + 8 * |payload| > 8 * spec.dataCodewords;
    assert |Aligned(payload, 8 * spec.dataCodewords)| == 8 * (|payload| + 2);
  }

  /** The smallest version that could hold a stream, from the table. */
  lemma SmallestFitting(payloadLength: nat)
    requires payloadLength <= 154
    ensures forall i :: 0 <= i < 7 ==>
      (Fits(payloadLength, VERSION_SPECS[i]) <==> payloadLength + 2 <= [19, 34, 55, 80, 108, 136, 156][i]) &&
      VERSION_SPECS[i].version == i + 1
  {
    forall i | 0 <= i < 7 ensures
      (Fits(payloadLength, VERSION_SPECS[i]) <==> payloadLength + 2 <= [19, 34, 55, 80, 108, 136, 156][i]) &&
      VERSION_SPECS[i].version == i + 1
    {
      assert i == 0 || i == 1 || i == 2 || i == 3 || i == 4 || i == 5 || i == 6;
    }
  }

  /**
   * The chosen version is the smallest one that could hold the stream, except for the six payload lengths
   * that fill a smaller version's data codewords to the last byte.
   */
  lemma ChosenIsSmallest(payloadLength: nat)
    requires payloadLength <= 154
    ensures Fits(payloadLength, Choose(payloadLength))
    ensures (forall spec :: spec in VERSION_SPECS && Fits(payloadLength, spec) ==>
      Choose(payloadLength).version <= spec.version)
       <==> payloadLength + 2 !in {19, 34, 55, 80, 108, 136}
  {
    ChooseValue(payloadLength);
    hide Choose, Fits;
    forall spec ensures spec in VERSION_SPECS ==> exists i :: 0 <= i < 7 && spec == VERSION_SPECS[i] {}
    SmallestFitting(payloadLength);
  }
}
