/**
 * Base64 encoding with the standard alphabet and `=` padding, as defined in
 * section 4 of RFC 4648.
 *
 * `Encode` models Foundation's `Data.base64EncodedString()` and `Decode`
 * models `Data(base64Encoded:)` with no options: the input length must be a
 * multiple of four, every character must be in the alphabet, and padding may
 * only close the final quantum. Unused bits of a final padded quantum are
 * ignored rather than rejected (section 3.5 of RFC 4648 lets a decoder do
 * either), so decoding followed by encoding is not the identity in general;
 * `PadBitsIgnored` exhibits this, and `EncodeDecodeUnpadded` shows it is the
 * identity on unpadded input.
 */
module Base64 {
  import opened Results

  type Byte = x: int | 0 <= x < 256
  type Bytes = seq<Byte>
  type Sextet = x: int | 0 <= x < 64

  const Pad: char := '='

  /** The sextet a character stands for, if it is in the base64 alphabet. */
  function ValueOf(c: char): (v: Option<Sextet>) {
    if 'A' <= c <= 'Z' then Some(c as int - 'A' as int)
    else if 'a' <= c <= 'z' then Some(c as int - 'a' as int + 26)
    else if '0' <= c <= '9' then Some(c as int - '0' as int + 52)
    else if c == '+' then Some(62)
    else if c == '/' then Some(63)
    else None
  }

  predicate InAlphabet(c: char) {
    ValueOf(c).Some?
  }

  function Value(c: char): (v: Sextet)
    requires InAlphabet(c)
  {
    ValueOf(c).value
  }

  /** The character of the alphabet that stands for sextet `v`. */
  function CharOf(v: Sextet): (c: char)
    ensures ValueOf(c) == Some(v)
  {
    if v < 26 then ('A' as int + v) as char
    else if v < 52 then ('a' as int + (v - 26)) as char
    else if v < 62 then ('0' as int + (v - 52)) as char
    else if v == 62 then '+'
    else '/'
  }

  lemma CharOfValueOf(c: char)
    requires InAlphabet(c)
    ensures CharOf(ValueOf(c).value) == c
  {
  }

  /** Three bytes cut into four sextets, most significant bits first. */
  function Split(b0: Byte, b1: Byte, b2: Byte): (vs: (Sextet, Sextet, Sextet, Sextet)) {
    (b0 / 4, (b0 % 4) * 16 + b1 / 16, (b1 % 16) * 4 + b2 / 64, b2 % 64)
  }

  /** Four sextets glued into three bytes; the inverse of `Split`. */
  function Join(v0: Sextet, v1: Sextet, v2: Sextet, v3: Sextet): (bs: (Byte, Byte, Byte)) {
    (v0 * 4 + v1 / 16, (v1 % 16) * 16 + v2 / 4, (v2 % 4) * 64 + v3)
  }

  lemma JoinSplit(b0: Byte, b1: Byte, b2: Byte)
    ensures var (v0, v1, v2, v3) := Split(b0, b1, b2); Join(v0, v1, v2, v3) == (b0, b1, b2)
  {
  }

  lemma SplitJoin(v0: Sextet, v1: Sextet, v2: Sextet, v3: Sextet)
    ensures var (b0, b1, b2) := Join(v0, v1, v2, v3); Split(b0, b1, b2) == (v0, v1, v2, v3)
  {
  }

  /** Three bytes as four characters. */
  function EncodeQuantum(b0: Byte, b1: Byte, b2: Byte): (q: string) {
    var (v0, v1, v2, v3) := Split(b0, b1, b2);
    [CharOf(v0), CharOf(v1), CharOf(v2), CharOf(v3)]
  }

  /** `Data.base64EncodedString()`: every group of three bytes becomes four
      characters; a final group of one or two bytes is completed with zero
      bits and padded with `=`. */
  function Encode(b: Bytes): (s: string)
    ensures |s| == 4 * ((|b| + 2) / 3)
    ensures forall i :: 0 <= i < |s| ==> InAlphabet(s[i]) || s[i] == Pad
    decreases |b|
  {
    if |b| == 0 then []
    else if |b| == 1 then
      var (v0, v1, _, _) := Split(b[0], 0, 0);
      [CharOf(v0), CharOf(v1), Pad, Pad]
    else if |b| == 2 then
      var (v0, v1, v2, _) := Split(b[0], b[1], 0);
      [CharOf(v0), CharOf(v1), CharOf(v2), Pad]
    else EncodeQuantum(b[0], b[1], b[2]) + Encode(b[3..])
  }

  /** Decodes one quantum of four characters; padding is accepted only when
      the quantum is the `last` one of the input. */
  function DecodeQuantum(q: string, last: bool): (r: Option<Bytes>)
    requires |q| == 4
  {
    if InAlphabet(q[0]) && InAlphabet(q[1]) && InAlphabet(q[2]) && InAlphabet(q[3]) then
      var (b0, b1, b2) := Join(Value(q[0]), Value(q[1]), Value(q[2]), Value(q[3]));
      Some([b0, b1, b2])
    else if last && InAlphabet(q[0]) && InAlphabet(q[1]) && InAlphabet(q[2]) && q[3] == Pad then
      var (b0, b1, _) := Join(Value(q[0]), Value(q[1]), Value(q[2]), 0);
      Some([b0, b1])
    else if last && InAlphabet(q[0]) && InAlphabet(q[1]) && q[2] == Pad && q[3] == Pad then
      var (b0, _, _) := Join(Value(q[0]), Value(q[1]), 0, 0);
      Some([b0])
    else None
  }

  /** `Data(base64Encoded:)`: `None` where Foundation returns nil. */
  function Decode(s: string): (r: Option<Bytes>)
    ensures r.Some? ==> |s| % 4 == 0 && |r.value| <= 3 * (|s| / 4)
    decreases |s|
  {
    if |s| == 0 then Some([])
    else if |s| < 4 then None
    else match DecodeQuantum(s[..4], |s| == 4)
      case None => None
      case Some(head) =>
        match Decode(s[4..])
        case None => None
        case Some(tail) => Some(head + tail)
  }

  /** Only base64 text decodes: every character is in the alphabet except
      padding among the last two, and nothing but padding follows padding.
      So text such as `"AB-D"` or `"AB=C"` is rejected. */
  lemma {:induction false} DecodeAcceptsOnlyBase64(s: string)
    requires Decode(s).Some?
    ensures forall i :: 0 <= i < |s| ==> InAlphabet(s[i]) || (s[i] == Pad && i >= |s| - 2)
    ensures forall i, j :: 0 <= i < j < |s| && s[i] == Pad ==> s[j] == Pad
    decreases |s|
  {
    if |s| != 0 {
      DecodeAcceptsOnlyBase64(s[4..]);
      assert forall i :: 4 <= i < |s| ==> s[i] == s[4..][i - 4];
    }
  }

  lemma QuantumRoundTrip(b0: Byte, b1: Byte, b2: Byte, last: bool)
    ensures DecodeQuantum(EncodeQuantum(b0, b1, b2), last) == Some([b0, b1, b2])
  {
    var (v0, v1, v2, v3) := Split(b0, b1, b2);
    var q := EncodeQuantum(b0, b1, b2);
    assert Value(q[0]) == v0 && Value(q[1]) == v1 && Value(q[2]) == v2 && Value(q[3]) == v3;
    JoinSplit(b0, b1, b2);
  }

  lemma QuantumCanonical(q: string, last: bool)
    requires |q| == 4 && InAlphabet(q[0]) && InAlphabet(q[1]) && InAlphabet(q[2]) && InAlphabet(q[3])
    ensures DecodeQuantum(q, last).Some? && |DecodeQuantum(q, last).value| == 3
    ensures var b := DecodeQuantum(q, last).value; EncodeQuantum(b[0], b[1], b[2]) == q
  {
    var (v0, v1, v2, v3) := (Value(q[0]), Value(q[1]), Value(q[2]), Value(q[3]));
    var (b0, b1, b2) := Join(v0, v1, v2, v3);
    assert DecodeQuantum(q, last) == Some([b0, b1, b2]);
    SplitJoin(v0, v1, v2, v3);
    CharOfValueOf(q[0]);
    CharOfValueOf(q[1]);
    CharOfValueOf(q[2]);
    CharOfValueOf(q[3]);
    assert EncodeQuantum(b0, b1, b2) == [CharOf(v0), CharOf(v1), CharOf(v2), CharOf(v3)];
  }

  lemma OneByteRoundTrip(b0: Byte)
    ensures Encode([b0])[..4] == Encode([b0]) && Encode([b0])[4..] == []
    ensures DecodeQuantum(Encode([b0]), true) == Some([b0])
  {
    var (v0, v1, _, _) := Split(b0, 0, 0);
    var q := Encode([b0]);
    assert q == [CharOf(v0), CharOf(v1), Pad, Pad];
    assert Value(q[0]) == v0 && Value(q[1]) == v1 && !InAlphabet(q[2]) && !InAlphabet(q[3]);
    JoinSplit(b0, 0, 0);
  }

  lemma TwoBytesRoundTrip(b0: Byte, b1: Byte)
    ensures Encode([b0, b1])[..4] == Encode([b0, b1]) && Encode([b0, b1])[4..] == []
    ensures DecodeQuantum(Encode([b0, b1]), true) == Some([b0, b1])
  {
    var (v0, v1, v2, _) := Split(b0, b1, 0);
    var q := Encode([b0, b1]);
    assert q == [CharOf(v0), CharOf(v1), CharOf(v2), Pad];
    assert Value(q[0]) == v0 && Value(q[1]) == v1 && Value(q[2]) == v2 && !InAlphabet(q[3]);
    JoinSplit(b0, b1, 0);
  }

  /** A single quantum is the last one. */
  lemma DecodeSingle(q: string)
    requires |q| == 4
    ensures Decode(q) == DecodeQuantum(q, true)
  {
    assert q[..4] == q && q[4..] == [];
    if DecodeQuantum(q, true).Some? {
      assert DecodeQuantum(q, true).value + [] == DecodeQuantum(q, true).value;
    }
  }

  /** Decoding proceeds one quantum at a time. */
  lemma DecodeAppend(q: string, rest: string)
    requires |q| == 4 && |rest| % 4 == 0
    ensures Decode(q + rest) ==
      match (DecodeQuantum(q, rest == []), Decode(rest))
      case (Some(head), Some(tail)) => Some(head + tail)
      case _ => None
  {
    var s := q + rest;
    assert s[..4] == q && s[4..] == rest;
    if rest == [] {
      assert Decode(rest) == Some([]);
    } else {
      assert |s| != 4;
    }
  }

  /** Encoding of at least three bytes starts with a full quantum. */
  lemma EncodeFirstQuantum(b: Bytes)
    requires |b| >= 3
    ensures Encode(b) == EncodeQuantum(b[0], b[1], b[2]) + Encode(b[3..])
  {
  }

  lemma DecodeEncodeShort(b: Bytes)
    requires 1 <= |b| <= 2
    ensures Decode(Encode(b)) == Some(b)
  {
    if |b| == 1 {
      assert b == [b[0]];
      OneByteRoundTrip(b[0]);
    } else {
      assert b == [b[0], b[1]];
      TwoBytesRoundTrip(b[0], b[1]);
    }
    DecodeSingle(Encode(b));
  }

  lemma FirstThree(b: Bytes)
    requires |b| >= 3
    ensures b == [b[0], b[1], b[2]] + b[3..]
  {
  }

  lemma DecodeEncodeStep(b: Bytes)
    requires |b| >= 3
    requires Decode(Encode(b[3..])) == Some(b[3..])
    ensures Decode(Encode(b)) == Some(b)
  {
    var q := EncodeQuantum(b[0], b[1], b[2]);
    var rest := Encode(b[3..]);
    EncodeFirstQuantum(b);
    QuantumRoundTrip(b[0], b[1], b[2], rest == []);
    DecodeAppend(q, rest);
    FirstThree(b);
  }

  /** Decoding inverts encoding on every byte string. */
  lemma {:induction false} DecodeEncode(b: Bytes)
    ensures Decode(Encode(b)) == Some(b)
    decreases |b|
  {
    if |b| == 0 {
    } else if |b| <= 2 {
      DecodeEncodeShort(b);
    } else {
      DecodeEncode(b[3..]);
      DecodeEncodeStep(b);
    }
  }

  /** Encoding inverts decoding on input that carries no padding. */
  lemma {:induction false} EncodeDecodeUnpadded(s: string)
    requires |s| % 4 == 0
    requires forall i :: 0 <= i < |s| ==> InAlphabet(s[i])
    ensures Decode(s).Some? && Encode(Decode(s).value) == s
    decreases |s|
  {
    if |s| != 0 {
      var q := s[..4];
      QuantumCanonical(q, |s| == 4);
      var head := DecodeQuantum(q, |s| == 4).value;
      EncodeDecodeUnpadded(s[4..]);
      var tail := Decode(s[4..]).value;
      var b := head + tail;
      assert b[..3] == head && b[3..] == tail;
      assert Encode(b) == EncodeQuantum(head[0], head[1], head[2]) + Encode(tail);
      assert s == q + s[4..];
    }
  }

  /** The unused bits of a padded quantum are dropped: "AB==" decodes to the
      single byte 0, which encodes back as "AA==". */
  lemma PadBitsIgnored()
    ensures Decode("AB==") == Some([0])
    ensures Encode([0]) == "AA=="
  {
    var q := "AB==";
    assert Value(q[0]) == 0 && Value(q[1]) == 1 && q[2] == Pad && q[3] == Pad;
    assert !InAlphabet(q[2]);
    assert DecodeQuantum(q, true) == Some([0]);
    DecodeSingle(q);
    assert Split(0, 0, 0) == (0, 0, 0, 0);
    assert CharOf(0) == 'A';
  }
}
