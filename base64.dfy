/** Base64 as defined in section 4 of RFC 4648: the standard alphabet
    A-Z, a-z, 0-9, '+', '/' and '=' padding. `Encode` is what PHP's
    `base64_encode` computes; `Decode` is the strict inverse (it rejects
    non-alphabet characters, misplaced padding and non-zero pad bits), so the
    two round-trip both ways. */
module Base64 {
  import opened Wrappers
  import opened Php

  /** The character for a 6-bit value, per Table 1 of RFC 4648. */
  function Symbol(v: int): (c: char)
    requires 0 <= v < 64
  {
    if v < 26 then ('A' as int + v) as char
    else if v < 52 then ('a' as int + (v - 26)) as char
    else if v < 62 then ('0' as int + (v - 52)) as char
    else if v == 62 then '+'
    else '/'
  }

  predicate IsSymbol(c: char) {
    ('A' <= c <= 'Z') || ('a' <= c <= 'z') || ('0' <= c <= '9') || c == '+' || c == '/'
  }

  /** The 6-bit value of an alphabet character; `Symbol` is its inverse. */
  function SymbolValue(c: char): (v: int)
    requires IsSymbol(c)
    ensures 0 <= v < 64 && Symbol(v) == c
  {
    if 'A' <= c <= 'Z' then c as int - 'A' as int
    else if 'a' <= c <= 'z' then c as int - 'a' as int + 26
    else if '0' <= c <= '9' then c as int - '0' as int + 52
    else if c == '+' then 62
    else 63
  }

  lemma SymbolRoundTrip(v: int)
    requires 0 <= v < 64
    ensures IsSymbol(Symbol(v)) && SymbolValue(Symbol(v)) == v
  {
  }

  /** Four characters for three bytes (24 bits, most significant first). */
  function EncodeGroup(b0: Byte, b1: Byte, b2: Byte): string {
    [Symbol(b0 / 4), Symbol((b0 % 4) * 16 + b1 / 16), Symbol((b1 % 16) * 4 + b2 / 64), Symbol(b2 % 64)]
  }

  predicate IsEncodedChar(c: char) {
    IsSymbol(c) || c == '='
  }

  /** RFC 4648 section 4 encoding: whole 3-byte groups become 4 symbols; a final
      group of 1 or 2 bytes is zero-filled and padded with "==" or "=". */
  function Encode(b: seq<Byte>): (r: string)
    ensures |r| == 4 * ((|b| + 2) / 3)
    decreases |b|
  {
    if |b| == 0 then ""
    else if |b| == 1 then [Symbol(b[0] / 4), Symbol((b[0] % 4) * 16), '=', '=']
    else if |b| == 2 then [Symbol(b[0] / 4), Symbol((b[0] % 4) * 16 + b[1] / 16), Symbol((b[1] % 16) * 4), '=']
    else EncodeGroup(b[0], b[1], b[2]) + Encode(b[3..])
  }

  /** Every character of an encoding is an alphabet symbol or padding. */
  lemma {:induction false} EncodeAlphabet(b: seq<Byte>)
    ensures forall i :: 0 <= i < |Encode(b)| ==> IsEncodedChar(Encode(b)[i])
    decreases |b|
  {
    if |b| > 3 {
      EncodeAlphabet(b[3..]);
      EncodeUnfold(b);
    }
  }

  /** The three bytes of four symbol values (no padding). */
  function DecodeGroup(v0: int, v1: int, v2: int, v3: int): seq<Byte>
    requires 0 <= v0 < 64 && 0 <= v1 < 64 && 0 <= v2 < 64 && 0 <= v3 < 64
  {
    [v0 * 4 + v1 / 16, (v1 % 16) * 16 + v2 / 4, (v2 % 4) * 64 + v3]
  }

  /** The last quantum, which may carry "==" or "=" padding; the pad bits must be zero. */
  function DecodeLast(q: string): Option<seq<Byte>>
    requires |q| == 4
  {
    if !IsSymbol(q[0]) || !IsSymbol(q[1]) then None
    else
      var v0, v1 := SymbolValue(q[0]), SymbolValue(q[1]);
      if q[2] == '=' && q[3] == '=' then
        if v1 % 16 == 0 then Some([v0 * 4 + v1 / 16]) else None
      else if !IsSymbol(q[2]) then None
      else
        var v2 := SymbolValue(q[2]);
        if q[3] == '=' then
          if v2 % 4 == 0 then Some([v0 * 4 + v1 / 16, (v1 % 16) * 16 + v2 / 4]) else None
        else if !IsSymbol(q[3]) then None
        else Some(DecodeGroup(v0, v1, v2, SymbolValue(q[3])))
  }

  /** Strict decoding: a length that is a multiple of four, alphabet characters
      only, padding only at the very end. */
  function Decode(s: string): (r: Option<seq<Byte>>)
    decreases |s|
  {
    if |s| == 0 then Some([])
    else if |s| < 4 then None
    else if |s| == 4 then DecodeLast(s)
    else if !(IsSymbol(s[0]) && IsSymbol(s[1]) && IsSymbol(s[2]) && IsSymbol(s[3])) then None
    else match Decode(s[4..])
      case None => None
      case Some(rest) =>
        Some(DecodeGroup(SymbolValue(s[0]), SymbolValue(s[1]), SymbolValue(s[2]), SymbolValue(s[3])) + rest)
  }

  /** Splitting three bytes into four 6-bit values and joining them again
      gives the three bytes back. */
  lemma GroupRoundTrip(b0: Byte, b1: Byte, b2: Byte)
    ensures 0 <= (b0 % 4) * 16 + b1 / 16 < 64 && 0 <= (b1 % 16) * 4 + b2 / 64 < 64
    ensures DecodeGroup(b0 / 4, (b0 % 4) * 16 + b1 / 16, (b1 % 16) * 4 + b2 / 64, b2 % 64) == [b0, b1, b2]
  {
    var v1 := (b0 % 4) * 16 + b1 / 16;
    var v2 := (b1 % 16) * 4 + b2 / 64;
    assert v1 / 16 == b0 % 4 && v1 % 16 == b1 / 16;
    assert v2 / 4 == b1 % 16 && v2 % 4 == b2 / 64;
  }

  /** Decoding inverts encoding on every byte string. */
  lemma {:induction false} DecodeEncode(b: seq<Byte>)
    ensures Decode(Encode(b)) == Some(b)
    decreases |b|
  {
    if |b| <= 3 {
      DecodeEncodeShort(b);
    } else {
      SplitThree(b);
      DecodeEncode(b[3..]);
      DecodeEncodeStep(b[0], b[1], b[2], b[3..]);
    }
  }

  /** The round trip on at most one group. */
  lemma DecodeEncodeShort(b: seq<Byte>)
    requires |b| <= 3
    ensures Decode(Encode(b)) == Some(b)
  {
    if |b| == 1 {
      DecodeEncodeOne(b);
    } else if |b| == 2 {
      DecodeEncodeTwo(b);
    } else if |b| == 3 {
      DecodeEncodeThree(b);
    }
  }

  lemma DecodeEncodeOne(b: seq<Byte>)
    requires |b| == 1
    ensures Decode(Encode(b)) == Some(b)
  {
    assert b == [b[0]];
    DecodeEncodeSingle(b[0]);
  }

  lemma DecodeEncodeSingle(x: Byte)
    ensures Decode(Encode([x])) == Some([x])
  {
    var v0, v1 := x / 4, (x % 4) * 16;
    assert Encode([x]) == [Symbol(v0), Symbol(v1), '=', '='];
    assert v1 % 16 == 0 && v0 * 4 + v1 / 16 == x;
    DecodeTwoSymbols(v0, v1);
  }

  lemma DecodeEncodeTwo(b: seq<Byte>)
    requires |b| == 2
    ensures Decode(Encode(b)) == Some(b)
  {
    assert b == [b[0], b[1]];
    DecodeEncodePair(b[0], b[1]);
  }

  lemma DecodeEncodePair(x: Byte, y: Byte)
    ensures Decode(Encode([x, y])) == Some([x, y])
  {
    EncodeOfTwo(x, y);
    PairSplits(x, y);
    DecodeThreeSymbols(x / 4, (x % 4) * 16 + y / 16, (y % 16) * 4);
  }

  lemma EncodeOfTwo(x: Byte, y: Byte)
    ensures Encode([x, y]) == [Symbol(x / 4), Symbol((x % 4) * 16 + y / 16), Symbol((y % 16) * 4), '=']
  {
  }

  /** Two bytes split into 6 + 6 + 4 bits (the last two bits zero) join back. */
  lemma PairSplits(x: Byte, y: Byte)
    ensures var v1, v2 := (x % 4) * 16 + y / 16, (y % 16) * 4;
      && 0 <= v1 < 64 && 0 <= v2 < 64 && v2 % 4 == 0
      && (x / 4) * 4 + v1 / 16 == x && (v1 % 16) * 16 + v2 / 4 == y
  {
    var v1, v2 := (x % 4) * 16 + y / 16, (y % 16) * 4;
    assert v1 / 16 == x % 4 && v1 % 16 == y / 16;
    assert v2 / 4 == y % 16;
  }

  /** A last quantum "xy==" decodes to one byte when the pad bits of y are zero. */
  lemma DecodeTwoSymbols(v0: int, v1: int)
    requires 0 <= v0 < 64 && 0 <= v1 < 64 && v1 % 16 == 0
    ensures Decode([Symbol(v0), Symbol(v1), '=', '=']) == Some([v0 * 4 + v1 / 16])
  {
    SymbolRoundTrip(v0);
    SymbolRoundTrip(v1);
  }

  /** A last quantum "xyz=" decodes to two bytes when the pad bits of z are zero. */
  lemma DecodeThreeSymbols(v0: int, v1: int, v2: int)
    requires 0 <= v0 < 64 && 0 <= v1 < 64 && 0 <= v2 < 64 && v2 % 4 == 0
    ensures Decode([Symbol(v0), Symbol(v1), Symbol(v2), '=']) == Some([v0 * 4 + v1 / 16, (v1 % 16) * 16 + v2 / 4])
  {
    SymbolRoundTrip(v0);
    SymbolRoundTrip(v1);
    SymbolRoundTrip(v2);
  }

  lemma DecodeEncodeThree(b: seq<Byte>)
    requires |b| == 3
    ensures Decode(Encode(b)) == Some(b)
  {
    assert b == [b[0], b[1], b[2]];
    DecodeEncodeTriple(b[0], b[1], b[2]);
  }

  lemma DecodeEncodeTriple(x: Byte, y: Byte, z: Byte)
    ensures Decode(Encode([x, y, z])) == Some([x, y, z])
  {
    var q := EncodeGroup(x, y, z);
    EncodeOfThree(x, y, z);
    GroupDecodes(x, y, z);
    assert DecodeLast(q) == Some([x, y, z]);
  }

  lemma EncodeOfThree(x: Byte, y: Byte, z: Byte)
    ensures Encode([x, y, z]) == EncodeGroup(x, y, z)
  {
    EncodeUnfold([x, y, z]);
    assert [x, y, z][3..] == [];
  }

  /** One step of the induction: a full group in front of a non-empty rest. */
  lemma DecodeEncodeStep(b0: Byte, b1: Byte, b2: Byte, tail: seq<Byte>)
    requires |tail| > 0 && Decode(Encode(tail)) == Some(tail)
    ensures Decode(Encode([b0, b1, b2] + tail)) == Some([b0, b1, b2] + tail)
  {
    var rest := Encode(tail);
    assert |rest| > 0;
    EncodeCons(b0, b1, b2, tail);
    DecodeCons(b0, b1, b2, rest, tail);
  }

  lemma SplitThree(b: seq<Byte>)
    requires |b| >= 3
    ensures b == [b[0], b[1], b[2]] + b[3..]
  {
  }

  lemma EncodeCons(b0: Byte, b1: Byte, b2: Byte, tail: seq<Byte>)
    ensures Encode([b0, b1, b2] + tail) == EncodeGroup(b0, b1, b2) + Encode(tail)
  {
    var b := [b0, b1, b2] + tail;
    EncodeUnfold(b);
    assert b[3..] == tail;
  }

  lemma DecodeCons(b0: Byte, b1: Byte, b2: Byte, rest: string, tail: seq<Byte>)
    requires |rest| > 0 && Decode(rest) == Some(tail)
    ensures Decode(EncodeGroup(b0, b1, b2) + rest) == Some([b0, b1, b2] + tail)
  {
    GroupDecodes(b0, b1, b2);
    DecodeUnfold(EncodeGroup(b0, b1, b2), rest);
  }

  /** `Encode` on three bytes followed by more input. */
  lemma EncodeUnfold(b: seq<Byte>)
    requires |b| >= 3
    ensures Encode(b) == EncodeGroup(b[0], b[1], b[2]) + Encode(b[3..])
  {
  }

  /** The four characters of a group are alphabet symbols whose values give
      the group's bytes back. */
  lemma GroupDecodes(b0: Byte, b1: Byte, b2: Byte)
    ensures var q := EncodeGroup(b0, b1, b2);
      && IsSymbol(q[0]) && IsSymbol(q[1]) && IsSymbol(q[2]) && IsSymbol(q[3])
      && DecodeGroup(SymbolValue(q[0]), SymbolValue(q[1]), SymbolValue(q[2]), SymbolValue(q[3])) == [b0, b1, b2]
  {
    GroupRoundTrip(b0, b1, b2);
    SymbolRoundTrip(b0 / 4);
    SymbolRoundTrip((b0 % 4) * 16 + b1 / 16);
    SymbolRoundTrip((b1 % 16) * 4 + b2 / 64);
    SymbolRoundTrip(b2 % 64);
  }

  /** `Decode` on a full quantum followed by more decodable input. */
  lemma DecodeUnfold(q: string, t: string)
    requires |q| == 4 && |t| > 0 && Decode(t).Some?
    requires IsSymbol(q[0]) && IsSymbol(q[1]) && IsSymbol(q[2]) && IsSymbol(q[3])
    ensures Decode(q + t) ==
      Some(DecodeGroup(SymbolValue(q[0]), SymbolValue(q[1]), SymbolValue(q[2]), SymbolValue(q[3])) + Decode(t).value)
  {
    var s := q + t;
    assert s[..4] == q && s[4..] == t;
  }

  /** Encoding inverts successful decoding: every string `Decode` accepts is
      the one canonical encoding of its bytes. */
  lemma {:induction false} EncodeDecode(s: string)
    requires Decode(s).Some?
    ensures Encode(Decode(s).value) == s
    decreases |s|
  {
    if |s| == 0 {
    } else if |s| == 4 {
      EncodeDecodeLast(s);
    } else {
      var q, t := s[..4], s[4..];
      assert s == q + t;
      DecodeUnfold(q, t);
      EncodeDecode(t);
      EncodeDecodeStep(q, Decode(t).value);
    }
  }

  /** One step of the induction: a full quantum in front of the bytes of a
      non-empty rest. */
  lemma EncodeDecodeStep(q: string, rest: seq<Byte>)
    requires |q| == 4 && IsSymbol(q[0]) && IsSymbol(q[1]) && IsSymbol(q[2]) && IsSymbol(q[3])
    requires |Encode(rest)| > 0
    ensures Encode(DecodeGroup(SymbolValue(q[0]), SymbolValue(q[1]), SymbolValue(q[2]), SymbolValue(q[3])) + rest)
      == q + Encode(rest)
  {
    var g := DecodeGroup(SymbolValue(q[0]), SymbolValue(q[1]), SymbolValue(q[2]), SymbolValue(q[3]));
    QuantumRoundTrip(q);
    assert g == [g[0], g[1], g[2]];
    EncodeCons(g[0], g[1], g[2], rest);
  }

  /** The three bytes of a full quantum encode back to that quantum. */
  lemma QuantumRoundTrip(q: string)
    requires |q| == 4 && IsSymbol(q[0]) && IsSymbol(q[1]) && IsSymbol(q[2]) && IsSymbol(q[3])
    ensures var g := DecodeGroup(SymbolValue(q[0]), SymbolValue(q[1]), SymbolValue(q[2]), SymbolValue(q[3]));
      EncodeGroup(g[0], g[1], g[2]) == q
  {
    var v0, v1, v2, v3 := SymbolValue(q[0]), SymbolValue(q[1]), SymbolValue(q[2]), SymbolValue(q[3]);
    GroupEncodes(v0, v1, v2, v3);
    assert q == [q[0], q[1], q[2], q[3]];
  }

  lemma GroupEncodes(v0: int, v1: int, v2: int, v3: int)
    requires 0 <= v0 < 64 && 0 <= v1 < 64 && 0 <= v2 < 64 && 0 <= v3 < 64
    ensures var g := DecodeGroup(v0, v1, v2, v3);
      EncodeGroup(g[0], g[1], g[2]) == [Symbol(v0), Symbol(v1), Symbol(v2), Symbol(v3)]
  {
    GroupSplits(v0, v1, v2, v3);
  }

  /** Joining four 6-bit values into three bytes and splitting them again
      gives the four values back. */
  lemma GroupSplits(v0: int, v1: int, v2: int, v3: int)
    requires 0 <= v0 < 64 && 0 <= v1 < 64 && 0 <= v2 < 64 && 0 <= v3 < 64
    ensures var g := DecodeGroup(v0, v1, v2, v3);
      && g[0] / 4 == v0 && (g[0] % 4) * 16 + g[1] / 16 == v1
      && (g[1] % 16) * 4 + g[2] / 64 == v2 && g[2] % 64 == v3
  {
  }

  lemma EncodeDecodeLast(q: string)
    requires |q| == 4 && DecodeLast(q).Some?
    ensures Encode(DecodeLast(q).value) == q
  {
    if q[2] == '=' && q[3] == '=' {
      EncodeDecodeOne(q);
    } else if q[3] == '=' {
      EncodeDecodeTwo(q);
    } else {
      EncodeDecodeFull(q);
    }
  }

  /** A last quantum without padding carries three bytes. */
  lemma EncodeDecodeFull(q: string)
    requires |q| == 4 && DecodeLast(q).Some? && q[2] != '=' && q[3] != '='
    ensures Encode(DecodeLast(q).value) == q
  {
    var g := DecodeGroup(SymbolValue(q[0]), SymbolValue(q[1]), SymbolValue(q[2]), SymbolValue(q[3]));
    assert DecodeLast(q).value == g;
    QuantumRoundTrip(q);
    assert g == [g[0], g[1], g[2]];
    EncodeOfThree(g[0], g[1], g[2]);
  }

  /** A last quantum with "==" padding carries one byte. */
  lemma EncodeDecodeOne(q: string)
    requires |q| == 4 && DecodeLast(q).Some? && q[2] == '=' && q[3] == '='
    ensures Encode(DecodeLast(q).value) == q
  {
    var v0, v1 := SymbolValue(q[0]), SymbolValue(q[1]);
    var x := v0 * 4 + v1 / 16;
    assert DecodeLast(q).value == [x];
    assert x / 4 == v0 && (x % 4) * 16 == v1;
    assert Encode([x]) == [Symbol(v0), Symbol(v1), '=', '='];
  }

  /** A last quantum with "=" padding carries two bytes. */
  lemma EncodeDecodeTwo(q: string)
    requires |q| == 4 && DecodeLast(q).Some? && q[2] != '=' && q[3] == '='
    ensures Encode(DecodeLast(q).value) == q
  {
    var v0, v1, v2 := SymbolValue(q[0]), SymbolValue(q[1]), SymbolValue(q[2]);
    var x, y := v0 * 4 + v1 / 16, (v1 % 16) * 16 + v2 / 4;
    assert DecodeLast(q).value == [x, y];
    assert x / 4 == v0 && (x % 4) * 16 + y / 16 == v1 && (y % 16) * 4 == v2;
    assert Encode([x, y]) == [Symbol(v0), Symbol(v1), Symbol(v2), '='];
  }

  /** Encoding is injective: distinct byte strings never share an encoding. */
  lemma EncodeInjective(a: seq<Byte>, b: seq<Byte>)
    requires Encode(a) == Encode(b)
    ensures a == b
  {
    DecodeEncode(a);
    DecodeEncode(b);
  }

  /** The test vectors of section 10 of RFC 4648, up to one group. */
  lemma TestVectorsOneGroup()
    ensures Encode([]) == ""
    ensures Encode([102]) == "Zg=="
    ensures Encode([102, 111]) == "Zm8="
    ensures Encode([102, 111, 111]) == "Zm9v"
  {
  }

  /** The test vectors of section 10 of RFC 4648, two groups. */
  lemma TestVectorFoob()
    ensures Encode([102, 111, 111, 98]) == "Zm9vYg=="
  {
  }

  lemma TestVectorFooba()
    ensures Encode([102, 111, 111, 98, 97]) == "Zm9vYmE="
  {
  }

  lemma TestVectorFoobar()
    ensures Encode([102, 111, 111, 98, 97, 114]) == "Zm9vYmFy"
  {
  }
}
