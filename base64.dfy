/** Canonical base64 of RFC 4648, section 4: the standard alphabet, `=`
    padding, and zero bits in the unused part of the last symbol. This is what
    `Buffer.prototype.toString('base64')` produces. */
module Base64 {
  import opened Js

  newtype byte = x: int | 0 <= x < 256

  /** The symbol for the 6-bit value `v` (table 1 of RFC 4648). */
  function Symbol(v: int): (c: char)
    requires 0 <= v < 64
    ensures c != '='
  {
    if v < 26 then ('A' as int + v) as char
    else if v < 52 then ('a' as int + (v - 26)) as char
    else if v < 62 then ('0' as int + (v - 52)) as char
    else if v == 62 then '+'
    else '/'
  }

  /** The 6-bit value of an alphabet symbol; `None` for anything else,
      including the pad character `=`. */
  function ValueOf(c: char): (r: Option<int>)
    ensures r.Some? ==> 0 <= r.value < 64 && Symbol(r.value) == c
    ensures r.None? ==> forall v :: 0 <= v < 64 ==> Symbol(v) != c
  {
    if 'A' <= c <= 'Z' then Some(c as int - 'A' as int)
    else if 'a' <= c <= 'z' then Some(c as int - 'a' as int + 26)
    else if '0' <= c <= '9' then Some(c as int - '0' as int + 52)
    else if c == '+' then Some(62)
    else if c == '/' then Some(63)
    else None
  }

  lemma ValueOfSymbol(v: int)
    requires 0 <= v < 64
    ensures ValueOf(Symbol(v)) == Some(v)
  {
  }

  /** Three bytes as four symbols. */
  function Quantum3(a: byte, b: byte, c: byte): (s: string)
  {
    [Symbol(a as int / 4), Symbol(a as int % 4 * 16 + b as int / 16),
     Symbol(b as int % 16 * 4 + c as int / 64), Symbol(c as int % 64)]
  }

  /** Two final bytes: three symbols and one pad. */
  function Quantum2(a: byte, b: byte): (s: string)
  {
    [Symbol(a as int / 4), Symbol(a as int % 4 * 16 + b as int / 16),
     Symbol(b as int % 16 * 4), '=']
  }

  /** One final byte: two symbols and two pads. */
  function Quantum1(a: byte): (s: string)
  {
    [Symbol(a as int / 4), Symbol(a as int % 4 * 16), '=', '=']
  }

  function Encode(data: seq<byte>): (s: string)
    ensures |s| == 4 * ((|data| + 2) / 3)
    decreases |data|
  {
    if |data| == 0 then ""
    else if |data| == 1 then Quantum1(data[0])
    else if |data| == 2 then Quantum2(data[0], data[1])
    else
      GroupCount(|data|);
      Quantum3(data[0], data[1], data[2]) + Encode(data[3..])
  }

  lemma GroupCount(n: int)
    requires n >= 3
    ensures (n + 2) / 3 == (n - 3 + 2) / 3 + 1
  {
  }

  /** Packing a high part and a low part, and unpacking them, for the three
      widths base64 splits bytes into. */
  lemma Pack4(hi: int, lo: int)
    requires 0 <= lo < 4
    ensures (hi * 4 + lo) / 4 == hi && (hi * 4 + lo) % 4 == lo
  {
  }

  lemma Pack16(hi: int, lo: int)
    requires 0 <= lo < 16
    ensures (hi * 16 + lo) / 16 == hi && (hi * 16 + lo) % 16 == lo
  {
  }

  lemma Pack64(hi: int, lo: int)
    requires 0 <= lo < 64
    ensures (hi * 64 + lo) / 64 == hi && (hi * 64 + lo) % 64 == lo
  {
  }

  /** Decodes one unpadded quantum of four symbols. */
  function DecodeQuantum(s: string): (r: Option<seq<byte>>)
    requires |s| == 4
  {
    match (ValueOf(s[0]), ValueOf(s[1]), ValueOf(s[2]), ValueOf(s[3]))
    case (Some(v0), Some(v1), Some(v2), Some(v3)) =>
      Some([(v0 * 4 + v1 / 16) as byte, (v1 % 16 * 16 + v2 / 4) as byte, (v2 % 4 * 64 + v3) as byte])
    case _ => None
  }

  /** Decodes the final quantum, which may carry one or two pads; the bits a
      pad leaves unused must be zero, as canonical encoding requires. */
  function DecodeFinal(s: string): (r: Option<seq<byte>>)
    requires |s| == 4
  {
    if s[2] == '=' && s[3] == '=' then
      match (ValueOf(s[0]), ValueOf(s[1]))
      case (Some(v0), Some(v1)) =>
        if v1 % 16 == 0 then Some([(v0 * 4 + v1 / 16) as byte]) else None
      case _ => None
    else if s[3] == '=' then
      match (ValueOf(s[0]), ValueOf(s[1]), ValueOf(s[2]))
      case (Some(v0), Some(v1), Some(v2)) =>
        if v2 % 4 == 0 then Some([(v0 * 4 + v1 / 16) as byte, (v1 % 16 * 16 + v2 / 4) as byte]) else None
      case _ => None
    else DecodeQuantum(s)
  }

  /** Strict decoding: `None` unless `s` is the canonical encoding of some
      byte sequence. */
  function Decode(s: string): (r: Option<seq<byte>>)
    decreases |s|
  {
    if |s| == 0 then Some([])
    else if |s| < 4 then None
    else if |s| == 4 then DecodeFinal(s)
    else match DecodeQuantum(s[..4])
      case None => None
      case Some(q) =>
        match Decode(s[4..])
        case None => None
        case Some(rest) => Some(q + rest)
  }

  lemma Quantum3RoundTrip(a: byte, b: byte, c: byte)
    ensures DecodeQuantum(Quantum3(a, b, c)) == Some([a, b, c])
  {
    var s := Quantum3(a, b, c);
    var v0, v1, v2, v3 := a as int / 4, a as int % 4 * 16 + b as int / 16, b as int % 16 * 4 + c as int / 64, c as int % 64;
    ValueOfSymbol(v0); ValueOfSymbol(v1); ValueOfSymbol(v2); ValueOfSymbol(v3);
    Pack16(a as int % 4, b as int / 16);
    Pack4(b as int % 16, c as int / 64);
    Pack4(a as int / 4, a as int % 4);
    Pack16(b as int / 16, b as int % 16);
    Pack64(c as int / 64, c as int % 64);
  }

  lemma Quantum2RoundTrip(a: byte, b: byte)
    ensures DecodeFinal(Quantum2(a, b)) == Some([a, b])
  {
    var v0, v1, v2 := a as int / 4, a as int % 4 * 16 + b as int / 16, b as int % 16 * 4;
    ValueOfSymbol(v0); ValueOfSymbol(v1); ValueOfSymbol(v2);
    Pack16(a as int % 4, b as int / 16);
    Pack4(b as int % 16, 0);
    Pack4(a as int / 4, a as int % 4);
    Pack16(b as int / 16, b as int % 16);
  }

  lemma Quantum1RoundTrip(a: byte)
    ensures DecodeFinal(Quantum1(a)) == Some([a])
  {
    var v0, v1 := a as int / 4, a as int % 4 * 16;
    ValueOfSymbol(v0); ValueOfSymbol(v1);
    assert v1 / 16 == a as int % 4 && v1 % 16 == 0;
  }

  /** A quantum followed by more symbols decodes quantum by quantum. */
  lemma DecodeAppend(q: string, t: string, a: seq<byte>, b: seq<byte>)
    requires |q| == 4 && |t| > 0
    requires DecodeQuantum(q) == Some(a) && Decode(t) == Some(b)
    ensures Decode(q + t) == Some(a + b)
  {
    var s := q + t;
    assert s[..4] == q && s[4..] == t;
  }

  /** A full quantum carries no pad, so as the last one it decodes as usual. */
  lemma DecodeLastQuantum3(a: byte, b: byte, c: byte)
    ensures Decode(Quantum3(a, b, c)) == Some([a, b, c])
  {
    Quantum3RoundTrip(a, b, c);
    var s := Quantum3(a, b, c);
    assert s[2] != '=' && s[3] != '=';
  }

  /** Encoding of inputs of at most three bytes. */
  lemma EncodeShort(data: seq<byte>)
    requires 0 < |data| <= 3
    ensures |data| == 1 ==> Encode(data) == Quantum1(data[0])
    ensures |data| == 2 ==> Encode(data) == Quantum2(data[0], data[1])
    ensures |data| == 3 ==> Encode(data) == Quantum3(data[0], data[1], data[2])
  {
    if |data| == 3 {
      assert Encode(data[3..]) == "";
    }
  }

  lemma EncodeStep(data: seq<byte>)
    requires |data| > 3
    ensures Encode(data) == Quantum3(data[0], data[1], data[2]) + Encode(data[3..])
  {
  }

  lemma SplitFirstThree(data: seq<byte>)
    requires |data| >= 3
    ensures data == [data[0], data[1], data[2]] + data[3..]
  {
  }

  lemma DecodeEncodeStep(data: seq<byte>)
    requires |data| > 3 && Decode(Encode(data[3..])) == Some(data[3..])
    ensures Decode(Encode(data)) == Some(data)
  {
    var q := Quantum3(data[0], data[1], data[2]);
    var t := Encode(data[3..]);
    EncodeStep(data);
    Quantum3RoundTrip(data[0], data[1], data[2]);
    SplitFirstThree(data);
    DecodeAppend(q, t, [data[0], data[1], data[2]], data[3..]);
  }

  /** Decoding undoes encoding. */
  lemma {:induction false} DecodeEncode(data: seq<byte>)
    ensures Decode(Encode(data)) == Some(data)
    decreases |data|
  {
    if |data| == 0 {
    } else if |data| <= 3 {
      EncodeShort(data);
      if |data| == 1 {
        Quantum1RoundTrip(data[0]);
        assert data == [data[0]];
      } else if |data| == 2 {
        Quantum2RoundTrip(data[0], data[1]);
        assert data == [data[0], data[1]];
      } else {
        DecodeLastQuantum3(data[0], data[1], data[2]);
        assert data == [data[0], data[1], data[2]];
      }
    } else {
      DecodeEncode(data[3..]);
      DecodeEncodeStep(data);
    }
  }

  lemma Quantum3OfDecoded(q: string)
    requires |q| == 4 && DecodeQuantum(q).Some?
    ensures |DecodeQuantum(q).value| == 3
    ensures var d := DecodeQuantum(q).value; Quantum3(d[0], d[1], d[2]) == q
  {
    var v0, v1, v2, v3 := ValueOf(q[0]).value, ValueOf(q[1]).value, ValueOf(q[2]).value, ValueOf(q[3]).value;
    var a, b, c := v0 * 4 + v1 / 16, v1 % 16 * 16 + v2 / 4, v2 % 4 * 64 + v3;
    Pack4(v0, v1 / 16);
    Pack16(v1 % 16, v2 / 4);
    Pack64(v2 % 4, v3);
    Pack16(v1 / 16, v1 % 16);
    Pack4(v2 / 4, v2 % 4);
  }

  lemma EncodeOfDecodedFinal(q: string)
    requires |q| == 4 && DecodeFinal(q).Some?
    ensures 1 <= |DecodeFinal(q).value| <= 3
    ensures Encode(DecodeFinal(q).value) == q
  {
    if q[2] == '=' && q[3] == '=' {
      EncodeOfTwoPads(q);
    } else if q[3] == '=' {
      EncodeOfOnePad(q);
    } else {
      Quantum3OfDecoded(q);
      EncodeShort(DecodeFinal(q).value);
    }
  }

  lemma EncodeOfTwoPads(q: string)
    requires |q| == 4 && q[2] == '=' && q[3] == '=' && DecodeFinal(q).Some?
    ensures |DecodeFinal(q).value| == 1
    ensures Encode(DecodeFinal(q).value) == q
  {
    var d := DecodeFinal(q).value;
    var v0, v1 := ValueOf(q[0]).value, ValueOf(q[1]).value;
    Pack4(v0, v1 / 16);
    Pack16(v1 / 16, v1 % 16);
    assert Encode(d) == Quantum1(d[0]);
  }

  lemma EncodeOfOnePad(q: string)
    requires |q| == 4 && !(q[2] == '=' && q[3] == '=') && q[3] == '=' && DecodeFinal(q).Some?
    ensures |DecodeFinal(q).value| == 2
    ensures Encode(DecodeFinal(q).value) == q
  {
    var d := DecodeFinal(q).value;
    var v0, v1, v2 := ValueOf(q[0]).value, ValueOf(q[1]).value, ValueOf(q[2]).value;
    var a, b := v0 * 4 + v1 / 16, v1 % 16 * 16 + v2 / 4;
    Pack4(v0, v1 / 16);
    Pack16(v1 % 16, v2 / 4);
    Pack16(v1 / 16, v1 % 16);
    Pack4(v2 / 4, v2 % 4);
    assert a % 4 * 16 + b / 16 == v1;
    assert Encode(d) == Quantum2(d[0], d[1]);
  }

  lemma DecodeNonEmpty(s: string)
    requires s != "" && Decode(s).Some?
    ensures Decode(s).value != []
    decreases |s|
  {
    if |s| == 4 {
      EncodeOfDecodedFinal(s);
    } else {
      Quantum3OfDecoded(s[..4]);
    }
  }

  /** Encoding undoes decoding: a string that decodes is canonical, so
      `Decode` is the exact inverse of `Encode`. */
  lemma {:induction false} EncodeDecode(s: string)
    requires Decode(s).Some?
    ensures Encode(Decode(s).value) == s
    decreases |s|
  {
    if |s| == 0 {
    } else if |s| == 4 {
      EncodeOfDecodedFinal(s);
    } else {
      var q, t := s[..4], s[4..];
      var d, rest := DecodeQuantum(q).value, Decode(t).value;
      Quantum3OfDecoded(q);
      EncodeDecode(t);
      DecodeNonEmpty(t);
      assert Decode(s).value == d + rest;
      EncodeAppendQuantum(d, rest);
      assert s == q + t;
    }
  }

  lemma EncodeAppendQuantum(d: seq<byte>, rest: seq<byte>)
    requires |d| == 3 && rest != []
    ensures Encode(d + rest) == Quantum3(d[0], d[1], d[2]) + Encode(rest)
  {
    var x := d + rest;
    EncodeStep(x);
    assert x[3..] == rest;
  }
}
