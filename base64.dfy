/**
 * Base 64 encoding of attachment bytes with the standard alphabet and `=`
 * padding, as section 4 of RFC 4648 defines it, together with the matching
 * decoder that serves as its inverse.
 */
module Base64 {
  import opened Wrappers

  type byte = x: int | 0 <= x < 256
  type sextet = x: int | 0 <= x < 64

  /** The alphabet of section 4 of RFC 4648: A-Z, a-z, 0-9, '+', '/'. */
  function Char(v: sextet): (c: char)
  {
    if v < 26 then ('A' as int + v) as char
    else if v < 52 then ('a' as int + (v - 26)) as char
    else if v < 62 then ('0' as int + (v - 52)) as char
    else if v == 62 then '+'
    else '/'
  }

  /** The value of an alphabet character; `None` for anything else, `=` included. */
  function Index(c: char): (r: Option<sextet>)
    ensures r.Some? ==> Char(r.value) == c
  {
    if 'A' <= c <= 'Z' then Some(c as int - 'A' as int)
    else if 'a' <= c <= 'z' then Some(c as int - 'a' as int + 26)
    else if '0' <= c <= '9' then Some(c as int - '0' as int + 52)
    else if c == '+' then Some(62)
    else if c == '/' then Some(63)
    else None
  }

  lemma IndexOfChar(v: sextet)
    ensures Index(Char(v)) == Some(v)
  {
  }

  /** A character that may appear in an encoding: the alphabet or the pad. */
  predicate IsEncodingChar(c: char)
  {
    Index(c).Some? || c == '='
  }

  /** Three bytes become four characters, six bits each, most significant first. */
  function EncodeBlock(a: byte, b: byte, c: byte): (r: string)
  {
    [Char(a / 4), Char((a % 4) * 16 + b / 16), Char((b % 16) * 4 + c / 64), Char(c % 64)]
  }

  /** A final group of one byte: two characters and two pads. */
  function EncodeOne(a: byte): string
  {
    [Char(a / 4), Char((a % 4) * 16), '=', '=']
  }

  /** A final group of two bytes: three characters and one pad. */
  function EncodeTwo(a: byte, b: byte): string
  {
    [Char(a / 4), Char((a % 4) * 16 + b / 16), Char((b % 16) * 4), '=']
  }

  function Encode(s: seq<byte>): string
    decreases |s|
  {
    if |s| == 0 then []
    else if |s| == 1 then EncodeOne(s[0])
    else if |s| == 2 then EncodeTwo(s[0], s[1])
    else EncodeBlock(s[0], s[1], s[2]) + Encode(s[3..])
  }

  /** Encoding works group by group: bytes that fill whole groups encode independently of what follows. */
  lemma {:induction false} EncodeAppend(s: seq<byte>, t: seq<byte>)
    requires |s| % 3 == 0
    ensures Encode(s + t) == Encode(s) + Encode(t)
    decreases |s|
  {
    if s == [] {
      assert s + t == t;
    } else {
      EncodeAppend(s[3..], t);
      EncodeAppendStep(s, t);
    }
  }

  /** One step of EncodeAppend: the leading group is encoded in front of the rest. */
  lemma EncodeAppendStep(s: seq<byte>, t: seq<byte>)
    requires |s| >= 3
    requires Encode(s[3..] + t) == Encode(s[3..]) + Encode(t)
    ensures Encode(s + t) == Encode(s) + Encode(t)
  {
    EncodeCons(s);
    EncodeCons(s + t);
    DropThreeOfAppend(s, t);
    AppendAssoc(EncodeBlock(s[0], s[1], s[2]), Encode(s[3..]), Encode(t));
  }

  lemma DropThreeOfAppend(s: seq<byte>, t: seq<byte>)
    requires |s| >= 3
    ensures (s + t)[3..] == s[3..] + t
  {
  }

  lemma AppendAssoc(a: string, b: string, c: string)
    ensures a + (b + c) == (a + b) + c
  {
  }

  /** Every started group of three bytes becomes four characters. */
  lemma {:induction false} EncodedLength(s: seq<byte>)
    ensures |Encode(s)| == 4 * ((|s| + 2) / 3)
    decreases |s|
  {
    if |s| >= 3 {
      EncodedLength(s[3..]);
      assert (|s| + 2) / 3 == (|s[3..]| + 2) / 3 + 1;
    }
  }

  /** Every character of `t` is an alphabet character or the pad `=`. */
  predicate IsEncodingText(t: string)
  {
    forall i :: 0 <= i < |t| ==> IsEncodingChar(t[i])
  }

  lemma EncodingTextAppend(t: string, u: string)
    requires IsEncodingText(t) && IsEncodingText(u)
    ensures IsEncodingText(t + u)
  {
    forall i | 0 <= i < |t + u| ensures IsEncodingChar((t + u)[i]) {
      if i >= |t| {
        assert (t + u)[i] == u[i - |t|];
      }
    }
  }

  lemma CharsOfSextets(w: sextet, x: sextet, y: sextet, z: sextet)
    ensures IsEncodingText([Char(w), Char(x), Char(y), Char(z)])
    ensures IsEncodingText([Char(w), Char(x), Char(y), '='])
    ensures IsEncodingText([Char(w), Char(x), '=', '='])
  {
    IndexOfChar(w); IndexOfChar(x); IndexOfChar(y); IndexOfChar(z);
  }

  /** Every character of an encoding is an alphabet character or the pad `=`. */
  lemma {:induction false} EncodeAlphabet(s: seq<byte>)
    ensures IsEncodingText(Encode(s))
    decreases |s|
  {
    if |s| == 1 {
      CharsOfSextets(s[0] / 4, (s[0] % 4) * 16, 0, 0);
    } else if |s| == 2 {
      CharsOfSextets(s[0] / 4, (s[0] % 4) * 16 + s[1] / 16, (s[1] % 16) * 4, 0);
    } else if |s| >= 3 {
      var a, b, c := s[0], s[1], s[2];
      CharsOfSextets(a / 4, (a % 4) * 16 + b / 16, (b % 16) * 4 + c / 64, c % 64);
      EncodeAlphabet(s[3..]);
      EncodeCons(s);
      EncodingTextAppend(EncodeBlock(a, b, c), Encode(s[3..]));
    }
  }

  /** Four sextets become three bytes. */
  function DecodeBlock(w: sextet, x: sextet, y: sextet, z: sextet): (r: seq<byte>)
  {
    [w * 4 + x / 16, (x % 16) * 16 + y / 4, (y % 4) * 64 + z]
  }

  /** A final quad `wx==` carries one byte. */
  function DecodeOne(w: sextet, x: sextet): (r: seq<byte>)
  {
    [w * 4 + x / 16]
  }

  /** A final quad `wxy=` carries two bytes. */
  function DecodeTwo(w: sextet, x: sextet, y: sextet): (r: seq<byte>)
  {
    [w * 4 + x / 16, (x % 16) * 16 + y / 4]
  }

  /**
   * The decoder: the text must be a sequence of complete quads, `=` may only
   * pad the final quad, and the bits that padding discards must be zero, so
   * that exactly the encoder's outputs are accepted.
   */
  function Decode(t: string): (r: Option<seq<byte>>)
    decreases |t|
  {
    if |t| == 0 then Some([])
    else if |t| < 4 then None
    else if |t| == 4 && t[2] == '=' && t[3] == '=' then
      match (Index(t[0]), Index(t[1]))
      case (Some(w), Some(x)) => if x % 16 == 0 then Some(DecodeOne(w, x)) else None
      case _ => None
    else if |t| == 4 && t[3] == '=' then
      match (Index(t[0]), Index(t[1]), Index(t[2]))
      case (Some(w), Some(x), Some(y)) => if y % 4 == 0 then Some(DecodeTwo(w, x, y)) else None
      case _ => None
    else
      match (Index(t[0]), Index(t[1]), Index(t[2]), Index(t[3]), Decode(t[4..]))
      case (Some(w), Some(x), Some(y), Some(z), Some(rest)) => Some(DecodeBlock(w, x, y, z) + rest)
      case _ => None
  }

  // The bit arithmetic of one quad, in both directions.

  lemma SplitThenJoin(a: byte, b: byte, c: byte)
    ensures DecodeBlock(a / 4, (a % 4) * 16 + b / 16, (b % 16) * 4 + c / 64, c % 64) == [a, b, c]
  {
  }

  lemma SplitThenJoinTwo(a: byte, b: byte)
    ensures ((b % 16) * 4) % 4 == 0
    ensures DecodeTwo(a / 4, (a % 4) * 16 + b / 16, (b % 16) * 4) == [a, b]
  {
  }

  lemma SplitThenJoinOne(a: byte)
    ensures ((a % 4) * 16) % 16 == 0
    ensures DecodeOne(a / 4, (a % 4) * 16) == [a]
  {
  }

  lemma JoinThenSplit(w: sextet, x: sextet, y: sextet, z: sextet)
    ensures var s := DecodeBlock(w, x, y, z);
      s[0] / 4 == w && (s[0] % 4) * 16 + s[1] / 16 == x && (s[1] % 16) * 4 + s[2] / 64 == y && s[2] % 64 == z
    ensures y % 4 == 0 ==> var s := DecodeTwo(w, x, y);
      s[0] / 4 == w && (s[0] % 4) * 16 + s[1] / 16 == x && (s[1] % 16) * 4 == y
    ensures x % 16 == 0 ==> var s := DecodeOne(w, x);
      s[0] / 4 == w && (s[0] % 4) * 16 == x
  {
  }

  /** How the decoder treats a leading quad of four alphabet characters. */
  lemma DecodeFullQuad(t: string)
    requires |t| >= 4
    requires Index(t[0]).Some? && Index(t[1]).Some? && Index(t[2]).Some? && Index(t[3]).Some?
    ensures Decode(t).Some? <==> Decode(t[4..]).Some?
    ensures Decode(t).Some? ==>
      Decode(t) == Some(DecodeBlock(Index(t[0]).value, Index(t[1]).value, Index(t[2]).value, Index(t[3]).value) + Decode(t[4..]).value)
  {
  }

  /** The decoder reads the four characters of sextets w, x, y, z back as those sextets. */
  lemma DecodeQuadOfChars(w: sextet, x: sextet, y: sextet, z: sextet, rest: string)
    requires Decode(rest).Some?
    ensures Decode([Char(w), Char(x), Char(y), Char(z)] + rest) == Some(DecodeBlock(w, x, y, z) + Decode(rest).value)
  {
    var t := [Char(w), Char(x), Char(y), Char(z)] + rest;
    IndexOfChar(w); IndexOfChar(x); IndexOfChar(y); IndexOfChar(z);
    assert t[4..] == rest;
    DecodeFullQuad(t);
  }

  /** The decoder reads a final quad `wx==` with zero discarded bits as one byte. */
  lemma DecodeOneOfChars(w: sextet, x: sextet)
    requires x % 16 == 0
    ensures Decode([Char(w), Char(x), '=', '=']) == Some(DecodeOne(w, x))
  {
    IndexOfChar(w); IndexOfChar(x);
  }

  /** The decoder reads a final quad `wxy=` with zero discarded bits as two bytes. */
  lemma DecodeTwoOfChars(w: sextet, x: sextet, y: sextet)
    requires y % 4 == 0
    ensures Decode([Char(w), Char(x), Char(y), '=']) == Some(DecodeTwo(w, x, y))
  {
    IndexOfChar(w); IndexOfChar(x); IndexOfChar(y);
  }

  lemma DecodeEncodeOne(a: byte)
    ensures Decode(EncodeOne(a)) == Some([a])
  {
    SplitThenJoinOne(a);
    DecodeOneOfChars(a / 4, (a % 4) * 16);
  }

  lemma DecodeEncodeTwo(a: byte, b: byte)
    ensures Decode(EncodeTwo(a, b)) == Some([a, b])
  {
    SplitThenJoinTwo(a, b);
    DecodeTwoOfChars(a / 4, (a % 4) * 16 + b / 16, (b % 16) * 4);
  }

  /** Decoding a full quad produced by the encoder, followed by any decodable text. */
  lemma DecodeBlockThen(a: byte, b: byte, c: byte, tail: string)
    requires Decode(tail).Some?
    ensures Decode(EncodeBlock(a, b, c) + tail) == Some([a, b, c] + Decode(tail).value)
  {
    DecodeQuadOfChars(a / 4, (a % 4) * 16 + b / 16, (b % 16) * 4 + c / 64, c % 64, tail);
    SplitThenJoin(a, b, c);
  }

  /** One full group in front of a text that decodes back. */
  lemma DecodeEncodeStep(s: seq<byte>)
    requires |s| >= 3 && Decode(Encode(s[3..])) == Some(s[3..])
    ensures Decode(Encode(s)) == Some(s)
  {
    var rest := s[3..];
    EncodeCons(s);
    DecodeBlockThen(s[0], s[1], s[2], Encode(rest));
    SplitFirstThree(s);
  }

  lemma SplitFirstThree(s: seq<byte>)
    requires |s| >= 3
    ensures s == [s[0], s[1], s[2]] + s[3..]
  {
  }

  lemma EncodeCons(s: seq<byte>)
    requires |s| >= 3
    ensures Encode(s) == EncodeBlock(s[0], s[1], s[2]) + Encode(s[3..])
  {
  }

  /** Decoding an encoding gives back the bytes. */
  lemma {:induction false} DecodeEncode(s: seq<byte>)
    ensures Decode(Encode(s)) == Some(s)
    decreases |s|
  {
    if |s| == 1 {
      assert Encode(s) == EncodeOne(s[0]) && s == [s[0]];
      DecodeEncodeOne(s[0]);
    } else if |s| == 2 {
      assert Encode(s) == EncodeTwo(s[0], s[1]) && s == [s[0], s[1]];
      DecodeEncodeTwo(s[0], s[1]);
    } else if |s| >= 3 {
      DecodeEncode(s[3..]);
      DecodeEncodeStep(s);
    }
  }

  lemma EncodeDecodeOne(t: string)
    requires |t| == 4 && t[2] == '=' && t[3] == '=' && Decode(t).Some?
    ensures Encode(Decode(t).value) == t
  {
    var w, x := Index(t[0]).value, Index(t[1]).value;
    JoinThenSplit(w, x, 0, 0);
    assert [t[0], t[1], t[2], t[3]] == t;
  }

  lemma EncodeDecodeTwo(t: string)
    requires |t| == 4 && t[2] != '=' && t[3] == '=' && Decode(t).Some?
    ensures Encode(Decode(t).value) == t
  {
    var w, x, y := Index(t[0]).value, Index(t[1]).value, Index(t[2]).value;
    JoinThenSplit(w, x, y, 0);
    assert [t[0], t[1], t[2], t[3]] == t;
  }

  /** Encoding the bytes of a decoded full quad, followed by any bytes. */
  lemma EncodeBlockThen(w: sextet, x: sextet, y: sextet, z: sextet, rest: seq<byte>)
    ensures Encode(DecodeBlock(w, x, y, z) + rest) == [Char(w), Char(x), Char(y), Char(z)] + Encode(rest)
  {
    var s := DecodeBlock(w, x, y, z) + rest;
    JoinThenSplit(w, x, y, z);
    assert s[3..] == rest;
  }

  /** Whatever the decoder accepts is the encoding of what it returns. */
  lemma {:induction false} EncodeDecode(t: string)
    requires Decode(t).Some?
    ensures Encode(Decode(t).value) == t
    decreases |t|
  {
    if |t| == 4 && t[2] == '=' && t[3] == '=' {
      EncodeDecodeOne(t);
    } else if |t| == 4 && t[3] == '=' {
      EncodeDecodeTwo(t);
    } else if |t| > 0 {
      assert Index(t[0]).Some? && Index(t[1]).Some? && Index(t[2]).Some? && Index(t[3]).Some?;
      DecodeFullQuad(t);
      EncodeDecode(t[4..]);
      EncodeDecodeStep(t, Decode(t[4..]).value);
    }
  }

  lemma EncodeDecodeStep(t: string, rest: seq<byte>)
    requires |t| >= 4
    requires Index(t[0]).Some? && Index(t[1]).Some? && Index(t[2]).Some? && Index(t[3]).Some?
    requires Decode(t[4..]) == Some(rest) && Encode(rest) == t[4..]
    ensures Decode(t).Some? && Encode(Decode(t).value) == t
  {
    var w, x, y, z := Index(t[0]).value, Index(t[1]).value, Index(t[2]).value, Index(t[3]).value;
    DecodeFullQuad(t);
    assert Decode(t) == Some(DecodeBlock(w, x, y, z) + rest);
    EncodeBlockThen(w, x, y, z, rest);
    assert [Char(w), Char(x), Char(y), Char(z)] == t[..4];
    assert t == t[..4] + t[4..];
  }

  /** The decoder is exactly the inverse of the encoder. */
  lemma EncodingIsBijective(s: seq<byte>, t: string)
    ensures Decode(t) == Some(s) <==> Encode(s) == t
  {
    DecodeEncode(s);
    if Decode(t) == Some(s) {
      EncodeDecode(t);
    }
  }
}
