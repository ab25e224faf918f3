/**
 * Base64 with the URL- and filename-safe alphabet of section 5 of RFC 4648
 * ('-' and '_' in place of '+' and '/'), padded with '=' to a multiple of four
 * characters, as Python's `base64.urlsafe_b64encode` produces it.
 */
module Base64Url {
  import opened Wrappers

  type byte = b: int | 0 <= b < 256

  /** The character for a 6-bit value (table 2 of RFC 4648). */
  function Char(v: nat): (c: char)
    requires v < 64
  {
    if v < 26 then ('A' as int + v) as char
    else if v < 52 then ('a' as int + (v - 26)) as char
    else if v < 62 then ('0' as int + (v - 52)) as char
    else if v == 62 then '-'
    else '_'
  }

  /** The 6-bit value of an alphabet character, None for any other character. */
  function Value(c: char): Option<nat> {
    if 'A' <= c <= 'Z' then Some(c as int - 'A' as int)
    else if 'a' <= c <= 'z' then Some(c as int - 'a' as int + 26)
    else if '0' <= c <= '9' then Some(c as int - '0' as int + 52)
    else if c == '-' then Some(62)
    else if c == '_' then Some(63)
    else None
  }

  predicate IsAlphabet(c: char) {
    Value(c).Some?
  }

  lemma ValueOfChar(v: nat)
    requires v < 64
    ensures Value(Char(v)) == Some(v)
  {
  }

  /** Four characters for three bytes. */
  function EncodeBlock(b0: byte, b1: byte, b2: byte): string {
    [Char(b0 / 4), Char((b0 % 4) * 16 + b1 / 16), Char((b1 % 16) * 4 + b2 / 64), Char(b2 % 64)]
  }

  function Encode(b: seq<byte>): (s: string)
    decreases |b|
  {
    if |b| == 0 then []
    else if |b| == 1 then [Char(b[0] / 4), Char((b[0] % 4) * 16), '=', '=']
    else if |b| == 2 then [Char(b[0] / 4), Char((b[0] % 4) * 16 + b[1] / 16), Char((b[1] % 16) * 4), '=']
    else EncodeBlock(b[0], b[1], b[2]) + Encode(b[3..])
  }

  /** Every group of three bytes, and a final shorter group, becomes four characters. */
  lemma {:induction false} EncodeLength(b: seq<byte>)
    ensures |Encode(b)| == 4 * ((|b| + 2) / 3)
    decreases |b|
  {
    if |b| >= 3 {
      EncodeLength(b[3..]);
      assert Encode(b) == EncodeBlock(b[0], b[1], b[2]) + Encode(b[3..]);
      assert (|b| + 2) / 3 == (|b[3..]| + 2) / 3 + 1;
    }
  }

  /** The output uses only the URL-safe alphabet and at most two trailing '='. */
  lemma {:induction false} EncodeAlphabet(b: seq<byte>)
    ensures forall i :: 0 <= i < |Encode(b)| ==> IsAlphabet(Encode(b)[i]) || (Encode(b)[i] == '=' && i >= |Encode(b)| - 2)
    decreases |b|
  {
    var s := Encode(b);
    if |b| == 1 {
      ValueOfChar(b[0] / 4);
      ValueOfChar((b[0] % 4) * 16);
    } else if |b| == 2 {
      ValueOfChar(b[0] / 4);
      ValueOfChar((b[0] % 4) * 16 + b[1] / 16);
      ValueOfChar((b[1] % 16) * 4);
    } else if |b| >= 3 {
      EncodeAlphabet(b[3..]);
      EncodeLength(b[3..]);
      ValueOfChar(b[0] / 4);
      ValueOfChar((b[0] % 4) * 16 + b[1] / 16);
      ValueOfChar((b[1] % 16) * 4 + b[2] / 64);
      ValueOfChar(b[2] % 64);
      var t := Encode(b[3..]);
      assert s == EncodeBlock(b[0], b[1], b[2]) + t;
      forall i | 0 <= i < |s|
        ensures IsAlphabet(s[i]) || (s[i] == '=' && i >= |s| - 2)
      {
        if i >= 4 {
          assert s[i] == t[i - 4];
        }
      }
    }
  }

  /** Decodes one group of four characters; a group that ends the text may carry padding. */
  function DecodeBlock(q: string, last: bool): Option<seq<byte>>
    requires |q| == 4
  {
    var v0, v1, v2, v3 := Value(q[0]), Value(q[1]), Value(q[2]), Value(q[3]);
    if v0.None? || v1.None? then None
    else
      var x0 := v0.value * 4 + v1.value / 16;
      if last && q[2] == '=' && q[3] == '=' then Some([x0])
      else if v2.None? then None
      else
        var x1 := (v1.value % 16) * 16 + v2.value / 4;
        if last && q[3] == '=' then Some([x0, x1])
        else if v3.None? then None
        else Some([x0, x1, (v2.value % 4) * 64 + v3.value])
  }

  /** The inverse of Encode, independent of it: groups of four characters back to bytes. */
  function Decode(s: string): Option<seq<byte>>
    decreases |s|
  {
    if s == [] then Some([])
    else if |s| < 4 then None
    else match DecodeBlock(s[..4], |s| == 4)
      case None => None
      case Some(head) =>
        match Decode(s[4..])
        case None => None
        case Some(tail) => Some(head + tail)
  }

  lemma DecodeEncodeBlock(b0: byte, b1: byte, b2: byte, last: bool)
    ensures DecodeBlock(EncodeBlock(b0, b1, b2), last) == Some([b0, b1, b2])
  {
    var v1 := (b0 % 4) * 16 + b1 / 16;
    var v2 := (b1 % 16) * 4 + b2 / 64;
    ValueOfChar(b0 / 4);
    ValueOfChar(v1);
    ValueOfChar(v2);
    ValueOfChar(b2 % 64);
    assert v1 / 16 == b0 % 4 && v1 % 16 == b1 / 16;
    assert v2 / 4 == b1 % 16 && v2 % 4 == b2 / 64;
  }

  /** A group of four characters in front of the rest decodes to the group's bytes in front of the rest's. */
  lemma DecodeStep(q: string, rest: string, head: seq<byte>, tail: seq<byte>)
    requires |q| == 4 && DecodeBlock(q, rest == []) == Some(head) && Decode(rest) == Some(tail)
    ensures Decode(q + rest) == Some(head + tail)
  {
    assert (q + rest)[..4] == q && (q + rest)[4..] == rest;
  }

  /** The padded group of one final byte decodes to that byte. */
  lemma DecodeOneBlock(b0: byte)
    ensures DecodeBlock([Char(b0 / 4), Char((b0 % 4) * 16), '=', '='], true) == Some([b0])
  {
    ValueOfChar(b0 / 4);
    ValueOfChar((b0 % 4) * 16);
    assert ((b0 % 4) * 16) / 16 == b0 % 4;
  }

  /** The padded group of two final bytes decodes to those bytes. */
  lemma DecodeTwoBlock(b0: byte, b1: byte)
    ensures DecodeBlock([Char(b0 / 4), Char((b0 % 4) * 16 + b1 / 16), Char((b1 % 16) * 4), '='], true) == Some([b0, b1])
  {
    var v1 := (b0 % 4) * 16 + b1 / 16;
    var v2 := (b1 % 16) * 4;
    ValueOfChar(b0 / 4);
    ValueOfChar(v1);
    ValueOfChar(v2);
    assert v1 / 16 == b0 % 4 && v1 % 16 == b1 / 16 && v2 / 4 == b1 % 16;
  }

  /** One final byte: two characters and two '='. */
  lemma DecodeEncodeOne(b0: byte)
    ensures Decode(Encode([b0])) == Some([b0])
  {
    var q := [Char(b0 / 4), Char((b0 % 4) * 16), '=', '='];
    DecodeOneBlock(b0);
    assert Encode([b0]) == q == q + [];
    DecodeStep(q, [], [b0], []);
    assert [b0] + [] == [b0];
  }

  /** Two final bytes: three characters and one '='. */
  lemma DecodeEncodeTwo(b0: byte, b1: byte)
    ensures Decode(Encode([b0, b1])) == Some([b0, b1])
  {
    var q := [Char(b0 / 4), Char((b0 % 4) * 16 + b1 / 16), Char((b1 % 16) * 4), '='];
    DecodeTwoBlock(b0, b1);
    assert Encode([b0, b1]) == q == q + [];
    DecodeStep(q, [], [b0, b1], []);
    assert [b0, b1] + [] == [b0, b1];
  }

  /** Decoding what was encoded gives the bytes back. */
  lemma {:induction false} DecodeEncode(b: seq<byte>)
    ensures Decode(Encode(b)) == Some(b)
    decreases |b|
  {
    if |b| == 1 {
      DecodeEncodeOne(b[0]);
      assert b == [b[0]];
    } else if |b| == 2 {
      DecodeEncodeTwo(b[0], b[1]);
      assert b == [b[0], b[1]];
    } else if |b| >= 3 {
      var block := EncodeBlock(b[0], b[1], b[2]);
      var t := Encode(b[3..]);
      assert Encode(b) == block + t;
      DecodeEncode(b[3..]);
      DecodeEncodeBlock(b[0], b[1], b[2], t == []);
      DecodeStep(block, t, [b[0], b[1], b[2]], b[3..]);
      assert [b[0], b[1], b[2]] + b[3..] == b;
    }
  }

  /** The encoding is injective: different byte strings never share a token. */
  lemma EncodeInjective(a: seq<byte>, b: seq<byte>)
    ensures Encode(a) == Encode(b) ==> a == b
  {
    DecodeEncode(a);
    DecodeEncode(b);
  }
}
