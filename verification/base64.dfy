/** The base64 encoding of section 4 of RFC 4648 (the one `btoa` produces),
    and its decoding, which serves here as the encoder's inverse. */
module Base64 {
  import opened Wrappers

  /** The character for a 6-bit value: `A`-`Z`, `a`-`z`, `0`-`9`, `+`, `/`. */
  function CharOf(x: bv8): (c: char)
    requires x < 64
    ensures IsAlphabet(c)
  {
    if x < 26 then (65 + x as int) as char
    else if x < 52 then (97 + x as int - 26) as char
    else if x < 62 then (48 + x as int - 52) as char
    else if x == 62 then '+'
    else '/'
  }

  predicate IsAlphabet(c: char) {
    ('A' <= c <= 'Z') || ('a' <= c <= 'z') || ('0' <= c <= '9') || c == '+' || c == '/'
  }

  /** The 6-bit value of an alphabet character. */
  function ValueOf(c: char): (x: bv8)
    requires IsAlphabet(c)
    ensures x < 64
  {
    if 'A' <= c <= 'Z' then (c as int - 65) as bv8
    else if 'a' <= c <= 'z' then (c as int - 97 + 26) as bv8
    else if '0' <= c <= '9' then (c as int - 48 + 52) as bv8
    else if c == '+' then 62
    else 63
  }

  lemma ValueOfCharOf(x: bv8)
    requires x < 64
    ensures ValueOf(CharOf(x)) == x
  {
    if x < 26 {
      assert CharOf(x) as int == 65 + x as int;
    } else if x < 52 {
      assert CharOf(x) as int == 71 + x as int;
    } else if x < 62 {
      assert CharOf(x) as int == x as int - 4;
    }
  }

  /** Number of `=` characters closing the encoding of `n` bytes. */
  function Padding(n: nat): nat {
    (3 - n % 3) % 3
  }

  /** Encodes each group of three bytes as four characters; a final group
      of one or two bytes is padded with `=` to four characters. */
  function Encode(b: seq<bv8>): (r: string)
    decreases |b|
  {
    if |b| == 0 then ""
    else if |b| == 1 then
      [CharOf(b[0] >> 2), CharOf((b[0] & 3) << 4), '=', '=']
    else if |b| == 2 then
      [CharOf(b[0] >> 2), CharOf(((b[0] & 3) << 4) | (b[1] >> 4)), CharOf((b[1] & 15) << 2), '=']
    else
      [CharOf(b[0] >> 2), CharOf(((b[0] & 3) << 4) | (b[1] >> 4)),
       CharOf(((b[1] & 15) << 2) | (b[2] >> 6)), CharOf(b[2] & 63)]
      + Encode(b[3..])
  }

  /** Three bytes from four alphabet characters. */
  function DecodeQuad(c0: char, c1: char, c2: char, c3: char): seq<bv8>
    requires IsAlphabet(c0) && IsAlphabet(c1) && IsAlphabet(c2) && IsAlphabet(c3)
  {
    var x0, x1, x2, x3 := ValueOf(c0), ValueOf(c1), ValueOf(c2), ValueOf(c3);
    [(x0 << 2) | (x1 >> 4), ((x1 & 15) << 4) | (x2 >> 2), ((x2 & 3) << 6) | x3]
  }

  /** The last group of four characters, which may end in one or two `=`. */
  function DecodeLast(q: string): Option<seq<bv8>>
    requires |q| == 4
  {
    if IsAlphabet(q[0]) && IsAlphabet(q[1]) && q[2] == '=' && q[3] == '=' then
      Some([(ValueOf(q[0]) << 2) | (ValueOf(q[1]) >> 4)])
    else if IsAlphabet(q[0]) && IsAlphabet(q[1]) && IsAlphabet(q[2]) && q[3] == '=' then
      var x1, x2 := ValueOf(q[1]), ValueOf(q[2]);
      Some([(ValueOf(q[0]) << 2) | (x1 >> 4), ((x1 & 15) << 4) | (x2 >> 2)])
    else if IsAlphabet(q[0]) && IsAlphabet(q[1]) && IsAlphabet(q[2]) && IsAlphabet(q[3]) then
      Some(DecodeQuad(q[0], q[1], q[2], q[3]))
    else None
  }

  /** Decodes a string made of whole groups of four characters; `=` may
      only appear in the last group. */
  function Decode(s: string): Option<seq<bv8>>
    decreases |s|
  {
    if |s| == 0 then Some([])
    else if |s| < 4 then None
    else if |s| == 4 then DecodeLast(s)
    else if IsAlphabet(s[0]) && IsAlphabet(s[1]) && IsAlphabet(s[2]) && IsAlphabet(s[3]) then
      match Decode(s[4..])
      case None => None
      case Some(rest) => Some(DecodeQuad(s[0], s[1], s[2], s[3]) + rest)
    else None
  }

  /** The output is four characters for every started group of three bytes. */
  lemma {:induction false} EncodeLength(b: seq<bv8>)
    ensures |Encode(b)| == 4 * ((|b| + 2) / 3)
    decreases |b|
  {
    if |b| > 2 {
      EncodeLength(b[3..]);
    }
  }

  /** The first group of a longer input is four alphabet characters,
      followed by the encoding of the rest. */
  lemma EncodeFirstGroup(b: seq<bv8>)
    requires |b| > 2
    ensures var r := Encode(b);
      |r| >= 4 && r[4..] == Encode(b[3..])
      && forall i :: 0 <= i < 4 ==> IsAlphabet(r[i]) && r[i] != '='
  {
    var q := [CharOf(b[0] >> 2), CharOf(((b[0] & 3) << 4) | (b[1] >> 4)),
              CharOf(((b[1] & 15) << 2) | (b[2] >> 6)), CharOf(b[2] & 63)];
    assert Encode(b) == q + Encode(b[3..]);
    assert (q + Encode(b[3..]))[4..] == Encode(b[3..]);
  }

  /** `EncodeCharacters` for inputs of at most two bytes. */
  lemma EncodeCharactersShort(b: seq<bv8>)
    requires |b| <= 2
    ensures var r := Encode(b);
      forall i :: 0 <= i < |r| ==>
        (r[i] == '=' <==> i >= |r| - Padding(|b|)) && (r[i] != '=' ==> IsAlphabet(r[i]))
  {
  }

  /** Every character of the output is from the alphabet except the
      trailing padding, which is exactly `Padding(|b|)` characters `=`. */
  lemma {:induction false} EncodeCharacters(b: seq<bv8>)
    ensures var r := Encode(b);
      forall i :: 0 <= i < |r| ==>
        (r[i] == '=' <==> i >= |r| - Padding(|b|)) && (r[i] != '=' ==> IsAlphabet(r[i]))
    decreases |b|
  {
    if |b| > 2 {
      EncodeCharacters(b[3..]);
      EncodeLength(b[3..]);
      EncodeLength(b);
      EncodeFirstGroup(b);
      var r := Encode(b);
      var tail := Encode(b[3..]);
      assert Padding(|b|) == Padding(|b[3..]|);
      assert |r| == |tail| + 4;
      forall i | 4 <= i < |r| ensures r[i] == tail[i - 4] {
        assert r[4..][i - 4] == r[i];
      }
    } else {
      EncodeCharactersShort(b);
    }
  }

  /** The first group of an encoding decodes back to its three bytes. */
  lemma DecodeGroup(b0: bv8, b1: bv8, b2: bv8)
    ensures var c0, c1 := b0 >> 2, ((b0 & 3) << 4) | (b1 >> 4);
      var c2, c3 := ((b1 & 15) << 2) | (b2 >> 6), b2 & 63;
      DecodeQuad(CharOf(c0), CharOf(c1), CharOf(c2), CharOf(c3)) == [b0, b1, b2]
  {
    var c0, c1 := b0 >> 2, ((b0 & 3) << 4) | (b1 >> 4);
    var c2, c3 := ((b1 & 15) << 2) | (b2 >> 6), b2 & 63;
    ValueOfCharOf(c0);
    ValueOfCharOf(c1);
    ValueOfCharOf(c2);
    ValueOfCharOf(c3);
  }

  lemma DecodeFour(q: string)
    requires |q| == 4
    ensures Decode(q) == DecodeLast(q)
  {
  }

  /** A final group of one byte decodes back to it. */
  lemma DecodeLastOne(b0: bv8)
    ensures DecodeLast([CharOf(b0 >> 2), CharOf((b0 & 3) << 4), '=', '=']) == Some([b0])
  {
    var c0, c1 := b0 >> 2, (b0 & 3) << 4;
    ValueOfCharOf(c0);
    ValueOfCharOf(c1);
    RecombineOne(b0);
    var q := [CharOf(c0), CharOf(c1), '=', '='];
    assert q[0] == CharOf(c0) && q[1] == CharOf(c1) && q[2] == '=' && q[3] == '=';
  }

  /** The two 6-bit values of a single byte put it back together. */
  lemma RecombineOne(b0: bv8)
    ensures ((b0 >> 2) << 2) | (((b0 & 3) << 4) >> 4) == b0
  {
  }

  /** How a final group with one `=` decodes, in terms of its 6-bit values. */
  lemma DecodeLastTwoValues(q: string, x0: bv8, x1: bv8, x2: bv8)
    requires |q| == 4 && IsAlphabet(q[0]) && IsAlphabet(q[1]) && IsAlphabet(q[2]) && q[3] == '='
    requires ValueOf(q[0]) == x0 && ValueOf(q[1]) == x1 && ValueOf(q[2]) == x2
    ensures DecodeLast(q) == Some([(x0 << 2) | (x1 >> 4), ((x1 & 15) << 4) | (x2 >> 2)])
  {
  }

  /** The bit arithmetic of a two-byte group undoes itself. */
  lemma TwoByteBits(b0: bv8, b1: bv8)
    ensures var x0, x1, x2 := b0 >> 2, ((b0 & 3) << 4) | (b1 >> 4), (b1 & 15) << 2;
      [(x0 << 2) | (x1 >> 4), ((x1 & 15) << 4) | (x2 >> 2)] == [b0, b1]
  {
  }

  /** A final group of two bytes decodes back to them. */
  lemma DecodeLastTwo(b0: bv8, b1: bv8)
    ensures var x0, x1, x2 := b0 >> 2, ((b0 & 3) << 4) | (b1 >> 4), (b1 & 15) << 2;
      DecodeLast([CharOf(x0), CharOf(x1), CharOf(x2), '=']) == Some([b0, b1])
  {
    var x0, x1, x2 := b0 >> 2, ((b0 & 3) << 4) | (b1 >> 4), (b1 & 15) << 2;
    ValueOfCharOf(x0);
    ValueOfCharOf(x1);
    ValueOfCharOf(x2);
    DecodeLastTwoValues([CharOf(x0), CharOf(x1), CharOf(x2), '='], x0, x1, x2);
    TwoByteBits(b0, b1);
  }

  /** A group of four alphabet characters followed by more groups. */
  lemma DecodeQuadThen(q: string, tail: string, rest: seq<bv8>)
    requires |q| == 4 && IsAlphabet(q[0]) && IsAlphabet(q[1]) && IsAlphabet(q[2]) && IsAlphabet(q[3])
    requires Decode(tail) == Some(rest)
    ensures Decode(q + tail) == Some(DecodeQuad(q[0], q[1], q[2], q[3]) + rest)
  {
    var s := q + tail;
    assert s[..4] == q && s[4..] == tail;
    if tail == [] {
      assert s == q;
      assert rest == [];
      assert DecodeQuad(q[0], q[1], q[2], q[3]) + rest == DecodeQuad(q[0], q[1], q[2], q[3]);
    }
  }

  lemma DecodeEncodeOne(b: seq<bv8>)
    requires |b| == 1
    ensures Decode(Encode(b)) == Some(b)
  {
    DecodeFour(Encode(b));
    DecodeLastOne(b[0]);
    assert b == [b[0]];
  }

  lemma DecodeEncodeTwo(b: seq<bv8>)
    requires |b| == 2
    ensures Decode(Encode(b)) == Some(b)
  {
    DecodeFour(Encode(b));
    DecodeLastTwo(b[0], b[1]);
    assert b == [b[0], b[1]];
  }

  lemma FirstThree(b: seq<bv8>)
    requires |b| >= 3
    ensures b == [b[0], b[1], b[2]] + b[3..]
  {
  }

  lemma DecodeEncodeStep(b: seq<bv8>)
    requires |b| > 2 && Decode(Encode(b[3..])) == Some(b[3..])
    ensures Decode(Encode(b)) == Some(b)
  {
    var x0, x1 := b[0] >> 2, ((b[0] & 3) << 4) | (b[1] >> 4);
    var x2, x3 := ((b[1] & 15) << 2) | (b[2] >> 6), b[2] & 63;
    var q := [CharOf(x0), CharOf(x1), CharOf(x2), CharOf(x3)];
    assert Encode(b) == q + Encode(b[3..]);
    DecodeQuadThen(q, Encode(b[3..]), b[3..]);
    DecodeGroup(b[0], b[1], b[2]);
    FirstThree(b);
  }

  /** Decoding undoes encoding. */
  lemma {:induction false} DecodeEncode(b: seq<bv8>)
    ensures Decode(Encode(b)) == Some(b)
    decreases |b|
  {
    if |b| == 1 {
      DecodeEncodeOne(b);
    } else if |b| == 2 {
      DecodeEncodeTwo(b);
    } else if |b| > 2 {
      DecodeEncode(b[3..]);
      DecodeEncodeStep(b);
    }
  }
}
