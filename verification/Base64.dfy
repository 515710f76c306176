/** Base64 and the text fields that carry captured bytes (src/lib.rs). Text is a sequence of
    the bytes of its UTF-8 form, as the code reads it. Shifts of 8-bit values are written as
    division and remainder, and the bits they combine do not overlap. */
module Base64 {
  import opened Common

  const PAD: byte := 61

  type sextet = v: int | 0 <= v < 64

  datatype DecodeError = DataAfterPadding | InvalidByte(b: byte) | TruncatedInput

  datatype Decoding = Ok(bytes: seq<byte>) | Err(error: DecodeError) {
    function Prepend(front: seq<byte>): Decoding {
      if Ok? then Ok(front + bytes) else this
    }
  }

  // ---- The alphabet ----------------------------------------------------------

  /** The standard alphabet, in order. */
  function Char(v: sextet): (c: byte)
    ensures c != PAD && !Whitespace(c) && Val(c) == Some(v)
  {
    if v < 26 then 'A' as int + v
    else if v < 52 then 'a' as int + (v - 26)
    else if v < 62 then '0' as int + (v - 52)
    else if v == 62 then '+' as int
    else '/' as int
  }

  lemma Alphabet(v: sextet)
    ensures Char(v) as char ==
      if v < 13 then "ABCDEFGHIJKLM"[v] else if v < 26 then "NOPQRSTUVWXYZ"[v - 13]
      else if v < 39 then "abcdefghijklm"[v - 26] else if v < 52 then "nopqrstuvwxyz"[v - 39]
      else "0123456789+/"[v - 52]
  {
  }

  function Val(b: byte): Option<sextet> {
    if 'A' as int <= b <= 'Z' as int then Some(b - 'A' as int)
    else if 'a' as int <= b <= 'z' as int then Some(b - 'a' as int + 26)
    else if '0' as int <= b <= '9' as int then Some(b - '0' as int + 52)
    else if b == '+' as int then Some(62)
    else if b == '/' as int then Some(63)
    else None
  }

  /** Space, tab, line feed, form feed, carriage return. */
  predicate Whitespace(b: byte) {
    b == 32 || b == 9 || b == 10 || b == 12 || b == 13
  }

  // ---- Encoding --------------------------------------------------------------

  /** Up to three bytes as four characters. */
  function Quad(chunk: seq<byte>): (q: seq<byte>)
    requires 1 <= |chunk| <= 3
    ensures |q| == 4
  {
    var b0: int := chunk[0];
    var b1: int := if |chunk| > 1 then chunk[1] else 0;
    var b2: int := if |chunk| > 2 then chunk[2] else 0;
    var triple := b0 * 0x10000 + b1 * 0x100 + b2;
    [Char(triple / 0x40000 % 64), Char(triple / 0x1000 % 64),
     if |chunk| > 1 then Char(triple / 0x40 % 64) else PAD,
     if |chunk| > 2 then Char(triple % 64) else PAD]
  }

  function Encoded(data: seq<byte>): seq<byte> {
    if data == [] then []
    else if |data| <= 3 then Quad(data)
    else Quad(data[..3]) + Encoded(data[3..])
  }

  lemma EncodedNext(rest: seq<byte>)
    requires rest != []
    ensures var k := Min(3, |rest|); Encoded(rest) == Quad(rest[..k]) + Encoded(rest[k..])
  {
    if |rest| <= 3 {
      assert rest[..|rest|] == rest && rest[|rest|..] == [] && Quad(rest) + [] == Quad(rest);
    }
  }

  lemma PushFour(front: seq<byte>, a: byte, b: byte, c: byte, d: byte)
    ensures front + [a] + [b] + [c] + [d] == front + [a, b, c, d]
  {
  }

  method PushQuad(chunk: seq<byte>, front: seq<byte>) returns (result: seq<byte>)
    requires 1 <= |chunk| <= 3
    ensures result == front + Quad(chunk)
  {
    var b0: int := chunk[0];
    var b1: int := if |chunk| > 1 then chunk[1] else 0;
    var b2: int := if |chunk| > 2 then chunk[2] else 0;
    var triple := b0 * 0x10000 + b1 * 0x100 + b2;
    ghost var quad := Quad(chunk);
    PushFour(front, quad[0], quad[1], quad[2], quad[3]);
    hide Char;
    result := front + [Char(triple / 0x40000 % 64)];
    result := result + [Char(triple / 0x1000 % 64)];
    result := result + [if |chunk| > 1 then Char(triple / 0x40 % 64) else PAD];
    result := result + [if |chunk| > 2 then Char(triple % 64) else PAD];
  }

  method Encode(data: seq<byte>) returns (result: seq<byte>)
    ensures result == Encoded(data)
  {
    result := [];
    var i := 0;
    while i < |data|
      invariant 0 <= i <= |data|
      invariant result + Encoded(data[i..]) == Encoded(data)
    {
      var chunk := data[i..Min(i + 3, |data|)];
      ghost var rest := data[i..];
      EncodedNext(rest);
      Assoc(result, Quad(chunk), Encoded(rest[|chunk|..]));
      hide Quad, Encoded;
      result := PushQuad(chunk, result);
      i := Min(i + 3, |data|);
      assert chunk == rest[..|chunk|] && data[i..] == rest[|chunk|..];
    }
    assert data[i..] == [] && result + [] == result;
  }

  // ---- Decoding --------------------------------------------------------------

  function Strip(text: seq<byte>): seq<byte> {
    if text == [] then []
    else (if Whitespace(text[0]) then [] else [text[0]]) + Strip(text[1..])
  }

  lemma {:induction false} StripConcat(a: seq<byte>, b: seq<byte>)
    ensures Strip(a + b) == Strip(a) + Strip(b)
  {
    if a == [] {
      assert a + b == b;
    } else {
      assert (a + b)[1..] == a[1..] + b;
      StripConcat(a[1..], b);
    }
  }

  /** The first thing wrong with the characters of one quad. */
  function Flaw(q: seq<byte>): Option<DecodeError> {
    if q == [] then None
    else
      var front, c := q[..|q| - 1], q[|q| - 1];
      if Flaw(front).Some? then Flaw(front)
      else if c == PAD then None
      else if PAD in front then Some(DataAfterPadding)
      else if Val(c).None? then Some(InvalidByte(c))
      else None
  }

  lemma {:induction false} FlawStays(q: seq<byte>, more: seq<byte>)
    requires Flaw(q).Some?
    ensures Flaw(q + more) == Flaw(q)
    decreases |more|
  {
    if more == [] {
      assert q + more == q;
    } else {
      assert (q + more)[..|q + more| - 1] == q + more[..|more| - 1];
      FlawStays(q, more[..|more| - 1]);
    }
  }

  function Sextet(c: byte): sextet {
    Val(c).GetOr(0)
  }

  /** The three ways two sextets share a byte, with what an 8-bit shift drops. */
  function HighByte(a: sextet, b: sextet): byte {
    a as int * 4 % 256 + b / 16
  }

  function MiddleByte(a: sextet, b: sextet): byte {
    a as int * 16 % 256 + b / 4
  }

  function LowByte(a: sextet, b: sextet): byte {
    a as int * 64 % 256 + b
  }

  function Padding(q: seq<byte>): nat {
    if q == [] then 0 else Padding(q[..|q| - 1]) + if q[|q| - 1] == PAD then 1 else 0
  }

  /** The bytes of a full quad: three, less one for each padding character but at least one. */
  function Triple(q: seq<byte>): seq<byte>
    requires |q| == 4
  {
    [HighByte(Sextet(q[0]), Sextet(q[1]))] +
    (if Padding(q) < 2 then [MiddleByte(Sextet(q[1]), Sextet(q[2]))] else []) +
    (if Padding(q) < 1 then [LowByte(Sextet(q[2]), Sextet(q[3]))] else [])
  }

  /** What text without whitespace stands for: quads up to the first padded one. */
  function DecodedQuads(t: seq<byte>): Decoding {
    if t == [] then Ok([])
    else
      var q := t[..Min(4, |t|)];
      if Flaw(q).Some? then Err(Flaw(q).value)
      else if |q| < 4 then Err(TruncatedInput)
      else if PAD in q then Ok(Triple(q))
      else DecodedQuads(t[4..]).Prepend(Triple(q))
  }

  function Decoded(text: seq<byte>): Decoding {
    DecodedQuads(Strip(text))
  }

  lemma PrependNothing(d: Decoding)
    ensures d.Prepend([]) == d
  {
    if d.Ok? {
      assert [] + d.bytes == d.bytes;
    }
  }

  lemma PrependTwice(d: Decoding, a: seq<byte>, b: seq<byte>)
    ensures d.Prepend(b).Prepend(a) == d.Prepend(a + b)
  {
    if d.Ok? {
      Assoc(a, b, d.bytes);
    }
  }

  lemma PaddingSnoc(q: seq<byte>, b: byte)
    ensures Padding(q + [b]) == Padding(q) + if b == PAD then 1 else 0
    ensures Padding(q) == 0 <==> PAD !in q
  {
    assert (q + [b])[..|q|] == q;
    PaddingZero(q);
  }

  lemma {:induction false} PaddingZero(q: seq<byte>)
    ensures Padding(q) == 0 <==> PAD !in q
  {
    if q != [] {
      PaddingZero(q[..|q| - 1]);
      assert q == q[..|q| - 1] + [q[|q| - 1]];
    }
  }

  lemma FlawFound(q: seq<byte>, rest: seq<byte>)
    requires 0 < |q| <= 4 && Flaw(q).Some?
    ensures DecodedQuads(q + rest) == Err(Flaw(q).value)
  {
    var t := q + rest;
    var front := t[..Min(4, |t|)];
    assert front == q + front[|q|..];
    FlawStays(q, front[|q|..]);
  }

  lemma QuadDone(q: seq<byte>, rest: seq<byte>)
    requires |q| == 4 && Flaw(q).None?
    ensures DecodedQuads(q + rest) == if PAD in q then Ok(Triple(q)) else DecodedQuads(rest).Prepend(Triple(q))
  {
    assert (q + rest)[..4] == q && (q + rest)[4..] == rest;
  }

  /** One more character of a quad. */
  lemma Taken(q: seq<byte>, b: byte, rest: seq<byte>)
    requires |q| < 4 && Flaw(q).None?
    ensures Flaw(q + [b]) == if b == PAD then None else if Padding(q) != 0 then Some(DataAfterPadding)
                             else if Val(b).None? then Some(InvalidByte(b)) else None
    ensures Padding(q + [b]) == Padding(q) + if b == PAD then 1 else 0
    ensures Flaw(q + [b]).Some? ==> DecodedQuads((q + [b]) + rest) == Err(Flaw(q + [b]).value)
    ensures q + ([b] + rest) == (q + [b]) + rest
  {
    var t := q + [b];
    assert t[..|t| - 1] == q;
    PaddingSnoc(q, b);
    Assoc(q, [b], rest);
    if Flaw(t).Some? {
      FlawFound(t, rest);
    }
  }

  lemma StripNext(text: seq<byte>, i: nat)
    requires i < |text|
    ensures Strip(text[i..]) == (if Whitespace(text[i]) then [] else [text[i]]) + Strip(text[i + 1..])
  {
    assert text[i..][1..] == text[i + 1..];
  }

  /** Put one character into the buffer. */
  method Put(quad: array<sextet>, n: nat, pad: nat, b: byte, ghost q: seq<byte>)
    returns (padding: nat, error: Option<DecodeError>)
    requires quad.Length == 4 && n == |q| < 4 && pad == Padding(q) && Flaw(q).None?
    requires forall k :: 0 <= k < n ==> quad[k] == Sextet(q[k])
    modifies quad
    ensures error == Flaw(q + [b])
    ensures error.None? ==> padding == Padding(q + [b])
    ensures error.None? ==> forall k :: 0 <= k <= n ==> quad[k] == Sextet((q + [b])[k])
  {
    Taken(q, b, []);
    hide Flaw, Padding;
    padding := pad;
    if b == PAD {
      padding := padding + 1;
      quad[n] := 0;
    } else {
      if padding != 0 {
        return padding, Some(DataAfterPadding);
      }
      if Val(b).None? {
        return padding, Some(InvalidByte(b));
      }
      quad[n] := Val(b).value;
    }
    error := None;
  }

  method Decode(input: seq<byte>) returns (r: Decoding)
    ensures r == Decoded(input)
  {
    var quad := new sextet[4];
    var n, out, padding := 0, [], 0;
    ghost var q: seq<byte> := [];   // the characters behind quad[..n]
    var i := 0;
    assert input[0..] == input && [] + Strip(input) == Strip(input);
    PrependNothing(Decoded(input));
    while i < |input|
      invariant 0 <= i <= |input| && n == |q| < 4 && padding == Padding(q) && Flaw(q).None?
      invariant forall k :: 0 <= k < n ==> quad[k] == Sextet(q[k])
      invariant Decoded(input) == DecodedQuads(q + Strip(input[i..])).Prepend(out)
    {
      var b := input[i];
      ghost var rest := Strip(input[i + 1..]);
      StripNext(input, i);
      NothingFirst(rest);
      hide Strip, DecodedQuads, Flaw, Padding, Val, Sextet, Triple;
      i := i + 1;
      if Whitespace(b) {
        continue;
      }
      Taken(q, b, rest);
      var error;
      padding, error := Put(quad, n, padding, b, q);
      q := q + [b];
      if error.Some? {
        return Err(error.value);
      }
      n := n + 1;
      if n == 4 {
        QuadDone(q, rest);
        PaddingZero(q);
        PrependTwice(DecodedQuads(rest), out, Triple(q));
        out := Joined(quad, padding, out, q);
        n := 0;
        if padding != 0 {
          break;
        }
        q := [];
      }
    }
    if n != 0 {
      assert q + [] == q;
      return Err(TruncatedInput);
    }
    return Ok(out);
  }

  lemma NothingFirst(rest: seq<byte>)
    ensures [] + rest == rest && Padding([]) == 0 && Flaw([]).None?
  {
  }

  /** Push the bytes of a full quad. */
  method Joined(quad: array<sextet>, padding: nat, front: seq<byte>, ghost q: seq<byte>) returns (out: seq<byte>)
    requires quad.Length == 4 == |q| && padding == Padding(q)
    requires forall k :: 0 <= k < 4 ==> quad[k] == Sextet(q[k])
    ensures out == front + Triple(q)
  {
    hide Padding, HighByte, MiddleByte, LowByte;
    out := front + [HighByte(quad[0], quad[1])];
    if padding < 2 {
      out := out + [MiddleByte(quad[1], quad[2])];
    }
    if padding < 1 {
      out := out + [LowByte(quad[2], quad[3])];
    }
  }

  // ---- Round trip ------------------------------------------------------------

  lemma SplitTriple(b0: byte, b1: byte, b2: byte)
    ensures var t: int := b0 as int * 0x10000 + b1 as int * 0x100 + b2;
      && t / 0x40000 % 64 == b0 / 4
      && t / 0x1000 % 64 == b0 % 4 * 16 + b1 / 16
      && t / 0x40 % 64 == b1 % 16 * 4 + b2 / 64
      && t % 64 == b2 % 64
  {
    var t: int := b0 as int * 0x10000 + b1 as int * 0x100 + b2;
    var h0, l0, h1, l1, h2, l2 := b0 / 4, b0 % 4, b1 / 16, b1 % 16, b2 / 64, b2 % 64;
    By0x40000(t, h0, l0 * 0x10000 + b1 * 0x100 + b2);
    By0x1000(t, h0 * 64 + (l0 * 16 + h1), l1 * 0x100 + b2);
    By0x40(t, (b0 * 16 + h1) * 64 + (l1 * 4 + h2), l2);
    By0x40(h0 * 64 + (l0 * 16 + h1), h0, l0 * 16 + h1);
    By0x40((b0 * 16 + h1) * 64 + (l1 * 4 + h2), b0 * 16 + h1, l1 * 4 + h2);
  }

  lemma By0x40(t: nat, q: nat, r: nat)
    requires r < 0x40 && t == q * 0x40 + r
    ensures t / 0x40 == q && t % 0x40 == r
  {
  }

  lemma By0x1000(t: nat, q: nat, r: nat)
    requires r < 0x1000 && t == q * 0x1000 + r
    ensures t / 0x1000 == q
  {
  }

  lemma By0x40000(t: nat, q: nat, r: nat)
    requires r < 0x40000 && t == q * 0x40000 + r
    ensures t / 0x40000 == q
  {
  }

  predicate InAlphabet(c: byte) {
    c != PAD && Val(c).Some? && !Whitespace(c)
  }

  lemma CleanQuad(q: seq<byte>)
    requires |q| == 4 && InAlphabet(q[0]) && InAlphabet(q[1])
    requires (InAlphabet(q[2]) && InAlphabet(q[3])) || (InAlphabet(q[2]) && q[3] == PAD) || (q[2] == PAD && q[3] == PAD)
    ensures Flaw(q).None? && Strip(q) == q
    ensures Padding(q) == (if q[2] == PAD then 2 else if q[3] == PAD then 1 else 0)
  {
    assert q[..3][..2] == q[..2] && q[..2][..1] == q[..1] && q[..1][..0] == [];
    assert q[1..][1..] == q[2..] && q[2..][1..] == q[3..] && q[3..][1..] == [];
    assert Flaw(q[..1]).None? && Flaw(q[..2]).None?;
    assert Strip(q[3..]) == [q[3]] && Strip(q[2..]) == [q[2]] + [q[3]];
    assert Padding(q[..1]) == 0 && Padding(q[..2]) == 0;
  }

  lemma QuadShape(chunk: seq<byte>)
    requires 1 <= |chunk| <= 3
    ensures Flaw(Quad(chunk)).None? && Strip(Quad(chunk)) == Quad(chunk)
    ensures Padding(Quad(chunk)) == 3 - |chunk|
  {
    hide Char, Val;
    CleanQuad(Quad(chunk));
    hide Strip, Flaw, Padding;
  }

  lemma QuadSextets(b0: byte, b1: byte, b2: byte, chunk: seq<byte>)
    requires 1 <= |chunk| <= 3 && b0 == chunk[0]
    requires b1 == (if |chunk| > 1 then chunk[1] else 0) && b2 == (if |chunk| > 2 then chunk[2] else 0)
    ensures var q := Quad(chunk);
      && Sextet(q[0]) == b0 / 4 && Sextet(q[1]) == b0 % 4 * 16 + b1 / 16
      && (|chunk| > 1 ==> Sextet(q[2]) == b1 % 16 * 4 + b2 / 64) && (|chunk| > 2 ==> Sextet(q[3]) == b2 % 64)
  {
    SplitTriple(b0, b1, b2);
    hide Char, Val;
  }

  lemma QuadReadBack(chunk: seq<byte>)
    requires 1 <= |chunk| <= 3
    ensures Triple(Quad(chunk)) == chunk
  {
    QuadShape(chunk);
    var b0: byte, b1: byte, b2: byte :=
      chunk[0], if |chunk| > 1 then chunk[1] else 0, if |chunk| > 2 then chunk[2] else 0;
    QuadSextets(b0, b1, b2, chunk);
    Rejoin(b0, b1, b2);
    hide Quad, Padding, Sextet, HighByte, MiddleByte, LowByte;
  }

  lemma Rejoin(b0: byte, b1: byte, b2: byte)
    ensures HighByte(b0 / 4, b0 % 4 * 16 + b1 / 16) == b0
    ensures MiddleByte(b0 % 4 * 16 + b1 / 16, b1 % 16 * 4 + b2 / 64) == b1
    ensures LowByte(b1 % 16 * 4 + b2 / 64, b2 % 64) == b2
  {
    JoinHigh(b0 / 4, b0 % 4, b1 / 16);
    JoinMiddle(b0 % 4, b1 / 16, b1 % 16, b2 / 64);
    JoinLow(b1 % 16, b2 / 64, b2 % 64);
  }

  lemma JoinHigh(h: sextet, l: nat, m: nat)
    requires l < 4 && m < 16
    ensures HighByte(h, l * 16 + m) == h * 4 + l
  {
  }

  lemma JoinMiddle(l: nat, h: nat, m: nat, k: nat)
    requires l < 4 && h < 16 && m < 16 && k < 4
    ensures MiddleByte(l * 16 + h, m * 4 + k) == h * 16 + m
  {
    assert (l * 16 + h) * 16 == l * 256 + h * 16;
  }

  lemma JoinLow(m: nat, k: nat, l: sextet)
    requires m < 16 && k < 4
    ensures LowByte(m * 4 + k, l) == k * 64 + l
  {
    assert (m * 4 + k) * 64 == m * 256 + k * 64;
  }

  lemma EncodedSplit(data: seq<byte>)
    requires |data| > 3
    ensures Encoded(data) == Quad(data[..3]) + Encoded(data[3..]) && data[..3] + data[3..] == data
  {
  }

  lemma ShortThen(data: seq<byte>, rest: seq<byte>)
    requires 1 <= |data| <= 3
    ensures Decoded(Encoded(data) + rest) == if |data| % 3 != 0 then Ok(data) else Decoded(rest).Prepend(data)
  {
    hide Quad, Decoded;
    QuadDecodes(data, rest);
  }

  lemma LongThen(chunk: seq<byte>, tail: seq<byte>, rest: seq<byte>)
    requires |chunk| == 3
    requires Decoded(Encoded(tail) + rest) == if |tail| % 3 != 0 then Ok(tail) else Decoded(rest).Prepend(tail)
    ensures Decoded((Quad(chunk) + Encoded(tail)) + rest)
            == if |chunk + tail| % 3 != 0 then Ok(chunk + tail) else Decoded(rest).Prepend(chunk + tail)
  {
    hide Decoded, Encoded, Quad;
    QuadDecodes(chunk, Encoded(tail) + rest);
    Assoc(Quad(chunk), Encoded(tail), rest);
    PrependTwice(Decoded(rest), chunk, tail);
  }

  /** What follows a whole number of unpadded quads is decoded after them; what follows a
      padded quad is not looked at. */
  lemma {:induction false} EncodedThen(data: seq<byte>, rest: seq<byte>)
    ensures Decoded(Encoded(data) + rest) == if |data| % 3 != 0 then Ok(data) else Decoded(rest).Prepend(data)
  {
    if data == [] {
      assert [] + rest == rest;
      PrependNothing(Decoded(rest));
    } else if |data| <= 3 {
      ShortThen(data, rest);
    } else {
      EncodedThen(data[3..], rest);
      LongThen(data[..3], data[3..], rest);
      EncodedSplit(data);
    }
  }

  /** Decoding takes an encoded byte string back, whatever its bytes and length. */
  lemma {:induction false} RoundTrip(data: seq<byte>)
    ensures Decoded(Encoded(data)) == Ok(data)
  {
    EncodedThen(data, []);
    assert Encoded(data) + [] == Encoded(data) && data + [] == data;
  }

  lemma QuadDecodes(chunk: seq<byte>, rest: seq<byte>)
    requires 1 <= |chunk| <= 3
    ensures Decoded(Quad(chunk) + rest) == if |chunk| < 3 then Ok(chunk) else Decoded(rest).Prepend(chunk)
  {
    QuadShape(chunk);
    QuadReadBack(chunk);
    StripConcat(Quad(chunk), rest);
    QuadDone(Quad(chunk), Strip(rest));
    PaddingZero(Quad(chunk));
    hide Quad, Triple, DecodedQuads, Strip, Flaw, Padding;
  }

  lemma {:induction false} StripBlank(blank: seq<byte>)
    requires forall i :: 0 <= i < |blank| ==> Whitespace(blank[i])
    ensures Strip(blank) == []
  {
    if blank != [] {
      StripBlank(blank[1..]);
    }
  }

  /** Whitespace anywhere changes nothing. */
  lemma WhitespaceIgnored(a: seq<byte>, blank: seq<byte>, b: seq<byte>)
    requires forall i :: 0 <= i < |blank| ==> Whitespace(blank[i])
    ensures Decoded(a + blank + b) == Decoded(a + b)
  {
    StripConcat(a + blank, b);
    StripConcat(a, blank);
    StripConcat(a, b);
    StripBlank(blank);
    assert Strip(a) + [] == Strip(a);
  }

  /** A text as bytes. */
  function Ascii(s: string): (bs: seq<byte>)
    requires forall i :: 0 <= i < |s| ==> s[i] as int < 128
    ensures |bs| == |s| && forall i :: 0 <= i < |s| ==> bs[i] == s[i] as int
  {
    if s == "" then [] else [s[0] as int] + Ascii(s[1..])
  }

  lemma EncodesF()
    ensures Encoded(Ascii("f")) == Ascii("Zg==")
  {
    assert Quad(Ascii("f")) == Ascii("Zg==");
  }

  lemma EncodesFo()
    ensures Encoded(Ascii("fo")) == Ascii("Zm8=")
  {
    assert Quad(Ascii("fo")) == Ascii("Zm8=");
  }

  lemma EncodesFoo()
    ensures Encoded(Ascii("foo")) == Ascii("Zm9v")
  {
    assert Ascii("foo") == [102, 111, 111] && Ascii("Zm9v") == [90, 109, 57, 118];
    assert Quad([102, 111, 111]) == [90, 109, 57, 118];
    hide Quad, Ascii;
  }

  /** The test vectors of section 10 of RFC 4648, up to "foobar". */
  lemma KnownTexts()
    ensures Encoded([]) == []
    ensures Encoded(Ascii("f")) == Ascii("Zg==") && Encoded(Ascii("fo")) == Ascii("Zm8=")
    ensures Encoded(Ascii("foo")) == Ascii("Zm9v")
    ensures forall data: seq<byte> :: data != [] ==> Encoded(Ascii("foo") + data) == Ascii("Zm9v") + Encoded(data)
  {
    EncodesF();
    EncodesFo();
    EncodesFoo();
    hide Quad, Ascii;
    forall data: seq<byte> | data != []
      ensures Encoded(Ascii("foo") + data) == Ascii("Zm9v") + Encoded(data)
    {
      var foo := Ascii("foo");
      assert (foo + data)[..3] == foo && (foo + data)[3..] == data;
      EncodedSplit(foo + data);
    }
  }

  /** A wrapped line decodes as the line. */
  lemma LineFeedIgnored(a: seq<byte>, b: seq<byte>)
    ensures Decoded(a + ['\n' as int] + b) == Decoded(a + b)
    ensures Decoded(a + [' ' as int] + b) == Decoded(a + ['\t' as int] + b) == Decoded(a + b)
    ensures Decoded(a + ['\r' as int] + b) == Decoded(a + [12] + b) == Decoded(a + b)
  {
    WhitespaceIgnored(a, ['\n' as int], b);
    WhitespaceIgnored(a, [' ' as int], b);
    WhitespaceIgnored(a, ['\t' as int], b);
    WhitespaceIgnored(a, ['\r' as int], b);
    WhitespaceIgnored(a, [12], b);
  }

  // ---- Text fields -----------------------------------------------------------

  datatype Encoding = Utf8 | Base64

  /** Text goes verbatim, unless it is not UTF-8 or holds a NUL. What counts as UTF-8 is a
      parameter. */
  function EncodeBytes(data: seq<byte>, utf8: seq<byte> -> bool): (r: (seq<byte>, Encoding))
    ensures r.1.Utf8? <==> utf8(data) && 0 !in data
    ensures r.1.Utf8? ==> r.0 == data
  {
    if utf8(data) && 0 !in data then (data, Utf8) else (Encoded(data), Base64)
  }

  function DecodeField(text: seq<byte>, encoding: Encoding): Decoding {
    if encoding.Utf8? then Ok(text) else Decoded(text)
  }

  /** A field is carried verbatim exactly if what it stands for is clean text. */
  predicate Verbatim(text: seq<byte>, encoding: Encoding, bytes: seq<byte>, utf8: seq<byte> -> bool) {
    && (encoding.Utf8? <==> utf8(bytes) && 0 !in bytes)
    && (encoding.Utf8? ==> text == bytes)
  }

  /** No byte is lost in a text field, and clean text stays readable in it. */
  lemma {:induction false} FieldRoundTrip(data: seq<byte>, utf8: seq<byte> -> bool)
    ensures var (text, encoding) := EncodeBytes(data, utf8);
      DecodeField(text, encoding) == Ok(data) && Verbatim(text, encoding, data, utf8)
  {
    RoundTrip(data);
  }
}
