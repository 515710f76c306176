/** Length-prefixed framing of a body whose length is not known in advance: the wire
    format as a printer and a parser, and the writer loop and reader object that
    implement them (src/framing.rs). */
module Framing {
  import opened Common
  import opened Streams

  const CHUNK_SIZE := 65536
  const MAX_FRAME := 8388608

  // ---- The wire format -------------------------------------------------------

  function Pow256(width: nat): nat {
    if width == 0 then 1 else 256 * Pow256(width - 1)
  }

  function LittleEndian(n: nat, width: nat): (bs: seq<byte>)
    ensures |bs| == width
  {
    if width == 0 then [] else [n % 256] + LittleEndian(n / 256, width - 1)
  }

  function FromLittleEndian(bs: seq<byte>): nat {
    if bs == [] then 0 else bs[0] + 256 * FromLittleEndian(bs[1..])
  }

  lemma {:induction false} LittleEndianReadBack(n: nat, width: nat)
    requires n < Pow256(width)
    ensures FromLittleEndian(LittleEndian(n, width)) == n
  {
    if width > 0 {
      assert LittleEndian(n, width)[1..] == LittleEndian(n / 256, width - 1);
      LittleEndianReadBack(n / 256, width - 1);
    }
  }

  lemma {:induction false} LittleEndianWriteBack(bs: seq<byte>)
    ensures FromLittleEndian(bs) < Pow256(|bs|)
    ensures LittleEndian(FromLittleEndian(bs), |bs|) == bs
  {
    if bs != [] {
      LittleEndianWriteBack(bs[1..]);
    }
  }

  lemma Widths()
    ensures Pow256(4) == 0x1_0000_0000 && Pow256(8) == U64
  {
    assert Pow256(2) == 0x1_0000 && Pow256(4) == 0x1_0000 * 0x1_0000;
    assert Pow256(6) == 0x1_0000 * Pow256(4) && Pow256(8) == 0x1_0000 * Pow256(6);
  }

  /** The value a u64 counter shows. */
  function Wrap64(n: nat): (r: nat)
    ensures r < U64
  {
    n % U64
  }

  /** The u64 byte counter, wrap-around included. */
  function Add64(total: nat, n: nat): (r: nat)
    ensures r < U64
  {
    Wrap64(total + n)
  }

  predicate Chunking(cs: seq<seq<byte>>) {
    forall i :: 0 <= i < |cs| ==> 1 <= |cs[i]| <= MAX_FRAME
  }

  function Frame(c: seq<byte>): seq<byte> {
    LittleEndian(|c|, 4) + c
  }

  function Frames(cs: seq<seq<byte>>): seq<byte> {
    if cs == [] then [] else Frame(cs[0]) + Frames(cs[1..])
  }

  function Terminator(total: nat): (bs: seq<byte>)
    ensures |bs| == 12
  {
    LittleEndian(0, 4) + LittleEndian(total, 8)
  }

  /** What a finished transfer of these chunks looks like on the wire. */
  function Wire(cs: seq<seq<byte>>): seq<byte> {
    Frames(cs) + Terminator(Wrap64(|Flatten(cs)|))
  }

  datatype Verdict = Complete | Truncated | BadTotal | BadLength

  datatype Decoded = Decoded(payload: seq<byte>, consumed: nat, verdict: Verdict) {
    function After(read: nat, bytes: seq<byte>): Decoded {
      Decoded(bytes + payload, read + consumed, verdict)
    }
  }

  /** The parser as one function of the bytes still to come, the bytes left in the current
      frame and the payload bytes counted so far. It knows nothing of read sizes. */
  function Decode(w: seq<byte>, remaining: nat, total: nat): Decoded
    decreases |w|
  {
    if remaining > 0 then
      if |w| < remaining then Decoded(w, |w|, Truncated)
      else Decode(w[remaining..], 0, Add64(total, remaining)).After(remaining, w[..remaining])
    else if |w| < 4 then Decoded([], 0, Truncated)
    else
      var len := FromLittleEndian(w[..4]);
      if len == 0 then
        if |w| < 12 then Decoded([], 0, Truncated)
        else if FromLittleEndian(w[4..12]) != total then Decoded([], 0, BadTotal)
        else Decoded([], 12, Complete)
      else if len > MAX_FRAME then Decoded([], 0, BadLength)
      else Decode(w[4..], len, total).After(4, [])
  }

  lemma Add64Adds(total: nat, a: nat, b: nat)
    ensures Add64(Add64(total, a), b) == Add64(total, a + b)
  {
  }

  lemma AfterAfter(d: Decoded, n: nat, a: seq<byte>, m: nat, b: seq<byte>)
    ensures d.After(n, a).After(m, b) == d.After(m + n, b + a)
  {
    assert b + (a + d.payload) == (b + a) + d.payload;
  }

  // ---- Parser and printer are inverse ----------------------------------------

  lemma DecodeFrame(c: seq<byte>, tail: seq<byte>, total: nat)
    requires 1 <= |c| <= MAX_FRAME
    ensures Decode(Frame(c) + tail, 0, total) == Decode(tail, 0, Add64(total, |c|)).After(4 + |c|, c)
  {
    Widths();
    LittleEndianReadBack(|c|, 4);
    var w := Frame(c) + tail;
    assert w[..4] == LittleEndian(|c|, 4);
    assert w[4..] == c + tail;
    assert (c + tail)[..|c|] == c && (c + tail)[|c|..] == tail;
    assert [] + c == c;
  }

  lemma {:induction false} DecodeFrames(cs: seq<seq<byte>>, tail: seq<byte>, total: nat)
    requires Chunking(cs) && total < U64
    ensures Decode(Frames(cs) + tail, 0, total)
         == Decode(tail, 0, Add64(total, |Flatten(cs)|)).After(|Frames(cs)|, Flatten(cs))
  {
    hide Decode, LittleEndian, FromLittleEndian;
    if cs == [] {
      assert Frames(cs) + tail == tail;
      assert Add64(total, 0) == total;
      var d := Decode(tail, 0, total);
      assert d.After(0, []).payload == d.payload;
    } else {
      var c, rest := cs[0], cs[1..];
      Assoc(Frame(c), Frames(rest), tail);
      DecodeFrame(c, Frames(rest) + tail, total);
      hide Wrap64;
      DecodeFrames(rest, tail, Add64(total, |c|));
      Add64Adds(total, |c|, |Flatten(rest)|);
      AfterAfter(Decode(tail, 0, Add64(total, |Flatten(cs)|)), |Frames(rest)|, Flatten(rest), 4 + |c|, c);
    }
  }

  /** Round trip: any framed payload reads back whole, whatever follows it. */
  lemma RoundTrip(cs: seq<seq<byte>>, after: seq<byte>)
    requires Chunking(cs)
    ensures Decode(Wire(cs) + after, 0, 0) == Decoded(Flatten(cs), |Wire(cs)|, Complete)
  {
    var n := Wrap64(|Flatten(cs)|);
    var tail := Terminator(n) + after;
    assert Wire(cs) + after == Frames(cs) + tail;
    DecodeFrames(cs, tail, 0);
    Widths();
    LittleEndianReadBack(0, 4);
    LittleEndianReadBack(n, 8);
    assert tail[..4] == LittleEndian(0, 4) && tail[4..12] == LittleEndian(n, 8);
    assert Flatten(cs) + [] == Flatten(cs);
  }

  /** A stream cut anywhere before its last byte never decodes as complete, and what it
      delivers is a prefix of the payload. */
  lemma PrefixRejected(cs: seq<seq<byte>>, cut: nat)
    requires Chunking(cs) && cut < |Wire(cs)|
    ensures Decode(Wire(cs)[..cut], 0, 0).verdict == Truncated
    ensures Decode(Wire(cs)[..cut], 0, 0).payload <= Flatten(cs)
  {
    CutRejected(cs, 0, Wrap64(|Flatten(cs)|), cut);
  }

  lemma CutInFrame(c: seq<byte>, whole: seq<byte>, total: nat, cut: nat)
    requires 1 <= |c| <= MAX_FRAME && cut < 4 + |c|
    ensures var d := Decode((Frame(c) + whole)[..cut], 0, total); d.verdict == Truncated && d.payload <= c
  {
    var w := (Frame(c) + whole)[..cut];
    if cut >= 4 {
      Widths();
      LittleEndianReadBack(|c|, 4);
      assert w[..4] == LittleEndian(|c|, 4);
      assert w[4..] == c[..cut - 4];
      assert Decode(w, 0, total) == Decode(w[4..], |c|, total).After(4, []);
      assert [] + w[4..] == w[4..];
    }
  }

  lemma CutInTerminator(declared: nat, total: nat, cut: nat)
    requires cut < 12
    ensures var d := Decode(Terminator(declared)[..cut], 0, total); d.verdict == Truncated && d.payload == []
  {
    var w := Terminator(declared)[..cut];
    if cut >= 4 {
      Widths();
      LittleEndianReadBack(0, 4);
      assert w[..4] == LittleEndian(0, 4);
    }
  }

  lemma {:induction false} CutRejected(cs: seq<seq<byte>>, total: nat, declared: nat, cut: nat)
    requires Chunking(cs) && cut < |Frames(cs)| + 12
    ensures var d := Decode((Frames(cs) + Terminator(declared))[..cut], 0, total);
            d.verdict == Truncated && d.payload <= Flatten(cs)
  {
    if cs == [] {
      assert Frames(cs) + Terminator(declared) == Terminator(declared);
      CutInTerminator(declared, total, cut);
    } else {
      var c, rest := cs[0], cs[1..];
      var whole := Frames(rest) + Terminator(declared);
      Assoc(Frame(c), Frames(rest), Terminator(declared));
      hide Decode, LittleEndian, FromLittleEndian, Wrap64, Terminator;
      if cut < 4 + |c| {
        CutInFrame(c, whole, total, cut);
        assert c <= Flatten(cs);
      } else {
        var k := cut - 4 - |c|;
        TakeConcat(Frame(c), whole, k);
        DecodeFrame(c, whole[..k], total);
        CutRejected(rest, Add64(total, |c|), declared, k);
      }
    }
  }

  lemma FirstFrame(w: seq<byte>, total: nat)
    requires Decode(w, 0, total).verdict == Complete && FromLittleEndian(w[..4]) != 0
    ensures var len := FromLittleEndian(w[..4]);
            && len <= MAX_FRAME && 4 + len <= |w|
            && Decode(w, 0, total) == Decode(w[4 + len..], 0, Add64(total, len)).After(4 + len, w[4..4 + len])
  {
    var len := FromLittleEndian(w[..4]);
    assert Decode(w, 0, total) == Decode(w[4..], len, total).After(4, []);
    assert w[4..][len..] == w[4 + len..] && w[4..][..len] == w[4..4 + len];
    AfterAfter(Decode(w[4 + len..], 0, Add64(total, len)), len, w[4..4 + len], 4, []);
    assert [] + w[4..4 + len] == w[4..4 + len];
  }

  /** The frames of a complete stream. */
  ghost function ChunksOf(w: seq<byte>, total: nat): seq<seq<byte>>
    requires Decode(w, 0, total).verdict == Complete
    decreases |w|
  {
    var len := FromLittleEndian(w[..4]);
    if len == 0 then [] else
      FirstFrame(w, total);
      [w[4..4 + len]] + ChunksOf(w[4 + len..], Add64(total, len))
  }

  /** Soundness: bytes decode as complete only if they start with the framing of exactly
      the delivered payload, in frames of 1 to MAX_FRAME bytes, closed by its byte count. */
  lemma {:induction false} OnlyWiresComplete(w: seq<byte>)
    requires Decode(w, 0, 0).verdict == Complete
    ensures Chunking(ChunksOf(w, 0)) && Decode(w, 0, 0).payload == Flatten(ChunksOf(w, 0))
    ensures Decode(w, 0, 0).consumed <= |w| && w[..Decode(w, 0, 0).consumed] == Wire(ChunksOf(w, 0))
  {
    CompletePayload(w, 0);
    CompleteBytes(w, 0);
  }

  lemma {:induction false} CompletePayload(w: seq<byte>, total: nat)
    requires Decode(w, 0, total).verdict == Complete
    ensures Chunking(ChunksOf(w, total)) && Decode(w, 0, total).payload == Flatten(ChunksOf(w, total))
    decreases |w|
  {
    var len := FromLittleEndian(w[..4]);
    if len != 0 {
      FirstFrame(w, total);
      CompletePayload(w[4 + len..], Add64(total, len));
    }
  }

  lemma {:induction false} CompleteBytes(w: seq<byte>, total: nat)
    requires Decode(w, 0, total).verdict == Complete && total < U64
    ensures Decode(w, 0, total).consumed <= |w|
    ensures w[..Decode(w, 0, total).consumed]
         == Frames(ChunksOf(w, total)) + Terminator(Add64(total, |Decode(w, 0, total).payload|))
    decreases |w|
  {
    var len := FromLittleEndian(w[..4]);
    if len == 0 {
      TerminatorShape(w, total);
    } else {
      LittleEndianWriteBack(w[..4]);
      FirstFrame(w, total);
      CompleteBytes(w[4 + len..], Add64(total, len));
      var e := Decode(w[4 + len..], 0, Add64(total, len));
      Add64Adds(total, len, |e.payload|);
      PrependFrame(w, len, e.consumed, ChunksOf(w[4 + len..], Add64(total, len)),
                   Add64(total, len + |e.payload|));
    }
  }

  lemma PrependFrame(w: seq<byte>, len: nat, consumed: nat, ds: seq<seq<byte>>, total: nat)
    requires 4 + len + consumed <= |w| && w[..4] == LittleEndian(len, 4)
    requires w[4 + len..][..consumed] == Frames(ds) + Terminator(total)
    ensures w[..4 + len + consumed] == Frames([w[4..4 + len]] + ds) + Terminator(total)
    ensures Flatten([w[4..4 + len]] + ds) == w[4..4 + len] + Flatten(ds)
  {
    hide LittleEndian;
    var cs := [w[4..4 + len]] + ds;
    assert cs[1..] == ds;
    assert Frames(cs) == Frame(w[4..4 + len]) + Frames(ds);
    assert w[..4 + len + consumed] == w[..4] + w[4..4 + len] + w[4 + len..][..consumed];
  }

  lemma TerminatorShape(w: seq<byte>, total: nat)
    requires Decode(w, 0, total).verdict == Complete && total < U64 && FromLittleEndian(w[..4]) == 0
    ensures Decode(w, 0, total) == Decoded([], 12, Complete) && 12 <= |w| && w[..12] == Terminator(total)
  {
    LittleEndianWriteBack(w[..4]);
    LittleEndianWriteBack(w[4..12]);
    assert w[..12] == w[..4] + w[4..12];
  }

  /** Reading part of a frame and stopping leaves the rest of the parse unchanged. */
  lemma DecodeSplit(w: seq<byte>, remaining: nat, total: nat, want: nat)
    requires 0 < want <= remaining && want <= |w| && total < U64
    ensures Decode(w, remaining, total)
         == Decode(w[want..], remaining - want, Add64(total, want)).After(want, w[..want])
  {
    var rest := w[want..];
    if want < remaining {
      if remaining <= |w| {
        assert rest[remaining - want..] == w[remaining..];
        assert w[..remaining] == w[..want] + rest[..remaining - want];
        Add64Adds(total, want, remaining - want);
        AfterAfter(Decode(w[remaining..], 0, Add64(total, remaining)), remaining - want, rest[..remaining - want],
                   want, w[..want]);
      } else {
        assert w == w[..want] + rest;
      }
    }
  }

  // ---- The writer ------------------------------------------------------------

  /** The non-empty pieces a source hands to reads of at most CHUNK_SIZE bytes. */
  function Pieces(script: seq<ReadEvent>): (cs: seq<seq<byte>>)
    ensures Flatten(cs) == Bytes(script) && Chunking(cs)
    decreases Weight(script)
  {
    var (r, rest) := ReadStep(script, CHUNK_SIZE);
    match r
    case Got(bs) => if bs == [] then [] else [bs] + Pieces(rest)
    case ReadInterrupted => Pieces(rest)
    case ReadFailed => []
  }

  lemma PiecesStep(script: seq<ReadEvent>)
    ensures var r := ReadStep(script, CHUNK_SIZE);
      match r.0
      case Got(bs) => Pieces(script) == (if bs == [] then [] else [bs] + Pieces(r.1))
      case ReadInterrupted => Pieces(script) == Pieces(r.1)
      case ReadFailed => Pieces(script) == []
  {
  }

  lemma {:induction false} FramesSnoc(cs: seq<seq<byte>>, c: seq<byte>)
    ensures Frames(cs + [c]) == Frames(cs) + Frame(c)
  {
    if cs == [] {
      assert cs + [c] == [c] && Frames([c]) == Frame(c) + Frames([]);
    } else {
      assert (cs + [c])[1..] == cs[1..] + [c];
      FramesSnoc(cs[1..], c);
      assert Frame(cs[0]) + (Frames(cs[1..]) + Frame(c)) == (Frame(cs[0]) + Frames(cs[1..])) + Frame(c);
    }
  }

  lemma {:induction false} FramesConcat(cs: seq<seq<byte>>, ds: seq<seq<byte>>)
    ensures Frames(cs + ds) == Frames(cs) + Frames(ds)
  {
    if cs == [] {
      assert cs + ds == ds;
    } else {
      assert (cs + ds)[1..] == cs[1..] + ds;
      FramesConcat(cs[1..], ds);
      assert Frame(cs[0]) + (Frames(cs[1..]) + Frames(ds)) == Frames(cs) + Frames(ds);
    }
  }

  /** What a writer tries to send: no terminator unless the source ended. */
  function Outgoing(script: seq<ReadEvent>): seq<byte> {
    if EndsWell(script) then Wire(Pieces(script)) else Frames(Pieces(script))
  }

  /** Two consecutive `write_all` calls. */
  method WriteBoth(dst: Sink, a: seq<byte>, b: seq<byte>) returns (ok: bool)
    modifies dst
    ensures ok == Fits(old(dst.room), a + b)
    ensures dst.written == old(dst.written) + Accepted(old(dst.room), a + b)
    ensures dst.room == RoomAfter(old(dst.room), |a + b|)
  {
    ghost var start, room := dst.written, dst.room;
    ok := dst.WriteAll(a);
    if ok {
      AcceptedAppend(room, a, b);
      Assoc(start, a, Accepted(dst.room, b));
      ok := dst.WriteAll(b);
    } else {
      AcceptedCut(room, a, b);
    }
  }

  lemma SendStep(room: Option<nat>, done: seq<seq<byte>>, bs: seq<byte>, rest: seq<seq<byte>>)
    requires Fits(room, Frames(done))
    ensures var next, left := done + [bs], RoomAfter(room, |Frames(done)|);
      && next + rest == done + ([bs] + rest)
      && Wrap64(|Flatten(next)|) == Add64(Wrap64(|Flatten(done)|), |bs|)
      && Accepted(room, Frames(next)) == Frames(done) + Accepted(left, Frame(bs))
      && RoomAfter(room, |Frames(next)|) == RoomAfter(left, |Frame(bs)|)
      && Fits(room, Frames(next)) == Fits(left, Frame(bs))
      && (!Fits(left, Frame(bs)) ==> && Accepted(room, Frames(next + rest)) == Accepted(room, Frames(next))
                                     && RoomAfter(room, |Frames(next + rest)|) == RoomAfter(room, |Frames(next)|)
                                     && !Fits(room, Frames(next + rest)))
  {
    var next := done + [bs];
    hide LittleEndian, Frames, Flatten;
    FramesSnoc(done, bs);
    FlattenSnoc(done, bs);
    Add64Adds(0, |Flatten(done)|, |bs|);
    AcceptedAppend(room, Frames(done), Frame(bs));
    FramesConcat(next, rest);
    if !Fits(room, Frames(next)) {
      AcceptedCut(room, Frames(next), Frames(rest));
    }
  }

  /** The loop: one frame per piece read, until the source ends or something fails. */
  method SendFrames(src: Source, dst: Sink) returns (sent: Option<nat>)
    modifies src, dst
    ensures sent.Some? <==> EndsWell(old(src.script)) && Fits(old(dst.room), Frames(Pieces(old(src.script))))
    ensures sent.Some? ==> sent.value == Wrap64(|Flatten(Pieces(old(src.script)))|)
    ensures dst.written == old(dst.written) + Accepted(old(dst.room), Frames(Pieces(old(src.script))))
    ensures dst.room == RoomAfter(old(dst.room), |Frames(Pieces(old(src.script)))|)
  {
    ghost var start, room, goal := dst.written, dst.room, Pieces(src.script);
    ghost var done: seq<seq<byte>> := [];
    assert Frames(done) == [] && Wrap64(|Flatten(done)|) == 0 && RoomAfter(room, 0) == room;
    hide LittleEndian, Frames, Pieces, Flatten, Wrap64, ReadStep, RoomAfter;
    var total := 0;
    while true
      invariant done + Pieces(src.script) == goal
      invariant EndsWell(src.script) == EndsWell(old(src.script))
      invariant Fits(room, Frames(done))
      invariant dst.written == start + Frames(done) && dst.room == RoomAfter(room, |Frames(done)|)
      invariant total == Wrap64(|Flatten(done)|)
      decreases Weight(src.script)
    {
      PiecesStep(src.script);
      var r := src.Read(CHUNK_SIZE);
      match r
      case Got(bs) =>
        if bs == [] {
          break;
        }
        SendStep(room, done, bs, Pieces(src.script));
        Assoc(start, Frames(done), Accepted(dst.room, Frame(bs)));
        var ok := WriteBoth(dst, LittleEndian(|bs|, 4), bs);
        if !ok {
          return None;
        }
        total := Add64(total, |bs|);
        done := done + [bs];
      case ReadInterrupted =>
      case ReadFailed =>
        assert done == goal;
        return None;
    }
    assert done == goal;
    return Some(total);
  }

  /** Stream `src` to `dst`. Success means the source ended and its whole framing went out;
      otherwise the sink holds what it accepted of the frames, and after a failed source no
      terminator was even tried. */
  method WriteFramed(src: Source, dst: Sink) returns (sent: Option<nat>)
    modifies src, dst
    ensures sent.Some? <==> EndsWell(old(src.script)) && dst.flushes && Fits(old(dst.room), Outgoing(old(src.script)))
    ensures sent.Some? ==> sent.value == Wrap64(|Bytes(old(src.script))|)
    ensures dst.written == old(dst.written) + Accepted(old(dst.room), Outgoing(old(src.script)))
  {
    ghost var start, room, goal := dst.written, dst.room, Pieces(src.script);
    hide LittleEndian, Frames, Pieces, Flatten, Wrap64;
    sent := SendFrames(src, dst);
    if sent.Some? {
      AcceptedAppend(room, Frames(goal), Terminator(sent.value));
      assert Wire(goal) == Frames(goal) + Terminator(sent.value);
      hide Wire, Accepted, RoomAfter;
      var ok := WriteBoth(dst, LittleEndian(0, 4), LittleEndian(sent.value, 8));
      Assoc(start, Frames(goal), Accepted(RoomAfter(room, |Frames(goal)|), Terminator(sent.value)));
      if !ok || !dst.flushes {
        return None;
      }
    } else if EndsWell(old(src.script)) {
      AcceptedCut(room, Frames(goal), Terminator(Wrap64(|Flatten(goal)|)));
    }
  }

  // ---- The reader ------------------------------------------------------------

  datatype Count = Delivered(n: nat) | Error(kind: ReadError)

  /** Whether `kind` is the error a stream with this verdict ends in. */
  predicate Rejects(verdict: Verdict, endsWell: bool, kind: ReadError) {
    match verdict
    case Complete => false
    case Truncated => kind == if endsWell then UnexpectedEof else Broken
    case BadTotal => kind == InvalidData
    case BadLength => kind == InvalidData
  }

  class FramedReader {
    const inner: Source
    /** Payload bytes left in the frame currently being read. */
    var remaining: nat
    /** Payload bytes seen so far, as a u64. */
    var total: nat
    var complete: bool

    constructor (inner: Source)
      ensures this.inner == inner && remaining == 0 && total == 0 && !complete
    {
      this.inner, remaining, total, complete := inner, 0, 0, false;
    }

    /** What is still to come, according to the parser. */
    ghost function Ahead(): Decoded
      reads this, inner
    {
      Decode(Bytes(inner.script), remaining, total)
    }

    /** Between frames: read the next header, and the trailer when it ends the stream. */
    method NextFrame() returns (settled: Option<Count>)
      requires !complete && remaining == 0
      modifies this, inner
      ensures total == old(total) && EndsWell(inner.script) == old(EndsWell(inner.script))
      ensures settled.None? ==> && !complete && remaining > 0 && old(Ahead()) == Ahead().After(4, [])
                                && |Bytes(inner.script)| == old(|Bytes(inner.script)|) - 4
      ensures settled.Some? ==>
        match settled.value
        case Delivered(n) => n == 0 && complete && old(Ahead()) == Decoded([], 12, Complete)
        case Error(kind) => !complete && Rejects(old(Ahead()).verdict, old(EndsWell(inner.script)), kind)
    {
      ghost var w := Bytes(inner.script);
      var header, error := inner.ReadExact(4);
      if error.Some? {
        return Some(Error(error.value));
      }
      var len := FromLittleEndian(header);
      if len == 0 {
        var trailer, error := inner.ReadExact(8);
        if error.Some? {
          return Some(Error(error.value));
        }
        assert trailer == w[4..12];
        if FromLittleEndian(trailer) != total {
          return Some(Error(InvalidData));
        }
        complete := true;
        return Some(Delivered(0));
      }
      if len > MAX_FRAME {
        return Some(Error(InvalidData));
      }
      remaining := len;
      return None;
    }

    /** Inside a frame: EOF here is truncation. */
    method ReadPayload(buf: array<byte>) returns (r: Count)
      requires !complete && remaining > 0 && buf.Length > 0 && total < U64
      modifies this, inner, buf
      ensures !complete && EndsWell(inner.script) == old(EndsWell(inner.script))
      ensures match r
        case Delivered(n) =>
          && n == Min(buf.Length, old(remaining)) && total == Add64(old(total), n)
          && |Bytes(inner.script)| == old(|Bytes(inner.script)|) - n
          && old(Ahead()) == Ahead().After(n, buf[..n])
        case Error(kind) => total == old(total) && Rejects(old(Ahead()).verdict, old(EndsWell(inner.script)), kind)
    {
      ghost var w := Bytes(inner.script);
      var want := Min(buf.Length, remaining);
      var bytes, error := inner.ReadExact(want);
      if error.Some? {
        return Error(error.value);
      }
      DecodeSplit(w, remaining, total, want);
      forall i | 0 <= i < want {
        buf[i] := bytes[i];
      }
      assert buf[..want] == w[..want];
      remaining := remaining - want;
      total := Add64(total, want);
      return Delivered(want);
    }

    /** One read into `buf`: it either delivers some bytes and leaves the rest of the parse
        as it was, or settles the verdict of the whole stream. */
    method Read(buf: array<byte>) returns (r: Count)
      requires total < U64
      modifies this, inner, buf
      ensures total < U64
      ensures EndsWell(inner.script) == old(EndsWell(inner.script))
      ensures old(complete) || buf.Length == 0 ==>
                r == Delivered(0) && complete == old(complete) && total == old(total) && Ahead() == old(Ahead())
      ensures !old(complete) && buf.Length > 0 ==>
        match r
        case Delivered(n) =>
          && n <= buf.Length && total == Add64(old(total), n) && (complete <==> n == 0)
          && (n == 0 ==> old(Ahead()) == Decoded([], 12, Complete))
          && (n > 0 ==> |Bytes(inner.script)| < |old(Bytes(inner.script))|
                        && old(Ahead()) == Ahead().After(|old(Bytes(inner.script))| - |Bytes(inner.script)|, buf[..n]))
        case Error(kind) =>
          !complete && total == old(total) && Rejects(old(Ahead()).verdict, old(EndsWell(inner.script)), kind)
    {
      if complete || buf.Length == 0 {
        return Delivered(0);
      }
      hide Decode;
      if remaining == 0 {
        var settled := NextFrame();
        if settled.Some? {
          return settled.value;
        }
      }
      ghost var atFrame := Ahead();
      ghost var header := old(|Bytes(inner.script)|) - |Bytes(inner.script)|;
      assert [] + atFrame.payload == atFrame.payload;
      r := ReadPayload(buf);
      if r.Delivered? {
        AfterAfter(Ahead(), r.n, buf[..r.n], header, []);
        assert [] + buf[..r.n] == buf[..r.n];
      }
    }
  }
}
