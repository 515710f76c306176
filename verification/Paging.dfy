/** Reading captured output by offset and limit (`read_output`, src/remote/actions.rs), and
    what a caller gets by advancing the offset page by page. */
module Paging {
  import opened Common
  import opened Base64

  const DEFAULT_READ_LIMIT := 1048576
  const MAX_SEEK := 0x7fff_ffff_ffff_ffff

  datatype Failure = ProcessNotFound | Internal | CacheUnreadable | Transport

  datatype Reply = Output(data: seq<byte>, encoding: Encoding, offset: nat, size: nat) | Failed(why: Failure) {
    /** What a caller makes of the data. */
    function Bytes(): seq<byte> {
      if Output? && DecodeField(data, encoding).Ok? then DecodeField(data, encoding).bytes else []
    }
  }

  /** The bytes asked for, as far as they exist. */
  function Slice(content: seq<byte>, offset: nat, limit: nat): (s: seq<byte>)
    ensures |s| <= limit
  {
    content[Min(offset, |content|)..Min(offset + limit, |content|)]
  }

  /** One read of a regular file: at least one byte when there is one and one is asked for;
      how many more is `take`'s choice, and without it the read fails. */
  function FileRead(content: seq<byte>, pos: nat, want: nat, take: Option<nat>): (r: Option<seq<byte>>)
    ensures r.Some? ==> r.value <= Slice(content, pos, want)
    ensures r.Some? && Slice(content, pos, want) != [] ==> r.value != []
    ensures r.None? <==> take.None?
  {
    if take.None? then None
    else
      var slice := Slice(content, pos, want);
      var n := Min(if take.value == 0 then 1 else take.value, |slice|);
      Some(slice[..n])
  }

  /** The u64 difference that stops at zero. */
  function SaturatingSub(a: nat, b: nat): nat {
    if a >= b then a - b else 0
  }

  /** What a reply of either side promises about the stream it stands for. */
  predicate Answers(r: Reply, content: seq<byte>, offset: nat, limit: nat) {
    r.Output? ==>
      && r.offset == offset
      && DecodeField(r.data, r.encoding) == Ok(r.Bytes())
      && r.Bytes() <= Slice(content, offset, limit)
  }

  /** One page of a stream. */
  function Page(content: seq<byte>, offset: nat, limit: nat, take: nat): seq<byte> {
    FileRead(content, offset, Min(limit, SaturatingSub(|content|, offset)), Some(take)).value
  }

  lemma SliceGrows(content: seq<byte>, later: seq<byte>, offset: nat, limit: nat)
    requires content <= later
    ensures Slice(content, offset, limit) <= Slice(later, offset, limit)
    ensures Slice(later, offset, Min(limit, SaturatingSub(|content|, offset))) == Slice(content, offset, limit)
  {
    var shared := Slice(content, offset, limit);
    var end := offset + |shared|;
    if offset <= |content| {
      assert shared == content[offset..end] == later[offset..end];
    }
  }

  lemma AnswersGrow(r: Reply, content: seq<byte>, later: seq<byte>, offset: nat, limit: nat)
    requires Answers(r, content, offset, limit) && content <= later
    ensures Answers(r, later, offset, limit)
  {
    SliceGrows(content, later, offset, limit);
  }

  /** `file` is the stream when its size is taken, `later` when it is read. */
  method ReadOutput(file: Option<seq<byte>>, later: seq<byte>, offset: Option<nat>, limit: Option<nat>,
                    take: Option<nat>, utf8: seq<byte> -> bool)
    returns (r: Reply)
    requires file.Some? ==> file.value <= later
    ensures r.Output? <==> file.Some? && offset.GetOr(0) <= MAX_SEEK && take.Some?
    ensures r == Failed(ProcessNotFound) <==> file.None?
    ensures file.Some? ==> Answers(r, file.value, offset.GetOr(0), limit.GetOr(DEFAULT_READ_LIMIT))
    ensures r.Output? ==> r.size == |file.value|
    ensures r.Output? ==> Verbatim(r.data, r.encoding, r.Bytes(), utf8)
    ensures r.Output? ==> r.Bytes() == Page(file.value, offset.GetOr(0), limit.GetOr(DEFAULT_READ_LIMIT), take.value)
  {
    var fileSize := if file.Some? then |file.value| else 0;
    if file.None? {
      return Failed(ProcessNotFound);
    }
    var off := offset.GetOr(0);
    if off > 0 && off > MAX_SEEK {
      return Failed(Internal);
    }
    var lim := limit.GetOr(DEFAULT_READ_LIMIT);
    SliceGrows(file.value, later, off, lim);
    SliceGrows(file.value, file.value, off, lim);
    var data := FileRead(later, off, Min(lim, SaturatingSub(fileSize, off)), take);
    if data.None? {
      return Failed(Internal);
    }
    var (text, encoding) := EncodeBytes(data.value, utf8);
    FieldRoundTrip(data.value, utf8);
    return Output(text, encoding, off, fileSize);
  }

  // ---- Page by page ----------------------------------------------------------

  /** What happens before and during one page: the stream grows, and the read comes short. */
  datatype Visit = Visit(grown: seq<byte>, take: nat)

  function Final(content: seq<byte>, visits: seq<Visit>): (f: seq<byte>)
    ensures content <= f
    decreases |visits|
  {
    if visits == [] then content else Final(content + visits[0].grown, visits[1..])
  }

  /** All pages together, each read where the one before it ended. */
  function Pages(content: seq<byte>, offset: nat, limit: nat, visits: seq<Visit>): seq<byte>
    decreases |visits|
  {
    if visits == [] then []
    else
      var now := content + visits[0].grown;
      var page := Page(now, offset, limit, visits[0].take);
      page + Pages(now, offset + |page|, limit, visits[1..])
  }

  lemma PageIsNext(content: seq<byte>, offset: nat, limit: nat, take: nat)
    requires limit >= 1 && offset <= |content|
    ensures var page := Page(content, offset, limit, take);
      && offset + |page| <= |content| && page == content[offset..offset + |page|]
      && (page == [] <==> offset == |content|)
  {
    SliceGrows(content, content, offset, limit);
  }

  lemma OnePage(content: seq<byte>, offset: nat, limit: nat, visits: seq<Visit>, page: seq<byte>, rest: seq<byte>)
    requires visits != []
    requires page == Page(content + visits[0].grown, offset, limit, visits[0].take)
    requires rest == Pages(content + visits[0].grown, offset + |page|, limit, visits[1..])
    ensures Pages(content, offset, limit, visits) == page + rest
    ensures Final(content, visits) == Final(content + visits[0].grown, visits[1..])
  {
    hide Page;
  }

  lemma Chain(content: seq<byte>, now: seq<byte>, offset: nat, page: seq<byte>, rest: seq<byte>, final: seq<byte>)
    requires content <= now && offset <= |content| && offset + |page| <= |now|
    requires page == now[offset..offset + |page|] && now[..offset + |page|] + rest <= final
    ensures content[..offset] + (page + rest) <= final
  {
    TakeMore(now, offset, offset + |page|);
    Assoc(content[..offset], page, rest);
  }

  /** While the stream grows in any way, the pages continue what came before them, in order
      and without a gap. */
  lemma {:induction false} PagesInOrder(content: seq<byte>, offset: nat, limit: nat, visits: seq<Visit>)
    requires limit >= 1 && offset <= |content|
    ensures content[..offset] + Pages(content, offset, limit, visits) <= Final(content, visits)
    decreases |visits|
  {
    if visits == [] {
      assert content[..offset] + [] == content[..offset];
    } else {
      var now := content + visits[0].grown;
      var page := Page(now, offset, limit, visits[0].take);
      PageIsNext(now, offset, limit, visits[0].take);
      PagesInOrder(now, offset + |page|, limit, visits[1..]);
      var rest, final := Pages(now, offset + |page|, limit, visits[1..]), Final(now, visits[1..]);
      Chain(content, now, offset, page, rest, final);
      OnePage(content, offset, limit, visits, page, rest);
    }
  }

  predicate Still(visits: seq<Visit>) {
    forall i :: 0 <= i < |visits| ==> visits[i].grown == []
  }

  /** Once it has stopped growing, no more pages than bytes left give all of it. */
  lemma PagesComplete(content: seq<byte>, offset: nat, limit: nat, visits: seq<Visit>)
    requires limit >= 1 && offset <= |content| && Still(visits) && |visits| >= |content| - offset
    ensures Pages(content, offset, limit, visits) == content[offset..]
  {
    PagesInOrder(content, offset, limit, visits);
    StillFinal(content, visits);
    PagesReachTheEnd(content, offset, limit, visits);
    var all := content[..offset] + Pages(content, offset, limit, visits);
    assert all == content && all[offset..] == Pages(content, offset, limit, visits);
  }

  lemma {:induction false} PagesReachTheEnd(content: seq<byte>, offset: nat, limit: nat, visits: seq<Visit>)
    requires limit >= 1 && offset <= |content| && Still(visits) && |visits| >= |content| - offset
    ensures offset + |Pages(content, offset, limit, visits)| >= |content|
    decreases |visits|
  {
    if visits != [] && offset < |content| {
      assert content + visits[0].grown == content;
      var page := Page(content, offset, limit, visits[0].take);
      PageIsNext(content, offset, limit, visits[0].take);
      hide Page;
      PagesReachTheEnd(content, offset + |page|, limit, visits[1..]);
    }
  }

  lemma {:induction false} StillFinal(content: seq<byte>, visits: seq<Visit>)
    requires Still(visits)
    ensures Final(content, visits) == content
    decreases |visits|
  {
    if visits != [] {
      assert content + visits[0].grown == content;
      StillFinal(content, visits[1..]);
    }
  }
}
