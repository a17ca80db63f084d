/**
 Paging through a file: forward from any offset and backward from the tail the chunks tile the
 file; a follower of a growing file gets exactly what was appended.
 */
module FileViewPaging {
  import opened Bounds
  import opened Options
  import opened Utf8
  import opened FileView

  // ---------------------------------------------------------------- reading

  /** A forward request, as the pager sends it. */
  function At(offset: nat, length: nat, follow: bool): Request {
    Request(Some(offset), None, false, length, follow)
  }

  function Ending(before: nat, length: nat): Request {
    Request(None, Some(before), false, length, false)
  }

  function FromTail(length: nat): Request {
    Request(None, None, true, length, false)
  }

  /** The answer on an unchanged file; `known` is whether the backend knows its size. */
  function View(file: Data, known: bool, text: bool, request: Request): Answer
    requires request.Valid() && (request.Backward() ==> known)
    requires request.before.Some? ==> request.before.value <= |file|
  {
    var (from, count) := request.ReadRange();
    var start := if from < 0 then Max(0, |file| + from) else from;
    var end := Min(start + count, |file|);
    var data := if start >= |file| then [] else file[start..end];
    ChunkResult(request, if known then Some(|file|) else None, text, start, data)
  }

  predicate Length(length: nat) {
    MIN_CHUNK_BYTES <= length <= CHUNK_BYTES
  }

  /** What a reader asks for next: where the last chunk ended, or what comes before the last start. */
  lemma Asked(position: nat, length: nat, follow: bool)
    requires Length(length)
    ensures ParseChunkRequest(Some(Integer(position)), None, false, Some(Integer(length)), follow) ==
      Parsed(At(position, length, follow))
    ensures ParseChunkRequest(None, Some(Integer(position)), false, Some(Integer(length)), false) ==
      Parsed(Ending(position, length))
    ensures ParseChunkRequest(None, None, true, Some(Integer(length)), false) == Parsed(FromTail(length))
    ensures ParseChunkRequest(None, None, false, None, follow) == Parsed(At(0, 0x40000, follow))
  {
  }

  /** Every accepted request is one of these three. */
  lemma AcceptedIs(offset: Option<Json>, before: Option<Json>, fromEnd: bool, length: Option<Json>, follow: bool)
    requires ParseChunkRequest(offset, before, fromEnd, length, follow).Parsed?
    ensures var r := ParseChunkRequest(offset, before, fromEnd, length, follow).request;
      var n := if length.Some? then length.value.value else 0x40000;
      && Length(n)
      && r == if fromEnd then FromTail(n)
              else if before.Some? then Ending(before.value.value, n)
              else At(if offset.Some? then offset.value.value else 0, n, follow)
  {
  }

  // ---------------------------------------------------------------- one forward chunk

  /** No line ends in the bytes from `lo` to `hi`. */
  predicate OneLine(file: Data, lo: nat, hi: nat) {
    lo <= hi <= |file| && forall k :: lo <= k < hi ==> file[k] != NEWLINE
  }

  /** The bytes from `a` to `b` are a line, with its newline if it has one. */
  predicate Line(file: Data, a: nat, b: nat) {
    && a < b <= |file| && OneLine(file, a, b - 1)
    && (a == 0 || file[a - 1] == NEWLINE) && (b == |file| || file[b - 1] == NEWLINE)
  }

  /** Only a line longer than `length` is cut in two. */
  ghost predicate SplitsLong(file: Data, cut: nat, length: nat) {
    forall a: nat, b: nat :: Line(file, a, b) && a < cut < b ==> b - a > length
  }

  /** The answer shows where the file ends, or its text does. */
  predicate KnowsEnd(file: Data, known: bool) {
    known || Valid(file)
  }

  /** What is true of a cut: at the end, after a newline, or inside a line longer than `length`. */
  predicate ForwardCut(file: Data, known: bool, offset: nat, end: nat, length: nat) {
    || end == |file|
    || (0 < end < |file| && file[end - 1] == NEWLINE)
    || (&& offset < end <= offset + length && OneLine(file, offset, offset + length)
        && (KnowsEnd(file, known) ==> offset + length < |file|))
  }

  lemma ForwardSplits(file: Data, known: bool, offset: nat, end: nat, length: nat)
    requires ForwardCut(file, known, offset, end, length) && KnowsEnd(file, known)
    ensures SplitsLong(file, end, length)
  {
    forall a: nat, b: nat | Line(file, a, b) && a < end < b
      ensures b - a > length
    {
    }
  }

  /** Cutting off an incomplete character leaves a boundary. */
  lemma IncompleteBoundary(file: Data, lo: nat, hi: nat)
    requires Valid(file) && lo + 4 <= hi <= |file|
    ensures Boundary(file, hi - IncompleteFrom(file[lo..hi], 1))
    ensures IncompleteFrom(file[lo..hi], 1) <= 3
  {
    var lead := FindLead(file, hi - 1);
    IncompleteIs(file, lo, hi, lead, 1);
  }

  lemma {:induction false} IncompleteIs(file: Data, lo: nat, hi: nat, lead: nat, back: nat)
    requires lo + 4 <= hi <= |file| && LeadOf(file, lead, hi - 1) && 1 <= back <= hi - lead
    ensures IncompleteFrom(file[lo..hi], back) == if Need(file[lead]) > hi - lead then hi - lead else 0
    decreases hi - lead - back
  {
    var data := file[lo..hi];
    assert data[|data| - back] == file[hi - back];
    if back < hi - lead {
      assert Tail(file[hi - back]);
      IncompleteIs(file, lo, hi, lead, back + 1);
    }
  }

  /** The last newline of a part of the file. */
  lemma LastOf(file: Data, lo: nat, hi: nat)
    requires lo <= hi <= |file|
    ensures var i := LastNewline(file[lo..hi]);
      if i < 0 then OneLine(file, lo, hi) else lo + i < hi && file[lo + i] == NEWLINE
  {
    hide LastNewline;
    var data := file[lo..hi];
    assert forall i :: lo <= i < hi ==> file[i] == data[i - lo];
  }

  /** Where a cut may be that does not reach the end: after a newline, or in a part without one. */
  predicate CutOk(file: Data, lo: nat, hi: nat, end: int) {
    && lo < end <= hi <= |file|
    && (file[end - 1] == NEWLINE || OneLine(file, lo, hi))
    && (Valid(file) && lo + 4 <= hi ==> Boundary(file, end))
  }

  lemma CutAfterNewline(file: Data, lo: nat, hi: nat, newline: nat)
    requires lo + newline < hi <= |file| && file[lo + newline] == NEWLINE
    ensures CutOk(file, lo, hi, lo + newline + 1)
  {
    hide Valid;
    if Valid(file) { AfterNewlineAt(file, lo + newline); }
  }

  lemma CutWithin(file: Data, lo: nat, hi: nat)
    requires lo < hi <= |file| && OneLine(file, lo, hi)
    ensures var t := IncompleteFrom(file[lo..hi], 1); CutOk(file, lo, hi, if t < hi - lo then hi - t else hi)
  {
    hide Valid, IncompleteFrom, OneLine;
    IncompleteSome(file[lo..hi]);
    if Valid(file) && lo + 4 <= hi { IncompleteBoundary(file, lo, hi); }
  }

  /** Bytes read forward that do not reach the end are cut after a newline, or have none. */
  lemma ForwardAligned(file: Data, lo: nat, hi: nat)
    requires lo < hi <= |file|
    ensures CutOk(file, lo, hi, lo + AlignForward(file[lo..hi], false))
  {
    hide *;
    var data := file[lo..hi];
    var newline := LastNewline(data);
    LastOf(file, lo, hi);
    AlignIsCut(data);
    if newline >= 0 {
      CutAfterNewline(file, lo, hi, newline);
    } else {
      CutWithin(file, lo, hi);
    }
  }

  lemma IncompleteSome(data: Data)
    requires data != []
    ensures 0 <= IncompleteFrom(data, 1) <= |data|
  {
    IncompleteAtMost(data, 1);
  }

  lemma {:induction false} IncompleteAtMost(data: Data, back: nat)
    requires 1 <= back
    ensures IncompleteFrom(data, back) <= |data|
    decreases 5 - back
  {
    if back <= Min(4, |data|) && 0x80 <= data[|data| - back] < 0xC0 { IncompleteAtMost(data, back + 1); }
  }

  lemma AlignIsCut(data: Data)
    requires data != []
    ensures var newline, cut := LastNewline(data), |data| - IncompleteFrom(data, 1);
      AlignForward(data, false) == if newline >= 0 then newline + 1 else if cut > 0 then cut else |data|
  {
    hide LastNewline, IncompleteFrom;
  }

  /** The end of the chunk read forward from `offset`. */
  function ForwardEnd(file: Data, known: bool, offset: nat, length: nat): (end: nat)
    requires Length(length) && offset <= |file|
    ensures offset <= end <= Min(offset + length, |file|) && (offset < |file| ==> offset < end)
  {
    var hi := Min(offset + length, |file|);
    offset + AlignForward(file[offset..hi], if known then hi >= |file| else hi - offset < length)
  }

  lemma ViewForward(file: Data, known: bool, offset: nat, length: nat)
    requires Length(length) && offset <= |file|
    ensures var end := ForwardEnd(file, known, offset, length);
      View(file, known, true, At(offset, length, false)) == Chunk(file[offset..end], offset, end,
        if known || |file| < offset + length then Some(|file|) else None,
        if known then end == |file| else |file| < offset + length)
  {
    hide AlignForward;
    var hi, end := Min(offset + length, |file|), ForwardEnd(file, known, offset, length);
    assert file[offset..hi][..end - offset] == file[offset..end];
    if offset == |file| { assert file[offset..end] == []; }
    if !known && |file| < offset + length { EofKeepsAll(file[offset..hi]); }
  }

  lemma EofKeepsAll(data: Data)
    ensures AlignForward(data, true) == |data|
  {
  }

  /** What holds of a chunk read forward. */
  predicate ForwardOk(file: Data, known: bool, offset: nat, length: nat, r: Answer) {
    && r.Chunk? && r.offset == offset && offset <= r.end <= |file| && r.data == file[offset..r.end]
    && |r.data| <= length && (r.data == [] <==> offset == |file|)
    && (r.eof ==> r.end == |file| && r.size == Some(|file|)) && (r.end == |file| && known ==> r.eof)
    && (offset == |file| ==> r.eof)
  }

  lemma ForwardEndCuts(file: Data, known: bool, offset: nat, length: nat)
    requires Length(length) && offset <= |file|
    ensures var end := ForwardEnd(file, known, offset, length);
      && ForwardCut(file, known, offset, end, length) && (Valid(file) ==> Boundary(file, end))
      && (end < |file| || known || offset + length == |file| || |file| < offset + length)
      && (|file| < offset + length ==> end == |file|)
  {
    hide Valid, AlignForward, OneLine, IncompleteFrom;
    var hi := Min(offset + length, |file|);
    EofKeepsAll(file[offset..hi]);
    if offset < |file| { ForwardAligned(file, offset, hi); }
    if Valid(file) && hi == |file| && offset + 4 <= hi {
      WholeAtEnd(file, offset);
      assert file[offset..hi] == file[offset..];
    }
  }

  /** A valid text has no incomplete character at its end. */
  lemma WholeAtEnd(file: Data, lo: nat)
    requires Valid(file) && lo + 4 <= |file|
    ensures IncompleteFrom(file[lo..], 1) == 0
    ensures var end := lo + AlignForward(file[lo..], false);
      end == |file| || (lo < end < |file| && file[end - 1] == NEWLINE)
  {
    var hi := |file|;
    var lead := FindLead(file, hi - 1);
    assert file[lo..hi] == file[lo..];
    IncompleteIs(file, lo, hi, lead, 1);
    LastOf(file, lo, hi);
    hide LastNewline, IncompleteFrom, Valid;
  }

  /** A last line of exactly `length` bytes that ends inside a character, in a file of unknown size. */
  predicate CutShort(file: Data, known: bool, offset: nat, length: nat)
    requires offset <= |file|
  {
    !known && offset + length == |file| && Line(file, offset, |file|) && IncompleteFrom(file[offset..], 1) > 0
  }

  lemma CutShortCuts(file: Data, offset: nat, length: nat)
    requires Length(length) && offset <= |file| && CutShort(file, false, offset, length)
    ensures offset < ForwardEnd(file, false, offset, length) < |file|
  {
    var data := file[offset..];
    assert file[offset..Min(offset + length, |file|)] == data;
    assert data[|data| - 1] == file[|file| - 1];
    IncompleteShort(data, 1);
    LastOf(file, offset, |file|);
    assert file[offset..|file|] == data;
    AlignIsCut(data);
    hide LastNewline, IncompleteFrom, AlignForward;
  }

  lemma SplitsAtEnd(file: Data, offset: nat, end: nat, length: nat)
    requires OneLine(file, offset, |file|) && offset + length == |file| && offset < end && !Line(file, offset, |file|)
    ensures SplitsLong(file, end, length)
  {
  }

  lemma KeptAtEnd(file: Data, offset: nat, length: nat)
    requires Length(length) && offset + length == |file| && IncompleteFrom(file[offset..], 1) == 0
    ensures var end := ForwardEnd(file, false, offset, length); end == |file| || file[end - 1] == NEWLINE
  {
    assert file[offset..Min(offset + length, |file|)] == file[offset..];
    LastOf(file, offset, |file|);
    assert file[offset..|file|] == file[offset..];
    hide LastNewline, IncompleteFrom;
  }

  /** The one case in which a chunk read forward splits a line that is not longer than `length`. */
  lemma ForwardSplitsExact(file: Data, known: bool, offset: nat, length: nat)
    requires Length(length) && offset <= |file|
    ensures var end := ForwardEnd(file, known, offset, length);
      SplitsLong(file, end, length) <==> !CutShort(file, known, offset, length)
  {
    var end := ForwardEnd(file, known, offset, length);
    ForwardEndCuts(file, known, offset, length);
    if CutShort(file, known, offset, length) {
      CutShortCuts(file, offset, length);
      assert Line(file, offset, |file|) && offset < end < |file|;
    } else if known || offset + length < |file| || end == |file| || file[end - 1] == NEWLINE {
      EitherWay(file, known, offset, end, length);
    } else {
      if IncompleteFrom(file[offset..], 1) == 0 { KeptAtEnd(file, offset, length); }
      SplitsAtEnd(file, offset, end, length);
    }
  }

  lemma EitherWay(file: Data, known: bool, offset: nat, end: nat, length: nat)
    requires ForwardCut(file, known, offset, end, length)
    requires known || offset + length < |file| || end == |file| || (0 < end <= |file| && file[end - 1] == NEWLINE)
    ensures SplitsLong(file, end, length)
  {
    ForwardSplits(file, true, offset, end, length);
  }

  function ShortLine(): Data {
    seq(MIN_CHUNK_BYTES, i => if i < MIN_CHUNK_BYTES - 1 then 97 else 0xC3)
  }

  /** A file of one line that is not longer than a chunk, read from a backend that does not know its size. */
  lemma ShortLineSplit()
    ensures var r := View(ShortLine(), false, true, At(0, MIN_CHUNK_BYTES, false));
      r.Chunk? && r.end < |ShortLine()| && Line(ShortLine(), 0, |ShortLine()|) && |ShortLine()| == MIN_CHUNK_BYTES
  {
    var file := ShortLine();
    assert file[0..] == file && file[MIN_CHUNK_BYTES - 1] == 0xC3;
    CutShortCuts(file, 0, MIN_CHUNK_BYTES);
    ViewForward(file, false, 0, MIN_CHUNK_BYTES);
    hide View, ForwardEnd;
  }

  lemma ForwardChunk(file: Data, known: bool, offset: nat, length: nat)
    requires Length(length) && offset <= |file|
    ensures ForwardOk(file, known, offset, length, View(file, known, true, At(offset, length, false)))
    ensures var r := View(file, known, true, At(offset, length, false));
      && ForwardCut(file, known, offset, r.end, length)
      && (Valid(file) ==> Boundary(file, r.end))
  {
    ViewForward(file, known, offset, length);
    ForwardEndCuts(file, known, offset, length);
    hide Valid, View, ForwardEnd, ForwardCut, Boundary;
  }

  /** In a valid text no character goes on after a newline. */
  lemma AfterNewlineAt(file: Data, k: nat)
    requires Valid(file) && k < |file| && file[k] == NEWLINE
    ensures Boundary(file, k + 1)
  {
    var lead := FindLead(file, k);
  }

  lemma AfterNewline(file: Data)
    requires Valid(file)
    ensures forall k :: 0 <= k < |file| && file[k] == NEWLINE ==> Boundary(file, k + 1)
  {
    forall k | 0 <= k < |file| && file[k] == NEWLINE
      ensures Boundary(file, k + 1)
    {
      AfterNewlineAt(file, k);
    }
  }

  // ---------------------------------------------------------------- forward paging

  /** The chunks of paging forward from `offset` until the answer says end of file. */
  function Pages(file: Data, known: bool, offset: nat, length: nat): seq<Answer>
    requires Length(length) && offset <= |file|
    decreases |file| - offset
  {
    ForwardChunk(file, known, offset, length);
    var r := View(file, known, true, At(offset, length, false));
    if r.eof then [r] else [r] + Pages(file, known, r.end, length)
  }

  /** The bytes of the chunks, one after the other. */
  function Text(pages: seq<Answer>): Data {
    if pages == [] then [] else (if pages[0].Chunk? then pages[0].data else []) + Text(pages[1..])
  }

  /** Chunks without a gap or an overlap, from `lo` to `hi`. */
  predicate Tiles(pages: seq<Answer>, lo: nat, hi: nat) {
    && (forall r :: r in pages ==> r.Chunk? && r.end == r.offset + |r.data|)
    && (if pages == [] then lo == hi else pages[0].Chunk? && pages[0].offset == lo && pages[|pages| - 1].end == hi)
    && forall i :: 0 < i < |pages| ==> pages[i].offset == pages[i-1].end
  }

  /** Every chunk is small enough, and every cut where it should be. */
  ghost predicate GoodForward(file: Data, known: bool, length: nat, r: Answer) {
    && r.Chunk? && |r.data| <= length && (r.data == [] ==> r.offset == |file|)
    && ForwardCut(file, known, r.offset, r.end, length) && (KnowsEnd(file, known) ==> SplitsLong(file, r.end, length))
    && (Valid(file) && Boundary(file, r.offset) ==> Valid(r.data))
  }

  lemma ForwardGood(file: Data, known: bool, offset: nat, length: nat)
    requires Length(length) && offset <= |file|
    ensures GoodForward(file, known, length, View(file, known, true, At(offset, length, false)))
  {
    hide View, ForwardCut, Valid, KnowsEnd, SplitsLong;
    var r := View(file, known, true, At(offset, length, false));
    ForwardChunk(file, known, offset, length);
    if KnowsEnd(file, known) { ForwardSplits(file, known, offset, r.end, length); }
    if Valid(file) && Boundary(file, offset) { ChunkValid(file, offset, r.end); }
  }

  lemma NoTiles(at: nat)
    ensures Tiles([], at, at) && Text([]) == []
  {
  }

  /** One chunk in front of a tiling. */
  lemma TileFirst(r: Answer, rest: seq<Answer>, hi: nat)
    requires r.Chunk? && r.end == r.offset + |r.data| && Tiles(rest, r.end, hi)
    ensures Tiles([r] + rest, r.offset, hi) && Text([r] + rest) == r.data + Text(rest)
  {
    assert ([r] + rest)[1..] == rest;
  }

  /**
   Forward paging ends, and its chunks tile the file from `offset` on; a chunk is empty only at
   the end, none is longer than `length`, and a valid text is only cut between characters. Only a line
   longer than `length` is split, if the backend knows the file's size or the file is a valid text.
   */
  lemma {:induction false} ForwardTiles(file: Data, known: bool, offset: nat, length: nat)
    requires Length(length) && offset <= |file|
    ensures var pages := Pages(file, known, offset, length);
      && pages != [] && Tiles(pages, offset, |file|) && Text(pages) == file[offset..]
      && (forall r :: r in pages ==> GoodForward(file, known, length, r))
      && (Valid(file) ==> forall r :: r in pages ==> Boundary(file, r.end))
    decreases |file| - offset
  {
    hide View, ForwardCut, Valid, Tiles, Text, GoodForward, Boundary;
    var r := View(file, known, true, At(offset, length, false));
    ForwardChunk(file, known, offset, length);
    ForwardGood(file, known, offset, length);
    var rest := if r.eof then [] else Pages(file, known, r.end, length);
    if r.eof { NoTiles(r.end); } else { ForwardTiles(file, known, r.end, length); }
    TileFirst(r, rest, |file|);
    assert Pages(file, known, offset, length) == [r] + rest;
    assert r.data + Text(rest) == file[offset..];
  }

  // ---------------------------------------------------------------- backward paging

  /** A backward cut: at the start, after a newline, or inside a line longer than `length`. */
  predicate BackwardCut(file: Data, offset: nat, before: nat, length: nat) {
    || offset == 0
    || (offset <= |file| && file[offset - 1] == NEWLINE)
    || (length < before && before - length <= offset < before && OneLine(file, before - length - 1, before - 1))
  }

  lemma BackwardSplits(file: Data, offset: nat, before: nat, length: nat)
    requires BackwardCut(file, offset, before, length) && before <= |file|
    ensures SplitsLong(file, offset, length)
  {
    forall a: nat, b: nat | Line(file, a, b) && a < offset < b
      ensures b - a > length
    {
    }
  }

  /** At most three bytes in a row go on with a character. */
  lemma ThreeTails(file: Data, lo: nat, hi: nat)
    requires Valid(file) && lo + 4 <= hi <= |file|
    ensures TailsAt(file[lo..hi], 3) < 4 && Boundary(file, lo + TailsAt(file[lo..hi], 3))
  {
    hide Valid, TailsAt, CharLength;
    TailsOf(file, lo, hi);
    if TailsAt(file[lo..hi], 3) == 3 {
      var lead := FindLead(file, lo + 3);
      assert Need(file[lead]) <= 4;
    }
  }

  lemma TailsOf(file: Data, lo: nat, hi: nat)
    requires lo <= hi <= |file|
    ensures var n := TailsAt(file[lo..hi], 3);
      && n <= 3 && lo + n <= hi && (forall i :: lo <= i < lo + n ==> Tail(file[i]))
      && (n < 3 && lo + n < hi ==> !Tail(file[lo + n]))
  {
    hide TailsAt;
    var data := file[lo..hi];
    assert forall i :: lo <= i < hi ==> file[i] == data[i - lo];
  }

  /** The first newline of a part of the file. */
  lemma FirstOf(file: Data, lo: nat, hi: nat)
    requires lo <= hi <= |file|
    ensures var i := FirstNewline(file[lo..hi]);
      if i < 0 then OneLine(file, lo, hi) else file[lo + i] == NEWLINE && lo + i < hi && OneLine(file, lo, lo + i)
  {
    hide FirstNewline;
    var data := file[lo..hi];
    assert forall i :: lo <= i < hi ==> file[i] == data[i - lo];
  }

  /** A chunk read backward with the byte before it starts after a newline, or has none. */
  lemma BackwardAligned(file: Data, lo: nat, hi: nat)
    requires 0 < lo && lo + 4 <= hi <= |file|
    ensures var start := AlignBackward(file[lo-1..hi], lo - 1, lo);
      && lo <= start < hi
      && (file[start - 1] == NEWLINE || OneLine(file, lo - 1, hi - 1))
      && (Valid(file) ==> Boundary(file, start))
  {
    hide Valid, TailsAt, FirstNewline, Boundary, AlignBackward, OneLine, Tail;
    var data := file[lo-1..hi];
    DropFirst(file, lo, hi);
    AlignIs(data, lo);
    FirstOf(file, lo - 1, hi);
    TailsOf(file, lo, hi);
    var newline := FirstNewline(data);
    if 0 <= newline < |data| - 1 {
      if Valid(file) { AfterNewlineAt(file, lo - 1 + newline); }
    } else {
      if Valid(file) { ThreeTails(file, lo, hi); }
      OneLineLess(file, lo, hi, newline);
    }
  }

  lemma DropFirst(file: Data, lo: nat, hi: nat)
    requires 0 < lo <= hi <= |file|
    ensures file[lo-1..hi][1..] == file[lo..hi]
  {
  }

  lemma OneLineLess(file: Data, lo: nat, hi: nat, newline: int)
    requires 0 < lo < hi <= |file| && (newline < 0 || newline == hi - lo)
    requires OneLine(file, lo - 1, if newline < 0 then hi else lo - 1 + newline)
    ensures OneLine(file, lo - 1, hi - 1)
  {
  }

  lemma AlignIs(data: Data, lo: nat)
    requires 0 < lo && 5 <= |data|
    ensures var newline := FirstNewline(data);
      AlignBackward(data, lo - 1, lo) == if 0 <= newline < |data| - 1 then lo + newline else lo + TailsAt(data[1..], 3)
  {
    hide TailsAt, FirstNewline;
  }

  function BackwardStart(file: Data, before: nat, length: nat): (start: nat)
    requires Length(length) && before <= |file|
    ensures Max(0, before - length) <= start <= before && (before > 0 ==> start < before)
  {
    if before <= length then 0
    else
      var lo := before - length;
      var start := AlignBackward(file[lo-1..before], lo - 1, lo);
      BackwardAligned(file, lo, before);
      start
  }

  lemma ViewBackward(file: Data, before: nat, length: nat)
    requires Length(length) && before <= |file|
    ensures var start := BackwardStart(file, before, length);
      View(file, true, true, Ending(before, length)) ==
        Chunk(file[start..before], start, before, Some(|file|), before == |file|)
  {
    if before <= length { ViewToStart(file, before, length); } else { ViewWithin(file, before, length); }
    hide View;
  }

  lemma ViewToStart(file: Data, before: nat, length: nat)
    requires Length(length) && before <= |file| && before <= length
    ensures View(file, true, true, Ending(before, length)) ==
      Chunk(file[..before], 0, before, Some(|file|), before == |file|)
  {
    hide AlignBackward, AlignForward, AlignCompleteLines;
    var data := if |file| == 0 then [] else file[0..before];
    AlignAtStart(data);
    assert data[0..] == data == file[..before];
    StartChunk(Ending(before, length), |file|, before, data);
    hide ChunkResult;
    assert Ending(before, length).ReadRange() == (0, before);
  }

  lemma StartChunk(request: Request, size: nat, before: nat, data: Data)
    requires request.Valid() && request.before == Some(before) && |data| == before <= size && before <= request.length
    ensures ChunkResult(request, Some(size), true, 0, data) == Chunk(data, 0, before, Some(size), before == size)
  {
    hide AlignBackward, AlignForward, AlignCompleteLines;
    AlignAtStart(data);
    assert data[0..] == data;
  }

  lemma ViewWithin(file: Data, before: nat, length: nat)
    requires Length(length) && length < before <= |file|
    ensures var start := BackwardStart(file, before, length);
      View(file, true, true, Ending(before, length)) ==
        Chunk(file[start..before], start, before, Some(|file|), before == |file|)
  {
    hide AlignBackward;
    var start, from := BackwardStart(file, before, length), before - length - 1;
    assert file[from..before][start - from..] == file[start..before];
  }

  lemma AlignAtStart(data: Data)
    ensures AlignBackward(data, 0, 0) == 0
  {
  }

  /** What holds of a chunk read backward. */
  predicate BackwardOk(file: Data, before: nat, length: nat, r: Answer) {
    && r.Chunk? && r.end == before && r.offset <= before <= |file| && r.data == file[r.offset..before]
    && |r.data| <= length && (before > 0 ==> r.offset < before)
  }

  lemma BackwardStartCuts(file: Data, before: nat, length: nat)
    requires Length(length) && before <= |file|
    ensures var start := BackwardStart(file, before, length);
      BackwardCut(file, start, before, length) && (Valid(file) ==> Boundary(file, start))
  {
    hide Valid, AlignBackward, OneLine;
    if length < before { BackwardAligned(file, before - length, before); }
    if Valid(file) { ValidStarts(file); }
  }

  lemma BackwardChunk(file: Data, before: nat, length: nat)
    requires Length(length) && before <= |file|
    ensures var r := View(file, true, true, Ending(before, length));
      && BackwardOk(file, before, length, r)
      && BackwardCut(file, r.offset, before, length)
      && (Valid(file) ==> Boundary(file, r.offset))
  {
    hide Valid, View, BackwardStart, BackwardCut, Boundary;
    ViewBackward(file, before, length);
    BackwardStartCuts(file, before, length);
  }

  /** The tail of a file is the chunk that ends at its end. */
  lemma TailIsLast(file: Data, length: nat)
    requires Length(length)
    ensures View(file, true, true, FromTail(length)) == View(file, true, true, Ending(|file|, length))
  {
    hide AlignBackward;
    var start := Max(0, |file| - (length + 1));
    assert start == Max(0, Max(0, |file| - length) - 1);
    var data := if start >= |file| then [] else file[start..|file|];
    SameBackward(FromTail(length), Ending(|file|, length), |file|, start, data);
    hide ChunkResult;
  }

  /** Backward requests that read the same bytes up to the end get the same answer. */
  lemma SameBackward(a: Request, b: Request, size: nat, start: nat, data: Data)
    requires a.Valid() && b.Valid() && a.fromEnd && b.before == Some(size) && a.length == b.length
    requires Reaches(start, Max(0, start + |data| - a.length))
    ensures ChunkResult(a, Some(size), true, start, data) == ChunkResult(b, Some(size), true, start, data)
  {
    hide AlignBackward, AlignForward, AlignCompleteLines;
    assert a.Backward() && b.Backward() && !a.follow && !b.follow;
  }

  /** The chunks of paging backward from `before` to the start of the file, in file order. */
  function PagesBack(file: Data, before: nat, length: nat): seq<Answer>
    requires Length(length) && before <= |file|
    decreases before
  {
    BackwardChunk(file, before, length);
    var r := View(file, true, true, Ending(before, length));
    if r.Bof() then [r] else PagesBack(file, r.offset, length) + [r]
  }

  ghost predicate GoodBackward(file: Data, length: nat, r: Answer) {
    && r.Chunk? && |r.data| <= length && (r.data == [] ==> r.end == 0)
    && BackwardCut(file, r.offset, r.end, length) && SplitsLong(file, r.offset, length)
    && (Valid(file) && Boundary(file, r.end) ==> Valid(r.data))
  }

  lemma BackwardGood(file: Data, before: nat, length: nat)
    requires Length(length) && before <= |file|
    ensures GoodBackward(file, length, View(file, true, true, Ending(before, length)))
  {
    hide View, BackwardCut, Valid, SplitsLong;
    var r := View(file, true, true, Ending(before, length));
    BackwardChunk(file, before, length);
    BackwardSplits(file, r.offset, before, length);
    if Valid(file) && Boundary(file, before) { ChunkValid(file, r.offset, before); }
  }

  lemma TilesRest(pages: seq<Answer>, lo: nat, hi: nat)
    requires Tiles(pages, lo, hi) && pages != []
    ensures pages[0].Chunk? && Tiles(pages[1..], pages[0].end, hi) && pages[0].offset == lo
    ensures pages[0].end == lo + |pages[0].data|
  {
  }

  lemma {:induction false} TileLast(pages: seq<Answer>, r: Answer, lo: nat)
    requires r.Chunk? && r.end == r.offset + |r.data| && Tiles(pages, lo, r.offset)
    ensures Tiles(pages + [r], lo, r.end) && Text(pages + [r]) == Text(pages) + r.data
    decreases |pages|
  {
    hide Tiles, Text;
    if pages == [] {
      NoTiles(r.end);
      TileFirst(r, [], r.end);
      NothingTiled(lo, r.offset);
      assert pages + [r] == [r] + [] && [] + r.data == r.data + [];
    } else {
      TilesRest(pages, lo, r.offset);
      TileLast(pages[1..], r, pages[0].end);
      TileFirst(pages[0], pages[1..] + [r], r.end);
      TileFirst(pages[0], pages[1..], r.offset);
      assert pages + [r] == [pages[0]] + (pages[1..] + [r]) && pages == [pages[0]] + pages[1..];
      assert pages[0].data + (Text(pages[1..]) + r.data) == pages[0].data + Text(pages[1..]) + r.data;
    }
  }

  lemma NothingTiled(lo: nat, hi: nat)
    requires Tiles([], lo, hi)
    ensures lo == hi && Text([]) == []
  {
  }

  /**
   Backward paging ends, and its chunks tile the file up to `before`; only a line longer than
   `length` is split, and a valid text is only cut between characters.
   */
  lemma {:induction false} BackwardTiles(file: Data, before: nat, length: nat)
    requires Length(length) && before <= |file|
    ensures var pages := PagesBack(file, before, length);
      && pages != [] && Tiles(pages, 0, before) && Text(pages) == file[..before]
      && (forall r :: r in pages ==> GoodBackward(file, length, r))
      && (Valid(file) ==> forall r :: r in pages ==> Boundary(file, r.offset))
    decreases before
  {
    hide View, BackwardCut, Valid, Tiles, Text, GoodBackward, Boundary;
    var r := View(file, true, true, Ending(before, length));
    BackwardChunk(file, before, length);
    BackwardGood(file, before, length);
    var rest := if r.offset == 0 then [] else PagesBack(file, r.offset, length);
    if r.offset == 0 { NoTiles(0); } else { BackwardTiles(file, r.offset, length); }
    TileLast(rest, r, 0);
    assert PagesBack(file, before, length) == rest + [r];
    assert Text(rest) + r.data == file[..before];
  }

  // ---------------------------------------------------------------- following

  /**
   A poll: the size the reader saw, and the file when its bytes were read. The file only grew in
   between; at least what was there when the size was taken was read.
   */
  datatype Poll = Poll(size: Option<nat>, file: Data, read: nat)

  predicate ReadOk(p: Poll, offset: nat, length: nat) {
    && (p.size.Some? ==> p.size.value <= |p.file|)
    && offset <= p.read <= Min(offset + length, |p.file|)
    && match p.size
       case Some(size) => offset <= size &&
         (if offset == size then p.read == offset else Min(offset + length, size) <= p.read)
       case None => p.read == Min(offset + length, |p.file|)
  }

  function Follow(p: Poll, offset: nat, length: nat): Answer
    requires Length(length) && ReadOk(p, offset, length)
  {
    ChunkResult(At(offset, length, true), p.size, true, offset, p.file[offset..p.read])
  }

  /** The size the answer gives, or the size so far if the backend does not know it. */
  function Seen(p: Poll, r: Answer): nat
    requires r.Chunk?
  {
    if r.size.Some? then r.size.value else p.read
  }

  lemma FollowChunk(p: Poll, offset: nat, length: nat)
    requires Length(length) && ReadOk(p, offset, length)
    ensures var r := Follow(p, offset, length);
      && r.Chunk? && r.offset == offset && offset <= r.end <= p.read && r.data == p.file[offset..r.end]
      && (r.eof ==> Seen(p, r) == p.read && p.read - r.end < length && OneLine(p.file, r.end, p.read))
      && (!r.eof ==> r.end > offset)
  {
    var data := p.file[offset..p.read];
    assert forall k :: 0 <= k < |data| ==> data[k] == p.file[offset + k];
    IncompleteShort(data, 1);
    assert forall k :: offset <= k < p.read ==> p.file[k] == data[k - offset];
  }

  lemma PollReads(p: Poll, offset: nat, length: nat)
    requires ReadOk(p, offset, length)
    ensures offset <= p.read <= |p.file|
  {
  }

  lemma {:induction false} IncompleteShort(data: Data, back: nat)
    requires 1 <= back
    ensures IncompleteFrom(data, back) <= 3
    decreases 5 - back
  {
    if back <= Min(4, |data|) && 0x80 <= data[|data| - back] < 0xC0 {
      IncompleteShort(data, back + 1);
    }
  }

  /** Where a follower's chunk ends: nowhere new, after a newline, or as any chunk without one. */
  lemma FollowEnd(p: Poll, offset: nat, length: nat)
    requires Length(length) && ReadOk(p, offset, length)
    ensures var end := Follow(p, offset, length).Next(offset);
      || end == offset
      || (offset < end <= p.read && p.file[end - 1] == NEWLINE)
      || (p.read == offset + length && end == offset + AlignForward(p.file[offset..p.read], false))
  {
    hide AlignForward;
    var data := p.file[offset..p.read];
    assert forall k :: 0 <= k < |data| ==> data[k] == p.file[offset + k];
  }

  /** When the file has grown to a valid text, no answer has cut a character. */
  lemma FollowCuts(p: Poll, offset: nat, length: nat, whole: Data)
    requires Length(length) && ReadOk(p, offset, length) && p.file <= whole && Valid(whole) && Boundary(whole, offset)
    ensures Boundary(whole, Follow(p, offset, length).Next(offset))
  {
    FollowEnd(p, offset, length);
    AfterNewline(whole);
    assert p.file[offset..p.read] == whole[offset..p.read];
    hide Valid, IncompleteFrom, Follow, AlignForward;
    var end := Follow(p, offset, length).Next(offset);
    if offset < end <= p.read && p.file[end - 1] == NEWLINE {
      assert whole[end - 1] == NEWLINE;
    } else if end != offset {
      ForwardAligned(whole, offset, p.read);
    }
  }

  /** A position past the end: a follower gets the new size, any other reader an error, backward as well. */
  lemma Shrunk(request: Request, size: nat, text: bool, dataStart: nat, data: Data)
    requires request.Valid() && !request.fromEnd
    requires (if request.before.Some? then request.before.value else request.offset.value) > size
    requires request.Backward() ==> Reaches(dataStart, Max(0, dataStart + |data| - request.length))
    ensures var r := ChunkResult(request, Some(size), text, dataStart, data);
      if request.follow then r == Chunk([], size, size, Some(size), true) else r == BeyondEnd
  {
  }

  /** Polls of a file that only grows, each from the end of the answer before. */
  predicate Grows(before: Data, polls: seq<Poll>, offset: nat, length: nat)
    requires Length(length)
    decreases |polls|
  {
    polls == [] || (
      && before <= polls[0].file && ReadOk(polls[0], offset, length)
      && Grows(polls[0].file, polls[1..], Follow(polls[0], offset, length).Next(offset), length))
  }

  /** The chunks received, one after the other. */
  function Received(before: Data, polls: seq<Poll>, offset: nat, length: nat): Data
    requires Length(length) && Grows(before, polls, offset, length)
    decreases |polls|
  {
    if polls == [] then []
    else
      FollowChunk(polls[0], offset, length);
      var r := Follow(polls[0], offset, length);
      r.data + Received(polls[0].file, polls[1..], r.Next(offset), length)
  }

  function Offset(before: Data, polls: seq<Poll>, offset: nat, length: nat): nat
    requires Length(length) && Grows(before, polls, offset, length)
    decreases |polls|
  {
    if polls == [] then offset
    else Offset(polls[0].file, polls[1..], Follow(polls[0], offset, length).Next(offset), length)
  }

  function Last(before: Data, polls: seq<Poll>): Data {
    if polls == [] then before else polls[|polls| - 1].file
  }

  lemma {:induction false} FollowCutsAll(before: Data, polls: seq<Poll>, offset: nat, length: nat)
    requires Length(length) && offset <= |before| && Grows(before, polls, offset, length)
    requires Valid(Last(before, polls)) && Boundary(Last(before, polls), offset)
    ensures var file, end := Last(before, polls), Offset(before, polls, offset, length);
      before <= file && offset <= end && Boundary(file, end)
    decreases |polls|
  {
    hide ReadOk, Follow, Valid, Boundary;
    if polls != [] {
      var r, file := Follow(polls[0], offset, length), Last(before, polls);
      FollowChunk(polls[0], offset, length);
      PollReads(polls[0], offset, length);
      assert Last(polls[0].file, polls[1..]) == file;
      LastGrows(polls[0].file, polls[1..], r.end, length);
      FollowCuts(polls[0], offset, length, file);
      FollowCutsAll(polls[0].file, polls[1..], r.end, length);
    }
  }

  lemma {:induction false} LastGrows(before: Data, polls: seq<Poll>, offset: nat, length: nat)
    requires Length(length) && Grows(before, polls, offset, length)
    ensures before <= Last(before, polls)
    decreases |polls|
  {
    hide ReadOk, Follow;
    if polls != [] {
      LastGrows(polls[0].file, polls[1..], Follow(polls[0], offset, length).Next(offset), length);
    }
  }

  /**
   However the polls fall, the chunks put together are the bytes of the file from the first
   offset to the end of the last answer.
   */
  lemma {:induction false} FollowReceives(before: Data, polls: seq<Poll>, offset: nat, length: nat)
    requires Length(length) && offset <= |before| && Grows(before, polls, offset, length)
    ensures var file, end := Last(before, polls), Offset(before, polls, offset, length);
      && before <= file && offset <= end <= |file|
      && Received(before, polls, offset, length) == file[offset..end]
      && (Valid(file) && Boundary(file, offset) ==> Boundary(file, end) && Valid(file[offset..end]))
    decreases |polls|
  {
    hide ReadOk, Follow, Valid, Boundary;
    if Valid(Last(before, polls)) && Boundary(Last(before, polls), offset) {
      FollowCutsAll(before, polls, offset, length);
      ChunkValid(Last(before, polls), offset, Offset(before, polls, offset, length));
    }
    if polls != [] {
      var r, file := Follow(polls[0], offset, length), Last(before, polls);
      FollowChunk(polls[0], offset, length);
      PollReads(polls[0], offset, length);
      FollowReceives(polls[0].file, polls[1..], r.end, length);
      assert Last(polls[0].file, polls[1..]) == file;
      var end := Offset(before, polls, offset, length);
      assert polls[0].file[offset..r.end] == file[offset..r.end];
      assert file[offset..r.end] + file[r.end..end] == file[offset..end];
    }
  }
}
