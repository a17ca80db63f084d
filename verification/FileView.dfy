/** The text pager (file_view.py): chunk requests, alignment to lines and characters, answers. */
module FileView {
  import opened Bounds
  import opened Options
  import opened Utf8

  type Data = seq<Byte>

  const CHUNK_BYTES := 0x40000
  const MIN_CHUNK_BYTES := 256
  const NEWLINE: Byte := 10

  datatype Request = Request(offset: Option<nat>, before: Option<nat>, fromEnd: bool, length: nat, follow: bool) {
    predicate Backward() {
      fromEnd || before.Some?
    }

    /** What parse_chunk_request lets through. */
    predicate Valid() {
      && MIN_CHUNK_BYTES <= length <= CHUNK_BYTES
      && (if fromEnd then offset.None? && before.None? else offset.Some? != before.Some?)
      && (follow ==> offset.Some?)
    }

    /** (start, count) of the bytes to read; a tail read starts that many bytes before the end. */
    function ReadRange(): (int, nat)
      requires Valid()
    {
      if fromEnd then (-(length + 1), length + 1)
      else if before.Some? then
        var start := Max(0, Max(0, before.value - length) - 1);
        (start, before.value - start)
      else (offset.value, length)
    }
  }

  datatype ParseError = NotAnInteger | OutOfRange | TooMany | FollowsBackward

  datatype Parsed = Parsed(request: Request) | Invalid(error: ParseError)

  /** A JSON number is an integer or something else; a missing one or null is None. */
  datatype Json = Integer(value: int) | Else

  predicate Given(field: Option<Json>, minimum: int, maximum: Option<int>) {
    field.Some? ==> (
      && field.value.Integer? && minimum <= field.value.value
      && (maximum.Some? ==> field.value.value <= maximum.value))
  }

  function Why(field: Option<Json>): ParseError {
    if field == Some(Else) then NotAnInteger else OutOfRange
  }

  function Nat(field: Option<Json>): Option<nat>
    requires Given(field, 0, None)
  {
    if field.Some? then Some(field.value.value) else None
  }

  /** A field's value in the request: what was given, or the default. */
  predicate Reads(field: Option<Json>, default: Option<nat>, value: Option<nat>) {
    match field
    case Some(given) => given.Integer? && value.Some? && value.value == given.value
    case None => value == default
  }

  function ParseChunkRequest(offset: Option<Json>, before: Option<Json>, fromEnd: bool,
      length: Option<Json>, follow: bool): (r: Parsed)
    ensures r.Parsed? ==>
      && r.request.Valid() && r.request.fromEnd == fromEnd && r.request.follow == follow
      && Reads(before, None, r.request.before) && Reads(length, Some(CHUNK_BYTES), Some(r.request.length))
      && Reads(offset, if before.Some? || fromEnd then None else Some(0), r.request.offset)
    ensures r.Parsed? <==>
      && Given(offset, 0, None) && Given(before, 0, None) && Given(length, MIN_CHUNK_BYTES, Some(CHUNK_BYTES))
      && !(offset.Some? && before.Some?) && !(fromEnd && (offset.Some? || before.Some?))
      && !(follow && (before.Some? || fromEnd))
  {
    if !Given(offset, 0, None) then Invalid(Why(offset))
    else if !Given(before, 0, None) then Invalid(Why(before))
    else if !Given(length, MIN_CHUNK_BYTES, Some(CHUNK_BYTES)) then Invalid(Why(length))
    else if (offset.Some? && before.Some?) || (fromEnd && (offset.Some? || before.Some?)) then Invalid(TooMany)
    else if follow && (before.Some? || fromEnd) then Invalid(FollowsBackward)
    else
      var start := if offset.None? && before.None? && !fromEnd then Some(0) else Nat(offset);
      Parsed(Request(start, Nat(before), fromEnd, if length.Some? then length.value.value else CHUNK_BYTES, follow))
  }

  /** The first check that fails is told: each number in turn, then the positions, then following. */
  lemma RefusedWhy(offset: Option<Json>, before: Option<Json>, fromEnd: bool, length: Option<Json>, follow: bool)
    ensures var r := ParseChunkRequest(offset, before, fromEnd, length, follow);
      var bad := if !Given(offset, 0, None) then offset else if !Given(before, 0, None) then before else length;
      var numbers := Given(offset, 0, None) && Given(before, 0, None) && Given(length, 256, Some(0x40000));
      var positions := (if offset.Some? then 1 else 0) + (if before.Some? then 1 else 0) + (if fromEnd then 1 else 0);
      && (r == Invalid(NotAnInteger) <==> !numbers && bad == Some(Else))
      && (r == Invalid(OutOfRange) <==> !numbers && bad != Some(Else))
      && (r == Invalid(TooMany) <==> numbers && positions > 1)
      && (r == Invalid(FollowsBackward) <==> numbers && positions <= 1 && follow && (before.Some? || fromEnd))
  {
  }

  // ---------------------------------------------------------------- alignment

  /** data.rfind(b'\n') */
  function LastNewline(data: Data): (i: int)
    ensures -1 <= i < |data|
    ensures i >= 0 ==> data[i] == NEWLINE
    ensures forall k :: i < k < |data| ==> data[k] != NEWLINE
  {
    if data == [] then -1
    else if data[|data| - 1] == NEWLINE then |data| - 1
    else LastNewline(data[..|data| - 1])
  }

  /** data.find(b'\n') */
  function FirstNewline(data: Data): (i: int)
    ensures -1 <= i < |data|
    ensures i >= 0 ==> data[i] == NEWLINE
    ensures forall k :: 0 <= k < (if i < 0 then |data| else i) ==> data[k] != NEWLINE
  {
    if data == [] then -1
    else if data[0] == NEWLINE then 0
    else
      var i := FirstNewline(data[1..]);
      if i < 0 then -1 else i + 1
  }

  /** The bytes from `back` before the end on that are an incomplete character. */
  function IncompleteFrom(data: Data, back: nat): nat
    requires 1 <= back
    decreases 5 - back
  {
    if back > Min(4, |data|) || data[|data| - back] < 0x80 then 0
    else if data[|data| - back] >= 0xC0 then (if Need(data[|data| - back]) > back then back else 0)
    else IncompleteFrom(data, back + 1)
  }

  method Utf8IncompleteTail(data: Data) returns (n: nat)
    ensures n == IncompleteFrom(data, 1)
  {
    var back := 1;
    while back <= Min(4, |data|)
      invariant 1 <= back <= 5
      invariant IncompleteFrom(data, 1) == IncompleteFrom(data, back)
    {
      var byte := data[|data| - back];
      if byte < 0x80 { return 0; }
      if byte >= 0xC0 {
        var need := if byte < 0xE0 then 2 else if byte < 0xF0 then 3 else 4;
        return if need > back then back else 0;
      }
      back := back + 1;
    }
    return 0;
  }

  /** The continuation bytes at the start of `data`, at most `most`. */
  function TailsAt(data: Data, most: nat): (n: nat)
    ensures n <= most && n <= |data|
    ensures forall i :: 0 <= i < n ==> Tail(data[i])
    ensures n < most && n < |data| ==> !Tail(data[n])
  {
    if most == 0 || data == [] || !Tail(data[0]) then 0 else 1 + TailsAt(data[1..], most - 1)
  }

  method Utf8ContinuationHead(data: Data) returns (count: nat)
    ensures count == TailsAt(data, 3)
  {
    count := 0;
    assert data[0..] == data;
    while count < Min(3, |data|) && 0x80 <= data[count] < 0xC0
      invariant count <= Min(3, |data|)
      invariant TailsAt(data, 3) == count + TailsAt(data[count..], 3 - count)
    {
      assert data[count..][1..] == data[count+1..];
      count := count + 1;
    }
  }

  /** The length of the chunk made from `data` when paging forward: its whole lines, if it has any. */
  function AlignForward(data: Data, atEof: bool): (keep: nat)
    ensures keep <= |data| && (data != [] ==> keep > 0)
  {
    if atEof || data == [] then |data|
    else
      var newline := LastNewline(data);
      if newline >= 0 then newline + 1
      else
        var keep := |data| - IncompleteFrom(data, 1);
        if keep > 0 then keep else |data|
  }

  /** How many bytes of `data`, read up to the end of the file, a follow read keeps. */
  function AlignCompleteLines(data: Data, length: nat): (keep: nat)
    ensures keep <= |data|
  {
    var newline := LastNewline(data);
    if newline >= 0 then newline + 1
    else if |data| >= length then AlignForward(data, false)
    else 0
  }

  /** Where a chunk read backward starts; `data` starts at `dataStart`, the chunk not below `lo`. */
  function AlignBackward(data: Data, dataStart: nat, lo: nat): (start: nat)
    requires lo - 1 <= dataStart <= lo <= dataStart + |data|
    ensures lo <= start <= dataStart + |data|
  {
    if lo <= 0 then 0
    else
      var newline := FirstNewline(data);
      if 0 <= newline < |data| - 1 then dataStart + newline + 1
      else
        var skip := lo - dataStart;
        var start := skip + TailsAt(data[skip..], 3);
        if start >= |data| then dataStart + skip else dataStart + start
  }

  // ---------------------------------------------------------------- answers

  /** A chunk and the byte range it covers; decoding the bytes to text is left out. */
  datatype Answer =
    | Chunk(data: Data, offset: nat, end: nat, size: Option<nat>, eof: bool)
    | BeyondEnd
    | NotText
  {
    function Bof(): bool
      requires Chunk?
    {
      offset == 0
    }

    /** Where a follower that asked at `asked` asks next. */
    function Next(asked: nat): nat {
      if Chunk? then end else asked
    }
  }

  function Empty(offset: nat, size: nat): Answer {
    Chunk([], offset, offset, Some(size), true)
  }

  /** A backward read also takes the byte before the lowest start, unless that is the file's first. */
  predicate Reaches(dataStart: nat, lo: int) {
    lo - 1 <= dataStart <= lo
  }

  /**
   chunk_result: `size` is the file's size when the read began, None if the backend does not know
   it, `text` the verdict on its first bytes, and `data` the bytes read from `dataStart`.
   */
  function ChunkResult(request: Request, size: Option<nat>, text: bool, dataStart: nat, data: Data): Answer
    requires request.Valid()
    requires request.Backward() ==> Reaches(dataStart, Max(0, dataStart + |data| - request.length))
  {
    var requested := if request.before.Some? then request.before else request.offset;
    if size.Some? && requested.Some? && requested.value > size.value then
      (if !request.follow then BeyondEnd else Empty(size.value, size.value))
    else if !request.Backward() && size.Some? && request.offset == size && data == [] then Empty(size.value, size.value)
    else
      var size' := if size.Some? && data != [] then Some(Max(size.value, dataStart + |data|)) else size;
      if !text then NotText
      else if request.Backward() then
        var before := dataStart + |data|;
        var start := AlignBackward(data, dataStart, Max(0, before - request.length));
        Chunk(data[start - dataStart..], start, before, size', size'.Some? && before >= size'.value)
      else
        var atEof := if size'.Some? then dataStart + |data| >= size'.value else |data| < request.length;
        var keep := if request.follow && atEof then AlignCompleteLines(data, request.length)
          else AlignForward(data, atEof);
        var end := dataStart + keep;
        var size'' := if size'.None? && atEof then Some(dataStart + |data|) else size';
        Chunk(data[..keep], dataStart, end, size'',
              if request.follow then atEof else size''.Some? && end >= size''.value)
  }
}
