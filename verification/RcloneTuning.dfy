/**
 rclone's performance settings (rclone_tuning.py): the parameters and their bounds, the memory
 estimate, the overrides of a job, presets fitted to the server, and the server's defaults.
 */
module RcloneTuning {
  import opened Bounds
  import opened Options
  import opened SizeText

  datatype Name =
    | Transfers | Checkers | Streams | Cutoff | Buffer
    | S3Concurrency | S3Chunk | AzureConcurrency | AzureChunk

  const PARAMS: seq<Name> :=
    [Transfers, Checkers, Streams, Cutoff, Buffer, S3Concurrency, S3Chunk, AzureConcurrency, AzureChunk]

  lemma AllParams(n: Name)
    ensures n in PARAMS
  {
    assert PARAMS[0] == Transfers && PARAMS[1] == Checkers && PARAMS[2] == Streams && PARAMS[3] == Cutoff;
    assert PARAMS[4] == Buffer && PARAMS[5] == S3Concurrency && PARAMS[6] == S3Chunk;
    assert PARAMS[7] == AzureConcurrency && PARAMS[8] == AzureChunk;
  }

  datatype Cap = MaxTransfers | MaxCheckers | MaxStreams | MaxConcurrency

  /** The type of the destination; only S3 and Azure Blob upload in chunks. */
  datatype Backend = S3 | Azureblob | Elsewhere

  type Values = map<Name, int>

  predicate IsSize(n: Name) {
    n.Cutoff? || n.Buffer? || n.S3Chunk? || n.AzureChunk?
  }

  function Lo(n: Name): int {
    match n
    case Streams | Buffer => 0
    case Transfers | Checkers | S3Concurrency | AzureConcurrency => 1
    case Cutoff | AzureChunk => MIB
    case S3Chunk => 5 * MIB
  }

  function Hi(n: Name): int {
    match n
    case Transfers | Checkers => 1024
    case Streams | S3Concurrency | AzureConcurrency => 256
    case Cutoff => TIB
    case Buffer => GIB
    case S3Chunk => 5 * GIB
    case AzureChunk => 4000 * MIB
  }

  function CapOf(n: Name): Option<Cap> {
    match n
    case Transfers => Some(MaxTransfers)
    case Checkers => Some(MaxCheckers)
    case Streams => Some(MaxStreams)
    case S3Concurrency | AzureConcurrency => Some(MaxConcurrency)
    case _ => None
  }

  /** _applies: a parameter of a backend is only passed to destinations of its type. */
  predicate Applies(n: Name, dst: Backend) {
    match n
    case S3Concurrency | S3Chunk => dst.S3?
    case AzureConcurrency | AzureChunk => dst.Azureblob?
    case _ => true
  }

  predicate PerJob(n: Name) {
    !n.Buffer?
  }

  function RcloneDefault(n: Name): int {
    match n
    case Transfers => 4
    case Checkers => 8
    case Streams => 4
    case Cutoff => 256 * MIB
    case Buffer => 16 * MIB
    case S3Concurrency => 4
    case S3Chunk => 5 * MIB
    case AzureConcurrency => 16
    case AzureChunk => 4 * MIB
  }

  datatype Caps = Caps(transfers: int, checkers: int, streams: int, concurrency: int) {
    function Of(cap: Cap): int {
      match cap
      case MaxTransfers => transfers
      case MaxCheckers => checkers
      case MaxStreams => streams
      case MaxConcurrency => concurrency
    }

    predicate Valid() {
      1 <= transfers <= 1024 && 1 <= checkers <= 1024 && 0 <= streams <= 256 && 1 <= concurrency <= 256
    }
  }

  datatype Settings = Settings(defaults: Values, caps: Caps, budget: int) {
    /** What load_settings makes sure of. */
    predicate Valid() {
      caps.Valid() && budget >= 0 && InBounds(defaults)
    }
  }

  predicate InBounds(values: Values) {
    forall n :: n in values ==> Lo(n) <= values[n] <= Hi(n)
  }

  predicate InCaps(values: Values, caps: Caps) {
    forall n :: n in values ==> BelowCap(n, values[n], caps)
  }

  predicate BelowCap(n: Name, value: int, caps: Caps) {
    CapOf(n).Some? ==> value <= caps.Of(CapOf(n).value)
  }

  // ---------------------------------------------------------------- memory

  function Value(values: Values, n: Name): int {
    if n in values then values[n] else RcloneDefault(n)
  }

  /** The buffer memory of one transfer. */
  function PerTransfer(values: Values, dst: Backend): int {
    var streams := Value(values, Streams);
    var read := Max(1, streams) * Value(values, Buffer);
    match dst
    case S3 => read + Max(Value(values, S3Concurrency), streams) * Value(values, S3Chunk)
    case Azureblob => read + Max(Value(values, AzureConcurrency), streams) * Value(values, AzureChunk)
    case Elsewhere => read
  }

  /** What a transfer buffers, by the destination, and by whether the streams or the upload concurrency is larger. */
  lemma PerTransferMeans(values: Values, dst: Backend)
    ensures var streams, buffer := Value(values, Streams), Value(values, Buffer);
      var s3, azure := Value(values, S3Concurrency), Value(values, AzureConcurrency);
      var one := PerTransfer(values, dst);
      && (dst.Elsewhere? ==> one == if streams <= 0 then buffer else streams * buffer)
      && (dst.S3? && streams > s3 && streams > 0 ==> one == streams * (buffer + Value(values, S3Chunk)))
      && (dst.S3? && s3 >= streams > 0 ==> one == streams * buffer + s3 * Value(values, S3Chunk))
      && (dst.S3? && s3 >= 0 >= streams ==> one == buffer + s3 * Value(values, S3Chunk))
      && (dst.Azureblob? && streams > azure && streams > 0 ==> one == streams * (buffer + Value(values, AzureChunk)))
      && (dst.Azureblob? && azure >= streams > 0 ==> one == streams * buffer + azure * Value(values, AzureChunk))
      && (dst.Azureblob? && azure >= 0 >= streams ==> one == buffer + azure * Value(values, AzureChunk))
  {
  }

  /** estimate_memory */
  function Estimate(values: Values, dst: Backend): int {
    Value(values, Transfers) * PerTransfer(values, dst)
  }

  /** effective: the installation's defaults plus the overrides that apply. */
  function Effective(overrides: Values, dst: Backend, defaults: Values): Values {
    map n: Name | (n in overrides || n in defaults) && Applies(n, dst)
      :: if n in overrides then overrides[n] else defaults[n]
  }

  function Needed(overrides: Values, dst: Backend, defaults: Values): int {
    Estimate(Effective(overrides, dst, defaults), dst)
  }

  function OneTransfer(overrides: Values, dst: Backend, defaults: Values): int {
    PerTransfer(Effective(overrides, dst, defaults), dst)
  }

  // ---------------------------------------------------------------- overrides

  /** A value of the request or of a stored job; other JSON is neither a number nor a size. */
  datatype Raw = Null | Text(text: string) | Int(value: int) | OtherJson

  datatype Key = Known(name: Name) | Unknown

  datatype Error = UnknownSetting | NotParsed(name: Name) | OutOfBounds(name: Name)
    | AboveCap(name: Name) | TooMuchMemory
    | BadCap(cap: Cap) | BadBudget

  datatype Result<T> = Ok(value: T) | Fails(error: Error)

  function ParseInt(s: string): Option<int> {
    if 1 <= |s| <= 7 && DigitRun(s) == |s| then Some(Number(s)) else None
  }

  /** A number is one to seven digits; what is printed in decimal reads as itself, up to seven digits. */
  lemma IntText(s: string, n: nat)
    ensures ParseInt(s).Some? <==> 1 <= |s| <= 7 && forall i :: 0 <= i < |s| ==> '0' <= s[i] <= '9'
    ensures ParseInt(Decimal(n)) == if n < 10000000 then Some(n) else None
  {
    NumberDecimal(n);
    DecimalLength(n, 7);
    assert Power(7) == 10000000;
    hide Decimal, Number;
  }

  /** The bounds of every setting, its cap and what rclone does without it, in bytes for sizes. */
  lemma TableMeans()
    ensures forall n: Name :: (Lo(n), Hi(n), CapOf(n), RcloneDefault(n)) == match n
      case Transfers => (1, 1024, Some(MaxTransfers), 4)
      case Checkers => (1, 1024, Some(MaxCheckers), 8)
      case Streams => (0, 256, Some(MaxStreams), 4)
      case Cutoff => (1048576, 1099511627776, None, 268435456)
      case Buffer => (0, 1073741824, None, 16777216)
      case S3Concurrency => (1, 256, Some(MaxConcurrency), 4)
      case S3Chunk => (5242880, 5368709120, None, 5242880)
      case AzureConcurrency => (1, 256, Some(MaxConcurrency), 16)
      case AzureChunk => (1048576, 4194304000, None, 4194304)
  {
  }

  /** _parse */
  function Parse(n: Name, raw: Raw): Result<int> {
    var parsed: Option<int> := match raw
      case Int(i) => Some(i)
      case Text(s) =>
        if IsSize(n) then (match ParseSize(s) case Some(size) => Some(size) case None => None)
        else ParseInt(s)
      case _ => None;
    if parsed.None? then Fails(NotParsed(n))
    else if !(Lo(n) <= parsed.value <= Hi(n)) then Fails(OutOfBounds(n))
    else Ok(parsed.value)
  }

  predicate Skipped(raw: Raw) {
    raw.Null? || raw == Text("")
  }

  /** One setting of the request: None if it is left out of the result. */
  function One(key: Key, raw: Raw, dst: Backend, t: Settings, only: set<Name>): Result<Option<int>> {
    if key.Unknown? || key.name !in only then Fails(UnknownSetting)
    else if Skipped(raw) then Ok(None)
    else
      var n, parsed := key.name, Parse(key.name, raw);
      if parsed.Fails? then Fails(parsed.error)
      else if !BelowCap(n, parsed.value, t.caps) then Fails(AboveCap(n))
      else Ok(if Applies(n, dst) then Some(parsed.value) else None)
  }

  /**
   What becomes of one setting: unknown, left out (null, an empty text, or not for this destination), not a
   number or size, outside its bounds, above its cap, or its value.
   */
  lemma OneMeans(key: Key, raw: Raw, dst: Backend, t: Settings, only: set<Name>)
    ensures var r := One(key, raw, dst, t, only);
      if key.Unknown? || key.name !in only then r == Fails(UnknownSetting)
      else if raw.Null? || raw == Text("") then r == Ok(None)
      else
        var n := key.name;
        var read: Option<int> := if raw.Int? then Some(raw.value)
          else if raw.Text? && !IsSize(n) then ParseInt(raw.text)
          else if raw.Text? && ParseSize(raw.text).Some? then Some(ParseSize(raw.text).value)
          else None;
        if read.None? then r == Fails(NotParsed(n))
        else if read.value < Lo(n) || Hi(n) < read.value then r == Fails(OutOfBounds(n))
        else if CapOf(n).Some? && t.caps.Of(CapOf(n).value) < read.value then r == Fails(AboveCap(n))
        else r == Ok(if Applies(n, dst) then read else None)
  {
  }

  /** The settings one after the other, up to the first that fails. */
  function Collect(raw: seq<(Key, Raw)>, dst: Backend, t: Settings, only: set<Name>): Result<Values> {
    if raw == [] then Ok(map[])
    else
      var (key, value) := raw[|raw| - 1];
      var before := Collect(raw[..|raw| - 1], dst, t, only);
      if before.Fails? then before
      else
        var one := One(key, value, dst, t, only);
        if one.Fails? then Fails(one.error)
        else if one.value.None? then before
        else Ok(before.value[key.name := one.value.value])
  }

  const PER_JOB: set<Name> := set n: Name | PerJob(n)

  /** validate_overrides of an object; `budgeted` is only is None. */
  function Validate(raw: seq<(Key, Raw)>, dst: Backend, t: Settings, only: set<Name>, budgeted: bool): Result<Values> {
    var r := Collect(raw, dst, t, only);
    if r.Ok? && budgeted && Needed(r.value, dst, t.defaults) > t.budget then Fails(TooMuchMemory) else r
  }

  method ValidateOverrides(raw: seq<(Key, Raw)>, dst: Backend, t: Settings, only: set<Name>, budgeted: bool)
    returns (r: Result<Values>)
    ensures r == Validate(raw, dst, t, only, budgeted)
  {
    var result: Values := map[];
    for k := 0 to |raw|
      invariant Collect(raw[..k], dst, t, only) == Ok(result)
    {
      var (key, value) := raw[k];
      assert raw[..k+1][..k] == raw[..k];
      if key.Unknown? || key.name !in only {
        CollectFails(raw, k + 1, dst, t, only);
        return Fails(UnknownSetting);
      }
      if !Skipped(value) {
        var parsed := Parse(key.name, value);
        if parsed.Fails? || !BelowCap(key.name, parsed.value, t.caps) {
          CollectFails(raw, k + 1, dst, t, only);
          return Fails(if parsed.Fails? then parsed.error else AboveCap(key.name));
        }
        if Applies(key.name, dst) { result := result[key.name := parsed.value]; }
      }
    }
    assert raw[..|raw|] == raw;
    if budgeted && Needed(result, dst, t.defaults) > t.budget { return Fails(TooMuchMemory); }
    return Ok(result);
  }

  lemma {:induction false} CollectFails(raw: seq<(Key, Raw)>, k: nat, dst: Backend, t: Settings, only: set<Name>)
    requires k <= |raw| && Collect(raw[..k], dst, t, only).Fails?
    ensures Collect(raw, dst, t, only) == Collect(raw[..k], dst, t, only)
  {
    if k == |raw| {
      assert raw[..k] == raw;
    } else {
      assert raw[..|raw| - 1][..k] == raw[..k];
      CollectFails(raw[..|raw| - 1], k, dst, t, only);
    }
  }

  // ---------------------------------------------------------------- presets

  const FLOOR_CHUNK := 16 * MIB
  const FLOOR_STREAMS := 4

  /** The lowest a preset's value is reduced to, before its transfers. */
  function Floor(n: Name, value: int): int {
    match n
    case S3Chunk | AzureChunk => Min(value, FLOOR_CHUNK)
    case Streams | S3Concurrency | AzureConcurrency => Min(value, FLOOR_STREAMS)
    case _ => value
  }

  function Floors(values: Values): Values {
    map n | n in values :: Floor(n, values[n])
  }

  function Clamp(n: Name, value: int, caps: Caps): int {
    if CapOf(n).Some? then Min(value, caps.Of(CapOf(n).value)) else value
  }

  function Applying(target: Values, dst: Backend): Values {
    map n | n in target && Applies(n, dst) :: target[n]
  }

  /** The preset for the destination, within the caps. */
  function Start(target: Values, dst: Backend, caps: Caps): Values {
    map n | n in target && Applies(n, dst) :: Clamp(n, target[n], caps)
  }

  /** `values` lies between the floors of `start` and `start`. */
  predicate Between(values: Values, start: Values) {
    values.Keys == start.Keys && forall n :: n in start ==> Floor(n, start[n]) <= values[n] <= start[n]
  }

  function ChunkOf(dst: Backend): Option<Name> {
    match dst
    case S3 => Some(S3Chunk)
    case Azureblob => Some(AzureChunk)
    case Elsewhere => None
  }

  function ConcurrencyOf(dst: Backend): Option<Name> {
    match dst
    case S3 => Some(S3Concurrency)
    case Azureblob => Some(AzureConcurrency)
    case Elsewhere => None
  }

  /** values.get(name, 0) */
  function Get(values: Values, n: Option<Name>): int {
    if n.Some? && n.value in values then values[n.value] else 0
  }
}
