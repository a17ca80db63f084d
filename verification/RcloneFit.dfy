/** Presets fitted to a server (rclone_tuning.fit_preset): what the reductions keep and reach. */
module RcloneFit {
  import opened Bounds
  import opened Options
  import opened RcloneTuning

  // ---------------------------------------------------------------- the estimate grows

  predicate NonNegative(values: Values) {
    forall n :: n in values ==> values[n] >= 0
  }

  /** The same parameters, none greater. */
  predicate Below(a: Values, b: Values) {
    a.Keys == b.Keys && forall n :: n in a ==> a[n] <= b[n]
  }

  lemma ProductGrows(a: int, b: int, c: int, d: int)
    requires 0 <= a <= c && 0 <= b <= d
    ensures 0 <= a * b <= c * d
  {
    assert 0 <= a * b;
    assert a * b <= a * d;
    assert a * d <= c * d;
  }

  lemma MoreTransferMemory(a: Values, b: Values, dst: Backend)
    requires NonNegative(a) && NonNegative(b)
    requires forall n: Name :: Value(a, n) <= Value(b, n)
    ensures 0 <= PerTransfer(a, dst) <= PerTransfer(b, dst)
  {
    var s, z := Value(a, Streams), Value(b, Streams);
    assert forall n: Name :: 0 <= Value(a, n);
    ProductGrows(Max(1, s), Value(a, Buffer), Max(1, z), Value(b, Buffer));
    ProductGrows(Max(Value(a, S3Concurrency), s), Value(a, S3Chunk),
      Max(Value(b, S3Concurrency), z), Value(b, S3Chunk));
    ProductGrows(Max(Value(a, AzureConcurrency), s), Value(a, AzureChunk),
      Max(Value(b, AzureConcurrency), z), Value(b, AzureChunk));
  }

  lemma MoreMemory(a: Values, b: Values, dst: Backend, defaults: Values)
    requires Below(a, b) && NonNegative(a) && NonNegative(b) && NonNegative(defaults)
    ensures 0 <= OneTransfer(a, dst, defaults) <= OneTransfer(b, dst, defaults)
  {
    MoreTransferMemory(Effective(a, dst, defaults), Effective(b, dst, defaults), dst);
  }

  /** Other settings than the transfers decide what one transfer needs. */
  lemma SameTransferMemory(a: Values, b: Values, dst: Backend, defaults: Values)
    requires forall n: Name :: n != Transfers ==> (n in a <==> n in b) && (n in a ==> a[n] == b[n])
    ensures OneTransfer(a, dst, defaults) == OneTransfer(b, dst, defaults)
  {
    var x, y := Effective(a, dst, defaults), Effective(b, dst, defaults);
    assert forall n: Name :: n != Transfers ==> Value(x, n) == Value(y, n);
  }

  /** The most transfers that fit a budget. */
  lemma MostThatFit(budget: int, one: int, most: int)
    requires budget >= 0 && one > 0 && most == budget / one
    ensures most * one <= budget < (most + 1) * one && most >= 0
  {
  }

  lemma FewerThan(budget: int, one: int, transfers: int)
    requires budget >= 0 && one > 0 && transfers * one > budget
    ensures budget / one < transfers
  {
    MostThatFit(budget, one, budget / one);
    if transfers <= budget / one {
      ProductGrows(Max(transfers, 0), one, budget / one, one);
    }
  }

  // ---------------------------------------------------------------- one preset

  /** Something besides the transfers was lowered. */
  predicate Lowered(values: Values, start: Values) {
    exists n :: n in start && n in values && n != Transfers && values[n] < start[n]
  }

  /** The transfers of a job with these overrides. */
  function TransfersOf(values: Values, dst: Backend, t: Settings): int {
    Value(Effective(values, dst, t.defaults), Transfers)
  }

  /** The transfers are as before, or as many as fit. */
  predicate TransfersFit(values: Values, start: Values, dst: Backend, t: Settings) {
    || ((Transfers in values <==> Transfers in start) && (Transfers in start ==> values[Transfers] == start[Transfers]))
    || (Transfers in values && OneTransfer(values, dst, t.defaults) > 0
        && 1 <= values[Transfers] < TransfersOf(start, dst, t)
        && values[Transfers] == t.budget / OneTransfer(values, dst, t.defaults))
  }

  predicate Rest(values: Values, start: Values) {
    && values.Keys - {Transfers} == start.Keys - {Transfers}
    && forall n :: n in start && n in values && n != Transfers ==> Floor(n, start[n]) <= values[n] <= start[n]
  }

  /**
   What fit_preset returns. None exactly if not even one transfer at the floors fits; else values
   that fit, from the floors up to the preset within the caps, whose transfers are the preset's or
   the most that fit; settings other than the transfers only lowered if fewer than 8 transfers
   would fit otherwise; and `reduced` exactly if they are not the preset's own.
   */
  ghost predicate Fitted(target: Values, dst: Backend, t: Settings, fitted: Option<Values>, reduced: bool) {
    var start := Start(target, dst, t.caps);
    if start == map[] then fitted == Some(map[]) && !reduced
    else
      && (fitted.None? <==> OneTransfer(Floors(start), dst, t.defaults) > t.budget)
      && (reduced <==> fitted != Some(Applying(target, dst)))
      && (fitted.Some? ==>
        && Needed(fitted.value, dst, t.defaults) <= t.budget
        && Rest(fitted.value, start)
        && TransfersFit(fitted.value, start, dst, t)
        && (Lowered(fitted.value, start) ==>
              t.budget < Min(8, TransfersOf(start, dst, t)) * OneTransfer(start, dst, t.defaults)))
  }

  /** The first k parameters have been looked at. */
  ghost predicate Upto(values: Values, target: Values, dst: Backend, caps: Caps, k: nat)
    requires k <= |PARAMS|
  {
    && (forall n :: n in values <==> n in PARAMS[..k] && n in target && Applies(n, dst))
    && (forall n :: n in values ==> values[n] == Clamp(n, target[n], caps))
  }

  lemma UptoMore(values: Values, target: Values, dst: Backend, caps: Caps, k: nat)
    requires k < |PARAMS| && Upto(values, target, dst, caps, k)
    ensures var n := PARAMS[k];
      && n !in values
      && Upto(if n in target && Applies(n, dst) then values[n := Clamp(n, target[n], caps)] else values,
              target, dst, caps, k + 1)
  {
    hide Applies, Clamp;
    assert PARAMS[..k+1] == PARAMS[..k] + [PARAMS[k]];
    Once(k);
  }

  lemma Once(k: nat)
    requires k < |PARAMS|
    ensures PARAMS[k] !in PARAMS[..k]
  {
  }

  lemma UptoAll(values: Values, target: Values, dst: Backend, caps: Caps)
    requires Upto(values, target, dst, caps, |PARAMS|)
    ensures values == Start(target, dst, caps)
  {
    hide Applies, Clamp;
    assert PARAMS[..|PARAMS|] == PARAMS;
    forall n: Name
      ensures n in PARAMS
    {
      AllParams(n);
    }
  }

  /** Some value is not the preset's own. */
  predicate Clamped(values: Values, target: Values) {
    exists n :: n in values && n in target && values[n] != target[n]
  }

  lemma ClampedMore(values: Values, target: Values, n: Name, value: int)
    requires n !in values && n in target
    ensures Clamped(values[n := value], target) <==> Clamped(values, target) || value != target[n]
  {
    var more := values[n := value];
    assert n in more && forall m :: m in values ==> m in more && more[m] == values[m];
  }

  lemma ClampedIs(target: Values, dst: Backend, caps: Caps)
    ensures Clamped(Start(target, dst, caps), target) <==> Start(target, dst, caps) != Applying(target, dst)
  {
    hide Applies, Clamp;
    var start, applying := Start(target, dst, caps), Applying(target, dst);
    assert start.Keys == applying.Keys;
    if !Clamped(start, target) { assert forall n :: n in start ==> start[n] == applying[n]; }
  }

  method StartPreset(target: Values, dst: Backend, caps: Caps) returns (values: Values, reduced: bool)
    ensures values == Start(target, dst, caps)
    ensures reduced <==> values != Applying(target, dst)
  {
    hide Upto, Clamped, Start, Applying;
    values, reduced := map[], false;
    NothingYet(target, dst, caps);
    var k := 0;
    while k < |PARAMS|
      invariant 0 <= k <= |PARAMS|
      invariant Upto(values, target, dst, caps, k)
      invariant reduced <==> Clamped(values, target)
    {
      var n := PARAMS[k];
      UptoMore(values, target, dst, caps, k);
      if n in target && Applies(n, dst) {
        var value := target[n];
        if CapOf(n).Some? && value > caps.Of(CapOf(n).value) {
          value := caps.Of(CapOf(n).value);
          reduced := true;
        }
        ClampedMore(values, target, n, value);
        values := values[n := value];
      }
      k := k + 1;
    }
    UptoAll(values, target, dst, caps);
    ClampedIs(target, dst, caps);
  }

  lemma NothingYet(target: Values, dst: Backend, caps: Caps)
    ensures Upto(map[], target, dst, caps, 0) && !Clamped(map[], target)
  {
  }

  /** What can still be halved. */
  function Weight(values: Values, dst: Backend): nat {
    Max(0, Get(values, ChunkOf(dst))) + Max(0, Get(values, Some(Streams))) + Max(0, Get(values, ConcurrencyOf(dst)))
  }

  /** Something is lower, and nothing below its floor. */
  predicate Step(before: Values, after: Values) {
    Between(after, before) && exists n :: n in before && n in after && after[n] < before[n]
  }

  lemma LowerOne(values: Values, lower: Values, n: Name, value: int, dst: Backend)
    requires Between(lower, values) && n in lower && Floor(n, lower[n]) <= value < lower[n] && 0 < lower[n]
    requires Some(n) in [ChunkOf(dst), Some(Streams), ConcurrencyOf(dst)]
    ensures Step(values, lower[n := value]) && Weight(lower[n := value], dst) < Weight(lower, dst)
  {
    var next := lower[n := value];
    assert Floor(n, values[n]) <= Floor(n, lower[n]);
    assert next[n] < values[n];
    forall m: Name
      ensures Get(next, Some(m)) == if m == n then value else Get(lower, Some(m))
    {
    }
  }

  lemma BetweenSelf(values: Values)
    ensures Between(values, values)
  {
  }

  lemma StepIsBetween(before: Values, after: Values)
    requires Step(before, after)
    ensures Between(after, before)
  {
  }

  /** Halves the chunk size, else the streams and the concurrency, down to their floors. */
  method HalveOnce(values: Values, dst: Backend) returns (lower: Values, halved: bool)
    ensures halved ==> Step(values, lower) && Weight(lower, dst) < Weight(values, dst)
    ensures !halved ==> lower == values && Get(values, ChunkOf(dst)) <= FLOOR_CHUNK
    ensures !halved ==> Get(values, Some(Streams)) <= FLOOR_STREAMS && Get(values, ConcurrencyOf(dst)) <= FLOOR_STREAMS
  {
    hide Step, Weight, Between;
    lower, halved := values, false;
    BetweenSelf(values);
    var chunk := ChunkOf(dst);
    if Get(values, chunk) > FLOOR_CHUNK {
      lower := values[chunk.value := Max(Max(FLOOR_CHUNK, Lo(chunk.value)), values[chunk.value] / 2)];
      LowerOne(values, values, chunk.value, lower[chunk.value], dst);
      return lower, true;
    }
    var names := [Some(Streams), ConcurrencyOf(dst)];
    var k := 0;
    while k < |names|
      invariant 0 <= k <= |names|
      invariant k > 0 ==> halved || Get(values, names[0]) <= FLOOR_STREAMS
      invariant k > 1 ==> halved || Get(values, names[1]) <= FLOOR_STREAMS
      invariant Between(lower, values)
      invariant if halved then Step(values, lower) && Weight(lower, dst) < Weight(values, dst) else lower == values
    {
      if Get(lower, names[k]) > FLOOR_STREAMS {
        var n := names[k].value;
        LowerOne(values, lower, n, Max(FLOOR_STREAMS, lower[n] / 2), dst);
        lower := lower[n := Max(FLOOR_STREAMS, lower[n] / 2)];
        StepIsBetween(values, lower);
        halved := true;
      }
      k := k + 1;
    }
  }

  method FitPreset(target: Values, dst: Backend, t: Settings) returns (fitted: Option<Values>, reduced: bool)
    requires t.Valid() && InBounds(target)
    ensures Fitted(target, dst, t, fitted, reduced)
  {
    hide Fitted, Needed, OneTransfer, TransfersOf, Applying, Start;
    hide Between, InBounds, Settings.Valid, Floors, Step, Weight;
    var values;
    values, reduced := StartPreset(target, dst, t.caps);
    if |values| == 0 {
      EmptyPreset(target, dst, t);
      return Some(values), reduced;
    }
    ghost var start := values;
    var transfers := TransfersOf(values, dst, t);
    StartOk(target, dst, t);
    while Needed(values, dst, t.defaults) > t.budget
      invariant Between(values, start)
      invariant reduced <==> values != Applying(target, dst)
      invariant values != start ==> t.budget < Min(8, transfers) * OneTransfer(start, dst, t.defaults)
      decreases Weight(values, dst)
    {
      reduced := true;
      LoopOk(values, start, dst, t);
      var fitting := t.budget / OneTransfer(values, dst, t.defaults);
      if fitting >= Min(8, transfers) {
        TakeTransfers(target, values, start, fitting, dst, t);
        return Some(values[Transfers := fitting]), true;
      }
      NotEnough(values, start, transfers, dst, t);
      var lower, halved := HalveOnce(values, dst);
      if halved {
        StepBetween(target, values, lower, start, dst, t);
        values := lower;
        continue;
      }
      AtTheFloors(values, start, dst, target, t.caps);
      if fitting < 1 {
        NoneFits(target, values, dst, t);
        return None, true;
      }
      TakeTransfers(target, values, start, fitting, dst, t);
      return Some(values[Transfers := fitting]), true;
    }
    FitsAlready(target, values, start, dst, t);
    fitted := Some(values);
  }

  // ---------------------------------------------------------------- the steps of fitting

  lemma EmptyPreset(target: Values, dst: Backend, t: Settings)
    requires Start(target, dst, t.caps) == map[]
    ensures Applying(target, dst) == map[] && Fitted(target, dst, t, Some(map[]), false)
  {
    assert Applying(target, dst).Keys == Start(target, dst, t.caps).Keys;
  }

  lemma StartOk(target: Values, dst: Backend, t: Settings)
    requires t.Valid() && InBounds(target)
    ensures var start := Start(target, dst, t.caps);
      InBounds(start) && Below(start, Applying(target, dst)) && Between(start, start)
  {
  }

  lemma DefaultsNonNegative(values: Values)
    requires InBounds(values)
    ensures NonNegative(values)
  {
  }

  lemma BetweenNonNegative(values: Values, start: Values)
    requires InBounds(start) && Between(values, start)
    ensures NonNegative(values) && NonNegative(start) && NonNegative(Floors(start))
    ensures Below(Floors(start), values) && Below(values, start)
  {
  }

  /** In the loop one transfer needs memory, and there is more than one. */
  lemma LoopOk(values: Values, start: Values, dst: Backend, t: Settings)
    requires t.Valid() && InBounds(start) && Between(values, start) && Needed(values, dst, t.defaults) > t.budget
    ensures OneTransfer(values, dst, t.defaults) > 0
    ensures TransfersOf(values, dst, t) == TransfersOf(start, dst, t) >= 1
    ensures t.budget / OneTransfer(values, dst, t.defaults) < TransfersOf(values, dst, t)
  {
    BetweenNonNegative(values, start);
    DefaultsNonNegative(t.defaults);
    MoreMemory(values, start, dst, t.defaults);
    var one, transfers := OneTransfer(values, dst, t.defaults), TransfersOf(values, dst, t);
    assert Needed(values, dst, t.defaults) == transfers * one;
    SameTransfers(values, start, dst, t);
    assert one == 0 ==> transfers * one == 0;
    FewerThan(t.budget, one, transfers);
  }

  lemma SameTransfers(values: Values, start: Values, dst: Backend, t: Settings)
    requires InBounds(t.defaults) && InBounds(start) && Between(values, start)
    ensures TransfersOf(values, dst, t) == TransfersOf(start, dst, t) >= 1
  {
    assert Transfers in start ==> Floor(Transfers, start[Transfers]) <= values[Transfers] <= start[Transfers];
  }

  lemma NotEnough(values: Values, start: Values, transfers: int, dst: Backend, t: Settings)
    requires t.Valid() && InBounds(start) && Between(values, start) && transfers >= 1
    requires OneTransfer(values, dst, t.defaults) > 0
    requires t.budget / OneTransfer(values, dst, t.defaults) < Min(8, transfers)
    ensures t.budget < Min(8, transfers) * OneTransfer(start, dst, t.defaults)
  {
    BetweenNonNegative(values, start);
    DefaultsNonNegative(t.defaults);
    MoreMemory(values, start, dst, t.defaults);
    var one := OneTransfer(values, dst, t.defaults);
    MostThatFit(t.budget, one, t.budget / one);
    ProductGrows(t.budget / one + 1, one, Min(8, transfers), OneTransfer(start, dst, t.defaults));
  }

  lemma StepBetween(target: Values, before: Values, after: Values, start: Values, dst: Backend, t: Settings)
    requires t.Valid() && InBounds(target) && start == Start(target, dst, t.caps) && Between(before, start)
    requires Step(before, after)
    ensures Between(after, start) && after != Applying(target, dst) && after != start
  {
    StartOk(target, dst, t);
    var n :| n in before && n in after && after[n] < before[n];
    assert before[n] <= start[n] <= Applying(target, dst)[n];
    forall m | m in start
      ensures Floor(m, start[m]) <= after[m] <= start[m]
    {
      assert Floor(m, start[m]) <= before[m] <= start[m] && Floor(m, before[m]) <= after[m] <= before[m];
    }
  }

  /** When nothing can be halved any more the values are at their floors. */
  lemma AtTheFloors(values: Values, start: Values, dst: Backend, target: Values, caps: Caps)
    requires start == Start(target, dst, caps) && Between(values, start)
    requires Get(values, ChunkOf(dst)) <= FLOOR_CHUNK && Get(values, Some(Streams)) <= FLOOR_STREAMS
    requires Get(values, ConcurrencyOf(dst)) <= FLOOR_STREAMS
    ensures values == Floors(start)
  {
    forall n | n in start
      ensures values[n] == Floor(n, start[n])
    {
      assert Applies(n, dst) && Floor(n, start[n]) <= values[n] <= start[n];
    }
  }

  lemma NoneFits(target: Values, values: Values, dst: Backend, t: Settings)
    requires t.Valid() && values == Floors(Start(target, dst, t.caps)) && Start(target, dst, t.caps) != map[]
    requires OneTransfer(values, dst, t.defaults) > 0 && t.budget / OneTransfer(values, dst, t.defaults) < 1
    ensures Fitted(target, dst, t, None, true)
  {
    var one := OneTransfer(values, dst, t.defaults);
    MostThatFit(t.budget, one, t.budget / one);
    ProductGrows(t.budget / one + 1, one, 1, one);
  }

  /** At or above the floors, what fits shows that one transfer at the floors fits. */
  lemma FloorsFit(values: Values, start: Values, transfers: int, dst: Backend, t: Settings)
    requires t.Valid() && InBounds(start) && Between(values, start)
    requires transfers >= 1 && transfers * OneTransfer(values, dst, t.defaults) <= t.budget
    ensures OneTransfer(Floors(start), dst, t.defaults) <= t.budget
  {
    BetweenNonNegative(values, start);
    DefaultsNonNegative(t.defaults);
    MoreMemory(Floors(start), values, dst, t.defaults);
    ProductGrows(1, OneTransfer(values, dst, t.defaults), transfers, OneTransfer(values, dst, t.defaults));
  }

  lemma FitsAlready(target: Values, values: Values, start: Values, dst: Backend, t: Settings)
    requires t.Valid() && InBounds(target) && start == Start(target, dst, t.caps)
    requires start != map[] && Between(values, start)
    requires Needed(values, dst, t.defaults) <= t.budget
    requires values != start ==> t.budget < Min(8, TransfersOf(start, dst, t)) * OneTransfer(start, dst, t.defaults)
    ensures Fitted(target, dst, t, Some(values), values != Applying(target, dst))
  {
    StartOk(target, dst, t);
    SameTransfers(values, start, dst, t);
    FloorsFit(values, start, TransfersOf(values, dst, t), dst, t);
    assert Transfers in start ==> Floor(Transfers, start[Transfers]) == start[Transfers];
  }

  lemma TakeTransfers(target: Values, values: Values, start: Values, fitting: int, dst: Backend, t: Settings)
    requires t.Valid() && InBounds(target) && start == Start(target, dst, t.caps)
    requires start != map[] && Between(values, start)
    requires OneTransfer(values, dst, t.defaults) > 0 && fitting == t.budget / OneTransfer(values, dst, t.defaults)
    requires 1 <= fitting < TransfersOf(values, dst, t)
    requires values != start ==> t.budget < Min(8, TransfersOf(start, dst, t)) * OneTransfer(start, dst, t.defaults)
    ensures Fitted(target, dst, t, Some(values[Transfers := fitting]), true)
  {
    var r, one := values[Transfers := fitting], OneTransfer(values, dst, t.defaults);
    hide OneTransfer, Effective, Floors, Start, Applying;
    StartOk(target, dst, t);
    SameTransfers(values, start, dst, t);
    SameTransferMemory(r, values, dst, t.defaults);
    MostThatFit(t.budget, one, fitting);
    FloorsFit(values, start, fitting, dst, t);
    NeededBy(r, dst, t);
    TransfersLower(target, values, fitting, start, dst, t);
    RestOf(values, start, fitting);
    hide Rest, Lowered, Between, InBounds;
    assert TransfersFit(r, start, dst, t);
  }

  lemma NeededBy(values: Values, dst: Backend, t: Settings)
    requires Transfers in values
    ensures Needed(values, dst, t.defaults) == values[Transfers] * OneTransfer(values, dst, t.defaults)
  {
    assert Value(Effective(values, dst, t.defaults), Transfers) == values[Transfers];
  }

  lemma RestOf(values: Values, start: Values, fitting: int)
    requires Between(values, start)
    ensures Rest(values[Transfers := fitting], start)
    ensures Lowered(values[Transfers := fitting], start) ==> values != start
  {
    assert (values[Transfers := fitting]).Keys == values.Keys + {Transfers};
  }

  lemma TransfersLower(target: Values, values: Values, fitting: int, start: Values, dst: Backend, t: Settings)
    requires t.Valid() && InBounds(target) && start == Start(target, dst, t.caps) && Between(values, start)
    requires fitting < TransfersOf(values, dst, t)
    ensures values[Transfers := fitting] != Applying(target, dst)
  {
    StartOk(target, dst, t);
    var r, applying := values[Transfers := fitting], Applying(target, dst);
    assert Transfers in r && r[Transfers] == fitting;
    if Transfers in applying {
      assert Transfers in start && Transfers in values && values[Transfers] <= start[Transfers] <= applying[Transfers];
      assert TransfersOf(values, dst, t) == values[Transfers];
    }
  }
}
