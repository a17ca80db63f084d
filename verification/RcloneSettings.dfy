/**
 The server's settings (rclone_tuning.load_settings): read from the environment, completed with
 Motuz's own defaults as far as they fit.
 */
module RcloneSettings {
  import opened Bounds
  import opened Options
  import opened SizeText
  import opened RcloneTuning

  // ---------------------------------------------------------------- Motuz's defaults

  const MOTUZ: Values := map[Transfers := 64, Checkers := 128, S3Concurrency := 8, S3Chunk := 16 * MIB]

  /** MOTUZ_DEFAULTS in the order they are added. */
  const MOTUZ_NAMES: seq<Name> := [Transfers, Checkers, S3Concurrency, S3Chunk]

  /** The defaults' estimate is within the budget for every type of destination. */
  predicate Fits(values: Values, budget: int) {
    && Estimate(values, S3) <= budget && Estimate(values, Azureblob) <= budget && Estimate(values, Elsewhere) <= budget
  }

  /** The names the environment leaves unset. */
  predicate Unset(n: Name, defaults: Values) {
    n in MOTUZ && n !in defaults
  }

  function Added(defaults: Values, caps: Caps): Values {
    map n: Name | n in defaults || n in MOTUZ :: if n in defaults then defaults[n] else Clamp(n, MOTUZ[n], caps)
  }

  /** One halving of `n`; the checkers go with the transfers. */
  function Halve(added: Values, n: Name, defaults: Values): Values
    requires n in added
  {
    var half := added[n := added[n] / 2];
    if n == Transfers && Unset(Checkers, defaults) then half[Checkers := Max(half[Transfers] * 2, 32)] else half
  }

  predicate Halves(added: Values, n: Name, floor: int, defaults: Values, budget: int)
    requires n in added
  {
    !Fits(added, budget) && Unset(n, defaults) && added[n] / 2 >= floor
  }

  /** The while loop for one name. */
  function HalveDown(added: Values, n: Name, floor: int, defaults: Values, budget: int): Values
    requires n in added && floor >= 1
    decreases added[n]
  {
    if Halves(added, n, floor, defaults, budget) then HalveDown(Halve(added, n, defaults), n, floor, defaults, budget)
    else added
  }

  const FLOORS: seq<(Name, int)> := [(S3Concurrency, 4), (Transfers, 16), (S3Concurrency, 4), (Transfers, 16)]

  function HalveAll(added: Values, steps: seq<(Name, int)>, defaults: Values, budget: int): Values
    requires forall s :: s in steps ==> s.0 in added && s.1 >= 1
    decreases |steps|
  {
    if steps == [] then added
    else
      var next := HalveDown(added, steps[0].0, steps[0].1, defaults, budget);
      DownKeeps(added, steps[0].0, steps[0].1, defaults, budget);
      HalveAll(next, steps[1..], defaults, budget)
  }

  /** `r` is `added`, or has a lower value of `n`, not below the floor, and its checkers. */
  ghost predicate Lowers(added: Values, r: Values, n: Name, floor: int, defaults: Values) {
    && n in added && n in r && added.Keys <= r.Keys && (Checkers in added ==> r.Keys == added.Keys)
    && (forall m :: m in added && (m in defaults || (m != n && (m != Checkers || n != Transfers))) ==> r[m] == added[m])
    && (r[n] == added[n] ==> r == added)
    && (r[n] != added[n] ==> floor <= r[n] < added[n] && Unset(n, defaults))
    && (r[n] != added[n] && n == Transfers && Unset(Checkers, defaults) ==>
          Checkers in r && r[Checkers] == Max(r[n] * 2, 32))
  }

  /** A halving and what lowers it further. */
  lemma LowersFirst(added: Values, r: Values, n: Name, floor: int, defaults: Values)
    requires n in added && floor >= 1 && Unset(n, defaults) && added[n] / 2 >= floor
    requires Lowers(Halve(added, n, defaults), r, n, floor, defaults)
    ensures Lowers(added, r, n, floor, defaults)
  {
    var half := Halve(added, n, defaults);
    assert half[n] == added[n] / 2 < added[n];
    assert forall m :: m in added && (m in defaults || (m != n && (m != Checkers || n != Transfers))) ==>
      half[m] == added[m];
  }

  lemma LowersNone(added: Values, n: Name, floor: int, defaults: Values)
    requires n in added
    ensures Lowers(added, added, n, floor, defaults)
  {
  }

  lemma {:induction false} DownKeeps(added: Values, n: Name, floor: int, defaults: Values, budget: int)
    requires n in added && floor >= 1
    ensures var r := HalveDown(added, n, floor, defaults, budget);
      && Lowers(added, r, n, floor, defaults)
      && !Halves(r, n, floor, defaults, budget) && (Fits(added, budget) ==> r == added)
    decreases added[n]
  {
    hide Fits, Lowers, Halve;
    if Halves(added, n, floor, defaults, budget) {
      HalfIsLess(added, n, defaults);
      DownKeeps(Halve(added, n, defaults), n, floor, defaults, budget);
      LowersFirst(added, HalveDown(added, n, floor, defaults, budget), n, floor, defaults);
    } else {
      LowersNone(added, n, floor, defaults);
    }
    LowersHas(added, HalveDown(added, n, floor, defaults, budget), n, floor, defaults);
  }

  lemma HalfIsLess(added: Values, n: Name, defaults: Values)
    requires n in added && added[n] / 2 >= 1
    ensures n in Halve(added, n, defaults) && 0 <= Halve(added, n, defaults)[n] < added[n]
  {
  }

  lemma LowersHas(added: Values, r: Values, n: Name, floor: int, defaults: Values)
    requires Lowers(added, r, n, floor, defaults)
    ensures n in r
  {
  }

  /** _add_motuz_defaults: dropped if even the halved values do not fit. */
  function Completed(defaults: Values, caps: Caps, budget: int): Values {
    var r := Lowest(defaults, caps, budget);
    if Fits(r, budget) then r else defaults
  }

  function Lowest(defaults: Values, caps: Caps, budget: int): Values {
    HalveAll(Added(defaults, caps), FLOORS, defaults, budget)
  }

  method AddMotuzDefaults(defaults: Values, caps: Caps, budget: int) returns (r: Values)
    ensures r == Completed(defaults, caps, budget)
  {
    hide Fits;
    var added := AddUnset(defaults, caps);
    var k := 0;
    while k < |FLOORS|
      invariant 0 <= k <= |FLOORS|
      invariant Transfers in added && S3Concurrency in added
      invariant HalveAll(added, FLOORS[k..], defaults, budget) == Lowest(defaults, caps, budget)
    {
      var (name, floor) := FLOORS[k];
      assert FLOORS[k..][0] == FLOORS[k] && FLOORS[k..][1..] == FLOORS[k+1..];
      ghost var before := added;
      DownKeeps(before, name, floor, defaults, budget);
      while !Fits(added, budget) && Unset(name, defaults) && added[name] / 2 >= floor
        invariant name in added
        invariant HalveDown(added, name, floor, defaults, budget) == HalveDown(before, name, floor, defaults, budget)
        decreases added[name]
      {
        added := added[name := added[name] / 2];
        if name == Transfers && Unset(Checkers, defaults) {
          added := added[Checkers := Max(added[Transfers] * 2, 32)];
        }
      }
      k := k + 1;
    }
    r := if Fits(added, budget) then added else defaults;
  }

  method AddUnset(defaults: Values, caps: Caps) returns (added: Values)
    ensures added == Added(defaults, caps)
  {
    added := defaults;
    var k := 0;
    while k < |MOTUZ_NAMES|
      invariant 0 <= k <= |MOTUZ_NAMES|
      invariant forall n :: n in added <==> n in defaults || n in MOTUZ_NAMES[..k]
      invariant forall n :: n in added ==> added[n] == if n in defaults then defaults[n] else Clamp(n, MOTUZ[n], caps)
    {
      var n := MOTUZ_NAMES[k];
      assert MOTUZ_NAMES[..k+1] == MOTUZ_NAMES[..k] + [n];
      assert n in MOTUZ;
      if n !in defaults { added := added[n := Clamp(n, MOTUZ[n], caps)]; }
      k := k + 1;
    }
    assert MOTUZ_NAMES[0] == Transfers && MOTUZ_NAMES[1] == Checkers
      && MOTUZ_NAMES[2] == S3Concurrency && MOTUZ_NAMES[3] == S3Chunk;
  }

  // ---------------------------------------------------------------- what the defaults are

  /** After the S3 upload concurrency; the transfers are lowered next. */
  function FirstLowered(defaults: Values, caps: Caps, budget: int): Values {
    HalveDown(Added(defaults, caps), S3Concurrency, 4, defaults, budget)
  }

  /** Each name is halved once: the second round finds nothing left to halve. */
  lemma LowestIs(defaults: Values, caps: Caps, budget: int)
    ensures var first := FirstLowered(defaults, caps, budget);
      Transfers in first && Lowest(defaults, caps, budget) == HalveDown(first, Transfers, 16, defaults, budget)
  {
    hide Fits, HalveDown;
    var added := Added(defaults, caps);
    DownKeeps(added, S3Concurrency, 4, defaults, budget);
    var first := FirstLowered(defaults, caps, budget);
    DownKeeps(first, Transfers, 16, defaults, budget);
    var second := HalveDown(first, Transfers, 16, defaults, budget);
    assert !Halves(second, S3Concurrency, 4, defaults, budget);
    DownKeeps(second, S3Concurrency, 4, defaults, budget);
    Still(second, S3Concurrency, 4, defaults, budget);
    Still(second, Transfers, 16, defaults, budget);
    assert FLOORS[1..][1..][1..][1..] == [];
    assert FLOORS[1..][0] == FLOORS[1] && FLOORS[1..][1..][0] == FLOORS[2] && FLOORS[1..][1..][1..][0] == FLOORS[3];
  }

  lemma Still(added: Values, n: Name, floor: int, defaults: Values, budget: int)
    requires n in added && floor >= 1 && !Halves(added, n, floor, defaults, budget)
    ensures HalveDown(added, n, floor, defaults, budget) == added
  {
  }

  /** A value is what it started from, or was halved, not below its floor. */
  predicate Stops(value: int, start: int, floor: int) {
    value == start || floor <= value < start
  }

  /** The transfers are halved: the values do not fit with the concurrency at its floor. */
  predicate TransfersHalved(defaults: Values, caps: Caps, budget: int) {
    !Fits(FirstLowered(defaults, caps, budget), budget) && Unset(Transfers, defaults)
    && Min(64, caps.transfers) / 2 >= 16
  }

  /** What the defaults are completed with, when the lowered values are used. */
  lemma LowestMeans(defaults: Values, caps: Caps, budget: int)
    ensures var r := Lowest(defaults, caps, budget);
      && r.Keys == defaults.Keys + MOTUZ.Keys
      && (forall n :: n in defaults ==> r[n] == defaults[n])
      && (S3Chunk !in defaults ==> r[S3Chunk] == 16 * MIB)
      && (S3Concurrency !in defaults ==> Stops(r[S3Concurrency], Min(8, caps.concurrency), 4))
      && (Transfers !in defaults ==> Stops(r[Transfers], Min(64, caps.transfers), 16))
      && (Transfers !in defaults ==>
            (r[Transfers] < Min(64, caps.transfers) <==> TransfersHalved(defaults, caps, budget)))
      && (Checkers !in defaults && TransfersHalved(defaults, caps, budget) ==> r[Checkers] == Max(2 * r[Transfers], 32))
      && (Checkers !in defaults && !TransfersHalved(defaults, caps, budget) ==> r[Checkers] == Min(128, caps.checkers))
      && (!Fits(r, budget) ==>
            (S3Concurrency in defaults || r[S3Concurrency] < 8) && (Transfers in defaults || r[Transfers] < 32))
  {
    hide Fits, HalveDown, Lowest;
    LowestIs(defaults, caps, budget);
    var added, first := Added(defaults, caps), FirstLowered(defaults, caps, budget);
    DownKeeps(added, S3Concurrency, 4, defaults, budget);
    DownKeeps(first, Transfers, 16, defaults, budget);
    if Transfers !in defaults { HalvedIff(first, defaults, budget); }
  }

  lemma HalvedIff(first: Values, defaults: Values, budget: int)
    requires Transfers in first && Unset(Transfers, defaults)
    ensures var r := HalveDown(first, Transfers, 16, defaults, budget);
      Transfers in r && (r[Transfers] < first[Transfers] <==> Halves(first, Transfers, 16, defaults, budget))
  {
    hide Fits;
    DownKeeps(first, Transfers, 16, defaults, budget);
    if Halves(first, Transfers, 16, defaults, budget) {
      DownKeeps(Halve(first, Transfers, defaults), Transfers, 16, defaults, budget);
    }
  }

  /**
   If the environment's values fit with rclone's defaults, the completed defaults fit for every
   type of destination; they keep the environment's values, and are dropped only if the values do
   not fit with concurrency and transfers at their floors.
   */
  lemma CompletedFits(defaults: Values, caps: Caps, budget: int)
    ensures var r := Completed(defaults, caps, budget);
      && (Fits(defaults, budget) ==> Fits(r, budget))
      && (forall n :: n in defaults ==> n in r && r[n] == defaults[n])
      && (r != defaults ==> Fits(r, budget) && r == Lowest(defaults, caps, budget))
  {
    LowestMeans(defaults, caps, budget);
  }

  /** One halving at most lowers the concurrency to its floor. */
  lemma FirstLoweredIs(defaults: Values, caps: Caps, budget: int)
    ensures var added := Added(defaults, caps);
      S3Concurrency in added && FirstLowered(defaults, caps, budget) ==
        if Halves(added, S3Concurrency, 4, defaults, budget) then Halve(added, S3Concurrency, defaults) else added
  {
    hide Fits;
    var added := Added(defaults, caps);
    if Halves(added, S3Concurrency, 4, defaults, budget) {
      Still(Halve(added, S3Concurrency, defaults), S3Concurrency, 4, defaults, budget);
    } else {
      Still(added, S3Concurrency, 4, defaults, budget);
    }
  }

  /** The transfers once halved. */
  function HalfTransfers(caps: Caps): int {
    Min(64, caps.transfers) / 2
  }

  /** A second halving of the transfers is neither possible nor needed. */
  predicate HalvedOnce(defaults: Values, caps: Caps, budget: int) {
    var first := FirstLowered(defaults, caps, budget);
    HalfTransfers(caps) < 32 || (Transfers in first && Fits(Halve(first, Transfers, defaults), budget))
  }

  lemma HalvedTransfers(defaults: Values, caps: Caps, budget: int)
    requires TransfersHalved(defaults, caps, budget)
    ensures var r := Lowest(defaults, caps, budget);
      Transfers in r && r[Transfers] == if HalvedOnce(defaults, caps, budget) then HalfTransfers(caps) else 16
  {
    hide Fits, Lowest;
    LowestIs(defaults, caps, budget);
    var first := FirstLowered(defaults, caps, budget);
    DownKeeps(Added(defaults, caps), S3Concurrency, 4, defaults, budget);
    assert first[Transfers] == Min(64, caps.transfers);
    TwoHalvings(first, defaults, budget);
  }

  lemma TwoHalvings(first: Values, defaults: Values, budget: int)
    requires Transfers in first && first[Transfers] <= 64 && Halves(first, Transfers, 16, defaults, budget)
    ensures var r, half := HalveDown(first, Transfers, 16, defaults, budget), Halve(first, Transfers, defaults);
      && Transfers in r
      && r[Transfers] == if first[Transfers] / 2 < 32 || Fits(half, budget) then first[Transfers] / 2 else 16
  {
    hide Fits;
    var half := Halve(first, Transfers, defaults);
    assert HalveDown(first, Transfers, 16, defaults, budget) == HalveDown(half, Transfers, 16, defaults, budget);
    if Halves(half, Transfers, 16, defaults, budget) {
      Still(Halve(half, Transfers, defaults), Transfers, 16, defaults, budget);
    } else {
      Still(half, Transfers, 16, defaults, budget);
    }
  }

  /**
   The default checkers are above their cap exactly if the transfers have to be halved and twice
   as many as then fit, or 32 if that takes a second halving, is above it; with a cap of 64 or more
   they never are.
   */
  lemma CheckersAboveCap(defaults: Values, caps: Caps, budget: int)
    requires caps.Valid() && Checkers !in defaults && Checkers in Completed(defaults, caps, budget)
    ensures var r := Completed(defaults, caps, budget);
      && (!BelowCap(Checkers, r[Checkers], caps) <==>
            && TransfersHalved(defaults, caps, budget)
            && caps.checkers < if HalvedOnce(defaults, caps, budget) then 2 * HalfTransfers(caps) else 32)
      && (caps.checkers >= 64 ==> BelowCap(Checkers, r[Checkers], caps))
      && (caps.checkers < 32 ==> (BelowCap(Checkers, r[Checkers], caps) <==> !TransfersHalved(defaults, caps, budget)))
  {
    LowestMeans(defaults, caps, budget);
    if TransfersHalved(defaults, caps, budget) { HalvedTransfers(defaults, caps, budget); }
    hide Fits, Lowest, HalveDown, HalvedOnce;
  }

  function Four(transfers: int, checkers: int, concurrency: int): Values {
    map[Transfers := transfers, Checkers := checkers, S3Concurrency := concurrency, S3Chunk := 16 * MIB]
  }

  lemma FourFit(transfers: int, checkers: int, concurrency: int)
    requires transfers > 0 && concurrency >= 4
    ensures Estimate(Four(transfers, checkers, concurrency), S3) == transfers * (64 * MIB + concurrency * (16 * MIB))
    ensures Estimate(Four(transfers, checkers, concurrency), Azureblob) == transfers * (128 * MIB)
    ensures Estimate(Four(transfers, checkers, concurrency), Elsewhere) == transfers * (64 * MIB)
  {
  }

  /** On a server with a budget of 4 GiB and at most 8 checkers, the default is 64 checkers. */
  lemma CheckersLifted()
    ensures var caps := Caps(128, 8, 32, 64); Completed(map[], caps, 4 * GIB) == Four(32, 64, 4)
  {
    var caps, budget, none: Values := Caps(128, 8, 32, 64), 4 * GIB, map[];
    FourFit(64, 8, 8);
    FourFit(64, 8, 4);
    FourFit(32, 64, 4);
    hide Estimate;
    assert Added(none, caps) == Four(64, 8, 8);
    assert Halve(Four(64, 8, 8), S3Concurrency, none) == Four(64, 8, 4);
    assert Halve(Four(64, 8, 4), Transfers, none) == Four(32, 64, 4);
    LowestIs(none, caps, budget);
    hide Lowest;
    assert FirstLowered(none, caps, budget) == Four(64, 8, 4) by {
      Still(Four(64, 8, 4), S3Concurrency, 4, none, budget);
    }
    Still(Four(32, 64, 4), Transfers, 16, none, budget);
  }

  // ---------------------------------------------------------------- the environment

  /** MOTUZ_RCLONE_*, stripped; a variable that is empty is unset. The rest is left out. */
  datatype Env = Env(caps: map<Cap, string>, budget: Option<string>, values: map<Name, string>, machineBudget: nat)

  const CAPS: seq<Cap> := [MaxTransfers, MaxCheckers, MaxStreams, MaxConcurrency]
  const DEFAULT_CAPS := Caps(128, 256, 32, 64)
  const LOWEST_CAPS := Caps(1, 1, 0, 1)
  const HIGHEST_CAPS := Caps(1024, 1024, 256, 256)

  function CapValue(env: Env, cap: Cap): Option<int> {
    if cap !in env.caps then Some(DEFAULT_CAPS.Of(cap))
    else
      var value := ParseInt(env.caps[cap]);
      if value.Some? && LOWEST_CAPS.Of(cap) <= value.value <= HIGHEST_CAPS.Of(cap) then value else None
  }

  function Budget(env: Env): Option<int> {
    if env.budget.None? then Some(env.machineBudget)
    else
      match ParseSize(env.budget.value)
      case Some(size) => if 64 * MIB <= size <= 64 * TIB then Some(size) else None
      case None => None
  }

  function EnvValue(env: Env, n: Name, caps: Caps): Result<int>
    requires n in env.values
  {
    var parsed := Parse(n, Text(env.values[n]));
    if parsed.Ok? && !BelowCap(n, parsed.value, caps) then Fails(AboveCap(n)) else parsed
  }

  predicate CapsOk(env: Env) {
    forall cap: Cap :: CapValue(env, cap).Some?
  }

  function CapsOf(env: Env): Caps
    requires CapsOk(env)
  {
    Caps(CapValue(env, MaxTransfers).value, CapValue(env, MaxCheckers).value,
         CapValue(env, MaxStreams).value, CapValue(env, MaxConcurrency).value)
  }

  /** Every variable is a number or a size within its bounds and its cap. */
  predicate EnvOk(env: Env) {
    CapsOk(env) && Budget(env).Some? && forall n :: n in env.values ==> EnvValue(env, n, CapsOf(env)).Ok?
  }

  function EnvValues(env: Env): Values
    requires EnvOk(env)
  {
    map n | n in env.values :: EnvValue(env, n, CapsOf(env)).value
  }

  /** A cap: its default, or the whole number in the variable if it is within the cap's own bounds. */
  lemma CapMeans(env: Env, cap: Cap)
    ensures var (lowest, default, highest) := match cap
      case MaxTransfers => (1, 128, 1024)
      case MaxCheckers => (1, 256, 1024)
      case MaxStreams => (0, 32, 256)
      case MaxConcurrency => (1, 64, 256);
      if cap !in env.caps then CapValue(env, cap) == Some(default)
      else
        var read := ParseInt(env.caps[cap]);
        if read.Some? && lowest <= read.value <= highest then CapValue(env, cap) == read else CapValue(env, cap) == None
  {
  }

  /** The budget: the machine's, or the size in the variable from 64 MiB to 64 TiB. */
  lemma BudgetMeans(env: Env)
    ensures if env.budget.None? then Budget(env) == Some(env.machineBudget)
      else
        var read := ParseSize(env.budget.value);
        if read.Some? && 67108864 <= read.value <= 70368744177664 then Budget(env) == Some(read.value)
        else Budget(env) == None
  {
  }

  /** A default of the server: read like a setting of a request, and not above its cap. */
  lemma EnvValueMeans(env: Env, n: Name, caps: Caps, v: int)
    requires n in env.values
    ensures EnvValue(env, n, caps) == Ok(v) <==> (
      && Parse(n, Text(env.values[n])) == Ok(v)
      && (CapOf(n).Some? ==> v <= caps.Of(CapOf(n).value)))
  {
    hide Parse;
  }

  method LoadCaps(env: Env) returns (r: Result<Caps>)
    ensures r.Ok? <==> CapsOk(env)
    ensures r.Ok? ==> r.value == CapsOf(env)
    ensures r.Fails? ==> r.error.BadCap? && CapValue(env, r.error.cap).None?
  {
    var found: map<Cap, int> := map[];
    var k := 0;
    while k < |CAPS|
      invariant 0 <= k <= |CAPS|
      invariant forall j :: 0 <= j < k ==> CAPS[j] in found && CapValue(env, CAPS[j]) == Some(found[CAPS[j]])
    {
      var cap := CAPS[k];
      if cap !in env.caps {
        found := found[cap := DEFAULT_CAPS.Of(cap)];
      } else {
        var value := ParseInt(env.caps[cap]);
        if value.None? || !(LOWEST_CAPS.Of(cap) <= value.value <= HIGHEST_CAPS.Of(cap)) {
          assert CapValue(env, cap).None?;
          return Fails(BadCap(cap));
        }
        found := found[cap := value.value];
      }
      k := k + 1;
    }
    AllCaps(env);
    assert CAPS[0] == MaxTransfers && CAPS[1] == MaxCheckers && CAPS[2] == MaxStreams && CAPS[3] == MaxConcurrency;
    r := Ok(Caps(found[MaxTransfers], found[MaxCheckers], found[MaxStreams], found[MaxConcurrency]));
  }

  lemma AllCaps(env: Env)
    ensures CapsOk(env) <==> forall j :: 0 <= j < |CAPS| ==> CapValue(env, CAPS[j]).Some?
  {
    assert CAPS[0] == MaxTransfers && CAPS[1] == MaxCheckers && CAPS[2] == MaxStreams && CAPS[3] == MaxConcurrency;
    hide CapValue;
    if forall j :: 0 <= j < |CAPS| ==> CapValue(env, CAPS[j]).Some? {
      forall cap: Cap
        ensures CapValue(env, cap).Some?
      {
        match cap
        case MaxTransfers => assert CapValue(env, CAPS[0]).Some?;
        case MaxCheckers => assert CapValue(env, CAPS[1]).Some?;
        case MaxStreams => assert CapValue(env, CAPS[2]).Some?;
        case MaxConcurrency => assert CapValue(env, CAPS[3]).Some?;
      }
    }
  }

  method LoadValues(env: Env, caps: Caps) returns (r: Result<Values>)
    requires CapsOk(env) && caps == CapsOf(env)
    ensures r.Ok? <==> forall n :: n in env.values ==> EnvValue(env, n, caps).Ok?
    ensures r.Ok? ==> r.value == map n | n in env.values :: EnvValue(env, n, caps).value
    ensures r.Fails? ==> exists n :: n in env.values && EnvValue(env, n, caps) == Fails(r.error)
  {
    hide EnvValue;
    var defaults: Values := map[];
    var k := 0;
    while k < |PARAMS|
      invariant 0 <= k <= |PARAMS|
      invariant forall n :: n in defaults <==> n in PARAMS[..k] && n in env.values
      invariant forall n :: n in defaults ==> EnvValue(env, n, caps) == Ok(defaults[n])
    {
      var n := PARAMS[k];
      assert PARAMS[..k+1] == PARAMS[..k] + [n];
      if n in env.values {
        var value := EnvValue(env, n, caps);
        if value.Fails? { return Fails(value.error); }
        defaults := defaults[n := value.value];
      }
      k := k + 1;
    }
    assert PARAMS[..k] == PARAMS;
    forall n | n in env.values
      ensures n in defaults
    {
      AllParams(n);
    }
    r := Ok(defaults);
  }

  /** load_settings; the estimate of the worst type of destination is held against the budget. */
  method LoadSettings(env: Env) returns (r: Result<Settings>)
    ensures !EnvOk(env) ==> r.Fails? && r.error != TooMuchMemory
    ensures EnvOk(env) ==>
      var budget := Budget(env).value; var defaults := Completed(EnvValues(env), CapsOf(env), budget);
      r == if Fits(defaults, budget) then Ok(Settings(defaults, CapsOf(env), budget)) else Fails(TooMuchMemory)
  {
    var caps := LoadCaps(env);
    if caps.Fails? { return Fails(caps.error); }
    var budget := Budget(env);
    if budget.None? { return Fails(BadBudget); }
    var values := LoadValues(env, caps.value);
    if values.Fails? {
      NoMemoryError(env, caps.value);
      return Fails(values.error);
    }
    var defaults := AddMotuzDefaults(values.value, caps.value, budget.value);
    var needed := Max(Max(Estimate(defaults, S3), Estimate(defaults, Azureblob)), Estimate(defaults, Elsewhere));
    if needed > budget.value { return Fails(TooMuchMemory); }
    r := Ok(Settings(defaults, caps.value, budget.value));
  }

  lemma NoMemoryError(env: Env, caps: Caps)
    ensures forall n :: n in env.values && EnvValue(env, n, caps).Fails? ==>
      EnvValue(env, n, caps).error != TooMuchMemory
  {
  }

  /**
   If the environment's values fit with rclone's defaults, loading never fails on memory; and
   whatever is loaded is within its bounds, fits for every type of destination, and lets a job
   without overrides run.
   */
  lemma LoadedFits(env: Env)
    requires EnvOk(env)
    ensures var budget := Budget(env).value;
      var t := Settings(Completed(EnvValues(env), CapsOf(env), budget), CapsOf(env), budget);
      && (Fits(EnvValues(env), budget) ==> Fits(t.defaults, budget))
      && t.Valid() && (forall n :: n in t.defaults && n != Checkers ==> BelowCap(n, t.defaults[n], t.caps))
      && (Fits(t.defaults, budget) ==> forall dst: Backend :: Needed(map[], dst, t.defaults) <= budget)
  {
    var values, caps, budget := EnvValues(env), CapsOf(env), Budget(env).value;
    EnvInBounds(env);
    hide EnvOk, EnvValues, CapsOf, Budget;
    CompletedFits(values, caps, budget);
    CompletedInBounds(values, caps, budget);
    var defaults := Completed(values, caps, budget);
    hide Completed, InBounds, InCaps, Fits, BelowCap, Needed;
    forall dst: Backend
      ensures Fits(defaults, budget) ==> Needed(map[], dst, defaults) <= budget
    {
      NeededNone(defaults, dst);
      if Fits(defaults, budget) { FitsOne(defaults, budget, dst); }
    }
  }

  lemma CompletedInBounds(values: Values, caps: Caps, budget: int)
    requires InBounds(values) && InCaps(values, caps) && caps.Valid()
    ensures var r := Completed(values, caps, budget);
      InBounds(r) && forall n :: n in r && n != Checkers ==> BelowCap(n, r[n], caps)
  {
    LowestMeans(values, caps, budget);
    hide FirstLowered, Fits, Lowest;
    var r := Completed(values, caps, budget);
    forall n | n in r
      ensures Lo(n) <= r[n] <= Hi(n) && (n != Checkers ==> BelowCap(n, r[n], caps))
    {
      if n in values { assert r[n] == values[n]; }
    }
  }

  lemma EnvInBounds(env: Env)
    requires EnvOk(env)
    ensures InBounds(EnvValues(env)) && InCaps(EnvValues(env), CapsOf(env)) && CapsOf(env).Valid()
    ensures Budget(env).value >= 0
  {
    assert forall cap: Cap :: LOWEST_CAPS.Of(cap) <= CapValue(env, cap).value <= HIGHEST_CAPS.Of(cap);
    forall n | n in env.values
      ensures Lo(n) <= EnvValues(env)[n] <= Hi(n) && BelowCap(n, EnvValues(env)[n], CapsOf(env))
    {
      assert EnvValue(env, n, CapsOf(env)).Ok?;
    }
  }

  lemma NeededNone(defaults: Values, dst: Backend)
    ensures Needed(map[], dst, defaults) == Estimate(defaults, dst)
  {
    var e := Effective(map[], dst, defaults);
    assert forall n: Name :: Applies(n, dst) ==> Value(e, n) == Value(defaults, n);
  }

  lemma FitsOne(values: Values, budget: int, dst: Backend)
    requires Fits(values, budget)
    ensures Estimate(values, dst) <= budget
  {
  }
}
