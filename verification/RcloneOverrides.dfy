/** What accepted overrides promise, and when they are accepted again as they were stored. */
module RcloneOverrides {
  import opened Options
  import opened SizeText
  import opened RcloneTuning
  import opened RcloneFit

  /** The keys of a JSON object are distinct. */
  predicate Object(raw: seq<(Key, Raw)>) {
    forall i, j :: 0 <= i < j < |raw| ==> raw[i].0 != raw[j].0
  }

  /** `values` is what the settings of `raw` give, each parsed, within its bounds and its cap. */
  ghost predicate Gives(raw: seq<(Key, Raw)>, values: Values, dst: Backend, t: Settings, only: set<Name>) {
    && (forall n :: n in values ==> GivenBy(raw, n, values[n], dst, t, only))
    && (forall i :: 0 <= i < |raw| ==> One(raw[i].0, raw[i].1, dst, t, only).Ok?)
    && (forall i :: 0 <= i < |raw| && One(raw[i].0, raw[i].1, dst, t, only).value.Some? ==> raw[i].0.name in values)
  }

  predicate GivenBy(raw: seq<(Key, Raw)>, n: Name, value: int, dst: Backend, t: Settings, only: set<Name>) {
    exists i :: 0 <= i < |raw| && raw[i].0 == Known(n) && One(raw[i].0, raw[i].1, dst, t, only) == Ok(Some(value))
  }

  lemma {:induction false} CollectGives(raw: seq<(Key, Raw)>, dst: Backend, t: Settings, only: set<Name>)
    requires Object(raw)
    ensures var r := Collect(raw, dst, t, only); r.Ok? ==> Gives(raw, r.value, dst, t, only)
  {
    if raw != [] {
      var front, last := raw[..|raw| - 1], raw[|raw| - 1];
      var before, one := Collect(front, dst, t, only), One(last.0, last.1, dst, t, only);
      CollectGives(front, dst, t, only);
      if before.Ok? && one.Ok? {
        var values := Collect(raw, dst, t, only).value;
        forall n | n in values
          ensures GivenBy(raw, n, values[n], dst, t, only)
        {
          if one.value.Some? && last.0 == Known(n) {
            assert raw[|raw| - 1] == last;
          } else {
            assert GivenBy(front, n, before.value[n], dst, t, only);
            var i :| 0 <= i < |front| && front[i].0 == Known(n)
              && One(front[i].0, front[i].1, dst, t, only) == Ok(Some(before.value[n]));
            assert raw[i] == front[i];
          }
        }
        forall i | 0 <= i < |raw|
          ensures One(raw[i].0, raw[i].1, dst, t, only).Ok?
          ensures One(raw[i].0, raw[i].1, dst, t, only).value.Some? ==> raw[i].0.name in values
        {
          if i < |raw| - 1 { assert raw[i] == front[i]; }
        }
      }
    }
  }

  /** Accepted overrides are settings of a job, within bounds and caps, and fit the budget. */
  lemma AcceptedIsSafe(raw: seq<(Key, Raw)>, dst: Backend, t: Settings, only: set<Name>, budgeted: bool)
    requires Object(raw) && Validate(raw, dst, t, only, budgeted).Ok?
    ensures var values := Validate(raw, dst, t, only, budgeted).value;
      && InBounds(values) && InCaps(values, t.caps) && (budgeted ==> Needed(values, dst, t.defaults) <= t.budget)
      && forall n :: n in values ==> n in only && Applies(n, dst)
  {
    CollectGives(raw, dst, t, only);
    var values := Validate(raw, dst, t, only, budgeted).value;
    forall n | n in values
      ensures Lo(n) <= values[n] <= Hi(n) && BelowCap(n, values[n], t.caps) && n in only && Applies(n, dst)
    {
      assert GivenBy(raw, n, values[n], dst, t, only);
    }
  }

  // ---------------------------------------------------------------- stored overrides

  /** to_api of one value. */
  function Api(n: Name, value: int): Raw {
    if IsSize(n) && value >= 0 then Text(FormatSize(value)) else Int(value)
  }

  /** `api` is the object that to_api makes of `values`, its keys in any order. */
  ghost predicate IsApi(api: seq<(Key, Raw)>, values: Values) {
    && Object(api)
    && (forall i :: 0 <= i < |api| ==>
          api[i].0.Known? && api[i].0.name in values && api[i].1 == Api(api[i].0.name, values[api[i].0.name]))
    && (forall n :: n in values ==> Listed(api, n))
  }

  predicate Listed(api: seq<(Key, Raw)>, n: Name) {
    exists i :: 0 <= i < |api| && api[i].0 == Known(n)
  }

  /** The printed number of a size has at most 7 digits. */
  predicate Prints(n: Name, value: int) {
    IsSize(n) && value >= 0 ==> value / Printed(value).1 < 10_000_000
  }

  lemma ParseApi(n: Name, value: int)
    requires Lo(n) <= value <= Hi(n)
    ensures Parse(n, Api(n, value)) == if Prints(n, value) then Ok(value) else Fails(NotParsed(n))
  {
    if IsSize(n) { ParseFormat(value); }
    hide ParseSize, FormatSize, Printed;
  }

  lemma ApiNotSkipped(n: Name, value: int)
    ensures !Skipped(Api(n, value))
  {
    if IsSize(n) && value >= 0 { assert FormatSize(value) != ""; }
  }

  lemma OneApi(n: Name, value: int, dst: Backend, t: Settings, only: set<Name>)
    requires Lo(n) <= value <= Hi(n) && BelowCap(n, value, t.caps) && n in only && Applies(n, dst)
    ensures One(Known(n), Api(n, value), dst, t, only) ==
      if Prints(n, value) then Ok(Some(value)) else Fails(NotParsed(n))
  {
    ParseApi(n, value);
    ApiNotSkipped(n, value);
  }

  predicate Storable(values: Values, dst: Backend, t: Settings, only: set<Name>) {
    InBounds(values) && InCaps(values, t.caps) && forall n :: n in values ==> n in only && Applies(n, dst)
  }

  /** The settings among the first k. */
  function Among(values: Values, api: seq<(Key, Raw)>, k: nat): Values
    requires k <= |api|
  {
    map n | n in values && Listed(api[..k], n) :: values[n]
  }

  lemma AmongOneMore(values: Values, api: seq<(Key, Raw)>, k: nat)
    requires 0 < k <= |api| && api[k-1].0.Known? && api[k-1].0.name in values
    ensures var n := api[k-1].0.name; Among(values, api, k) == Among(values, api, k - 1)[n := values[n]]
  {
    var n := api[k-1].0.name;
    assert api[..k][k-1].0 == Known(n);
    forall m
      ensures Listed(api[..k], m) <==> m == n || Listed(api[..k-1], m)
    {
      if Listed(api[..k-1], m) {
        var i :| 0 <= i < k - 1 && api[..k-1][i].0 == Known(m);
        assert api[..k][i].0 == Known(m);
      }
      if Listed(api[..k], m) && m != n {
        var i :| 0 <= i < k && api[..k][i].0 == Known(m);
        assert api[..k-1][i].0 == Known(m);
      }
    }
  }

  lemma {:induction false} CollectApi(api: seq<(Key, Raw)>, k: nat, values: Values,
      dst: Backend, t: Settings, only: set<Name>)
    requires k <= |api| && IsApi(api, values) && Storable(values, dst, t, only)
    requires forall n :: n in values ==> Prints(n, values[n])
    ensures Collect(api[..k], dst, t, only) == Ok(Among(values, api, k))
  {
    hide One, Prints, Api;
    if k == 0 {
      assert Among(values, api, 0) == map[];
    } else {
      var n := api[k-1].0.name;
      CollectApi(api, k - 1, values, dst, t, only);
      assert api[..k][..k-1] == api[..k-1] && api[..k][k-1] == api[k-1];
      OneApi(n, values[n], dst, t, only);
      AmongOneMore(values, api, k);
      hide Among;
    }
  }

  lemma ApiCollects(api: seq<(Key, Raw)>, values: Values, dst: Backend, t: Settings, only: set<Name>)
    requires IsApi(api, values) && Storable(values, dst, t, only)
    requires forall n :: n in values ==> Prints(n, values[n])
    ensures Collect(api, dst, t, only) == Ok(values)
  {
    CollectApi(api, |api|, values, dst, t, only);
    assert api[..|api|] == api;
    assert Among(values, api, |api|) == values;
  }

  /**
   Accepted overrides, stored and validated again with unchanged settings, give the same values
   exactly if every size among them prints with at most 7 digits; else the job is refused.
   */
  lemma Revalidates(raw: seq<(Key, Raw)>, api: seq<(Key, Raw)>, dst: Backend,
      t: Settings, only: set<Name>, budgeted: bool)
    requires Object(raw) && Validate(raw, dst, t, only, budgeted).Ok?
    requires IsApi(api, Validate(raw, dst, t, only, budgeted).value)
    ensures var values, again := Validate(raw, dst, t, only, budgeted).value, Validate(api, dst, t, only, budgeted);
      && (again.Ok? <==> forall n :: n in values ==> Prints(n, values[n]))
      && (again.Ok? ==> again.value == values)
  {
    hide Collect, Prints, Storable, One, Needed;
    var values := Validate(raw, dst, t, only, budgeted).value;
    AcceptedIsStorable(raw, dst, t, only, budgeted);
    if forall n :: n in values ==> Prints(n, values[n]) {
      ApiCollects(api, values, dst, t, only);
    } else {
      var n :| n in values && !Prints(n, values[n]);
      Unprintable(api, values, n, dst, t, only);
    }
  }

  lemma AcceptedIsStorable(raw: seq<(Key, Raw)>, dst: Backend, t: Settings, only: set<Name>, budgeted: bool)
    requires Object(raw) && Validate(raw, dst, t, only, budgeted).Ok?
    ensures Storable(Validate(raw, dst, t, only, budgeted).value, dst, t, only)
    ensures Collect(raw, dst, t, only) == Validate(raw, dst, t, only, budgeted)
    ensures budgeted ==> Needed(Validate(raw, dst, t, only, budgeted).value, dst, t.defaults) <= t.budget
  {
    AcceptedIsSafe(raw, dst, t, only, budgeted);
    hide Collect, Needed;
  }

  lemma Unprintable(api: seq<(Key, Raw)>, values: Values, n: Name, dst: Backend, t: Settings, only: set<Name>)
    requires IsApi(api, values) && Storable(values, dst, t, only) && n in values && !Prints(n, values[n])
    ensures Collect(api, dst, t, only).Fails?
  {
    hide Collect, Prints, One, Api;
    assert Listed(api, n);
    var i :| 0 <= i < |api| && api[i].0 == Known(n);
    OneApi(n, values[n], dst, t, only);
    CollectGives(api, dst, t, only);
    assert api[i].1 == Api(n, values[n]);
  }

  /** The memory does not depend on the cutoff. */
  lemma CutoffIsFree(size: int, t: Settings)
    ensures Needed(map[Cutoff := size], Elsewhere, t.defaults) == Needed(map[], Elsewhere, t.defaults)
  {
    var a, b := Effective(map[Cutoff := size], Elsewhere, t.defaults), Effective(map[], Elsewhere, t.defaults);
    assert forall n: Name :: n != Cutoff ==> Value(a, n) == Value(b, n);
  }

  lemma OneSetting(raw: Raw, t: Settings)
    ensures Validate([(Known(Cutoff), raw)], Elsewhere, t, PER_JOB, true) ==
      var one := One(Known(Cutoff), raw, Elsewhere, t, PER_JOB);
      if one.Fails? then Fails(one.error)
      else
        var values := if one.value.None? then map[] else map[Cutoff := one.value.value];
        if Needed(values, Elsewhere, t.defaults) > t.budget then Fails(TooMuchMemory) else Ok(values)
  {
    hide One, Needed;
    assert [(Known(Cutoff), raw)][..0] == [];
    assert Collect([], Elsewhere, t, PER_JOB) == Ok(map[]);
  }

  /** A user's "100.001M" is accepted for a job, and refused when the job runs. */
  lemma AcceptedThenRefused(t: Settings)
    requires t.Valid() && Needed(map[], Elsewhere, t.defaults) <= t.budget
    ensures var raw, size := Text("100.001M"), 104858648;
      && Validate([(Known(Cutoff), raw)], Elsewhere, t, PER_JOB, true) == Ok(map[Cutoff := size])
      && Validate([(Known(Cutoff), Api(Cutoff, size))], Elsewhere, t, PER_JOB, true) == Fails(NotParsed(Cutoff))
  {
    var raw, size := Text("100.001M"), 104858648;
    CutoffSize();
    ApiNotSkipped(Cutoff, size);
    hide Parse, Api, Validate, Needed;
    CutoffIsFree(size, t);
    OneSetting(raw, t);
    OneSetting(Api(Cutoff, size), t);
  }

  lemma CutoffSize()
    ensures Parse(Cutoff, Text("100.001M")) == Ok(104858648)
    ensures Parse(Cutoff, Api(Cutoff, 104858648)) == Fails(NotParsed(Cutoff))
  {
    hide *;
    CutoffBounds();
    HundredMega();
    ParseText(Cutoff, "100.001M", 104858648);
    OddBytes();
    ParseApi(Cutoff, 104858648);
  }

  lemma CutoffBounds()
    ensures Lo(Cutoff) == MIB && Hi(Cutoff) == TIB && MIB <= 104858648 <= TIB
  {
  }

  lemma ParseText(n: Name, s: string, size: nat)
    requires n == Cutoff && ParseSize(s) == Some(size) && MIB <= size <= TIB
    ensures Parse(n, Text(s)) == Ok(size)
  {
  }

  lemma OddBytes()
    ensures !Prints(Cutoff, 104858648)
  {
    assert 104858648 == 102400 * KIB + 1048;
    assert Printed(104858648) == ("B", 1);
  }

  lemma HundredMega()
    ensures ParseSize("100.001M") == Some(104858648)
  {
    var s := "100.001M";
    SmallNumbers();
    assert "100" + ".001M" == s && s[3] == '.';
    assert s[4..] == "001" + "M" && s[4..][3..] == "M" && s[4..][..3] == "001" && s[..3] == "100";
    hide Number, DigitRun, Power;
    RunOf("100", ".001M");
    RunOf("001", "M");
    FractionIs("001", MIB);
    assert Unit("M") == Some(MIB);
  }

  lemma FractionIs(digits: string, unit: nat)
    requires |digits| == 3 && (forall i :: 0 <= i < |digits| ==> Digit(digits[i])) && Number(digits) == 1
    ensures Fraction(digits, unit) == unit / 1000
  {
    assert Power(3) == 1000;
    hide Number;
  }

  lemma SmallNumbers()
    ensures Number("100") == 100 && Number("001") == 1
  {
    assert "100"[..2] == "10" && "10"[..1] == "1" && "1"[..0] == "";
    assert "001"[..2] == "00" && "00"[..1] == "0" && "0"[..0] == "";
    assert Number("1") == 1 && Number("10") == 10 && Number("0") == 0 && Number("00") == 0;
  }

  // ---------------------------------------------------------------- presets

  const SMALL_FILES: Values := map[Transfers := 128, Checkers := 256, S3Concurrency := 4, S3Chunk := 16 * MIB]
  const LARGE_FILES: Values :=
    map[Transfers := 32, Checkers := 64, Streams := 16, Cutoff := 64 * MIB, S3Concurrency := 16, S3Chunk := 16 * MIB,
        AzureConcurrency := 16, AzureChunk := 16 * MIB]
  const MAXIMUM: Values := LARGE_FILES[Transfers := 128][Checkers := 256]

  const PRESETS: seq<Values> := [map[], SMALL_FILES, LARGE_FILES, MAXIMUM]

  /** A preset gives the transfers, within the bounds, and its sizes are not reduced. */
  predicate Preset(target: Values) {
    && InBounds(target) && Transfers in target && Buffer !in target
    && forall n :: n in target && IsSize(n) ==> Floor(n, target[n]) == target[n] && target[n] % MIB == 0
  }

  lemma NothingToFit(dst: Backend, t: Settings, fitted: Values, reduced: bool)
    requires Fitted(map[], dst, t, Some(fitted), reduced)
    ensures fitted == map[] && !reduced
  {
    assert Start(map[], dst, t.caps) == map[];
  }

  lemma SmallIsPreset()
    ensures Preset(SMALL_FILES)
  {
  }

  lemma LargeIsPreset()
    ensures Preset(LARGE_FILES)
  {
  }

  lemma MaximumIsPreset()
    ensures Preset(MAXIMUM)
  {
    LargeIsPreset();
    hide LARGE_FILES;
  }

  lemma MegabytesPrint(n: Name, value: int)
    requires Lo(n) <= value <= Hi(n) && value % MIB == 0
    ensures Prints(n, value)
  {
    if IsSize(n) && value >= MIB {
      var unit := Printed(value).1;
      assert unit >= MIB;
      assert value / unit <= value / MIB;
    }
  }

  /** What a fitted preset gives, as the dialog sends it back, is accepted as it is. */
  lemma PresetsPass(k: nat, dst: Backend, t: Settings, fitted: Values, reduced: bool, api: seq<(Key, Raw)>)
    requires k < |PRESETS| && t.Valid() && Fitted(PRESETS[k], dst, t, Some(fitted), reduced)
    requires fitted != map[] && IsApi(api, fitted)
    ensures Validate(api, dst, t, PER_JOB, true) == Ok(fitted)
  {
    var target, start := PRESETS[k], Start(PRESETS[k], dst, t.caps);
    if k == 0 {
      NothingToFit(dst, t, fitted, reduced);
      assert false;
    }
    SmallIsPreset();
    LargeIsPreset();
    MaximumIsPreset();
    assert Preset(target);
    hide Fitted, Preset, Start;
    FittedStorable(target, dst, t, fitted, reduced);
    ApiCollects(api, fitted, dst, t, PER_JOB);
  }

  lemma FittedStorable(target: Values, dst: Backend, t: Settings, fitted: Values, reduced: bool)
    requires Preset(target) && t.Valid() && Fitted(target, dst, t, Some(fitted), reduced)
    ensures Storable(fitted, dst, t, PER_JOB) && forall n :: n in fitted ==> Prints(n, fitted[n])
  {
    hide Fitted, Prints, Floor, Preset;
    var start := Start(target, dst, t.caps);
    assert InBounds(target) && Transfers in target by { PresetIs(target); }
    StartOk(target, dst, t);
    FittedIs(target, dst, t, fitted, reduced);
    hide Start;
    forall n | n in fitted
      ensures Lo(n) <= fitted[n] <= Hi(n) && BelowCap(n, fitted[n], t.caps) && n in PER_JOB && Applies(n, dst)
      ensures Prints(n, fitted[n])
    {
      StorableOne(target, start, dst, t, n, fitted[n]);
    }
  }

  lemma PresetIs(target: Values)
    requires Preset(target)
    ensures InBounds(target) && Transfers in target
  {
  }

  lemma StorableOne(target: Values, start: Values, dst: Backend, t: Settings, n: Name, value: int)
    requires Preset(target) && t.Valid() && start == Start(target, dst, t.caps) && InBounds(start) && n in start
    requires Floor(n, start[n]) <= value <= start[n] || (n == Transfers && 1 <= value <= start[n])
    ensures Lo(n) <= value <= Hi(n) && BelowCap(n, value, t.caps) && n in PER_JOB && Applies(n, dst) && Prints(n, value)
  {
    hide Prints;
    if IsSize(n) { MegabytesPrint(n, value); } else { assert Prints(n, value) by { OnlySizes(n, value); } }
  }

  lemma OnlySizes(n: Name, value: int)
    requires !IsSize(n)
    ensures Prints(n, value)
  {
  }

  /** Each value lies between its floor and the start, or is a smaller number of transfers. */
  lemma FittedIs(target: Values, dst: Backend, t: Settings, fitted: Values, reduced: bool)
    requires Transfers in Start(target, dst, t.caps) && Fitted(target, dst, t, Some(fitted), reduced)
    ensures var start := Start(target, dst, t.caps);
      forall n :: n in fitted ==>
        n in start && (Floor(n, start[n]) <= fitted[n] <= start[n] || (n == Transfers && 1 <= fitted[n] <= start[n]))
  {
    var start := Start(target, dst, t.caps);
    assert start != map[] by { assert Transfers in start; }
    assert TransfersOf(start, dst, t) == start[Transfers] by {
      assert Value(Effective(start, dst, t.defaults), Transfers) == start[Transfers];
    }
    hide Start, Needed, Lowered, OneTransfer, Floors, TransfersOf, Applying;
    forall n | n in fitted
      ensures n in start
      ensures (Floor(n, start[n]) <= fitted[n] <= start[n] || (n == Transfers && 1 <= fitted[n] <= start[n]))
    {
      assert Rest(fitted, start) && TransfersFit(fitted, start, dst, t);
      if n != Transfers { assert n in fitted.Keys - {Transfers}; }
    }
  }
}
