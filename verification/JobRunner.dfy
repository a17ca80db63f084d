/**
 The integrity check (job_runner.run_hashsum): hashes of both sides, a second pass by MD5 over
 the files one side of which has no CRC32C, and the comparison of the two trees.
 */
module JobRunner {
  import opened Options
  import opened Names
  import opened FileTree

  datatype Side = Src | Dst

  const SIDES := [Src, Dst]
  const NOT_CHECKABLE_SAMPLE := 100

  datatype HashType = Md5 | Sha256 | Crc32c

  datatype Kind = Local | S3 | Other

  /** A run of rclone: the source's or the destination's, of all files or of `names` by MD5. */
  datatype Start = Start(side: Side, md5: bool, names: Option<seq<string>>)

  datatype Reading = Reading(exit: int, entries: seq<Item>, error: string)

  /** What the user and rclone answer: whether to stop before a run, and what the run prints. */
  datatype Env = Env(stop: (Side, bool) -> bool, read: Start -> Reading)

  datatype State = SUCCESS | FAILED | UNSET | STOPPED

  datatype Result =
    | Stopped
    | Failed(state: State, side: Side, tree: seq<Node>, error: string)
    | Success(srcTree: seq<Node>, dstTree: seq<Node>, srcError: Option<string>, dstError: Option<string>,
              hashType: HashType, md5Fallback: int, notCheckable: nat, sample: seq<string>)

  datatype Outcome = Different | IdenticalBut(notCheckable: nat) | Identical

  /** hashsum_type; `supported` is crc32c_supported(), None without such a function. */
  function HashsumType(src: Kind, dst: Kind, download: bool, supported: Option<bool>): (hash: HashType)
    ensures hash == Crc32c <==>
      supported == Some(true) && !src.Other? && !dst.Other? && ((src.Local? && dst.Local?) || !download)
    ensures hash == Sha256 <==> src.Local? && dst.Local? && supported != Some(true)
  {
    if src.Local? && dst.Local? then (if supported == Some(true) then Crc32c else Sha256)
    else if (src.S3? || dst.S3?) && !src.Other? && !dst.Other? && !download && supported == Some(true) then Crc32c
    else Md5
  }

  function HashsumOutcome(srcTree: seq<Node>, dstTree: seq<Node>, notCheckable: nat): Outcome {
    if srcTree != [] || dstTree != [] then Different
    else if notCheckable != 0 then IdenticalBut(notCheckable)
    else Identical
  }

  function ExitState(exit: int): State {
    if exit == -1 then UNSET else if exit == 0 then SUCCESS else FAILED
  }

  // ---------------------------------------------------------------- dictionaries

  /** A dictionary from names to hashes, in the order of insertion. */
  predicate Dict(d: seq<Item>) {
    forall i, j :: 0 <= i < j < |d| ==> d[i].name != d[j].name
  }

  function Index(d: seq<Item>, name: string): (i: nat)
    ensures i <= |d|
    ensures i < |d| ==> d[i].name == name
    ensures forall k :: 0 <= k < i ==> d[k].name != name
  {
    if d == [] || d[0].name == name then 0 else 1 + Index(d[1..], name)
  }

  predicate In(name: string, d: seq<Item>) {
    Index(d, name) < |d|
  }

  /** d.get(name) */
  function Get(d: seq<Item>, name: string): Hash {
    var i := Index(d, name);
    if i < |d| then d[i].hash else None
  }

  function Put(d: seq<Item>, name: string, hash: Hash): seq<Item> {
    var i := Index(d, name);
    if i < |d| then d[i := Item(name, hash)] else d + [Item(name, hash)]
  }

  function Delete(d: seq<Item>, name: string): seq<Item> {
    var i := Index(d, name);
    if i < |d| then d[..i] + d[i+1..] else d
  }

  function ToDict(entries: seq<Item>): seq<Item> {
    if entries == [] then []
    else
      var last := entries[|entries| - 1];
      Put(ToDict(entries[..|entries| - 1]), last.name, last.hash)
  }

  /** A hash that is there: Python's truth value of a string or None. */
  predicate Truthy(h: Hash) {
    h.Some? && h.value != ""
  }

  function OrNone(text: string): Option<string> {
    if text == "" then None else Some(text)
  }

  /** '\n'.join of the texts that are not empty. */
  function JoinLines(a: string, b: string): string {
    if a == "" then b else if b == "" then a else a + "\n" + b
  }

  // ---------------------------------------------------------------- the check

  datatype Pass =
    | Ended(result: Result)
    | Through(hashes: map<Side, seq<Item>>, errors: map<Side, string>)

  /** The runs of all files on `sides`, and the runs started. */
  function FirstPass(env: Env, sides: seq<Side>, entries: map<Side, seq<Item>>,
      errors: map<Side, string>): (Pass, seq<Start>)
    decreases |sides|
  {
    if sides == [] then (Through(entries, errors), [])
    else if env.stop(sides[0], false) then (Ended(Stopped), [])
    else
      var side, start := sides[0], Start(sides[0], false, None);
      var run := env.read(start);
      if run.exit != 0 then
        (Ended(Failed(ExitState(run.exit), side, Generate(run.entries).tree, run.error)), [start])
      else
        var (pass, started) := FirstPass(env, sides[1..], entries[side := ToDict(run.entries)],
          errors[side := run.error]);
        (pass, [start] + started)
  }

  /** A single file cannot be combined with a list of names. */
  function FallbackStart(entries: map<Side, seq<Item>>, side: Side, fallback: seq<string>): Start
    requires side in entries
  {
    Start(side, true, if |entries[side]| > 1 then Some(fallback) else None)
  }

  predicate BothSides(entries: map<Side, seq<Item>>, errors: map<Side, string>) {
    Src in entries && Dst in entries && Src in errors && Dst in errors
  }

  /** The runs of the fallback's files by MD5. */
  function Md5Pass(env: Env, sides: seq<Side>, entries: map<Side, seq<Item>>, errors: map<Side, string>,
                   fallback: seq<string>, md5: map<Side, seq<Item>>): (Pass, seq<Start>)
    requires BothSides(entries, errors)
    decreases |sides|
  {
    if sides == [] then (Through(md5, errors), [])
    else if env.stop(sides[0], true) then (Ended(Stopped), [])
    else
      assert sides[0] == Src || sides[0] == Dst;
      var side, start := sides[0], FallbackStart(entries, sides[0], fallback);
      var run := env.read(start);
      if run.exit != 0 then
        (Ended(Failed(ExitState(run.exit), side, Generate(entries[side]).tree,
          JoinLines(errors[side], run.error))), [start])
      else
        var errors' := if run.error == "" then errors else errors[side := JoinLines(errors[side], run.error)];
        var (pass, started) := Md5Pass(env, sides[1..], entries, errors', fallback, md5[side := ToDict(run.entries)]);
        (pass, [start] + started)
  }

  /** A file on both sides of which one has no CRC32C. */
  predicate NeedsMd5(src: seq<Item>, dst: seq<Item>, name: string) {
    In(name, src) && In(name, dst) && !(Truthy(Get(src, name)) && Truthy(Get(dst, name)))
  }

  function InsertName(names: seq<string>, name: string): seq<string> {
    if names == [] || Less(names[|names| - 1], name) then names + [name]
    else InsertName(names[..|names| - 1], name) + [names[|names| - 1]]
  }

  /** The sorted names of `some` that need a fallback. */
  function Fallback(some: seq<Item>, src: seq<Item>, dst: seq<Item>): seq<string> {
    if some == [] then []
    else
      var rest, name := Fallback(some[..|some| - 1], src, dst), some[|some| - 1].name;
      if NeedsMd5(src, dst, name) then InsertName(rest, name) else rest
  }

  datatype Settled = Settled(src: seq<Item>, dst: seq<Item>, notCheckable: seq<string>)

  predicate Comparable(md5Src: seq<Item>, md5Dst: seq<Item>, name: string) {
    Truthy(Get(md5Src, name)) && Truthy(Get(md5Dst, name))
  }

  /** The loop over the fallback. */
  function Settle(src: seq<Item>, dst: seq<Item>, md5Src: seq<Item>, md5Dst: seq<Item>, names: seq<string>): Settled
    decreases |names|
  {
    if names == [] then Settled(src, dst, [])
    else
      var name := names[0];
      if Comparable(md5Src, md5Dst, name) then
        Settle(Put(src, name, Get(md5Src, name)), Put(dst, name, Get(md5Dst, name)), md5Src, md5Dst, names[1..])
      else
        var r := Settle(Delete(src, name), Delete(dst, name), md5Src, md5Dst, names[1..]);
        r.(notCheckable := [name] + r.notCheckable)
  }

  function Compare(s: Settled, errors: map<Side, string>, hashType: HashType, fallback: seq<string>): Result
    requires Src in errors && Dst in errors
  {
    var d := Diff(Generate(s.src).tree, Generate(s.dst).tree);
    Success(d.0, d.1, OrNone(errors[Src]), OrNone(errors[Dst]), hashType,
            |fallback| - |s.notCheckable|, |s.notCheckable|, Sample(s.notCheckable))
  }

  function Sample(names: seq<string>): seq<string> {
    if |names| <= NOT_CHECKABLE_SAMPLE then names else names[..NOT_CHECKABLE_SAMPLE]
  }

  /** Every side is still to be run or has its hashes. */
  predicate Needed(sides: seq<Side>, hashes: map<Side, seq<Item>>) {
    (Src in sides || Src in hashes) && (Dst in sides || Dst in hashes)
  }

  lemma FirstPassCovers(env: Env, sides: seq<Side>, entries: map<Side, seq<Item>>, errors: map<Side, string>)
    requires entries.Keys == errors.Keys && Needed(sides, entries)
    ensures var pass := FirstPass(env, sides, entries, errors).0;
      pass.Through? ==> BothSides(pass.hashes, pass.errors)
    decreases |sides|
  {
    if sides != [] {
      var side, run := sides[0], env.read(Start(sides[0], false, None));
      FirstPassCovers(env, sides[1..], entries[side := ToDict(run.entries)], errors[side := run.error]);
    }
  }

  lemma Md5PassCovers(env: Env, sides: seq<Side>, entries: map<Side, seq<Item>>, errors: map<Side, string>,
                      fallback: seq<string>, md5: map<Side, seq<Item>>)
    requires BothSides(entries, errors) && Needed(sides, md5)
    ensures var pass := Md5Pass(env, sides, entries, errors, fallback, md5).0;
      pass.Through? ==> BothSides(pass.hashes, pass.errors)
    decreases |sides|
  {
    if sides != [] && !env.stop(sides[0], true) {
      assert sides[0] == Src || sides[0] == Dst;
      var side, start := sides[0], FallbackStart(entries, sides[0], fallback);
      var run := env.read(start);
      var errors' := if run.error == "" then errors else errors[side := JoinLines(errors[side], run.error)];
      Md5PassCovers(env, sides[1..], entries, errors', fallback, md5[side := ToDict(run.entries)]);
    }
  }

  /** run_hashsum: its result and the runs it starts. */
  function Checked(env: Env, hashType: HashType): (Result, seq<Start>) {
    FirstPassCovers(env, SIDES, map[], map[]);
    var (first, started) := FirstPass(env, SIDES, map[], map[]);
    if first.Ended? then (first.result, started)
    else
      var src, dst := first.hashes[Src], first.hashes[Dst];
      var fallback := if hashType == Crc32c then Fallback(src, src, dst) else [];
      if fallback == [] then (Compare(Settled(src, dst, []), first.errors, hashType, []), started)
      else
        Md5PassCovers(env, SIDES, first.hashes, first.errors, fallback, map[]);
        var (second, more) := Md5Pass(env, SIDES, first.hashes, first.errors, fallback, map[]);
        if second.Ended? then (second.result, started + more)
        else (Compare(Settle(src, dst, second.hashes[Src], second.hashes[Dst], fallback),
              second.errors, hashType, fallback),
              started + more)
  }

  method RunHashsum(env: Env, hashType: HashType) returns (result: Result, started: seq<Start>)
    ensures (result, started) == Checked(env, hashType)
  {
    hide FirstPass, Md5Pass, Fallback, Settle, Generate, Diff, FallbackStart, Sample, OrNone;
    FirstPassCovers(env, SIDES, map[], map[]);
    var first, starts := RunAll(env);
    started := starts;
    if first.Ended? { return first.result, started; }
    var src, dst, errors := first.hashes[Src], first.hashes[Dst], first.errors;
    var fallback, notCheckable: seq<string> := [], [];
    if hashType == Crc32c {
      fallback := FallbackNames(src, dst);
    }
    if |fallback| > 0 {
      Md5PassCovers(env, SIDES, first.hashes, errors, fallback, map[]);
      var md5, more := RunFallback(env, first.hashes, errors, fallback);
      started := started + more;
      if md5.Ended? { return md5.result, started; }
      errors := md5.errors;
      src, dst, notCheckable := SettleFallback(src, dst, md5.hashes[Src], md5.hashes[Dst], fallback);
    }
    var srcTree, dstTree := Trees(src, dst);
    result := Success(srcTree, dstTree, OrNone(errors[Src]), OrNone(errors[Dst]), hashType,
                      |fallback| - |notCheckable|, |notCheckable|, Sample(notCheckable));
  }

  /** `started` are the runs of `all` before the rest. */
  predicate Ahead(all: (Pass, seq<Start>), started: seq<Start>, rest: (Pass, seq<Start>)) {
    all == (rest.0, started + rest.1)
  }

  lemma AheadOne(all: (Pass, seq<Start>), started: seq<Start>, start: Start, rest: (Pass, seq<Start>))
    requires Ahead(all, started, (rest.0, [start] + rest.1))
    ensures Ahead(all, started + [start], rest)
  {
    assert started + ([start] + rest.1) == started + [start] + rest.1;
  }

  lemma AheadEnds(all: (Pass, seq<Start>), started: seq<Start>, pass: Pass)
    requires Ahead(all, started, (pass, []))
    ensures all == (pass, started)
  {
    assert started + [] == started;
  }

  lemma OneMoreSide(entries: map<Side, seq<Item>>, texts: map<Side, string>, side: Side, text: string)
    requires BothSides(entries, texts)
    ensures side in entries && side in texts && BothSides(entries, texts[side := text])
  {
  }

  lemma FirstPassStep(env: Env, k: nat, entries: map<Side, seq<Item>>, errors: map<Side, string>)
    requires k < |SIDES|
    ensures var all, side := FirstPass(env, SIDES[k..], entries, errors), SIDES[k];
      var start, run := Start(side, false, None), env.read(Start(side, false, None));
      var rest := FirstPass(env, SIDES[k+1..], entries[side := ToDict(run.entries)], errors[side := run.error]);
      all == if env.stop(side, false) then (Ended(Stopped), [])
             else if run.exit != 0 then
               (Ended(Failed(ExitState(run.exit), side, Generate(run.entries).tree, run.error)), [start])
             else (rest.0, [start] + rest.1)
  {
    hide Generate, ToDict;
    assert SIDES[k..][0] == SIDES[k] && SIDES[k..][1..] == SIDES[k+1..];
  }

  lemma Md5PassStep(env: Env, k: nat, entries: map<Side, seq<Item>>, errors: map<Side, string>,
                    fallback: seq<string>, md5: map<Side, seq<Item>>)
    requires k < |SIDES| && BothSides(entries, errors) && SIDES[k] in entries && SIDES[k] in errors
    ensures var all, side := Md5Pass(env, SIDES[k..], entries, errors, fallback, md5), SIDES[k];
      var start := FallbackStart(entries, side, fallback); var run := env.read(start);
      var text := JoinLines(errors[side], run.error);
      var rest := Md5Pass(env, SIDES[k+1..], entries,
                          if run.error == "" then errors else errors[side := text], fallback,
                          md5[side := ToDict(run.entries)]);
      all == if env.stop(side, true) then (Ended(Stopped), [])
             else if run.exit != 0 then
               (Ended(Failed(ExitState(run.exit), side, Generate(entries[side]).tree, text)), [start])
             else (rest.0, [start] + rest.1)
  {
    hide Generate, ToDict, JoinLines, FallbackStart;
    assert SIDES[k..][0] == SIDES[k] && SIDES[k..][1..] == SIDES[k+1..];
  }

  method RunAll(env: Env) returns (r: Pass, starts: seq<Start>)
    ensures (r, starts) == FirstPass(env, SIDES, map[], map[])
  {
    var entries: map<Side, seq<Item>>, errors: map<Side, string> := map[], map[];
    ghost var all := FirstPass(env, SIDES, map[], map[]);
    starts := [];
    assert all.1 == [] + all.1 && SIDES[0..] == SIDES;
    var k := 0;
    while k < |SIDES|
      invariant 0 <= k <= |SIDES|
      invariant Ahead(all, starts, FirstPass(env, SIDES[k..], entries, errors))
    {
      hide FirstPass, Ahead, ToDict, Generate;
      var side := SIDES[k];
      FirstPassStep(env, k, entries, errors);
      if env.stop(side, false) {
        AheadEnds(all, starts, Ended(Stopped));
        return Ended(Stopped), starts;
      }
      var start := Start(side, false, None);
      var run := env.read(start);
      if run.exit != 0 {
        var tree, _ := GenerateFileTree(run.entries);
        r := Ended(Failed(ExitState(run.exit), side, tree, run.error));
        assert [start] + [] == [start];
        AheadOne(all, starts, start, (r, []));
        AheadEnds(all, starts + [start], r);
        return r, starts + [start];
      }
      entries, errors := entries[side := ToDict(run.entries)], errors[side := run.error];
      AheadOne(all, starts, start, FirstPass(env, SIDES[k+1..], entries, errors));
      starts := starts + [start];
      k := k + 1;
    }
    r := Through(entries, errors);
    AheadEnds(all, starts, r);
  }

  method RunFallback(env: Env, entries: map<Side, seq<Item>>, errors: map<Side, string>, fallback: seq<string>)
    returns (r: Pass, starts: seq<Start>)
    requires BothSides(entries, errors)
    ensures (r, starts) == Md5Pass(env, SIDES, entries, errors, fallback, map[])
  {
    var md5: map<Side, seq<Item>>, texts := map[], errors;
    ghost var all := Md5Pass(env, SIDES, entries, errors, fallback, map[]);
    starts := [];
    assert all.1 == [] + all.1 && SIDES[0..] == SIDES;
    var k := 0;
    while k < |SIDES|
      invariant 0 <= k <= |SIDES| && BothSides(entries, texts)
      invariant Ahead(all, starts, Md5Pass(env, SIDES[k..], entries, texts, fallback, md5))
    {
      hide Md5Pass, Ahead, ToDict, Generate, JoinLines, FallbackStart, BothSides;
      var side := SIDES[k];
      OneMoreSide(entries, texts, side, "");
      Md5PassStep(env, k, entries, texts, fallback, md5);
      if env.stop(side, true) {
        AheadEnds(all, starts, Ended(Stopped));
        return Ended(Stopped), starts;
      }
      var start := FallbackStart(entries, side, fallback);
      var run := env.read(start);
      if run.exit != 0 {
        var tree, _ := GenerateFileTree(entries[side]);
        r := Ended(Failed(ExitState(run.exit), side, tree, JoinLines(texts[side], run.error)));
        assert [start] + [] == [start];
        AheadOne(all, starts, start, (r, []));
        AheadEnds(all, starts + [start], r);
        return r, starts + [start];
      }
      md5 := md5[side := ToDict(run.entries)];
      if run.error != "" {
        OneMoreSide(entries, texts, side, JoinLines(texts[side], run.error));
        texts := texts[side := JoinLines(texts[side], run.error)];
      }
      AheadOne(all, starts, start, Md5Pass(env, SIDES[k+1..], entries, texts, fallback, md5));
      starts := starts + [start];
      k := k + 1;
    }
    r := Through(md5, texts);
    AheadEnds(all, starts, r);
  }

  method FallbackNames(src: seq<Item>, dst: seq<Item>) returns (names: seq<string>)
    ensures names == Fallback(src, src, dst)
  {
    names := [];
    for n := 0 to |src|
      invariant names == Fallback(src[..n], src, dst)
    {
      assert src[..n+1][..n] == src[..n];
      if NeedsMd5(src, dst, src[n].name) { names := InsertName(names, src[n].name); }
    }
    assert src[..|src|] == src;
  }

  method SettleFallback(src: seq<Item>, dst: seq<Item>, md5Src: seq<Item>, md5Dst: seq<Item>, names: seq<string>)
    returns (left: seq<Item>, right: seq<Item>, notCheckable: seq<string>)
    ensures Settled(left, right, notCheckable) == Settle(src, dst, md5Src, md5Dst, names)
  {
    left, right, notCheckable := src, dst, [];
    assert names[0..] == names;
    for n := 0 to |names|
      invariant Settle(src, dst, md5Src, md5Dst, names) ==
        (var r := Settle(left, right, md5Src, md5Dst, names[n..]); r.(notCheckable := notCheckable + r.notCheckable))
    {
      var name := names[n];
      assert names[n..][1..] == names[n+1..];
      if Comparable(md5Src, md5Dst, name) {
        left, right := Put(left, name, Get(md5Src, name)), Put(right, name, Get(md5Dst, name));
      } else {
        ghost var rest := Settle(Delete(left, name), Delete(right, name), md5Src, md5Dst, names[n+1..]).notCheckable;
        assert notCheckable + ([name] + rest) == notCheckable + [name] + rest;
        notCheckable := notCheckable + [name];
        left, right := Delete(left, name), Delete(right, name);
      }
    }
  }

  method Trees(src: seq<Item>, dst: seq<Item>) returns (srcTree: seq<Node>, dstTree: seq<Node>)
    ensures (srcTree, dstTree) == Diff(Generate(src).tree, Generate(dst).tree)
  {
    var left, _ := GenerateFileTree(src);
    var right, _ := GenerateFileTree(dst);
    srcTree, dstTree := RemoveIdenticalBranches(left, right);
  }
}
