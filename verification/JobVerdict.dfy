/** What an integrity check says: which runs it makes, what it compares, and what IDENTICAL means. */
module JobVerdict {
  import opened Options
  import opened Names
  import opened FileTree
  import opened FileTreeBuild
  import opened JobRunner

  // ---------------------------------------------------------------- dictionaries

  lemma PutIs(d: seq<Item>, name: string, hash: Hash, n: string)
    requires Dict(d)
    ensures Dict(Put(d, name, hash))
    ensures In(n, Put(d, name, hash)) <==> n == name || In(n, d)
    ensures Get(Put(d, name, hash), n) == if n == name then hash else Get(d, n)
  {
    var e, i := Put(d, name, hash), Index(d, name);
    assert e[i] == Item(name, hash);
    assert forall k :: 0 <= k < |d| && k != i ==> e[k] == d[k];
    if n != name && In(n, d) { assert e[Index(d, n)].name == n; }
    if n != name && In(n, e) { assert d[Index(e, n)].name == n; }
  }

  lemma DeleteIs(d: seq<Item>, name: string, n: string)
    requires Dict(d)
    ensures Dict(Delete(d, name))
    ensures In(n, Delete(d, name)) <==> n != name && In(n, d)
    ensures Get(Delete(d, name), n) == if n == name then None else Get(d, n)
  {
    var i := Index(d, name);
    if i < |d| { RemoveAt(d, i, n); }
  }

  function Without(d: seq<Item>, i: nat): seq<Item>
    requires i < |d|
  {
    d[..i] + d[i+1..]
  }

  /** Where an item is after one was taken out, and where it was before. */
  lemma Shifted(d: seq<Item>, i: nat, k: nat)
    requires i < |d|
    ensures k < |d| && k != i ==> Without(d, i)[if k < i then k else k - 1] == d[k]
    ensures k < |Without(d, i)| ==> Without(d, i)[k] == d[if k < i then k else k + 1]
  {
  }

  lemma RemoveDict(d: seq<Item>, i: nat)
    requires Dict(d) && i < |d|
    ensures Dict(Without(d, i))
  {
    hide Without;
    forall j, k | 0 <= j < k < |Without(d, i)|
      ensures Without(d, i)[j].name != Without(d, i)[k].name
    {
      Shifted(d, i, j);
      Shifted(d, i, k);
      assert |Without(d, i)| == |d| - 1 by { Shorter(d, i); }
    }
  }

  lemma Shorter(d: seq<Item>, i: nat)
    requires i < |d|
    ensures |Without(d, i)| == |d| - 1
  {
  }

  lemma RemoveAt(d: seq<Item>, i: nat, n: string)
    requires Dict(d) && i < |d|
    ensures var e := Without(d, i);
      && Dict(e) && (In(n, e) <==> n != d[i].name && In(n, d))
      && Get(e, n) == if n == d[i].name then None else Get(d, n)
  {
    hide Without;
    var e := Without(d, i);
    var k, m := Index(d, n), Index(e, n);
    RemoveDict(d, i);
    Shorter(d, i);
    Shifted(d, i, k);
    Shifted(d, i, m);
  }

  lemma {:induction false} ToDictIsDict(entries: seq<Item>)
    ensures Dict(ToDict(entries))
  {
    if entries != [] {
      var last := entries[|entries| - 1];
      ToDictIsDict(entries[..|entries| - 1]);
      PutIs(ToDict(entries[..|entries| - 1]), last.name, last.hash, "");
    }
  }

  // ---------------------------------------------------------------- the fallback

  predicate Rising(names: seq<string>) {
    forall i, j :: 0 <= i < j < |names| ==> Less(names[i], names[j])
  }

  /** The dictionary of a run: every name it printed, with the hash it printed last. */
  lemma {:induction false} ToDictIs(entries: seq<Item>, name: string)
    ensures In(name, ToDict(entries)) <==> exists i :: 0 <= i < |entries| && entries[i].name == name
    ensures forall i :: 0 <= i < |entries| && entries[i].name == name && LastOf(entries, i) ==>
      Get(ToDict(entries), name) == entries[i].hash
  {
    if entries != [] {
      var front, last := entries[..|entries| - 1], entries[|entries| - 1];
      ToDictIs(front, name);
      ToDictIsDict(front);
      PutIs(ToDict(front), last.name, last.hash, name);
      assert entries == front + [last];
      forall i | 0 <= i < |entries| && entries[i].name == name && LastOf(entries, i)
        ensures Get(ToDict(entries), name) == entries[i].hash
      {
        if i < |front| { assert front[i] == entries[i] && LastOf(front, i); }
      }
      if In(name, ToDict(front)) {
        var i :| 0 <= i < |front| && front[i].name == name;
        assert entries[i].name == name;
      }
      hide In, Get, Put, ToDict;
    }
  }

  /** No later entry has the same name. */
  predicate LastOf(entries: seq<Item>, i: nat)
    requires i < |entries|
  {
    forall k :: i < k < |entries| ==> entries[k].name != entries[i].name
  }

  lemma {:induction false} InsertNameRises(names: seq<string>, name: string)
    requires Rising(names) && name !in names
    ensures Rising(InsertName(names, name))
    ensures multiset(InsertName(names, name)) == multiset(names) + multiset{name}
  {
    if names != [] {
      var front, last := names[..|names| - 1], names[|names| - 1];
      assert names == front + [last];
      if Less(last, name) {
        forall i | 0 <= i < |names|
          ensures Less(names[i], name)
        {
          if i < |names| - 1 { LessTransitive(names[i], last, name); }
        }
      } else {
        LessTotal(last, name);
        InsertNameRises(front, name);
        var r := InsertName(front, name);
        forall i | 0 <= i < |r|
          ensures Less(r[i], last)
        {
          assert r[i] in multiset(r);
          if r[i] != name {
            assert r[i] in front;
          }
        }
      }
    }
  }

  /** The fallback is the sorted list, without repetition, of the files that need it. */
  lemma {:induction false} FallbackIs(some: seq<Item>, src: seq<Item>, dst: seq<Item>)
    requires Dict(some)
    ensures Rising(Fallback(some, src, dst))
    ensures forall name :: name in Fallback(some, src, dst) <==> In(name, some) && NeedsMd5(src, dst, name)
  {
    if some != [] {
      var front, last := some[..|some| - 1], some[|some| - 1].name;
      var rest := Fallback(front, src, dst);
      FallbackIs(front, src, dst);
      forall name
        ensures In(name, some) <==> name == last || In(name, front)
      {
        if In(name, some) && name != last { assert front[Index(some, name)].name == name; }
        if In(name, front) { assert some[Index(front, name)].name == name; }
      }
      if NeedsMd5(src, dst, last) {
        assert !In(last, front);
        InsertNameRises(rest, last);
        forall name
          ensures name in InsertName(rest, last) <==> name == last || name in rest
        {
          assert name in multiset(InsertName(rest, last)) <==> name in multiset(rest) + multiset{last};
        }
      }
    }
  }

  lemma FallbackExact(src: seq<Item>, dst: seq<Item>)
    requires Dict(src)
    ensures Rising(Fallback(src, src, dst))
    ensures forall name :: name in Fallback(src, src, dst) <==> NeedsMd5(src, dst, name)
  {
    FallbackIs(src, src, dst);
  }

  /** What the loop over the fallback leaves of one file on one side. */
  function Left(d: seq<Item>, md5: seq<Item>, name: string, names: seq<string>, comparable: bool): Option<Hash> {
    if name in names then (if comparable then Some(Get(md5, name)) else None)
    else if In(name, d) then Some(Get(d, name)) else None
  }

  function Entry(d: seq<Item>, name: string): Option<Hash> {
    if In(name, d) then Some(Get(d, name)) else None
  }

  lemma {:induction false} SettleIs(src: seq<Item>, dst: seq<Item>, md5Src: seq<Item>, md5Dst: seq<Item>,
                                    names: seq<string>, n: string)
    requires Dict(src) && Dict(dst) && Rising(names)
    ensures var r, c := Settle(src, dst, md5Src, md5Dst, names), Comparable(md5Src, md5Dst, n);
      && Dict(r.src) && Entry(r.src, n) == Left(src, md5Src, n, names, c)
      && Dict(r.dst) && Entry(r.dst, n) == Left(dst, md5Dst, n, names, c)
      && (n in r.notCheckable <==> n in names && !c)
    decreases |names|
  {
    if names != [] {
      var name, c := names[0], Comparable(md5Src, md5Dst, names[0]);
      assert names == [name] + names[1..];
      assert name !in names[1..] by { LessIrreflexive(name); }
      if c {
        PutIs(src, name, Get(md5Src, name), n);
        PutIs(dst, name, Get(md5Dst, name), n);
        SettleIs(Put(src, name, Get(md5Src, name)), Put(dst, name, Get(md5Dst, name)), md5Src, md5Dst, names[1..], n);
      } else {
        DeleteIs(src, name, n);
        DeleteIs(dst, name, n);
        SettleIs(Delete(src, name), Delete(dst, name), md5Src, md5Dst, names[1..], n);
      }
    }
  }

  /** The names whose MD5s are there on both sides, or not. */
  function Divide(names: seq<string>, md5Src: seq<Item>, md5Dst: seq<Item>, comparable: bool): set<string> {
    set n | n in names && Comparable(md5Src, md5Dst, n) == comparable
  }

  lemma SplitOneMore(names: seq<string>, md5Src: seq<Item>, md5Dst: seq<Item>, comparable: bool)
    requires names != [] && names[0] !in names[1..]
    ensures |Divide(names, md5Src, md5Dst, comparable)| == |Divide(names[1..], md5Src, md5Dst, comparable)| +
      if Comparable(md5Src, md5Dst, names[0]) == comparable then 1 else 0
  {
    hide Comparable;
    var name, rest := names[0], Divide(names[1..], md5Src, md5Dst, comparable);
    assert names == [name] + names[1..];
    assert Divide(names, md5Src, md5Dst, comparable) ==
      if Comparable(md5Src, md5Dst, name) == comparable then rest + {name} else rest;
  }

  /** The names counted as not checkable, and the rest of the fallback, are counted once each. */
  lemma {:induction false} SettleCounts(src: seq<Item>, dst: seq<Item>, md5Src: seq<Item>, md5Dst: seq<Item>,
      names: seq<string>)
    requires Rising(names)
    ensures var r := Settle(src, dst, md5Src, md5Dst, names);
      && |r.notCheckable| == |Divide(names, md5Src, md5Dst, false)|
      && |names| - |r.notCheckable| == |Divide(names, md5Src, md5Dst, true)|
    decreases |names|
  {
    if names != [] {
      var name := names[0];
      assert name !in names[1..] by { LessIrreflexive(name); }
      SplitOneMore(names, md5Src, md5Dst, false);
      SplitOneMore(names, md5Src, md5Dst, true);
      hide Put, Delete, Get, Comparable, Less, Divide;
      if Comparable(md5Src, md5Dst, name) {
        SettleCounts(Put(src, name, Get(md5Src, name)), Put(dst, name, Get(md5Dst, name)), md5Src, md5Dst, names[1..]);
      } else {
        SettleCounts(Delete(src, name), Delete(dst, name), md5Src, md5Dst, names[1..]);
      }
    } else {
      assert Divide(names, md5Src, md5Dst, false) == {} == Divide(names, md5Src, md5Dst, true);
    }
  }

  // ---------------------------------------------------------------- which runs are made

  function FirstStart(side: Side): Start {
    Start(side, false, None)
  }

  /** The hashes of all files of a side. */
  function Files(env: Env, side: Side): seq<Item> {
    ToDict(env.read(FirstStart(side)).entries)
  }

  function Fallbacks(env: Env, hashType: HashType): seq<string> {
    if hashType == Crc32c then Fallback(Files(env, Src), Files(env, Src), Files(env, Dst)) else []
  }

  function Md5Start(env: Env, hashType: HashType, side: Side): Start {
    Start(side, true, if |Files(env, side)| > 1 then Some(Fallbacks(env, hashType)) else None)
  }

  /** The MD5s of the files of the fallback. */
  function Md5s(env: Env, hashType: HashType, side: Side): seq<Item> {
    ToDict(env.read(Md5Start(env, hashType, side)).entries)
  }

  /** The runs of a check that nobody stops and that does not fail. */
  function Plan(env: Env, hashType: HashType): seq<Start> {
    [FirstStart(Src), FirstStart(Dst)] +
    if Fallbacks(env, hashType) == [] then [] else [Md5Start(env, hashType, Src), Md5Start(env, hashType, Dst)]
  }

  predicate Goes(env: Env, start: Start) {
    !env.stop(start.side, start.md5) && env.read(start).exit == 0
  }

  predicate LastSays(env: Env, pass: Pass, started: seq<Start>) {
    pass.Ended? && pass.result.Failed? ==>
      && started != []
      && Says(env, started[|started| - 1], pass.result.state, pass.result.tree, pass.result.error)
  }

  predicate FirstErrors(env: Env, errors: map<Side, string>) {
    && Src in errors && errors[Src] == env.read(FirstStart(Src)).error
    && Dst in errors && errors[Dst] == env.read(FirstStart(Dst)).error
  }

  lemma FirstPassIs(env: Env)
    ensures var (pass, started) := FirstPass(env, SIDES, map[], map[]);
      && (pass.Through? <==> Goes(env, FirstStart(Src)) && Goes(env, FirstStart(Dst)))
      && (pass.Through? ==> BothSides(pass.hashes, pass.errors))
      && (pass.Through? ==> pass.hashes[Src] == Files(env, Src) && pass.hashes[Dst] == Files(env, Dst))
      && (pass.Through? ==> FirstErrors(env, pass.errors))
      && LastSays(env, pass, started)
      && Follows(env, [FirstStart(Src), FirstStart(Dst)], pass, started)
  {
    hide FirstPass, ToDict, Generate;
    var read, last := env.read(FirstStart(Src)), env.read(FirstStart(Dst));
    var entries, errors := map[Src := ToDict(read.entries)], map[Src := read.error];
    FirstPassStep(env, 0, map[], map[]);
    FirstPassStep(env, 1, entries, errors);
    FirstPassEnds(env, entries[Dst := ToDict(last.entries)], errors[Dst := last.error]);
    assert SIDES[0..] == SIDES && SIDES[2..] == [];
    assert map[][Src := ToDict(read.entries)] == entries && map[][Src := read.error] == errors;
    assert [FirstStart(Src)] + [FirstStart(Dst)] == [FirstStart(Src), FirstStart(Dst)];
    assert [FirstStart(Dst)] + [] == [FirstStart(Dst)] && [FirstStart(Src)] + [] == [FirstStart(Src)];
  }

  lemma FirstPassEnds(env: Env, entries: map<Side, seq<Item>>, errors: map<Side, string>)
    ensures FirstPass(env, [], entries, errors) == (Through(entries, errors), [])
  {
  }

  lemma Md5PassEnds(env: Env, entries: map<Side, seq<Item>>, errors: map<Side, string>,
      fallback: seq<string>, md5: map<Side, seq<Item>>)
    requires BothSides(entries, errors)
    ensures Md5Pass(env, [], entries, errors, fallback, md5) == (Through(md5, errors), [])
  {
  }

  /** The runs started follow `plan`: up to the run before which the user stopped, or that failed. */
  predicate Follows(env: Env, plan: seq<Start>, pass: Pass, started: seq<Start>) {
    match pass
    case Through(_, _) => started == plan
    case Ended(Stopped) => started < plan && env.stop(plan[|started|].side, plan[|started|].md5)
    case Ended(Failed(state, side, _, _)) =>
      && started != [] && started <= plan && side == started[|started| - 1].side
      && env.read(started[|started| - 1]).exit != 0 && state != SUCCESS
    case Ended(_) => false
  }

  /** `text` are the lines of both texts, of which either may be empty. */
  predicate Lines(a: string, b: string, text: string) {
    if a == "" then text == b else if b == "" then text == a else text == a + "\n" + b
  }

  lemma LinesJoin(a: string, b: string)
    ensures Lines(a, b, JoinLines(a, b)) && (b == "" ==> JoinLines(a, b) == a)
  {
  }

  function Md5Error(env: Env, hashType: HashType, side: Side): string {
    env.read(Md5Start(env, hashType, side)).error
  }

  /** What a failed run says: unset for an exit of -1, the side's files so far, and its errors so far. */
  predicate Says(env: Env, start: Start, state: State, tree: seq<Node>, error: string) {
    var run, first := env.read(start), env.read(FirstStart(start.side));
    && state == (if run.exit == -1 then UNSET else FAILED)
    && (if start.md5 then Lines(first.error, run.error, error) else error == run.error)
    && tree == Generate(if start.md5 then Files(env, start.side) else run.entries).tree
  }

  lemma Md5PassIs(env: Env, hashType: HashType, entries: map<Side, seq<Item>>, errors: map<Side, string>)
    requires BothSides(entries, errors) && entries[Src] == Files(env, Src) && entries[Dst] == Files(env, Dst)
    ensures var (pass, started) := Md5Pass(env, SIDES, entries, errors, Fallbacks(env, hashType), map[]);
      && (pass.Through? <==> Goes(env, Md5Start(env, hashType, Src)) && Goes(env, Md5Start(env, hashType, Dst)))
      && (pass.Through? ==> BothSides(pass.hashes, pass.errors))
      && (pass.Through? ==>
            pass.hashes[Src] == Md5s(env, hashType, Src) && pass.hashes[Dst] == Md5s(env, hashType, Dst))
      && Follows(env, [Md5Start(env, hashType, Src), Md5Start(env, hashType, Dst)], pass, started)
  {
    hide Md5Pass, Fallbacks, ToDict, Generate, JoinLines;
    var fallback, one, two := Fallbacks(env, hashType), Md5Start(env, hashType, Src), Md5Start(env, hashType, Dst);
    var read, last := env.read(one), env.read(two);
    var errors' := if read.error == "" then errors else errors[Src := JoinLines(errors[Src], read.error)];
    var errors'' := if last.error == "" then errors' else errors'[Dst := JoinLines(errors'[Dst], last.error)];
    var md5: map<Side, seq<Item>> := map[];
    var first := md5[Src := ToDict(read.entries)];
    assert SIDES[0..] == SIDES && SIDES[2..] == [];
    Md5PassStep(env, 0, entries, errors, fallback, md5);
    Md5PassStep(env, 1, entries, errors', fallback, first);
    Md5PassEnds(env, entries, errors'', fallback, first[Dst := ToDict(last.entries)]);
    assert [one] + [two] == [one, two] && [two] + [] == [two] && [one] + [] == [one];
  }

  /** One run of the fallback, before the rest of them: what it leaves of the errors, or says. */
  lemma Md5StepSays(env: Env, k: nat, hashType: HashType, entries: map<Side, seq<Item>>, errors: map<Side, string>,
                    md5: map<Side, seq<Item>>)
    requires k < 2 && BothSides(entries, errors) && entries[Src] == Files(env, Src) && entries[Dst] == Files(env, Dst)
    requires errors[SIDES[k]] == env.read(FirstStart(SIDES[k])).error
    ensures var side, start := SIDES[k], Md5Start(env, hashType, SIDES[k]);
      var run := env.read(start); var text := JoinLines(errors[side], run.error);
      var errors' := if run.error == "" then errors else errors[side := text];
      var all := Md5Pass(env, SIDES[k..], entries, errors, Fallbacks(env, hashType), md5);
      && Lines(errors[side], run.error, errors'[side])
      && (if env.stop(side, true) then all.0 == Ended(Stopped)
          else if run.exit != 0 then all.0.Ended? && all.1 == [start] && LastSays(env, all.0, all.1)
          else
            var rest := Md5Pass(env, SIDES[k+1..], entries, errors', Fallbacks(env, hashType),
                                md5[side := ToDict(run.entries)]);
            all == (rest.0, [start] + rest.1))
  {
    Md5PassStep(env, k, entries, errors, Fallbacks(env, hashType), md5);
    hide Md5Pass, Fallbacks, ToDict, Generate;
  }

  lemma Md5PassSays(env: Env, hashType: HashType, entries: map<Side, seq<Item>>, errors: map<Side, string>)
    requires BothSides(entries, errors) && entries[Src] == Files(env, Src) && entries[Dst] == Files(env, Dst)
    requires FirstErrors(env, errors)
    ensures var (pass, started) := Md5Pass(env, SIDES, entries, errors, Fallbacks(env, hashType), map[]);
      && LastSays(env, pass, started)
      && (pass.Through? ==>
            && Src in pass.errors && Lines(errors[Src], Md5Error(env, hashType, Src), pass.errors[Src])
            && Dst in pass.errors && Lines(errors[Dst], Md5Error(env, hashType, Dst), pass.errors[Dst]))
  {
    hide Md5Pass, Fallbacks, ToDict, Generate, JoinLines, Lines, Says, Md5Start, Files;
    var read, last := env.read(Md5Start(env, hashType, Src)), env.read(Md5Start(env, hashType, Dst));
    var errors' := if read.error == "" then errors else errors[Src := JoinLines(errors[Src], read.error)];
    var errors'' := if last.error == "" then errors' else errors'[Dst := JoinLines(errors'[Dst], last.error)];
    var md5: map<Side, seq<Item>> := map[];
    var first := md5[Src := ToDict(read.entries)];
    assert SIDES[0..] == SIDES && SIDES[2..] == [];
    Md5StepSays(env, 0, hashType, entries, errors, md5);
    Md5StepSays(env, 1, hashType, entries, errors', first);
    Md5PassEnds(env, entries, errors'', Fallbacks(env, hashType), first[Dst := ToDict(last.entries)]);
  }

  /** What a check that succeeds compares. */
  function Compared(env: Env, hashType: HashType): Settled {
    Settle(Files(env, Src), Files(env, Dst),
      Md5s(env, hashType, Src), Md5s(env, hashType, Dst), Fallbacks(env, hashType))
  }

  /** What Checked is made of. */
  lemma CheckedIs(env: Env, hashType: HashType)
    ensures var (r, started) := Checked(env, hashType); var first := FirstPass(env, SIDES, map[], map[]);
      if first.0.Ended? then r == first.0.result && started == first.1
      else if Fallbacks(env, hashType) == [] then r.Success? && started == first.1
      else
        BothSides(first.0.hashes, first.0.errors)
        && (var second := Md5Pass(env, SIDES, first.0.hashes, first.0.errors, Fallbacks(env, hashType), map[]);
            started == first.1 + second.1 && if second.0.Ended? then r == second.0.result else r.Success?)
  {
    FirstPassIs(env);
    hide FirstPass, Md5Pass, Fallback, ToDict, Generate, Diff, Settle, Follows, Sample, OrNone;
  }

  predicate AllGo(env: Env, plan: seq<Start>) {
    forall s :: s in plan ==> Goes(env, s)
  }

  /** The plan is cut short by a run that is refused or fails. */
  lemma FollowsMeans(env: Env, plan: seq<Start>, pass: Pass, started: seq<Start>)
    requires pass.Ended? && Follows(env, plan, pass, started)
    ensures !AllGo(env, plan) && !pass.result.Success?
  {
    if pass.result.Stopped? { assert plan[|started|] in plan; }
    if pass.result.Failed? { assert plan[|started| - 1] == started[|started| - 1] && plan[|started| - 1] in plan; }
  }

  /**
   A check succeeds exactly if every run of its plan is let through and exits with 0, having made
   just these runs; it never starts a run after a refusal or a failure.
   */
  lemma RunsFollowThePlan(env: Env, hashType: HashType)
    ensures var (r, started) := Checked(env, hashType);
      && (r.Success? <==> AllGo(env, Plan(env, hashType)))
      && (if r.Success? then started == Plan(env, hashType) else Follows(env, Plan(env, hashType), Ended(r), started))
  {
    var one, two := [FirstStart(Src), FirstStart(Dst)], [Md5Start(env, hashType, Src), Md5Start(env, hashType, Dst)];
    var first, plan := FirstPass(env, SIDES, map[], map[]), Plan(env, hashType);
    FirstPassIs(env);
    CheckedIs(env, hashType);
    assert plan == if Fallbacks(env, hashType) == [] then one else one + two;
    hide Checked, FirstPass, Md5Pass, Fallbacks, Plan, Md5Start, FirstStart, Goes;
    if first.0.Ended? {
      FollowsBefore(env, one, two, first.0, first.1);
      FollowsMeans(env, plan, first.0, first.1);
    } else if Fallbacks(env, hashType) == [] {
      BothGo(env, one);
    } else {
      Md5PassIs(env, hashType, first.0.hashes, first.0.errors);
      var second := Md5Pass(env, SIDES, first.0.hashes, first.0.errors, Fallbacks(env, hashType), map[]);
      if second.0.Ended? {
        FollowsAfter(env, one, two, second.0, second.1);
        FollowsMeans(env, plan, second.0, one + second.1);
      } else {
        BothGo(env, one);
        BothGo(env, two);
        assert AllGo(env, one + two);
      }
    }
  }

  lemma BothGo(env: Env, starts: seq<Start>)
    requires |starts| == 2 && Goes(env, starts[0]) && Goes(env, starts[1])
    ensures AllGo(env, starts)
  {
  }

  lemma FollowsBefore(env: Env, one: seq<Start>, two: seq<Start>, pass: Pass, started: seq<Start>)
    requires pass.Ended? && Follows(env, one, pass, started)
    ensures Follows(env, one + two, pass, started)
  {
    assert started <= one ==> started <= one + two;
    if pass.result.Stopped? { assert (one + two)[|started|] == one[|started|]; }
  }

  lemma FollowsAfter(env: Env, one: seq<Start>, two: seq<Start>, pass: Pass, started: seq<Start>)
    requires pass.Ended? && Follows(env, two, pass, started)
    ensures Follows(env, one + two, pass, one + started)
  {
    var plan, all := one + two, one + started;
    assert started <= two ==> all <= plan;
    if pass.result.Stopped? { assert plan[|all|] == two[|started|]; }
    if pass.result.Failed? { assert all[|all| - 1] == started[|started| - 1]; }
  }

  lemma SuccessIs(env: Env, hashType: HashType)
    requires Checked(env, hashType).0.Success?
    ensures var r, s := Checked(env, hashType).0, Compared(env, hashType);
      && (r.srcTree, r.dstTree) == Diff(Generate(s.src).tree, Generate(s.dst).tree)
      && r.notCheckable == |s.notCheckable| && r.sample == Sample(s.notCheckable)
      && r.md5Fallback == |Fallbacks(env, hashType)| - |s.notCheckable| && r.hashType == hashType
  {
    FirstPassIs(env);
    var first := FirstPass(env, SIDES, map[], map[]);
    if Fallbacks(env, hashType) != [] {
      Md5PassIs(env, hashType, first.0.hashes, first.0.errors);
    }
    hide FirstPass, Md5Pass, Fallback, ToDict, Generate, Diff;
  }

  /** Each side's error text of a check that succeeds: the lines of its runs, or none. */
  lemma ErrorTexts(env: Env, hashType: HashType)
    requires Checked(env, hashType).0.Success?
    ensures var r := Checked(env, hashType).0;
      ErrorsOf(env, hashType, Src, r.srcError) && ErrorsOf(env, hashType, Dst, r.dstError)
  {
    FirstPassIs(env);
    var first := FirstPass(env, SIDES, map[], map[]);
    if Fallbacks(env, hashType) != [] {
      Md5PassIs(env, hashType, first.0.hashes, first.0.errors);
      Md5PassSays(env, hashType, first.0.hashes, first.0.errors);
    }
    hide FirstPass, Md5Pass, Fallback, ToDict, Generate, Diff, Settle, Sample, Follows, Md5Start;
  }

  /** A check that fails says so with the state, the files and the errors of the run that failed. */
  lemma FailureSays(env: Env, hashType: HashType)
    requires Checked(env, hashType).0.Failed?
    ensures var (r, started) := Checked(env, hashType);
      started != [] && Says(env, started[|started| - 1], r.state, r.tree, r.error)
  {
    FirstPassIs(env);
    CheckedIs(env, hashType);
    var first := FirstPass(env, SIDES, map[], map[]);
    if first.0.Through? && Fallbacks(env, hashType) != [] {
      Md5PassSays(env, hashType, first.0.hashes, first.0.errors);
    }
    hide Checked, FirstPass, Md5Pass, Fallbacks, Says, Follows;
  }

  predicate ErrorsOf(env: Env, hashType: HashType, side: Side, text: Option<string>) {
    var second := if Fallbacks(env, hashType) == [] then "" else Md5Error(env, hashType, side);
    var first := env.read(FirstStart(side)).error;
    if first == "" && second == "" then text == None else text.Some? && Lines(first, second, text.value)
  }

  // ---------------------------------------------------------------- like with like

  /** Both hashes of a file, or that it is in neither tree: never a CRC32C against an MD5. */
  predicate LikeWithLike(env: Env, name: string) {
    var s, src, dst := Compared(env, Crc32c), Files(env, Src), Files(env, Dst);
    if !In(name, src) || !In(name, dst) then
      Entry(s.src, name) == Entry(src, name) && Entry(s.dst, name) == Entry(dst, name)
    else if Truthy(Get(src, name)) && Truthy(Get(dst, name)) then
      Entry(s.src, name) == Some(Get(src, name)) && Entry(s.dst, name) == Some(Get(dst, name))
    else if Comparable(Md5s(env, Crc32c, Src), Md5s(env, Crc32c, Dst), name) then
      && Entry(s.src, name) == Some(Get(Md5s(env, Crc32c, Src), name))
      && Entry(s.dst, name) == Some(Get(Md5s(env, Crc32c, Dst), name))
    else Entry(s.src, name) == None && Entry(s.dst, name) == None && name in s.notCheckable
  }

  predicate NotCheckable(env: Env, name: string) {
    && NeedsMd5(Files(env, Src), Files(env, Dst), name)
    && !Comparable(Md5s(env, Crc32c, Src), Md5s(env, Crc32c, Dst), name)
  }

  /**
   A CRC32C check compares each common file CRC32C to CRC32C or MD5 to MD5, or leaves it out of
   both trees and counts it; the two counts make up the fallback.
   */
  lemma ComparesLikeWithLike(env: Env)
    requires Checked(env, Crc32c).0.Success?
    ensures forall name :: LikeWithLike(env, name)
    ensures var r, fallback := Checked(env, Crc32c).0, Fallbacks(env, Crc32c);
      && (forall name :: name in fallback <==> NeedsMd5(Files(env, Src), Files(env, Dst), name))
      && r.notCheckable == |set name | name in fallback && NotCheckable(env, name)|
      && r.md5Fallback == |set name | name in fallback && !NotCheckable(env, name)|
      && r.notCheckable + r.md5Fallback == |fallback|
  {
    var src, dst, fallback := Files(env, Src), Files(env, Dst), Fallbacks(env, Crc32c);
    var md5Src, md5Dst := Md5s(env, Crc32c, Src), Md5s(env, Crc32c, Dst);
    ToDictIsDict(env.read(FirstStart(Src)).entries);
    ToDictIsDict(env.read(FirstStart(Dst)).entries);
    FallbackExact(src, dst);
    SuccessIs(env, Crc32c);
    hide Checked, ToDict, Fallback, Md5s, Settle, Less;
    forall name
      ensures LikeWithLike(env, name)
    {
      SettleIs(src, dst, md5Src, md5Dst, fallback, name);
    }
    SettleCounts(src, dst, md5Src, md5Dst, fallback);
    assert (set name | name in fallback && NotCheckable(env, name)) == Divide(fallback, md5Src, md5Dst, false);
    assert (set name | name in fallback && !NotCheckable(env, name)) == Divide(fallback, md5Src, md5Dst, true);
  }

  // ---------------------------------------------------------------- the verdict

  /** A file is on both sides with one hash, or on neither. */
  predicate Matches(left: seq<Item>, right: seq<Item>, name: string) {
    Entry(left, name) == Entry(right, name) && Entry(left, name) != Some(None)
  }

  lemma HasEntry(d: seq<Item>, name: string, h: Hash)
    requires Dict(d)
    ensures Has(d, Split(name), h) <==> Entry(d, name) == Some(h)
  {
    if Has(d, Split(name), h) {
      var i :| 0 <= i < |d| && Split(d[i].name) == Split(name) && d[i].hash == h;
      SplitInjective(d[i].name, name);
    }
    if Entry(d, name) == Some(h) {
      assert d[Index(d, name)].name == name;
    }
  }

  lemma HasName(d: seq<Item>, p: Path, h: Hash) returns (name: string)
    requires Has(d, p, h)
    ensures Split(name) == p
  {
    var i :| 0 <= i < |d| && Split(d[i].name) == p && d[i].hash == h;
    name := d[i].name;
  }

  lemma DictVerdict(left: seq<Item>, right: seq<Item>)
    requires Dict(left) && Dict(right) && PrefixFree(left) && PrefixFree(right)
    ensures Diff(Generate(left).tree, Generate(right).tree) == ([], []) <==> forall name :: Matches(left, right, name)
  {
    Verdict(left, right);
    hide Diff, Generate, PrefixFree, Split, Entry;
    if SameFiles(left, right) && forall p, h :: Has(left, p, h) ==> h.Some? {
      forall name
        ensures Matches(left, right, name)
      {
        SameEntry(left, right, name);
      }
    }
    if forall name :: Matches(left, right, name) {
      forall p, h
        ensures Has(left, p, h) <==> Has(right, p, h)
        ensures Has(left, p, h) ==> h.Some?
      {
        if Has(left, p, h) {
          var name := HasName(left, p, h);
          assert Matches(left, right, name);
          HasEntry(left, name, h);
          HasEntry(right, name, h);
        }
        if Has(right, p, h) {
          var name := HasName(right, p, h);
          assert Matches(left, right, name);
          HasEntry(left, name, h);
          HasEntry(right, name, h);
        }
      }
    }
  }

  lemma SameEntry(left: seq<Item>, right: seq<Item>, name: string)
    requires Dict(left) && Dict(right) && SameFiles(left, right)
    requires forall p, h :: Has(left, p, h) ==> h.Some?
    ensures Matches(left, right, name)
  {
    hide Split;
    if In(name, left) {
      HasEntry(left, name, Get(left, name));
      HasEntry(right, name, Get(left, name));
    }
    if In(name, right) {
      HasEntry(right, name, Get(right, name));
      HasEntry(left, name, Get(right, name));
    }
  }

  /** Names that are prefix-free stay so when some are left out. */
  lemma FewerPrefixFree(few: seq<Item>, many: seq<Item>)
    requires Dict(few) && PrefixFree(many) && forall name :: In(name, few) ==> In(name, many)
    ensures PrefixFree(few)
  {
    forall i, j | 0 <= i < |few| && 0 <= j < |few| && i != j
      ensures !Blocks(few[i], few[j])
    {
      assert In(few[i].name, few) && In(few[j].name, few);
      var a, b := many[Index(many, few[i].name)], many[Index(many, few[j].name)];
      assert !Blocks(a, b);
    }
  }

  /** What the verdict of a CRC32C check says about one name. */
  predicate Agrees(env: Env, name: string) {
    var src, dst := Files(env, Src), Files(env, Dst);
    && (In(name, src) <==> In(name, dst))
    && (In(name, src) ==>
          if Truthy(Get(src, name)) && Truthy(Get(dst, name)) then Get(src, name) == Get(dst, name)
          else NotCheckable(env, name) || Get(Md5s(env, Crc32c, Src), name) == Get(Md5s(env, Crc32c, Dst), name))
  }

  lemma AgreesMatches(env: Env, name: string)
    requires LikeWithLike(env, name)
    requires (In(name, Files(env, Src)) && In(name, Files(env, Dst))) || NotOnBothSides(env, name)
    ensures var s := Compared(env, Crc32c); Matches(s.src, s.dst, name) <==> Agrees(env, name)
  {
    hide Compared, Files, Md5s;
  }

  /** On one side only, or on none. */
  predicate NotOnBothSides(env: Env, name: string) {
    !In(name, Files(env, Src)) || !In(name, Files(env, Dst))
  }

  /**
   The verdict of a successful CRC32C check of prefix-free sides: both trees are empty exactly if
   the sides have the same names and each file's CRC32Cs, else its MD5s where both have one, agree.
   */
  lemma CrcVerdict(env: Env)
    requires Checked(env, Crc32c).0.Success? && PrefixFree(Files(env, Src)) && PrefixFree(Files(env, Dst))
    ensures var r := Checked(env, Crc32c).0;
      && (HashsumOutcome(r.srcTree, r.dstTree, r.notCheckable) != Different <==> forall name :: Agrees(env, name))
      && (HashsumOutcome(r.srcTree, r.dstTree, r.notCheckable) == Identical <==>
          forall name :: Agrees(env, name) && !NotCheckable(env, name))
  {
    var s, r, fallback := Compared(env, Crc32c), Checked(env, Crc32c).0, Fallbacks(env, Crc32c);
    ComparesLikeWithLike(env);
    SuccessIs(env, Crc32c);
    ComparedIsDict(env);
    hide Checked, Files, Md5s, Fallbacks, Compared, Diff, Generate, PrefixFree;
    DictVerdict(s.src, s.dst);
    forall name
      ensures Matches(s.src, s.dst, name) <==> Agrees(env, name)
    {
      assert LikeWithLike(env, name);
      AgreesMatches(env, name);
    }
    assert (forall name :: Agrees(env, name)) <==> forall name :: Matches(s.src, s.dst, name);
    var none := set name | name in fallback && NotCheckable(env, name);
    assert r.notCheckable == 0 <==> none == {};
    if forall name :: !NotCheckable(env, name) {
      assert none == {};
    }
    if none == {} {
      forall name
        ensures !NotCheckable(env, name)
      {
        assert name !in none;
      }
    }
  }

  lemma ComparedIsDict(env: Env)
    requires forall name :: LikeWithLike(env, name)
    ensures var s := Compared(env, Crc32c); Dict(s.src) && Dict(s.dst)
    ensures PrefixFree(Files(env, Src)) ==> PrefixFree(Compared(env, Crc32c).src)
    ensures PrefixFree(Files(env, Dst)) ==> PrefixFree(Compared(env, Crc32c).dst)
  {
    var s, src, dst := Compared(env, Crc32c), Files(env, Src), Files(env, Dst);
    ToDictIsDict(env.read(FirstStart(Src)).entries);
    ToDictIsDict(env.read(FirstStart(Dst)).entries);
    FallbackExact(src, dst);
    SettleIs(src, dst, Md5s(env, Crc32c, Src), Md5s(env, Crc32c, Dst), Fallbacks(env, Crc32c), "");
    hide Files, Md5s, Fallbacks, Compared, PrefixFree;
    forall name
      ensures In(name, s.src) ==> In(name, src)
      ensures In(name, s.dst) ==> In(name, dst)
    {
      assert LikeWithLike(env, name);
    }
    if PrefixFree(src) { FewerPrefixFree(s.src, src); }
    if PrefixFree(dst) { FewerPrefixFree(s.dst, dst); }
  }

  /** Any other check says IDENTICAL exactly if both sides list the same names and hashes. */
  lemma PlainVerdict(env: Env, hashType: HashType)
    requires hashType != Crc32c && Checked(env, hashType).0.Success?
    requires PrefixFree(Files(env, Src)) && PrefixFree(Files(env, Dst))
    ensures var r := Checked(env, hashType).0;
      HashsumOutcome(r.srcTree, r.dstTree, r.notCheckable) == Identical <==>
        forall name :: Matches(Files(env, Src), Files(env, Dst), name)
  {
    SuccessIs(env, hashType);
    ToDictIsDict(env.read(FirstStart(Src)).entries);
    ToDictIsDict(env.read(FirstStart(Dst)).entries);
    DictVerdict(Files(env, Src), Files(env, Dst));
  }
}
