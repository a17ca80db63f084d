/** Slash-separated names, and the order Python gives strings. */
module Names {
  /** name.split('/') */
  function Split(name: string): (parts: seq<string>)
    ensures parts != []
  {
    if name == "" then [""]
    else
      var rest := Split(name[1..]);
      if name[0] == '/' then [""] + rest else [[name[0]] + rest[0]] + rest[1..]
  }

  /** How splitting goes on in front of a name. */
  lemma SplitStep(c: char, rest: string)
    ensures Split([c] + rest) ==
      if c == '/' then [""] + Split(rest) else [[c] + Split(rest)[0]] + Split(rest)[1..]
  {
    assert ([c] + rest)[1..] == rest;
  }

  /** '/'.join(parts) */
  function Join(parts: seq<string>): string
    requires parts != []
  {
    if |parts| == 1 then parts[0] else parts[0] + "/" + Join(parts[1..])
  }

  predicate Segments(parts: seq<string>) {
    parts != [] && forall i :: 0 <= i < |parts| ==> '/' !in parts[i]
  }

  lemma {:induction false} JoinSplit(name: string)
    ensures Segments(Split(name)) && Join(Split(name)) == name
  {
    if name != "" {
      var rest := Split(name[1..]);
      JoinSplit(name[1..]);
      assert name == [name[0]] + name[1..];
      if name[0] == '/' {
        assert ([""] + rest)[1..] == rest;
      } else {
        JoinPrepend(name[0], rest);
      }
    }
  }

  /** A character in front of the first segment is a character in front of the name. */
  lemma JoinPrepend(c: char, parts: seq<string>)
    requires parts != []
    ensures Join([[c] + parts[0]] + parts[1..]) == [c] + Join(parts)
  {
    var longer := [[c] + parts[0]] + parts[1..];
    assert longer[1..] == parts[1..];
    if |parts| > 1 {
      assert [c] + parts[0] + "/" + Join(parts[1..]) == [c] + (parts[0] + "/" + Join(parts[1..]));
    }
  }

  lemma {:induction false} SplitJoin(parts: seq<string>)
    requires Segments(parts)
    ensures Split(Join(parts)) == parts
    decreases |parts|, |parts[0]|
  {
    var name := Join(parts);
    if parts[0] == "" {
      if |parts| > 1 {
        SplitJoin(parts[1..]);
        assert name[1..] == Join(parts[1..]);
      }
    } else {
      var c, less := parts[0][0], [parts[0][1..]] + parts[1..];
      SplitJoin(less);
      assert less[1..] == parts[1..] && parts[0] == [c] + less[0];
      assert parts == [[c] + less[0]] + less[1..];
      JoinPrepend(c, less);
      assert name == [c] + Join(less);
    }
  }

  lemma SplitInjective(a: string, b: string)
    requires Split(a) == Split(b)
    ensures a == b
  {
    JoinSplit(a);
    JoinSplit(b);
  }

  // ---------------------------------------------------------------- order

  predicate Less(a: string, b: string) {
    b != "" && (a == "" || a[0] < b[0] || (a[0] == b[0] && Less(a[1..], b[1..])))
  }

  lemma {:induction false} LessTransitive(a: string, b: string, c: string)
    requires Less(a, b) && Less(b, c)
    ensures Less(a, c)
  {
    if a != "" && a[0] == b[0] == c[0] {
      LessTransitive(a[1..], b[1..], c[1..]);
    }
  }

  lemma {:induction false} LessIrreflexive(a: string)
    ensures !Less(a, a)
  {
    if a != "" {
      LessIrreflexive(a[1..]);
    }
  }

  lemma {:induction false} LessTotal(a: string, b: string)
    ensures a == b || Less(a, b) || Less(b, a)
  {
    if a != "" && b != "" && a[0] == b[0] {
      LessTotal(a[1..], b[1..]);
      assert a == [a[0]] + a[1..] && b == [b[0]] + b[1..];
    }
  }

  lemma LessAsymmetric(a: string, b: string)
    requires Less(a, b)
    ensures !Less(b, a) && a != b
  {
    LessIrreflexive(a);
    if Less(b, a) {
      LessTransitive(a, b, a);
    }
  }

  /** A proper prefix comes first. */
  lemma {:induction false} PrefixLess(a: string, b: string)
    requires a < b
    ensures Less(a, b)
  {
    if a != "" {
      PrefixLess(a[1..], b[1..]);
    }
  }

  /** Paths compared segment by segment. */
  predicate PathLess(p: seq<string>, q: seq<string>) {
    q != [] && (p == [] || Less(p[0], q[0]) || (p[0] == q[0] && PathLess(p[1..], q[1..])))
  }

  /** No character sorts before the slash. */
  predicate Plain(name: string) {
    forall i :: 0 <= i < |name| ==> '/' <= name[i]
  }

  /** Without such characters the order of the names is the order of their segments. */
  lemma {:induction false} PlainOrder(a: string, b: string)
    requires Plain(a) && Plain(b) && Less(a, b)
    ensures PathLess(Split(a), Split(b))
  {
    var p, q := Split(a), Split(b);
    if a != "" && a[0] == b[0] {
      PlainOrder(a[1..], b[1..]);
      var r, s := Split(a[1..]), Split(b[1..]);
      if a[0] == '/' {
        assert p[1..] == r && q[1..] == s;
      } else {
        assert p[0][1..] == r[0] && q[0][1..] == s[0];
        assert p[1..] == r[1..] && q[1..] == s[1..];
      }
    }
  }

  lemma {:induction false} SegmentPrefixIsPrefix(p: seq<string>, q: seq<string>)
    requires Segments(p) && Segments(q) && p < q
    ensures Join(p) < Join(q)
  {
    if |p| > 1 {
      assert p[1..] < q[1..];
      SegmentPrefixIsPrefix(p[1..], q[1..]);
      assert p[0] == q[0];
    } else {
      assert p[0] == q[0];
    }
  }

  // ---------------------------------------------------------------- names under one folder

  lemma {:induction false} JoinAppend(p: seq<string>, q: seq<string>)
    requires p != [] && q != []
    ensures Join(p + q) == Join(p) + "/" + Join(q)
  {
    assert (p + q)[1..] == p[1..] + q;
    if |p| > 1 {
      JoinAppend(p[1..], q);
      assert p[0] + "/" + (Join(p[1..]) + "/" + Join(q)) == Join(p) + "/" + Join(q);
    }
  }

  lemma SplitAppend(a: string, b: string)
    ensures Split(a + "/" + b) == Split(a) + Split(b)
  {
    JoinSplit(a);
    JoinSplit(b);
    JoinAppend(Split(a), Split(b));
    SplitJoin(Split(a) + Split(b));
  }

  /** What lies between two strings with a common prefix has it too. */
  lemma {:induction false} Between(prefix: string, x: string, y: string, z: string)
    requires prefix <= x && prefix <= z && Less(x, y) && Less(y, z)
    ensures prefix <= y
  {
    if prefix != "" {
      Between(prefix[1..], x[1..], y[1..], z[1..]);
      assert y == [y[0]] + y[1..] && prefix == [prefix[0]] + prefix[1..];
    }
  }

  /** The path has a proper prefix of `k` segments, and this is it. */
  predicate InFolder(path: seq<string>, folder: seq<string>) {
    folder < path
  }

  lemma FolderPrefix(name: string, folder: seq<string>)
    requires folder != [] && InFolder(Split(name), folder)
    ensures Join(folder) + "/" <= name
  {
    var rest := Split(name)[|folder|..];
    assert Split(name) == folder + rest;
    JoinSplit(name);
    JoinAppend(folder, rest);
  }

  /** Sorting keeps the names of one folder together. */
  lemma FolderContiguous(x: string, y: string, z: string, folder: seq<string>)
    requires Less(x, y) && Less(y, z) && folder != [] && InFolder(Split(x), folder) && InFolder(Split(z), folder)
    ensures InFolder(Split(y), folder)
  {
    var prefix := Join(folder) + "/";
    FolderPrefix(x, folder);
    FolderPrefix(z, folder);
    Between(prefix, x, y, z);
    JoinSplit(x);
    SplitJoin(folder);
    SplitAppend(Join(folder), y[|prefix|..]);
    assert y == prefix + y[|prefix|..];
    assert y == Join(folder) + "/" + y[|prefix|..];
  }
}
