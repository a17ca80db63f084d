/** Normalized paths and the folders above them (motuz_destinations.py). */
module Destinations {
  import opened Options
  import opened Names

  /** The segments of a path that count. */
  function NonEmpty(parts: seq<string>): seq<string> {
    if parts == [] then []
    else if parts[0] == "" then NonEmpty(parts[1..])
    else [parts[0]] + NonEmpty(parts[1..])
  }

  /** Segments that can be stored: named, and neither "." nor "..". */
  predicate Proper(parts: seq<string>) {
    forall i :: 0 <= i < |parts| ==> parts[i] !in ["", ".", ".."] && '/' !in parts[i]
  }

  /** posixpath.join('/', *parts) */
  function PathOf(parts: seq<string>): string {
    if parts == [] then "/" else "/" + Join(parts)
  }

  /** normalized_path; None for what is not a string, too. */
  function NormalizedPath(path: Option<string>, local: bool): Option<string> {
    if path.None? || '\0' in path.value || (local && (path.value == "" || path.value[0] != '/')) then None
    else
      var parts := NonEmpty(Split(path.value));
      if "." in parts || ".." in parts then None else Some(PathOf(parts))
  }

  lemma {:induction false} NonEmptyIs(parts: seq<string>)
    ensures forall p :: p in NonEmpty(parts) <==> p in parts && p != ""
  {
    if parts != [] {
      NonEmptyIs(parts[1..]);
      assert parts == [parts[0]] + parts[1..];
    }
  }

  /** Which paths are normalized: no NUL, no segment that goes nowhere or up, and from the root if they are local. */
  lemma NormalizedExact(path: Option<string>, local: bool)
    ensures NormalizedPath(path, local).Some? <==> (
      && path.Some? && '\0' !in path.value && (local ==> path.value != "" && path.value[0] == '/')
      && "." !in Split(path.value) && ".." !in Split(path.value))
  {
    if path.Some? { NonEmptyIs(Split(path.value)); }
  }

  lemma {:induction false} ProperStays(parts: seq<string>)
    requires Proper(parts)
    ensures NonEmpty(parts) == parts
  {
    if parts != [] {
      ProperStays(parts[1..]);
      assert parts == [parts[0]] + parts[1..];
    }
  }

  lemma SplitPathOf(parts: seq<string>)
    requires Proper(parts)
    ensures Split(PathOf(parts)) == [""] + if parts == [] then [""] else parts
  {
    if parts == [] {
      assert "/" == ['/'] + "" && Split("") == [""];
      SplitStep('/', "");
    } else {
      SplitJoin(parts);
      SplitStep('/', Join(parts));
      assert "/" + Join(parts) == ['/'] + Join(parts);
    }
  }

  /** Different segments make different paths. */
  lemma PathOfInjective(p: seq<string>, q: seq<string>)
    requires Proper(p) && Proper(q) && PathOf(p) == PathOf(q)
    ensures p == q
  {
    SplitPathOf(p);
    SplitPathOf(q);
    assert Split(PathOf(p))[1..] == if p == [] then [""] else p;
    assert Split(PathOf(q))[1..] == if q == [] then [""] else q;
  }

  lemma SegmentsAreProper(path: string) returns (parts: seq<string>)
    requires "." !in NonEmpty(Split(path)) && ".." !in NonEmpty(Split(path))
    ensures parts == NonEmpty(Split(path)) && Proper(parts)
  {
    parts := NonEmpty(Split(path));
    NonEmptyIs(Split(path));
    JoinSplit(path);
    forall i | 0 <= i < |parts|
      ensures parts[i] !in ["", ".", ".."] && '/' !in parts[i]
    {
      assert parts[i] in parts;
    }
  }

  /** A normalized path is the path of proper segments, and normalizing it again changes nothing. */
  lemma NormalizeTwice(path: Option<string>, local: bool) returns (parts: seq<string>)
    requires NormalizedPath(path, local).Some?
    ensures Proper(parts) && NormalizedPath(path, local) == Some(PathOf(parts))
    ensures '\0' !in PathOf(parts) && NormalizedPath(Some(PathOf(parts)), local) == Some(PathOf(parts))
  {
    parts := SegmentsAreProper(path.value);
    NoNul(parts, path.value);
    SplitPathOf(parts);
    ProperStays(parts);
    var again := Split(PathOf(parts));
    assert again[0] == "" && again[1..] == if parts == [] then [""] else parts;
    assert NonEmpty(again) == NonEmpty(again[1..]);
    if parts == [] {
      assert [""][1..] == [] && NonEmpty([""]) == [];
    }
    assert NonEmpty(again) == parts;
  }

  /** No character is added but slashes. */
  lemma NoNul(parts: seq<string>, path: string)
    requires parts == NonEmpty(Split(path)) && '\0' !in path
    ensures '\0' !in PathOf(parts)
  {
    NonEmptyIs(Split(path));
    forall p | p in parts
      ensures '\0' !in p
    {
      SplitChars(path, p);
    }
    if parts != [] { JoinChars(parts, '\0'); }
  }

  lemma {:induction false} SplitChars(path: string, part: string)
    requires part in Split(path)
    ensures forall c :: c in part ==> c in path
  {
    if path != "" {
      var rest := Split(path[1..]);
      assert path == [path[0]] + path[1..];
      if path[0] == '/' {
        if part != "" {
          assert part in rest;
          SplitChars(path[1..], part);
        }
      } else if part == [path[0]] + rest[0] {
        SplitChars(path[1..], rest[0]);
      } else {
        assert part in rest;
        SplitChars(path[1..], part);
      }
    }
  }

  lemma {:induction false} JoinChars(parts: seq<string>, c: char)
    requires parts != [] && c != '/' && forall p :: p in parts ==> c !in p
    ensures c !in Join(parts)
  {
    if |parts| > 1 { JoinChars(parts[1..], c); }
  }

  // ---------------------------------------------------------------- ancestors

  /** path.rfind('/') + 1 */
  function AfterSlash(path: string): (i: nat)
    ensures i <= |path| && (i > 0 ==> path[i - 1] == '/')
    ensures forall k :: i <= k < |path| ==> path[k] != '/'
  {
    if path == "" then 0
    else if path[|path| - 1] == '/' then |path|
    else AfterSlash(path[..|path| - 1])
  }

  function StripSlashes(path: string): (r: string)
    ensures |r| <= |path|
  {
    if path != "" && path[|path| - 1] == '/' then StripSlashes(path[..|path| - 1]) else path
  }

  /** posixpath.dirname */
  function Dirname(path: string): string {
    var head := path[..AfterSlash(path)];
    if exists i :: 0 <= i < |head| && head[i] != '/' then StripSlashes(head) else head
  }

  lemma {:induction false} JoinLast(parts: seq<string>)
    requires |parts| > 1
    ensures Join(parts) == Join(parts[..|parts| - 1]) + "/" + parts[|parts| - 1]
  {
    var front := parts[..|parts| - 1];
    if |parts| > 2 {
      JoinLast(parts[1..]);
      assert front[1..] == parts[1..][..|parts| - 2];
      assert Join(front) == parts[0] + "/" + Join(front[1..]);
    } else {
      assert parts[1..] == [parts[1]] && front == [parts[0]];
    }
  }

  lemma AfterSlashAt(path: string, i: nat)
    requires 0 < i <= |path| && path[i - 1] == '/' && '/' !in path[i..]
    ensures AfterSlash(path) == i
  {
    var j := AfterSlash(path);
    assert forall k :: i <= k < |path| ==> path[k] == path[i..][k - i];
  }

  lemma AfterSlashIs(head: string, name: string)
    requires '/' !in name
    ensures AfterSlash(head + "/" + name) == |head| + 1
  {
    var path := head + "/" + name;
    assert path[|head|] == '/' && path[|head| + 1..] == name;
    AfterSlashAt(path, |head| + 1);
  }

  /** The folder of a normalized path is the path of its segments but the last. */
  lemma DirnameOf(parts: seq<string>)
    requires Proper(parts) && parts != []
    ensures Dirname(PathOf(parts)) == PathOf(parts[..|parts| - 1])
    ensures PathOf(parts) != "/" && |PathOf(parts[..|parts| - 1])| < |PathOf(parts)|
  {
    var front, name := parts[..|parts| - 1], parts[|parts| - 1];
    if front == [] {
      assert parts == [name] && PathOf(parts) == "" + "/" + name;
      AfterSlashIs("", name);
      assert PathOf(parts)[..1] == "/";
    } else {
      JoinLast(parts);
      LastNotSlash(front);
      var head := "/" + Join(front);
      assert PathOf(parts) == head + "/" + name;
      DirnameJoin(head, name);
    }
  }

  lemma DirnameJoin(head: string, name: string)
    requires head != "" && head[|head| - 1] != '/' && '/' !in name
    ensures Dirname(head + "/" + name) == head
  {
    var path := head + "/" + name;
    AfterSlashIs(head, name);
    assert path[..|head| + 1] == head + "/";
    assert (head + "/")[|head| - 1] != '/';
    assert (head + "/")[..|head|] == head;
    assert StripSlashes(head) == head;
  }

  lemma {:induction false} LastNotSlash(parts: seq<string>)
    requires Proper(parts) && parts != []
    ensures var path := Join(parts); path != "" && path[|path| - 1] != '/'
  {
    var name := parts[|parts| - 1];
    assert name !in ["", ".", ".."];
    if |parts| > 1 { JoinLast(parts); }
  }

  /** The path of every prefix of the segments, the longest first. */
  function Above(parts: seq<string>): seq<string> {
    seq(|parts| + 1, i requires 0 <= i <= |parts| => PathOf(parts[..|parts| - i]))
  }

  /** ancestors of a normalized path */
  method Ancestors(path: string, ghost parts: seq<string>) returns (result: seq<string>)
    requires Proper(parts) && path == PathOf(parts)
    ensures result == Above(parts)
  {
    result := [path];
    var at := path;
    ghost var n := |parts|;
    assert parts[..n] == parts;
    while at != "/"
      invariant 0 <= n <= |parts| && at == PathOf(parts[..n]) && Proper(parts[..n])
      invariant |result| == |parts| - n + 1
      invariant forall i :: 0 <= i < |result| ==> result[i] == PathOf(parts[..|parts| - i])
      decreases |at|
    {
      assert n > 0;
      DirnameOf(parts[..n]);
      assert parts[..n][..n-1] == parts[..n-1];
      at := Dirname(at);
      result := result + [at];
      n := n - 1;
    }
    if n > 0 { DirnameOf(parts[..n]); }
  }

  /** ancestors lists exactly the paths whose segments are a prefix of the path's. */
  lemma AncestorsArePrefixes(parts: seq<string>, other: seq<string>)
    requires Proper(parts) && Proper(other)
    ensures PathOf(other) in Above(parts) <==> other <= parts
  {
    if PathOf(other) in Above(parts) {
      var i :| 0 <= i < |Above(parts)| && Above(parts)[i] == PathOf(other);
      PathOfInjective(other, parts[..|parts| - i]);
    }
    if other <= parts {
      var i := |parts| - |other|;
      assert parts[..|parts| - i] == other;
      assert Above(parts)[i] == PathOf(other);
    }
  }
}
