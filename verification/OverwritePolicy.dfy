/**
 Which copies may overwrite (overwrite_policy.py, and the order of copy_job_manager.create_for): a
 table of the paths that jobs wrote, without those already covered, decides like the full history.
 */
module OverwritePolicy {
  import opened Options
  import opened Names
  import opened Destinations

  /** The storage of a destination (None: unknown), the path as given, and whether it is local. */
  datatype Target = Target(key: Option<string>, path: Option<string>, local: bool)

  /** A row of the table: storage and normalized path. */
  datatype Place = Place(key: string, path: string)

  datatype Reason = General | MotuzDestination | NotMotuzDestination | UnknownStorage

  function Location(target: Target): Option<Place> {
    var path := NormalizedPath(target.path, target.local);
    if target.key.None? || path.None? then None else Some(Place(target.key.value, path.value))
  }

  /** The segments of a normalized path. */
  function Parts(path: string): seq<string> {
    NonEmpty(Split(path))
  }

  predicate Covered(rows: set<Place>, place: Place) {
    exists a :: a in Above(Parts(place.path)) && Place(place.key, a) in rows
  }

  predicate IsMotuzDestination(rows: set<Place>, target: Target) {
    Location(target).Some? && Covered(rows, Location(target).value)
  }

  function Decide(rows: set<Place>, general: bool, target: Target): (bool, Reason) {
    if general then (true, General)
    else if target.key.None? then (false, UnknownStorage)
    else if IsMotuzDestination(rows, target) then (true, MotuzDestination)
    else (false, NotMotuzDestination)
  }

  /** Where a target is: of a known storage, at its normalized path. */
  lemma LocationExact(target: Target)
    ensures Location(target).Some? <==> target.key.Some? && NormalizedPath(target.path, target.local).Some?
    ensures Location(target).Some? ==>
      && Location(target).value.key == target.key.value
      && Some(Location(target).value.path) == NormalizedPath(target.path, target.local)
  {
  }

  /** The reason tells the answer, and what it rests on. */
  lemma ReasonsExact(rows: set<Place>, general: bool, target: Target)
    ensures var (allowed, reason) := Decide(rows, general, target);
      && (reason.General? <==> general) && (allowed <==> reason.General? || reason.MotuzDestination?)
      && (reason.UnknownStorage? <==> !general && target.key.None?)
      && (reason.MotuzDestination? ==> Location(target).Some?)
  {
  }

  /** The path that register adds, if any; `seen` are the rows the transaction sees. */
  function Added(seen: set<Place>, target: Target): set<Place> {
    var place := Location(target);
    if place.None? || place.value.path == "/" || IsMotuzDestination(seen, target) then {} else {place.value}
  }

  /** A job or upload that writes a target; `unseen` are rows that others were just inserting. */
  datatype Write = Write(target: Target, unseen: set<Place>)

  /** The table after the writes, in order. */
  function Rows(history: seq<Write>): set<Place> {
    if history == [] then {}
    else
      var before, last := Rows(history[..|history| - 1]), history[|history| - 1];
      before + Added(before - last.unseen, last.target)
  }

  class Registry {
    var rows: set<Place>

    method IsDestination(target: Target) returns (covered: bool)
      ensures covered == IsMotuzDestination(rows, target)
    {
      var place := Location(target);
      if place.None? { return false; }
      ghost var parts := SegmentsAreProper(target.path.value);
      ghost var again := NormalizeTwice(target.path, target.local);
      PartsOf(parts);
      var above := Ancestors(place.value.path, parts);
      covered := exists a :: a in above && Place(place.value.key, a) in rows;
    }

    method DecideFor(general: bool, target: Target) returns (allowed: bool, reason: Reason)
      ensures (allowed, reason) == Decide(rows, general, target)
    {
      if general { return true, General; }
      if target.key.None? { return false, UnknownStorage; }
      var covered := IsDestination(target);
      if covered { return true, MotuzDestination; }
      return false, NotMotuzDestination;
    }

    method Register(target: Target)
      modifies this
      ensures rows == old(rows) + Added(old(rows), target)
    {
      var place := Location(target);
      if place.None? || place.value.path == "/" { return; }
      var covered := IsDestination(target);
      if covered { return; }
      rows := rows + {place.value};
    }

    /**
     create_for up to its commit: the decision first, so that the first copy never overwrites; a
     scheduled run only overwrites where everything may.
     */
    method CreateFor(general: bool, scheduled: bool, target: Target) returns (overwrite: bool)
      modifies this
      ensures overwrite == if scheduled then general else Decide(old(rows), general, target).0
      ensures rows == old(rows) + Added(old(rows), target)
    {
      if scheduled {
        overwrite := general;
      } else {
        var reason;
        overwrite, reason := DecideFor(general, target);
      }
      Register(target);
    }
  }

  // ---------------------------------------------------------------- the table and the history

  lemma PartsOf(parts: seq<string>)
    requires Proper(parts)
    ensures Parts(PathOf(parts)) == parts
  {
    SplitPathOf(parts);
    ProperStays(parts);
    var again := Split(PathOf(parts));
    assert again[0] == "" && again[1..] == if parts == [] then [""] else parts;
    assert NonEmpty(again) == NonEmpty(again[1..]);
    if parts == [] { assert [""][1..] == [] && NonEmpty([""]) == []; }
  }

  /** The location's path is the path of proper segments. */
  lemma LocationIs(target: Target) returns (parts: seq<string>)
    requires Location(target).Some?
    ensures Proper(parts) && Location(target).value.path == PathOf(parts) && Parts(Location(target).value.path) == parts
  {
    parts := NormalizeTwice(target.path, target.local);
    PartsOf(parts);
  }

  /** `write` made `place` overwritable: a path that is not the root, and a whole-segment prefix. */
  predicate Covers(write: Write, place: Place) {
    && Location(write.target).Some? && Location(write.target).value.key == place.key
    && Location(write.target).value.path != "/"
    && Parts(Location(write.target).value.path) <= Parts(place.path)
  }

  predicate Written(history: seq<Write>, place: Place) {
    exists i :: 0 <= i < |history| && Covers(history[i], place)
  }

  /** Rows of the table are paths that some write made. */
  predicate RowOk(row: Place) {
    row.path != "/" && Proper(Parts(row.path)) && PathOf(Parts(row.path)) == row.path
  }

  lemma AddedOk(seen: set<Place>, target: Target)
    ensures forall row :: row in Added(seen, target) ==> RowOk(row)
  {
    if Location(target).Some? { var parts := LocationIs(target); }
  }

  lemma {:induction false} RowsOk(history: seq<Write>)
    ensures forall row :: row in Rows(history) ==> RowOk(row)
  {
    if history != [] {
      var before, last := Rows(history[..|history| - 1]), history[|history| - 1];
      RowsOk(history[..|history| - 1]);
      AddedOk(before - last.unseen, last.target);
    }
  }

  predicate Prefix(row: Place, place: Place) {
    row.key == place.key && Parts(row.path) <= Parts(place.path)
  }

  /** A place is covered exactly by the rows whose segments are a prefix of its own. */
  lemma CoveredBy(rows: set<Place>, place: Place)
    requires Proper(Parts(place.path)) && forall row :: row in rows ==> RowOk(row)
    ensures Covered(rows, place) <==> exists row :: row in rows && Prefix(row, place)
  {
    var parts := Parts(place.path);
    if Covered(rows, place) {
      var a :| a in Above(parts) && Place(place.key, a) in rows;
      AncestorsArePrefixes(parts, Parts(a));
      assert Prefix(Place(place.key, a), place);
    }
    if exists row :: row in rows && Prefix(row, place) {
      var row :| row in rows && Prefix(row, place);
      AncestorsArePrefixes(parts, Parts(row.path));
      assert Place(place.key, row.path) == row;
    }
  }

  lemma {:induction false} RowsLikeHistory(history: seq<Write>, place: Place)
    requires Proper(Parts(place.path))
    ensures Covered(Rows(history), place) <==> Written(history, place)
  {
    RowsOk(history);
    CoveredBy(Rows(history), place);
    if history != [] {
      var front, last := history[..|history| - 1], history[|history| - 1];
      RowsLikeHistory(front, place);
      RowsOk(front);
      CoveredBy(Rows(front), place);
      WrittenOneMore(front, last, place);
      assert history == front + [last];
      LastWrite(front, last, place);
    }
  }

  lemma WrittenOneMore(front: seq<Write>, last: Write, place: Place)
    ensures Written(front + [last], place) <==> Written(front, place) || Covers(last, place)
  {
    var all := front + [last];
    assert all[|front|] == last && forall i :: 0 <= i < |front| ==> all[i] == front[i];
  }

  /** What the last write adds, or already was covered, decides for it. */
  lemma LastWrite(front: seq<Write>, last: Write, place: Place)
    requires Proper(Parts(place.path))
    ensures var rows := Rows(front) + Added(Rows(front) - last.unseen, last.target);
      (exists row :: row in rows && Prefix(row, place)) <==>
      (exists row :: row in Rows(front) && Prefix(row, place)) || Covers(last, place)
  {
    var before, seen, added := Rows(front), Rows(front) - last.unseen, Added(Rows(front) - last.unseen, last.target);
    RowsOk(front);
    if Location(last.target).Some? {
      var parts := LocationIs(last.target);
      var loc := Location(last.target).value;
      CoveredBy(seen, loc);
      if Covers(last, place) {
        if added == {} {
          var row :| row in seen && Prefix(row, loc);
          assert row in before && Prefix(row, place);
        } else {
          assert loc in added && Prefix(loc, place);
        }
      }
    }
  }

  /**
   With general overwrites off and a known storage, a job may overwrite exactly if some earlier
   write went to a path, not the root, that is a whole-segment prefix of its own, on that storage:
   the table without the covered paths decides like the full history.
   */
  lemma DecidesLikeHistory(history: seq<Write>, target: Target)
    ensures Decide(Rows(history), false, target).0 <==>
      Location(target).Some? && Written(history, Location(target).value)
    ensures Decide(Rows(history), true, target) == (true, General)
    ensures !Decide(Rows([]), false, target).0
  {
    if Location(target).Some? {
      var parts := LocationIs(target);
      RowsLikeHistory(history, Location(target).value);
    }
  }
}
