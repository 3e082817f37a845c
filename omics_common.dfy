/**
 * The run-folder life cycle of the older package. `first_seen` and the
 * `last_update`/`status=running` refresh work as in the current package, under the
 * `omics::ingest` prefix. Its finalisation is different: the gate is strict, the age of
 * a folder without updates is the difference of two readings of the clock, and once the
 * gate passes the handler refers to a name that is not defined (`chck_path`). The
 * handler therefore raises before it writes a manifest, uploads, moves or sets a status.
 */
module OmicsCommon {
  import opened Wrappers
  import opened Landing
  import opened Paths
  import Order
  import Lifecycle

  const KeyLastUpdate := "omics::ingest::last_update"
  const KeyStatus := "omics::ingest::status"
  const KeyFirstSeen := "omics::ingest::first_seen"

  /** The life-cycle keys under this package's prefix. */
  const Keys := Lifecycle.Keys(KeyLastUpdate, KeyStatus, KeyFirstSeen)

  /** The name the finalisation refers to without defining it. */
  const UndefinedManifestPath := "chck_path"

  lemma KeysDiffer()
    ensures Keys.lastUpdate != Keys.status && Keys.lastUpdate != Keys.firstSeen && Keys.status != Keys.firstSeen
  {
    assert |KeyLastUpdate| == 26 && |KeyStatus| == 21 && |KeyFirstSeen| == 25;
  }

  /**
   * `datetime.now() - (last_update or datetime.now())`: the left operand is read first,
   * so without an update the age is the difference of two clock readings.
   */
  function OmicsAge(newest: Option<int>, first: int, second: int): (r: int)
    ensures newest.None? ==> r == first - second
    ensures newest.Some? ==> r + newest.value == first
  {
    first - (if newest.Some? then newest.value else second)
  }

  /**
   * `_post_job_run_folder_done`: the newest `last_update` and its age, then the done
   * predicate, then the strict gate; past the gate the handler raises `NameError`.
   */
  function PostJobFolder(w: World, tools: Tools, delay: int, done: DonePredicate, folder: string, coll: string): (r: Step)
    ensures r.world == w
  {
    match NewestUpdate(w.Values(coll, KeyLastUpdate), tools.parseTime)
    case Err(e) => Step(w, Some(e))
    case Ok(newest) =>
      var age := OmicsAge(newest, tools.now, tools.later);
      match done(folder)
      case Err(e) => Step(w, Some(e))
      case Ok(isDone) =>
        if !isDone then Step(w, None)
        else if age > delay then Step(w, Some(UndefinedName(UndefinedManifestPath)))
        else Step(w, None)
  }

  /** The loop of `post_job` over the listed names in order; the first exception ends it. */
  function Sweep(w: World, tools: Tools, delay: int, done: DonePredicate, root: string, target: string, names: seq<string>): (r: Step)
    ensures r.world == w
    decreases |names|
  {
    if names == [] then Step(w, None)
    else
      var coll := JoinPath(target, names[0]);
      if coll !in w.collections then Sweep(w, tools, delay, done, root, target, names[1..])
      else
        var s := PostJobFolder(w, tools, delay, done, JoinPath(root, names[0]), coll);
        if s.raised.Some? then s else Sweep(s.world, tools, delay, done, root, target, names[1..])
  }

  /** `post_job`: the target collection must exist. */
  function PostJob(w: World, tools: Tools, delay: int, done: DonePredicate, root: string, target: string, names: seq<string>): (r: Step)
    ensures r.world == w
  {
    if target !in w.collections then Step(w, Some(NoSuchCollection(target)))
    else Sweep(w, tools, delay, done, root, target, names)
  }

  /** `_post_job_run_folder_done` on the zone; it reads the zone and changes nothing in it. */
  method PostJobRunFolderDone(zone: Zone, tools: Tools, delay: int, done: DonePredicate, folder: string, coll: string)
    returns (raised: Option<Error>)
    ensures raised == PostJobFolder(zone.State(), tools, delay, done, folder, coll).raised
  {
    var newest := LastUpdate(zone.State().Values(coll, KeyLastUpdate), tools.parseTime);
    if newest.Err? {
      return Some(newest.error);
    }
    var age := tools.now - (if newest.value.Some? then newest.value.value else tools.later);
    var isDone := done(folder);
    if isDone.Err? {
      return Some(isDone.error);
    }
    if !isDone.value {
      return None;
    }
    if age > delay {
      return Some(UndefinedName(UndefinedManifestPath));
    }
    return None;
  }

  /** `post_job` on the zone, over the folders of the landing zone in name order, returned as `visited`. */
  method PostJobFolders(zone: Zone, tools: Tools, delay: int, done: DonePredicate, root: string, target: string, listing: set<string>)
    returns (visited: seq<string>, raised: Option<Error>)
    ensures Order.StrictlySorted(visited) && forall x :: x in visited <==> x in listing
    ensures raised == PostJob(zone.State(), tools, delay, done, root, target, visited).raised
  {
    visited := Order.SortedList(listing);
    if target !in zone.collections {
      return visited, Some(NoSuchCollection(target));
    }
    ghost var w := zone.State();
    ghost var goal := Sweep(w, tools, delay, done, root, target, visited);
    var i := 0;
    while i < |visited|
      invariant 0 <= i <= |visited|
      invariant zone.State() == w
      invariant Sweep(w, tools, delay, done, root, target, visited[i..]) == goal
    {
      var rest := visited[i..];
      assert rest[0] == visited[i] && rest[1..] == visited[i + 1..];
      var coll := JoinPath(target, visited[i]);
      if coll in zone.collections {
        ghost var s := PostJobFolder(w, tools, delay, done, JoinPath(root, visited[i]), coll);
        assert Sweep(w, tools, delay, done, root, target, rest)
            == if s.raised.Some? then s else Sweep(w, tools, delay, done, root, target, visited[i + 1..]);
        raised := PostJobRunFolderDone(zone, tools, delay, done, JoinPath(root, visited[i]), coll);
        if raised.Some? {
          return;
        }
      } else {
        assert Sweep(w, tools, delay, done, root, target, rest) == Sweep(w, tools, delay, done, root, target, visited[i + 1..]);
      }
      i := i + 1;
    }
    assert visited[i..] == [];
    return visited, None;
  }

  /** A folder that is not done is left alone, whatever its age. */
  lemma NotDoneChangesNothing(w: World, tools: Tools, delay: int, done: DonePredicate, folder: string, coll: string)
    requires NewestUpdate(w.Values(coll, KeyLastUpdate), tools.parseTime).Ok?
    requires done(folder) == Ok(false)
    ensures PostJobFolder(w, tools, delay, done, folder, coll) == Step(w, None)
  {
  }

  /**
   * The gate is strict: a done folder reaches the finalisation, and with it the
   * `NameError`, exactly when its age exceeds the delay; an age equal to the delay waits.
   */
  lemma StrictGate(w: World, tools: Tools, delay: int, done: DonePredicate, folder: string, coll: string, newest: Option<int>)
    requires NewestUpdate(w.Values(coll, KeyLastUpdate), tools.parseTime) == Ok(newest)
    requires done(folder) == Ok(true)
    ensures var r := PostJobFolder(w, tools, delay, done, folder, coll);
            (r.raised == Some(UndefinedName(UndefinedManifestPath)) <==> OmicsAge(newest, tools.now, tools.later) > delay)
            && (r.raised.None? <==> OmicsAge(newest, tools.now, tools.later) <= delay)
    ensures newest.Some? && tools.now - newest.value == delay ==> PostJobFolder(w, tools, delay, done, folder, coll).raised.None?
  {
  }

  /**
   * A collection that never had a `last_update` is never finalised while the clock does
   * not run backwards and the delay is not negative: its age is at most 0.
   */
  lemma NoUpdateNeverFinalises(w: World, tools: Tools, delay: int, done: DonePredicate, folder: string, coll: string)
    requires w.Values(coll, KeyLastUpdate) == []
    requires tools.now <= tools.later && delay >= 0
    ensures PostJobFolder(w, tools, delay, done, folder, coll).raised
         == (if done(folder).Err? then Some(done(folder).error) else None)
  {
    assert NewestUpdate([], tools.parseTime) == Ok(None);
  }

  /**
   * The only exceptions a sweep raises: a `last_update` that does not parse, a done
   * predicate that raises, and the undefined name past the gate.
   */
  lemma PostJobFolderRaises(w: World, tools: Tools, delay: int, done: DonePredicate, folder: string, coll: string)
    ensures var r := PostJobFolder(w, tools, delay, done, folder, coll);
            r.raised.Some? ==>
              r.raised.value.UnparsableTimestamp?
              || (done(folder).Err? && r.raised.value == done(folder).error)
              || (done(folder) == Ok(true) && r.raised.value == UndefinedName(UndefinedManifestPath))
  {
    match NewestUpdate(w.Values(coll, KeyLastUpdate), tools.parseTime) {
      case Err(e) => NewestUpdateRaisesUnparsable(w.Values(coll, KeyLastUpdate), tools.parseTime);
      case Ok(_) =>
    }
  }

  /** The only exception the newest-update loop raises is an unparsable timestamp. */
  lemma {:induction false} NewestUpdateRaisesUnparsable(values: seq<string>, parse: string -> Option<int>)
    ensures NewestUpdate(values, parse).Err? ==> NewestUpdate(values, parse).error.UnparsableTimestamp?
    decreases |values|
  {
    if values != [] {
      NewestUpdateRaisesUnparsable(values[..|values| - 1], parse);
    }
  }

  /**
   * The sweep over `a + b` is the sweep over `a` when that raises, and otherwise the
   * sweep over `b`: an exception in one folder aborts the folders after it.
   */
  lemma {:induction false} SweepConcat(w: World, tools: Tools, delay: int, done: DonePredicate, root: string, target: string, a: seq<string>, b: seq<string>)
    ensures Sweep(w, tools, delay, done, root, target, a + b)
         == if Sweep(w, tools, delay, done, root, target, a).raised.Some? then Sweep(w, tools, delay, done, root, target, a)
            else Sweep(w, tools, delay, done, root, target, b)
    decreases |a|
  {
    if a != [] {
      assert (a + b)[0] == a[0] && (a + b)[1..] == a[1..] + b;
      SweepConcat(w, tools, delay, done, root, target, a[1..], b);
    } else {
      assert a + b == b;
    }
  }

  /**
   * The older package's refresh for a file below a run folder writes its own
   * `last_update` and `status=running` on the run folder's collection only.
   */
  lemma RefreshOfNestedFile(w: World, tools: Tools, root: Path, coll: seq<string>, run: string, rest: seq<string>)
    requires root.Valid() && root.absolute && IsPart(run) && rest != []
    requires forall k :: 0 <= k < |rest| ==> IsPart(rest[k])
    requires forall k :: 0 <= k < |coll| ==> IsPart(coll[k])
    requires Format(Path(true, coll + [run])) in w.collections
    ensures var path := Format(Path(true, root.parts + [run] + rest));
            var target := Format(Path(true, coll + [run] + rest));
            var runColl := Format(Path(true, coll + [run]));
            var r := Lifecycle.Refresh(w, tools, Keys, path, Format(root), target);
            r.raised.None?
            && r.world.Values(runColl, KeyLastUpdate) == [tools.isoformat(tools.now)]
            && r.world.Values(runColl, KeyStatus) == ["running"]
            && forall p, key :: p != runColl ==> r.world.Values(p, key) == w.Values(p, key)
  {
    KeysDiffer();
    Lifecycle.RefreshOfNestedFile(w, tools, Keys, root, coll, run, rest);
  }
}
