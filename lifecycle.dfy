/**
 * The metadata both packages keep on the collection of a run folder while it is being
 * uploaded: `first_seen`, written by the job that first lists the folder, and
 * `last_update` with `status=running`, written after every uploaded file. The two
 * packages differ only in the prefix of the keys.
 */
module Lifecycle {
  import opened Wrappers
  import opened Landing
  import opened Paths
  import Order

  /** The keys of `last_update`, `status` and `first_seen`. */
  datatype Keys = Keys(lastUpdate: string, status: string, firstSeen: string)

  /** The loop of `pre_job`: `first_seen` is written on every collection of a listed name that has none. */
  function FirstSeen(w: World, tools: Tools, keys: Keys, target: string, names: seq<string>): (r: World)
    ensures r.collections == w.collections && r.folders == w.folders
    ensures r.objects == w.objects && r.checksummed == w.checksummed
    decreases |names|
  {
    if names == [] then w
    else
      FirstSeen(FirstSeenHead(w, tools, keys, target, names[0]), tools, keys, target, names[1..])
  }

  /** `pre_job`: the target collection must exist; then `first_seen` is written once on each listed collection. */
  function PreJob(w: World, tools: Tools, keys: Keys, target: string, names: seq<string>): (r: Step)
    ensures r.raised.Some? <==> target !in w.collections
    ensures r.raised.Some? ==> r == Step(w, Some(NoSuchCollection(target)))
    ensures r.world.collections == w.collections && r.world.folders == w.folders
    ensures r.world.objects == w.objects && r.world.checksummed == w.checksummed
    ensures forall p, key :: r.world.Values(p, key) == if r.raised.Some? then w.Values(p, key)
                                                      else FirstSeenValues(w, tools, keys, target, names, p, key)
  {
    FirstSeenOnce(w, tools, keys, target, names);
    if target !in w.collections then Step(w, Some(NoSuchCollection(target)))
    else Step(FirstSeen(w, tools, keys, target, names), None)
  }

  /**
   * `refresh_last_update_metadata`: the collection of the run folder is `target` with the
   * path below the run folder cut off; its `last_update` and `status` are replaced.
   */
  function Refresh(w: World, tools: Tools, keys: Keys, path: string, root: string, target: string): (r: Step)
    ensures r.world.collections == w.collections && r.world.folders == w.folders
    ensures r.world.objects == w.objects && r.world.checksummed == w.checksummed
  {
    match RunCollection(Parse(path), Parse(root), Parse(target))
    case None => Step(w, Some(NotUnderRoot(path)))
    case Some(coll) =>
      if coll !in w.collections then Step(w, Some(NoSuchCollection(coll)))
      else Step(w.SetAvu(coll, keys.lastUpdate, tools.isoformat(tools.now)).SetAvu(coll, keys.status, "running"), None)
  }

  /** `pre_job`: the folders of the landing zone in name order, returned as `visited`. */
  method PreJobFolders(zone: Zone, tools: Tools, keys: Keys, target: string, listing: set<string>)
    returns (visited: seq<string>, raised: Option<Error>)
    modifies zone
    ensures Order.StrictlySorted(visited) && forall x :: x in visited <==> x in listing
    ensures Step(zone.State(), raised) == PreJob(old(zone.State()), tools, keys, target, visited)
  {
    visited := Order.SortedList(listing);
    if target !in zone.collections {
      return visited, Some(NoSuchCollection(target));
    }
    ghost var w0 := zone.State();
    var i := 0;
    while i < |visited|
      invariant 0 <= i <= |visited|
      invariant FirstSeen(w0, tools, keys, target, visited) == FirstSeen(zone.State(), tools, keys, target, visited[i..])
    {
      assert visited[i..][1..] == visited[i + 1..];
      var coll := JoinPath(target, visited[i]);
      if coll in zone.collections && zone.State().Values(coll, keys.firstSeen) == [] {
        zone.SetAvu(coll, keys.firstSeen, tools.isoformat(tools.now));
      }
      i := i + 1;
    }
    return visited, None;
  }

  /** `refresh_last_update_metadata`. */
  method RefreshLastUpdate(zone: Zone, tools: Tools, keys: Keys, path: string, root: string, target: string) returns (raised: Option<Error>)
    modifies zone
    ensures Step(zone.State(), raised) == Refresh(old(zone.State()), tools, keys, path, root, target)
  {
    var coll := RunCollection(Parse(path), Parse(root), Parse(target));
    if coll.None? {
      return Some(NotUnderRoot(path));
    }
    if coll.value !in zone.collections {
      return Some(NoSuchCollection(coll.value));
    }
    zone.SetAvu(coll.value, keys.lastUpdate, tools.isoformat(tools.now));
    zone.SetAvu(coll.value, keys.status, "running");
    return None;
  }

  /** `p` is the collection of one of the listed names. */
  ghost predicate Listed(target: string, names: seq<string>, p: string) {
    exists k :: 0 <= k < |names| && JoinPath(target, names[k]) == p
  }

  /** What `pre_job` leaves on each path and key. */
  ghost function FirstSeenValues(w: World, tools: Tools, keys: Keys, target: string, names: seq<string>, p: string, key: string): seq<string> {
    if key == keys.firstSeen && p in w.collections && Listed(target, names, p) && w.Values(p, key) == []
    then [tools.isoformat(tools.now)]
    else w.Values(p, key)
  }

  /**
   * `first_seen` is written once: a listed collection without it gets the current time,
   * one that has it keeps its values, and nothing else changes.
   */
  lemma {:induction false} FirstSeenOnce(w: World, tools: Tools, keys: Keys, target: string, names: seq<string>)
    ensures forall p, key :: FirstSeen(w, tools, keys, target, names).Values(p, key) == FirstSeenValues(w, tools, keys, target, names, p, key)
    decreases |names|
  {
    if names != [] {
      var w1 := FirstSeenHead(w, tools, keys, target, names[0]);
      FirstSeenOnce(w1, tools, keys, target, names[1..]);
      forall p, key ensures FirstSeen(w, tools, keys, target, names).Values(p, key) == FirstSeenValues(w, tools, keys, target, names, p, key) {
        FirstSeenStep(w, tools, keys, target, names, p, key);
      }
    }
  }

  /** One turn of the loop of `pre_job`. */
  function FirstSeenHead(w: World, tools: Tools, keys: Keys, target: string, name: string): World {
    var coll := JoinPath(target, name);
    if coll in w.collections && w.Values(coll, keys.firstSeen) == [] then w.SetAvu(coll, keys.firstSeen, tools.isoformat(tools.now)) else w
  }

  lemma FirstSeenStep(w: World, tools: Tools, keys: Keys, target: string, names: seq<string>, p: string, key: string)
    requires names != []
    ensures FirstSeenValues(FirstSeenHead(w, tools, keys, target, names[0]), tools, keys, target, names[1..], p, key)
         == FirstSeenValues(w, tools, keys, target, names, p, key)
  {
    var coll := JoinPath(target, names[0]);
    var w1 := FirstSeenHead(w, tools, keys, target, names[0]);
    ListedCons(target, names, p);
    assert w1.collections == w.collections;
    if p == coll && key == keys.firstSeen && coll in w.collections && w.Values(coll, keys.firstSeen) == [] {
      assert w1.Values(p, key) == [tools.isoformat(tools.now)];
    } else {
      assert w1.Values(p, key) == w.Values(p, key);
    }
  }

  /** The names listed are the first one and the names listed after it. */
  lemma ListedCons(target: string, names: seq<string>, p: string)
    requires names != []
    ensures Listed(target, names, p) <==> JoinPath(target, names[0]) == p || Listed(target, names[1..], p)
  {
    if Listed(target, names[1..], p) {
      var k :| 0 <= k < |names[1..]| && JoinPath(target, names[1..][k]) == p;
      assert JoinPath(target, names[k + 1]) == p;
    }
    if Listed(target, names, p) && p != JoinPath(target, names[0]) {
      var k :| 0 <= k < |names| && JoinPath(target, names[k]) == p;
      assert k != 0;
      assert JoinPath(target, names[1..][k - 1]) == p;
    }
    if p == JoinPath(target, names[0]) {
      assert JoinPath(target, names[0]) == p;
    }
  }

  /** Running `pre_job` a second time over the same names changes no value. */
  lemma FirstSeenIdempotent(w: World, tools: Tools, keys: Keys, target: string, names: seq<string>)
    ensures forall p, key :: FirstSeen(FirstSeen(w, tools, keys, target, names), tools, keys, target, names).Values(p, key)
                          == FirstSeen(w, tools, keys, target, names).Values(p, key)
  {
    var once := FirstSeen(w, tools, keys, target, names);
    FirstSeenOnce(w, tools, keys, target, names);
    FirstSeenOnce(once, tools, keys, target, names);
  }

  /**
   * A refresh for a file below a run folder writes `last_update` and `status=running` on
   * the run folder's collection, `<collection>/<run>`, and on nothing else.
   */
  lemma RefreshOfNestedFile(w: World, tools: Tools, keys: Keys, root: Path, coll: seq<string>, run: string, rest: seq<string>)
    requires root.Valid() && root.absolute && IsPart(run) && rest != []
    requires forall k :: 0 <= k < |rest| ==> IsPart(rest[k])
    requires forall k :: 0 <= k < |coll| ==> IsPart(coll[k])
    requires keys.lastUpdate != keys.status
    requires Format(Path(true, coll + [run])) in w.collections
    ensures var path := Format(Path(true, root.parts + [run] + rest));
            var target := Format(Path(true, coll + [run] + rest));
            var runColl := Format(Path(true, coll + [run]));
            var r := Refresh(w, tools, keys, path, Format(root), target);
            r.raised.None?
            && r.world.Values(runColl, keys.lastUpdate) == [tools.isoformat(tools.now)]
            && r.world.Values(runColl, keys.status) == ["running"]
            && forall p, key :: p != runColl ==> r.world.Values(p, key) == w.Values(p, key)
  {
    var path := Path(true, root.parts + [run] + rest);
    var target := Path(true, coll + [run] + rest);
    assert path.Valid() by {
      forall k | 0 <= k < |path.parts| ensures IsPart(path.parts[k]) {
        if k < |root.parts| {
          assert path.parts[k] == root.parts[k];
        } else if k == |root.parts| {
          assert path.parts[k] == run;
        } else {
          assert path.parts[k] == rest[k - |root.parts| - 1];
        }
      }
    }
    assert target.Valid() by {
      forall k | 0 <= k < |target.parts| ensures IsPart(target.parts[k]) {
        if k < |coll| {
          assert target.parts[k] == coll[k];
        } else if k == |coll| {
          assert target.parts[k] == run;
        } else {
          assert target.parts[k] == rest[k - |coll| - 1];
        }
      }
    }
    ParseFormat(path);
    ParseFormat(root);
    ParseFormat(target);
    RunCollectionOfNestedFile(root, coll, run, rest);
  }

  /** A path outside the landing zone's root raises and changes nothing. */
  lemma RefreshOutsideRoot(w: World, tools: Tools, keys: Keys, path: string, root: string, target: string)
    requires RelativeTo(Parse(path), Parse(root)).None?
    ensures Refresh(w, tools, keys, path, root, target) == Step(w, Some(NotUnderRoot(path)))
  {
  }

  /** `run_ichksum(path)`: the catalogue records a checksum, or the command's failure is raised. */
  function Ichksum(w: World, tools: Tools, path: string): (r: Step)
    ensures r.raised.None? <==> tools.ichksum(path)
    ensures r.raised.Some? ==> r.world == w
    ensures r.raised.None? ==> r.world == w.Checksum(path)
  {
    if tools.ichksum(path) then Step(w.Checksum(path), None) else Step(w, Some(CommandFailed("ichksum", path)))
  }

  method RunIchksum(zone: Zone, tools: Tools, path: string) returns (raised: Option<Error>)
    modifies zone
    ensures Step(zone.State(), raised) == Ichksum(old(zone.State()), tools, path)
  {
    if !tools.ichksum(path) {
      return Some(CommandFailed("ichksum", path));
    }
    zone.Checksum(path);
    return None;
  }
}
