/**
 * The older package's handler for demultiplexing output folders: a folder is done once
 * the demultiplexer has written its marker file into it; uploads refresh `last_update`
 * and are then checksummed; finalisation runs from `pre_job`, and `post_job` does nothing.
 */
module OmicsFastq {
  import opened Wrappers
  import opened Landing
  import opened Paths
  import Lifecycle
  import OmicsCommon
  import Order
  import Settings
  import Illumina

  /** The operation the handler asks for: changed files are appended to, new ones uploaded. */
  const HandlerOperation := Illumina.PutAppend

  /** `delay` and `max_retries`. */
  const RetryDelay := 5
  const MaxRetries := 10

  /** The name of the file the demultiplexer writes when it is finished. */
  const DemuxDoneMarker := "DIGESTIFLOW_DEMUX_DONE.txt"

  /** `is_demuxfolder_done`: the marker exists directly in the folder. */
  predicate IsDemuxfolderDone(present: set<string>, folder: string) {
    JoinPath(folder, DemuxDoneMarker) in present
  }

  /** The predicate `post_job` receives; an existence test never raises. */
  function Done(present: set<string>): DonePredicate {
    folder => Ok(IsDemuxfolderDone(present, folder))
  }

  /** Files other than the marker do not change the answer, and the marker alone decides it. */
  lemma OnlyTheMarkerCounts(present: set<string>, folder: string, other: string)
    requires other != JoinPath(folder, DemuxDoneMarker)
    ensures IsDemuxfolderDone(present + {other}, folder) == IsDemuxfolderDone(present, folder)
    ensures IsDemuxfolderDone(present - {other}, folder) == IsDemuxfolderDone(present, folder)
    ensures IsDemuxfolderDone(present + {JoinPath(folder, DemuxDoneMarker)}, folder)
    ensures !IsDemuxfolderDone(present - {JoinPath(folder, DemuxDoneMarker)}, folder)
  {
  }

  /** The hard-coded marker is the one the current package's settings default to. */
  lemma MarkerIsTheSettingsDefault()
    ensures Settings.LoadRodeos(map[]).Ok? && Settings.LoadRodeos(map[]).value.fastqDoneMarkerFile == DemuxDoneMarker
  {
    Settings.RodeosDefaults();
  }

  /** `post_data_obj_create` and `post_data_obj_update`: refresh `last_update`, then `run_ichksum(target)`. */
  function DataObjectHook(w: World, tools: Tools, path: string, root: string, target: string): (r: Step)
    ensures r.world.folders == w.folders && r.world.collections == w.collections && r.world.objects == w.objects
    ensures r.world.checksummed <= w.checksummed + {target}
  {
    var refreshed := Lifecycle.Refresh(w, tools, OmicsCommon.Keys, path, root, target);
    if refreshed.raised.Some? then refreshed
    else Lifecycle.Ichksum(refreshed.world, tools, target)
  }

  /**
   * The event handler's `pre_job`: the common `pre_job`, then the common `post_job` with
   * the demultiplexer's marker and the delay from the settings.
   */
  function PreJob(w: World, tools: Tools, delay: int, present: set<string>, root: string, target: string, names: seq<string>): (r: Step)
    ensures r.world == Lifecycle.PreJob(w, tools, OmicsCommon.Keys, target, names).world
  {
    var seen := Lifecycle.PreJob(w, tools, OmicsCommon.Keys, target, names);
    if seen.raised.Some? then seen
    else OmicsCommon.PostJob(seen.world, tools, delay, Done(present), root, target, names)
  }

  /** `post_data_obj_create` and `post_data_obj_update`, which do the same. */
  method OnDataObject(zone: Zone, tools: Tools, path: string, root: string, target: string) returns (raised: Option<Error>)
    modifies zone
    ensures Step(zone.State(), raised) == DataObjectHook(old(zone.State()), tools, path, root, target)
  {
    raised := Lifecycle.RefreshLastUpdate(zone, tools, OmicsCommon.Keys, path, root, target);
    if raised.Some? {
      return;
    }
    raised := Lifecycle.RunIchksum(zone, tools, target);
  }

  /** The event handler's `pre_job`, over the folders of the landing zone in name order. */
  method HandlerPreJob(zone: Zone, tools: Tools, delay: int, present: set<string>, root: string, target: string, listing: set<string>)
    returns (visited: seq<string>, raised: Option<Error>)
    modifies zone
    ensures Order.StrictlySorted(visited) && forall x :: x in visited <==> x in listing
    ensures Step(zone.State(), raised) == PreJob(old(zone.State()), tools, delay, present, root, target, visited)
  {
    visited, raised := Lifecycle.PreJobFolders(zone, tools, OmicsCommon.Keys, target, listing);
    if raised.Some? {
      return;
    }
    var swept;
    swept, raised := OmicsCommon.PostJobFolders(zone, tools, delay, Done(present), root, target, listing);
    Order.SortedUnique(visited, swept);
  }

  /**
   * The hook succeeds exactly when the refresh does and `ichksum` succeeds; then the
   * upload is checksummed on top of the refreshed metadata. A refresh that raises
   * leaves the catalogue as it was, and a failing `ichksum` keeps the refresh.
   */
  lemma DataObjectHookOutcome(w: World, tools: Tools, path: string, root: string, target: string)
    ensures var refreshed := Lifecycle.Refresh(w, tools, OmicsCommon.Keys, path, root, target);
            var r := DataObjectHook(w, tools, path, root, target);
            (r.raised.None? <==> refreshed.raised.None? && tools.ichksum(target))
            && (r.raised.None? ==> r.world.checksummed == w.checksummed + {target} && r.world.avus == refreshed.world.avus)
            && (refreshed.raised.Some? ==> r.world == w)
            && (refreshed.raised.None? && !tools.ichksum(target) ==> r == Step(refreshed.world, Some(CommandFailed("ichksum", target))))
  {
    var refreshed := Lifecycle.Refresh(w, tools, OmicsCommon.Keys, path, root, target);
    if refreshed.raised.Some? {
      assert refreshed.world == w;
    }
  }

  /**
   * A folder whose marker is missing is never finalised, so it raises nothing once its
   * `last_update` values parse.
   */
  lemma NoMarkerNoFinalisation(w: World, tools: Tools, delay: int, present: set<string>, folder: string, coll: string)
    requires NewestUpdate(w.Values(coll, OmicsCommon.KeyLastUpdate), tools.parseTime).Ok?
    requires !IsDemuxfolderDone(present, folder)
    ensures OmicsCommon.PostJobFolder(w, tools, delay, Done(present), folder, coll) == Step(w, None)
  {
    OmicsCommon.NotDoneChangesNothing(w, tools, delay, Done(present), folder, coll);
  }
}
