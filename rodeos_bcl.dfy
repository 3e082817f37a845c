/**
 * The current package's handler for Illumina run folders: a folder is done once the
 * marker files its instrument writes exist; an uploaded `RunInfo.xml`, run-parameters
 * descriptor or Netcopy marker is recorded as AVUs that replace earlier values; every
 * upload refreshes `last_update` and has its checksum computed.
 */
module RodeosBcl {
  import opened Wrappers
  import opened Landing
  import opened Illumina
  import opened Paths
  import RunFolder
  import Lifecycle
  import RodeosCommon
  import Order
  import Settings

  const HandlerOperation := PutSync

  /** The settings the finalisation of this handler reads; the delay is in seconds. */
  function HandlerConfig(s: Settings.RodeosSettings): (r: RodeosCommon.Config)
    ensures r.delayUntilAtRest == s.delayUntilAtRestSeconds && r.moveAfterIngest == s.moveAfterIngest
    ensures r.manifestLocal == s.manifestLocal && r.manifestIrods == s.manifestIrods
  {
    RodeosCommon.Config(s.delayUntilAtRestSeconds, s.moveAfterIngest, s.manifestLocal, s.manifestIrods)
  }

  // ---------------------------------------------------------------- is_runfolder_done

  /** `is_runfolder_done`: the first descriptor present decides; without one the folder is not done. */
  function IsRunfolderDone(disk: Disk, folder: string): (r: Result<bool, Error>)
    ensures r == Ok(true) <==> Descriptor(disk, folder).Some? && CompleteBy(disk, folder, Descriptor(disk, folder).value)
    ensures r.Err? <==> Descriptor(disk, folder).Some? && Markers(disk, Descriptor(disk, folder).value).Err?
  {
    match Descriptor(disk, folder)
    case None => Ok(false)
    case Some(descriptor) => MarkersPresent(disk, folder, descriptor)
  }

  function Done(disk: Disk): DonePredicate {
    folder => IsRunfolderDone(disk, folder)
  }

  /** Without a descriptor the folder is not done, whatever else it holds. */
  lemma NoDescriptorNotDone(disk: Disk, folder: string)
    requires JoinPath(folder, "RunParameters.xml") !in disk.present
    requires JoinPath(folder, "runParameters.xml") !in disk.present
    ensures IsRunfolderDone(disk, folder) == Ok(false)
  {
  }

  /**
   * `RunParameters.xml` is looked at before `runParameters.xml`: when it exists, what the
   * other descriptor says does not matter.
   */
  lemma FirstDescriptorDecides(disk: Disk, folder: string, documents: string -> RunFolder.Document)
    requires JoinPath(folder, "RunParameters.xml") in disk.present
    requires documents(JoinPath(folder, "RunParameters.xml")) == disk.documents(JoinPath(folder, "RunParameters.xml"))
    ensures IsRunfolderDone(disk, folder) == IsRunfolderDone(disk.(documents := documents), folder)
    ensures IsRunfolderDone(disk, folder) == MarkersPresent(disk, folder, JoinPath(folder, "RunParameters.xml"))
  {
  }

  /** An instrument the run parameters do not identify is raised, naming the descriptor. */
  lemma UnknownInstrumentRaised(disk: Disk, folder: string)
    requires Descriptor(disk, folder).Some? && Markers(disk, Descriptor(disk, folder).value).Err?
    ensures IsRunfolderDone(disk, folder)
         == Err(UnknownInstrument(RunFolder.UnknownInstrumentMessage + Descriptor(disk, folder).value))
  {
  }

  // ---------------------------------------------------------------- recording uploaded descriptors

  /** The AVUs of `m` replace those of the collection `coll`, which must exist. */
  function ApplyToCollection(w: World, coll: string, m: map<string, string>): (r: Step)
    ensures r.raised.Some? <==> coll !in w.collections
    ensures r.raised.Some? ==> r == Step(w, Some(NoSuchCollection(coll)))
    ensures r.world.collections == w.collections && r.world.objects == w.objects
    ensures r.world.folders == w.folders && r.world.checksummed == w.checksummed
    ensures r.raised.None? ==> forall k :: k in m ==> r.world.Values(coll, k) == [m[k]]
    ensures forall p, k :: (p != coll || k !in m) ==> r.world.Values(p, k) == w.Values(p, k)
  {
    ReplaceAllValues(w, coll, m);
    if coll !in w.collections then Step(w, Some(NoSuchCollection(coll)))
    else Step(ReplaceAll(w, coll, m), None)
  }

  /** The AVUs of `m` replace those of the data object `dest`, which must exist. */
  function ApplyToObject(w: World, dest: string, m: map<string, string>): (r: Step)
    ensures r.raised.Some? <==> dest !in w.objects
    ensures r.raised.Some? ==> r == Step(w, Some(NoSuchObject(dest)))
    ensures r.world.collections == w.collections && r.world.objects == w.objects
    ensures r.world.folders == w.folders && r.world.checksummed == w.checksummed
    ensures r.raised.None? ==> forall k :: k in m ==> r.world.Values(dest, k) == [m[k]]
    ensures forall p, k :: (p != dest || k !in m) ==> r.world.Values(p, k) == w.Values(p, k)
  {
    ReplaceAllValues(w, dest, m);
    if dest !in w.objects then Step(w, Some(NoSuchObject(dest)))
    else Step(ReplaceAll(w, dest, m), None)
  }

  /**
   * `_post_runinfoxml_create_or_update`: `RunInfo.xml` and the descriptor are recorded on
   * the collection that holds the uploaded file, a parsed Netcopy marker on the data
   * object itself; anything else is ignored.
   */
  function Dispatch(w: World, disk: Disk, path: string, target: string): (r: Step)
    ensures var dest := if Classify(path) == NetcopyFile then target else ParentOf(target);
            forall p, k :: p != dest ==> r.world.Values(p, k) == w.Values(p, k)
    ensures r.world.collections == w.collections && r.world.objects == w.objects
    ensures r.world.folders == w.folders && r.world.checksummed == w.checksummed
    ensures Classify(path) == OtherFile ==> r == Step(w, None)
  {
    match Classify(path)
    case RunInfoFile => ApplyToCollection(w, ParentOf(target), AvuMap(RunFolder.RunInfoAvus(disk.runInfo(path))))
    case RunParametersFile => ApplyToCollection(w, ParentOf(target), RunFolder.RunParametersOf(disk.documents(path), RunFolder.XPathMap))
    case NetcopyFile =>
      (match RunFolder.ParseNetcopy(disk.contents(path))
       case None => Step(w, None)
       case Some(info) => ApplyToObject(w, target, AvuMap(RunFolder.NetcopyAvus(info))))
    case OtherFile => Step(w, None)
  }

  /** `post_data_obj_create` and `post_data_obj_update`: record, refresh `last_update`, then checksum. */
  function DataObjectHook(w: World, tools: Tools, disk: Disk, path: string, root: string, target: string): (r: Step)
    ensures r.world.collections == w.collections && r.world.objects == w.objects && r.world.folders == w.folders
    ensures r.world.checksummed <= w.checksummed + {target}
  {
    var recorded := Dispatch(w, disk, path, target);
    if recorded.raised.Some? then recorded
    else
      var refreshed := Lifecycle.Refresh(recorded.world, tools, RodeosCommon.Keys, path, root, target);
      if refreshed.raised.Some? then refreshed
      else Lifecycle.Ichksum(refreshed.world, tools, target)
  }

  /** The event handler's `pre_job`: the common `pre_job`, then the common `post_job` over the same listing. */
  ghost function PreJob(w: World, tools: Tools, s: Settings.RodeosSettings, disk: Disk, root: string, target: string, names: seq<string>): (r: Step)
    ensures r.world.collections == w.collections
    ensures forall p, key :: key != RodeosCommon.KeyFirstSeen && !RodeosCommon.FinaliseKey(key) ==> r.world.Values(p, key) == w.Values(p, key)
  {
    var seen := Lifecycle.PreJob(w, tools, RodeosCommon.Keys, target, names);
    if seen.raised.Some? then seen
    else RodeosCommon.PostJob(seen.world, tools, HandlerConfig(s), Done(disk), root, target, names)
  }

  /** `metadata[key] = ...` for the triples in order. */
  method SetEach(zone: Zone, path: string, avus: seq<RunFolder.Avu>)
    modifies zone
    ensures zone.State() == ReplaceAll(old(zone.State()), path, AvuMap(avus))
  {
    ghost var w0 := zone.State();
    var i := 0;
    while i < |avus|
      invariant 0 <= i <= |avus|
      invariant zone.State() == ReplaceAll(w0, path, AvuMap(avus[..i]))
    {
      assert avus[..i + 1][..i] == avus[..i];
      ReplaceAllSet(w0, path, AvuMap(avus[..i]), avus[i].attribute, avus[i].value);
      zone.SetAvu(path, avus[i].attribute, avus[i].value);
      i := i + 1;
    }
    assert avus[..i] == avus;
  }

  /** `metadata[key] = ...` for the pairs of a dictionary, in whatever order it yields them. */
  method SetEachOf(zone: Zone, path: string, values: map<string, string>)
    modifies zone
    ensures zone.State() == ReplaceAll(old(zone.State()), path, values)
  {
    ghost var w0 := zone.State();
    var rest := values.Keys;
    WrittenNone(values);
    while rest != {}
      invariant rest <= values.Keys
      invariant zone.State() == ReplaceAll(w0, path, Written(values, rest))
      decreases |rest|
    {
      var k :| k in rest;
      WrittenStep(values, rest, k);
      ReplaceAllSet(w0, path, Written(values, rest), k, values[k]);
      zone.SetAvu(path, k, values[k]);
      rest := rest - {k};
    }
    WrittenAll(values);
  }

  /** `apply_runinfo_metadata`. */
  method ApplyRunInfoMetadata(zone: Zone, info: RunFolder.RunInfo, target: string) returns (raised: Option<Error>)
    modifies zone
    ensures Step(zone.State(), raised) == ApplyToCollection(old(zone.State()), ParentOf(target), AvuMap(RunFolder.RunInfoAvus(info)))
  {
    var coll := ParentOf(target);
    if coll !in zone.collections {
      return Some(NoSuchCollection(coll));
    }
    SetEach(zone, coll, RunFolder.RunInfoAvus(info));
    return None;
  }

  /** `apply_runparameters_metadata`. */
  method ApplyRunParametersMetadata(zone: Zone, values: map<string, string>, target: string) returns (raised: Option<Error>)
    modifies zone
    ensures Step(zone.State(), raised) == ApplyToCollection(old(zone.State()), ParentOf(target), values)
  {
    var coll := ParentOf(target);
    if coll !in zone.collections {
      return Some(NoSuchCollection(coll));
    }
    SetEachOf(zone, coll, values);
    return None;
  }

  /** `apply_netcopy_complete_metadata`. */
  method ApplyNetcopyCompleteMetadata(zone: Zone, info: RunFolder.NetcopyInfo, target: string) returns (raised: Option<Error>)
    modifies zone
    ensures Step(zone.State(), raised) == ApplyToObject(old(zone.State()), target, AvuMap(RunFolder.NetcopyAvus(info)))
  {
    if target !in zone.objects {
      return Some(NoSuchObject(target));
    }
    SetEach(zone, target, RunFolder.NetcopyAvus(info));
    return None;
  }

  /** `_post_runinfoxml_create_or_update`. */
  method PostRunInfoXmlCreateOrUpdate(zone: Zone, disk: Disk, path: string, target: string) returns (raised: Option<Error>)
    modifies zone
    ensures Step(zone.State(), raised) == Dispatch(old(zone.State()), disk, path, target)
  {
    var event := Classify(path);
    if event == RunInfoFile {
      raised := ApplyRunInfoMetadata(zone, disk.runInfo(path), target);
    } else if event == RunParametersFile {
      var values, _ := RunFolder.ParseRunParameters(disk.documents(path));
      raised := ApplyRunParametersMetadata(zone, values, target);
    } else if event == NetcopyFile {
      var info := RunFolder.ParseNetcopy(disk.contents(path));
      if info.Some? {
        raised := ApplyNetcopyCompleteMetadata(zone, info.value, target);
      } else {
        raised := None;
      }
    } else {
      raised := None;
    }
  }

  /** `post_data_obj_create` and `post_data_obj_update`, which do the same. */
  method OnDataObject(zone: Zone, tools: Tools, disk: Disk, path: string, root: string, target: string) returns (raised: Option<Error>)
    modifies zone
    ensures Step(zone.State(), raised) == DataObjectHook(old(zone.State()), tools, disk, path, root, target)
  {
    raised := PostRunInfoXmlCreateOrUpdate(zone, disk, path, target);
    if raised.Some? {
      return;
    }
    raised := Lifecycle.RefreshLastUpdate(zone, tools, RodeosCommon.Keys, path, root, target);
    if raised.Some? {
      return;
    }
    raised := Lifecycle.RunIchksum(zone, tools, target);
  }

  /** The event handler's `pre_job`, over the folders of the landing zone in name order. */
  method HandlerPreJob(zone: Zone, tools: Tools, s: Settings.RodeosSettings, disk: Disk, root: string, target: string, listing: set<string>)
    returns (visited: seq<string>, raised: Option<Error>)
    modifies zone
    ensures Order.StrictlySorted(visited) && forall x :: x in visited <==> x in listing
    ensures Step(zone.State(), raised) == PreJob(old(zone.State()), tools, s, disk, root, target, visited)
  {
    visited, raised := Lifecycle.PreJobFolders(zone, tools, RodeosCommon.Keys, target, listing);
    if raised.Some? {
      return;
    }
    var swept;
    swept, raised := RodeosCommon.PostJobFolders(zone, tools, HandlerConfig(s), Done(disk), root, target, listing);
    Order.SortedUnique(visited, swept);
  }

  /** The event handler's `post_job`: the common `post_job`. */
  method HandlerPostJob(zone: Zone, tools: Tools, s: Settings.RodeosSettings, disk: Disk, root: string, target: string, listing: set<string>)
    returns (visited: seq<string>, raised: Option<Error>)
    modifies zone
    ensures Order.StrictlySorted(visited) && forall x :: x in visited <==> x in listing
    ensures Step(zone.State(), raised) == RodeosCommon.PostJob(old(zone.State()), tools, HandlerConfig(s), Done(disk), root, target, visited)
  {
    visited, raised := RodeosCommon.PostJobFolders(zone, tools, HandlerConfig(s), Done(disk), root, target, listing);
  }

  // ---------------------------------------------------------------- what the hooks record

  /** Recording is idempotent: an upload seen twice leaves the catalogue as seeing it once did. */
  lemma DispatchIdempotent(w: World, disk: Disk, path: string, target: string)
    requires Dispatch(w, disk, path, target).raised.None?
    ensures Dispatch(Dispatch(w, disk, path, target).world, disk, path, target) == Dispatch(w, disk, path, target)
  {
    match Classify(path) {
      case RunInfoFile => ReplaceAllIdempotent(w, ParentOf(target), AvuMap(RunFolder.RunInfoAvus(disk.runInfo(path))));
      case RunParametersFile => ReplaceAllIdempotent(w, ParentOf(target), RunFolder.RunParametersOf(disk.documents(path), RunFolder.XPathMap));
      case NetcopyFile =>
        match RunFolder.ParseNetcopy(disk.contents(path)) {
          case None =>
          case Some(info) => ReplaceAllIdempotent(w, target, AvuMap(RunFolder.NetcopyAvus(info)));
        }
      case OtherFile =>
    }
  }

  /** A Netcopy marker whose first line does not parse, or that cannot be read, changes nothing. */
  lemma UnparsableNetcopyChangesNothing(w: World, disk: Disk, path: string, target: string)
    requires Classify(path) == NetcopyFile && RunFolder.ParseNetcopy(disk.contents(path)).None?
    ensures Dispatch(w, disk, path, target) == Step(w, None)
  {
  }

  /** After an uploaded `RunInfo.xml`, its collection carries each field of the run's description, once. */
  lemma RunInfoRecorded(w: World, disk: Disk, path: string, target: string)
    requires Classify(path) == RunInfoFile && ParentOf(target) in w.collections
    ensures var avus := RunFolder.RunInfoAvus(disk.runInfo(path));
            var r := Dispatch(w, disk, path, target);
            r.raised.None?
            && forall j :: 0 <= j < |avus| ==> r.world.Values(ParentOf(target), avus[j].attribute) == [avus[j].value]
  {
    var avus := RunFolder.RunInfoAvus(disk.runInfo(path));
    RunInfoAvuMap(disk.runInfo(path));
    ReplaceAllValues(w, ParentOf(target), AvuMap(avus));
  }

  /**
   * The hook succeeds exactly when the recording, the refresh and `ichksum` all succeed;
   * then the upload is checksummed on top of the recorded and refreshed metadata. A
   * recording that raises changes nothing, a refresh that raises keeps the recording,
   * and a failing `ichksum` keeps both.
   */
  lemma DataObjectHookOutcome(w: World, tools: Tools, disk: Disk, path: string, root: string, target: string)
    ensures var recorded := Dispatch(w, disk, path, target);
            var refreshed := Lifecycle.Refresh(recorded.world, tools, RodeosCommon.Keys, path, root, target);
            var r := DataObjectHook(w, tools, disk, path, root, target);
            (r.raised.None? <==> recorded.raised.None? && refreshed.raised.None? && tools.ichksum(target))
            && (r.raised.None? ==> r.world.avus == refreshed.world.avus && r.world.checksummed == w.checksummed + {target})
            && (recorded.raised.Some? ==> r == recorded && r.world == w)
            && (recorded.raised.None? && refreshed.raised.Some? ==> r.world == recorded.world)
            && (recorded.raised.None? && refreshed.raised.None? && !tools.ichksum(target) ==>
                  r == Step(refreshed.world, Some(CommandFailed("ichksum", target))))
  {
    var recorded := Dispatch(w, disk, path, target);
    if recorded.raised.None? {
      var refreshed := Lifecycle.Refresh(recorded.world, tools, RodeosCommon.Keys, path, root, target);
      if refreshed.raised.Some? {
        assert refreshed.world == recorded.world;
      }
    }
  }
}
