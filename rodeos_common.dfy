/**
 * The run-folder life cycle of the current package: `first_seen` when a folder is first
 * listed, `last_update` and `status=running` on every uploaded file, and, once the
 * folder is done and at rest, the manifests, their comparison, their upload, the move
 * of the folder to the ingested area and `status=complete`.
 */
module RodeosCommon {
  import opened Wrappers
  import opened Landing
  import opened Paths
  import Manifest
  import Order
  import Lifecycle

  const KeyLastUpdate := "rodeos::ingest::last_update"
  const KeyStatus := "rodeos::ingest::status"
  const KeyFirstSeen := "rodeos::ingest::first_seen"
  const KeyManifestStatus := "rodeos::ingest::manifest_status"
  const KeyManifestMessage := "rodeos::ingest::manifest_message"

  /** The life-cycle keys under this package's prefix. */
  const Keys := Lifecycle.Keys(KeyLastUpdate, KeyStatus, KeyFirstSeen)

  /** The settings finalisation reads. */
  datatype Config = Config(
    delayUntilAtRest: int,
    moveAfterIngest: bool,
    manifestLocal: string,
    manifestIrods: string)

  /** A manifest file a step wrote, the world after it, and the exception it raised. */
  datatype Written = Written(world: World, lines: Lines, raised: Option<Error>)

  /** `to_ingested_path(src_folder)`, as the path the rename receives. */
  function IngestedFolder(folder: string): (r: string)
    ensures Parse(r) == ToIngestedText(folder)
  {
    ParseFormat(ToIngestedText(folder));
    Format(ToIngestedText(folder))
  }

  // ---------------------------------------------------------------------------------
  // Finalisation of one run folder

  /**
   * `compute_local_manifest`: the output of `find | hashdeep` goes into the local
   * manifest file; when a command fails, the file is removed and the error re-raised.
   */
  function LocalManifest(w: World, tools: Tools, cfg: Config, folder: string): (r: Written)
    ensures r.raised.None? ==> folder in w.folders && r.world == w.WriteFile(folder, cfg.manifestLocal, r.lines)
    ensures r.raised.None? <==> folder in w.folders && tools.hashdeep(folder).Some?
    ensures r.raised.None? ==> r.lines == tools.hashdeep(folder).value
    ensures r.world.collections == w.collections && r.world.avus == w.avus
    ensures r.world.objects == w.objects && r.world.checksummed == w.checksummed
    ensures r.world.folders.Keys == w.folders.Keys
  {
    if folder !in w.folders then Written(w, [], Some(NoSuchFile(JoinPath(folder, cfg.manifestLocal))))
    else
      match tools.hashdeep(folder)
      case None =>
        var created := w.WriteFile(folder, cfg.manifestLocal, []);
        Written(created.RemoveFile(folder, cfg.manifestLocal), [], Some(CommandFailed("hashdeep", folder)))
      case Some(lines) => Written(w.WriteFile(folder, cfg.manifestLocal, lines), lines, None)
  }

  /**
   * `compute_irods_manifest`: the query output, converted line by line, goes into the
   * remote manifest file. A failing query happens before that file is opened, so the
   * removal in the handler finds a stale file or raises `FileNotFoundError`; a line that
   * does not split leaves the lines before it written and is not caught.
   */
  function IrodsManifest(w: World, tools: Tools, cfg: Config, folder: string, coll: string): (r: Written)
    ensures r.raised.None? <==>
      (folder in w.folders && tools.iquest(coll).Some? && Manifest.RemoteManifest(coll, tools.iquest(coll).value).1.None?)
    ensures r.raised.None? ==>
      (r.lines == Manifest.RemoteManifest(coll, tools.iquest(coll).value).0
       && folder in w.folders && r.world == w.WriteFile(folder, cfg.manifestIrods, r.lines))
    ensures r.world.collections == w.collections && r.world.avus == w.avus
    ensures r.world.objects == w.objects && r.world.checksummed == w.checksummed
    ensures r.world.folders.Keys == w.folders.Keys
  {
    if folder !in w.folders then Written(w, [], Some(NoSuchFile(JoinPath(folder, cfg.manifestIrods))))
    else
      match tools.iquest(coll)
      case None =>
        if w.HasFile(folder, cfg.manifestIrods) then
          Written(w.RemoveFile(folder, cfg.manifestIrods), [], Some(CommandFailed("iquest", coll)))
        else Written(w, [], Some(NoSuchFile(JoinPath(folder, cfg.manifestIrods))))
      case Some(output) =>
        var copied := Manifest.RemoteManifest(coll, output);
        var w2 := w.WriteFile(folder, cfg.manifestIrods, copied.0);
        match copied.1
        case Some(e) => Written(w2, copied.0, Some(BadManifest(e)))
        case None => Written(w2, copied.0, None)
  }

  /**
   * `_compare_manifests` and the metadata recorded about it: `failed` with the message of
   * the `RuntimeError` it raises, or `success` with `all good`. An error while reading a
   * manifest is not a `RuntimeError` and records nothing.
   */
  ghost function Recorded(w: World, coll: string, localLines: Lines, irodsLines: Lines): (r: Step)
    ensures r.world.folders == w.folders && r.world.collections == w.collections
    ensures r.world.objects == w.objects && r.world.checksummed == w.checksummed
    ensures forall p, key :: (p != coll || (key != KeyManifestStatus && key != KeyManifestMessage)) ==> r.world.Values(p, key) == w.Values(p, key)
  {
    match Manifest.ParseManifest(Manifest.Local, localLines)
    case Err(e) => Step(w, Some(BadManifest(e)))
    case Ok(local) =>
      match Manifest.ParseManifest(Manifest.Remote, irodsLines)
      case Err(e) => Step(w, Some(BadManifest(e)))
      case Ok(remote) =>
        match Manifest.Problem(local, remote)
        case Some(problem) =>
          var message := Manifest.DifferenceMessage(problem);
          Step(w.SetAvu(coll, KeyManifestStatus, "failed").SetAvu(coll, KeyManifestMessage, message),
               Some(ManifestsDiffer(message)))
        case None =>
          Step(w.SetAvu(coll, KeyManifestStatus, "success").SetAvu(coll, KeyManifestMessage, "all good"), None)
  }

  /** The move to the ingested area: an `OSError` from the rename is only logged. */
  function Moved(w: World, tools: Tools, cfg: Config, folder: string): (r: World)
    ensures r.collections == w.collections && r.objects == w.objects
    ensures r.avus == w.avus && r.checksummed == w.checksummed
  {
    var dest := IngestedFolder(folder);
    if cfg.moveAfterIngest && folder in w.folders && tools.rename(folder, dest) then w.Move(folder, dest)
    else w
  }

  /** Both manifests put next to the data and checksummed, then the move and `status=complete`. */
  function Upload(w: World, tools: Tools, cfg: Config, folder: string, coll: string, localLines: Lines, irodsLines: Lines): (r: Step)
    ensures r.world.collections == w.collections
    ensures forall p, key :: (p != coll || key != KeyStatus) ==> r.world.Values(p, key) == w.Values(p, key)
    ensures r.raised.Some? ==> r.world.folders == w.folders && r.world.avus == w.avus
  {
    var localDest := JoinPath(coll, cfg.manifestLocal);
    var irodsDest := JoinPath(coll, cfg.manifestIrods);
    var w1 := w.Put(localDest, localLines);
    if !tools.ichksum(localDest) then Step(w1, Some(CommandFailed("ichksum", localDest)))
    else
      var w2 := w1.Checksum(localDest).Put(irodsDest, irodsLines);
      if !tools.ichksum(irodsDest) then Step(w2, Some(CommandFailed("ichksum", irodsDest)))
      else Step(Moved(w2.Checksum(irodsDest), tools, cfg, folder).SetAvu(coll, KeyStatus, "complete"), None)
  }

  /** The finalisation of a run folder that is done and at rest, step by step. */
  ghost function Finalise(w: World, tools: Tools, cfg: Config, folder: string, coll: string): (r: Step)
    ensures r.world.collections == w.collections
    ensures forall p, key :: !FinaliseKey(key) ==> r.world.Values(p, key) == w.Values(p, key)
  {
    var l := LocalManifest(w, tools, cfg, folder);
    if l.raised.Some? then Step(l.world, l.raised)
    else
      var i := IrodsManifest(l.world, tools, cfg, folder, coll);
      if i.raised.Some? then Step(i.world, i.raised)
      else
        var c := Recorded(i.world, coll, l.lines, i.lines);
        assert forall p, key :: !FinaliseKey(key) ==> c.world.Values(p, key) == w.Values(p, key);
        if c.raised.Some? then c
        else Upload(c.world, tools, cfg, folder, coll, l.lines, i.lines)
  }

  /**
   * `_post_job_run_folder_done`: the newest `last_update`, then the done predicate, then
   * the at-rest gate `age >= delay`.
   */
  ghost function PostJobFolder(w: World, tools: Tools, cfg: Config, done: DonePredicate, folder: string, coll: string): (r: Step)
    ensures r.world.collections == w.collections
    ensures forall p, key :: !FinaliseKey(key) ==> r.world.Values(p, key) == w.Values(p, key)
  {
    match NewestUpdate(w.Values(coll, KeyLastUpdate), tools.parseTime)
    case Err(e) => Step(w, Some(e))
    case Ok(newest) =>
      match done(folder)
      case Err(e) => Step(w, Some(e))
      case Ok(isDone) =>
        if !isDone then Step(w, None)
        else if Age(newest, tools.now) >= cfg.delayUntilAtRest then Finalise(w, tools, cfg, folder, coll)
        else Step(w, None)
  }

  // ---------------------------------------------------------------------------------
  // The jobs

  /** The loop of `post_job` over the sorted folder names: a folder without a collection of its name is skipped, an exception ends the loop. */
  ghost function Sweep(w: World, tools: Tools, cfg: Config, done: DonePredicate, root: string, target: string, names: seq<string>): (r: Step)
    ensures r.world.collections == w.collections
    ensures forall p, key :: !FinaliseKey(key) ==> r.world.Values(p, key) == w.Values(p, key)
    decreases |names|
  {
    if names == [] then Step(w, None)
    else
      var coll := JoinPath(target, names[0]);
      if coll !in w.collections then Sweep(w, tools, cfg, done, root, target, names[1..])
      else
        var s := PostJobFolder(w, tools, cfg, done, JoinPath(root, names[0]), coll);
        if s.raised.Some? then s else Sweep(s.world, tools, cfg, done, root, target, names[1..])
  }

  /** `post_job` over the names of the landing zone's entries, sorted. */
  ghost function PostJob(w: World, tools: Tools, cfg: Config, done: DonePredicate, root: string, target: string, names: seq<string>): (r: Step)
    ensures target !in w.collections ==> r.raised == Some(NoSuchCollection(target))
    ensures r.world.collections == w.collections
    ensures forall p, key :: !FinaliseKey(key) ==> r.world.Values(p, key) == w.Values(p, key)
  {
    if target !in w.collections then Step(w, Some(NoSuchCollection(target)))
    else Sweep(w, tools, cfg, done, root, target, names)
  }

  // ---------------------------------------------------------------------------------
  // The handlers, changing the landing zone and the catalogue in place

  method ComputeLocalManifest(zone: Zone, tools: Tools, cfg: Config, folder: string) returns (lines: Lines, raised: Option<Error>)
    modifies zone
    ensures Written(zone.State(), lines, raised) == LocalManifest(old(zone.State()), tools, cfg, folder)
  {
    lines := [];
    if folder !in zone.folders {
      return [], Some(NoSuchFile(JoinPath(folder, cfg.manifestLocal)));
    }
    var output := tools.hashdeep(folder);
    if output.None? {
      zone.WriteFile(folder, cfg.manifestLocal, []);
      zone.RemoveFile(folder, cfg.manifestLocal);
      return [], Some(CommandFailed("hashdeep", folder));
    }
    zone.WriteFile(folder, cfg.manifestLocal, output.value);
    lines, raised := output.value, None;
  }

  method ComputeIrodsManifest(zone: Zone, tools: Tools, cfg: Config, folder: string, coll: string) returns (lines: Lines, raised: Option<Error>)
    modifies zone
    ensures Written(zone.State(), lines, raised) == IrodsManifest(old(zone.State()), tools, cfg, folder, coll)
  {
    if folder !in zone.folders {
      return [], Some(NoSuchFile(JoinPath(folder, cfg.manifestIrods)));
    }
    var output := tools.iquest(coll);
    if output.None? {
      if cfg.manifestIrods in zone.folders[folder] {
        zone.RemoveFile(folder, cfg.manifestIrods);
        return [], Some(CommandFailed("iquest", coll));
      }
      return [], Some(NoSuchFile(JoinPath(folder, cfg.manifestIrods)));
    }
    var error;
    lines, error := Manifest.CopyQueryOutput(coll, output.value);
    zone.WriteFile(folder, cfg.manifestIrods, lines);
    raised := if error.Some? then Some(BadManifest(error.value)) else None;
  }

  method CompareAndRecord(zone: Zone, coll: string, localLines: Lines, irodsLines: Lines) returns (raised: Option<Error>)
    modifies zone
    ensures Step(zone.State(), raised) == Recorded(old(zone.State()), coll, localLines, irodsLines)
  {
    var local := Manifest.ReadManifest(Manifest.Local, localLines);
    if local.Err? {
      return Some(BadManifest(local.error));
    }
    var remote := Manifest.ReadManifest(Manifest.Remote, irodsLines);
    if remote.Err? {
      return Some(BadManifest(remote.error));
    }
    var problem := Manifest.CompareManifests(local.value, remote.value);
    if problem.Some? {
      var message := Manifest.DifferenceMessage(problem.value);
      zone.SetAvu(coll, KeyManifestStatus, "failed");
      zone.SetAvu(coll, KeyManifestMessage, message);
      return Some(ManifestsDiffer(message));
    }
    zone.SetAvu(coll, KeyManifestStatus, "success");
    zone.SetAvu(coll, KeyManifestMessage, "all good");
    return None;
  }

  method UploadAndMove(zone: Zone, tools: Tools, cfg: Config, folder: string, coll: string, localLines: Lines, irodsLines: Lines)
    returns (raised: Option<Error>)
    modifies zone
    ensures Step(zone.State(), raised) == Upload(old(zone.State()), tools, cfg, folder, coll, localLines, irodsLines)
  {
    var localDest := JoinPath(coll, cfg.manifestLocal);
    zone.Put(localDest, localLines);
    if !tools.ichksum(localDest) {
      return Some(CommandFailed("ichksum", localDest));
    }
    zone.Checksum(localDest);
    var irodsDest := JoinPath(coll, cfg.manifestIrods);
    zone.Put(irodsDest, irodsLines);
    if !tools.ichksum(irodsDest) {
      return Some(CommandFailed("ichksum", irodsDest));
    }
    zone.Checksum(irodsDest);
    if cfg.moveAfterIngest {
      var dest := IngestedFolder(folder);
      if folder in zone.folders && tools.rename(folder, dest) {
        zone.Move(folder, dest);
      }
    }
    zone.SetAvu(coll, KeyStatus, "complete");
    return None;
  }

  method FinaliseFolder(zone: Zone, tools: Tools, cfg: Config, folder: string, coll: string) returns (raised: Option<Error>)
    modifies zone
    ensures Step(zone.State(), raised) == Finalise(old(zone.State()), tools, cfg, folder, coll)
  {
    var localLines, irodsLines;
    localLines, raised := ComputeLocalManifest(zone, tools, cfg, folder);
    if raised.Some? {
      return;
    }
    irodsLines, raised := ComputeIrodsManifest(zone, tools, cfg, folder, coll);
    if raised.Some? {
      return;
    }
    raised := CompareAndRecord(zone, coll, localLines, irodsLines);
    if raised.Some? {
      return;
    }
    raised := UploadAndMove(zone, tools, cfg, folder, coll, localLines, irodsLines);
  }

  /** `_post_job_run_folder_done`. */
  method PostJobRunFolderDone(zone: Zone, tools: Tools, cfg: Config, done: DonePredicate, folder: string, coll: string)
    returns (raised: Option<Error>)
    modifies zone
    ensures Step(zone.State(), raised) == PostJobFolder(old(zone.State()), tools, cfg, done, folder, coll)
  {
    var newest := LastUpdate(zone.State().Values(coll, KeyLastUpdate), tools.parseTime);
    if newest.Err? {
      return Some(newest.error);
    }
    var age := Age(newest.value, tools.now);
    var isDone := done(folder);
    if isDone.Err? {
      return Some(isDone.error);
    }
    if !isDone.value {
      return None;
    }
    if age >= cfg.delayUntilAtRest {
      raised := FinaliseFolder(zone, tools, cfg, folder, coll);
    } else {
      raised := None;
    }
  }

  /** `post_job`: the folders of the landing zone in name order, returned as `visited`. */
  method PostJobFolders(zone: Zone, tools: Tools, cfg: Config, done: DonePredicate, root: string, target: string, listing: set<string>)
    returns (visited: seq<string>, raised: Option<Error>)
    modifies zone
    ensures Order.StrictlySorted(visited) && forall x :: x in visited <==> x in listing
    ensures Step(zone.State(), raised) == PostJob(old(zone.State()), tools, cfg, done, root, target, visited)
  {
    visited := Order.SortedList(listing);
    if target !in zone.collections {
      return visited, Some(NoSuchCollection(target));
    }
    ghost var w0 := zone.State();
    var i := 0;
    while i < |visited|
      invariant 0 <= i <= |visited|
      invariant Sweep(w0, tools, cfg, done, root, target, visited) == Sweep(zone.State(), tools, cfg, done, root, target, visited[i..])
    {
      assert visited[i..][1..] == visited[i + 1..];
      var coll := JoinPath(target, visited[i]);
      if coll in zone.collections {
        raised := PostJobRunFolderDone(zone, tools, cfg, done, JoinPath(root, visited[i]), coll);
        if raised.Some? {
          return;
        }
      }
      i := i + 1;
    }
    return visited, None;
  }

  // ---------------------------------------------------------------------------------
  // Properties of the life cycle

  /** A folder that is not done is left alone: nothing changes, whatever its age. */
  lemma NotDoneChangesNothing(w: World, tools: Tools, cfg: Config, done: DonePredicate, folder: string, coll: string)
    requires done(folder) == Ok(false)
    ensures PostJobFolder(w, tools, cfg, done, folder, coll).world == w
  {
  }

  /** A done folder is finalised exactly when the age of its newest update reaches the delay. */
  lemma AtRestGate(w: World, tools: Tools, cfg: Config, done: DonePredicate, folder: string, coll: string, newest: Option<int>)
    requires NewestUpdate(w.Values(coll, KeyLastUpdate), tools.parseTime) == Ok(newest)
    requires done(folder) == Ok(true)
    ensures Age(newest, tools.now) >= cfg.delayUntilAtRest ==>
      PostJobFolder(w, tools, cfg, done, folder, coll) == Finalise(w, tools, cfg, folder, coll)
    ensures Age(newest, tools.now) < cfg.delayUntilAtRest ==>
      PostJobFolder(w, tools, cfg, done, folder, coll) == Step(w, None)
  {
  }

  /** Without any `last_update`, the age is 0: a done folder is finalised iff the delay is not positive. */
  lemma NoUpdateMeansAgeZero(w: World, tools: Tools, cfg: Config, done: DonePredicate, folder: string, coll: string)
    requires w.Values(coll, KeyLastUpdate) == []
    requires done(folder) == Ok(true)
    ensures cfg.delayUntilAtRest <= 0 ==>
      PostJobFolder(w, tools, cfg, done, folder, coll) == Finalise(w, tools, cfg, folder, coll)
    ensures cfg.delayUntilAtRest > 0 ==>
      PostJobFolder(w, tools, cfg, done, folder, coll) == Step(w, None)
  {
    NewestUpdateIsGreatest(w.Values(coll, KeyLastUpdate), tools.parseTime);
  }

  /** The manifests the steps of a finalisation wrote, when every step up to the comparison succeeds. */
  ghost predicate ManifestsWritten(w: World, tools: Tools, folder: string, coll: string) {
    folder in w.folders && tools.hashdeep(folder).Some? && tools.iquest(coll).Some?
    && Manifest.RemoteManifest(coll, tools.iquest(coll).value).1.None?
  }

  lemma StatusKeysDiffer()
    ensures KeyStatus != KeyManifestStatus && KeyStatus != KeyManifestMessage && KeyManifestStatus != KeyManifestMessage
    ensures KeyFirstSeen != KeyStatus && KeyFirstSeen != KeyManifestStatus && KeyFirstSeen != KeyManifestMessage
    ensures KeyLastUpdate != KeyStatus && KeyLastUpdate != KeyManifestStatus && KeyLastUpdate != KeyManifestMessage
  {
    assert |KeyStatus| == 22 && |KeyManifestStatus| == 31 && |KeyManifestMessage| == 32;
    assert |KeyFirstSeen| == 26 && |KeyLastUpdate| == 27;
  }

  /**
   * A finalisation that raises nothing found the two manifests equal, recorded that, put
   * both manifests into the run collection with a checksum, and set `status=complete`.
   */
  lemma FinaliseSuccess(w: World, tools: Tools, cfg: Config, folder: string, coll: string)
    requires Finalise(w, tools, cfg, folder, coll).raised.None?
    ensures ManifestsWritten(w, tools, folder, coll)
    ensures var localLines := tools.hashdeep(folder).value;
            var irodsLines := Manifest.RemoteManifest(coll, tools.iquest(coll).value).0;
            var r := Finalise(w, tools, cfg, folder, coll).world;
            Manifest.ParseManifest(Manifest.Local, localLines).Ok?
            && Manifest.ParseManifest(Manifest.Remote, irodsLines) == Manifest.ParseManifest(Manifest.Local, localLines)
            && r.Values(coll, KeyStatus) == ["complete"]
            && r.Values(coll, KeyManifestStatus) == ["success"]
            && r.Values(coll, KeyManifestMessage) == ["all good"]
            && JoinPath(coll, cfg.manifestIrods) in r.objects && r.objects[JoinPath(coll, cfg.manifestIrods)] == irodsLines
            && (JoinPath(coll, cfg.manifestLocal) != JoinPath(coll, cfg.manifestIrods) ==>
                  JoinPath(coll, cfg.manifestLocal) in r.objects && r.objects[JoinPath(coll, cfg.manifestLocal)] == localLines)
            && JoinPath(coll, cfg.manifestLocal) in r.checksummed && JoinPath(coll, cfg.manifestIrods) in r.checksummed
  {
    var l := LocalManifest(w, tools, cfg, folder);
    var i := IrodsManifest(l.world, tools, cfg, folder, coll);
    var local := Manifest.ParseManifest(Manifest.Local, l.lines).value;
    var remote := Manifest.ParseManifest(Manifest.Remote, i.lines).value;
    StatusKeysDiffer();
  }

  /** Whether the folder moved: only when moving is configured and the rename succeeds; otherwise it stays where it was. */
  lemma FinaliseMove(w: World, tools: Tools, cfg: Config, folder: string, coll: string)
    requires Finalise(w, tools, cfg, folder, coll).raised.None?
    ensures var r := Finalise(w, tools, cfg, folder, coll).world;
            var dest := IngestedFolder(folder);
            if cfg.moveAfterIngest && tools.rename(folder, dest) then
              dest in r.folders && (dest != folder ==> folder !in r.folders)
            else
              r.folders.Keys == w.folders.Keys && folder in r.folders
  {
    var l := LocalManifest(w, tools, cfg, folder);
    var i := IrodsManifest(l.world, tools, cfg, folder, coll);
    var c := Recorded(i.world, coll, l.lines, i.lines);
    assert c.world.folders == i.world.folders;
  }

  /**
   * Manifests that differ leave `manifest_status=failed` with the comparison's message,
   * and raise it: nothing is put, nothing moves, `status` stays what it was.
   */
  lemma FinaliseDifference(w: World, tools: Tools, cfg: Config, folder: string, coll: string)
    requires ManifestsWritten(w, tools, folder, coll)
    requires var localLines := tools.hashdeep(folder).value;
             var irodsLines := Manifest.RemoteManifest(coll, tools.iquest(coll).value).0;
             Manifest.ParseManifest(Manifest.Local, localLines).Ok? && Manifest.ParseManifest(Manifest.Remote, irodsLines).Ok?
             && Manifest.ParseManifest(Manifest.Local, localLines) != Manifest.ParseManifest(Manifest.Remote, irodsLines)
    ensures var localLines := tools.hashdeep(folder).value;
            var irodsLines := Manifest.RemoteManifest(coll, tools.iquest(coll).value).0;
            var local := Manifest.ParseManifest(Manifest.Local, localLines).value;
            var remote := Manifest.ParseManifest(Manifest.Remote, irodsLines).value;
            var r := Finalise(w, tools, cfg, folder, coll);
            Manifest.Problem(local, remote).Some?
            && r.raised == Some(ManifestsDiffer(Manifest.DifferenceMessage(Manifest.Problem(local, remote).value)))
            && r.world.Values(coll, KeyManifestStatus) == ["failed"]
            && r.world.Values(coll, KeyManifestMessage) == [Manifest.DifferenceMessage(Manifest.Problem(local, remote).value)]
            && r.world.Values(coll, KeyStatus) == w.Values(coll, KeyStatus)
            && r.world.objects == w.objects && r.world.checksummed == w.checksummed
            && r.world.folders.Keys == w.folders.Keys
  {
    var l := LocalManifest(w, tools, cfg, folder);
    var i := IrodsManifest(l.world, tools, cfg, folder, coll);
    var local := Manifest.ParseManifest(Manifest.Local, l.lines).value;
    var remote := Manifest.ParseManifest(Manifest.Remote, i.lines).value;
    StatusKeysDiffer();
  }

  /** A finalisation that raises never reaches `status=complete` and never moves the folder. */
  lemma FinaliseRaisedKeepsStatus(w: World, tools: Tools, cfg: Config, folder: string, coll: string)
    requires Finalise(w, tools, cfg, folder, coll).raised.Some?
    ensures Finalise(w, tools, cfg, folder, coll).world.Values(coll, KeyStatus) == w.Values(coll, KeyStatus)
    ensures Finalise(w, tools, cfg, folder, coll).world.folders.Keys == w.folders.Keys
  {
    StatusKeysDiffer();
    var l := LocalManifest(w, tools, cfg, folder);
    if l.raised.None? {
      var i := IrodsManifest(l.world, tools, cfg, folder, coll);
      if i.raised.None? {
        var c := Recorded(i.world, coll, l.lines, i.lines);
        assert c.world.Values(coll, KeyStatus) == w.Values(coll, KeyStatus);
        if c.raised.None? {
          var u := Upload(c.world, tools, cfg, folder, coll, l.lines, i.lines);
          assert u.world.avus == c.world.avus && u.world.folders == c.world.folders;
        }
      }
    }
  }

  /** The keys a finalisation may write. */
  predicate FinaliseKey(key: string) {
    key == KeyStatus || key == KeyManifestStatus || key == KeyManifestMessage
  }

  /**
   * The folders are handled one after the other: the sweep over `a + b` is the sweep over
   * `a`, then, unless that raised, the sweep over `b` from where it left the world.
   */
  lemma {:induction false} SweepConcat(w: World, tools: Tools, cfg: Config, done: DonePredicate, root: string, target: string, a: seq<string>, b: seq<string>)
    ensures var s := Sweep(w, tools, cfg, done, root, target, a);
            Sweep(w, tools, cfg, done, root, target, a + b)
              == if s.raised.Some? then s else Sweep(s.world, tools, cfg, done, root, target, b)
    decreases |a|
  {
    if a == [] {
      assert a + b == b;
    } else {
      assert (a + b)[0] == a[0] && (a + b)[1..] == a[1..] + b;
      var coll := JoinPath(target, a[0]);
      if coll !in w.collections {
        SweepConcat(w, tools, cfg, done, root, target, a[1..], b);
      } else {
        var s := PostJobFolder(w, tools, cfg, done, JoinPath(root, a[0]), coll);
        if s.raised.None? {
          SweepConcat(s.world, tools, cfg, done, root, target, a[1..], b);
        }
      }
    }
  }

  /** Names without a collection of their own are skipped: the sweep over them changes nothing. */
  lemma {:induction false} SweepSkipsUnmatched(w: World, tools: Tools, cfg: Config, done: DonePredicate, root: string, target: string, names: seq<string>)
    requires forall k :: 0 <= k < |names| ==> JoinPath(target, names[k]) !in w.collections
    ensures Sweep(w, tools, cfg, done, root, target, names) == Step(w, None)
    decreases |names|
  {
    if names != [] {
      SweepSkipsUnmatched(w, tools, cfg, done, root, target, names[1..]);
    }
  }
}
