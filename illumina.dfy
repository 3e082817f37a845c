/**
 * What the BCL and FASTQ handlers of both packages share: the files of a run folder as
 * the sequencer leaves them, the search for the run-parameters descriptor, the choice
 * of what an uploaded file's name asks for, and replacing a set of AVUs
 * (`metadata[key] = ...`). Adding them one by one with `metadata.add(...)`, which the
 * catalogue refuses for an AVU already present, belongs to the older handler.
 */
module Illumina {
  import opened Wrappers
  import opened Text
  import opened Paths
  import opened Landing
  import RunFolder

  /**
   * The files of the landing zone as the handlers read them: the paths that exist, the
   * parsed `RunInfo.xml` and run-parameters documents of a path, and the text of a file
   * (`None` when opening or reading it raises `IOError`).
   */
  datatype Disk = Disk(
    present: set<string>,
    runInfo: string -> RunFolder.RunInfo,
    documents: string -> RunFolder.Document,
    contents: string -> Option<string>)

  /** What the ingest core does with a file that changed after it was uploaded. */
  datatype Operation = PutSync | PutAppend

  /** Seconds between two attempts of a failed task, and the number of attempts. */
  const RetryDelay := 5
  const MaxRetries := 10

  /** The names of the run-parameters descriptor, in the order they are looked for. */
  const Descriptors: seq<string> := ["RunParameters.xml", "runParameters.xml"]

  /** The first descriptor that exists in the folder. */
  function Descriptor(disk: Disk, folder: string): (r: Option<string>)
    ensures r.Some? ==> r.value in disk.present
    ensures r.None? <==> JoinPath(folder, Descriptors[0]) !in disk.present && JoinPath(folder, Descriptors[1]) !in disk.present
  {
    if JoinPath(folder, Descriptors[0]) in disk.present then Some(JoinPath(folder, Descriptors[0]))
    else if JoinPath(folder, Descriptors[1]) in disk.present then Some(JoinPath(folder, Descriptors[1]))
    else None
  }

  /** The instrument's marker files, from the parameters a descriptor holds. */
  function Markers(disk: Disk, descriptor: string): (r: Result<seq<string>, RunFolder.UnknownInstrumentType>)
    ensures r.Ok? ==> r.value == RunFolder.CopyComplete || r.value == RunFolder.RtaComplete || r.value == RunFolder.NetcopyComplete
    ensures r.Err? ==> r.error.message == RunFolder.UnknownInstrumentMessage + descriptor
  {
    RunFolder.MarkerFiles(RunFolder.RunParametersOf(disk.documents(descriptor), RunFolder.XPathMap), descriptor)
  }

  /** `all((path / marker).exists() for marker in markers)`, or the unknown instrument raised. */
  function MarkersPresent(disk: Disk, folder: string, descriptor: string): (r: Result<bool, Error>)
    ensures r.Err? <==> Markers(disk, descriptor).Err?
    ensures r.Err? ==> r.error == UnknownInstrument(Markers(disk, descriptor).error.message)
    ensures r == Ok(true) <==>
      Markers(disk, descriptor).Ok? && forall m :: m in Markers(disk, descriptor).value ==> JoinPath(folder, m) in disk.present
  {
    match Markers(disk, descriptor)
    case Err(e) => Err(UnknownInstrument(e.message))
    case Ok(markers) => Ok(forall k :: 0 <= k < |markers| ==> JoinPath(folder, markers[k]) in disk.present)
  }

  /** A descriptor of a known instrument whose marker files are all present. */
  predicate CompleteBy(disk: Disk, folder: string, descriptor: string) {
    Markers(disk, descriptor).Ok? && forall m :: m in Markers(disk, descriptor).value ==> JoinPath(folder, m) in disk.present
  }

  // ---------------------------------------------------------------- dispatch on the uploaded file

  /** What an uploaded file's path asks the handler to record. */
  datatype Event = RunInfoFile | RunParametersFile | NetcopyFile | OtherFile

  /** The branches of `_post_runinfoxml_create_or_update`, tried on the lowercased path in this order. */
  function Classify(path: string): (r: Event)
    ensures var lowered := Lower(path);
            && (r == RunInfoFile <==> EndsWith(lowered, "/runinfo.xml"))
            && (r == RunParametersFile <==> EndsWith(lowered, "/runparameters.xml") && !EndsWith(lowered, "/runinfo.xml"))
            && (r == NetcopyFile <==> Contains(lowered, "netcopy_complete")
                                      && !EndsWith(lowered, "/runinfo.xml") && !EndsWith(lowered, "/runparameters.xml"))
  {
    var lowered := Lower(path);
    if EndsWith(lowered, "/runinfo.xml") then RunInfoFile
    else if EndsWith(lowered, "/runparameters.xml") then RunParametersFile
    else if Contains(lowered, "netcopy_complete") then NetcopyFile
    else OtherFile
  }

  /** The choice does not depend on letter case. */
  lemma ClassifyIgnoresCase(path: string)
    ensures Classify(Lower(path)) == Classify(path)
  {
    LowerIdempotent(path);
  }

  /** `RunInfo.xml` as the instruments write it is recorded as run information. */
  lemma ClassifyRunInfoName()
    ensures Classify("/run/RunInfo.xml") == RunInfoFile
  {
    LowerRunInfoPath();
  }

  /** `RunParameters.xml` is recorded as the run-parameters descriptor. */
  lemma ClassifyRunParametersName()
    ensures Classify("/run/RunParameters.xml") == RunParametersFile
  {
    LowerRunParametersPath();
    RunParametersLoweredClass();
  }

  /** So is the older spelling `runParameters.xml`. */
  lemma ClassifyOldRunParametersName()
    ensures Classify("/run/runParameters.xml") == RunParametersFile
  {
    LowerOldRunParametersPath();
    RunParametersLoweredClass();
  }

  lemma RunParametersLoweredClass()
    ensures !EndsWith("/run/runparameters.xml", "/runinfo.xml")
    ensures EndsWith("/run/runparameters.xml", "/runparameters.xml")
  {
    NotEndsWithAt("/run/runparameters.xml", "/runinfo.xml", 0);
    assert "/run/runparameters.xml"[4..] == "/runparameters.xml";
  }

  lemma LowerRunInfoPath()
    ensures Lower("/run/RunInfo.xml") == "/run/runinfo.xml"
  {
  }

  lemma LowerRunParametersPath()
    ensures Lower("/run/RunParameters.xml") == "/run/runparameters.xml"
  {
  }

  lemma LowerOldRunParametersPath()
    ensures Lower("/run/runParameters.xml") == "/run/runparameters.xml"
  {
  }

  /** A MiSeq Netcopy marker is recorded. */
  lemma ClassifyNetcopyMarker()
    ensures Classify("/run/Basecalling_Netcopy_complete.txt") == NetcopyFile
  {
    var head, tail := "/run/Basecalling_", "Netcopy_complete.txt";
    var lowered := "/run/basecalling_" + "netcopy_complete.txt";
    SplitNetcopyPath();
    LowerConcat(head, tail);
    LowerNetcopyHead();
    LowerNetcopyTail();
    NotEndsWithAt(lowered, "/runinfo.xml", 11);
    NotEndsWithAt(lowered, "/runparameters.xml", 17);
    NetcopyInLowered();
  }

  lemma SplitNetcopyPath()
    ensures "/run/Basecalling_Netcopy_complete.txt" == "/run/Basecalling_" + "Netcopy_complete.txt"
  {
  }

  lemma LowerNetcopyHead()
    ensures Lower("/run/Basecalling_") == "/run/basecalling_"
  {
  }

  lemma LowerNetcopyTail()
    ensures Lower("Netcopy_complete.txt") == "netcopy_complete.txt"
  {
  }

  lemma NetcopyInLowered()
    ensures Contains("/run/basecalling_" + "netcopy_complete.txt", "netcopy_complete")
  {
    var tail := "netcopy_complete.txt";
    assert tail[..16] == "netcopy_complete";
    ContainsInTail("/run/basecalling_", tail, "netcopy_complete");
  }

  /** The completion marker of the other instruments is not recorded. */
  lemma ClassifyRtaMarker()
    ensures Classify("/run/RTAComplete.txt") == OtherFile
  {
    var rta := "/run/rtacomplete.txt";
    LowerRtaPath();
    NotEndsWithAt(rta, "/runinfo.xml", 11);
    NotEndsWithAt(rta, "/runparameters.xml", 17);
    RtaLacksNetcopy();
  }

  lemma RtaLacksNetcopy()
    ensures !Contains("/run/rtacomplete.txt", "netcopy_complete")
  {
    NetcopyHasY();
    RtaLacksY();
    LacksCharOf("/run/rtacomplete.txt", "netcopy_complete", 6);
  }

  lemma NetcopyHasY()
    ensures "netcopy_complete"[6] == 'y'
  {
  }

  lemma RtaLacksY()
    ensures !Contains("/run/rtacomplete.txt", ['y'])
  {
    ContainsChar("/run/rtacomplete.txt", 'y');
  }

  lemma LowerRtaPath()
    ensures Lower("/run/RTAComplete.txt") == "/run/rtacomplete.txt"
  {
  }

  // ---------------------------------------------------------------- writing AVUs

  /** `str(pathlib.Path(target).parent)`: the collection a file of a run folder lies in. */
  function ParentOf(target: string): string {
    Format(Parse(target).Parent())
  }

  /** The attributes and values of a sequence of triples, a later triple overwriting an earlier one. */
  function AvuMap(avus: seq<RunFolder.Avu>): map<string, string>
    decreases |avus|
  {
    if avus == [] then map[]
    else AvuMap(avus[..|avus| - 1])[avus[|avus| - 1].attribute := avus[|avus| - 1].value]
  }

  /** `metadata[key] = iRODSMeta(key, value, "")` for every pair of `m`, on one path's metadata. */
  function Replaced(meta: Metadata, m: map<string, string>): (r: Metadata)
    ensures forall k :: k in m ==> k in r && r[k] == [m[k]]
    ensures forall k :: k !in m ==> (k in r <==> k in meta) && (k in meta ==> r[k] == meta[k])
  {
    meta + map k | k in m :: [m[k]]
  }

  /** Replacing the values of every key of `m` on `path`; with no keys the catalogue is untouched. */
  function ReplaceAll(w: World, path: string, m: map<string, string>): (r: World)
    ensures r.folders == w.folders && r.collections == w.collections
    ensures r.objects == w.objects && r.checksummed == w.checksummed
  {
    if m == map[] then w else w.(avus := w.avus[path := Replaced(w.MetadataOf(path), m)])
  }

  /** After replacing, each key of `m` holds exactly its value and every other value is as it was. */
  lemma ReplaceAllValues(w: World, path: string, m: map<string, string>)
    ensures forall k :: k in m ==> ReplaceAll(w, path, m).Values(path, k) == [m[k]]
    ensures forall p, k :: (p != path || k !in m) ==> ReplaceAll(w, path, m).Values(p, k) == w.Values(p, k)
  {
  }

  /** Replacing one more pair extends the replaced map. */
  lemma ReplaceAllSet(w: World, path: string, m: map<string, string>, k: string, v: string)
    ensures ReplaceAll(w, path, m).SetAvu(path, k, v) == ReplaceAll(w, path, m[k := v])
  {
    var meta := w.MetadataOf(path);
    var once := ReplaceAll(w, path, m);
    if m == map[] {
      ReplacedNothing(meta);
    }
    assert once.MetadataOf(path) == Replaced(meta, m);
    ReplacedSet(meta, m, k, v);
    assert once.avus[path := Replaced(meta, m)[k := [v]]] == w.avus[path := Replaced(meta, m[k := v])];
  }

  /** The pairs of `values` a loop over its keys has written while `pending` keys remain. */
  function Written(values: map<string, string>, pending: set<string>): map<string, string> {
    map k | k in values && k !in pending :: values[k]
  }

  lemma WrittenNone(values: map<string, string>)
    ensures Written(values, values.Keys) == map[]
  {
    assert Written(values, values.Keys).Keys == {};
  }

  lemma WrittenStep(values: map<string, string>, pending: set<string>, k: string)
    requires k in pending && k in values
    ensures k !in Written(values, pending)
    ensures Written(values, pending)[k := values[k]] == Written(values, pending - {k})
  {
    var x := Written(values, pending)[k := values[k]];
    var y := Written(values, pending - {k});
    assert x.Keys == y.Keys;
  }

  lemma WrittenAll(values: map<string, string>)
    ensures Written(values, {}) == values
  {
    assert Written(values, {}).Keys == values.Keys;
  }

  lemma ReplacedNothing(meta: Metadata)
    ensures Replaced(meta, map[]) == meta
  {
    assert Replaced(meta, map[]).Keys == meta.Keys;
  }

  lemma ReplacedSet(meta: Metadata, m: map<string, string>, k: string, v: string)
    ensures Replaced(meta, m)[k := [v]] == Replaced(meta, m[k := v])
  {
    var x := Replaced(meta, m)[k := [v]];
    var y := Replaced(meta, m[k := v]);
    assert x.Keys == y.Keys;
    forall j | j in x
      ensures x[j] == y[j]
    {
    }
  }

  /** Replacing is idempotent: recording the same values twice leaves what recording them once left. */
  lemma ReplaceAllIdempotent(w: World, path: string, m: map<string, string>)
    ensures ReplaceAll(ReplaceAll(w, path, m), path, m) == ReplaceAll(w, path, m)
  {
    if m != map[] {
      var once := Replaced(w.MetadataOf(path), m);
      assert Replaced(once, m) == once;
    }
  }

  /** Triples with distinct attributes: the map holds each triple's value under its attribute, and nothing else. */
  lemma {:induction false} AvuMapDistinct(avus: seq<RunFolder.Avu>)
    requires RunFolder.DistinctAttributes(avus)
    ensures forall j :: 0 <= j < |avus| ==> avus[j].attribute in AvuMap(avus) && AvuMap(avus)[avus[j].attribute] == avus[j].value
    ensures forall k :: k in AvuMap(avus) ==> exists j :: 0 <= j < |avus| && avus[j].attribute == k
    decreases |avus|
  {
    if avus != [] {
      var init := avus[..|avus| - 1];
      AvuMapDistinct(init);
      assert forall j :: 0 <= j < |init| ==> init[j] == avus[j];
    }
  }

  /** Recording a run's description writes each field under its own key. */
  lemma RunInfoAvuMap(info: RunFolder.RunInfo)
    ensures var avus := RunFolder.RunInfoAvus(info);
            forall j :: 0 <= j < |avus| ==> avus[j].attribute in AvuMap(avus) && AvuMap(avus)[avus[j].attribute] == avus[j].value
  {
    RunFolder.RunInfoAvusDistinct(info);
    AvuMapDistinct(RunFolder.RunInfoAvus(info));
  }
}
