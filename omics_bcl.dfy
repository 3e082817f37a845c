/**
 * The older package's handler for Illumina run folders. It differs from the current one
 * in four ways: the done predicate returns nothing at all when no descriptor exists,
 * uploaded descriptors and markers are recorded with `metadata.add`, which the catalogue
 * refuses for an AVU the path already carries, so that an event repeating earlier values
 * raises instead of replacing them, uploads are not checksummed, and `post_job` does
 * nothing; finalisation is reached from `pre_job` only.
 */
module OmicsBcl {
  import opened Wrappers
  import opened Landing
  import opened Illumina
  import RunFolder
  import Lifecycle
  import OmicsCommon
  import RodeosBcl
  import Order

  const HandlerOperation := PutSync

  /** `DELAY_UNTIL_AT_REST`: five minutes, in seconds. */
  const DelayUntilAtRest := 5 * 60

  // ---------------------------------------------------------------- is_runfolder_done

  /** `is_runfolder_done`: without a descriptor the loop ends and the function returns `None`. */
  function IsRunfolderDone(disk: Disk, folder: string): (r: Result<Option<bool>, Error>)
    ensures r == Ok(None) <==> Descriptor(disk, folder).None?
    ensures r == Ok(Some(true)) <==> Descriptor(disk, folder).Some? && CompleteBy(disk, folder, Descriptor(disk, folder).value)
    ensures r.Err? <==> Descriptor(disk, folder).Some? && Markers(disk, Descriptor(disk, folder).value).Err?
  {
    match Descriptor(disk, folder)
    case None => Ok(None)
    case Some(descriptor) =>
      match MarkersPresent(disk, folder, descriptor)
      case Err(e) => Err(e)
      case Ok(b) => Ok(Some(b))
  }

  /** The predicate `post_job` receives: `not None` holds, so a missing answer counts as not done. */
  function Done(disk: Disk): DonePredicate {
    folder =>
      match IsRunfolderDone(disk, folder)
      case Err(e) => Err(e)
      case Ok(answer) => Ok(answer == Some(true))
  }

  /** Taken as a truth value, the older predicate is the current package's. */
  lemma DoneAgreesWithCurrentPackage(disk: Disk, folder: string)
    ensures Done(disk)(folder) == RodeosBcl.IsRunfolderDone(disk, folder)
    ensures IsRunfolderDone(disk, folder).Ok? && IsRunfolderDone(disk, folder).value.Some? ==>
              RodeosBcl.IsRunfolderDone(disk, folder) == Ok(IsRunfolderDone(disk, folder).value.value)
  {
    var older := IsRunfolderDone(disk, folder);
    assert Done(disk)(folder) == (match older case Err(e) => Err(e) case Ok(answer) => Ok(answer == Some(true)));
    match Descriptor(disk, folder)
    case None =>
    case Some(descriptor) =>
      var m := MarkersPresent(disk, folder, descriptor);
      assert RodeosBcl.IsRunfolderDone(disk, folder) == m;
      assert older == (match m case Err(e) => Err(e) case Ok(b) => Ok(Some(b)));
  }

  // ---------------------------------------------------------------- recording uploaded descriptors

  /**
   * `metadata.add(*avu)` for the triples in order. The first triple the path already
   * carries raises; the triples added before it stay added.
   */
  function AddSeq(w: World, path: string, avus: seq<RunFolder.Avu>): (r: Step)
    ensures r.world.folders == w.folders && r.world.collections == w.collections
    ensures r.world.objects == w.objects && r.world.checksummed == w.checksummed
    decreases |avus|
  {
    if avus == [] then Step(w, None)
    else
      var before := AddSeq(w, path, avus[..|avus| - 1]);
      var last := avus[|avus| - 1];
      if before.raised.Some? then before
      else before.world.AddAvu(path, last.attribute, last.value)
  }

  /** One more triple: added unless an earlier one raised. */
  lemma AddSeqSnoc(w: World, path: string, avus: seq<RunFolder.Avu>, a: RunFolder.Avu)
    ensures var before := AddSeq(w, path, avus);
            AddSeq(w, path, avus + [a]) == if before.raised.Some? then before else before.world.AddAvu(path, a.attribute, a.value)
  {
    assert (avus + [a])[..|avus|] == avus;
  }

  /** The values the triples carry for `key`, in order. */
  function ValuesFor(avus: seq<RunFolder.Avu>, key: string): seq<string>
    decreases |avus|
  {
    if avus == [] then []
    else
      var last := avus[|avus| - 1];
      ValuesFor(avus[..|avus| - 1], key) + (if last.attribute == key then [last.value] else [])
  }

  /** No triple is held when its turn comes: neither by the path beforehand nor by an earlier triple. */
  predicate AllNew(w: World, path: string, avus: seq<RunFolder.Avu>) {
    forall j :: 0 <= j < |avus| ==>
      avus[j].value !in w.Values(path, avus[j].attribute) + ValuesFor(avus[..j], avus[j].attribute)
  }

  /** The path carries none of the triples. */
  predicate Fresh(w: World, path: string, avus: seq<RunFolder.Avu>) {
    forall a :: a in avus ==> a.value !in w.Values(path, a.attribute)
  }

  /**
   * Adding the triples succeeds exactly when each is new when its turn comes; then every
   * key gains the values the triples carry for it after the ones it had. Other paths keep
   * their metadata either way.
   */
  lemma AddSeqOutcome(w: World, path: string, avus: seq<RunFolder.Avu>)
    ensures AddSeq(w, path, avus).raised.None? <==> AllNew(w, path, avus)
    ensures AddSeq(w, path, avus).raised.None? ==>
              forall k :: AddSeq(w, path, avus).world.Values(path, k) == w.Values(path, k) + ValuesFor(avus, k)
    ensures forall p, k :: p != path ==> AddSeq(w, path, avus).world.Values(p, k) == w.Values(p, k)
  {
    AddSeqRaises(w, path, avus);
    AddSeqValues(w, path, avus);
    AddSeqOthers(w, path, avus);
  }

  lemma {:induction false} AddSeqRaises(w: World, path: string, avus: seq<RunFolder.Avu>)
    ensures AddSeq(w, path, avus).raised.None? <==> AllNew(w, path, avus)
    decreases |avus|
  {
    if avus != [] {
      var init := avus[..|avus| - 1];
      AddSeqRaises(w, path, init);
      AddSeqValues(w, path, init);
      AllNewSnoc(w, path, avus);
    }
  }

  lemma {:induction false} AddSeqValues(w: World, path: string, avus: seq<RunFolder.Avu>)
    ensures AddSeq(w, path, avus).raised.None? ==>
              forall k :: AddSeq(w, path, avus).world.Values(path, k) == w.Values(path, k) + ValuesFor(avus, k)
    decreases |avus|
  {
    if avus != [] {
      var init := avus[..|avus| - 1];
      var last := avus[|avus| - 1];
      AddSeqValues(w, path, init);
      var before := AddSeq(w, path, init);
      if AddSeq(w, path, avus).raised.None? {
        forall k
          ensures before.world.Values(path, k) + (if last.attribute == k then [last.value] else [])
                  == w.Values(path, k) + ValuesFor(avus, k)
        {
        }
      }
    }
  }

  lemma {:induction false} AddSeqOthers(w: World, path: string, avus: seq<RunFolder.Avu>)
    ensures forall p, k :: p != path ==> AddSeq(w, path, avus).world.Values(p, k) == w.Values(p, k)
    decreases |avus|
  {
    if avus != [] {
      AddSeqOthers(w, path, avus[..|avus| - 1]);
    }
  }

  /** One more triple keeps all of them new exactly when the earlier ones were and it is too. */
  lemma AllNewSnoc(w: World, path: string, avus: seq<RunFolder.Avu>)
    requires avus != []
    ensures var init := avus[..|avus| - 1];
            var last := avus[|avus| - 1];
            AllNew(w, path, avus) <==>
              AllNew(w, path, init) && last.value !in w.Values(path, last.attribute) + ValuesFor(init, last.attribute)
  {
    var init := avus[..|avus| - 1];
    var last := avus[|avus| - 1];
    var n := |init|;
    assert avus[..n] == init;
    if AllNew(w, path, avus) {
      forall j | 0 <= j < n
        ensures init[j].value !in w.Values(path, init[j].attribute) + ValuesFor(init[..j], init[j].attribute)
      {
        assert avus[j] == init[j] && avus[..j] == init[..j];
      }
    }
    if AllNew(w, path, init) && last.value !in w.Values(path, last.attribute) + ValuesFor(init, last.attribute) {
      forall j | 0 <= j < |avus|
        ensures avus[j].value !in w.Values(path, avus[j].attribute) + ValuesFor(avus[..j], avus[j].attribute)
      {
        if j < n {
          assert avus[j] == init[j] && avus[..j] == init[..j];
        }
      }
    }
  }

  /** The first triple that is not new raises, and the world is the one its predecessors left. */
  lemma {:induction false} AddSeqStopsAt(w: World, path: string, avus: seq<RunFolder.Avu>, j: nat)
    requires j < |avus| && AllNew(w, path, avus[..j])
    requires avus[j].value in w.Values(path, avus[j].attribute) + ValuesFor(avus[..j], avus[j].attribute)
    ensures AddSeq(w, path, avus) == Step(AddSeq(w, path, avus[..j]).world, Some(DuplicateAvu(path, avus[j].attribute, avus[j].value)))
    decreases |avus|
  {
    var init := avus[..|avus| - 1];
    if j == |avus| - 1 {
      assert init == avus[..j];
      AddSeqOutcome(w, path, init);
    } else {
      assert init[..j] == avus[..j];
      AddSeqStopsAt(w, path, init, j);
    }
  }

  /** Once a prefix of the triples raises, the triples after it are never added. */
  lemma {:induction false} AddSeqPrefix(w: World, path: string, avus: seq<RunFolder.Avu>, n: nat)
    requires n <= |avus| && AddSeq(w, path, avus[..n]).raised.Some?
    ensures AddSeq(w, path, avus) == AddSeq(w, path, avus[..n])
    decreases |avus|
  {
    if n < |avus| {
      var init := avus[..|avus| - 1];
      assert init[..n] == avus[..n];
      AddSeqPrefix(w, path, init, n);
    } else {
      assert avus[..n] == avus;
    }
  }

  /** Each triple's value is among the values the triples carry for its attribute. */
  lemma {:induction false} ValuesForHas(avus: seq<RunFolder.Avu>, j: nat)
    requires j < |avus|
    ensures avus[j].value in ValuesFor(avus, avus[j].attribute)
    decreases |avus|
  {
    if j < |avus| - 1 {
      ValuesForHas(avus[..|avus| - 1], j);
    }
  }

  /** Triples none of which carries `key` carry no value for it. */
  lemma {:induction false} ValuesForAbsent(avus: seq<RunFolder.Avu>, key: string)
    requires forall a :: a in avus ==> a.attribute != key
    ensures ValuesFor(avus, key) == []
    decreases |avus|
  {
    if avus != [] {
      ValuesForAbsent(avus[..|avus| - 1], key);
    }
  }

  /** With distinct attributes no triple can collide with an earlier one: all are new exactly when the path carries none. */
  lemma DistinctAllNew(w: World, path: string, avus: seq<RunFolder.Avu>)
    requires RunFolder.DistinctAttributes(avus)
    ensures AllNew(w, path, avus) <==> Fresh(w, path, avus)
  {
    forall j | 0 <= j < |avus|
      ensures ValuesFor(avus[..j], avus[j].attribute) == []
    {
      ValuesForAbsent(avus[..j], avus[j].attribute);
    }
  }

  /** Adding triples with distinct attributes raises only for a triple the path already carried. */
  lemma {:induction false} AddSeqRaised(w: World, path: string, avus: seq<RunFolder.Avu>)
    requires RunFolder.DistinctAttributes(avus)
    ensures AddSeq(w, path, avus).raised.Some? ==>
              exists a :: a in avus && a.value in w.Values(path, a.attribute)
                && AddSeq(w, path, avus).raised == Some(DuplicateAvu(path, a.attribute, a.value))
    decreases |avus|
  {
    if avus != [] {
      var init := avus[..|avus| - 1];
      var last := avus[|avus| - 1];
      AddSeqRaised(w, path, init);
      AddSeqOutcome(w, path, init);
      ValuesForAbsent(init, last.attribute);
      if AddSeq(w, path, init).raised.Some? {
        var a :| a in init && a.value in w.Values(path, a.attribute)
          && AddSeq(w, path, init).raised == Some(DuplicateAvu(path, a.attribute, a.value));
        assert a in avus;
      } else {
        assert last in avus;
      }
    }
  }

  /** Adding the same triples again right after they were all added raises at the first one and changes nothing. */
  lemma AddSeqTwice(w: World, path: string, avus: seq<RunFolder.Avu>)
    requires avus != [] && AddSeq(w, path, avus).raised.None?
    ensures var once := AddSeq(w, path, avus).world;
            AddSeq(once, path, avus) == Step(once, Some(DuplicateAvu(path, avus[0].attribute, avus[0].value)))
  {
    AddSeqOutcome(w, path, avus);
    ValuesForHas(avus, 0);
    var once := AddSeq(w, path, avus).world;
    assert avus[..0] == [];
    AddSeqStopsAt(once, path, avus, 0);
  }

  /** `values.items()` as triples without a unit, in the order `order` gives the keys. */
  function ItemAvus(values: map<string, string>, order: seq<string>): (r: seq<RunFolder.Avu>)
    ensures forall a :: a in r <==> a.attribute in order && a.attribute in values && a == RunFolder.Avu(a.attribute, values[a.attribute], "")
    decreases |order|
  {
    if order == [] then []
    else
      var init := ItemAvus(values, order[..|order| - 1]);
      var k := order[|order| - 1];
      assert forall x :: x in order <==> x in order[..|order| - 1] || x == k;
      if k in values then init + [RunFolder.Avu(k, values[k], "")] else init
  }

  /** One more key: its triple follows when the dictionary has the key. */
  lemma ItemAvusStep(values: map<string, string>, order: seq<string>, i: nat)
    requires i < |order|
    ensures ItemAvus(values, order[..i + 1])
         == ItemAvus(values, order[..i]) + (if order[i] in values then [RunFolder.Avu(order[i], values[order[i]], "")] else [])
  {
    assert order[..i + 1][..i] == order[..i];
  }

  /** The triples of a prefix of the keys are a prefix of the triples of all of them. */
  lemma {:induction false} ItemAvusPrefix(values: map<string, string>, order: seq<string>, n: nat)
    requires n <= |order|
    ensures var p := ItemAvus(values, order[..n]);
            |p| <= |ItemAvus(values, order)| && ItemAvus(values, order)[..|p|] == p
    decreases |order|
  {
    if n < |order| {
      var init := order[..|order| - 1];
      assert init[..n] == order[..n];
      ItemAvusPrefix(values, init, n);
    } else {
      assert order[..n] == order;
    }
  }

  /** Keys listed once give triples with distinct attributes. */
  lemma {:induction false} ItemAvusDistinct(values: map<string, string>, order: seq<string>)
    requires forall i, j :: 0 <= i < j < |order| ==> order[i] != order[j]
    ensures RunFolder.DistinctAttributes(ItemAvus(values, order))
    decreases |order|
  {
    if order != [] {
      var init := order[..|order| - 1];
      ItemAvusDistinct(values, init);
      var k := order[|order| - 1];
      assert k !in init;
      var r0 := ItemAvus(values, init);
      assert forall i :: 0 <= i < |r0| ==> r0[i] in r0 && r0[i].attribute in init;
    }
  }

  /** `apply_runinfo_metadata`: the run's description is added to the collection holding the file. */
  function ApplyRunInfo(w: World, info: RunFolder.RunInfo, target: string): (r: Step)
    ensures ParentOf(target) !in w.collections ==> r == Step(w, Some(NoSuchCollection(ParentOf(target))))
    ensures ParentOf(target) in w.collections ==> (r.raised.None? <==> Fresh(w, ParentOf(target), RunFolder.RunInfoAvus(info)))
    ensures r.raised.None? ==> forall k :: r.world.Values(ParentOf(target), k)
                                            == w.Values(ParentOf(target), k) + ValuesFor(RunFolder.RunInfoAvus(info), k)
  {
    var coll := ParentOf(target);
    var avus := RunFolder.RunInfoAvus(info);
    AddSeqOutcome(w, coll, avus);
    RunFolder.RunInfoAvusDistinct(info);
    DistinctAllNew(w, coll, avus);
    if coll !in w.collections then Step(w, Some(NoSuchCollection(coll)))
    else AddSeq(w, coll, avus)
  }

  /**
   * `apply_runparameters_metadata`: the parameters are added to the collection holding
   * the file, in the order the dictionary yields them.
   */
  function ApplyRunParameters(w: World, values: map<string, string>, order: seq<string>, target: string): (r: Step)
    ensures ParentOf(target) !in w.collections ==> r == Step(w, Some(NoSuchCollection(ParentOf(target))))
    ensures ParentOf(target) in w.collections ==> (r.raised.None? <==> AllNew(w, ParentOf(target), ItemAvus(values, order)))
    ensures r.raised.None? ==> forall k :: r.world.Values(ParentOf(target), k)
                                            == w.Values(ParentOf(target), k) + ValuesFor(ItemAvus(values, order), k)
  {
    var coll := ParentOf(target);
    AddSeqOutcome(w, coll, ItemAvus(values, order));
    if coll !in w.collections then Step(w, Some(NoSuchCollection(coll)))
    else AddSeq(w, coll, ItemAvus(values, order))
  }

  /** `apply_netcopy_complete_metadata`: the marker's fields are added to the data object itself. */
  function ApplyNetcopy(w: World, info: RunFolder.NetcopyInfo, target: string): (r: Step)
    ensures target !in w.objects ==> r == Step(w, Some(NoSuchObject(target)))
    ensures target in w.objects ==> (r.raised.None? <==> Fresh(w, target, RunFolder.NetcopyAvus(info)))
    ensures r.raised.None? ==> forall k :: r.world.Values(target, k) == w.Values(target, k) + ValuesFor(RunFolder.NetcopyAvus(info), k)
  {
    var avus := RunFolder.NetcopyAvus(info);
    AddSeqOutcome(w, target, avus);
    RunFolder.NetcopyAvusDistinct(info);
    DistinctAllNew(w, target, avus);
    if target !in w.objects then Step(w, Some(NoSuchObject(target)))
    else AddSeq(w, target, avus)
  }

  /** `_post_runinfoxml_create_or_update`, with the same branches as in the current package. */
  function Dispatch(w: World, disk: Disk, path: string, target: string): (r: Step)
    ensures Keeps(w, r)
    ensures Classify(path) == OtherFile ==> r == Step(w, None)
  {
    match Classify(path)
    case RunInfoFile =>
      var info := disk.runInfo(path);
      RunFolder.RunInfoAvusDistinct(info);
      AddedOnly(w, ParentOf(target), RunFolder.RunInfoAvus(info), ApplyRunInfo(w, info, target));
      ApplyRunInfo(w, info, target)
    case RunParametersFile =>
      var doc := disk.documents(path);
      var values := RunFolder.RunParametersOf(doc, RunFolder.XPathMap);
      var order := RunFolder.RunParametersOrder(doc, RunFolder.XPathMap);
      ItemAvusDistinct(values, order);
      AddedOnly(w, ParentOf(target), ItemAvus(values, order), ApplyRunParameters(w, values, order, target));
      ApplyRunParameters(w, values, order, target)
    case NetcopyFile =>
      (match RunFolder.ParseNetcopy(disk.contents(path))
       case None => Step(w, None)
       case Some(info) =>
         RunFolder.NetcopyAvusDistinct(info);
         AddedOnly(w, target, RunFolder.NetcopyAvus(info), ApplyNetcopy(w, info, target));
         ApplyNetcopy(w, info, target))
    case OtherFile => Step(w, None)
  }

  /** `post_data_obj_create` and `post_data_obj_update`: record, then refresh `last_update`. */
  function DataObjectHook(w: World, tools: Tools, disk: Disk, path: string, root: string, target: string): (r: Step)
    ensures r.world.checksummed == w.checksummed && r.world.folders == w.folders
    ensures r.world.collections == w.collections && r.world.objects == w.objects
  {
    var recorded := Dispatch(w, disk, path, target);
    if recorded.raised.Some? then recorded
    else Lifecycle.Refresh(recorded.world, tools, OmicsCommon.Keys, path, root, target)
  }

  /** The event handler's `pre_job`: the common `pre_job`, then the common `post_job` over the same listing. */
  function PreJob(w: World, tools: Tools, disk: Disk, root: string, target: string, names: seq<string>): (r: Step)
    ensures r.world == Lifecycle.PreJob(w, tools, OmicsCommon.Keys, target, names).world
  {
    var seen := Lifecycle.PreJob(w, tools, OmicsCommon.Keys, target, names);
    if seen.raised.Some? then seen
    else OmicsCommon.PostJob(seen.world, tools, DelayUntilAtRest, Done(disk), root, target, names)
  }

  /** `metadata.add(*avu)` for the triples in order, stopping at the first that raises. */
  method AddEach(zone: Zone, path: string, avus: seq<RunFolder.Avu>) returns (raised: Option<Error>)
    modifies zone
    ensures Step(zone.State(), raised) == AddSeq(old(zone.State()), path, avus)
  {
    ghost var w0 := zone.State();
    var i := 0;
    while i < |avus|
      invariant 0 <= i <= |avus|
      invariant Step(zone.State(), None) == AddSeq(w0, path, avus[..i])
    {
      assert avus[..i + 1] == avus[..i] + [avus[i]];
      AddSeqSnoc(w0, path, avus[..i], avus[i]);
      raised := zone.AddAvu(path, avus[i].attribute, avus[i].value);
      if raised.Some? {
        AddSeqPrefix(w0, path, avus, i + 1);
        return;
      }
      i := i + 1;
    }
    assert avus[..i] == avus;
    return None;
  }

  /** `metadata.add(key, value, "")` for the items of a dictionary, in the order `order` gives its keys. */
  method AddEachOf(zone: Zone, path: string, values: map<string, string>, order: seq<string>) returns (raised: Option<Error>)
    modifies zone
    ensures Step(zone.State(), raised) == AddSeq(old(zone.State()), path, ItemAvus(values, order))
  {
    ghost var w0 := zone.State();
    var i := 0;
    while i < |order|
      invariant 0 <= i <= |order|
      invariant Step(zone.State(), None) == AddSeq(w0, path, ItemAvus(values, order[..i]))
    {
      var key := order[i];
      ghost var done := ItemAvus(values, order[..i]);
      ItemAvusStep(values, order, i);
      if key in values {
        AddSeqSnoc(w0, path, done, RunFolder.Avu(key, values[key], ""));
        raised := zone.AddAvu(path, key, values[key]);
        assert Step(zone.State(), raised) == AddSeq(w0, path, ItemAvus(values, order[..i + 1]));
        if raised.Some? {
          ItemAvusPrefix(values, order, i + 1);
          AddSeqPrefix(w0, path, ItemAvus(values, order), |ItemAvus(values, order[..i + 1])|);
          return;
        }
      } else {
        assert ItemAvus(values, order[..i + 1]) == done;
      }
      i := i + 1;
    }
    assert order[..i] == order;
    return None;
  }

  /** `apply_runinfo_metadata`. */
  method ApplyRunInfoMetadata(zone: Zone, info: RunFolder.RunInfo, target: string) returns (raised: Option<Error>)
    modifies zone
    ensures Step(zone.State(), raised) == ApplyRunInfo(old(zone.State()), info, target)
  {
    var coll := ParentOf(target);
    if coll !in zone.collections {
      return Some(NoSuchCollection(coll));
    }
    raised := AddEach(zone, coll, RunFolder.RunInfoAvus(info));
  }

  /** `apply_runparameters_metadata`. */
  method ApplyRunParametersMetadata(zone: Zone, values: map<string, string>, order: seq<string>, target: string)
    returns (raised: Option<Error>)
    modifies zone
    ensures Step(zone.State(), raised) == ApplyRunParameters(old(zone.State()), values, order, target)
  {
    var coll := ParentOf(target);
    if coll !in zone.collections {
      return Some(NoSuchCollection(coll));
    }
    raised := AddEachOf(zone, coll, values, order);
  }

  /** `apply_netcopy_complete_metadata`. */
  method ApplyNetcopyCompleteMetadata(zone: Zone, info: RunFolder.NetcopyInfo, target: string) returns (raised: Option<Error>)
    modifies zone
    ensures Step(zone.State(), raised) == ApplyNetcopy(old(zone.State()), info, target)
  {
    if target !in zone.objects {
      return Some(NoSuchObject(target));
    }
    raised := AddEach(zone, target, RunFolder.NetcopyAvus(info));
  }

  /** `_post_runinfoxml_create_or_update`. */
  method PostRunInfoXmlCreateOrUpdate(zone: Zone, disk: Disk, path: string, target: string) returns (raised: Option<Error>)
    modifies zone
    ensures Step(zone.State(), raised) == Dispatch(old(zone.State()), disk, path, target)
  {
    var event := Classify(path);
    if event == RunInfoFile {
      raised := ApplyRunInfoMetadata(zone, disk.runInfo(path), target);
    } else if event == RunParametersFile {
      var values, order := RunFolder.ParseRunParameters(disk.documents(path));
      raised := ApplyRunParametersMetadata(zone, values, order, target);
    } else if event == NetcopyFile {
      var info := RunFolder.ParseNetcopy(disk.contents(path));
      if info.Some? {
        raised := ApplyNetcopyCompleteMetadata(zone, info.value, target);
      } else {
        raised := None;
      }
    } else {
      raised := None;
    }
  }

  /** `post_data_obj_create` and `post_data_obj_update`, which do the same. */
  method OnDataObject(zone: Zone, tools: Tools, disk: Disk, path: string, root: string, target: string) returns (raised: Option<Error>)
    modifies zone
    ensures Step(zone.State(), raised) == DataObjectHook(old(zone.State()), tools, disk, path, root, target)
  {
    raised := PostRunInfoXmlCreateOrUpdate(zone, disk, path, target);
    if raised.Some? {
      return;
    }
    raised := Lifecycle.RefreshLastUpdate(zone, tools, OmicsCommon.Keys, path, root, target);
  }

  /** The event handler's `pre_job`, over the folders of the landing zone in name order. */
  method HandlerPreJob(zone: Zone, tools: Tools, disk: Disk, root: string, target: string, listing: set<string>)
    returns (visited: seq<string>, raised: Option<Error>)
    modifies zone
    ensures Order.StrictlySorted(visited) && forall x :: x in visited <==> x in listing
    ensures Step(zone.State(), raised) == PreJob(old(zone.State()), tools, disk, root, target, visited)
  {
    visited, raised := Lifecycle.PreJobFolders(zone, tools, OmicsCommon.Keys, target, listing);
    if raised.Some? {
      return;
    }
    var swept;
    swept, raised := OmicsCommon.PostJobFolders(zone, tools, DelayUntilAtRest, Done(disk), root, target, listing);
    Order.SortedUnique(visited, swept);
  }

  // ---------------------------------------------------------------- what the hooks record

  /**
   * Recording adds: the catalogue refuses an AVU a path already carries, so an upload seen
   * a second time raises at its first field and leaves what the first event recorded,
   * where the current package simply overwrites.
   */
  lemma RunInfoSeenTwice(w: World, disk: Disk, path: string, target: string)
    requires Classify(path) == RunInfoFile
    ensures var avus := RunFolder.RunInfoAvus(disk.runInfo(path));
            var once := Dispatch(w, disk, path, target);
            once.raised.None? ==>
              Dispatch(once.world, disk, path, target)
                == Step(once.world, Some(DuplicateAvu(ParentOf(target), avus[0].attribute, avus[0].value)))
  {
    var coll := ParentOf(target);
    var avus := RunFolder.RunInfoAvus(disk.runInfo(path));
    if Dispatch(w, disk, path, target).raised.None? {
      AddSeqTwice(w, coll, avus);
    }
  }

  /** The same for the run parameters, whenever the descriptor yields at least one of them. */
  lemma RunParametersSeenTwice(w: World, disk: Disk, path: string, target: string)
    requires Classify(path) == RunParametersFile
    ensures var doc := disk.documents(path);
            var values := RunFolder.RunParametersOf(doc, RunFolder.XPathMap);
            var avus := ItemAvus(values, RunFolder.RunParametersOrder(doc, RunFolder.XPathMap));
            var once := Dispatch(w, disk, path, target);
            once.raised.None? && values != map[] ==>
              |avus| > 0 &&
              Dispatch(once.world, disk, path, target)
                == Step(once.world, Some(DuplicateAvu(ParentOf(target), avus[0].attribute, avus[0].value)))
  {
    var doc := disk.documents(path);
    var values := RunFolder.RunParametersOf(doc, RunFolder.XPathMap);
    var order := RunFolder.RunParametersOrder(doc, RunFolder.XPathMap);
    assert Dispatch(w, disk, path, target) == ApplyRunParameters(w, values, order, target);
    if Dispatch(w, disk, path, target).raised.None? {
      var once := Dispatch(w, disk, path, target).world;
      assert Dispatch(once, disk, path, target) == ApplyRunParameters(once, values, order, target);
      ParametersTwice(w, values, order, target);
    }
  }

  lemma ParametersTwice(w: World, values: map<string, string>, order: seq<string>, target: string)
    requires forall k :: k in values ==> k in order
    requires ApplyRunParameters(w, values, order, target).raised.None?
    ensures var avus := ItemAvus(values, order);
            var once := ApplyRunParameters(w, values, order, target).world;
            values != map[] ==>
              |avus| > 0 && ApplyRunParameters(once, values, order, target)
                            == Step(once, Some(DuplicateAvu(ParentOf(target), avus[0].attribute, avus[0].value)))
  {
    var avus := ItemAvus(values, order);
    if values != map[] {
      var k :| k in values;
      assert RunFolder.Avu(k, values[k], "") in avus;
      AddSeqTwice(w, ParentOf(target), avus);
    }
  }

  /**
   * Each parameter the descriptor yields is added once, under its key, when none of them
   * was already there; the event raises exactly when one was.
   */
  lemma RunParametersRecorded(w: World, disk: Disk, path: string, target: string)
    requires Classify(path) == RunParametersFile && ParentOf(target) in w.collections
    ensures var values := RunFolder.RunParametersOf(disk.documents(path), RunFolder.XPathMap);
            var r := Dispatch(w, disk, path, target);
            && (r.raised.None? <==> forall k :: k in values ==> values[k] !in w.Values(ParentOf(target), k))
            && (r.raised.None? ==>
                  forall k :: r.world.Values(ParentOf(target), k)
                                == w.Values(ParentOf(target), k) + (if k in values then [values[k]] else []))
  {
    var doc := disk.documents(path);
    var values := RunFolder.RunParametersOf(doc, RunFolder.XPathMap);
    var order := RunFolder.RunParametersOrder(doc, RunFolder.XPathMap);
    assert Dispatch(w, disk, path, target) == ApplyRunParameters(w, values, order, target);
    ParametersAdded(w, values, order, target);
  }

  lemma ParametersAdded(w: World, values: map<string, string>, order: seq<string>, target: string)
    requires ParentOf(target) in w.collections
    requires forall k :: k in values ==> k in order
    requires forall i, j :: 0 <= i < j < |order| ==> order[i] != order[j]
    ensures var r := ApplyRunParameters(w, values, order, target);
            && (r.raised.None? <==> forall k :: k in values ==> values[k] !in w.Values(ParentOf(target), k))
            && (r.raised.None? ==>
                  forall k :: r.world.Values(ParentOf(target), k)
                                == w.Values(ParentOf(target), k) + (if k in values then [values[k]] else []))
  {
    var coll := ParentOf(target);
    var avus := ItemAvus(values, order);
    ItemAvusDistinct(values, order);
    DistinctAllNew(w, coll, avus);
    ItemAvusFresh(w, coll, values, order);
    forall k
      ensures ValuesFor(avus, k) == if k in values then [values[k]] else []
    {
      ItemAvusValues(values, order, k);
    }
  }

  /** The path carries none of a dictionary's items exactly when no key already holds its value. */
  lemma ItemAvusFresh(w: World, path: string, values: map<string, string>, order: seq<string>)
    requires forall k :: k in values ==> k in order
    ensures Fresh(w, path, ItemAvus(values, order)) <==> forall k :: k in values ==> values[k] !in w.Values(path, k)
  {
    var avus := ItemAvus(values, order);
    if Fresh(w, path, avus) {
      forall k | k in values
        ensures values[k] !in w.Values(path, k)
      {
        assert RunFolder.Avu(k, values[k], "") in avus;
      }
    }
  }

  /** With each key listed once, the items carry a key's value once, and nothing for a missing key. */
  lemma ItemAvusValues(values: map<string, string>, order: seq<string>, k: string)
    requires forall i, j :: 0 <= i < j < |order| ==> order[i] != order[j]
    requires forall k :: k in values ==> k in order
    ensures ValuesFor(ItemAvus(values, order), k) == if k in values then [values[k]] else []
  {
    var avus := ItemAvus(values, order);
    ItemAvusDistinct(values, order);
    if k in values {
      assert RunFolder.Avu(k, values[k], "") in avus;
      var j :| 0 <= j < |avus| && avus[j] == RunFolder.Avu(k, values[k], "");
      ValuesForDistinct(avus, j);
    } else {
      ValuesForAbsent(avus, k);
    }
  }

  /** With distinct attributes, a triple's attribute carries its value alone. */
  lemma {:induction false} ValuesForDistinct(avus: seq<RunFolder.Avu>, j: nat)
    requires j < |avus| && RunFolder.DistinctAttributes(avus)
    ensures ValuesFor(avus, avus[j].attribute) == [avus[j].value]
    decreases |avus|
  {
    var init := avus[..|avus| - 1];
    if j < |avus| - 1 {
      ValuesForDistinct(init, j);
    } else {
      ValuesForAbsent(init, avus[j].attribute);
    }
  }

  /**
   * The older hooks never compute a checksum. A recording that raises skips the refresh;
   * a missing destination leaves the catalogue as it was, and a refused AVU is one the path
   * already carried.
   */
  lemma DataObjectHookOutcome(w: World, tools: Tools, disk: Disk, path: string, root: string, target: string)
    ensures var d := Dispatch(w, disk, path, target);
            var r := DataObjectHook(w, tools, disk, path, root, target);
            d.raised.Some? ==> r == d && Keeps(w, r)
  {
  }

  /**
   * `r` changes no checksum, file, collection or data object of `w`; if it raised for
   * anything but a refused AVU it changed nothing, and a refused AVU is one `w` carried.
   */
  predicate Keeps(w: World, r: Step) {
    && r.world.checksummed == w.checksummed && r.world.folders == w.folders
    && r.world.collections == w.collections && r.world.objects == w.objects
    && (r.raised.Some? && !r.raised.value.DuplicateAvu? ==> r.world == w)
    && (r.raised.Some? && r.raised.value.DuplicateAvu? ==> r.raised.value.value in w.Values(r.raised.value.path, r.raised.value.attribute))
  }

  /** Recording triples with distinct attributes, or raising for a missing destination, keeps the rest. */
  lemma AddedOnly(w: World, path: string, avus: seq<RunFolder.Avu>, r: Step)
    requires RunFolder.DistinctAttributes(avus)
    requires r == AddSeq(w, path, avus) || (r.world == w && r.raised.Some? && !r.raised.value.DuplicateAvu?)
    ensures Keeps(w, r)
  {
    AddSeqRaised(w, path, avus);
  }
}
