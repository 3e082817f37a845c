/**
 * The state the ingest handlers act on: the local landing zone (run folders and the
 * manifest files the handlers write into them) and the catalogue (collections, data
 * objects with their content, and the AVU metadata of every collection and data
 * object). External commands, the clock and timestamp parsing are oracles.
 */
module Landing {
  import opened Wrappers
  import Manifest

  type Lines = seq<string>

  /** The AVUs of one catalogue path: attribute to values, in the order they were added. */
  type Metadata = map<string, seq<string>>

  /** What the handlers see of the landing zone and of the catalogue. */
  datatype World = World(
    folders: map<string, map<string, Lines>>,
    collections: set<string>,
    objects: map<string, Lines>,
    avus: map<string, Metadata>,
    checksummed: set<string>)
  {
    /** `metadata.get_all(key)`: the values of `key` on `path`, none when it has none. */
    function Values(path: string, key: string): (r: seq<string>)
      ensures path in avus && key in avus[path] ==> r == avus[path][key]
      ensures !(path in avus && key in avus[path]) ==> r == []
    {
      if path in avus && key in avus[path] then avus[path][key] else []
    }

    function MetadataOf(path: string): Metadata {
      if path in avus then avus[path] else map[]
    }

    /** `metadata[key] = iRODSMeta(key, value, "")`: every value of `key` is replaced by `value`. */
    function SetAvu(path: string, key: string, value: string): (r: World)
      ensures r.Values(path, key) == [value]
      ensures forall p, k :: (p != path || k != key) ==> r.Values(p, k) == Values(p, k)
      ensures r.folders == folders && r.collections == collections
      ensures r.objects == objects && r.checksummed == checksummed
    {
      this.(avus := avus[path := MetadataOf(path)[key := [value]]])
    }

    /**
     * `metadata.add(key, value, "")`: the catalogue refuses an AVU the path already carries
     * (every AVU the handlers add has the empty unit); otherwise `value` joins the values
     * `key` already has.
     */
    function AddAvu(path: string, key: string, value: string): (r: Step)
      ensures r.raised.Some? <==> value in Values(path, key)
      ensures r.raised.Some? ==> r == Step(this, Some(DuplicateAvu(path, key, value)))
      ensures r.raised.None? ==> r.world.Values(path, key) == Values(path, key) + [value]
      ensures forall p, k :: (p != path || k != key) ==> r.world.Values(p, k) == Values(p, k)
      ensures r.world.folders == folders && r.world.collections == collections
      ensures r.world.objects == objects && r.world.checksummed == checksummed
    {
      if value in Values(path, key) then Step(this, Some(DuplicateAvu(path, key, value)))
      else Step(this.(avus := avus[path := MetadataOf(path)[key := Values(path, key) + [value]]]), None)
    }

    predicate HasFile(folder: string, name: string) {
      folder in folders && name in folders[folder]
    }

    /** Writing the file `name` of an existing local folder. */
    function WriteFile(folder: string, name: string, lines: Lines): (r: World)
      requires folder in folders
      ensures r.folders.Keys == folders.Keys
      ensures r.folders[folder] == folders[folder][name := lines]
      ensures forall f :: f in folders && f != folder ==> r.folders[f] == folders[f]
      ensures r.collections == collections && r.objects == objects
      ensures r.avus == avus && r.checksummed == checksummed
    {
      this.(folders := folders[folder := folders[folder][name := lines]])
    }

    /** `os.remove` of a file the folder holds. */
    function RemoveFile(folder: string, name: string): (r: World)
      requires HasFile(folder, name)
      ensures r.folders.Keys == folders.Keys
      ensures !r.HasFile(folder, name)
      ensures r.collections == collections && r.objects == objects
      ensures r.avus == avus && r.checksummed == checksummed
    {
      this.(folders := folders[folder := folders[folder] - {name}])
    }

    /** `session.data_objects.put(local, dest)`: the data object `dest` holds the lines. */
    function Put(dest: string, lines: Lines): (r: World)
      ensures dest in r.objects && r.objects[dest] == lines
      ensures forall o :: o in objects && o != dest ==> o in r.objects && r.objects[o] == objects[o]
      ensures r.objects.Keys == objects.Keys + {dest}
      ensures r.folders == folders && r.collections == collections
      ensures r.avus == avus && r.checksummed == checksummed
    {
      this.(objects := objects[dest := lines])
    }

    /** A successful `ichksum dest`: the catalogue holds a checksum for `dest`. */
    function Checksum(dest: string): (r: World)
      ensures r.checksummed == checksummed + {dest}
      ensures r.folders == folders && r.collections == collections
      ensures r.objects == objects && r.avus == avus
    {
      this.(checksummed := checksummed + {dest})
    }

    /** A successful rename of a local folder, with the files in it. */
    function Move(from: string, to: string): (r: World)
      requires from in folders
      ensures to in r.folders && r.folders[to] == folders[from]
      ensures from != to ==> from !in r.folders
      ensures forall f :: f in folders && f != from && f != to ==> f in r.folders && r.folders[f] == folders[f]
      ensures r.collections == collections && r.objects == objects
      ensures r.avus == avus && r.checksummed == checksummed
    {
      this.(folders := (folders - {from})[to := folders[from]])
    }
  }

  /**
   * The landing zone and the catalogue as the handlers change them in place: one
   * object, whose operations are the file system and catalogue calls the handlers make.
   */
  class Zone {
    var folders: map<string, map<string, Lines>>
    var collections: set<string>
    var objects: map<string, Lines>
    var avus: map<string, Metadata>
    var checksummed: set<string>

    function State(): World
      reads this
    {
      World(folders, collections, objects, avus, checksummed)
    }

    constructor (w: World)
      ensures State() == w
    {
      folders := w.folders;
      collections := w.collections;
      objects := w.objects;
      avus := w.avus;
      checksummed := w.checksummed;
    }

    method SetAvu(path: string, key: string, value: string)
      modifies this
      ensures State() == old(State()).SetAvu(path, key, value)
    {
      var meta := if path in avus then avus[path] else map[];
      avus := avus[path := meta[key := [value]]];
    }

    method AddAvu(path: string, key: string, value: string) returns (raised: Option<Error>)
      modifies this
      ensures Step(State(), raised) == old(State()).AddAvu(path, key, value)
    {
      var meta := if path in avus then avus[path] else map[];
      var values := if key in meta then meta[key] else [];
      if value in values {
        return Some(DuplicateAvu(path, key, value));
      }
      avus := avus[path := meta[key := values + [value]]];
      return None;
    }

    method WriteFile(folder: string, name: string, lines: Lines)
      requires folder in folders
      modifies this
      ensures State() == old(State()).WriteFile(folder, name, lines)
    {
      folders := folders[folder := folders[folder][name := lines]];
    }

    method RemoveFile(folder: string, name: string)
      requires folder in folders && name in folders[folder]
      modifies this
      ensures State() == old(State()).RemoveFile(folder, name)
    {
      folders := folders[folder := folders[folder] - {name}];
    }

    method Put(dest: string, lines: Lines)
      modifies this
      ensures State() == old(State()).Put(dest, lines)
    {
      objects := objects[dest := lines];
    }

    method Checksum(dest: string)
      modifies this
      ensures State() == old(State()).Checksum(dest)
    {
      checksummed := checksummed + {dest};
    }

    method Move(from: string, to: string)
      requires from in folders
      modifies this
      ensures State() == old(State()).Move(from, to)
    {
      folders := (folders - {from})[to := folders[from]];
    }
  }

  /** The exceptions a handler lets through. */
  datatype Error =
    | NoSuchCollection(path: string)
    | NoSuchObject(path: string)
    | NoSuchFile(path: string)
    | NotUnderRoot(path: string)
    | UnparsableTimestamp(value: string)
    | UnknownInstrument(message: string)
    | CommandFailed(command: string, argument: string)
    | BadManifest(error: Manifest.ManifestError)
    | ManifestsDiffer(message: string)
    | UndefinedName(name: string)
    | DuplicateAvu(path: string, attribute: string, value: string)

  /** A state of the world after a handler ran, and the exception it raised if it did. */
  datatype Step = Step(world: World, raised: Option<Error>)

  /**
   * The commands and library calls the handlers depend on. `hashdeep` is the output of
   * `find | hashdeep` in a folder, `iquest` the combined output of the two catalogue
   * queries for a collection; `None` stands for a command exiting with an error.
   * `now` and `later` are two consecutive readings of the clock.
   */
  datatype Tools = Tools(
    hashdeep: string -> Option<Lines>,
    iquest: string -> Option<Lines>,
    ichksum: string -> bool,
    rename: (string, string) -> bool,
    parseTime: string -> Option<int>,
    isoformat: int -> string,
    now: int,
    later: int)

  /** The predicate that tells whether a local folder is completely written. */
  type DonePredicate = string -> Result<bool, Error>

  /**
   * The newest of the `last_update` values: `None` without values, and the first value
   * the parser rejects stops the loop.
   */
  function NewestUpdate(values: seq<string>, parse: string -> Option<int>): (r: Result<Option<int>, Error>)
    ensures r.Ok? <==> forall k :: 0 <= k < |values| ==> parse(values[k]).Some?
    ensures r == Ok(None) <==> values == []
    decreases |values|
  {
    if values == [] then Ok(None)
    else
      assert forall k :: 0 <= k < |values| - 1 ==> values[..|values| - 1][k] == values[k];
      match NewestUpdate(values[..|values| - 1], parse)
      case Err(e) => Err(e)
      case Ok(newest) =>
        var v := values[|values| - 1];
        match parse(v)
        case None => Err(UnparsableTimestamp(v))
        case Some(t) => Ok(if newest.None? || t > newest.value then Some(t) else newest)
  }

  /** The loop over `get_all(KEY_LAST_UPDATE)` keeping the greatest parsed timestamp. */
  method LastUpdate(values: seq<string>, parse: string -> Option<int>) returns (r: Result<Option<int>, Error>)
    ensures r == NewestUpdate(values, parse)
  {
    var newest: Option<int> := None;
    var i := 0;
    while i < |values|
      invariant 0 <= i <= |values|
      invariant NewestUpdate(values[..i], parse) == Ok(newest)
    {
      assert values[..i + 1][..i] == values[..i];
      var v := values[i];
      match parse(v) {
        case None =>
          assert NewestUpdate(values[..i + 1], parse) == Err(UnparsableTimestamp(v));
          NewestUpdateErrorSticks(values, parse, i + 1);
          return Err(UnparsableTimestamp(v));
        case Some(t) =>
          if newest.None? || t > newest.value {
            newest := Some(t);
          }
      }
      i := i + 1;
    }
    assert values[..i] == values;
    return Ok(newest);
  }

  /** Once a prefix of the values fails to parse, so do all the values. */
  lemma {:induction false} NewestUpdateErrorSticks(values: seq<string>, parse: string -> Option<int>, n: nat)
    requires n <= |values| && NewestUpdate(values[..n], parse).Err?
    ensures NewestUpdate(values, parse) == NewestUpdate(values[..n], parse)
    decreases |values| - n
  {
    if n < |values| {
      assert values[..n + 1][..n] == values[..n];
      NewestUpdateErrorSticks(values, parse, n + 1);
    } else {
      assert values[..n] == values;
    }
  }

  /** The newest update, when there is one, is the greatest parsed value, and a value of the list. */
  lemma {:induction false} NewestUpdateIsGreatest(values: seq<string>, parse: string -> Option<int>)
    ensures NewestUpdate(values, parse).Ok? && values != [] ==>
      var t := NewestUpdate(values, parse).value.value;
      (exists k :: 0 <= k < |values| && parse(values[k]) == Some(t))
      && forall k :: 0 <= k < |values| ==> parse(values[k]).value <= t
    decreases |values|
  {
    if values != [] {
      var init := values[..|values| - 1];
      NewestUpdateIsGreatest(init, parse);
      assert forall k :: 0 <= k < |init| ==> init[k] == values[k];
      var last := |values| - 1;
      if NewestUpdate(values, parse).Ok? {
        var t := NewestUpdate(values, parse).value.value;
        if init == [] {
          assert parse(values[0]) == Some(t);
        } else {
          var m := NewestUpdate(init, parse).value.value;
          var k :| 0 <= k < |init| && parse(init[k]) == Some(m);
          assert parse(values[k]) == Some(m);
        }
      }
    }
  }

  /** `now - (last_update or now)`: the time since the newest update, and exactly 0 without one. */
  function Age(newest: Option<int>, now: int): (r: int)
    ensures newest.None? ==> r == 0
    ensures newest.Some? ==> r + newest.value == now
  {
    now - (if newest.Some? then newest.value else now)
  }
}
