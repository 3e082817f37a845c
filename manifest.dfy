/**
 * Manifests of a run folder: lines `size,checksum,path`, one per file. The local one is
 * written by `hashdeep` and may carry `#` and `%` header lines; the remote one is built
 * from the catalogue's answer to two queries and may carry `sha2:` base64 checksums.
 * Reading both into maps keyed by path, and comparing the maps, decides whether the
 * upload is complete.
 */
module Manifest {
  import opened Wrappers
  import opened Text
  import opened Order
  import Base64
  import Decimal

  /** The manifest a line came from. */
  datatype Side = Local | Remote

  /** Size and checksum of one file, as the text of the manifest line has them. */
  datatype Entry = Entry(size: string, checksum: string)

  /** The file information of a manifest, keyed by path. */
  type Info = map<string, Entry>

  /**
   * What reading a manifest can raise: `ValueError` for a line with fewer than two
   * commas, `binascii.Error` for a `sha2:` checksum that is not base64.
   */
  datatype ManifestError = MalformedLine(line: string) | UndecodableChecksum(checksum: string)

  /** One manifest line: skipped, an entry for a path, or the error the line raises. */
  datatype Line = Skip | Data(path: string, entry: Entry) | Bad(error: ManifestError)

  /** The tag of a checksum the catalogue reports in base64. */
  const Sha2Tag := "sha2:"

  /** A remote checksum in the notation `hashdeep` uses: `sha2:` base64 becomes lowercase hex. */
  function NormaliseChecksum(c: string): (r: Result<string, ManifestError>)
    ensures !StartsWith(c, Sha2Tag) ==> r == Ok(c)
    ensures r.Err? ==> r.error == UndecodableChecksum(c)
    ensures StartsWith(c, Sha2Tag) ==> (r.Ok? <==> Base64.Decode(c[|Sha2Tag|..]).Some?)
  {
    if StartsWith(c, Sha2Tag) then
      match Base64.Decode(c[|Sha2Tag|..])
      case None => Err(UndecodableChecksum(c))
      case Some(b) => Ok(Base64.Hex(b))
    else Ok(c)
  }

  /** A base64 checksum under the `sha2:` tag comes out as the hex of the same bytes. */
  lemma NormaliseEncoded(b: seq<Base64.Byte>)
    ensures NormaliseChecksum(Sha2Tag + Base64.Encode(b)) == Ok(Base64.Hex(b))
  {
    var c := Sha2Tag + Base64.Encode(b);
    assert c[..|Sha2Tag|] == Sha2Tag;
    assert c[|Sha2Tag|..] == Base64.Encode(b);
    Base64.DecodeEncode(b);
  }

  /** The SHA-256 of an empty file as the catalogue and as `hashdeep` print it. */
  lemma NormaliseEmptySha256()
    ensures NormaliseChecksum(Sha2Tag + Base64.EmptySha256Base64) == Ok(Base64.EmptySha256Hex)
  {
    Base64.EmptySha256Encoding();
    Base64.EmptySha256HexText();
    NormaliseEncoded(Base64.EmptySha256);
  }

  predicate IsComment(line: string) {
    StartsWith(line, "#") || StartsWith(line, "%")
  }

  /**
   * One line as `_compare_manifests` reads it: local header lines (recognised before
   * stripping) are skipped, every other line is stripped and split at its first two commas.
   */
  function DecodeLine(side: Side, line: string): (r: Line)
    ensures r.Skip? <==> side == Local && IsComment(line)
  {
    if side == Local && IsComment(line) then Skip
    else
      match SplitThree(Strip(line))
      case None => Bad(MalformedLine(line))
      case Some((size, checksum, path)) =>
        if side == Local then Data(path, Entry(size, checksum))
        else
          match NormaliseChecksum(checksum)
          case Err(e) => Bad(e)
          case Ok(c) => Data(path, Entry(size, c))
  }

  /** `",".join([size, checksum, path])`. */
  function LineOf(path: string, e: Entry): string {
    e.size + "," + e.checksum + "," + path
  }

  /** A line a manifest can hold verbatim: no comma in size or checksum, no whitespace at either end. */
  predicate Writable(path: string, e: Entry) {
    !Contains(e.size, ",") && !Contains(e.checksum, ",")
    && e.size != [] && !IsSpace(e.size[0]) && e.size[0] != '#' && e.size[0] != '%'
    && path != [] && !IsSpace(path[|path| - 1])
  }

  /**
   * Reading a written line gives back its path and entry: only the first two commas
   * split, so the path may hold commas of its own.
   */
  lemma DecodeLineOf(side: Side, path: string, e: Entry)
    requires Writable(path, e)
    requires side == Remote ==> !StartsWith(e.checksum, Sha2Tag)
    ensures DecodeLine(side, LineOf(path, e)) == Data(path, e)
  {
    var line := LineOf(path, e);
    assert !IsComment(line) by {
      assert line[0] == e.size[0];
    }
    assert Strip(line) == line by {
      assert line[0] == e.size[0];
      assert line[|line| - 1] == path[|path| - 1];
      StripStripped(line);
    }
    SplitThreeJoin(e.size, e.checksum, path);
    if side == Remote {
      assert NormaliseChecksum(e.checksum) == Ok(e.checksum);
    }
  }

  /** A `sha2:` checksum in a remote line is read as the hex of the bytes it encodes. */
  lemma DecodeRemoteSha2Line(path: string, size: string, b: seq<Base64.Byte>)
    requires Writable(path, Entry(size, Sha2Tag + Base64.Encode(b)))
    ensures DecodeLine(Remote, LineOf(path, Entry(size, Sha2Tag + Base64.Encode(b))))
         == Data(path, Entry(size, Base64.Hex(b)))
  {
    var e := Entry(size, Sha2Tag + Base64.Encode(b));
    var line := LineOf(path, e);
    assert line[0] == size[0];
    assert line[|line| - 1] == path[|path| - 1];
    StripStripped(line);
    SplitThreeJoin(size, e.checksum, path);
    NormaliseEncoded(b);
  }

  /** Every line of a manifest file, decoded. */
  function DecodeAll(side: Side, lines: seq<string>): (r: seq<Line>)
    ensures |r| == |lines|
    ensures forall k :: 0 <= k < |lines| ==> r[k] == DecodeLine(side, lines[k])
  {
    seq(|lines|, k requires 0 <= k < |lines| => DecodeLine(side, lines[k]))
  }

  /** Entering decoded lines into `acc` one after the other; the first bad line stops it. */
  function Fold(acc: Info, ls: seq<Line>): Result<Info, ManifestError>
    decreases |ls|
  {
    if ls == [] then Ok(acc)
    else
      match ls[0]
      case Skip => Fold(acc, ls[1..])
      case Data(path, e) => Fold(acc[path := e], ls[1..])
      case Bad(err) => Err(err)
  }

  /** The dictionary `_compare_manifests` builds from one manifest file. */
  function ParseManifest(side: Side, lines: seq<string>): (r: Result<Info, ManifestError>)
    ensures r.Ok? <==> forall k :: 0 <= k < |lines| ==> !DecodeLine(side, lines[k]).Bad?
  {
    FoldOkIff(DecodeAll(side, lines));
    Fold(map[], DecodeAll(side, lines))
  }

  /** Entering one more decoded line after a result. */
  function Then(r: Result<Info, ManifestError>, l: Line): Result<Info, ManifestError> {
    match r
    case Err(e) => Err(e)
    case Ok(m) =>
      match l
      case Skip => Ok(m)
      case Data(path, e) => Ok(m[path := e])
      case Bad(err) => Err(err)
  }

  lemma {:induction false} FoldSnoc(acc: Info, ls: seq<Line>, l: Line)
    ensures Fold(acc, ls + [l]) == Then(Fold(acc, ls), l)
    decreases |ls|
  {
    if ls == [] {
      assert [] + [l] == [l];
    } else {
      assert (ls + [l])[1..] == ls[1..] + [l];
      match ls[0]
      case Skip => FoldSnoc(acc, ls[1..], l);
      case Data(path, e) => FoldSnoc(acc[path := e], ls[1..], l);
      case Bad(err) =>
    }
  }

  /** The entry of the last decoded line that names `path`, if any line does. */
  function LastEntry(ls: seq<Line>, path: string): Option<Entry>
    decreases |ls|
  {
    if ls == [] then None
    else
      var d := ls[|ls| - 1];
      if d.Data? && d.path == path then Some(d.entry) else LastEntry(ls[..|ls| - 1], path)
  }

  lemma {:induction false} FoldOkIff(ls: seq<Line>)
    ensures Fold(map[], ls).Ok? <==> forall k :: 0 <= k < |ls| ==> !ls[k].Bad?
    decreases |ls|
  {
    if ls != [] {
      var init := ls[..|ls| - 1];
      assert ls == init + [ls[|ls| - 1]];
      FoldSnoc(map[], init, ls[|ls| - 1]);
      FoldOkIff(init);
      assert forall k :: 0 <= k < |init| ==> init[k] == ls[k];
    }
  }

  lemma {:induction false} FoldLastWins(ls: seq<Line>, path: string)
    requires Fold(map[], ls).Ok?
    ensures path in Fold(map[], ls).value <==> LastEntry(ls, path).Some?
    ensures path in Fold(map[], ls).value ==> Fold(map[], ls).value[path] == LastEntry(ls, path).value
    decreases |ls|
  {
    if ls != [] {
      var init := ls[..|ls| - 1];
      assert ls == init + [ls[|ls| - 1]];
      FoldSnoc(map[], init, ls[|ls| - 1]);
      FoldLastWins(init, path);
    }
  }

  /**
   * A repeated path keeps its last entry: the dictionary holds exactly the paths some
   * line names, each with the entry of the last such line.
   */
  lemma ParseLastWins(side: Side, lines: seq<string>, path: string)
    requires ParseManifest(side, lines).Ok?
    ensures path in ParseManifest(side, lines).value <==> LastEntry(DecodeAll(side, lines), path).Some?
    ensures path in ParseManifest(side, lines).value
        ==> ParseManifest(side, lines).value[path] == LastEntry(DecodeAll(side, lines), path).value
  {
    FoldLastWins(DecodeAll(side, lines), path);
  }

  /** The last entry for a path comes from a line that names it, and there is one iff some line does. */
  lemma {:induction false} LastEntryIn(ls: seq<Line>, path: string)
    ensures LastEntry(ls, path).Some? <==> exists e :: Data(path, e) in ls
    ensures LastEntry(ls, path).Some? ==> Data(path, LastEntry(ls, path).value) in ls
    decreases |ls|
  {
    if ls != [] {
      var init := ls[..|ls| - 1];
      assert ls == init + [ls[|ls| - 1]];
      LastEntryIn(init, path);
    }
  }

  /** A decoded line is among the decoded lines iff some line of the file decodes to it. */
  lemma DecodedIn(side: Side, lines: seq<string>, l: Line)
    ensures l in DecodeAll(side, lines) <==> exists x :: x in lines && DecodeLine(side, x) == l
  {
    var ls := DecodeAll(side, lines);
    if l in ls {
      var k :| 0 <= k < |ls| && ls[k] == l;
      assert lines[k] in lines;
    }
    if exists x :: x in lines && DecodeLine(side, x) == l {
      var x :| x in lines && DecodeLine(side, x) == l;
      var k :| 0 <= k < |lines| && lines[k] == x;
      assert ls[k] == l;
    }
  }

  /** No two lines of the file give one path two different entries. */
  predicate OneEntryPerPath(side: Side, lines: seq<string>) {
    forall x, y ::
      (x in lines && y in lines && DecodeLine(side, x).Data? && DecodeLine(side, y).Data?
       && DecodeLine(side, x).path == DecodeLine(side, y).path) ==> DecodeLine(side, x) == DecodeLine(side, y)
  }

  /**
   * The order of the lines does not matter, nor how often one is repeated: two manifests
   * holding the same lines read alike when no path is given two different entries.
   */
  lemma ParseOrderFree(side: Side, a: seq<string>, b: seq<string>)
    requires forall x :: x in a <==> x in b
    requires OneEntryPerPath(side, a)
    ensures ParseManifest(side, a).Ok? <==> ParseManifest(side, b).Ok?
    ensures ParseManifest(side, a).Ok? ==> ParseManifest(side, a) == ParseManifest(side, b)
  {
    OkOrderFree(side, a, b);
    if ParseManifest(side, a).Ok? {
      MapOrderFree(side, a, b);
    }
  }

  /** Two files holding the same lines read without error alike. */
  lemma OkOrderFree(side: Side, a: seq<string>, b: seq<string>)
    requires forall x :: x in a <==> x in b
    ensures ParseManifest(side, a).Ok? <==> ParseManifest(side, b).Ok?
  {
    BadOrderFree(side, a, b);
    BadOrderFree(side, b, a);
    FoldOkIff(DecodeAll(side, a));
    FoldOkIff(DecodeAll(side, b));
  }

  /** Two files holding the same lines, both read, give the same dictionary. */
  lemma MapOrderFree(side: Side, a: seq<string>, b: seq<string>)
    requires forall x :: x in a <==> x in b
    requires OneEntryPerPath(side, a)
    requires ParseManifest(side, a).Ok? && ParseManifest(side, b).Ok?
    ensures ParseManifest(side, a) == ParseManifest(side, b)
  {
    var ma, mb := ParseManifest(side, a).value, ParseManifest(side, b).value;
    forall p
      ensures (p in ma <==> p in mb) && (p in ma ==> ma[p] == mb[p])
    {
      EntryOrderFree(side, a, b, p);
    }
    assert ma == mb;
  }

  /** A bad line of one file is a bad line of a file holding the same lines. */
  lemma BadOrderFree(side: Side, a: seq<string>, b: seq<string>)
    requires forall x :: x in a ==> x in b
    ensures (exists k :: 0 <= k < |a| && DecodeAll(side, a)[k].Bad?) ==> exists k :: 0 <= k < |b| && DecodeAll(side, b)[k].Bad?
  {
    if exists k :: 0 <= k < |a| && DecodeAll(side, a)[k].Bad? {
      var k :| 0 <= k < |a| && DecodeAll(side, a)[k].Bad?;
      assert a[k] in b;
      var j :| 0 <= j < |b| && b[j] == a[k];
      assert DecodeAll(side, b)[j].Bad?;
    }
  }

  /** One path reads alike from two files holding the same lines. */
  lemma EntryOrderFree(side: Side, a: seq<string>, b: seq<string>, p: string)
    requires forall x :: x in a <==> x in b
    requires OneEntryPerPath(side, a)
    requires ParseManifest(side, a).Ok? && ParseManifest(side, b).Ok?
    ensures var ma, mb := ParseManifest(side, a).value, ParseManifest(side, b).value;
            (p in ma <==> p in mb) && (p in ma ==> ma[p] == mb[p])
  {
    var la, lb := DecodeAll(side, a), DecodeAll(side, b);
    ParseLastWins(side, a, p);
    ParseLastWins(side, b, p);
    LastEntryIn(la, p);
    LastEntryIn(lb, p);
    forall e
      ensures Data(p, e) in la <==> Data(p, e) in lb
    {
      DecodedIn(side, a, Data(p, e));
      DecodedIn(side, b, Data(p, e));
    }
    var ma, mb := ParseManifest(side, a).value, ParseManifest(side, b).value;
    if p in ma {
      DecodedIn(side, a, Data(p, ma[p]));
      DecodedIn(side, a, Data(p, mb[p]));
    }
  }

  /** `_compare_manifests`' reading loop over one manifest file. */
  method ReadManifest(side: Side, lines: seq<string>) returns (r: Result<Info, ManifestError>)
    ensures r == ParseManifest(side, lines)
  {
    ghost var ls := DecodeAll(side, lines);
    ghost var target := Fold(map[], ls);
    var info: Info := map[];
    var i := 0;
    assert ls[0..] == ls;
    while i < |lines|
      invariant 0 <= i <= |lines|
      invariant Fold(info, ls[i..]) == target
    {
      assert ls[i..][1..] == ls[i + 1..] && ls[i..][0] == ls[i];
      var d := DecodeLine(side, lines[i]);
      assert d == ls[i];
      match d {
        case Skip =>
          assert Fold(info, ls[i..]) == Fold(info, ls[i + 1..]);
        case Data(path, e) =>
          assert Fold(info, ls[i..]) == Fold(info[path := e], ls[i + 1..]);
          info := info[path := e];
        case Bad(err) =>
          assert Fold(info, ls[i..]) == Err(err);
          return Err(err);
      }
      i := i + 1;
    }
    assert ls[i..] == [];
    return Ok(info);
  }

  // ---------------------------------------------------------------------------------
  // Comparison

  function SizeMessage(path: string, l: Entry, r: Entry): string {
    "file size mismatch " + l.size + " vs " + r.size + " for " + path
  }

  function ChecksumMessage(path: string, l: Entry, r: Entry): string {
    "file checksum mismatch " + l.checksum + " vs " + r.checksum + " for " + path
  }

  /** The message the comparison of a path leaves behind: the checksum message, set last, wins. */
  function MismatchMessage(local: Info, remote: Info, path: string): Option<string>
    requires path in local && path in remote
  {
    if local[path].checksum != remote[path].checksum then Some(ChecksumMessage(path, local[path], remote[path]))
    else if local[path].size != remote[path].size then Some(SizeMessage(path, local[path], remote[path]))
    else None
  }

  function ExtraLocalMessage(path: string): string {
    "extra file in local: " + path
  }

  function ExtraRemoteMessage(path: string): string {
    "extra file in irods : " + path
  }

  /** The paths both manifests list with different size or checksum. */
  ghost function Mismatches(local: Info, remote: Info): set<string> {
    set p | p in local && p in remote && local[p] != remote[p]
  }

  /**
   * The problem `_compare_manifests` reports, stated without its loop: an extra remote
   * path beats an extra local path, which beats any mismatch; an extra path is the
   * smallest one, a mismatch the greatest mismatching path.
   */
  ghost function Problem(local: Info, remote: Info): (r: Option<string>)
    ensures r.None? <==> local == remote
  {
    var extraRemote := remote.Keys - local.Keys;
    var extraLocal := local.Keys - remote.Keys;
    var mismatches := Mismatches(local, remote);
    if extraRemote != {} then Some(ExtraRemoteMessage(Least(extraRemote)))
    else if extraLocal != {} then Some(ExtraLocalMessage(Least(extraLocal)))
    else if mismatches != {} then MismatchMessage(local, remote, Greatest(mismatches))
    else
      assert local == remote by {
        assert local.Keys == remote.Keys;
        forall p | p in local ensures local[p] == remote[p] {
          assert p !in mismatches;
        }
      }
      None
  }

  /** `str(e)` of the `RuntimeError` the comparison raises. */
  function DifferenceMessage(problem: string): string {
    "Difference in manifests: " + problem
  }

  /** The last message a scan of `paths` in order leaves behind. */
  function LastMismatch(local: Info, remote: Info, paths: seq<string>): Option<string>
    requires forall k :: 0 <= k < |paths| ==> paths[k] in local && paths[k] in remote
  {
    if paths == [] then None
    else
      var last := paths[|paths| - 1];
      var m := MismatchMessage(local, remote, last);
      if m.Some? then m else LastMismatch(local, remote, paths[..|paths| - 1])
  }

  /** The mismatching paths among `paths`. */
  ghost function MismatchesIn(local: Info, remote: Info, paths: seq<string>): set<string> {
    set p | p in paths && p in local && p in remote && local[p] != remote[p]
  }

  /** Scanning sorted paths and keeping the last message reports the greatest mismatching path. */
  lemma {:induction false} LastMismatchIsGreatest(local: Info, remote: Info, paths: seq<string>)
    requires StrictlySorted(paths)
    requires forall k :: 0 <= k < |paths| ==> paths[k] in local && paths[k] in remote
    ensures LastMismatch(local, remote, paths).None? <==> MismatchesIn(local, remote, paths) == {}
    ensures forall g :: IsGreatest(g, MismatchesIn(local, remote, paths))
                   ==> LastMismatch(local, remote, paths) == MismatchMessage(local, remote, g)
    decreases |paths|
  {
    if paths != [] {
      var n := |paths|;
      var last := paths[n - 1];
      var init := paths[..n - 1];
      assert paths == init + [last];
      assert StrictlySorted(init);
      LastMismatchIsGreatest(local, remote, init);
      var all := MismatchesIn(local, remote, paths);
      var before := MismatchesIn(local, remote, init);
      if local[last] != remote[last] {
        assert last in all;
        assert IsGreatest(last, all) by {
          forall x | x in all && x != last ensures Less(x, last) {
            var k :| 0 <= k < n && paths[k] == x;
          }
        }
        forall g | IsGreatest(g, all) ensures g == last {
          GreatestUnique(g, last, all);
        }
      } else {
        assert all == before;
      }
    }
  }

  /** The comparison loop, the extra-path checks after it, and the message they leave. */
  method CompareManifests(local: Info, remote: Info) returns (problem: Option<string>)
    ensures problem == Problem(local, remote)
  {
    var common := SortedList(local.Keys * remote.Keys);
    ScanReportsGreatest(local, remote, common);
    problem := ScanCommon(local, remote, common);
    var extraLocal := local.Keys - remote.Keys;
    var sortedLocal := SortedList(extraLocal);
    if sortedLocal != [] {
      assert sortedLocal[0] in extraLocal;
      SortedHeadIsLeast(sortedLocal, extraLocal);
      problem := Some(ExtraLocalMessage(sortedLocal[0]));
    }
    var extraRemote := remote.Keys - local.Keys;
    var sortedRemote := SortedList(extraRemote);
    if sortedRemote != [] {
      assert sortedRemote[0] in extraRemote;
      SortedHeadIsLeast(sortedRemote, extraRemote);
      problem := Some(ExtraRemoteMessage(sortedRemote[0]));
    } else {
      assert extraRemote == {};
      if sortedLocal == [] {
        assert extraLocal == {};
      }
    }
  }

  /** The loop of `_compare_manifests` over the common paths: each mismatch overwrites the message, a checksum one after a size one. */
  method ScanCommon(local: Info, remote: Info, common: seq<string>) returns (problem: Option<string>)
    requires forall k :: 0 <= k < |common| ==> common[k] in local && common[k] in remote
    ensures problem == LastMismatch(local, remote, common)
  {
    problem := None;
    var i := 0;
    while i < |common|
      invariant 0 <= i <= |common|
      invariant problem == LastMismatch(local, remote, common[..i])
    {
      var path := common[i];
      ghost var before := problem;
      ghost var m := MismatchMessage(local, remote, path);
      assert common[..i + 1][..i] == common[..i] && common[..i + 1][i] == path;
      assert LastMismatch(local, remote, common[..i + 1]) == if m.Some? then m else before;
      if local[path].size != remote[path].size {
        problem := Some(SizeMessage(path, local[path], remote[path]));
      }
      if local[path].checksum != remote[path].checksum {
        problem := Some(ChecksumMessage(path, local[path], remote[path]));
      }
      assert problem == if m.Some? then m else before;
      i := i + 1;
    }
    assert common[..|common|] == common;
  }

  /** The scan over the sorted common paths reports the greatest mismatching path, or nothing when none mismatches. */
  lemma ScanReportsGreatest(local: Info, remote: Info, common: seq<string>)
    requires StrictlySorted(common)
    requires forall x :: x in common <==> x in local.Keys * remote.Keys
    ensures forall k :: 0 <= k < |common| ==> common[k] in local && common[k] in remote
    ensures LastMismatch(local, remote, common)
         == if Mismatches(local, remote) == {} then None
            else MismatchMessage(local, remote, Greatest(Mismatches(local, remote)))
  {
    assert forall k :: 0 <= k < |common| ==> common[k] in local.Keys * remote.Keys;
    LastMismatchIsGreatest(local, remote, common);
    var mismatches := Mismatches(local, remote);
    assert MismatchesIn(local, remote, common) == mismatches;
    if mismatches != {} {
      assert IsGreatest(Greatest(mismatches), mismatches);
    }
  }

  /** The message names the greatest path whose checksum differs, if any differs; else the greatest whose size does. */
  lemma MismatchPriority(local: Info, remote: Info, path: string)
    requires local.Keys == remote.Keys
    requires path in Mismatches(local, remote)
    requires forall p :: p in Mismatches(local, remote) && p != path ==> Less(p, path)
    ensures Problem(local, remote) == MismatchMessage(local, remote, path)
  {
    var mismatches := Mismatches(local, remote);
    assert IsGreatest(path, mismatches);
    GreatestUnique(path, Greatest(mismatches), mismatches);
    assert local.Keys - remote.Keys == {};
    assert remote.Keys - local.Keys == {};
  }

  // ---------------------------------------------------------------------------------
  // The remote manifest, built from the catalogue's query output

  /** What `compute_irods_manifest` makes of one query output line. */
  datatype QueryLine = NoRows | Written(text: string) | Unsplittable(error: ManifestError)

  /** `s[n:]`: empty once `n` passes the end of `s`. */
  function DropPrefix(s: string, n: nat): (r: string)
    ensures n <= |s| ==> r == s[n..]
    ensures n > |s| ==> r == ""
  {
    if n <= |s| then s[n..] else ""
  }

  const NoRowsMarker := "CAT_NO_ROWS_FOUND"

  /**
   * One query output line `size,checksum,collection/name`: the collection path of the
   * run is replaced by `.`, size and checksum are copied verbatim.
   */
  function QueryLineToManifest(collection: string, line: string): (r: QueryLine)
    ensures r.NoRows? <==> StartsWith(Strip(line), NoRowsMarker)
  {
    var t := Strip(line);
    if StartsWith(t, NoRowsMarker) then NoRows
    else
      match SplitThree(t)
      case None => Unsplittable(MalformedLine(line))
      case Some((size, checksum, path)) => Written(LineOf("." + DropPrefix(path, |collection|), Entry(size, checksum)))
  }

  /** Every query output line, converted. */
  function ConvertAll(collection: string, output: seq<string>): (r: seq<QueryLine>)
    ensures |r| == |output|
    ensures forall k :: 0 <= k < |output| ==> r[k] == QueryLineToManifest(collection, output[k])
  {
    seq(|output|, k requires 0 <= k < |output| => QueryLineToManifest(collection, output[k]))
  }

  /**
   * The lines a file holds after converted lines are written one by one, and the error
   * that stopped the writing if one did: lines before a malformed one stay written.
   */
  function WriteOut(qs: seq<QueryLine>): (r: (seq<string>, Option<ManifestError>))
    ensures |r.0| <= |qs|
    ensures r.1.None? <==> forall k :: 0 <= k < |qs| ==> !qs[k].Unsplittable?
    decreases |qs|
  {
    if qs == [] then ([], None)
    else
      match qs[0]
      case NoRows => WriteOut(qs[1..])
      case Unsplittable(e) => ([], Some(e))
      case Written(text) =>
        var rest := WriteOut(qs[1..]);
        ([text] + rest.0, rest.1)
  }

  /** The remote manifest file after the copy loop of `compute_irods_manifest`, and the error that stopped it. */
  function RemoteManifest(collection: string, output: seq<string>): (r: (seq<string>, Option<ManifestError>))
    ensures |r.0| <= |output|
    ensures r.1.None? <==> forall k :: 0 <= k < |output| ==> !QueryLineToManifest(collection, output[k]).Unsplittable?
  {
    WriteOut(ConvertAll(collection, output))
  }

  /** The copy loop of `compute_irods_manifest`. */
  method CopyQueryOutput(collection: string, output: seq<string>) returns (lines: seq<string>, error: Option<ManifestError>)
    ensures (lines, error) == RemoteManifest(collection, output)
  {
    lines := [];
    error := None;
    ghost var qs := ConvertAll(collection, output);
    var i := 0;
    assert qs[0..] == qs;
    assert [] + WriteOut(qs).0 == WriteOut(qs).0;
    while i < |output|
      invariant 0 <= i <= |output|
      invariant WriteOut(qs) == (lines + WriteOut(qs[i..]).0, WriteOut(qs[i..]).1)
    {
      assert qs[i..][1..] == qs[i + 1..];
      var q := QueryLineToManifest(collection, output[i]);
      match q {
        case NoRows =>
        case Unsplittable(e) =>
          error := Some(e);
          assert lines + [] == lines;
          return;
        case Written(text) =>
          assert lines + ([text] + WriteOut(qs[i + 1..]).0) == (lines + [text]) + WriteOut(qs[i + 1..]).0;
          lines := lines + [text];
      }
      i := i + 1;
    }
    assert lines + [] == lines;
  }

  /** A query line for a file below the run's collection names it relative to the run. */
  lemma QueryLineOf(collection: string, rel: string, e: Entry)
    requires Writable(collection + rel, e) && Decimal.AllDigits(e.size)
    ensures QueryLineToManifest(collection, LineOf(collection + rel, e)) == Written(LineOf("." + rel, e))
  {
    var line := LineOf(collection + rel, e);
    assert line[0] == e.size[0];
    assert line[|line| - 1] == (collection + rel)[|collection + rel| - 1];
    StripStripped(line);
    assert !StartsWith(line, NoRowsMarker) by {
      assert Decimal.IsDigit(line[0]);
    }
    SplitThreeJoin(e.size, e.checksum, collection + rel);
    assert DropPrefix(collection + rel, |collection|) == rel;
  }

  /**
   * A query line for a file below the run's collection ends up in the remote manifest as a
   * line that reads back as that file's path relative to the run, with size and checksum unchanged.
   */
  lemma QueryLineRoundTrip(collection: string, rel: string, e: Entry)
    requires Writable("." + rel, e) && Writable(collection + rel, e) && Decimal.AllDigits(e.size)
    requires !StartsWith(e.checksum, Sha2Tag)
    ensures QueryLineToManifest(collection, LineOf(collection + rel, e)) == Written(LineOf("." + rel, e))
    ensures DecodeLine(Remote, LineOf("." + rel, e)) == Data("." + rel, e)
  {
    QueryLineOf(collection, rel, e);
    DecodeLineOf(Remote, "." + rel, e);
  }

  // ---------------------------------------------------------------------------------
  // The comparisons of the test suite

  const NameTxt := "./name.txt"
  const Name2Txt := "./name2.txt"

  lemma DecodeTestLine(side: Side, path: string, size: string, checksum: string)
    requires path == NameTxt || path == Name2Txt
    requires (size, checksum) in {("10", "xyz"), ("20", "abc"), ("21", "abc"), ("20", "abd")}
    ensures DecodeLine(side, LineOf(path, Entry(size, checksum))) == Data(path, Entry(size, checksum))
  {
    assert size in {"10", "20", "21"} && checksum in {"xyz", "abc", "abd"};
    TestSizeWritable(size);
    TestChecksumWritable(checksum);
    TestPathWritable(path);
    DecodeLineOf(side, path, Entry(size, checksum));
  }

  lemma TestSizeWritable(size: string)
    requires size in {"10", "20", "21"}
    ensures !Contains(size, ",") && size != [] && !IsSpace(size[0]) && size[0] != '#' && size[0] != '%'
  {
    ContainsChar(size, ',');
  }

  lemma TestChecksumWritable(checksum: string)
    requires checksum in {"xyz", "abc", "abd"}
    ensures !Contains(checksum, ",") && !StartsWith(checksum, Sha2Tag)
  {
    ContainsChar(checksum, ',');
  }

  lemma TestPathWritable(path: string)
    requires path == NameTxt || path == Name2Txt
    ensures path != [] && !IsSpace(path[|path| - 1])
  {
  }

  lemma DecodeLocalTestManifest(size2: string, checksum2: string)
    requires (size2, checksum2) in {("20", "abc"), ("21", "abc"), ("20", "abd")}
    ensures DecodeAll(Local, ["#", "%", LineOf(NameTxt, Entry("10", "xyz")), LineOf(Name2Txt, Entry(size2, checksum2))])
         == [Skip, Skip, Data(NameTxt, Entry("10", "xyz")), Data(Name2Txt, Entry(size2, checksum2))]
  {
    DecodeAllOfFour(Local, "#", "%", LineOf(NameTxt, Entry("10", "xyz")), LineOf(Name2Txt, Entry(size2, checksum2)));
    DecodeHeaderLines();
    DecodeTestLine(Local, NameTxt, "10", "xyz");
    DecodeTestLine(Local, Name2Txt, size2, checksum2);
  }

  lemma DecodeHeaderLines()
    ensures DecodeLine(Local, "#") == Skip && DecodeLine(Local, "%") == Skip
  {
    assert StartsWith("#", "#") && StartsWith("%", "%");
  }

  lemma DecodeAllOfFour(side: Side, a: string, b: string, c: string, d: string)
    ensures DecodeAll(side, [a, b, c, d]) == [DecodeLine(side, a), DecodeLine(side, b), DecodeLine(side, c), DecodeLine(side, d)]
  {
    var lines := [a, b, c, d];
    assert lines[0] == a && lines[1] == b && lines[2] == c && lines[3] == d;
    SeqOfFour(DecodeAll(side, lines));
  }

  lemma SeqOfFour(r: seq<Line>)
    requires |r| == 4
    ensures r == [r[0], r[1], r[2], r[3]]
  {
  }

  /** The local manifest of the tests: two header lines, then two files. */
  lemma ParseLocalTestManifest(size2: string, checksum2: string)
    requires (size2, checksum2) in {("20", "abc"), ("21", "abc"), ("20", "abd")}
    ensures ParseManifest(Local, ["#", "%", LineOf(NameTxt, Entry("10", "xyz")), LineOf(Name2Txt, Entry(size2, checksum2))])
         == Ok(map[NameTxt := Entry("10", "xyz"), Name2Txt := Entry(size2, checksum2)])
  {
    DecodeLocalTestManifest(size2, checksum2);
    var e1, e2 := Entry("10", "xyz"), Entry(size2, checksum2);
    var m1 := map[NameTxt := e1];
    var ls := [Skip, Skip, Data(NameTxt, e1), Data(Name2Txt, e2)];
    assert ls[1..] == [Skip, Data(NameTxt, e1), Data(Name2Txt, e2)];
    assert ls[2..] == [Data(NameTxt, e1), Data(Name2Txt, e2)];
    assert ls[3..] == [Data(Name2Txt, e2)];
    assert Fold(m1, ls[3..]) == Fold(m1[Name2Txt := e2], []);
    assert Fold(map[], ls[2..]) == Fold(m1, ls[3..]);
    assert Fold(map[], ls) == Fold(map[], ls[2..]);
  }

  lemma DecodeRemoteTestManifest()
    ensures DecodeAll(Remote, [LineOf(Name2Txt, Entry("20", "abc")), LineOf(NameTxt, Entry("10", "xyz"))])
         == [Data(Name2Txt, Entry("20", "abc")), Data(NameTxt, Entry("10", "xyz"))]
  {
    DecodeTestLine(Remote, NameTxt, "10", "xyz");
    DecodeTestLine(Remote, Name2Txt, "20", "abc");
  }

  /** The remote manifest of the tests lists the same two files in the other order. */
  lemma ParseRemoteTestManifest()
    ensures ParseManifest(Remote, [LineOf(Name2Txt, Entry("20", "abc")), LineOf(NameTxt, Entry("10", "xyz"))])
         == Ok(map[NameTxt := Entry("10", "xyz"), Name2Txt := Entry("20", "abc")])
  {
    DecodeRemoteTestManifest();
    FoldPair(Name2Txt, Entry("20", "abc"), NameTxt, Entry("10", "xyz"));
    assert map[Name2Txt := Entry("20", "abc"), NameTxt := Entry("10", "xyz")]
        == map[NameTxt := Entry("10", "xyz"), Name2Txt := Entry("20", "abc")];
  }

  /** Two data lines enter the dictionary one after the other. */
  lemma FoldPair(p: string, e: Entry, q: string, f: Entry)
    ensures Fold(map[], [Data(p, e), Data(q, f)]) == Ok(map[p := e][q := f])
  {
    var ls := [Data(p, e), Data(q, f)];
    var tail := [Data(q, f)];
    assert ls[1..] == tail && tail[1..] == [];
    assert Fold(map[], ls) == Fold(map[p := e], tail);
    assert Fold(map[p := e], tail) == Fold(map[p := e][q := f], []);
  }

  /** Equal manifests in a different line order compare equal. */
  lemma CompareEqualVector()
    ensures var local := ParseManifest(Local, ["#", "%", LineOf(NameTxt, Entry("10", "xyz")), LineOf(Name2Txt, Entry("20", "abc"))]);
            var remote := ParseManifest(Remote, [LineOf(Name2Txt, Entry("20", "abc")), LineOf(NameTxt, Entry("10", "xyz"))]);
            local.Ok? && remote.Ok? && Problem(local.value, remote.value) == None
  {
    ParseLocalTestManifest("20", "abc");
    ParseRemoteTestManifest();
  }

  /** A differing size or checksum of `./name2.txt` is reported for that path. */
  lemma CompareMismatchVector(size2: string, checksum2: string)
    requires (size2, checksum2) in {("21", "abc"), ("20", "abd")}
    ensures var local := map[NameTxt := Entry("10", "xyz"), Name2Txt := Entry(size2, checksum2)];
            var remote := map[NameTxt := Entry("10", "xyz"), Name2Txt := Entry("20", "abc")];
            Problem(local, remote) ==
              Some(if checksum2 != "abc" then ChecksumMessage(Name2Txt, local[Name2Txt], remote[Name2Txt])
                   else SizeMessage(Name2Txt, local[Name2Txt], remote[Name2Txt]))
  {
    var local := map[NameTxt := Entry("10", "xyz"), Name2Txt := Entry(size2, checksum2)];
    var remote := map[NameTxt := Entry("10", "xyz"), Name2Txt := Entry("20", "abc")];
    assert local[Name2Txt] != remote[Name2Txt];
    assert Mismatches(local, remote) == {Name2Txt} by {
      assert local[NameTxt] == remote[NameTxt];
    }
    MismatchPriority(local, remote, Name2Txt);
  }

  /** A file only one side lists is reported as extra on that side. */
  lemma CompareExtraVector()
    ensures Problem(map[NameTxt := Entry("10", "xyz"), Name2Txt := Entry("20", "abc")],
                    map[Name2Txt := Entry("20", "abc")]) == Some("extra file in local: ./name.txt")
    ensures Problem(map[NameTxt := Entry("10", "xyz")],
                    map[NameTxt := Entry("10", "xyz"), Name2Txt := Entry("20", "abc")]) == Some("extra file in irods : ./name2.txt")
  {
    var both := map[NameTxt := Entry("10", "xyz"), Name2Txt := Entry("20", "abc")];
    assert both.Keys - map[Name2Txt := Entry("20", "abc")].Keys == {NameTxt};
    assert both.Keys - map[NameTxt := Entry("10", "xyz")].Keys == {Name2Txt};
    assert Least({NameTxt}) == NameTxt;
    assert Least({Name2Txt}) == Name2Txt;
    assert ExtraLocalMessage(NameTxt) == "extra file in local: ./name.txt";
    assert ExtraRemoteMessage(Name2Txt) == "extra file in irods : ./name2.txt";
  }
}
