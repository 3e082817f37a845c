/**
 * POSIX paths, both as `pathlib.PurePosixPath` values (a root flag and a list of
 * components) and as the plain strings `os.path.join` and `os.path.dirname` work on.
 */
module Paths {
  import opened Wrappers
  import opened Text

  /** One path component as pathlib keeps it: not empty, not `.`, and free of `/`. */
  predicate IsPart(s: string) {
    s != "" && s != "." && !Contains(s, "/")
  }

  /** A pathlib path: `absolute` is a leading `/`, `parts` the components after it. */
  datatype Path = Path(absolute: bool, parts: seq<string>) {
    predicate Valid() {
      forall k :: 0 <= k < |parts| ==> IsPart(parts[k])
    }

    /** `p.parent`: the path itself when it has no components. */
    function Parent(): (r: Path)
      ensures r.absolute == absolute
      ensures Valid() ==> r.Valid()
    {
      if parts == [] then this else Path(absolute, parts[..|parts| - 1])
    }

    /** `p.name`: the last component, or `""` when there is none. */
    function Name(): (r: string)
      ensures r == "" || r in parts
    {
      if parts == [] then "" else parts[|parts| - 1]
    }

    /** `p / name` for a single component: an empty name or `.` leaves the path as it is. */
    function Child(name: string): (r: Path)
      requires !Contains(name, "/")
      ensures Valid() ==> r.Valid()
      ensures r.absolute == absolute
    {
      if name == "" || name == "." then this else Path(absolute, parts + [name])
    }
  }

  /** The components of the pieces of a string split at `/`: empty pieces and `.` vanish. */
  function Components(pieces: seq<string>): (r: seq<string>)
    ensures forall k :: 0 <= k < |r| ==> r[k] != "" && r[k] != "." && r[k] in pieces
  {
    if pieces == [] then []
    else (if pieces[0] == "" || pieces[0] == "." then [] else [pieces[0]]) + Components(pieces[1..])
  }

  /** `pathlib.PurePosixPath(s)`. */
  function Parse(s: string): (r: Path)
    ensures r.Valid()
  {
    Path(StartsWith(s, "/"), Components(Split(s, '/')))
  }

  /** `str(p)`. */
  function Format(p: Path): string {
    if p.absolute then "/" + Join(p.parts, "/")
    else if p.parts == [] then "."
    else Join(p.parts, "/")
  }

  lemma {:induction false} ComponentsOfParts(parts: seq<string>)
    requires forall k :: 0 <= k < |parts| ==> IsPart(parts[k])
    ensures Components(parts) == parts
  {
    if parts != [] {
      ComponentsOfParts(parts[1..]);
    }
  }

  lemma JoinStartsWithFirst(parts: seq<string>)
    requires |parts| > 0
    ensures StartsWith(Join(parts, "/"), parts[0])
  {
  }

  /** Reading back the text of a valid path gives the same path. */
  lemma ParseFormat(p: Path)
    requires p.Valid()
    ensures Parse(Format(p)) == p
  {
    var s := Format(p);
    if p.parts == [] {
      if p.absolute {
        assert s == "" + "/" + "";
        assert Split(s, '/') == ["", ""] by {
          CutJoin("", "/", "");
          assert Split("", '/') == [""];
        }
      } else {
        assert Split(".", '/') == ["."] by {
          ContainsChar(".", '/');
        }
      }
    } else {
      SplitJoin(p.parts, '/');
      ComponentsOfParts(p.parts);
      if p.absolute {
        CutJoin("", "/", Join(p.parts, "/"));
        assert s == "" + "/" + Join(p.parts, "/");
      } else {
        JoinStartsWithFirst(p.parts);
        ContainsChar(p.parts[0], '/');
        assert s[0] == p.parts[0][0] != '/';
      }
    }
  }

  /** Building a path from its own text and from the path itself are the same thing. */
  lemma ParseIdempotent(s: string)
    ensures Parse(Format(Parse(s))) == Parse(s)
  {
    ParseFormat(Parse(s));
  }

  lemma NoSlashInName(p: Path)
    requires p.Valid()
    ensures !Contains(p.Name() + "-INGESTED", "/")
  {
    ContainsChar("", '/');
    ContainsChar("-INGESTED", '/');
    ConcatLacksChar(p.Name(), "-INGESTED", '/');
  }

  /** `to_ingested_path`: `<parent of parent>/<parent name>-INGESTED/<name>`. */
  function ToIngestedPath(p: Path): (r: Path)
    requires p.Valid()
    ensures r.Valid() && r.absolute == p.absolute
    ensures var n := |p.parts|;
            n >= 2 ==> r.parts == p.parts[..n - 2] + [p.parts[n - 2] + "-INGESTED", p.parts[n - 1]]
    ensures |p.parts| == 1 ==> r.parts == ["-INGESTED", p.parts[0]]
    ensures p.parts == [] ==> r.parts == ["-INGESTED"]
  {
    var parent := p.Parent();
    NoSlashInName(parent);
    var base := parent.Parent().Child(parent.Name() + "-INGESTED");
    var n := |p.parts|;
    assert n >= 2 ==> parent.parts == p.parts[..n - 1] && parent.Name() == p.parts[n - 2]
                      && base.parts == p.parts[..n - 2] + [p.parts[n - 2] + "-INGESTED"];
    assert "" + "-INGESTED" == "-INGESTED";
    assert n <= 1 ==> parent.Name() == "" && base.parts == ["-INGESTED"];
    assert n > 0 ==> IsPart(p.Name());
    base.Child(p.Name())
  }

  /** `to_ingested_path` on a string argument converts it to a path first. */
  function ToIngestedText(s: string): Path {
    ToIngestedPath(Parse(s))
  }

  /** A string and the path made from it move to the same place. */
  lemma ToIngestedTextOfPath(p: Path)
    requires p.Valid()
    ensures ToIngestedText(Format(p)) == ToIngestedPath(p)
  {
    ParseFormat(p);
  }

  lemma ParseFooBar()
    ensures Parse("foo/bar") == Path(false, ["foo", "bar"])
  {
    var p := Path(false, ["foo", "bar"]);
    ContainsChar("foo", '/');
    ContainsChar("bar", '/');
    assert Format(p) == "foo/bar";
    ParseFormat(p);
  }

  lemma FormatFooIngestedBar()
    ensures Format(Path(false, ["foo-INGESTED", "bar"])) == "foo-INGESTED/bar"
  {
  }

  lemma IngestedFooBar()
    ensures Path(false, ["foo", "bar"]).Valid()
         && ToIngestedPath(Path(false, ["foo", "bar"])) == Path(false, ["foo-INGESTED", "bar"])
  {
    var p := Path(false, ["foo", "bar"]);
    FooBarValid();
    assert p.parts[..0] == [];
    assert "foo" + "-INGESTED" == "foo-INGESTED";
  }

  lemma FooBarValid()
    ensures Path(false, ["foo", "bar"]).Valid()
  {
    ContainsChar("foo", '/');
    ContainsChar("bar", '/');
  }

  /** `to_ingested_path("foo/bar")` and `to_ingested_path(Path("foo/bar"))` are both `foo-INGESTED/bar`. */
  lemma ToIngestedFooBar()
    ensures Format(ToIngestedText("foo/bar")) == "foo-INGESTED/bar"
    ensures ToIngestedPath(Parse("foo/bar")) == Path(false, ["foo-INGESTED", "bar"])
  {
    ParseFooBar();
    IngestedFooBar();
    FormatFooIngestedBar();
  }

  /** `path.relative_to(root)`: `None` where pathlib raises `ValueError`. */
  function RelativeTo(p: Path, root: Path): (r: Option<Path>)
    ensures r.Some? <==> p.absolute == root.absolute && |root.parts| <= |p.parts| && p.parts[..|root.parts|] == root.parts
    ensures r.Some? ==> !r.value.absolute && root.parts + r.value.parts == p.parts
  {
    if p.absolute == root.absolute && |root.parts| <= |p.parts| && p.parts[..|root.parts|] == root.parts
    then Some(Path(false, p.parts[|root.parts|..]))
    else None
  }

  /** `"/".join(str(rel).split("/")[1:])`: the relative path without its first component. */
  function DropFirstComponent(rel: Path): string {
    var pieces := Split(Format(rel), '/');
    Join(pieces[1..], "/")
  }

  /** `s[:-n]` for a positive `n`: empty once `n` reaches the length of `s`. */
  function DropLast(s: string, n: nat): (r: string)
    requires n > 0
    ensures |r| == if n <= |s| then |s| - n else 0
    ensures r == s[..|r|]
  {
    if n <= |s| then s[..|s| - n] else ""
  }

  lemma JoinAppend(a: seq<string>, b: seq<string>, sep: string)
    requires |a| > 0 && |b| > 0
    ensures Join(a + b, sep) == Join(a, sep) + sep + Join(b, sep)
    decreases |a|
  {
    if |a| == 1 {
      assert (a + b)[1..] == b;
    } else {
      assert (a + b)[1..] == a[1..] + b;
      JoinAppend(a[1..], b, sep);
    }
  }

  lemma DropFirstComponentOf(rel: Path)
    requires rel.Valid() && !rel.absolute
    ensures DropFirstComponent(rel) == if rel.parts == [] then "" else Join(rel.parts[1..], "/")
  {
    if rel.parts == [] {
      assert Split(".", '/') == ["."] by {
        ContainsChar(".", '/');
      }
    } else {
      SplitJoin(rel.parts, '/');
    }
  }

  /**
   * The collection a refresh writes to: for a file `<root>/<run>/<rest>` ingested to
   * `<coll>/<run>/<rest>`, cutting `"/" + <rest>` off the target leaves `<coll>/<run>`.
   */
  function RunCollection(path: Path, root: Path, target: Path): (r: Option<string>)
    ensures r.Some? <==> RelativeTo(path, root).Some?
    ensures r.Some? ==> |r.value| <= |Format(target)| && r.value == Format(target)[..|r.value|]
    ensures r.Some? && r.value != "" ==> |r.value| < |Format(target)|
  {
    match RelativeTo(path, root)
    case None => None
    case Some(rel) =>
      var inFolder := DropFirstComponent(rel);
      Some(DropLast(Format(target), |inFolder| + 1))
  }

  lemma RunCollectionOfNestedFile(root: Path, coll: seq<string>, run: string, rest: seq<string>)
    requires root.Valid() && root.absolute && IsPart(run) && rest != []
    requires forall k :: 0 <= k < |rest| ==> IsPart(rest[k])
    requires forall k :: 0 <= k < |coll| ==> IsPart(coll[k])
    ensures RunCollection(Path(true, root.parts + [run] + rest), root, Path(true, coll + [run] + rest))
         == Some(Format(Path(true, coll + [run])))
  {
    var path := Path(true, root.parts + [run] + rest);
    var rel := RelativeTo(path, root).value;
    assert rel.parts == [run] + rest;
    assert rel.Valid();
    DropFirstComponentOf(rel);
    assert rel.parts[1..] == rest;
    FormatAppend(coll + [run], rest);
    DropLastAfter(Format(Path(true, coll + [run])), Join(rest, "/"));
  }

  lemma FormatAppend(a: seq<string>, b: seq<string>)
    requires |a| > 0 && |b| > 0
    ensures Format(Path(true, a + b)) == Format(Path(true, a)) + "/" + Join(b, "/")
  {
    JoinAppend(a, b, "/");
  }

  lemma DropLastAfter(head: string, tail: string)
    ensures DropLast(head + "/" + tail, |tail| + 1) == head
  {
    assert (head + "/" + tail)[..|head|] == head;
  }

  /**
   * A file directly under the run folder leaves nothing to cut but the separator,
   * so the last character of the target goes instead.
   */
  lemma RunCollectionOfTopLevelFile(root: Path, coll: seq<string>, run: string, name: string)
    requires root.Valid() && root.absolute && IsPart(run) && IsPart(name)
    requires forall k :: 0 <= k < |coll| ==> IsPart(coll[k])
    ensures RunCollection(Path(true, root.parts + [run]), root, Path(true, coll + [run]))
         == Some(DropLast(Format(Path(true, coll + [run])), 1))
  {
    var path := Path(true, root.parts + [run]);
    var rel := RelativeTo(path, root).value;
    assert rel.parts == [run];
    DropFirstComponentOf(rel);
  }

  /** `os.path.dirname(s)`: everything before the last `/`, without trailing slashes unless only slashes remain. */
  function Dirname(s: string): string {
    var i := LastSlash(s, |s|);
    var head := s[..i];
    if head != [] && !AllSlashes(head) then TrimSlashes(head) else head
  }

  /** One past the position of the last `/` in `s[..end]`, or 0 if there is none. */
  function LastSlash(s: string, end: nat): (i: nat)
    requires end <= |s|
    ensures i <= end
    ensures i > 0 ==> s[i - 1] == '/'
    ensures forall k :: i <= k < end ==> s[k] != '/'
  {
    if end == 0 then 0 else if s[end - 1] == '/' then end else LastSlash(s, end - 1)
  }

  predicate AllSlashes(s: string) {
    forall k :: 0 <= k < |s| ==> s[k] == '/'
  }

  function TrimSlashes(s: string): (r: string)
    ensures |r| <= |s| && r == s[..|r|]
    ensures r == [] || r[|r| - 1] != '/'
  {
    if s != [] && s[|s| - 1] == '/' then TrimSlashes(s[..|s| - 1]) else s
  }

  /** `os.path.join(a, b)` for two arguments. */
  function JoinPath(a: string, b: string): (r: string)
    ensures StartsWith(b, "/") ==> r == b
    ensures !StartsWith(b, "/") ==> EndsWith(r, b)
  {
    if StartsWith(b, "/") then b
    else if a == "" || EndsWith(a, "/") then a + b
    else a + "/" + b
  }

  /** A name joined onto a directory is the file in it: the directory of the result is the directory given. */
  lemma DirnameJoinPath(dir: string, name: string)
    requires dir != [] && dir[|dir| - 1] != '/' && !AllSlashes(dir)
    requires name != [] && !Contains(name, "/")
    ensures Dirname(JoinPath(dir, name)) == dir
  {
    var s := dir + "/" + name;
    assert !StartsWith(name, "/") by {
      if StartsWith(name, "/") { ContainsAt(name, "/", 0); }
    }
    assert JoinPath(dir, name) == s;
    var i := LastSlash(s, |s|);
    ContainsChar(name, '/');
    assert s[|dir|] == '/';
    assert i == |dir| + 1;
    assert s[..i] == dir + "/";
    assert TrimSlashes(dir + "/") == dir by {
      assert (dir + "/")[..|dir|] == dir;
    }
  }

  /** A name with no directory in front has the empty directory, and joining onto it gives the name back. */
  lemma JoinPathNoDirectory(name: string)
    requires !Contains(name, "/")
    ensures Dirname(name) == ""
    ensures JoinPath(Dirname(name), name) == name
  {
    var i := LastSlash(name, |name|);
    if i > 0 {
      ContainsAt(name, "/", i - 1);
    }
    if StartsWith(name, "/") { ContainsAt(name, "/", 0); }
  }
}
