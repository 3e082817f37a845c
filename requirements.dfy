/**
 * `parse_requirements` of the package's `setup.py`: reading a pip requirements file
 * into the list of requirement strings handed to `setup(install_requires=...)`.
 *
 * Each line is stripped. A line starting with `-r` splices in, at its place, the
 * requirements of the file named by its second word, relative to the directory of the
 * current file. Any other non-empty line that is not a comment is a requirement; an
 * editable `-e <url>#egg=<name>` is rewritten to the direct reference `<name> @ <url>`.
 *
 * The file system is a map from path to the file's lines. Python recurses without
 * bound on `-r`, so a cycle of includes ends in `RecursionError`; the model bounds the
 * depth of inclusion by `fuel` and fails with `TooDeep` when it is exhausted.
 */
module Requirements {
  import opened Wrappers
  import opened Text
  import opened Paths

  /** Each readable file's lines, as iterating over the open file yields them. */
  type Files = map<string, seq<string>>

  datatype RequirementsError =
    | FileNotFound(path: string)       // `open` raises `FileNotFoundError`
    | MissingArgument(line: string)    // `line.split()[1]` raises `IndexError`
    | MissingEgg(line: string)         // unpacking `split("#egg=", 1)` raises `ValueError`
    | TooDeep(path: string)            // the inclusion depth is exhausted

  /** What one stripped line asks for. */
  datatype Directive =
    | Include(name: string)            // `-r <name>`
    | Requirement(text: string)        // a requirement to append
    | Nothing                          // an empty line or a comment
    | Broken(error: RequirementsError)

  const IncludeOption := "-r"
  const EditableOption := "-e"
  const EggTag := "#egg="

  /** The branch a stripped line takes. */
  function Classify(line: string): (d: Directive)
    ensures d.Nothing? <==> line == "" || StartsWith(line, "#")
    ensures d.Include? <==> StartsWith(line, IncludeOption) && |Words(line)| >= 2
    ensures d.Include? ==> d.name == Words(line)[1]
    ensures d.Requirement? && !StartsWith(line, EditableOption) ==> d.text == line
    ensures StartsWith(line, EditableOption) ==>
              (d.Requirement? <==> |Words(line)| >= 2 && Contains(Words(line)[1], EggTag))
    ensures StartsWith(line, EditableOption) && d.Requirement? ==>
              var url, name := Cut(Words(line)[1], EggTag).value.0, Cut(Words(line)[1], EggTag).value.1;
              Words(line)[1] == url + EggTag + name && !Contains(url, EggTag) && d.text == name + " @ " + url
    ensures d.Broken? <==>
              (StartsWith(line, IncludeOption) || StartsWith(line, EditableOption))
              && (|Words(line)| < 2 || (StartsWith(line, EditableOption) && !Contains(Words(line)[1], EggTag)))
    ensures d.Broken? ==> d.error == (if |Words(line)| < 2 then MissingArgument(line) else MissingEgg(line))
  {
    OptionExcludesComment(line);
    if StartsWith(line, IncludeOption) then
      var words := Words(line);
      if |words| < 2 then Broken(MissingArgument(line)) else Include(words[1])
    else if line != "" && !StartsWith(line, "#") then
      if StartsWith(line, EditableOption) then
        var words := Words(line);
        if |words| < 2 then Broken(MissingArgument(line))
        else
          match Cut(words[1], EggTag)
          case None => Broken(MissingEgg(line))
          case Some((url, name)) => Requirement(name + " @ " + url)
      else Requirement(line)
    else
      Nothing
  }

  /** An option line is neither empty nor a comment, and `-r` and `-e` exclude each other. */
  lemma OptionExcludesComment(line: string)
    ensures StartsWith(line, IncludeOption) || StartsWith(line, EditableOption) ==> line != "" && !StartsWith(line, "#")
    ensures !(StartsWith(line, IncludeOption) && StartsWith(line, EditableOption))
  {
    if |line| >= 2 {
      assert line[0] == line[..2][0] && line[1] == line[..2][1];
    }
  }

  type Outcome = Result<seq<string>, RequirementsError>

  /** `parse_requirements(path)` with at most `fuel` nested inclusions. */
  function Parse(files: Files, path: string, fuel: nat): (r: Outcome)
    ensures path !in files ==> r == Err(FileNotFound(path))
    decreases fuel, 3
  {
    if path !in files then Err(FileNotFound(path))
    else ThenAll(Contributions(files, path, files[path], fuel))
  }

  /** What each line of the file at `path` contributes, line by line. */
  function Contributions(files: Files, path: string, lines: seq<string>, fuel: nat): (r: seq<Outcome>)
    ensures |r| == |lines|
    decreases fuel, 2
  {
    seq(|lines|, i requires 0 <= i < |lines| => LineRequirements(files, path, lines[i], fuel))
  }

  /** What one line of the file at `path` contributes. */
  function LineRequirements(files: Files, path: string, line: string, fuel: nat): Outcome
    decreases fuel, 1
  {
    Contribute(files, path, Classify(Strip(line)), fuel)
  }

  /** What a directive of the file at `path` contributes. */
  function Contribute(files: Files, path: string, d: Directive, fuel: nat): Outcome
    decreases fuel, 0
  {
    match d
    case Include(name) =>
      if fuel == 0 then Err(TooDeep(JoinPath(Dirname(path), name)))
      else Parse(files, JoinPath(Dirname(path), name), fuel - 1)
    case Requirement(text) => Ok([text])
    case Nothing => Ok([])
    case Broken(e) => Err(e)
  }

  /** Joining the outcomes of two consecutive runs of lines: the first error wins. */
  function Then(a: Outcome, b: Outcome): Outcome {
    match a
    case Err(e) => Err(e)
    case Ok(x) => (match b case Err(e) => Err(e) case Ok(y) => Ok(x + y))
  }

  /** The outcomes of consecutive lines joined in order. */
  function ThenAll(outcomes: seq<Outcome>): Outcome {
    if outcomes == [] then Ok([]) else Then(outcomes[0], ThenAll(outcomes[1..]))
  }

  lemma ThenAssociative(a: Outcome, b: Outcome, c: Outcome)
    ensures Then(Then(a, b), c) == Then(a, Then(b, c))
  {
    if a.Ok? && b.Ok? && c.Ok? {
      assert a.value + b.value + c.value == a.value + (b.value + c.value);
    }
  }

  lemma ThenEmpty(a: Outcome)
    ensures Then(Ok([]), a) == a
  {
    if a.Ok? {
      assert [] + a.value == a.value;
    }
  }

  /** The first error among the outcomes decides; without one, the requirements are concatenated in order. */
  lemma {:induction false} ThenAllConcat(a: seq<Outcome>, b: seq<Outcome>)
    ensures ThenAll(a + b) == Then(ThenAll(a), ThenAll(b))
  {
    if a == [] {
      assert a + b == b;
      ThenEmpty(ThenAll(b));
    } else {
      ThenAllConcat(a[1..], b);
      assert (a + b)[1..] == a[1..] + b;
      ThenAssociative(a[0], ThenAll(a[1..]), ThenAll(b));
    }
  }

  /** `parse_requirements`: reads the lines in order, appending requirements and recursing on `-r`. */
  method ParseRequirements(files: Files, path: string, fuel: nat) returns (r: Outcome)
    ensures r == Parse(files, path, fuel)
    decreases fuel, 2
  {
    if path !in files {
      return Err(FileNotFound(path));
    }
    var lines := files[path];
    ghost var outcomes := Contributions(files, path, lines, fuel);
    var requirements := [];
    var i := 0;
    assert outcomes[0..] == outcomes;
    ThenEmpty(ThenAll(outcomes));
    while i < |lines|
      invariant 0 <= i <= |lines|
      invariant Parse(files, path, fuel) == Then(Ok(requirements), ThenAll(outcomes[i..]))
    {
      assert outcomes[i..][1..] == outcomes[i + 1..];
      var contribution := ReadLine(files, path, lines[i], fuel);
      ThenAssociative(Ok(requirements), contribution, ThenAll(outcomes[i + 1..]));
      if contribution.Err? {
        return Err(contribution.error);
      }
      requirements := requirements + contribution.value;
      i := i + 1;
    }
    assert outcomes[i..] == [];
    assert requirements + [] == requirements;
    return Ok(requirements);
  }

  /** One pass of the loop of `parse_requirements`: what the line appends, or the error it raises. */
  method ReadLine(files: Files, path: string, line: string, fuel: nat) returns (r: Outcome)
    ensures r == LineRequirements(files, path, line, fuel)
    decreases fuel, 1
  {
    r := FollowDirective(files, path, Classify(Strip(line)), fuel);
  }

  /** What the loop does with a classified line: follow the include, keep the requirement, skip, or raise. */
  method FollowDirective(files: Files, path: string, d: Directive, fuel: nat) returns (r: Outcome)
    ensures r == Contribute(files, path, d, fuel)
    decreases fuel, 0
  {
    match d {
      case Include(name) =>
        var inner := JoinPath(Dirname(path), name);
        if fuel == 0 {
          r := Err(TooDeep(inner));
        } else {
          r := ParseRequirements(files, inner, fuel - 1);
        }
      case Requirement(text) => r := Ok([text]);
      case Nothing => r := Ok([]);
      case Broken(e) => r := Err(e);
    }
  }

  /** Requirements come out in the order of the lines: the lines of a file, cut anywhere, contribute their parts one after the other. */
  lemma ContributionsConcat(files: Files, path: string, a: seq<string>, b: seq<string>, fuel: nat)
    ensures ThenAll(Contributions(files, path, a + b, fuel))
      == Then(ThenAll(Contributions(files, path, a, fuel)), ThenAll(Contributions(files, path, b, fuel)))
  {
    var ca, cb := Contributions(files, path, a, fuel), Contributions(files, path, b, fuel);
    var cab := Contributions(files, path, a + b, fuel);
    forall i | 0 <= i < |cab|
      ensures cab[i] == (ca + cb)[i]
    {
      if i < |a| {
        assert (a + b)[i] == a[i];
      } else {
        assert (a + b)[i] == b[i - |a|];
      }
    }
    assert cab == ca + cb;
    ThenAllConcat(ca, cb);
  }

  /** An option followed by one word is already stripped. */
  lemma OptionLineStripped(option: string, word: string)
    requires option != [] && NoSpace(option)
    requires word != [] && NoSpace(word)
    ensures Strip(option + " " + word) == option + " " + word
  {
    var line := option + " " + word;
    assert Stripped(line) by {
      assert line[0] == option[0];
      assert line[|line| - 1] == word[|word| - 1];
    }
    StripStripped(line);
  }

  /** An option followed by one word splits into the two. */
  lemma OptionLineWords(option: string, word: string)
    requires option != [] && NoSpace(option)
    requires word != [] && NoSpace(word)
    ensures Words(option + " " + word) == [option] + [word]
  {
    WordsCons(option, word);
    WordsSingle(word);
  }

  lemma OptionsHaveNoSpace()
    ensures NoSpace(IncludeOption) && NoSpace(EditableOption)
  {
  }

  /** A `-r` line names the file to include by its second word. */
  lemma ClassifyInclude(name: string)
    requires name != [] && NoSpace(name)
    ensures Classify(Strip(IncludeOption + " " + name)) == Include(name)
  {
    OptionsHaveNoSpace();
    OptionLineStripped(IncludeOption, name);
    OptionLineWords(IncludeOption, name);
    StartsWithConcat(IncludeOption, " ", name);
  }

  /** A `-r` line splices the requirements of the named file, found next to the including one. */
  lemma IncludeSplices(files: Files, path: string, name: string, fuel: nat)
    requires name != [] && NoSpace(name)
    ensures LineRequirements(files, path, IncludeOption + " " + name, fuel + 1) == Parse(files, JoinPath(Dirname(path), name), fuel)
  {
    ClassifyInclude(name);
  }

  lemma EditableTarget(url: string, name: string)
    requires NoSpace(url) && NoSpace(name)
    ensures NoSpace(url + EggTag + name) && url + EggTag + name != []
  {
    assert NoSpace(EggTag);
    NoSpaceConcat(url, EggTag);
    NoSpaceConcat(url + EggTag, name);
  }

  /** An editable line becomes a direct reference to its egg name at its URL. */
  lemma EditableRewritten(url: string, name: string)
    requires NoSpace(url) && NoSpace(name) && !Contains(url, EggTag)
    ensures Classify(Strip(EditableOption + " " + (url + EggTag + name))) == Requirement(name + " @ " + url)
  {
    var target := url + EggTag + name;
    EditableTarget(url, name);
    OptionsHaveNoSpace();
    OptionLineStripped(EditableOption, target);
    OptionLineWords(EditableOption, target);
    StartsWithConcat(EditableOption, " ", target);
    EditableExcludesOthers(EditableOption + " " + target);
    EggTagStartsOnce();
    CutAtFirst(url, EggTag, name);
  }

  /** A line starting with `-e` is neither empty, nor a comment, nor an inclusion. */
  lemma EditableExcludesOthers(line: string)
    requires StartsWith(line, EditableOption)
    ensures line != "" && !StartsWith(line, "#") && !StartsWith(line, IncludeOption)
  {
    assert line[0] == line[..2][0] && line[1] == line[..2][1];
  }

  lemma EggTagStartsOnce()
    ensures forall k :: 0 < k < |EggTag| ==> EggTag[k] != EggTag[0]
  {
  }

  /** A plain stripped line that is not a comment or an option is kept as it is. */
  lemma PlainLineKept(line: string)
    requires Stripped(line) && line != []
    requires !StartsWith(line, IncludeOption) && !StartsWith(line, EditableOption) && !StartsWith(line, "#")
    ensures Classify(Strip(line)) == Requirement(line)
  {
    StripStripped(line);
  }

  /** Blank lines and comments contribute nothing, whatever their surrounding whitespace. */
  lemma CommentContributesNothing(files: Files, path: string, line: string, fuel: nat)
    requires Strip(line) == "" || StartsWith(Strip(line), "#")
    ensures LineRequirements(files, path, line, fuel) == Ok([])
  {
  }

  predicate TooDeepError(r: Outcome) {
    r.Err? && r.error.TooDeep?
  }

  /** Once the inclusion depth suffices, a larger bound gives the same outcome. */
  lemma {:induction false} ParseFuelMonotone(files: Files, path: string, fuel: nat)
    requires !TooDeepError(Parse(files, path, fuel))
    ensures Parse(files, path, fuel + 1) == Parse(files, path, fuel)
    decreases fuel, 3
  {
    if path in files {
      ContributionsFuelMonotone(files, path, files[path], fuel);
    }
  }

  lemma {:induction false} ContributionsFuelMonotone(files: Files, path: string, lines: seq<string>, fuel: nat)
    requires !TooDeepError(ThenAll(Contributions(files, path, lines, fuel)))
    ensures ThenAll(Contributions(files, path, lines, fuel + 1)) == ThenAll(Contributions(files, path, lines, fuel))
    decreases fuel, 2, |lines|
  {
    if lines != [] {
      var now := Contributions(files, path, lines, fuel);
      var more := Contributions(files, path, lines, fuel + 1);
      ContributionsCons(files, path, lines, fuel);
      ContributionsCons(files, path, lines, fuel + 1);
      ThenNotTooDeep(now[0], ThenAll(now[1..]));
      LineFuelMonotone(files, path, lines[0], fuel);
      if now[0].Ok? {
        ContributionsFuelMonotone(files, path, lines[1..], fuel);
      }
    }
  }

  /** The first line's contribution, then those of the remaining lines. */
  lemma ContributionsCons(files: Files, path: string, lines: seq<string>, fuel: nat)
    requires lines != []
    ensures Contributions(files, path, lines, fuel)[0] == LineRequirements(files, path, lines[0], fuel)
    ensures Contributions(files, path, lines, fuel)[1..] == Contributions(files, path, lines[1..], fuel)
  {
    var all := Contributions(files, path, lines, fuel);
    var tail := Contributions(files, path, lines[1..], fuel);
    forall i | 0 <= i < |tail|
      ensures all[i + 1] == tail[i]
    {
      assert lines[1..][i] == lines[i + 1];
    }
    assert all[1..] == tail;
  }

  /** An outcome that is not a depth error has no depth error in the parts it joins. */
  lemma ThenNotTooDeep(a: Outcome, b: Outcome)
    requires !TooDeepError(Then(a, b))
    ensures !TooDeepError(a)
    ensures a.Ok? ==> !TooDeepError(b)
  {
  }

  lemma {:induction false} LineFuelMonotone(files: Files, path: string, line: string, fuel: nat)
    ensures !TooDeepError(LineRequirements(files, path, line, fuel)) ==>
      LineRequirements(files, path, line, fuel + 1) == LineRequirements(files, path, line, fuel)
    decreases fuel, 1
  {
    ContributeFuelMonotone(files, path, Classify(Strip(line)), fuel);
  }

  lemma {:induction false} ContributeFuelMonotone(files: Files, path: string, d: Directive, fuel: nat)
    ensures !TooDeepError(Contribute(files, path, d, fuel)) ==>
      Contribute(files, path, d, fuel + 1) == Contribute(files, path, d, fuel)
    decreases fuel, 0
  {
    if d.Include? && fuel > 0 {
      var inner := JoinPath(Dirname(path), d.name);
      if !TooDeepError(Parse(files, inner, fuel - 1)) {
        ParseFuelMonotone(files, inner, fuel - 1);
      }
    }
  }
}
