/**
 * The Python `str` operations the ingest code relies on, over `seq<char>`:
 * `isspace`, `strip`, `lower` (ASCII letters), `startswith`, `endswith`, `in`,
 * `count`, `split(sep)`, `split(sep, maxsplit)`, `split()` and `join`.
 */
module Text {
  import opened Wrappers

  /** `str.isspace()` of one character: the ASCII and Unicode whitespace CPython recognises. */
  predicate IsSpace(c: char) {
    var n := c as int;
    (9 <= n <= 13) || (28 <= n <= 32) || n == 0x85 || n == 0xA0 || n == 0x1680
    || (0x2000 <= n <= 0x200A) || n == 0x2028 || n == 0x2029 || n == 0x202F
    || n == 0x205F || n == 0x3000
  }

  function LowerChar(c: char): char {
    if 'A' <= c <= 'Z' then (c as int + 32) as char else c
  }

  /** `str.lower()` restricted to ASCII letters. */
  function Lower(s: string): (r: string)
    ensures |r| == |s|
    ensures forall i :: 0 <= i < |r| ==> !('A' <= r[i] <= 'Z')
    ensures forall i :: 0 <= i < |s| ==> r[i] == s[i] || ('A' <= s[i] <= 'Z' && r[i] as int == s[i] as int + 32)
  {
    seq(|s|, i requires 0 <= i < |s| => LowerChar(s[i]))
  }

  lemma LowerConcat(a: string, b: string)
    ensures Lower(a + b) == Lower(a) + Lower(b)
  {
  }

  lemma LowerIdempotent(s: string)
    ensures Lower(Lower(s)) == Lower(s)
  {
  }

  predicate StartsWith(s: string, prefix: string) {
    |prefix| <= |s| && s[..|prefix|] == prefix
  }

  /** A concatenation starts with its first part. */
  lemma StartsWithConcat(a: string, b: string, c: string)
    ensures StartsWith(a + b + c, a)
  {
    assert (a + b + c)[..|a|] == a;
  }

  predicate EndsWith(s: string, suffix: string) {
    |suffix| <= |s| && s[|s| - |suffix|..] == suffix
  }

  /** One differing character refutes a suffix. */
  lemma NotEndsWithAt(s: string, suffix: string, k: nat)
    requires k < |suffix| <= |s| && s[|s| - |suffix| + k] != suffix[k]
    ensures !EndsWith(s, suffix)
  {
    assert s[|s| - |suffix|..][k] == s[|s| - |suffix| + k];
  }

  predicate OccursAt(s: string, pat: string, i: int) {
    0 <= i && i + |pat| <= |s| && s[i..i + |pat|] == pat
  }

  /** The first index at or after `from` where `pat` occurs (`str.find`). */
  function FindFrom(s: string, pat: string, from: nat): (r: Option<nat>)
    requires from <= |s|
    ensures r.Some? ==> from <= r.value && OccursAt(s, pat, r.value)
    ensures r.Some? ==> forall j :: from <= j < r.value ==> !OccursAt(s, pat, j)
    ensures r.None? ==> forall j :: from <= j ==> !OccursAt(s, pat, j)
    decreases |s| - from
  {
    if from + |pat| > |s| then None
    else if s[from..from + |pat|] == pat then Some(from)
    else if from == |s| then None
    else FindFrom(s, pat, from + 1)
  }

  function Find(s: string, pat: string): Option<nat> {
    FindFrom(s, pat, 0)
  }

  /** `pat in s`. */
  predicate Contains(s: string, pat: string) {
    Find(s, pat).Some?
  }

  lemma ContainsAt(s: string, pat: string, i: int)
    requires OccursAt(s, pat, i)
    ensures Contains(s, pat)
  {
  }

  /** A text whose tail starts with the pattern contains it. */
  lemma ContainsInTail(head: string, tail: string, pat: string)
    requires StartsWith(tail, pat)
    ensures Contains(head + tail, pat)
  {
    assert (head + tail)[|head|..|head| + |pat|] == tail[..|pat|];
    ContainsAt(head + tail, pat, |head|);
  }

  lemma NotContainsAt(s: string, pat: string, i: int)
    requires !Contains(s, pat)
    ensures !OccursAt(s, pat, i)
  {
  }

  /** A text that lacks one of the pattern's characters does not contain the pattern. */
  lemma LacksCharOf(s: string, pat: string, k: nat)
    requires k < |pat| && !Contains(s, [pat[k]])
    ensures !Contains(s, pat)
  {
    if Contains(s, pat) {
      var i := Find(s, pat).value;
      assert s[i + k..i + k + 1] == [pat[k]];
      ContainsAt(s, [pat[k]], i + k);
    }
  }

  /** A one-character pattern occurs exactly where the character does. */
  lemma ContainsChar(s: string, c: char)
    ensures Contains(s, [c]) <==> exists k :: 0 <= k < |s| && s[k] == c
  {
    if Contains(s, [c]) {
      var i := Find(s, [c]).value;
      assert s[i..i + 1] == [c];
      assert s[i] == c;
    }
    if k :| 0 <= k < |s| && s[k] == c {
      assert s[k..k + 1] == [c];
      ContainsAt(s, [c], k);
    }
  }

  /** Gluing two texts that lack a character gives a text that lacks it too. */
  lemma ConcatLacksChar(a: string, b: string, c: char)
    requires !Contains(a, [c]) && !Contains(b, [c])
    ensures !Contains(a + b, [c])
  {
    ContainsChar(a, c);
    ContainsChar(b, c);
    ContainsChar(a + b, c);
    forall k | 0 <= k < |a + b|
      ensures (a + b)[k] != c
    {
      if k < |a| {
        assert (a + b)[k] == a[k];
      } else {
        assert (a + b)[k] == b[k - |a|];
      }
    }
  }

  /** `s.split(sep, 1)` when `sep` occurs: the text before and after its first occurrence. */
  function Cut(s: string, sep: string): (r: Option<(string, string)>)
    requires |sep| > 0
    ensures r.Some? <==> Contains(s, sep)
    ensures r.Some? ==> s == r.value.0 + sep + r.value.1 && !Contains(r.value.0, sep)
  {
    match Find(s, sep)
    case None => None
    case Some(i) =>
      var r := (s[..i], s[i + |sep|..]);
      assert s == r.0 + sep + r.1 by {
        assert s == s[..i] + s[i..i + |sep|] + s[i + |sep|..];
      }
      NoEarlierOccurrence(s, sep, i);
      Some(r)
  }

  lemma NoEarlierOccurrence(s: string, sep: string, i: nat)
    requires |sep| > 0 && OccursAt(s, sep, i)
    requires forall j :: 0 <= j < i ==> !OccursAt(s, sep, j)
    ensures !Contains(s[..i], sep)
  {
    if Contains(s[..i], sep) {
      var k := Find(s[..i], sep).value;
      assert s[..i][k..k + |sep|] == s[k..k + |sep|];
      assert OccursAt(s, sep, k) && k < i;
      assert false;
    }
  }

  /** `s.split(",", 2)` unpacked into three names: `None` is the `ValueError` of fewer than two commas. */
  function SplitThree(s: string): Option<(string, string, string)> {
    match Cut(s, ",")
    case None => None
    case Some((a, rest)) =>
      match Cut(rest, ",")
      case None => None
      case Some((b, c)) => Some((a, b, c))
  }

  /** Splitting at the first two commas undoes joining three fields of which the first two hold no comma. */
  lemma SplitThreeJoin(a: string, b: string, c: string)
    requires !Contains(a, ",") && !Contains(b, ",")
    ensures SplitThree(a + "," + b + "," + c) == Some((a, b, c))
  {
    var rest := b + "," + c;
    assert a + "," + b + "," + c == a + "," + rest;
    CutJoin(a, ",", rest);
    CutJoin(b, ",", c);
  }

  /** Cutting `x + [sep] + y` at the first `sep` gives back `x` and `y` when `x` holds no `sep`. */
  lemma CutJoin(x: string, sep: string, y: string)
    requires |sep| == 1 && !Contains(x, sep)
    ensures Cut(x + sep + y, sep) == Some((x, y))
  {
    var s := x + sep + y;
    assert OccursAt(s, sep, |x|) by {
      assert s[|x|..|x| + |sep|] == sep;
    }
    var i := Find(s, sep).value;
    if i < |x| {
      assert x[i..i + 1] == s[i..i + 1];
      ContainsAt(x, sep, i);
    }
    assert i == |x|;
    assert s[..i] == x;
    assert s[i + |sep|..] == y;
  }

  /** Cutting at a separator whose first character does not recur in it finds the separator after a head that lacks it. */
  lemma CutAtFirst(x: string, sep: string, y: string)
    requires |sep| > 0 && !Contains(x, sep)
    requires forall k :: 0 < k < |sep| ==> sep[k] != sep[0]
    ensures Cut(x + sep + y, sep) == Some((x, y))
  {
    var s := x + sep + y;
    assert OccursAt(s, sep, |x|) by {
      assert s[|x|..|x| + |sep|] == sep;
    }
    forall j | 0 <= j < |x|
      ensures !OccursAt(s, sep, j)
    {
      if j + |sep| <= |x| {
        if OccursAt(s, sep, j) {
          assert x[j..j + |sep|] == s[j..j + |sep|];
          ContainsAt(x, sep, j);
        }
      } else {
        assert s[|x|] == sep[0];
        assert s[j..j + |sep|][|x| - j] != sep[|x| - j];
      }
    }
    var i := Find(s, sep).value;
    assert i == |x|;
    assert s[..i] == x;
    assert s[i + |sep|..] == y;
  }

  /** `s.count(c)` for a one-character `c`. */
  function Count(s: string, c: char): (n: nat)
    ensures n <= |s|
    ensures n == 0 <==> forall k :: 0 <= k < |s| ==> s[k] != c
    ensures n == |s| <==> forall k :: 0 <= k < |s| ==> s[k] == c
  {
    if s == [] then 0 else (if s[0] == c then 1 else 0) + Count(s[1..], c)
  }

  lemma CountAppend(a: string, b: string, c: char)
    ensures Count(a + b, c) == Count(a, c) + Count(b, c)
  {
    if a != [] {
      assert (a + b)[1..] == a[1..] + b;
      CountAppend(a[1..], b, c);
    } else {
      assert a + b == b;
    }
  }

  lemma CountAbsent(a: string, c: char)
    requires !Contains(a, [c])
    ensures Count(a, c) == 0
  {
    if a != [] {
      if a[0] == c {
        ContainsAt(a, [c], 0);
      }
      if Contains(a[1..], [c]) {
        var k := Find(a[1..], [c]).value;
        assert a[1..][k..k + 1] == a[k + 1..k + 2];
        ContainsAt(a, [c], k + 1);
      }
      CountAbsent(a[1..], c);
    }
  }

  /** `s.split(c)` for a one-character separator: one more piece than there are separators. */
  function Split(s: string, c: char): (r: seq<string>)
    ensures |r| == Count(s, c) + 1
    ensures forall k :: 0 <= k < |r| ==> !Contains(r[k], [c])
    ensures Join(r, [c]) == s
    decreases |s|
  {
    match Cut(s, [c])
    case None =>
      CountAbsent(s, c);
      [s]
    case Some((a, b)) =>
      CountAbsent(a, c);
      CountAppend(a, [c] + b, c);
      assert a + [c] + b == a + ([c] + b);
      assert ([c] + b)[1..] == b;
      var rest := Split(b, c);
      assert ([a] + rest)[1..] == rest;
      [a] + rest
  }

  /** Splitting at a one-character separator undoes joining with it, as long as no piece holds it. */
  lemma SplitJoin(parts: seq<string>, c: char)
    requires |parts| > 0
    requires forall k :: 0 <= k < |parts| ==> !Contains(parts[k], [c])
    ensures Split(Join(parts, [c]), c) == parts
    decreases |parts|
  {
    if |parts| > 1 {
      CutJoin(parts[0], [c], Join(parts[1..], [c]));
      SplitJoin(parts[1..], c);
    } else {
      if Contains(parts[0], [c]) { }
    }
  }

  lemma JoinThree(a: string, b: string, c: string, sep: string)
    ensures Join([a, b, c], sep) == a + sep + b + sep + c
  {
    assert [a, b, c][1..] == [b, c];
    assert [b, c][1..] == [c];
    assert Join([c], sep) == c;
    assert Join([b, c], sep) == b + sep + c;
    assert Join([a, b, c], sep) == a + sep + (b + sep + c);
  }

  /** `sep.join(parts)`. */
  function Join(parts: seq<string>, sep: string): string
    decreases |parts|
  {
    if parts == [] then ""
    else if |parts| == 1 then parts[0]
    else parts[0] + sep + Join(parts[1..], sep)
  }

  function TrimLeft(s: string): (r: string)
    ensures |r| <= |s| && r == s[|s| - |r|..]
    ensures r == [] || !IsSpace(r[0])
    ensures forall k :: 0 <= k < |s| - |r| ==> IsSpace(s[k])
  {
    if s != [] && IsSpace(s[0]) then TrimLeft(s[1..]) else s
  }

  function TrimRight(s: string): (r: string)
    ensures |r| <= |s| && r == s[..|r|]
    ensures r == [] || !IsSpace(r[|r| - 1])
    ensures forall k :: |r| <= k < |s| ==> IsSpace(s[k])
  {
    if s != [] && IsSpace(s[|s| - 1]) then TrimRight(s[..|s| - 1]) else s
  }

  /** `s.strip()`. */
  function Strip(s: string): (r: string)
    ensures |r| <= |s| && Stripped(r)
    ensures r == [] <==> forall k :: 0 <= k < |s| ==> IsSpace(s[k])
  {
    var t := TrimLeft(s);
    var r := TrimRight(t);
    assert r != [] ==> r[0] == t[0];
    r
  }

  /** A string that neither starts nor ends with whitespace. */
  predicate Stripped(s: string) {
    s == [] || (!IsSpace(s[0]) && !IsSpace(s[|s| - 1]))
  }

  lemma StripStripped(s: string)
    requires Stripped(s)
    ensures Strip(s) == s
  {
  }

  /** Stripping a line that ends in whitespace, such as its line break, gives back the stripped text. */
  lemma StripTrailing(x: string, tail: string)
    requires x != [] && Stripped(x)
    requires forall k :: 0 <= k < |tail| ==> IsSpace(tail[k])
    ensures Strip(x + tail) == x
  {
    var s := x + tail;
    assert s[0] == x[0];
    assert TrimLeft(s) == s;
    TrimRightSpaces(x, tail);
  }

  /** Trailing whitespace after a character that is not whitespace is trimmed back to it. */
  lemma {:induction false} TrimRightSpaces(x: string, tail: string)
    requires x != [] && !IsSpace(x[|x| - 1])
    requires forall k :: 0 <= k < |tail| ==> IsSpace(tail[k])
    ensures TrimRight(x + tail) == x
    decreases |tail|
  {
    var s := x + tail;
    if tail == [] {
      assert s == x;
    } else {
      assert s[|s| - 1] == tail[|tail| - 1];
      assert s[..|s| - 1] == x + tail[..|tail| - 1];
      TrimRightSpaces(x, tail[..|tail| - 1]);
    }
  }

  /** Length of the leading run of non-whitespace characters. */
  function WordLength(s: string): (n: nat)
    ensures n <= |s|
    ensures forall k :: 0 <= k < n ==> !IsSpace(s[k])
    ensures n == |s| || IsSpace(s[n])
  {
    if s == [] || IsSpace(s[0]) then 0 else 1 + WordLength(s[1..])
  }

  /** `s.split()`: the maximal runs of non-whitespace characters, in order. */
  function Words(s: string): (r: seq<string>)
    ensures MaximalRuns(s, r)
    decreases |s|
  {
    var t := TrimLeft(s);
    if t == [] then []
    else
      var n := WordLength(t);
      var rest := Words(t[n..]);
      WordsStep(s, t, n, rest);
      [t[..n]] + rest
  }

  /** The first word, before the words of what follows it, are maximal runs of `s`. */
  lemma WordsStep(s: string, t: string, n: nat, rest: seq<string>)
    requires t == TrimLeft(s) && t != [] && n == WordLength(t)
    requires MaximalRuns(t[n..], rest)
    ensures MaximalRuns(s, [t[..n]] + rest)
  {
    TrimmedOf(s);
    WordPrefix(t, n);
    FirstRun(s, t, n);
    LaterRuns(s, t, n, rest);
    RunsCons(s, t[..n], |s| - |t|, rest);
  }

  predicate NoSpace(s: string) {
    forall k :: 0 <= k < |s| ==> !IsSpace(s[k])
  }

  /** `w` stands in `s` at `i` with whitespace or an end of `s` on either side. */
  predicate RunAt(s: string, w: string, i: int) {
    0 <= i && i + |w| <= |s| && s[i..i + |w|] == w
    && (i == 0 || IsSpace(s[i - 1])) && (i + |w| == |s| || IsSpace(s[i + |w|]))
  }

  /** Every one of `r` is a non-empty run of `s` free of whitespace that cannot be extended. */
  ghost predicate MaximalRuns(s: string, r: seq<string>) {
    forall k :: 0 <= k < |r| ==> r[k] != [] && NoSpace(r[k]) && exists i :: RunAt(s, r[k], i)
  }

  /** `t` is a non-empty suffix of `s` that starts a run: whitespace or the start of `s` stands before it. */
  predicate Trimmed(s: string, t: string) {
    |t| <= |s| && t == s[|s| - |t|..] && t != [] && !IsSpace(t[0])
    && (|t| == |s| || IsSpace(s[|s| - |t| - 1]))
  }

  /** A run of `s` before runs of `s` are runs of `s`. */
  lemma RunsCons(s: string, first: string, j: int, rest: seq<string>)
    requires first != [] && NoSpace(first) && RunAt(s, first, j)
    requires MaximalRuns(s, rest)
    ensures MaximalRuns(s, [first] + rest)
  {
    var r := [first] + rest;
    forall k | 0 <= k < |r|
      ensures r[k] != [] && NoSpace(r[k]) && exists i :: RunAt(s, r[k], i)
    {
      if k == 0 {
        assert RunAt(s, r[0], j);
      } else {
        assert r[k] == rest[k - 1];
      }
    }
  }

  /** The words of what follows the first word are runs of `s`. */
  lemma LaterRuns(s: string, t: string, n: nat, rest: seq<string>)
    requires |t| <= |s| && t == s[|s| - |t|..] && n <= |t| && (n == |t| || IsSpace(t[n]))
    requires MaximalRuns(t[n..], rest)
    ensures MaximalRuns(s, rest)
  {
    forall k | 0 <= k < |rest|
      ensures rest[k] != [] && NoSpace(rest[k]) && exists j :: RunAt(s, rest[k], j)
    {
      var i :| RunAt(t[n..], rest[k], i);
      LaterRun(s, t, n, rest[k], i);
    }
  }

  /** The first word after the leading whitespace is a run of `s`. */
  lemma FirstRun(s: string, t: string, n: nat)
    requires Trimmed(s, t) && 0 < n <= |t| && (n == |t| || IsSpace(t[n]))
    ensures RunAt(s, t[..n], |s| - |t|)
  {
    SuffixSlice(s, t, n);
  }

  /** The leading run of a text that starts with a character other than whitespace. */
  lemma WordPrefix(t: string, n: nat)
    requires t != [] && !IsSpace(t[0]) && n == WordLength(t)
    ensures 0 < n <= |t| && NoSpace(t[..n]) && (n == |t| || IsSpace(t[n]))
  {
  }

  /** What is left after the leading whitespace starts a run, when anything is left. */
  lemma TrimmedOf(s: string)
    requires TrimLeft(s) != []
    ensures Trimmed(s, TrimLeft(s))
  {
    var t := TrimLeft(s);
    if |t| < |s| {
      assert IsSpace(s[|s| - |t| - 1]);
    }
  }

  /** The first `n` characters of a suffix of `s`, and the one after them, read in `s`. */
  lemma SuffixSlice(s: string, t: string, n: nat)
    requires |t| <= |s| && t == s[|s| - |t|..] && n <= |t|
    ensures s[|s| - |t|..|s| - |t| + n] == t[..n]
    ensures n < |t| ==> s[|s| - |t| + n] == t[n]
  {
  }

  /** A word of what follows the first word is a run of `s`: whitespace separates it from the first. */
  lemma LaterRun(s: string, t: string, n: nat, w: string, i: int)
    requires |t| <= |s| && t == s[|s| - |t|..] && n <= |t| && (n == |t| || IsSpace(t[n]))
    requires w != [] && NoSpace(w) && RunAt(t[n..], w, i)
    ensures RunAt(s, w, |s| - |t| + n + i)
  {
    SuffixOfSuffix(s, t, n);
    assert i != 0;
    RunShift(s, |s| - |t| + n, w, i);
  }

  /** What follows the first `n` characters of a suffix of `s` is itself a suffix of `s`. */
  lemma SuffixOfSuffix(s: string, t: string, n: nat)
    requires |t| <= |s| && t == s[|s| - |t|..] && n <= |t|
    ensures t[n..] == s[|s| - |t| + n..]
    ensures n < |t| ==> t[n..][0] == t[n]
  {
  }

  /** A run of a suffix of `s` that does not start the suffix is a run of `s`. */
  lemma RunShift(s: string, off: nat, w: string, i: int)
    requires off <= |s| && RunAt(s[off..], w, i) && i > 0
    ensures RunAt(s, w, off + i)
  {
    var u := s[off..];
    var j := off + i;
    assert s[j..j + |w|] == u[i..i + |w|];
    assert s[j - 1] == u[i - 1];
    if j + |w| < |s| {
      assert s[j + |w|] == u[i + |w|];
    }
  }

  /** `w` is the first word of `s`: only whitespace before it at `i`, and whitespace or the end of `s` after it. */
  predicate FirstWordAt(s: string, w: string, i: int) {
    0 <= i && i + |w| <= |s| && (forall k :: 0 <= k < i ==> IsSpace(s[k]))
    && s[i..i + |w|] == w && w != [] && NoSpace(w) && (i + |w| == |s| || IsSpace(s[i + |w|]))
  }

  /**
   * `s` reads as whitespace, `r[0]`, whitespace, ..., `r[|r| - 1]`, whitespace: the words in
   * order, every gap whitespace only, and the gaps between two words non-empty.
   */
  ghost predicate SplitsInto(s: string, r: seq<string>)
    decreases |r|
  {
    if r == [] then forall k :: 0 <= k < |s| ==> IsSpace(s[k])
    else exists i :: FirstWordAt(s, r[0], i) && SplitsInto(s[i + |r[0]|..], r[1..])
  }

  /** `s.split()` lays out `s` as its words with whitespace between them: none is left out, none is out of order. */
  lemma {:induction false} WordsSplit(s: string)
    ensures SplitsInto(s, Words(s))
    decreases |s|
  {
    var t := TrimLeft(s);
    if t != [] {
      var n := WordLength(t);
      WordPrefix(t, n);
      WordsSplit(t[n..]);
      SplitsStep(s, t, n, Words(t[n..]));
    }
  }

  /** The first word after the leading whitespace, then a layout of what follows it, lay out `s`. */
  lemma SplitsStep(s: string, t: string, n: nat, rest: seq<string>)
    requires |t| <= |s| && t == s[|s| - |t|..] && (forall k :: 0 <= k < |s| - |t| ==> IsSpace(s[k]))
    requires 0 < n <= |t| && NoSpace(t[..n]) && (n == |t| || IsSpace(t[n]))
    requires SplitsInto(t[n..], rest)
    ensures SplitsInto(s, [t[..n]] + rest)
  {
    FirstWordOf(s, t, n);
    SuffixOfSuffix(s, t, n);
    SplitsCons(s, t[..n], |s| - |t|, t[n..], rest);
  }

  /** The first word after the leading whitespace of `s`, at the end of that whitespace. */
  lemma FirstWordOf(s: string, t: string, n: nat)
    requires |t| <= |s| && t == s[|s| - |t|..] && (forall k :: 0 <= k < |s| - |t| ==> IsSpace(s[k]))
    requires 0 < n <= |t| && NoSpace(t[..n]) && (n == |t| || IsSpace(t[n]))
    ensures FirstWordAt(s, t[..n], |s| - |t|)
  {
    SuffixSlice(s, t, n);
  }

  /** A first word, then a layout of what follows it, lay out `s`. */
  lemma SplitsCons(s: string, w: string, i: int, u: string, rest: seq<string>)
    requires FirstWordAt(s, w, i) && u == s[i + |w|..] && SplitsInto(u, rest)
    ensures SplitsInto(s, [w] + rest)
  {
    var r := [w] + rest;
    assert r[0] == w && r[1..] == rest;
  }

  /** The layout determines the words: whatever `r` lays out `s` is `s.split()`. */
  lemma {:induction false} SplitWords(s: string, r: seq<string>)
    requires SplitsInto(s, r)
    ensures r == Words(s)
    decreases |r|
  {
    if r == [] {
      AllSpaceTrimmed(s, |s|);
    } else {
      var w := r[0];
      var i :| FirstWordAt(s, w, i) && SplitsInto(s[i + |w|..], r[1..]);
      WordsOfFirst(s, w, i);
      SplitWords(s[i + |w|..], r[1..]);
      HeadTail(r);
    }
  }

  /** The words of `s`, given its first word at `i`. */
  lemma WordsOfFirst(s: string, w: string, i: int)
    requires FirstWordAt(s, w, i)
    ensures Words(s) == [w] + Words(s[i + |w|..])
  {
    AllSpaceTrimmed(s, i);
    SliceAt(s, i, |w|);
    var t := TrimLeft(s);
    var u := s[i + |w|..];
    assert t == w + u;
    WordLengthOfWord(w, u);
    assert t[..|w|] == w && t[|w|..] == u;
    assert Words(s) == [t[..|w|]] + Words(t[|w|..]);
  }

  lemma HeadTail(r: seq<string>)
    requires r != []
    ensures r == [r[0]] + r[1..]
  {
  }

  /** Cutting the suffix of `s` from `i` after `m` more characters. */
  lemma SliceAt(s: string, i: nat, m: nat)
    requires i + m <= |s|
    ensures s[i..] == s[i..i + m] + s[i + m..]
    ensures s[i..][..m] == s[i..i + m] && s[i..][m..] == s[i + m..]
  {
  }

  /** Whitespace up to `i`, then the end of `s` or a character other than whitespace: `TrimLeft` stops at `i`. */
  lemma AllSpaceTrimmed(s: string, i: nat)
    requires i <= |s| && (forall k :: 0 <= k < i ==> IsSpace(s[k]))
    requires i == |s| || !IsSpace(s[i])
    ensures TrimLeft(s) == s[i..]
  {
  }

  lemma NoSpaceConcat(a: string, b: string)
    requires NoSpace(a) && NoSpace(b)
    ensures NoSpace(a + b)
  {
    forall k | 0 <= k < |a + b|
      ensures !IsSpace((a + b)[k])
    {
      if k >= |a| { assert (a + b)[k] == b[k - |a|]; }
    }
  }

  lemma WordLengthOfWord(a: string, rest: string)
    requires NoSpace(a)
    requires rest == [] || IsSpace(rest[0])
    ensures WordLength(a + rest) == |a|
    decreases |a|
  {
    if a != [] {
      assert (a + rest)[1..] == a[1..] + rest;
      WordLengthOfWord(a[1..], rest);
    }
  }

  /** `(a + " " + rest).split()` is `a` followed by the words of `rest`, for a word `a`. */
  lemma WordsCons(a: string, rest: string)
    requires a != [] && NoSpace(a)
    ensures Words(a + " " + rest) == [a] + Words(rest)
  {
    var s := a + " " + rest;
    assert IsSpace(' ');
    assert TrimLeft(s) == s;
    WordLengthOfWord(a, " " + rest);
    assert s == a + (" " + rest);
    assert s[..|a|] == a && s[|a|..] == " " + rest;
    assert TrimLeft(" " + rest) == TrimLeft(rest) by {
      assert (" " + rest)[1..] == rest;
    }
  }

  /** A single word splits into itself. */
  lemma WordsSingle(a: string)
    requires a != [] && NoSpace(a)
    ensures Words(a) == [a]
  {
    assert TrimLeft(a) == a;
    WordLengthOfWord(a, []);
    assert a + [] == a;
    assert a[|a|..] == [];
  }
}
