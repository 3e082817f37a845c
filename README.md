# rodeos-ingest / omics-ingest: a Dafny model of the run-folder completion engine

The two Python packages of this repository (`rodeos_ingest`, the current one, and
`omics_ingest`, its predecessor) are event handlers for iRODS automated ingest. They
watch a landing zone of sequencer output folders. While a folder is being uploaded,
the handlers keep metadata on the folder's collection in the catalogue:

- `first_seen` when a job first lists the folder;
- `last_update` and `status=running` after every uploaded file;
- AVUs recording the descriptors the sequencer wrote (`RunInfo.xml`, the run
  parameters, the Netcopy markers).

A folder counts as done when its instrument's marker files (or, for demultiplexing
output, `DIGESTIFLOW_DEMUX_DONE.txt`) exist. Once a done folder has been at rest for
long enough, the current package finalises it:

1. it builds a local manifest with `hashdeep` and a remote one from the catalogue;
2. it compares the two and records the outcome;
3. it uploads both manifests;
4. it moves the folder to `<parent>-INGESTED/<name>`;
5. it sets `status=complete`.

The older package's finalisation raises `NameError` as soon as its gate passes, so it
never gets that far.

The model has one module per component:

- **Foundations**: `Wrappers`, `Text` (Python `str` operations), `Order` (string order
  and `sorted`), `Decimal` (`int()`/`str()`), `Base64` (section 4 of RFC 4648, and
  `bytes.hex()`), `Paths` (pathlib paths, `os.path.join`/`dirname`, `to_ingested_path`,
  the run-collection arithmetic of the refresh).
- **Settings and `setup.py`**: `Settings` (both `settings.py` modules), `Requirements`
  (`parse_requirements` of `setup.py`).
- **Descriptor parsing**: `RunFolder` (`run_folder.py`), and `Manifest` (reading,
  comparing and building manifests).
- **State**: `Landing` holds the state.
  - The pure value `World` has the local folders with the files the handlers write, the
    collections, the data objects, the AVUs and the checksummed objects.
  - The class `Zone` is changed in place by the handlers' methods. Each method ensures
    that its new state is a specification function of the old state.
  - External commands, the clock and timestamp parsing are oracles in `Tools`.
- **Life cycle**: `Lifecycle` (the `first_seen` and `last_update` metadata shared by both
  packages, under a package-specific key prefix), `RodeosCommon` and `OmicsCommon`
  (finalisation).
- **Handlers**: `Illumina` (what the BCL handlers share: descriptor search, dispatch on
  the uploaded file's name, replacing AVUs), `RodeosBcl`, `OmicsBcl` and
  `OmicsFastq` (the event handlers).

Where the two `common.py` modules and the handlers change state step by step, the model
has methods with loops over a `Zone`. Each is proved equal to a specification function,
and the properties are lemmas about those functions.

## Model

| member | source | states |
|---|---|---|
| Text.LowerIdempotent | rodeos_ingest/genomics/illumina/bcl.py:73 | lowercasing twice is lowercasing once |
| Text.LowerConcat | omics_ingest/genomics/illumina/run_folder.py:132 | lowercasing distributes over concatenation |
| Text.Lower | rodeos_ingest/genomics/illumina/bcl.py:73 | `lower()` keeps the length, leaves no ASCII capital, and changes a character only by turning a capital into its small letter |
| Text.FindFrom | omics_ingest/genomics/illumina/run_folder.py:132 | the result is the first occurrence of the pattern at or after the start, and none means it never occurs there |
| Text.ContainsChar | omics_ingest/genomics/illumina/run_folder.py:119 | a one-character pattern is in a text iff some position holds that character |
| Text.Cut | setup.py:23 | `split(sep, 1)` succeeds iff the separator occurs; the text is head + sep + tail, and the head lacks the separator |
| Text.CutAtFirst | setup.py:23 | cutting `x + sep + y` gives back `x` and `y` when `x` lacks the separator |
| Text.SplitThreeJoin | rodeos_ingest/common.py:63 | `split(",", 2)` of three fields joined by commas gives back the fields when the first two hold no comma |
| Text.Split | omics_ingest/genomics/illumina/run_folder.py:122 | `split(c)` has one more piece than separators, no piece holds `c`, and joining the pieces with `c` gives the text back |
| Text.SplitJoin | omics_ingest/genomics/illumina/run_folder.py:122 | splitting undoes joining when no piece holds the separator |
| Text.CountAppend | omics_ingest/genomics/illumina/run_folder.py:119 | the count of a concatenation is the sum of the counts |
| Text.Count | omics_ingest/genomics/illumina/run_folder.py:119 | `count(c)` is at most the length, zero iff `c` does not occur, and the length iff every character is `c` |
| Text.TrimLeft | setup.py:16 | the result is a suffix of the text, does not start with whitespace, and only whitespace was removed |
| Text.TrimRight | setup.py:16 | the result is a prefix of the text, does not end with whitespace, and only whitespace was removed |
| Text.StripStripped | setup.py:16 | `strip()` leaves a stripped text unchanged |
| Text.Strip | setup.py:16 | `strip()` neither starts nor ends with whitespace, is no longer than the text, and is empty iff the text is all whitespace |
| Text.StripTrailing | omics_ingest/genomics/illumina/run_folder.py:118 | stripping a line with its trailing line break gives the line |
| Text.WordLength | setup.py:18 | the leading run of non-whitespace is maximal |
| Text.Words | setup.py:18 | `split()` yields the maximal runs of non-whitespace: each word is non-empty, holds no whitespace, and occurs in the text with whitespace or an end on either side |
| Text.WordsSplit | setup.py:18 | `split()` lays out the whole text: whitespace, then the words in their order, with whitespace only (at least one character) between two words and whitespace only after the last; no run is left out |
| Text.SplitWords | setup.py:18 | the layout determines the words: any list that lays out the text this way is its `split()` |
| Text.WordsCons | setup.py:18 | `split()` of a word, a space and a rest is the word followed by the words of the rest |
| Order.LessIrreflexive | rodeos_ingest/common.py:282 | no string is less than itself |
| Order.LessAsymmetric | rodeos_ingest/common.py:282 | the string order is asymmetric |
| Order.LessTransitive | rodeos_ingest/common.py:282 | the string order is transitive |
| Order.LessTotal | rodeos_ingest/common.py:282 | any two strings are equal or ordered one way |
| Order.Insert | rodeos_ingest/common.py:282 | inserting keeps the sequence strictly sorted, with exactly the old elements and the new one |
| Order.SortedList | rodeos_ingest/common.py:282 | `sorted(names)` lists exactly the set's elements in strictly increasing order |
| Order.SortedUnique | rodeos_ingest/common.py:305 | two strictly sorted listings of the same elements are equal, so `pre_job` and `post_job` visit the same order |
| Order.SortedHeadIsLeast | rodeos_ingest/common.py:92 | the first element of a sorted listing is the least element |
| Order.SortedLastIsGreatest | rodeos_ingest/common.py:76-88 | the last element of a sorted listing is the greatest element |
| Decimal.NatDigits | rodeos_ingest/settings.py:22 | `str(n)` of a natural number is a non-empty run of digits without a leading zero |
| Decimal.FormatInt | rodeos_ingest/settings.py:22 | `str(n)` starts with `-` iff `n` is negative, then digits without a leading zero; `Decimal.ParseFormatInt` reads it back as `n` |
| Decimal.ParseInt | rodeos_ingest/settings.py:21-26 | `int(s)` succeeds iff the stripped text is a numeral, and a negative value comes only after `-`; `Decimal.ParseIntAccepts` gives the value |
| Decimal.ParseIntAccepts | rodeos_ingest/settings.py:21-26 | `int(s)` succeeds iff the stripped text is a numeral: an optional sign, then ASCII digits with single underscores only between digits; its value is the digits' value, negated after `-` |
| Decimal.DigitsValueNatDigits | rodeos_ingest/settings.py:22 | the value of the digits of `n` is `n` |
| Decimal.ParseFormatInt | rodeos_ingest/settings.py:21-23 | `int(str(n)) == n` for every integer, so the default `str(5 * 60)` reads as 300 |
| Decimal.ParseIntOne | tests/test_settings.py:5 | `int("1")` is 1 |
| Decimal.ParseIntSurroundingSpace | rodeos_ingest/settings.py:26 | `int` ignores surrounding whitespace |
| Decimal.ParseIntNegative | rodeos_ingest/settings.py:26 | `int` accepts a sign |
| Decimal.ParseIntNotANumber | rodeos_ingest/settings.py:26 | `int` rejects a word and a bare sign |
| Decimal.ParseIntUnderscore | rodeos_ingest/settings.py:26 | `int("1_000")` is 1000 |
| Decimal.ParseIntDoubleUnderscore | rodeos_ingest/settings.py:26 | `int` rejects two underscores in a row |
| Decimal.ParseIntLeadingUnderscore | rodeos_ingest/settings.py:26 | `int` rejects a leading underscore |
| Decimal.ParseIntTrailingUnderscore | rodeos_ingest/settings.py:26 | `int` rejects a trailing underscore |
| Base64.SextetOfCharOf | rodeos_ingest/common.py:71 | each alphabet character decodes to the value it encodes |
| Base64.Encode | rodeos_ingest/common.py:71 | the encoding's length is a multiple of four, and it is empty iff the input is |
| Base64.Decode | rodeos_ingest/common.py:71 | a text that decodes holds only alphabet characters before its last two, which may be padding |
| Base64.DecodeLength | rodeos_ingest/common.py:71 | a text that decodes has a length that is a multiple of four, and gives three bytes per group less at most two of padding |
| Base64.DecodeEncode | rodeos_ingest/common.py:71 | decoding undoes encoding for every byte string |
| Base64.Hex | rodeos_ingest/common.py:71 | `bytes.hex()` has two lowercase hex digits per byte |
| Base64.HexAppend | rodeos_ingest/common.py:71 | the hex of a concatenation is the concatenation of the hexes |
| Base64.EmptySha256Encoding | tests/test_fastq.py:100 | the SHA-256 of the empty input encodes to `47DEQpj8HBSa+/TImW+5JCeuQeRkm5NMpJWZG3hSuFU=` |
| Base64.EmptySha256HexText | tests/test_fastq.py:115 | the same digest in hex is `e3b0c442…7852b855` |
| Base64.EmptySha256Vector | tests/test_fastq.py:100-115 | the base64 text of the test decodes to the digest whose hex the local manifest holds |
| Paths.Path.Parent | rodeos_ingest/common.py:50 | `p.parent` keeps the root flag and the path's validity |
| Paths.Path.Name | rodeos_ingest/common.py:50-51 | `p.name` is empty or one of the components |
| Paths.Path.Child | rodeos_ingest/common.py:50-51 | `p / name` keeps the root flag and the path's validity |
| Paths.Components | rodeos_ingest/common.py:49 | the components of a split string hold no empty piece or `.` and come from the pieces |
| Paths.Parse | rodeos_ingest/common.py:49 | `pathlib.Path(s)` is a valid path |
| Paths.ComponentsOfParts | rodeos_ingest/common.py:49 | valid components pass through unchanged |
| Paths.ParseFormat | rodeos_ingest/common.py:49 | reading back the text of a valid path gives the same path |
| Paths.ParseIdempotent | rodeos_ingest/common.py:49 | building a path from its own text gives the same path |
| Paths.ToIngestedPath | rodeos_ingest/common.py:47-51 | a folder `a/…/p/n` moves to `a/…/p-INGESTED/n` with the same root flag; a single component `n` moves to `-INGESTED/n` |
| Paths.ToIngestedTextOfPath | omics_ingest/common.py:40-44 | a string argument and the path made from it move to the same place |
| Paths.ParseFooBar | tests/test_common_noirods.py:19-20 | `"foo/bar"` is the relative path with components `foo` and `bar` |
| Paths.FormatFooIngestedBar | tests/test_common_noirods.py:20 | the path `foo-INGESTED/bar` prints as `"foo-INGESTED/bar"` |
| Paths.IngestedFooBar | tests/test_common_noirods.py:23-24 | `to_ingested_path(Path("foo/bar"))` is `foo-INGESTED/bar` |
| Paths.ToIngestedFooBar | tests/test_common_noirods.py:19-24 | both the str and the Path argument `foo/bar` give `foo-INGESTED/bar` |
| Paths.RelativeTo | rodeos_ingest/common.py:328 | `relative_to` succeeds iff the root is a prefix of the path with the same root flag, and the root's parts plus the result are the path's parts |
| Paths.DropFirstComponentOf | rodeos_ingest/common.py:330 | dropping the first component of a relative path joins its remaining components |
| Paths.DropLast | rodeos_ingest/common.py:332 | `s[:-n]` is the prefix `n` shorter, or empty |
| Paths.DropLastAfter | rodeos_ingest/common.py:332 | cutting `"/" + tail` off `head + "/" + tail` gives `head` |
| Paths.RunCollectionOfNestedFile | rodeos_ingest/common.py:328-335 | for `<root>/<run>/<rest>` uploaded to `<coll>/<run>/<rest>`, the refreshed collection is `<coll>/<run>` |
| Paths.RunCollectionOfTopLevelFile | rodeos_ingest/common.py:328-335 | for a file directly in the run folder, the slice cuts the last character of the target instead |
| Paths.RunCollection | rodeos_ingest/common.py:328-335 | the refresh finds a collection iff the path lies below the root, and it is a prefix of the target's text, strictly shorter unless empty |
| Paths.LastSlash | rodeos_ingest/common.py:162 | the position after the last `/`, with no `/` after it |
| Paths.TrimSlashes | setup.py:19 | the trailing slashes removed, and only those |
| Paths.JoinPath | rodeos_ingest/common.py:162 | `os.path.join(a, b)` is `b` when `b` is absolute, and otherwise ends with `b` |
| Paths.DirnameJoinPath | setup.py:19 | `dirname(join(dir, name))` is `dir` |
| Paths.JoinPathNoDirectory | setup.py:19 | a bare name has the empty directory, and joining gives it back |
| Settings.Get | rodeos_ingest/settings.py:28 | `os.environ.get` gives the variable's value when it is set, and the default otherwise |
| Settings.BoolSetting | rodeos_ingest/settings.py:31-38 | a value in the truthy set reads as true, and a true value has length 1, 3 or 4 |
| Settings.LoadRodeos | rodeos_ingest/settings.py:21-48 | loading succeeds iff both integers parse; the first failing one names its variable and text; every field is its variable's value or default |
| Settings.LoadOmics | omics_ingest/settings.py:1-21 | the same for the older settings: the delay, the thread count, the hash algorithm and the executables flag |
| Settings.IntSetting | rodeos_ingest/settings.py:21-26 | the integer setting is `int` of the value or default, and its `ValueError` names the variable and the text |
| Settings.BoolSettingIgnoresCase | rodeos_ingest/settings.py:31-38 | a boolean setting does not depend on letter case |
| Settings.TruthyExamples | rodeos_ingest/settings.py:3-5 | `TRUE`, `Yes` and `1` are true; `0`, `false` and the empty text are false |
| Settings.IntSettingRoundTrip | rodeos_ingest/settings.py:21-26 | an integer setting set to `str(n)` reads as `n` |
| Settings.DefaultTrue | rodeos_ingest/settings.py:31-38 | an unset boolean with default `"true"` is true |
| Settings.DefaultIntegers | rodeos_ingest/settings.py:21-26 | with neither set, the delay is 300 and the thread count 8 |
| Settings.DefaultThreads | rodeos_ingest/settings.py:26 | the default thread count `"8"` reads as 8 |
| Settings.RodeosDefaults | rodeos_ingest/settings.py:21-48 | the empty environment gives 300, 8, `md5`, true, true, `_MANIFEST_LOCAL.txt`, `_MANIFEST_IRODS.txt`, `DIGESTIFLOW_DEMUX_DONE.txt` |
| Settings.OmicsAgreesWithRodeos | omics_ingest/settings.py:1-21 | the older settings load iff the current ones do, fail with the same error, and agree on the shared fields |
| Settings.OmicsSettingsTestVector | tests/test_settings.py:5-14 | with the delay set to `"1"`: delay 1, 8 threads, `md5`, look for executables |
| Requirements.Classify | setup.py:16-26 | a line is skipped iff empty or a comment; a `-r` line includes its second word iff it has one; an `-e` line is kept iff its second word holds `#egg=`, as `name @ url` split at the first `#egg=`; a line breaks iff it is an option line without a second word (`MissingArgument`) or an `-e` line whose second word lacks `#egg=` (`MissingEgg`); any other line is kept verbatim |
| Requirements.Parse | setup.py:11-14 | a missing file raises `FileNotFoundError` with its path |
| Requirements.Contributions | setup.py:15-26 | one outcome per line |
| Requirements.ThenAssociative | setup.py:20-26 | joining outcomes is associative |
| Requirements.ThenEmpty | setup.py:13 | the empty list is the unit of joining |
| Requirements.ThenAllConcat | setup.py:15-26 | the outcome of consecutive runs of lines is the first one's, then the second one's |
| Requirements.ParseRequirements | setup.py:11-27 | the loop reading a file equals the recursive specification |
| Requirements.ReadLine | setup.py:16-26 | one turn of the loop equals the per-line specification |
| Requirements.FollowDirective | setup.py:17-26 | a classified line is handled as the specification says: `-r` parses the included file next to this one, a requirement is kept, a blank or comment line adds nothing, a malformed line raises |
| Requirements.ContributionsConcat | setup.py:15-27 | requirements come out in line order: the lines cut anywhere contribute their parts one after the other |
| Requirements.ClassifyInclude | setup.py:17-18 | `-r name` names the file to include |
| Requirements.IncludeSplices | setup.py:17-20 | a `-r` line splices the requirements of the file next to the including one |
| Requirements.EditableRewritten | setup.py:22-24 | `-e url#egg=name` becomes `name @ url` |
| Requirements.PlainLineKept | setup.py:25-26 | a plain stripped line is kept verbatim |
| Requirements.CommentContributesNothing | setup.py:16-21 | blank and comment lines contribute nothing, whatever their surrounding whitespace |
| Requirements.OptionLineStripped | setup.py:16 | an option line with one word is already stripped |
| Requirements.OptionLineWords | setup.py:18 | an option line with one word splits into the two |
| Requirements.ParseFuelMonotone | setup.py:20 | once the inclusion depth suffices, more depth gives the same outcome |
| Requirements.ContributionsFuelMonotone | setup.py:15-26 | the same for a run of lines |
| Requirements.LineFuelMonotone | setup.py:16-26 | the same for one line |
| RunFolder.KeyInjective | omics_ingest/genomics/illumina/run_folder.py:35 | `"{prefix}::{name}"` determines the name |
| RunFolder.KeysDiffer | omics_ingest/genomics/illumina/run_folder.py:92 | distinct names give distinct keys |
| RunFolder.Lookup | omics_ingest/genomics/illumina/run_folder.py:32-35 | a value is found iff some triple carries the attribute, and it is that triple's value |
| RunFolder.LookupFirst | omics_ingest/genomics/illumina/run_folder.py:32-35 | the first triple with the attribute decides |
| RunFolder.RunInfoAvus | omics_ingest/genomics/illumina/run_folder.py:32-35 | five triples under `omics::ingest::run_info::`, with no unit |
| RunFolder.RunInfoRoundTrip | omics_ingest/genomics/illumina/run_folder.py:17-35 | the triples carry the whole run description: reading it back from them gives it again |
| RunFolder.RunInfoAvusVector | tests/test_run_folder.py:14-22 | the five triples in field order: flowcell, instrument, run_number, run_id, date |
| RunFolder.NetcopyAvus | omics_ingest/genomics/illumina/run_folder.py:108-111 | three triples under `omics::ingest::netcopy_complete::`, with no unit |
| RunFolder.NetcopyAvusRoundTrip | omics_ingest/genomics/illumina/run_folder.py:100-111 | reading the record back from its triples gives it again |
| RunFolder.ReadLine | omics_ingest/genomics/illumina/run_folder.py:115-118 | text-mode `readline()` is the whole text when no `\n` or `\r` occurs, and otherwise the text up to the first line end, which reads as `\n` |
| RunFolder.ParseNetcopy | omics_ingest/genomics/illumina/run_folder.py:114-124 | an unreadable file or a first line without exactly two commas gives `None`; a record's fields hold no comma |
| RunFolder.FirstLineOf | omics_ingest/genomics/illumina/run_folder.py:118 | the stripped first line is the line without its break |
| RunFolder.NetcopyTextSplit | omics_ingest/genomics/illumina/run_folder.py:119-122 | a record's line has two commas and splits into its three fields |
| RunFolder.NetcopyRoundTrip | omics_ingest/genomics/illumina/run_folder.py:114-122 | parsing a file whose first line is a record's text gives the record, whatever follows |
| RunFolder.NetcopyVector | tests/test_run_folder.py:106-114 | that file parses to the test record |
| RunFolder.NetcopyOneComma | omics_ingest/genomics/illumina/run_folder.py:119-120 | one comma gives `None` |
| RunFolder.NetcopyEmptyFile | omics_ingest/genomics/illumina/run_folder.py:118-120 | an empty file gives `None` |
| RunFolder.NetcopyAvusVector | tests/test_run_folder.py:97-103 | the test record's three triples |
| RunFolder.RunInfoAvusDistinct | omics_ingest/genomics/illumina/run_folder.py:32-35 | the five run-description triples have pairwise distinct attributes |
| RunFolder.NetcopyAvusDistinct | omics_ingest/genomics/illumina/run_folder.py:108-111 | the three Netcopy triples have pairwise distinct attributes |
| RunFolder.FirstLineEnd | omics_ingest/genomics/illumina/run_folder.py:118 | the first line ends at the first `\n` or `\r`, or at the end of the text |
| RunFolder.NetcopyLineEnd | omics_ingest/genomics/illumina/run_folder.py:115-122 | a record's line ended by `\n`, `\r\n` or a lone `\r` parses to the record, whatever follows |
| RunFolder.ParseRunParameters | omics_ingest/genomics/illumina/run_folder.py:85-93 | the loop over the XPath table equals the specification of the table |
| RunFolder.RunParametersOf | omics_ingest/genomics/illumina/run_folder.py:85-93 | the keys are exactly the prefixed names of the rows whose XPath the document contains |
| RunFolder.RunParametersOrder | omics_ingest/genomics/illumina/run_folder.py:89-92 | the dictionary's insertion order lists each of its keys exactly once |
| RunFolder.RunParametersStep | omics_ingest/genomics/illumina/run_folder.py:89-92 | one more row found sets its key to the row's text, and appends the key to the order iff it is new |
| RunFolder.RunParametersLastWins | omics_ingest/genomics/illumina/run_folder.py:89-92 | a key takes the text of the last found row that yields it |
| RunFolder.XPathMapNames | omics_ingest/genomics/illumina/run_folder.py:55-82 | only `application_name` comes from two rows |
| RunFolder.ApplicationNamePresent | omics_ingest/genomics/illumina/run_folder.py:57-58 | `application_name` is present iff either XPath is found |
| RunFolder.ApplicationNameFromSetup | omics_ingest/genomics/illumina/run_folder.py:57-58 | `Setup/ApplicationName` overrides the bare element |
| RunFolder.ApplicationNameFromBare | omics_ingest/genomics/illumina/run_folder.py:57-58 | without `Setup/ApplicationName`, the bare element decides |
| RunFolder.RunNumberFromDocument | omics_ingest/genomics/illumina/run_folder.py:72 | `run_number` is the text of `RunNumber` |
| RunFolder.NoScanNumber | omics_ingest/genomics/illumina/run_folder.py:55-82 | no row yields `scan_number` |
| RunFolder.MarkerFiles | omics_ingest/genomics/illumina/run_folder.py:127-145 | the result is one of the three marker tuples, or the error naming the descriptor |
| RunFolder.MarkerFilesCases | omics_ingest/genomics/illumina/run_folder.py:131-145 | each outcome iff its branch's test holds and the earlier ones fail, case-insensitively, with a missing key read as `""` |
| RunFolder.MarkerFilesDependOnThreeFields | omics_ingest/genomics/illumina/run_folder.py:131-141 | only `application`, `application_name` and `run_parameters_version` matter |
| RunFolder.LowerValues | omics_ingest/genomics/illumina/run_folder.py:132 | lowercasing the values keeps the keys |
| RunFolder.MarkerFilesIgnoreCase | omics_ingest/genomics/illumina/run_folder.py:132-140 | lowercasing the values does not change the outcome |
| RunFolder.MentionsAt | omics_ingest/genomics/illumina/run_folder.py:132 | a value containing the word at a known position mentions it |
| RunFolder.NovaSeqMarkers | tests/test_run_folder.py:117-121 | NovaSeq gives `CopyComplete.txt` |
| RunFolder.HiSeqMarkers | tests/test_run_folder.py:124-128 | HiSeq gives `RTAComplete.txt` |
| RunFolder.NextSeqMarkers | tests/test_run_folder.py:148-152 | NextSeq gives `RTAComplete.txt` |
| RunFolder.MiSeqMarkers | tests/test_run_folder.py:131-138 | MiSeq gives the two Netcopy markers |
| RunFolder.MiniSeqIsNeither | omics_ingest/genomics/illumina/run_folder.py:134-136 | `miniseq control software` mentions neither `nextseq` nor `hiseq` |
| RunFolder.MiniSeqMarkers | tests/test_run_folder.py:141-145 | MiniSeq falls through to its own branch and gives `RTAComplete.txt` |
| Manifest.NormaliseChecksum | rodeos_ingest/common.py:70-71 | a checksum without `sha2:` is unchanged; a tagged one raises, naming the checksum, iff the text after the tag does not decode |
| Manifest.NormaliseEncoded | rodeos_ingest/common.py:70-71 | `sha2:` plus the base64 of some bytes becomes the hex of the same bytes |
| Manifest.NormaliseEmptySha256 | tests/test_fastq.py:100-115 | the catalogue's checksum of an empty file normalises to `hashdeep`'s |
| Manifest.DecodeLine | rodeos_ingest/common.py:58-72 | a line is skipped iff it is a local `#` or `%` line |
| Manifest.DecodeLineOf | rodeos_ingest/common.py:62-64 | reading a written line gives back its path and entry; the path may hold commas |
| Manifest.DecodeRemoteSha2Line | rodeos_ingest/common.py:68-72 | a remote `sha2:` line is read with the hex of its bytes |
| Manifest.DecodeAll | rodeos_ingest/common.py:58-72 | every line is decoded, in order |
| Manifest.FoldSnoc | rodeos_ingest/common.py:59-64 | entering one more line extends the dictionary built so far |
| Manifest.FoldOkIff | rodeos_ingest/common.py:59-72 | the dictionary is built iff no line is bad |
| Manifest.ParseManifest | rodeos_ingest/common.py:57-72 | a manifest reads without error iff none of its lines is bad |
| Manifest.FoldLastWins | rodeos_ingest/common.py:64-72 | the dictionary holds exactly the named paths, each with its last entry |
| Manifest.ParseLastWins | rodeos_ingest/common.py:64-72 | a repeated path keeps its last entry |
| Manifest.ReadManifest | rodeos_ingest/common.py:57-72 | the reading loop equals the dictionary specification |
| Manifest.Problem | rodeos_ingest/common.py:74-106 | the comparison passes iff both sides list the same paths with the same size and checksum strings |
| Manifest.ParseOrderFree | rodeos_ingest/common.py:57-72 | two manifests holding the same lines in any order, with one entry per path, read alike: both fail or both give the same dictionary |
| Manifest.LastMismatchIsGreatest | rodeos_ingest/common.py:76-88 | scanning sorted paths leaves the message of the greatest mismatching path, and none iff nothing mismatches |
| Manifest.ScanCommon | rodeos_ingest/common.py:75-88 | the loop over the common paths leaves the message of the last mismatching path, a checksum message winning over a size message for the same path |
| Manifest.ScanReportsGreatest | rodeos_ingest/common.py:76-88 | over the sorted common paths that message is the one for the greatest mismatching path, and nothing when no path mismatches |
| Manifest.CompareManifests | rodeos_ingest/common.py:74-106 | the loop and checks leave exactly the problem of the specification: extra remote beats extra local beats mismatch |
| Manifest.MismatchPriority | rodeos_ingest/common.py:79-88 | with equal key sets, the greatest mismatching path is reported, its checksum message beating its size message |
| Manifest.DropPrefix | rodeos_ingest/common.py:226 | `s[n:]` is the suffix, or empty past the end |
| Manifest.QueryLineToManifest | rodeos_ingest/common.py:221-227 | a line is dropped iff it starts with `CAT_NO_ROWS_FOUND` once stripped |
| Manifest.ConvertAll | rodeos_ingest/common.py:221-227 | every query line is converted, in order |
| Manifest.WriteOut | rodeos_ingest/common.py:220-227 | writing stops with an error iff some line does not split, and no more lines are written than converted |
| Manifest.CopyQueryOutput | rodeos_ingest/common.py:218-227 | the copy loop equals the specification of the file it leaves |
| Manifest.RemoteManifest | rodeos_ingest/common.py:218-227 | the remote manifest has no more lines than the query output, and the copy raises iff some output line does not split into three fields |
| Manifest.QueryLineOf | rodeos_ingest/common.py:225-227 | a line for a file below the collection names it relative to the run, with size and checksum verbatim |
| Manifest.QueryLineRoundTrip | rodeos_ingest/common.py:225-227 | that line reads back, in the comparison, as the relative path with the same entry |
| Manifest.DecodeTestLine | tests/test_common_noirods.py:42-43 | each data line of the tests decodes to its path and entry |
| Manifest.DecodeHeaderLines | tests/test_common_noirods.py:42 | `#` and `%` are skipped in a local manifest |
| Manifest.DecodeLocalTestManifest | tests/test_common_noirods.py:42-62 | the local test manifests decode to two skips and two entries |
| Manifest.ParseLocalTestManifest | tests/test_common_noirods.py:42-62 | the local test manifests read to their two entries |
| Manifest.DecodeRemoteTestManifest | tests/test_common_noirods.py:43 | the remote test manifest decodes to its two entries |
| Manifest.ParseRemoteTestManifest | tests/test_common_noirods.py:43 | the remote test manifest reads to its two entries |
| Manifest.CompareEqualVector | tests/test_common_noirods.py:38-46 | the same files in another order compare equal |
| Manifest.CompareMismatchVector | tests/test_common_noirods.py:49-64 | a differing size or checksum of `./name2.txt` raises for that path |
| Manifest.CompareExtraVector | tests/test_common_noirods.py:67-78 | a file on only one side raises as extra on that side |
| Landing.World.Values | rodeos_ingest/common.py:125 | `get_all(key)` is the values recorded, or none |
| Landing.World.SetAvu | rodeos_ingest/common.py:337-340 | `metadata[key] = …` leaves exactly that value under that key, and changes nothing else |
| Landing.World.AddAvu | omics_ingest/genomics/illumina/bcl.py:49 | `metadata.add` raises `DuplicateAvu` and changes nothing iff the key already holds the value; otherwise it appends the value after the key's values and changes nothing else |
| Landing.World.WriteFile | rodeos_ingest/common.py:241 | writing a file changes that file of that folder only |
| Landing.World.RemoveFile | rodeos_ingest/common.py:231-271 | `os.remove` removes that file only |
| Landing.World.Put | rodeos_ingest/common.py:163-167 | `put` makes the data object hold the lines, and keeps the other objects |
| Landing.World.Checksum | rodeos_ingest/common.py:343-345 | `ichksum` records a checksum for that path only |
| Landing.World.Move | rodeos_ingest/common.py:175 | `rename` moves the folder's files to the new name and keeps the other folders |
| Landing.Zone.constructor | rodeos_ingest/common.py:279 | the zone starts in the given state |
| Landing.Zone.SetAvu | rodeos_ingest/common.py:337-340 | the zone's new state is the state's `SetAvu` |
| Landing.Zone.AddAvu | omics_ingest/genomics/illumina/bcl.py:49 | the zone's new state is the state's `AddAvu` |
| Landing.Zone.WriteFile | rodeos_ingest/common.py:241 | the zone's new state is the state's `WriteFile` |
| Landing.Zone.RemoveFile | rodeos_ingest/common.py:231-271 | the zone's new state is the state's `RemoveFile` |
| Landing.Zone.Put | rodeos_ingest/common.py:163-167 | the zone's new state is the state's `Put` |
| Landing.Zone.Checksum | rodeos_ingest/common.py:343-345 | the zone's new state is the state's `Checksum` |
| Landing.Zone.Move | rodeos_ingest/common.py:175 | the zone's new state is the state's `Move` |
| Landing.LastUpdate | rodeos_ingest/common.py:124-128 | the loop keeping the greatest parsed `last_update` equals `NewestUpdate` |
| Landing.NewestUpdateErrorSticks | rodeos_ingest/common.py:125-126 | once a value fails to parse, the whole loop fails with that error |
| Landing.NewestUpdateIsGreatest | rodeos_ingest/common.py:124-128 | the result is the greatest parsed value and one of the values; none iff there are no values; success iff every value parses |
| Landing.Age | rodeos_ingest/common.py:129-130 | the age is `now` minus the newest update, and exactly 0 without one |
| Landing.NewestUpdate | rodeos_ingest/common.py:124-128 | the scan succeeds iff every value parses, and finds nothing iff there are no values |
| Lifecycle.FirstSeen | rodeos_ingest/common.py:282-288 | the `pre_job` loop creates no collection and touches no file, object or checksum |
| Lifecycle.PreJob | rodeos_ingest/common.py:276-290 | `pre_job` raises iff the target collection is missing, and then changes nothing; otherwise it writes only the `first_seen` values and touches no collection, file, object or checksum |
| Lifecycle.Refresh | rodeos_ingest/common.py:319-340 | the refresh changes metadata only |
| Lifecycle.PreJobFolders | rodeos_ingest/common.py:276-290 | `pre_job` visits the listing in sorted order, and its new state is the `PreJob` specification's |
| Lifecycle.RefreshLastUpdate | rodeos_ingest/common.py:319-340 | the refresh's new state is the `Refresh` specification's |
| Lifecycle.FirstSeenOnce | rodeos_ingest/common.py:283-288 | a listed collection without `first_seen` gets the time; one with it keeps its values; nothing else changes |
| Lifecycle.FirstSeenStep | rodeos_ingest/common.py:282-288 | one turn of the loop and the rest of the loop compose to the whole loop |
| Lifecycle.FirstSeenIdempotent | rodeos_ingest/common.py:285 | a second `pre_job` over the same names changes no value |
| Lifecycle.RefreshOfNestedFile | rodeos_ingest/common.py:328-340 | a file below a run folder sets `last_update` to the time and `status` to `running` on `<coll>/<run>`, and nothing else |
| Lifecycle.RefreshOutsideRoot | rodeos_ingest/common.py:328 | a path outside the root raises and changes nothing |
| Lifecycle.Ichksum | rodeos_ingest/common.py:343-345 | success iff the command succeeds; success records the checksum; failure changes nothing |
| Lifecycle.RunIchksum | rodeos_ingest/common.py:343-345 | the method's new state is the `Ichksum` specification's |
| RodeosCommon.LocalManifest | rodeos_ingest/common.py:236-273 | success iff the folder exists and `hashdeep` succeeds; then the file holds its output; nothing but the folder's files changes |
| RodeosCommon.IrodsManifest | rodeos_ingest/common.py:189-233 | success iff the queries succeed and every line splits; the file holds the converted lines; nothing but the folder's files changes |
| RodeosCommon.Recorded | rodeos_ingest/common.py:144-160 | the comparison writes only `manifest_status` and `manifest_message` on the run collection |
| RodeosCommon.Moved | rodeos_ingest/common.py:170-179 | the move changes no catalogue state |
| RodeosCommon.Upload | rodeos_ingest/common.py:161-181 | the upload writes no metadata but `status` on the run collection; if it raises, no folder or metadata changed |
| RodeosCommon.ComputeLocalManifest | rodeos_ingest/common.py:236-273 | the method's result and new state are `LocalManifest`'s |
| RodeosCommon.ComputeIrodsManifest | rodeos_ingest/common.py:189-233 | the method's result and new state are `IrodsManifest`'s |
| RodeosCommon.CompareAndRecord | rodeos_ingest/common.py:144-160 | the method's new state is `Recorded`'s |
| RodeosCommon.UploadAndMove | rodeos_ingest/common.py:161-181 | the method's new state is `Upload`'s |
| RodeosCommon.FinaliseFolder | rodeos_ingest/common.py:141-181 | the method's new state is the finalisation specification's |
| RodeosCommon.PostJobRunFolderDone | rodeos_ingest/common.py:109-186 | the method's new state is `PostJobFolder`'s |
| RodeosCommon.PostJobFolders | rodeos_ingest/common.py:293-316 | `post_job` visits the listing in sorted order, and its new state is the `PostJob` specification's |
| RodeosCommon.NotDoneChangesNothing | rodeos_ingest/common.py:132-134 | a folder that is not done is left alone, whatever its age |
| RodeosCommon.AtRestGate | rodeos_ingest/common.py:136-186 | a done folder is finalised iff `age >= delay`, and otherwise nothing changes |
| RodeosCommon.NoUpdateMeansAgeZero | rodeos_ingest/common.py:129-130 | without `last_update`, a done folder is finalised iff the delay is not positive |
| RodeosCommon.StatusKeysDiffer | rodeos_ingest/common.py:26-34 | the five keys are pairwise distinct |
| RodeosCommon.Finalise | rodeos_ingest/common.py:141-181 | finalisation creates no collection and writes no key but the five status and manifest keys |
| RodeosCommon.IngestedFolder | rodeos_ingest/common.py:171-175 | the name the folder is renamed to reads back as `to_ingested_path(folder)`: `…/p/n` goes to `…/p-INGESTED/n` |
| RodeosCommon.PostJobFolder | rodeos_ingest/common.py:109-186 | handling one folder does the same |
| RodeosCommon.Sweep | rodeos_ingest/common.py:305-316 | the sweep does the same, so it never touches `first_seen` or `last_update` |
| RodeosCommon.PostJob | rodeos_ingest/common.py:293-316 | `post_job` raises for a missing target collection, and otherwise writes only the finalisation keys |
| RodeosCommon.FinaliseSuccess | rodeos_ingest/common.py:141-181 | a finalisation that raises nothing found equal manifests, recorded `success`/`all good`, put and checksummed both manifests, and set `status=complete` |
| RodeosCommon.FinaliseMove | rodeos_ingest/common.py:169-179 | the folder moves iff moving is configured and the rename succeeds; a failed rename is only logged |
| RodeosCommon.FinaliseDifference | rodeos_ingest/common.py:144-153 | differing manifests record `failed` with the message and raise it; nothing is put or moved and `status` is kept |
| RodeosCommon.FinaliseRaisedKeepsStatus | rodeos_ingest/common.py:141-181 | a finalisation that raises never sets `status=complete` and never moves the folder |
| RodeosCommon.SweepConcat | rodeos_ingest/common.py:305-314 | the sweep over `a + b` is the sweep over `a`, then, unless that raised, the sweep over `b`: an exception aborts the remaining folders |
| RodeosCommon.SweepSkipsUnmatched | rodeos_ingest/common.py:306-316 | names without a collection of their own are skipped |
| OmicsCommon.KeysDiffer | omics_ingest/common.py:16-21 | the three keys are pairwise distinct |
| OmicsCommon.OmicsAge | omics_ingest/common.py:67 | the age is `now` minus the newest update, or the difference of two clock readings without one |
| OmicsCommon.PostJobFolder | omics_ingest/common.py:47-119 | handling a folder never changes the state |
| OmicsCommon.Sweep | omics_ingest/common.py:151-162 | the sweep never changes the state |
| OmicsCommon.PostJob | omics_ingest/common.py:139-162 | `post_job` never changes the state |
| OmicsCommon.PostJobRunFolderDone | omics_ingest/common.py:47-119 | the method raises what the specification raises |
| OmicsCommon.PostJobFolders | omics_ingest/common.py:139-162 | the sweep visits the listing in sorted order and raises what the specification raises |
| OmicsCommon.NotDoneChangesNothing | omics_ingest/common.py:69-71 | a folder that is not done returns with no change |
| OmicsCommon.StrictGate | omics_ingest/common.py:73-80 | a done folder raises `NameError` iff `age > delay`; an age equal to the delay waits |
| OmicsCommon.NoUpdateNeverFinalises | omics_ingest/common.py:62-73 | without `last_update`, and with a non-negative delay, a folder never reaches the finalisation |
| OmicsCommon.PostJobFolderRaises | omics_ingest/common.py:62-80 | the only exceptions are an unparsable timestamp, the done predicate's, and the undefined name |
| OmicsCommon.NewestUpdateRaisesUnparsable | omics_ingest/common.py:63-64 | the newest-update loop raises only for an unparsable timestamp |
| OmicsCommon.SweepConcat | omics_ingest/common.py:151-160 | an exception in one folder aborts the rest |
| OmicsCommon.RefreshOfNestedFile | omics_ingest/common.py:165-180 | the refresh writes `omics::ingest::last_update` and `status=running` on the run folder's collection only |
| Illumina.Descriptor | rodeos_ingest/genomics/illumina/bcl.py:89-90 | the first existing descriptor, none iff neither exists |
| Illumina.MarkersPresent | rodeos_ingest/genomics/illumina/bcl.py:91-94 | true iff every marker exists in the folder; an unknown instrument raises with its message |
| Illumina.Markers | rodeos_ingest/genomics/illumina/bcl.py:91-93 | the parameters of the descriptor give one of the three marker tuples, or the unknown-instrument error naming the descriptor |
| Illumina.Classify | rodeos_ingest/genomics/illumina/bcl.py:72-84 | on the lowercased path: `/runinfo.xml` takes the RunInfo branch; `/runparameters.xml` the descriptor branch unless the earlier test held; a Netcopy marker its branch unless an earlier test held |
| Illumina.ClassifyIgnoresCase | rodeos_ingest/genomics/illumina/bcl.py:73-80 | the dispatch does not depend on letter case |
| Illumina.ClassifyRunInfoName | rodeos_ingest/genomics/illumina/bcl.py:73-74 | `RunInfo.xml` takes the RunInfo branch |
| Illumina.ClassifyRunParametersName | rodeos_ingest/genomics/illumina/bcl.py:73-76 | `RunParameters.xml` takes the descriptor branch |
| Illumina.ClassifyOldRunParametersName | rodeos_ingest/genomics/illumina/bcl.py:73-76 | the older spelling `runParameters.xml` takes the descriptor branch too |
| Illumina.ClassifyNetcopyMarker | rodeos_ingest/genomics/illumina/bcl.py:73-80 | a Netcopy marker takes the Netcopy branch |
| Illumina.ClassifyRtaMarker | rodeos_ingest/genomics/illumina/bcl.py:72-84 | `RTAComplete.txt` is ignored |
| Illumina.Replaced | rodeos_ingest/genomics/illumina/bcl.py:58-59 | each key of the map holds exactly its value; other keys are kept |
| Illumina.ReplaceAll | rodeos_ingest/genomics/illumina/bcl.py:58-59 | replacing changes metadata only |
| Illumina.ReplaceAllValues | rodeos_ingest/genomics/illumina/bcl.py:49-59 | after replacing, each key holds exactly its value, and every other value is kept |
| Illumina.ReplaceAllSet | rodeos_ingest/genomics/illumina/bcl.py:58-59 | replacing one more pair extends the replaced map |
| Illumina.ReplacedNothing | rodeos_ingest/genomics/illumina/bcl.py:58-59 | replacing with no pairs keeps the metadata |
| Illumina.ReplacedSet | rodeos_ingest/genomics/illumina/bcl.py:58-59 | replacing one more pair extends the replaced metadata |
| Illumina.WrittenNone | rodeos_ingest/genomics/illumina/bcl.py:58-59 | before the loop nothing of the dictionary has been written |
| Illumina.WrittenStep | rodeos_ingest/genomics/illumina/bcl.py:58-59 | one turn writes one more key of the dictionary |
| Illumina.WrittenAll | rodeos_ingest/genomics/illumina/bcl.py:58-59 | after the loop the whole dictionary has been written |
| Illumina.ReplaceAllIdempotent | rodeos_ingest/genomics/illumina/bcl.py:44-59 | replacing twice leaves what replacing once left |
| Illumina.AvuMapDistinct | rodeos_ingest/genomics/illumina/bcl.py:49-50 | triples with distinct attributes give each attribute its value, and no other keys |
| Illumina.RunInfoAvuMap | rodeos_ingest/genomics/illumina/bcl.py:49-50 | each field of the run description is recorded under its own key |
| RodeosBcl.HandlerConfig | rodeos_ingest/genomics/illumina/bcl.py:36-41 | the delay and the manifest and move settings are those of the settings module |
| RodeosBcl.IsRunfolderDone | rodeos_ingest/genomics/illumina/bcl.py:87-95 | done iff a descriptor exists and all its markers exist; raises iff its instrument is unknown |
| RodeosBcl.NoDescriptorNotDone | rodeos_ingest/genomics/illumina/bcl.py:95 | without a descriptor the folder is not done |
| RodeosBcl.FirstDescriptorDecides | rodeos_ingest/genomics/illumina/bcl.py:89-94 | when `RunParameters.xml` exists, the other descriptor does not matter |
| RodeosBcl.UnknownInstrumentRaised | rodeos_ingest/genomics/illumina/bcl.py:91-93 | an unknown instrument is raised, naming the descriptor |
| RodeosBcl.ApplyToCollection | rodeos_ingest/genomics/illumina/bcl.py:44-59 | raises iff the collection is missing, and then changes nothing |
| RodeosBcl.ApplyToObject | rodeos_ingest/genomics/illumina/bcl.py:62-67 | raises iff the data object is missing, and then changes nothing |
| RodeosBcl.SetEach | rodeos_ingest/genomics/illumina/bcl.py:49-50 | the loop's new state is replacing with the triples' map |
| RodeosBcl.SetEachOf | rodeos_ingest/genomics/illumina/bcl.py:58-59 | the loop's new state is replacing with the dictionary |
| RodeosBcl.ApplyRunInfoMetadata | rodeos_ingest/genomics/illumina/bcl.py:44-50 | the run description replaces the AVUs of the file's parent collection |
| RodeosBcl.ApplyRunParametersMetadata | rodeos_ingest/genomics/illumina/bcl.py:53-59 | the parameters replace the AVUs of the file's parent collection |
| RodeosBcl.ApplyNetcopyCompleteMetadata | rodeos_ingest/genomics/illumina/bcl.py:62-67 | the Netcopy record replaces the AVUs of the data object |
| RodeosBcl.PostRunInfoXmlCreateOrUpdate | rodeos_ingest/genomics/illumina/bcl.py:70-84 | the method's new state is the dispatch specification's |
| RodeosBcl.OnDataObject | rodeos_ingest/genomics/illumina/bcl.py:117-133 | the hook's new state is: dispatch, then refresh, then `ichksum` |
| RodeosBcl.HandlerPreJob | rodeos_ingest/genomics/illumina/bcl.py:99-103 | `pre_job` is the common `pre_job`, then the common `post_job` |
| RodeosBcl.HandlerPostJob | rodeos_ingest/genomics/illumina/bcl.py:105-109 | `post_job` is the common `post_job` with this handler's predicate and settings |
| RodeosBcl.DispatchIdempotent | rodeos_ingest/genomics/illumina/bcl.py:44-84 | an upload seen twice leaves what seeing it once left |
| RodeosBcl.UnparsableNetcopyChangesNothing | rodeos_ingest/genomics/illumina/bcl.py:80-84 | an unparsable or unreadable Netcopy marker changes nothing |
| RodeosBcl.Dispatch | rodeos_ingest/genomics/illumina/bcl.py:70-84 | recording writes only the parent collection, or the data object itself for a Netcopy marker, and keeps files, collections, objects and checksums; any other file changes nothing |
| RodeosBcl.DataObjectHook | rodeos_ingest/genomics/illumina/bcl.py:117-133 | the hook creates no collection, object or file, and checksums at most the upload |
| RodeosBcl.PreJob | rodeos_ingest/genomics/illumina/bcl.py:99-103 | `pre_job` creates no collection and writes no key but `first_seen` and the finalisation keys |
| RodeosBcl.RunInfoRecorded | rodeos_ingest/genomics/illumina/bcl.py:44-75 | after `RunInfo.xml`, its collection carries each field once |
| RodeosBcl.DataObjectHookOutcome | rodeos_ingest/genomics/illumina/bcl.py:117-124 | the hook succeeds iff the recording, the refresh of `last_update` and `status` and `ichksum` all succeed, and then the AVUs are the refreshed ones and the upload is added to the checksummed objects; a failing recording changes nothing, a failing refresh keeps the recording, a failing `ichksum` keeps both |
| OmicsBcl.DoneAgreesWithCurrentPackage | omics_ingest/genomics/illumina/bcl.py:86-93 | read as a truth value, the older predicate is the current one |
| OmicsBcl.IsRunfolderDone | omics_ingest/genomics/illumina/bcl.py:86-93 | `None` iff neither descriptor exists; true iff the first one's markers all exist; raises iff its instrument is unknown |
| OmicsBcl.ApplyRunInfo | omics_ingest/genomics/illumina/bcl.py:43-49 | a missing collection raises and changes nothing; otherwise it raises iff the collection already carries one of the triples; success appends each field's value |
| OmicsBcl.ApplyRunParameters | omics_ingest/genomics/illumina/bcl.py:52-58 | a missing collection raises and changes nothing; otherwise it raises iff some parameter's value is already under its key; success appends the values |
| OmicsBcl.ApplyNetcopy | omics_ingest/genomics/illumina/bcl.py:61-66 | a missing data object raises and changes nothing; otherwise it raises iff the object already carries one of the triples; success appends the values |
| OmicsBcl.AddSeq | omics_ingest/genomics/illumina/bcl.py:48-49 | adding triples one by one changes metadata only |
| OmicsBcl.AddSeqOutcome | omics_ingest/genomics/illumina/bcl.py:48-49 | the adds raise nothing iff no triple is already under its key, counting the earlier triples; then each key gains the triples' values after its old ones; other paths are kept |
| OmicsBcl.AddSeqStopsAt | omics_ingest/genomics/illumina/bcl.py:48-49 | the first refused triple raises `DuplicateAvu` for itself, after the earlier triples took effect |
| OmicsBcl.AddSeqPrefix | omics_ingest/genomics/illumina/bcl.py:48-49 | once a prefix raised, the rest of the triples is never added |
| OmicsBcl.AddSeqRaised | omics_ingest/genomics/illumina/bcl.py:48-49 | with distinct attributes, a raise names a triple the path already carried |
| OmicsBcl.AddSeqTwice | omics_ingest/genomics/illumina/bcl.py:48-49 | adding the same triples again right after raises at the first one and changes nothing |
| OmicsBcl.DistinctAllNew | omics_ingest/genomics/illumina/bcl.py:48-49 | with distinct attributes, the adds all succeed iff the path carries none of the triples |
| OmicsBcl.ItemAvus | omics_ingest/genomics/illumina/bcl.py:57-58 | the triples of `items()` are exactly the unitless key and value pairs of the dictionary |
| OmicsBcl.ItemAvusDistinct | omics_ingest/genomics/illumina/bcl.py:57-58 | keys listed once give triples with distinct attributes |
| OmicsBcl.ItemAvusFresh | omics_ingest/genomics/illumina/bcl.py:57-58 | the path carries none of the triples iff no key already holds its value |
| OmicsBcl.ItemAvusValues | omics_ingest/genomics/illumina/bcl.py:57-58 | the triples carry a key's value once, and nothing for a missing key |
| OmicsBcl.ParametersAdded | omics_ingest/genomics/illumina/bcl.py:52-58 | recording parameters raises nothing iff no key already holds its value, and then each key gains its value |
| OmicsBcl.ParametersTwice | omics_ingest/genomics/illumina/bcl.py:52-58 | recording the same parameters twice raises at the first one and keeps the first recording |
| OmicsBcl.AddEach | omics_ingest/genomics/illumina/bcl.py:48-49 | the loop adds the triples in order and stops at the first refused one: its new state and error are `AddSeq`'s |
| OmicsBcl.AddEachOf | omics_ingest/genomics/illumina/bcl.py:57-58 | the loop over `items()` adds the dictionary's triples and stops at the first refused one: its new state and error are `AddSeq`'s |
| OmicsBcl.ApplyRunInfoMetadata | omics_ingest/genomics/illumina/bcl.py:43-49 | the method's new state is `ApplyRunInfo`'s |
| OmicsBcl.ApplyRunParametersMetadata | omics_ingest/genomics/illumina/bcl.py:52-58 | the method's new state is `ApplyRunParameters`'s |
| OmicsBcl.ApplyNetcopyCompleteMetadata | omics_ingest/genomics/illumina/bcl.py:61-66 | the method's new state is `ApplyNetcopy`'s |
| OmicsBcl.PostRunInfoXmlCreateOrUpdate | omics_ingest/genomics/illumina/bcl.py:69-83 | the method's new state is the dispatch specification's |
| OmicsBcl.Dispatch | omics_ingest/genomics/illumina/bcl.py:69-83 | recording changes no checksum, file, collection or object; a missing destination changes nothing; a refused AVU is one the path carried; any other file changes nothing |
| OmicsBcl.RunParametersRecorded | omics_ingest/genomics/illumina/bcl.py:52-58 | an uploaded descriptor raises nothing iff no parameter's value is already on the collection, and then each parameter key gains its value |
| OmicsBcl.OnDataObject | omics_ingest/genomics/illumina/bcl.py:112-124 | the hook's new state is: dispatch, then refresh |
| OmicsBcl.HandlerPreJob | omics_ingest/genomics/illumina/bcl.py:97-101 | `pre_job` is the common `pre_job`, then the common `post_job` with a delay of 300 s |
| OmicsBcl.DataObjectHook | omics_ingest/genomics/illumina/bcl.py:112-124 | the hook creates no collection, object or file, and records no checksum |
| OmicsBcl.PreJob | omics_ingest/genomics/illumina/bcl.py:97-101 | `pre_job` leaves the state the common `pre_job` leaves |
| OmicsBcl.AddedOnly | omics_ingest/genomics/illumina/bcl.py:48-66 | adding triples with distinct attributes, or raising for a missing destination, changes no checksum, file, collection or object |
| OmicsBcl.RunInfoSeenTwice | omics_ingest/genomics/illumina/bcl.py:43-49 | after `RunInfo.xml` was recorded once, seeing it again raises `DuplicateAvu` at its first field and leaves the state of the first event |
| OmicsBcl.RunParametersSeenTwice | omics_ingest/genomics/illumina/bcl.py:52-58 | after a descriptor with parameters was recorded once, seeing it again raises `DuplicateAvu` at its first parameter and leaves the state of the first event |
| OmicsBcl.DataObjectHookOutcome | omics_ingest/genomics/illumina/bcl.py:112-124 | a recording that raises ends the hook with that error; it changed no checksum, file, collection or object, a missing destination changed nothing, and a refused AVU was one the path carried |
| OmicsFastq.OnlyTheMarkerCounts | omics_ingest/genomics/illumina/fastq.py:31-33 | only `DIGESTIFLOW_DEMUX_DONE.txt` in the folder decides; adding or removing other files does not change the answer |
| OmicsFastq.MarkerIsTheSettingsDefault | rodeos_ingest/settings.py:45-48 | the hard-coded marker is the current settings' default |
| OmicsFastq.OnDataObject | omics_ingest/genomics/illumina/fastq.py:54-64 | the hook's new state is: refresh, then `ichksum` |
| OmicsFastq.HandlerPreJob | omics_ingest/genomics/illumina/fastq.py:37-41 | `pre_job` is the common `pre_job`, then the common `post_job` with the marker predicate |
| OmicsFastq.DataObjectHook | omics_ingest/genomics/illumina/fastq.py:54-64 | the hook creates no collection, object or file, and checksums at most the upload |
| OmicsFastq.PreJob | omics_ingest/genomics/illumina/fastq.py:37-41 | `pre_job` leaves the state the common `pre_job` leaves |
| OmicsFastq.DataObjectHookOutcome | omics_ingest/genomics/illumina/fastq.py:54-64 | success iff both the refresh and `ichksum` succeed, and then the upload is checksummed; a failing refresh changes nothing; a failing `ichksum` keeps the refresh |
| OmicsFastq.NoMarkerNoFinalisation | omics_ingest/genomics/illumina/fastq.py:31-41 | a folder without the marker is never finalised and raises nothing |

## Left out

- XML parsing (ElementTree) is not modelled. A parsed `RunInfo.xml` is a `RunInfo` value. A parsed descriptor is the map from each XPath of the table that finds an element to that element's text, always a string (see `RunFolder.Document:` below). `tree.find` returning the first match is not modelled.
- `parse_runinfo_xml`'s `int(...)` of the run number: the run number is already an integer in the model.
- The external commands `find`, `hashdeep`, `iquest`, `ichksum` and `which` are oracles in `Tools`. Hashing and the catalogue query language are not modelled.
- The iRODS session, `cleanuping`, logging and `print` are not modelled. The one exception is the text of the comparison error, which becomes `manifest_message`.
- The clock and `dateutil.parser` are oracles. Timestamps are integers in seconds, and `isoformat` is an oracle. A job reads the clock once (`now`), plus a second reading (`later`) for the older package's `now() - now()`. Within one `pre_job`, every `first_seen` gets the same reading.
- `new_src_folder.parent.mkdir(exist_ok=True)` before the rename is not modelled separately. An `OSError` from it or from the rename is one oracle outcome, and it is only logged.
- Landing.World.Put: the model does not model iRODS refusing to overwrite an existing data object; `put` always replaces the content.
- RunFolder.Document: an element with no text has `elem.text == None` in Python (omics_ingest/genomics/illumina/run_folder.py:92), and `map<string, string>` cannot hold that. For `application`, `application_name` or `run_parameters_version`, `runparameters_to_marker_file` then calls `None.lower()` and raises `AttributeError` (omics_ingest/genomics/illumina/run_folder.py:132-140), which `is_runfolder_done` does not catch (rodeos_ingest/genomics/illumina/bcl.py:91-93, omics_ingest/genomics/illumina/bcl.py:90-91). For any key, the `None` reaches the AVU writes (rodeos_ingest/genomics/illumina/bcl.py:58-59, omics_ingest/genomics/illumina/bcl.py:57-58). The model reads every found element as having text.
- RunFolder.RunInfo: `flowcell`, `instrument` and `date` are `find(...).text` (omics_ingest/genomics/illumina/run_folder.py:45-47), which is `None` for an element without text and raises `AttributeError` for a missing element. The model's fields are always strings.
- RunFolder.ParseNetcopy: only the `IOError` of opening or reading is modelled (`None` content). Bytes that do not decode in the locale's encoding make `readline()` raise `UnicodeDecodeError`, a `ValueError` that the `except IOError` (omics_ingest/genomics/illumina/run_folder.py:123) does not catch, so it propagates out of the handler. The model's content is already decoded text.
- Text.Lower: only ASCII letters are lowercased, not the rest of Unicode.
- Base64.Decode: the decoder is the strict one of section 4 of RFC 4648. Python's `b64decode` without `validate=True` is lenient in two ways the model does not follow: it drops characters outside the alphabet before decoding, and it ignores whatever follows the padding that ends a group. The model rejects both kinds of text.
- Manifest.NormaliseChecksum: because of the strict decoder above, a `sha2:` checksum whose base64 holds stray characters or data after its padding raises in the model, where Python decodes it. The catalogue writes canonical base64, so ingest never sees such text.
- Decimal.ParseInt: only ASCII digits are accepted. Python's `int()` also takes any Unicode decimal digit (category Nd, such as `"٣"` or full-width digits). Single underscores between digits are modelled.
- Paths.Parse: `PurePosixPath` keeps exactly two leading slashes (`"//a"`), and the model reads them as one root. Ingest paths never start that way.
- Requirements.Parse: Python recurses without bound on `-r`, so an include cycle ends in `RecursionError`. The model bounds the depth of inclusion by `fuel` and returns `TooDeep` when it is used up.
- `parse_requirements` opening a file that cannot be read for reasons other than absence: every failure to open is `FileNotFoundError`.
- The module-level code of `setup.py` (reading `README.md`, `HISTORY.md`, calling `setup()`) is I/O.
- `rodeos_ingest/genomics/illumina/run_folder.py` is not part of this model. The real BCL handler imports its parsers from that file (rodeos_ingest/genomics/illumina/bcl.py:21-28). In the model, `RodeosBcl` records the AVUs of the older package's `run_folder.py` (`RunFolder`), with its `omics::ingest::` prefixes; the keys the real handler writes may differ.
- `omics_ingest/genomics/settings.py` is not part of this model. The FASTQ handler's delay is therefore a parameter of `OmicsFastq.PreJob`.
- OmicsCommon.PostJobFolder: everything after the undefined name in `_post_job_run_folder_done` of the older package is unreachable: the manifest, `put`, `ichksum`, the move and `status=complete`. It is therefore not modelled.
- The older package's `post_job` hooks (`omics_ingest/genomics/illumina/bcl.py:103-105`, `omics_ingest/genomics/illumina/fastq.py:43-46`) do nothing. They have no member of their own.
- The existence tests use `pathlib.Path(folder) / name` and the model uses `os.path.join`. They agree for the names involved, which hold no `/`.
- `tests/test_run_folder.py` expects a `scan_number` key for two HiSeq descriptors. No row of the XPath table yields that name; the scanner's identifier goes to `scanner_id`. The model follows the code (`RunFolder.NoScanNumber`).
- The `event_handler` hooks `operation`, `delay` and `max_retries` return constants. They are the constants `HandlerOperation`, `RetryDelay` and `MaxRetries`. How the ingest framework uses them is outside the code shown.
- `omics_ingest/genomics/_illumina.py`, `omics_ingest/genomics/illumina.py`, `omics_ingest/genomics/helpers.py` and the `_check_path.py` modules are library wrappers, and are not modelled.
- Concurrency between ingest workers is not modelled.
