/**
 * The Illumina run-folder descriptors as the ingest code reads them: `RunInfo.xml`
 * and `Netcopy_complete` records turned into AVU triples, the run parameters turned
 * into AVU keys through a fixed table of XPaths, and the classification of the
 * sequencer from its run parameters into the marker files that announce a finished run.
 *
 * XML parsing is not modelled: a parsed `RunParameters.xml` is the map from each XPath
 * of the table that the document contains to the text of the element found there.
 */
module RunFolder {
  import opened Wrappers
  import opened Text
  import opened Decimal

  /** An iRODS attribute-value-unit triple. */
  datatype Avu = Avu(attribute: string, value: string, units: string)

  const RunInfoPrefix := "omics::ingest::run_info"
  const RunParametersPrefix := "omics::ingest::run_parameters"
  const NetcopyPrefix := "omics::ingest::netcopy_complete"

  /** `"{prefix}::{name}"`. */
  function Key(prefix: string, name: string): string {
    prefix + "::" + name
  }

  lemma KeyInjective(prefix: string, a: string, b: string)
    requires Key(prefix, a) == Key(prefix, b)
    ensures a == b
  {
    var n := |prefix| + 2;
    assert a == Key(prefix, a)[n..];
    assert b == Key(prefix, b)[n..];
  }

  /** The value of the first triple carrying `attribute`. */
  function Lookup(avus: seq<Avu>, attribute: string): (r: Option<string>)
    ensures r.Some? <==> exists k :: 0 <= k < |avus| && avus[k].attribute == attribute
    ensures r.Some? ==> exists k :: 0 <= k < |avus| && avus[k] == Avu(attribute, r.value, avus[k].units)
  {
    if avus == [] then None
    else if avus[0].attribute == attribute then Some(avus[0].value)
    else
      var r := Lookup(avus[1..], attribute);
      assert forall k :: 0 <= k < |avus| - 1 ==> avus[1..][k] == avus[k + 1];
      r
  }

  /** The first triple carrying `attribute` decides. */
  lemma {:induction false} LookupFirst(avus: seq<Avu>, k: nat, attribute: string)
    requires k < |avus| && avus[k].attribute == attribute
    requires forall j :: 0 <= j < k ==> avus[j].attribute != attribute
    ensures Lookup(avus, attribute) == Some(avus[k].value)
  {
    if k > 0 {
      LookupFirst(avus[1..], k - 1, attribute);
    }
  }

  lemma KeysDiffer(prefix: string, a: string, b: string)
    requires a != b
    ensures Key(prefix, a) != Key(prefix, b)
  {
    if Key(prefix, a) == Key(prefix, b) {
      KeyInjective(prefix, a, b);
    }
  }

  /** No two triples share an attribute. */
  predicate DistinctAttributes(avus: seq<Avu>) {
    forall i, j :: 0 <= i < j < |avus| ==> avus[i].attribute != avus[j].attribute
  }

  // ---------------------------------------------------------------- RunInfo.xml

  /** What `RunInfo.xml` says about a run. */
  datatype RunInfo = RunInfo(flowcell: string, instrument: string, runNumber: int, runId: string, date: string)

  /** `RunInfo.to_avus()`: one triple per field, in field order, with `str` of the value and no unit. */
  function RunInfoAvus(info: RunInfo): (r: seq<Avu>)
    ensures |r| == 5
    ensures forall k :: 0 <= k < |r| ==> StartsWith(r[k].attribute, RunInfoPrefix + "::") && r[k].units == ""
  {
    [ Avu(Key(RunInfoPrefix, "flowcell"), info.flowcell, ""),
      Avu(Key(RunInfoPrefix, "instrument"), info.instrument, ""),
      Avu(Key(RunInfoPrefix, "run_number"), FormatInt(info.runNumber), ""),
      Avu(Key(RunInfoPrefix, "run_id"), info.runId, ""),
      Avu(Key(RunInfoPrefix, "date"), info.date, "") ]
  }

  /** The five fields of a run's description go under five different keys. */
  lemma RunInfoAvusDistinct(info: RunInfo)
    ensures DistinctAttributes(RunInfoAvus(info))
  {
    var p := RunInfoPrefix;
    KeysDiffer(p, "flowcell", "instrument");
    KeysDiffer(p, "flowcell", "run_number");
    KeysDiffer(p, "flowcell", "run_id");
    KeysDiffer(p, "flowcell", "date");
    KeysDiffer(p, "instrument", "run_number");
    KeysDiffer(p, "instrument", "run_id");
    KeysDiffer(p, "instrument", "date");
    KeysDiffer(p, "run_number", "run_id");
    KeysDiffer(p, "run_number", "date");
    KeysDiffer(p, "run_id", "date");
  }

  /** Reading a run's description back from the AVUs of its collection. */
  function RunInfoOfAvus(avus: seq<Avu>): Option<RunInfo> {
    match (Lookup(avus, Key(RunInfoPrefix, "flowcell")), Lookup(avus, Key(RunInfoPrefix, "instrument")),
           Lookup(avus, Key(RunInfoPrefix, "run_number")), Lookup(avus, Key(RunInfoPrefix, "run_id")),
           Lookup(avus, Key(RunInfoPrefix, "date")))
    case (Some(f), Some(i), Some(n), Some(id), Some(d)) =>
      (match ParseInt(n)
       case Some(number) => Some(RunInfo(f, i, number, id, d))
       case None => None)
    case _ => None
  }

  /** The triples of a run's description carry all of it. */
  lemma RunInfoRoundTrip(info: RunInfo)
    ensures RunInfoOfAvus(RunInfoAvus(info)) == Some(info)
  {
    RunInfoLookups1(info);
    RunInfoLookups2(info);
    RunInfoLookups3(info);
    RunInfoLookups4(info);
    RunInfoLookups5(info);
    ParseFormatInt(info.runNumber);
  }

  /** Each field of a run's description is found under its own key. */
  lemma RunInfoLookups1(info: RunInfo)
    ensures Lookup(RunInfoAvus(info), Key(RunInfoPrefix, "flowcell")) == Some(info.flowcell)
  {
    LookupFirst(RunInfoAvus(info), 0, Key(RunInfoPrefix, "flowcell"));
  }
  lemma RunInfoLookups2(info: RunInfo)
    ensures Lookup(RunInfoAvus(info), Key(RunInfoPrefix, "instrument")) == Some(info.instrument)
  {
    var p := RunInfoPrefix;
    KeysDiffer(p, "flowcell", "instrument");
    LookupFirst(RunInfoAvus(info), 1, Key(p, "instrument"));
  }
  lemma RunInfoLookups3(info: RunInfo)
    ensures Lookup(RunInfoAvus(info), Key(RunInfoPrefix, "run_number")) == Some(FormatInt(info.runNumber))
  {
    var p := RunInfoPrefix;
    KeysDiffer(p, "flowcell", "run_number");
    KeysDiffer(p, "instrument", "run_number");
    LookupFirst(RunInfoAvus(info), 2, Key(p, "run_number"));
  }
  lemma RunInfoLookups4(info: RunInfo)
    ensures Lookup(RunInfoAvus(info), Key(RunInfoPrefix, "run_id")) == Some(info.runId)
  {
    var p := RunInfoPrefix;
    KeysDiffer(p, "flowcell", "run_id");
    KeysDiffer(p, "instrument", "run_id");
    KeysDiffer(p, "run_number", "run_id");
    LookupFirst(RunInfoAvus(info), 3, Key(p, "run_id"));
  }
  lemma RunInfoLookups5(info: RunInfo)
    ensures Lookup(RunInfoAvus(info), Key(RunInfoPrefix, "date")) == Some(info.date)
  {
    var p := RunInfoPrefix;
    KeysDiffer(p, "flowcell", "date");
    KeysDiffer(p, "instrument", "date");
    KeysDiffer(p, "run_number", "date");
    KeysDiffer(p, "run_id", "date");
    LookupFirst(RunInfoAvus(info), 4, Key(p, "date"));
  }

  /** The triples of the run description of the run-info test, with run number 93. */
  lemma RunInfoAvusVector()
    ensures RunInfoAvus(RunInfo("flowcell", "instrument", 93, "run_id", "date")) ==
      [ Avu("omics::ingest::run_info::flowcell", "flowcell", ""),
        Avu("omics::ingest::run_info::instrument", "instrument", ""),
        Avu("omics::ingest::run_info::run_number", "93", ""),
        Avu("omics::ingest::run_info::run_id", "run_id", ""),
        Avu("omics::ingest::run_info::date", "date", "") ]
  {
    assert NatDigits(93) == NatDigits(9) + [DigitChar(3)];
    assert FormatInt(93) == "93";
    assert Key(RunInfoPrefix, "flowcell") == "omics::ingest::run_info::flowcell";
    assert Key(RunInfoPrefix, "instrument") == "omics::ingest::run_info::instrument";
    assert Key(RunInfoPrefix, "run_number") == "omics::ingest::run_info::run_number";
    assert Key(RunInfoPrefix, "run_id") == "omics::ingest::run_info::run_id";
    assert Key(RunInfoPrefix, "date") == "omics::ingest::run_info::date";
  }

  // ---------------------------------------------------------------- Netcopy_complete

  /** What a `*_Netcopy_complete*.txt` file says: three comma-separated fields. */
  datatype NetcopyInfo = NetcopyInfo(date: string, time: string, rtaVersion: string)

  /** `NetcopyInfo.to_avus()`. */
  function NetcopyAvus(info: NetcopyInfo): (r: seq<Avu>)
    ensures |r| == 3
    ensures forall k :: 0 <= k < |r| ==> StartsWith(r[k].attribute, NetcopyPrefix + "::") && r[k].units == ""
  {
    [ Avu(Key(NetcopyPrefix, "date"), info.date, ""),
      Avu(Key(NetcopyPrefix, "time"), info.time, ""),
      Avu(Key(NetcopyPrefix, "rta_version"), info.rtaVersion, "") ]
  }

  /** The three fields of a marker go under three different keys. */
  lemma NetcopyAvusDistinct(info: NetcopyInfo)
    ensures DistinctAttributes(NetcopyAvus(info))
  {
    KeysDiffer(NetcopyPrefix, "date", "time");
    KeysDiffer(NetcopyPrefix, "date", "rta_version");
    KeysDiffer(NetcopyPrefix, "time", "rta_version");
  }

  function NetcopyOfAvus(avus: seq<Avu>): Option<NetcopyInfo> {
    match (Lookup(avus, Key(NetcopyPrefix, "date")), Lookup(avus, Key(NetcopyPrefix, "time")),
           Lookup(avus, Key(NetcopyPrefix, "rta_version")))
    case (Some(d), Some(t), Some(v)) => Some(NetcopyInfo(d, t, v))
    case _ => None
  }

  lemma NetcopyAvusRoundTrip(info: NetcopyInfo)
    ensures NetcopyOfAvus(NetcopyAvus(info)) == Some(info)
  {
    var avus := NetcopyAvus(info);
    KeysDiffer(NetcopyPrefix, "date", "time");
    KeysDiffer(NetcopyPrefix, "date", "rta_version");
    KeysDiffer(NetcopyPrefix, "time", "rta_version");
    LookupFirst(avus, 0, Key(NetcopyPrefix, "date"));
    LookupFirst(avus, 1, Key(NetcopyPrefix, "time"));
    LookupFirst(avus, 2, Key(NetcopyPrefix, "rta_version"));
  }

  /** The characters text mode reads as the end of a line: `"\n"`, and `"\r"` alone or before `"\n"`. */
  predicate IsLineEnd(c: char) {
    c == '\n' || c == '\r'
  }

  /** Where the first line ends: the index of the first line-end character, or the length. */
  function FirstLineEnd(s: string): (i: nat)
    ensures i <= |s|
    ensures forall k :: 0 <= k < i ==> !IsLineEnd(s[k])
    ensures i < |s| ==> IsLineEnd(s[i])
    decreases |s|
  {
    if s == [] || IsLineEnd(s[0]) then 0 else 1 + FirstLineEnd(s[1..])
  }

  /**
   * `inputf.readline()` on a file opened in text mode: the text before the first line end,
   * which reads as `"\n"`, or all of the text when it has none.
   */
  function ReadLine(content: string): (r: string)
    ensures (forall k :: 0 <= k < |content| ==> !IsLineEnd(content[k])) ==> r == content
    ensures (exists k :: 0 <= k < |content| && IsLineEnd(content[k])) ==>
              && 0 < |r| <= |content| && r[|r| - 1] == '\n' && r[..|r| - 1] == content[..|r| - 1]
              && IsLineEnd(content[|r| - 1])
              && forall k :: 0 <= k < |r| - 1 ==> !IsLineEnd(r[k])
  {
    var i := FirstLineEnd(content);
    if i == |content| then content
    else
      var r := content[..i] + "\n";
      assert r[..i] == content[..i];
      assert forall k :: 0 <= k < i ==> r[k] == content[k];
      r
  }

  /**
   * `parse_netcopy_complete_txt`: the file's content, or `None` where opening or reading
   * it raises `IOError`. The file is opened in text mode, so any of the three line ends
   * ends the first line, and the stripped first line must hold exactly two commas.
   */
  function ParseNetcopy(content: Option<string>): (r: Option<NetcopyInfo>)
    ensures content.None? ==> r.None?
    ensures r.Some? ==>
      var line := Strip(ReadLine(content.value));
      line == NetcopyText(r.value) && Count(line, ',') == 2 && NoComma(r.value)
    ensures content.Some? && Count(Strip(ReadLine(content.value)), ',') != 2 ==> r.None?
  {
    match content
    case None => None
    case Some(text) =>
      var line := Strip(ReadLine(text));
      if Count(line, ',') != 2 then None
      else
        var fields := Split(line, ',');
        assert fields == [fields[0], fields[1], fields[2]];
        JoinThree(fields[0], fields[1], fields[2], ",");
        Some(NetcopyInfo(fields[0], fields[1], fields[2]))
  }

  /** The line a Netcopy file starts with. */
  function NetcopyText(info: NetcopyInfo): string {
    info.date + "," + info.time + "," + info.rtaVersion
  }

  predicate NoComma(info: NetcopyInfo) {
    !Contains(info.date, ",") && !Contains(info.time, ",") && !Contains(info.rtaVersion, ",")
  }

  /** The records a Netcopy file can carry: comma-free fields, one line, no surrounding whitespace. */
  predicate NetcopyWritable(info: NetcopyInfo) {
    NoComma(info)
    && !Contains(info.date, "\n") && !Contains(info.time, "\n") && !Contains(info.rtaVersion, "\n")
    && !Contains(info.date, "\r") && !Contains(info.time, "\r") && !Contains(info.rtaVersion, "\r")
    && Stripped(NetcopyText(info))
  }

  /** A record whose fields lack a character other than the comma lacks it too. */
  lemma NetcopyTextLacks(info: NetcopyInfo, c: char)
    requires c != ','
    requires !Contains(info.date, [c]) && !Contains(info.time, [c]) && !Contains(info.rtaVersion, [c])
    ensures !Contains(NetcopyText(info), [c])
  {
    ContainsChar(",", c);
    ConcatLacksChar(info.date, ",", c);
    ConcatLacksChar(info.date + ",", info.time, c);
    ConcatLacksChar(info.date + "," + info.time, ",", c);
    ConcatLacksChar(info.date + "," + info.time + ",", info.rtaVersion, c);
  }

  /** The first line of a file, whichever line end closes it, is the line without its end. */
  lemma FirstLineOf(line: string, end: string, rest: string)
    requires line != [] && Stripped(line) && !Contains(line, "\n") && !Contains(line, "\r")
    requires end == "\n" || end == "\r\n" || end == "\r"
    ensures Strip(ReadLine(line + end + rest)) == line
  {
    var text := line + end + rest;
    ContainsChar(line, '\n');
    ContainsChar(line, '\r');
    assert text[..|line|] == line && IsLineEnd(text[|line|]);
    assert FirstLineEnd(text) == |line|;
    assert ReadLine(text) == line + "\n";
    assert IsSpace('\n');
    StripTrailing(line, "\n");
  }

  /** Splitting a record's text at its commas gives its three fields. */
  lemma NetcopyTextSplit(info: NetcopyInfo)
    requires NoComma(info)
    ensures Count(NetcopyText(info), ',') == 2
    ensures Split(NetcopyText(info), ',') == [info.date, info.time, info.rtaVersion]
  {
    var parts := [info.date, info.time, info.rtaVersion];
    JoinThree(info.date, info.time, info.rtaVersion, ",");
    SplitJoin(parts, ',');
  }

  /**
   * Parsing a file whose first line is a record's text gives back the record, whichever
   * line end closes it and whatever follows.
   */
  lemma NetcopyRoundTrip(info: NetcopyInfo, rest: string)
    requires NetcopyWritable(info)
    ensures ParseNetcopy(Some(NetcopyText(info) + "\n" + rest)) == Some(info)
    ensures ParseNetcopy(Some(NetcopyText(info) + "\r\n" + rest)) == Some(info)
    ensures ParseNetcopy(Some(NetcopyText(info) + "\r" + rest)) == Some(info)
  {
    NetcopyLineEnd(info, "\n", rest);
    NetcopyLineEnd(info, "\r\n", rest);
    NetcopyLineEnd(info, "\r", rest);
  }

  lemma NetcopyLineEnd(info: NetcopyInfo, end: string, rest: string)
    requires NetcopyWritable(info)
    requires end == "\n" || end == "\r\n" || end == "\r"
    ensures ParseNetcopy(Some(NetcopyText(info) + end + rest)) == Some(info)
  {
    NetcopyTextLacks(info, '\n');
    NetcopyTextLacks(info, '\r');
    assert NetcopyText(info) != [];
    FirstLineOf(NetcopyText(info), end, rest);
    NetcopyTextSplit(info);
  }

  /** A text none of whose characters is a comma or a line end can be a Netcopy field. */
  lemma FieldChars(s: string)
    requires forall k :: 0 <= k < |s| ==> s[k] != ',' && !IsLineEnd(s[k])
    ensures !Contains(s, ",") && !Contains(s, "\n") && !Contains(s, "\r")
  {
    ContainsChar(s, ',');
    ContainsChar(s, '\n');
    ContainsChar(s, '\r');
  }

  lemma DateOfVector()
    ensures !Contains("6/3/2020", ",") && !Contains("6/3/2020", "\n") && !Contains("6/3/2020", "\r")
  {
    FieldChars("6/3/2020");
  }

  lemma TimeOfVector()
    ensures !Contains("17:29:14.954", ",") && !Contains("17:29:14.954", "\n") && !Contains("17:29:14.954", "\r")
  {
    FieldChars("17:29:14.954");
  }

  lemma VersionOfVector()
    ensures !Contains("Illumina RTA 1.18.54", ",") && !Contains("Illumina RTA 1.18.54", "\n")
    ensures !Contains("Illumina RTA 1.18.54", "\r")
  {
    FieldChars("Illumina RTA 1.18.54");
  }

  /** The record of the Netcopy test. */
  const MiSeqNetcopy := NetcopyInfo("6/3/2020", "17:29:14.954", "Illumina RTA 1.18.54")

  /** The Netcopy file of the Netcopy test: its one line parses to the test's record. */
  lemma NetcopyVector()
    ensures ParseNetcopy(Some(NetcopyText(MiSeqNetcopy) + "\n")) == Some(MiSeqNetcopy)
  {
    DateOfVector();
    TimeOfVector();
    VersionOfVector();
    NetcopyRoundTrip(MiSeqNetcopy, "");
    assert NetcopyText(MiSeqNetcopy) + "\n" + "" == NetcopyText(MiSeqNetcopy) + "\n";
  }

  /** A first line with a single comma is not a Netcopy record. */
  lemma NetcopyOneComma(a: string, b: string, rest: string)
    requires !Contains(a, ",") && !Contains(b, ",") && !Contains(a, "\n") && !Contains(b, "\n")
    requires !Contains(a, "\r") && !Contains(b, "\r")
    requires Stripped(a + "," + b)
    ensures ParseNetcopy(Some(a + "," + b + "\n" + rest)) == None
  {
    OneCommaLine(a, b);
    FirstLineOf(a + "," + b, "\n", rest);
  }

  lemma OneCommaLine(a: string, b: string)
    requires !Contains(a, ",") && !Contains(b, ",") && !Contains(a, "\n") && !Contains(b, "\n")
    requires !Contains(a, "\r") && !Contains(b, "\r")
    ensures !Contains(a + "," + b, "\n") && !Contains(a + "," + b, "\r") && Count(a + "," + b, ',') == 1
  {
    assert !Contains(a + ",", "\n") && !Contains(a + ",", "\r") by {
      ContainsChar(",", '\n');
      ContainsChar(",", '\r');
      ConcatLacksChar(a, ",", '\n');
      ConcatLacksChar(a, ",", '\r');
    }
    ConcatLacksChar(a + ",", b, '\n');
    ConcatLacksChar(a + ",", b, '\r');
    CountAbsent(a, ','); CountAbsent(b, ',');
    CountAppend(a, ",", ',');
    CountAppend(a + ",", b, ',');
  }

  /** An empty file has no record. */
  lemma NetcopyEmptyFile()
    ensures ParseNetcopy(Some("")) == None
  {
  }

  /** The triples of the Netcopy test. */
  lemma NetcopyAvusVector()
    ensures NetcopyAvus(NetcopyInfo("6/3/2020", "17:29:14.954", "Illumina RTA 1.18.54")) ==
      [ Avu("omics::ingest::netcopy_complete::date", "6/3/2020", ""),
        Avu("omics::ingest::netcopy_complete::time", "17:29:14.954", ""),
        Avu("omics::ingest::netcopy_complete::rta_version", "Illumina RTA 1.18.54", "") ]
  {
    assert Key(NetcopyPrefix, "date") == "omics::ingest::netcopy_complete::date";
    assert Key(NetcopyPrefix, "time") == "omics::ingest::netcopy_complete::time";
    assert Key(NetcopyPrefix, "rta_version") == "omics::ingest::netcopy_complete::rta_version";
  }

  // ---------------------------------------------------------------- RunParameters.xml

  /** The XPaths looked up in `RunParameters.xml`, in table order, with the AVU name each yields. */
  const XPathMap: seq<(string, string)> := [
    (".//Application", "application"),
    (".//ApplicationName", "application_name"),
    (".//Setup/ApplicationName", "application_name"),
    (".//ApplicationVersion", "application_version"),
    (".//RunParametersVersion", "run_parameters_version"),
    (".//FlowcellRFIDTag/SerialNumber", "flowcell_rfid_tag::serial_number"),
    (".//FlowcellRFIDTag/PartNumber", "flowcell_rfid_tag::part_number"),
    (".//FlowcellRFIDTag/ExpirationDate", "flowcell_rfid_tag::expiration_date"),
    (".//PR2BottleRFIDTag/SerialNumber", "pr2_bottle_rfid_tag::serial_number"),
    (".//PR2BottleRFIDTag/PartNumber", "pr2_bottle_rfid_tag::part_number"),
    (".//PR2BottleRFIDTag/ExpirationDate", "pr2_bottle_rfid_tag::expiration_date"),
    (".//ReagentKitRFIDTag/SerialNumber", "reagent_kit_rfid_tag::serial_number"),
    (".//ReagentKitRFIDTag/PartNumber", "reagent_kit_rfid_tag::part_number"),
    (".//ReagentKitRFIDTag/ExpirationDate", "reagent_kit_rfid_tag::expiration_date"),
    (".//RunID", "run_id"),
    (".//ScannerID", "scanner_id"),
    (".//RunNumber", "run_number"),
    (".//FPGAVersion", "fpga_version"),
    (".//MCSVersion", "mcs_version"),
    (".//RTAVersion", "rta_version"),
    (".//Barcode", "barcode"),
    (".//PR2BottleBarcode", "pr2_bottle_barcode"),
    (".//ReagentKitPartNumberEntered", "reagent_kit_part_number_entered"),
    (".//ReagentKitVersion", "reagent_kit_version"),
    (".//ReagentKitBarcode", "regaent_kit_barcode"),
    (".//SampleSheetName", "sample_sheet_name")
  ]

  /** A parsed descriptor: the text of the element each XPath finds; an XPath that finds nothing is absent. */
  type Document = map<string, string>

  /** The keys and values collected from the first `|entries|` rows of the table, later rows overwriting earlier ones. */
  function RunParametersOf(doc: Document, entries: seq<(string, string)>): (r: map<string, string>)
    ensures forall k :: k in r <==> exists j :: 0 <= j < |entries| && entries[j].0 in doc && k == Key(RunParametersPrefix, entries[j].1)
    decreases |entries|
  {
    if entries == [] then map[]
    else
      var init := entries[..|entries| - 1];
      var m := RunParametersOf(doc, init);
      var (xpath, name) := entries[|entries| - 1];
      assert forall j :: 0 <= j < |init| ==> init[j] == entries[j];
      var r := if xpath in doc then m[Key(RunParametersPrefix, name) := doc[xpath]] else m;
      assert forall k :: k in r ==> exists j :: 0 <= j < |entries| && entries[j].0 in doc && k == Key(RunParametersPrefix, entries[j].1) by {
        forall k | k in r
          ensures exists j :: 0 <= j < |entries| && entries[j].0 in doc && k == Key(RunParametersPrefix, entries[j].1)
        {
          if k in m {
            var j :| 0 <= j < |init| && init[j].0 in doc && k == Key(RunParametersPrefix, init[j].1);
            assert entries[j] == init[j];
          } else {
            assert entries[|entries| - 1].0 in doc;
          }
        }
      }
      r
  }

  /**
   * The keys of `RunParametersOf(doc, entries)` in the order the dictionary first receives
   * them, which is the order its `items()` yields them: a later row that yields a key
   * already present changes its value but not its place.
   */
  function RunParametersOrder(doc: Document, entries: seq<(string, string)>): (r: seq<string>)
    ensures forall k :: k in r <==> k in RunParametersOf(doc, entries)
    ensures forall i, j :: 0 <= i < j < |r| ==> r[i] != r[j]
    decreases |entries|
  {
    if entries == [] then []
    else
      var order := RunParametersOrder(doc, entries[..|entries| - 1]);
      var (xpath, name) := entries[|entries| - 1];
      if xpath in doc && Key(RunParametersPrefix, name) !in order then order + [Key(RunParametersPrefix, name)]
      else order
  }

  /** `parse_runparameters_xml` after the XML is parsed: the dictionary and the order of its keys. */
  method ParseRunParameters(doc: Document) returns (result: map<string, string>, order: seq<string>)
    ensures result == RunParametersOf(doc, XPathMap)
    ensures order == RunParametersOrder(doc, XPathMap)
  {
    result := map[];
    order := [];
    var i := 0;
    while i < |XPathMap|
      invariant 0 <= i <= |XPathMap|
      invariant result == RunParametersOf(doc, XPathMap[..i])
      invariant order == RunParametersOrder(doc, XPathMap[..i])
    {
      var (xpath, name) := XPathMap[i];
      RunParametersStep(doc, XPathMap, i);
      if xpath in doc {
        var key := Key(RunParametersPrefix, name);
        if key !in result {
          order := order + [key];
        }
        result := result[key := doc[xpath]];
      }
      i := i + 1;
    }
    assert XPathMap[..i] == XPathMap;
  }

  /** One more row of the table: its XPath, when found, writes its key and, the first time, appends it to the order. */
  lemma RunParametersStep(doc: Document, entries: seq<(string, string)>, i: nat)
    requires i < |entries|
    ensures var key, m, o := Key(RunParametersPrefix, entries[i].1), RunParametersOf(doc, entries[..i]), RunParametersOrder(doc, entries[..i]);
            && RunParametersOf(doc, entries[..i + 1]) == (if entries[i].0 in doc then m[key := doc[entries[i].0]] else m)
            && RunParametersOrder(doc, entries[..i + 1]) == (if entries[i].0 in doc && key !in m then o + [key] else o)
  {
    assert entries[..i + 1][..i] == entries[..i];
  }

  /** A key takes the text of the last found row that yields it. */
  lemma {:induction false} RunParametersLastWins(doc: Document, entries: seq<(string, string)>, j: nat)
    requires j < |entries| && entries[j].0 in doc
    requires forall l :: j < l < |entries| && entries[l].1 == entries[j].1 ==> entries[l].0 !in doc
    ensures Key(RunParametersPrefix, entries[j].1) in RunParametersOf(doc, entries)
    ensures RunParametersOf(doc, entries)[Key(RunParametersPrefix, entries[j].1)] == doc[entries[j].0]
    decreases |entries|
  {
    var init := entries[..|entries| - 1];
    var last := entries[|entries| - 1];
    if j < |entries| - 1 {
      RunParametersLastWins(doc, init, j);
      if last.0 in doc && Key(RunParametersPrefix, last.1) == Key(RunParametersPrefix, entries[j].1) {
        KeyInjective(RunParametersPrefix, last.1, entries[j].1);
      }
    }
  }

  /** Names of the table rows, in order. */
  function Names(entries: seq<(string, string)>): seq<string> {
    seq(|entries|, k requires 0 <= k < |entries| => entries[k].1)
  }

  /** Every name of the table but `application_name` comes from a single row. */
  lemma XPathMapNames()
    ensures forall j, l :: 0 <= j < l < |XPathMap| && XPathMap[j].1 == XPathMap[l].1 ==> j == 1 && l == 2
  {
  }

  /** A name that exactly two rows yield is present iff either row's XPath is found. */
  lemma NameFromTwoRows(doc: Document, entries: seq<(string, string)>, name: string, j1: nat, j2: nat)
    requires j1 < |entries| && j2 < |entries| && entries[j1].1 == name && entries[j2].1 == name
    requires forall j :: 0 <= j < |entries| && entries[j].1 == name ==> j == j1 || j == j2
    ensures Key(RunParametersPrefix, name) in RunParametersOf(doc, entries) <==> entries[j1].0 in doc || entries[j2].0 in doc
  {
    var key := Key(RunParametersPrefix, name);
    if key in RunParametersOf(doc, entries) {
      var j :| 0 <= j < |entries| && entries[j].0 in doc && key == Key(RunParametersPrefix, entries[j].1);
      KeyInjective(RunParametersPrefix, entries[j].1, name);
    }
  }

  lemma ApplicationNameRows()
    ensures XPathMap[1] == (".//ApplicationName", "application_name")
    ensures XPathMap[2] == (".//Setup/ApplicationName", "application_name")
    ensures forall j :: 0 <= j < |XPathMap| && XPathMap[j].1 == "application_name" ==> j == 1 || j == 2
  {
  }

  /** `application_name` is present iff either of its two XPaths is found. */
  lemma ApplicationNamePresent(doc: Document)
    ensures Key(RunParametersPrefix, "application_name") in RunParametersOf(doc, XPathMap) <==>
      ".//ApplicationName" in doc || ".//Setup/ApplicationName" in doc
  {
    ApplicationNameRows();
    NameFromTwoRows(doc, XPathMap, "application_name", 1, 2);
  }

  /** The `application_name` of `Setup/ApplicationName` overrides that of a bare `ApplicationName`. */
  lemma ApplicationNameFromSetup(doc: Document)
    requires ".//Setup/ApplicationName" in doc
    ensures Key(RunParametersPrefix, "application_name") in RunParametersOf(doc, XPathMap)
    ensures RunParametersOf(doc, XPathMap)[Key(RunParametersPrefix, "application_name")] == doc[".//Setup/ApplicationName"]
  {
    XPathMapNames();
    RunParametersLastWins(doc, XPathMap, 2);
  }

  /** Without `Setup/ApplicationName`, `application_name` comes from `ApplicationName`. */
  lemma ApplicationNameFromBare(doc: Document)
    requires ".//Setup/ApplicationName" !in doc && ".//ApplicationName" in doc
    ensures Key(RunParametersPrefix, "application_name") in RunParametersOf(doc, XPathMap)
    ensures RunParametersOf(doc, XPathMap)[Key(RunParametersPrefix, "application_name")] == doc[".//ApplicationName"]
  {
    XPathMapNames();
    RunParametersLastWins(doc, XPathMap, 1);
  }

  /** The run number is read from `RunNumber`; the NextSeq descriptor of the tests says 93. */
  lemma RunNumberFromDocument(doc: Document)
    requires ".//RunNumber" in doc
    ensures Key(RunParametersPrefix, "run_number") in RunParametersOf(doc, XPathMap)
    ensures RunParametersOf(doc, XPathMap)[Key(RunParametersPrefix, "run_number")] == doc[".//RunNumber"]
  {
    XPathMapNames();
    RunParametersLastWins(doc, XPathMap, 16);
  }

  /** A name no row of the table yields has no key. */
  lemma {:induction false} NameNotInTable(doc: Document, entries: seq<(string, string)>, name: string)
    requires forall j :: 0 <= j < |entries| ==> entries[j].1 != name
    ensures Key(RunParametersPrefix, name) !in RunParametersOf(doc, entries)
    decreases |entries|
  {
    if entries != [] {
      var init := entries[..|entries| - 1];
      NameNotInTable(doc, init, name);
      var last := entries[|entries| - 1];
      if Key(RunParametersPrefix, name) == Key(RunParametersPrefix, last.1) {
        KeyInjective(RunParametersPrefix, name, last.1);
      }
    }
  }

  lemma ScanNumberNotInTable()
    ensures forall j :: 0 <= j < |XPathMap| ==> XPathMap[j].1 != "scan_number"
  {
  }

  /** No row yields a `scan_number`: the scanner's identifier is stored as `scanner_id`. */
  lemma NoScanNumber(doc: Document)
    ensures Key(RunParametersPrefix, "scan_number") !in RunParametersOf(doc, XPathMap)
  {
    ScanNumberNotInTable();
    NameNotInTable(doc, XPathMap, "scan_number");
  }

  // ---------------------------------------------------------------- marker files

  const CopyComplete: seq<string> := ["CopyComplete.txt"]
  const RtaComplete: seq<string> := ["RTAComplete.txt"]
  const NetcopyComplete: seq<string> := ["Basecalling_Netcopy_complete.txt", "ImageAnalysis_Netcopy_complete.txt"]

  /** `UnknownInstrumentType` with its message. */
  datatype UnknownInstrumentType = UnknownInstrumentType(message: string)

  const UnknownInstrumentMessage := "Cannot determine instrument type from run parameters XML file: "

  /** Whether the run-parameter value of `name` (empty when missing) contains `word`, ignoring case. */
  predicate Mentions(parameters: map<string, string>, name: string, word: string) {
    var key := Key(RunParametersPrefix, name);
    Contains(Lower(if key in parameters then parameters[key] else ""), word)
  }

  /** `runparameters_to_marker_file`: the files whose presence marks the run as written out. */
  function MarkerFiles(parameters: map<string, string>, path: string): (r: Result<seq<string>, UnknownInstrumentType>)
    ensures r.Ok? ==> r.value == CopyComplete || r.value == RtaComplete || r.value == NetcopyComplete
    ensures r.Err? ==> r.error.message == UnknownInstrumentMessage + path
  {
    if Mentions(parameters, "application", "novaseq") then Ok(CopyComplete)
    else if Mentions(parameters, "application_name", "nextseq") then Ok(RtaComplete)
    else if Mentions(parameters, "application_name", "hiseq") then Ok(RtaComplete)
    else if Mentions(parameters, "run_parameters_version", "miseq") then Ok(NetcopyComplete)
    else if Mentions(parameters, "application_name", "miniseq") then Ok(RtaComplete)
    else Err(UnknownInstrumentType(UnknownInstrumentMessage + path))
  }

  /** Which marker files each outcome stands for, as conditions on the three fields that decide it. */
  lemma MarkerFilesCases(parameters: map<string, string>, path: string)
    ensures MarkerFiles(parameters, path) == Ok(CopyComplete) <==> Mentions(parameters, "application", "novaseq")
    ensures MarkerFiles(parameters, path) == Ok(RtaComplete) <==>
      !Mentions(parameters, "application", "novaseq")
      && (Mentions(parameters, "application_name", "nextseq") || Mentions(parameters, "application_name", "hiseq")
          || (!Mentions(parameters, "run_parameters_version", "miseq") && Mentions(parameters, "application_name", "miniseq")))
    ensures MarkerFiles(parameters, path) == Ok(NetcopyComplete) <==>
      !Mentions(parameters, "application", "novaseq")
      && !Mentions(parameters, "application_name", "nextseq") && !Mentions(parameters, "application_name", "hiseq")
      && Mentions(parameters, "run_parameters_version", "miseq")
    ensures MarkerFiles(parameters, path).Err? <==>
      !Mentions(parameters, "application", "novaseq")
      && !Mentions(parameters, "application_name", "nextseq") && !Mentions(parameters, "application_name", "hiseq")
      && !Mentions(parameters, "run_parameters_version", "miseq") && !Mentions(parameters, "application_name", "miniseq")
  {
    assert CopyComplete != RtaComplete && RtaComplete != NetcopyComplete && CopyComplete != NetcopyComplete;
  }

  /** `p` and `q` agree on the run parameter `name`: both lack it or both hold the same value. */
  predicate SameField(p: map<string, string>, q: map<string, string>, name: string) {
    var key := Key(RunParametersPrefix, name);
    (key in p <==> key in q) && (key in p ==> p[key] == q[key])
  }

  /** Only the three deciding fields matter. */
  lemma MarkerFilesDependOnThreeFields(p: map<string, string>, q: map<string, string>, path: string)
    requires SameField(p, q, "application") && SameField(p, q, "application_name")
    requires SameField(p, q, "run_parameters_version")
    ensures MarkerFiles(p, path) == MarkerFiles(q, path)
  {
    assert Mentions(p, "application", "novaseq") == Mentions(q, "application", "novaseq");
    assert Mentions(p, "application_name", "nextseq") == Mentions(q, "application_name", "nextseq");
    assert Mentions(p, "application_name", "hiseq") == Mentions(q, "application_name", "hiseq");
    assert Mentions(p, "application_name", "miniseq") == Mentions(q, "application_name", "miniseq");
    assert Mentions(p, "run_parameters_version", "miseq") == Mentions(q, "run_parameters_version", "miseq");
  }

  /** The parameters with every value lowercased. */
  function LowerValues(parameters: map<string, string>): (r: map<string, string>)
    ensures r.Keys == parameters.Keys
  {
    map key | key in parameters :: Lower(parameters[key])
  }

  /** The tests are case-insensitive: lowercasing every value changes nothing. */
  lemma MarkerFilesIgnoreCase(parameters: map<string, string>, path: string)
    ensures MarkerFiles(LowerValues(parameters), path) == MarkerFiles(parameters, path)
  {
    forall key | key in parameters
      ensures Lower(LowerValues(parameters)[key]) == Lower(parameters[key])
    {
      LowerIdempotent(parameters[key]);
    }
  }

  /** A value that contains `word` at a known position. */
  lemma MentionsAt(parameters: map<string, string>, name: string, word: string, value: string, lowered: string, i: nat)
    requires Key(RunParametersPrefix, name) in parameters && parameters[Key(RunParametersPrefix, name)] == value
    requires Lower(value) == lowered && OccursAt(lowered, word, i)
    ensures Mentions(parameters, name, word)
  {
    ContainsAt(lowered, word, i);
  }

  /** A NovaSeq descriptor names its control software in `Application`. */
  lemma NovaSeqMarkers()
    ensures MarkerFiles(map[Key(RunParametersPrefix, "application") := "NovaSeq Control Software"], "RunParameters.xml")
      == Ok(CopyComplete)
  {
    var p := map[Key(RunParametersPrefix, "application") := "NovaSeq Control Software"];
    LowerNovaSeq();
    MentionsAt(p, "application", "novaseq", "NovaSeq Control Software", "novaseq control software", 0);
  }

  /** A HiSeq descriptor names its control software in `ApplicationName`. */
  lemma HiSeqMarkers()
    ensures MarkerFiles(map[Key(RunParametersPrefix, "application_name") := "HiSeq Control Software"], "runParameters.xml")
      == Ok(RtaComplete)
  {
    var p := map[Key(RunParametersPrefix, "application_name") := "HiSeq Control Software"];
    assert Key(RunParametersPrefix, "application") !in p;
    assert !Contains("", "novaseq");
    LowerHiSeq();
    MentionsAt(p, "application_name", "hiseq", "HiSeq Control Software", "hiseq control software", 0);
  }

  /** A NextSeq descriptor names its control software in `ApplicationName`. */
  lemma NextSeqMarkers()
    ensures MarkerFiles(map[Key(RunParametersPrefix, "application_name") := "NextSeq Control Software"], "RunParameters.xml")
      == Ok(RtaComplete)
  {
    var p := map[Key(RunParametersPrefix, "application_name") := "NextSeq Control Software"];
    KeysDiffer(RunParametersPrefix, "application", "application_name");
    assert !Contains("", "novaseq");
    LowerNextSeq();
    MentionsAt(p, "application_name", "nextseq", "NextSeq Control Software", "nextseq control software", 0);
  }

  /** A MiSeq descriptor is recognised by its `RunParametersVersion`. */
  lemma MiSeqMarkers()
    ensures MarkerFiles(map[Key(RunParametersPrefix, "run_parameters_version") := "MiSeq_1_1"], "runParameters.xml")
      == Ok(NetcopyComplete)
  {
    var p := map[Key(RunParametersPrefix, "run_parameters_version") := "MiSeq_1_1"];
    KeysDiffer(RunParametersPrefix, "application", "run_parameters_version");
    KeysDiffer(RunParametersPrefix, "application_name", "run_parameters_version");
    assert !Contains("", "novaseq") && !Contains("", "nextseq") && !Contains("", "hiseq");
    LowerMiSeq();
    MentionsAt(p, "run_parameters_version", "miseq", "MiSeq_1_1", "miseq_1_1", 0);
  }

  lemma MiniSeqIsNeither(lowered: string)
    requires lowered == "miniseq control software"
    ensures !Contains(lowered, "nextseq") && !Contains(lowered, "hiseq")
  {
    ContainsChar(lowered, 'x');
    LacksCharOf(lowered, "nextseq", 2);
    ContainsChar(lowered, 'h');
    LacksCharOf(lowered, "hiseq", 0);
  }

  lemma LowerNovaSeq()
    ensures Lower("NovaSeq Control Software") == "novaseq control software"
  {
  }

  lemma LowerHiSeq()
    ensures Lower("HiSeq Control Software") == "hiseq control software"
  {
  }

  lemma LowerNextSeq()
    ensures Lower("NextSeq Control Software") == "nextseq control software"
  {
  }

  lemma LowerMiSeq()
    ensures Lower("MiSeq_1_1") == "miseq_1_1"
  {
  }

  lemma LowerMiniSeq()
    ensures Lower("MiniSeq Control Software") == "miniseq control software"
  {
  }

  /** A MiniSeq descriptor names its control software in `ApplicationName`, which matches neither NextSeq nor HiSeq. */
  lemma MiniSeqMarkers(p: map<string, string>)
    requires p == map[Key(RunParametersPrefix, "application_name") := "MiniSeq Control Software"]
    ensures MarkerFiles(p, "RunParameters.xml") == Ok(RtaComplete)
  {
    KeysDiffer(RunParametersPrefix, "application", "application_name");
    KeysDiffer(RunParametersPrefix, "run_parameters_version", "application_name");
    assert !Contains("", "novaseq") && !Contains("", "miseq");
    assert !Mentions(p, "application", "novaseq");
    assert !Mentions(p, "run_parameters_version", "miseq");
    var lowered := Lower(p[Key(RunParametersPrefix, "application_name")]);
    LowerMiniSeq();
    MiniSeqIsNeither(lowered);
    assert !Mentions(p, "application_name", "nextseq");
    assert !Mentions(p, "application_name", "hiseq");
    MentionsAt(p, "application_name", "miniseq", "MiniSeq Control Software", lowered, 0);
  }
}
