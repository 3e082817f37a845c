/**
 * Configuration read from the environment when the packages load. Every setting is
 * named after its environment variable and falls back to a default when the variable
 * is unset; integers go through `int(...)`, booleans are true for `1`, `true` and `yes`
 * in any letter case.
 */
module Settings {
  import opened Wrappers
  import opened Text
  import opened Decimal

  /** The process environment. */
  type Env = map<string, string>

  /** The `ValueError` that `int(...)` raises while the settings module loads. */
  datatype SettingsError = NotAnInteger(variable: string, value: string)

  const DelayVariable := "RODEOS_DELAY_UNTIL_AT_REST_SECONDS"
  const ThreadsVariable := "RODEOS_HASHDEEP_THREADS"
  const AlgoVariable := "RODEOS_HASHDEEP_ALGO"
  const LookVariable := "RODEOS_LOOK_FOR_EXECUTABLES"
  const MoveVariable := "RODEOS_MOVE_AFTER_INGEST"
  const ManifestLocalVariable := "RODEOS_MANIFEST_LOCAL"
  const ManifestIrodsVariable := "RODEOS_MANIFEST_IRODS"
  const FastqMarkerVariable := "RODEOS_ILLUMINA_FASTQ_DONE_MARKER_FILE"

  /** The strings that count as true once lowercased. */
  const Truthy: seq<string> := ["1", "true", "yes"]

  /** The settings of the current package. */
  datatype RodeosSettings = RodeosSettings(
    delayUntilAtRestSeconds: int,
    hashdeepThreads: int,
    hashdeepAlgo: string,
    lookForExecutables: bool,
    moveAfterIngest: bool,
    manifestLocal: string,
    manifestIrods: string,
    fastqDoneMarkerFile: string)

  /** The settings of the older package: a subset under the same variable names. */
  datatype OmicsSettings = OmicsSettings(
    delayUntilAtRestSeconds: int,
    hashdeepThreads: int,
    hashdeepAlgo: string,
    lookForExecutables: bool)

  /** `os.environ.get(variable, default)`. */
  function Get(env: Env, variable: string, default: string): (r: string)
    ensures variable !in env ==> r == default
    ensures variable in env ==> r == env[variable]
  {
    if variable in env then env[variable] else default
  }

  /** `os.environ.get(variable, default).lower() in _TRUTHY`. */
  predicate BoolSetting(env: Env, variable: string, default: string): (b: bool)
    ensures Get(env, variable, default) in Truthy ==> b
    ensures b ==> |Get(env, variable, default)| in {1, 3, 4}
  {
    var value := Get(env, variable, default);
    assert Lower("1") == "1" && Lower("true") == "true" && Lower("yes") == "yes";
    Lower(value) in Truthy
  }

  /** `int(os.environ.get(variable, default))`. */
  function IntSetting(env: Env, variable: string, default: string): (r: Result<int, SettingsError>)
    ensures r.Ok? <==> ParseInt(Get(env, variable, default)).Some?
    ensures r.Ok? ==> r.value == ParseInt(Get(env, variable, default)).value
    ensures r.Err? ==> r.error == NotAnInteger(variable, Get(env, variable, default))
  {
    var value := Get(env, variable, default);
    match ParseInt(value)
    case None => Err(NotAnInteger(variable, value))
    case Some(n) => Ok(n)
  }

  /** Loading `rodeos_ingest.settings`: the first integer that does not parse stops the import. */
  function LoadRodeos(env: Env): (r: Result<RodeosSettings, SettingsError>)
    ensures var delay, threads := Get(env, DelayVariable, FormatInt(5 * 60)), Get(env, ThreadsVariable, "8");
            && (r.Ok? <==> ParseInt(delay).Some? && ParseInt(threads).Some?)
            && (r.Err? && ParseInt(delay).None? ==> r.error == NotAnInteger(DelayVariable, delay))
            && (r.Err? && ParseInt(delay).Some? ==> r.error == NotAnInteger(ThreadsVariable, threads))
            && (r.Ok? ==> r.value.delayUntilAtRestSeconds == ParseInt(delay).value
                          && r.value.hashdeepThreads == ParseInt(threads).value)
    ensures r.Ok? ==> r.value.hashdeepAlgo == Get(env, AlgoVariable, "md5")
                      && r.value.lookForExecutables == BoolSetting(env, LookVariable, "true")
    ensures r.Ok? ==> r.value.moveAfterIngest == BoolSetting(env, MoveVariable, "true")
                      && r.value.manifestLocal == Get(env, ManifestLocalVariable, "_MANIFEST_LOCAL.txt")
                      && r.value.manifestIrods == Get(env, ManifestIrodsVariable, "_MANIFEST_IRODS.txt")
                      && r.value.fastqDoneMarkerFile == Get(env, FastqMarkerVariable, "DIGESTIFLOW_DEMUX_DONE.txt")
  {
    match IntSetting(env, DelayVariable, FormatInt(5 * 60))
    case Err(e) => Err(e)
    case Ok(delay) =>
      match IntSetting(env, ThreadsVariable, "8")
      case Err(e) => Err(e)
      case Ok(threads) =>
        Ok(RodeosSettings(
          delay,
          threads,
          Get(env, AlgoVariable, "md5"),
          BoolSetting(env, LookVariable, "true"),
          BoolSetting(env, MoveVariable, "true"),
          Get(env, ManifestLocalVariable, "_MANIFEST_LOCAL.txt"),
          Get(env, ManifestIrodsVariable, "_MANIFEST_IRODS.txt"),
          Get(env, FastqMarkerVariable, "DIGESTIFLOW_DEMUX_DONE.txt")))
  }

  /** Loading `omics_ingest.settings`. */
  function LoadOmics(env: Env): (r: Result<OmicsSettings, SettingsError>)
    ensures var delay, threads := Get(env, DelayVariable, FormatInt(5 * 60)), Get(env, ThreadsVariable, "8");
            && (r.Ok? <==> ParseInt(delay).Some? && ParseInt(threads).Some?)
            && (r.Err? && ParseInt(delay).None? ==> r.error == NotAnInteger(DelayVariable, delay))
            && (r.Err? && ParseInt(delay).Some? ==> r.error == NotAnInteger(ThreadsVariable, threads))
            && (r.Ok? ==> r.value.delayUntilAtRestSeconds == ParseInt(delay).value
                          && r.value.hashdeepThreads == ParseInt(threads).value)
    ensures r.Ok? ==> r.value.hashdeepAlgo == Get(env, AlgoVariable, "md5")
                      && r.value.lookForExecutables == BoolSetting(env, LookVariable, "true")
  {
    match IntSetting(env, DelayVariable, FormatInt(5 * 60))
    case Err(e) => Err(e)
    case Ok(delay) =>
      match IntSetting(env, ThreadsVariable, "8")
      case Err(e) => Err(e)
      case Ok(threads) =>
        Ok(OmicsSettings(delay, threads, Get(env, AlgoVariable, "md5"), BoolSetting(env, LookVariable, "true")))
  }

  /** A boolean setting does not depend on letter case. */
  lemma BoolSettingIgnoresCase(env: Env, variable: string, default: string)
    ensures BoolSetting(env, variable, default) == BoolSetting(env[variable := Lower(Get(env, variable, default))], variable, default)
  {
    LowerIdempotent(Get(env, variable, default));
  }

  /** Some spellings of true and false. */
  lemma TruthyExamples()
    ensures BoolSetting(map[MoveVariable := "TRUE"], MoveVariable, "true")
    ensures BoolSetting(map[MoveVariable := "Yes"], MoveVariable, "true")
    ensures BoolSetting(map[MoveVariable := "1"], MoveVariable, "true")
    ensures !BoolSetting(map[MoveVariable := "0"], MoveVariable, "true")
    ensures !BoolSetting(map[MoveVariable := "false"], MoveVariable, "true")
    ensures !BoolSetting(map[MoveVariable := ""], MoveVariable, "true")
  {
    assert Lower("TRUE") == "true";
    assert Lower("Yes") == "yes";
    assert Lower("1") == "1";
    assert Lower("0") == "0";
    assert Lower("false") == "false";
  }

  /** An integer setting set to the text of a number reads back as that number. */
  lemma IntSettingRoundTrip(env: Env, variable: string, default: string, n: int)
    ensures IntSetting(env[variable := FormatInt(n)], variable, default) == Ok(n)
  {
    ParseFormatInt(n);
  }

  lemma DefaultThreads()
    ensures ParseInt("8") == Some(8)
  {
    ParseFormatInt(8);
    assert FormatInt(8) == "8";
  }

  /** With nothing set, every setting takes its documented default. */
  lemma RodeosDefaults()
    ensures LoadRodeos(map[]) == Ok(RodeosSettings(300, 8, "md5", true, true,
                                                   "_MANIFEST_LOCAL.txt", "_MANIFEST_IRODS.txt",
                                                   "DIGESTIFLOW_DEMUX_DONE.txt"))
  {
    DefaultIntegers(map[]);
    DefaultTrue(map[], LookVariable);
    DefaultTrue(map[], MoveVariable);
  }

  lemma DefaultTrue(env: Env, variable: string)
    requires variable !in env
    ensures BoolSetting(env, variable, "true")
  {
    assert Lower("true") == "true";
  }

  lemma DefaultIntegers(env: Env)
    requires DelayVariable !in env && ThreadsVariable !in env
    ensures IntSetting(env, DelayVariable, FormatInt(5 * 60)) == Ok(300)
    ensures IntSetting(env, ThreadsVariable, "8") == Ok(8)
  {
    ParseFormatInt(300);
    DefaultThreads();
  }

  /** The older package reads the settings it shares with the current one in the same way. */
  lemma OmicsAgreesWithRodeos(env: Env)
    ensures LoadOmics(env).Ok? <==> LoadRodeos(env).Ok?
    ensures LoadOmics(env).Err? ==> LoadOmics(env).error == LoadRodeos(env).error
    ensures LoadOmics(env).Ok? ==>
      var o, r := LoadOmics(env).value, LoadRodeos(env).value;
      o.delayUntilAtRestSeconds == r.delayUntilAtRestSeconds && o.hashdeepThreads == r.hashdeepThreads
      && o.hashdeepAlgo == r.hashdeepAlgo && o.lookForExecutables == r.lookForExecutables
  {
    match IntSetting(env, DelayVariable, FormatInt(5 * 60))
    case Err(e) =>
    case Ok(delay) =>
      match IntSetting(env, ThreadsVariable, "8")
      case Err(e) =>
      case Ok(threads) =>
  }

  /** The environment of the settings test: only the delay set, to `"1"`. */
  lemma OmicsSettingsTestVector()
    ensures LoadOmics(map[DelayVariable := "1"]) == Ok(OmicsSettings(1, 8, "md5", true))
  {
    OnlyDelaySet(map[DelayVariable := "1"]);
  }

  lemma OnlyDelaySet(env: Env)
    requires env == map[DelayVariable := "1"]
    ensures LoadOmics(env) == Ok(OmicsSettings(1, 8, "md5", true))
  {
    DelayOfVector(env);
    ThreadsOfVector(env);
    DefaultsOfVector(env);
  }

  lemma DefaultsOfVector(env: Env)
    requires env == map[DelayVariable := "1"]
    ensures Get(env, AlgoVariable, "md5") == "md5" && BoolSetting(env, LookVariable, "true")
  {
    assert AlgoVariable != DelayVariable && LookVariable != DelayVariable;
    DefaultTrue(env, LookVariable);
  }

  lemma DelayOfVector(env: Env)
    requires env == map[DelayVariable := "1"]
    ensures ParseInt(Get(env, DelayVariable, FormatInt(5 * 60))) == Some(1)
  {
    assert Get(env, DelayVariable, FormatInt(5 * 60)) == "1";
    ParseIntOne();
  }

  lemma ThreadsOfVector(env: Env)
    requires env == map[DelayVariable := "1"]
    ensures ParseInt(Get(env, ThreadsVariable, "8")) == Some(8)
  {
    assert ThreadsVariable != DelayVariable;
    DefaultThreads();
  }
}
