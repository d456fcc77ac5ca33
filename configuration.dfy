/** The command-line and parameter-file configuration of elastix and
    transformix (`elastix::MyConfiguration`): it keeps the command-line
    argument map, decides from `-p` / `-tp` which program is running and
    which parameter file to read, and records whether that succeeded. */
module Configuration {
  import opened CStrings
  import opened ArgumentMaps

  datatype Option<+T> = None | Some(value: T)

  /** What the parameter-file reader reports for a file name: reading failed,
      or it succeeded and the file's `Silent` entry is the one given
      (`None` when the file has no usable `Silent` entry). */
  datatype ReadResult = ReadFailed | ReadOk(silentEntry: Option<bool>)

  /** The outcome of the `-p` / `-tp` decision in Initialize. */
  datatype Selection =
    | Selected(fileName: string)
    | NoParameterFile
    | BothParameterFiles

  /** The fields of a configuration object. */
  datatype Config = Config(
    argumentMap: ArgumentMap,
    parameterFileName: string,
    initialized: bool,
    elastixLevel: nat,
    silent: bool)

  /** The new fields and the return code of one call to Initialize. */
  datatype InitOutcome = InitOutcome(config: Config, code: int)

  /** The command-line keys that name the parameter file. */
  const ElastixKey: string := "-p"
  const TransformixKey: string := "-tp"

  /** The `-p` / `-tp` decision on the two looked-up values: exactly one of
      them must be non-empty, and that one names the parameter file. */
  function SelectParameterFile(p: string, tp: string): (s: Selection)
    ensures s.Selected? <==> (p == "" <==> tp != "")
    ensures s.Selected? ==> s.fileName != "" && s.fileName in {p, tp}
    ensures s.Selected? ==> s.fileName == if p != "" then p else tp
    ensures s == NoParameterFile <==> p == "" && tp == ""
    ensures s == BothParameterFiles <==> p != "" && tp != ""
  {
    if p != "" && tp == "" then Selected(p)
    else if p == "" && tp != "" then Selected(tp)
    else if p == "" && tp == "" then NoParameterFile
    else BothParameterFiles
  }

  /** The `Silent` setting after reading the parameter file: the entry found,
      or the default `false`. */
  function SilentSetting(entry: Option<bool>): (b: bool)
    ensures entry.Some? ==> b == entry.value
    ensures entry.None? ==> !b
  {
    match entry
    case Some(b) => b
    case None => false
  }

  /** Specification of Initialize: the fields and return code it produces
      from the old fields `c`, the new argument map `arg` and the reports of
      the parameter-file reader `read`. */
  function InitializeStep(c: Config, arg: ArgumentMap, read: string -> ReadResult): (o: InitOutcome)
    ensures o.config.argumentMap == arg
    ensures o.config.elastixLevel == c.elastixLevel
    ensures var s := SelectParameterFile(Lookup(arg, ElastixKey), Lookup(arg, TransformixKey));
      if s.Selected? then o.config.parameterFileName == s.fileName
      else o.config.parameterFileName == c.parameterFileName
    ensures o.code == 0 || o.code == 1
    ensures o.code == 0 <==>
      SelectParameterFile(Lookup(arg, ElastixKey), Lookup(arg, TransformixKey)).Selected?
      && read(o.config.parameterFileName).ReadOk?
    ensures o.code == 0 ==>
      o.config.initialized && o.config.silent == SilentSetting(read(o.config.parameterFileName).silentEntry)
    ensures o.code == 1 ==> o.config.initialized == c.initialized && o.config.silent == c.silent
  {
    var c1 := c.(argumentMap := arg);
    match SelectParameterFile(Lookup(arg, ElastixKey), Lookup(arg, TransformixKey))
    case NoParameterFile => InitOutcome(c1, 1)
    case BothParameterFiles => InitOutcome(c1, 1)
    case Selected(name) =>
      var c2 := c1.(parameterFileName := name);
      match read(name)
      case ReadFailed => InitOutcome(c2, 1)
      case ReadOk(entry) => InitOutcome(c2.(initialized := true, silent := SilentSetting(entry)), 0)
  }

  /** Only `-p` given: elastix is running and `-p` names the parameter file. */
  lemma InitializeElastix(c: Config, arg: ArgumentMap, read: string -> ReadResult)
    requires Lookup(arg, ElastixKey) != "" && Lookup(arg, TransformixKey) == ""
    ensures InitializeStep(c, arg, read).config.parameterFileName == Lookup(arg, ElastixKey)
  {
  }

  /** Only `-tp` given: transformix is running and `-tp` names the parameter file. */
  lemma InitializeTransformix(c: Config, arg: ArgumentMap, read: string -> ReadResult)
    requires Lookup(arg, ElastixKey) == "" && Lookup(arg, TransformixKey) != ""
    ensures InitializeStep(c, arg, read).config.parameterFileName == Lookup(arg, TransformixKey)
  {
  }

  /** Neither or both of `-p` and `-tp` given: Initialize fails and changes
      nothing but the argument map. */
  lemma InitializeRejectsSelection(c: Config, arg: ArgumentMap, read: string -> ReadResult)
    requires (Lookup(arg, ElastixKey) == "") == (Lookup(arg, TransformixKey) == "")
    ensures InitializeStep(c, arg, read) == InitOutcome(c.(argumentMap := arg), 1)
  {
  }

  /** The parameter file cannot be read: Initialize fails, keeps the chosen
      file name and leaves the initialised and silent flags as they were. */
  lemma InitializeReadFailure(c: Config, arg: ArgumentMap, read: string -> ReadResult)
    requires SelectParameterFile(Lookup(arg, ElastixKey), Lookup(arg, TransformixKey)).Selected?
    requires read(SelectParameterFile(Lookup(arg, ElastixKey), Lookup(arg, TransformixKey)).fileName).ReadFailed?
    ensures InitializeStep(c, arg, read) == InitOutcome(c.(argumentMap := arg,
      parameterFileName := SelectParameterFile(Lookup(arg, ElastixKey), Lookup(arg, TransformixKey)).fileName), 1)
  {
  }

  /** Initialize sees the argument map only through the looked-up values of
      `-p` and `-tp`: two maps that agree on those give the same outcome
      apart from the stored map itself. */
  lemma InitializeDependsOnSelection(c: Config, arg1: ArgumentMap, arg2: ArgumentMap, read: string -> ReadResult)
    requires Lookup(arg1, ElastixKey) == Lookup(arg2, ElastixKey)
    requires Lookup(arg1, TransformixKey) == Lookup(arg2, TransformixKey)
    ensures InitializeStep(c, arg1, read).code == InitializeStep(c, arg2, read).code
    ensures InitializeStep(c, arg1, read).config.(argumentMap := arg2) == InitializeStep(c, arg2, read).config
  {
  }

  /** A `-p` or `-tp` argument whose value is empty (or starts with a NUL)
      is treated exactly like a missing one. */
  lemma EmptyArgumentLikeMissing(c: Config, arg: ArgumentMap, key: string, value: string, read: string -> ReadResult)
    requires key == ElastixKey || key == TransformixKey
    requires value == "" || value[0] == '\0'
    ensures InitializeStep(c, arg[key := value], read).code == InitializeStep(c, arg - {key}, read).code
    ensures InitializeStep(c, arg[key := value], read).config.(argumentMap := arg - {key})
         == InitializeStep(c, arg - {key}, read).config
  {
  }

  /** A configuration object; Initialize and SetCommandLineArgument update its
      fields in place. */
  class MyConfiguration {
    var argumentMap: ArgumentMap
    var parameterFileName: string
    var initialized: bool
    var elastixLevel: nat
    var silent: bool

    /** The current fields as a value. */
    function State(): Config
      reads this
    {
      Config(argumentMap, parameterFileName, initialized, elastixLevel, silent)
    }

    /** A new configuration: no arguments, no parameter file, not
        initialised, elastix level 0, not silent. */
    constructor ()
      ensures State() == Config(map[], "", false, 0, false)
    {
      argumentMap := map[];
      parameterFileName := "";
      initialized := false;
      elastixLevel := 0;
      silent := false;
    }

    /** Whether the parameter file has been read successfully. */
    function Initialized(): (b: bool)
      reads this
      ensures b == State().initialized
    {
      initialized
    }

    /** The value given for `key` on the command line, as a C string, or the
        empty string when `key` was not given. */
    function GetCommandLineArgument(key: string): (r: string)
      reads this
      ensures '\0' !in r
      ensures r != "" ==> CString(key) in argumentMap
      ensures CString(key) !in argumentMap ==> r == ""
      ensures CString(key) in argumentMap ==> r == CString(argumentMap[CString(key)])
      ensures CString(key) in argumentMap && '\0' !in argumentMap[CString(key)] ==>
        r == argumentMap[CString(key)]
    {
      Lookup(argumentMap, CString(key))
    }

    /** Removes every entry for `key` and stores exactly one entry mapping
        it to `value`. */
    method SetCommandLineArgument(key: string, value: string)
      modifies this
      ensures argumentMap == Replace(old(argumentMap), CString(key), CString(value))
      ensures GetCommandLineArgument(key) == CString(value)
      ensures forall k :: CString(k) != CString(key) ==>
        GetCommandLineArgument(k) == old(GetCommandLineArgument(k))
      ensures parameterFileName == old(parameterFileName) && initialized == old(initialized)
      ensures elastixLevel == old(elastixLevel) && silent == old(silent)
    {
      argumentMap := Erase(argumentMap, CString(key));
      argumentMap := Insert(argumentMap, CString(key), CString(value));
      CStringIdempotent(value);
      forall k | CString(k) != CString(key)
        ensures GetCommandLineArgument(k) == old(GetCommandLineArgument(k))
      {
        LookupAfterReplace(old(argumentMap), CString(key), CString(value), CString(k));
      }
    }

    /** Installs the argument map `arg`, picks the parameter file from `-p`
        or `-tp`, and reads it with `read`; returns 0 on success and 1 on
        any error. */
    method Initialize(arg: ArgumentMap, read: string -> ReadResult) returns (code: int)
      modifies this
      ensures State() == InitializeStep(old(State()), arg, read).config
      ensures code == InitializeStep(old(State()), arg, read).code
    {
      argumentMap := arg;
      CStringIdentity(ElastixKey);
      CStringIdentity(TransformixKey);
      var p := GetCommandLineArgument(ElastixKey);
      var tp := GetCommandLineArgument(TransformixKey);
      if p != "" && tp == "" {
        parameterFileName := p;
      } else if p == "" && tp != "" {
        parameterFileName := tp;
      } else if p == "" && tp == "" {
        return 1;
      } else {
        return 1;
      }
      if read(parameterFileName).ReadFailed? {
        return 1;
      }
      initialized := true;
      var silence := false;
      match read(parameterFileName).silentEntry {
        case Some(b) => silence := b;
        case None =>
      }
      silent := silence;
      return 0;
    }
  }
}
