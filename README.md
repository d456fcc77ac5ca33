# elastix configuration: command-line arguments and parameter-file selection

This project models `elastix::MyConfiguration`, the object through which
elastix and transformix hold their command-line arguments and find their
parameter file. The configuration keeps a map from argument keys to values.
`GetCommandLineArgument` reads a value back, or the empty string for a key
that was not given. `SetCommandLineArgument` replaces the entry for one key.
`Initialize` installs a new argument map and decides from `-p` (elastix) and
`-tp` (transformix) which parameter file to read. Exactly one of the two must
be non-empty. It returns 0 when the file was read and 1 on any error, and it
sets the initialised flag and the `Silent` setting only on success.

Layout:

- `cstrings.dfy` (module `CStrings`): what a `const char *` carries, which is
  the characters before the first NUL. `GetCommandLineArgument` returns
  `c_str()` of the stored value, and `SetCommandLineArgument` takes its key
  and value as `const char *`, so both pass through this view.
- `argument_maps.dfy` (module `ArgumentMaps`): the argument map as a map
  from key strings to value strings. The lookup `m_ArgumentMap[key]` in
  elxMyConfiguration.cxx:184 rules out a multimap, so each key has at most one
  entry, whatever the comment at line 196 ("all (!) entries") suggests. The
  module holds `erase`, and `insert`, which keeps an existing entry. It also
  holds their composition `Replace` and the lookup used by the configuration.
- `configuration.dfy` (module `Configuration`): the `-p`/`-tp` decision
  (`SelectParameterFile`) and the specification of `Initialize` as a function
  on the configuration's fields (`InitializeStep`). It also holds the lemmas
  about both, and the class `MyConfiguration`, whose fields the methods update
  in place. The methods are proved against these functions.

Foreign calls become parameters. The parameter-file reader
(`m_ParameterFile.Initialize`) and the `ReadParameter` call for `Silent`
become one argument, `read: string -> ReadResult`. It gives, for the chosen
file name, either a read failure (the exception that is caught) or success
together with the file's `Silent` entry, if it has one.

## Model

| member | source | states |
|---|---|---|
| `CStrings.CString` | src/Core/Configuration/elxMyConfiguration.cxx:175-187 | the string a `const char *` result carries is the longest NUL-free prefix of the stored value, stopped by the end or by a NUL |
| `CStrings.CStringUnique` | src/Core/Configuration/elxMyConfiguration.cxx:175-187 | those three properties determine the C-string view uniquely |
| `CStrings.CStringIdentity` | src/Core/Configuration/elxMyConfiguration.cxx:184 | a value comes back unchanged through `c_str()` exactly when it holds no NUL |
| `CStrings.CStringIdempotent` | src/Core/Configuration/elxMyConfiguration.cxx:194-200 | a value already read as a C string is not changed by being read again |
| `CStrings.CStringEmpty` | src/Core/Configuration/elxMyConfiguration.cxx:105-108 | a value reads as `""` exactly when it is empty or starts with NUL |
| `ArgumentMaps.Erase` | src/Core/Configuration/elxMyConfiguration.cxx:199 | erase removes the key and keeps every other entry |
| `ArgumentMaps.Insert` | src/Core/Configuration/elxMyConfiguration.cxx:200 | `std::map::insert` adds the key and keeps an entry already stored for it; other entries are unchanged |
| `ArgumentMaps.Replace` | src/Core/Configuration/elxMyConfiguration.cxx:199-200 | erase then insert: afterwards the key holds the new value, other entries are unchanged and no other key appears |
| `ArgumentMaps.ReplaceSize` | src/Core/Configuration/elxMyConfiguration.cxx:196-200 | exactly one entry exists for the key afterwards: the map grows by one for a new key and keeps its size otherwise |
| `ArgumentMaps.InsertKeepsExisting` | src/Core/Configuration/elxMyConfiguration.cxx:196-200 | insert on its own leaves an existing key's value alone, which is why the erase comes first |
| `ArgumentMaps.LookupAfterReplace` | src/Core/Configuration/elxMyConfiguration.cxx:175-202 | after setting a key, looking it up gives the new value's C string, and every other key gives what it gave before |
| `ArgumentMaps.LookupEmptyLikeMissing` | src/Core/Configuration/elxMyConfiguration.cxx:178-185 | a key stored with an empty (or NUL-led) value looks up as `""`, the same as an absent key |
| `ArgumentMaps.Lookup` | src/Core/Configuration/elxMyConfiguration.cxx:178-185 | the looked-up value is NUL-free; `""` for an absent key; the C string of the stored value for a present one |
| `Configuration.SilentSetting` | src/Core/Configuration/elxMyConfiguration.cxx:148-150 | the `Silent` setting is the entry the parameter file gives, and `false` when it gives none |
| `Configuration.SelectParameterFile` | src/Core/Configuration/elxMyConfiguration.cxx:105-131 | a file is selected iff exactly one of `-p`/`-tp` is non-empty; it is that value (the `-p` value when `-p` is the non-empty one); both empty gives the no-file error, both non-empty the both-given error |
| `Configuration.InitializeStep` | src/Core/Configuration/elxMyConfiguration.cxx:93-155 | the argument map always becomes the new one, even on errors; the elastix level never changes; the file name becomes the selected value when a file is selected and is unchanged otherwise; the code is 0 or 1; 0 iff a file was selected and read; on 0 the object is initialised and silent is the file's `Silent` entry (default false); on 1 the initialised and silent flags are unchanged |
| `Configuration.InitializeElastix` | src/Core/Configuration/elxMyConfiguration.cxx:105-112 | with `-p` non-empty and `-tp` empty or absent, the parameter file name becomes the `-p` value |
| `Configuration.InitializeTransformix` | src/Core/Configuration/elxMyConfiguration.cxx:113-117 | with `-tp` non-empty and `-p` empty or absent, the parameter file name becomes the `-tp` value |
| `Configuration.InitializeRejectsSelection` | src/Core/Configuration/elxMyConfiguration.cxx:118-131 | with both or neither of `-p`/`-tp`, Initialize returns 1 and changes nothing but the argument map |
| `Configuration.InitializeReadFailure` | src/Core/Configuration/elxMyConfiguration.cxx:133-143 | when the selected file cannot be read, Initialize returns 1 with the file name already set and the other flags as they were |
| `Configuration.InitializeDependsOnSelection` | src/Core/Configuration/elxMyConfiguration.cxx:95-131 | Initialize sees the argument map only through the looked-up `-p` and `-tp` values |
| `Configuration.EmptyArgumentLikeMissing` | src/Core/Configuration/elxMyConfiguration.cxx:105-118 | giving `-p` or `-tp` an empty value has the same effect as leaving it out |
| `Configuration.MyConfiguration.constructor` | src/Core/Configuration/elxMyConfiguration.cxx:15-23 | a new configuration has no arguments, an empty file name, is not initialised, has elastix level 0 and is not silent |
| `Configuration.MyConfiguration.Initialized` | src/Core/Configuration/elxMyConfiguration.cxx:164-168 | reports the initialised flag of the current state |
| `Configuration.MyConfiguration.GetCommandLineArgument` | src/Core/Configuration/elxMyConfiguration.cxx:175-187 | the result is NUL-free; `""` when the key is absent; otherwise the C string of the stored value, and the stored value itself when that holds no NUL |
| `Configuration.MyConfiguration.SetCommandLineArgument` | src/Core/Configuration/elxMyConfiguration.cxx:194-202 | the map becomes erase-then-insert of the old map; looking the key up then gives the value; every other key's lookup and every other field are unchanged |
| `Configuration.MyConfiguration.Initialize` | src/Core/Configuration/elxMyConfiguration.cxx:93-155 | the new fields and the return code are those given by `InitializeStep` for the old fields |

## Left out

- `PrintParameterFile`, `BeforeAll` and `BeforeAllTransformix` (elxMyConfiguration.cxx:31-86) are left out. They only copy the parameter file to the log, so they are pure file and log I/O.
- The error messages written to the `error` log in `Initialize` are left out. Only the return codes and the state changes are modelled.
- The parameter-file reader and `ReadParameter` are not part of this model. Their effect is the `read` argument. The model assumes that a `Silent` entry that is present but cannot be converted to a boolean leaves `silence` at its default `false`, as an absent entry (`None`) does. `ReadParameter`'s body is not part of this model, so this is an assumption, not a stated behaviour.
- The fourth argument (`true`) of `ReadParameter`, and any output it controls, are not modelled. The meaning of that argument is declared in `elxMyConfiguration.h`, which is not part of this model.
- The `Silent` read runs after `m_Initialized` has been set (lines 145-149). The model assumes that `ReadParameter` returns normally. If it threw, the object would be left initialised with `silent` unchanged, and the model does not capture that path.
- The lifetime of the pointer that `GetCommandLineArgument` returns is not modelled. The C++ result points into storage: into the stored value (line 184) or into `m_EmptyString` (line 180). A pointer into a stored value is invalidated by erasing that key (line 199) or by assigning the map (line 95). The model returns an independent string value that stays valid.
- Null pointers are not modelled. A null `key` or `value` at lines 175 and 194 is undefined behaviour when it is converted to `std::string`, and a Dafny `string` cannot be null.
- `m_ElastixLevel` is modelled as a natural number. Its declared type is in the header `elxMyConfiguration.h`, which is not part of this model. No modelled operation other than the constructor touches it.
- The setters `SetParameterFileName` and `SetSilent` are declared in the same header. They are assumed to be plain assignments to the fields, and any other effect they have is not modelled.
- `itkMeanSquaresImageToImageMetric2.h` (the mean-squares image metric) is left out. The header only declares `GetValue`, `GetDerivative` and `GetValueAndDerivative`. Their implementation file, `itkMeanSquaresImageToImageMetric2.txx`, is not part of this model. The metric is floating-point image numerics with random sampling.
- `elxLinearResampleInterpolator.h` is left out. It derives from ITK's `LinearInterpolateImageFunction` and from `ResampleInterpolatorBase`, and registers a class name (line 56). Its implementation file `elxLinearResampleInterpolator.hxx` is not part of this model.
