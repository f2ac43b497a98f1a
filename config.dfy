/** The packaging policy of `tar_package`: built-in defaults, shallowly
    overridden by the keys of an optional `.codepack.toml`. */
module Config {
  import opened BundleTypes

  /** The effective configuration: exclude patterns, include patterns and the size limit. */
  datatype Policy = Policy(excludeList: seq<string>, includeList: seq<string>, maxFileSize: int)

  /** The keys a `.codepack.toml` may set; a key the file does not set is None. */
  datatype UserConfig = UserConfig(
    excludeList: Option<seq<string>>,
    includeList: Option<seq<string>>,
    maxFileSize: Option<int>)

  /** What loading `.codepack.toml` gives: no file, a file that does not parse, or its keys. */
  datatype ConfigFile = Missing | Malformed | Parsed(user: UserConfig)

  const DefaultExclude: seq<string> := [
    "__pycache__",
    "._*",
    ".AppleDouble",
    ".git",
    ".gitignore",
    ".ipynb_checkpoints",
    ".pylintrc",
    ".vscode",
    "*.exr",
    "*.pyc",
    "core"
  ]

  const DefaultInclude: seq<string> := []

  const DefaultMaxFileSize: int := 100_000

  const Defaults: Policy := Policy(DefaultExclude, DefaultInclude, DefaultMaxFileSize)

  function Override<T>(default: T, user: Option<T>): T
  {
    match user
    case Some(v) => v
    case None => default
  }

  /** `{**config, **user_config}`: every key the user sets replaces the
      base value as a whole (a list is replaced, never extended); every
      key the user leaves out keeps the base value. */
  function Merge(base: Policy, user: UserConfig): (p: Policy)
    ensures user.excludeList.Some? ==> p.excludeList == user.excludeList.value
    ensures user.excludeList.None? ==> p.excludeList == base.excludeList
    ensures user.includeList.Some? ==> p.includeList == user.includeList.value
    ensures user.includeList.None? ==> p.includeList == base.includeList
    ensures user.maxFileSize.Some? ==> p.maxFileSize == user.maxFileSize.value
    ensures user.maxFileSize.None? ==> p.maxFileSize == base.maxFileSize
  {
    Policy(
      Override(base.excludeList, user.excludeList),
      Override(base.includeList, user.includeList),
      Override(base.maxFileSize, user.maxFileSize))
  }

  /** The effective policy of `tar_package`: a missing file is not an error
      and leaves the defaults; a file that does not parse aborts. */
  function Resolve(file: ConfigFile): (r: Result<Policy, Error>)
    ensures r.Failure? <==> file.Malformed?
    ensures r.Failure? ==> r.error == ConfigError
    ensures file.Missing? ==> r == Success(Policy(DefaultExclude, DefaultInclude, 100_000))
    ensures file.Parsed? ==> r == Success(Merge(Defaults, file.user))
  {
    match file
    case Missing => Success(Defaults)
    case Malformed => Failure(ConfigError)
    case Parsed(user) => Success(Merge(Defaults, user))
  }

  /** A file that sets only `max_file_size` keeps both default pattern lists. */
  lemma OnlySizeKeepsDefaultPatterns(n: int)
    ensures Resolve(Parsed(UserConfig(None, None, Some(n)))) == Success(Policy(DefaultExclude, DefaultInclude, n))
  {
  }

  // The configuration as the Python dictionary it is in the source, so
  // that Merge can be checked against dictionary unpacking.

  datatype Value = Patterns(patterns: seq<string>) | Number(n: int)

  function AsDict(p: Policy): map<string, Value>
  {
    map["exclude" := Patterns(p.excludeList), "include" := Patterns(p.includeList), "max_file_size" := Number(p.maxFileSize)]
  }

  /** The dictionary `toml.load` returns, restricted to the three keys the packager reads. */
  function UserDict(u: UserConfig): (d: map<string, Value>)
    ensures d.Keys <= {"exclude", "include", "max_file_size"}
  {
    var withExclude: map<string, Value> := if u.excludeList.Some? then map["exclude" := Patterns(u.excludeList.value)] else map[];
    var withInclude := if u.includeList.Some? then withExclude["include" := Patterns(u.includeList.value)] else withExclude;
    if u.maxFileSize.Some? then withInclude["max_file_size" := Number(u.maxFileSize.value)] else withInclude
  }

  /** Merge agrees with `{**config, **user_config}`, Dafny's `+` on maps
      being the same right-biased union. */
  lemma MergeIsDictUnpacking(base: Policy, u: UserConfig)
    ensures AsDict(Merge(base, u)) == AsDict(base) + UserDict(u)
  {
    var lhs := AsDict(Merge(base, u));
    var rhs := AsDict(base) + UserDict(u);
    assert lhs.Keys == rhs.Keys;
    forall k | k in lhs.Keys
      ensures lhs[k] == rhs[k]
    {
    }
  }
}
