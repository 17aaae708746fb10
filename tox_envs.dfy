/**
  Discovery of the tox environments of a rendered project: the
  `tool.tox.env_list` lookup in `pyproject.toml`, the parsing of
  `tox -qq -l` output, the fallback chain between the two, and the
  per-variant cache kept by the `env_matrix` fixture.

  Running tox and reading `pyproject.toml` are inputs (`ToxWorld`).
 */
module ToxEnvs {
  import opened Wrappers
  import opened Text

  /** A TOML value as `tomllib` builds it (floats and dates are not modelled). */
  datatype Toml =
    | Table(entries: map<string, Toml>)
    | Array(items: seq<Toml>)
    | String(s: string)
    | Integer(i: int)
    | Boolean(b: bool)

  /** Python truthiness of a loaded TOML value. */
  predicate TomlTruthy(v: Toml) {
    match v
    case Table(entries) => entries != map[]
    case Array(items) => items != []
    case String(s) => s != []
    case Integer(i) => i != 0
    case Boolean(b) => b
  }

  /** What reading `<project>/pyproject.toml` gives. */
  datatype ConfigFile =
    | Missing                                // `is_file()` is false
    | Vanished                               // `FileNotFoundError` while reading
    | Invalid                                // `TOMLDecodeError`
    | Document(root: map<string, Toml>)      // the parsed top-level table

  /** What running the listing command gives. */
  datatype ToxRun =
    | Ran(output: string)                    // exit status 0, combined stdout and stderr
    | Failed(returnCode: int, output: string)  // `CalledProcessError`
    | NotFound                               // `FileNotFoundError`: no `tox` executable

  /** The exceptions that escape environment discovery. */
  datatype ToxError =
    | ToxNotFound                            // re-raised `FileNotFoundError`
    | CommandFailed(returnCode: int, output: string)  // re-raised `CalledProcessError`
    | NotATable(key: string)                 // `.get` called on the non-table value under `key`
    | EnvListNotStrings                      // `env_list` is set to something other than an array of strings

  /** The outside world as environment discovery sees it. */
  datatype ToxWorld = ToxWorld(
    run: (seq<string>, string) -> ToxRun,    // command and working directory to outcome
    config: string -> ConfigFile)            // path to what reading it gives

  const PyprojectName: string := "pyproject.toml"
  const NoEnvironments: seq<string> := ["NOTSET"]

  /** The path of the configuration file of a project. */
  function PyprojectPath(projectDir: string): string {
    projectDir + "/" + PyprojectName
  }

  /** An array holding `names` as TOML strings. */
  function Strings(names: seq<string>): (items: seq<Toml>)
    ensures |items| == |names|
    ensures forall i | 0 <= i < |names| :: items[i] == String(names[i])
  {
    seq(|names|, i requires 0 <= i < |names| => String(names[i]))
  }

  /** The strings of an array, if every item is a string. */
  function StringsOf(items: seq<Toml>): (r: Option<seq<string>>)
    ensures r.Some? <==> forall i | 0 <= i < |items| :: items[i].String?
    ensures r.Some? ==> items == Strings(r.value)
  {
    if items == [] then Some([])
    else
      match StringsOf(items[1..])
      case None => None
      case Some(rest) =>
        if items[0].String? then
          var r := [items[0].s] + rest;
          assert Strings(r) == items by {
            forall i | 0 <= i < |items| ensures Strings(r)[i] == items[i] {
              if i > 0 {
                assert r[i] == rest[i - 1] && Strings(rest)[i - 1] == items[1..][i - 1];
              }
            }
          }
          Some(r)
        else None
  }

  /** `table.get(key, default)`. */
  function GetOr(table: map<string, Toml>, key: string, default: Toml): Toml {
    if key in table then table[key] else default
  }

  /** The configuration declares exactly `names` as `tool.tox.env_list`. */
  predicate Declares(root: map<string, Toml>, names: seq<string>) {
    && "tool" in root && root["tool"].Table?
    && "tox" in root["tool"].entries && root["tool"].entries["tox"].Table?
    && "env_list" in root["tool"].entries["tox"].entries
    && root["tool"].entries["tox"].entries["env_list"] == Array(Strings(names))
  }

  /** Level `tool` is present and is not a table, so `.get("tox", {})` on it raises. */
  predicate ToolNotTable(root: map<string, Toml>) {
    "tool" in root && !root["tool"].Table?
  }

  /** Level `tool.tox` is present and is not a table, so `.get("env_list", [])` on it raises. */
  predicate ToxNotTable(root: map<string, Toml>) {
    "tool" in root && root["tool"].Table?
    && "tox" in root["tool"].entries && !root["tool"].entries["tox"].Table?
  }

  /** `tool.tox.env_list` is present under tables and is truthy. */
  predicate EnvListSet(root: map<string, Toml>) {
    && "tool" in root && root["tool"].Table?
    && "tox" in root["tool"].entries && root["tool"].entries["tox"].Table?
    && "env_list" in root["tool"].entries["tox"].entries
    && TomlTruthy(root["tool"].entries["tox"].entries["env_list"])
  }

  /**
    `_parse_env_list_from_config`: `tool.tox.env_list`, with a missing key
    at any level, a falsy value, a missing file and an invalid file all
    giving the empty list. A level that is present but not a table makes
    the lookup raise.
   */
  function EnvListFromConfig(cfg: ConfigFile): (r: Result<seq<string>, ToxError>)
    ensures !cfg.Document? ==> r == Ok([])
    ensures cfg.Document? && !ToolNotTable(cfg.root) && !ToxNotTable(cfg.root) && !EnvListSet(cfg.root) ==> r == Ok([])
    ensures cfg.Document? ==> forall names :: Declares(cfg.root, names) ==> r == Ok(names)
    ensures r.Ok? && r.value != [] ==> cfg.Document? && Declares(cfg.root, r.value)
    ensures r == Err(NotATable("tool")) <==> cfg.Document? && ToolNotTable(cfg.root)
    ensures r == Err(NotATable("tox")) <==> cfg.Document? && ToxNotTable(cfg.root)
    ensures r == Err(EnvListNotStrings) <==>
              cfg.Document? && EnvListSet(cfg.root) && forall names :: !Declares(cfg.root, names)
    ensures r.Err? ==> r.error in {NotATable("tool"), NotATable("tox"), EnvListNotStrings}
  {
    match cfg
    case Missing => Ok([])
    case Vanished => Ok([])
    case Invalid => Ok([])
    case Document(root) =>
      var tool := GetOr(root, "tool", Table(map[]));
      if !tool.Table? then Err(NotATable("tool"))
      else
        var tox := GetOr(tool.entries, "tox", Table(map[]));
        if !tox.Table? then Err(NotATable("tox"))
        else
          var envList := GetOr(tox.entries, "env_list", Array([]));
          if !TomlTruthy(envList) then
            assert forall names :: Declares(root, names) ==> names == [] by {
              forall names | Declares(root, names) ensures names == [] {
                assert |Strings(names)| == |names|;
              }
            }
            Ok([])
          else if envList.Array? && StringsOf(envList.items).Some? then
            var names := StringsOf(envList.items).value;
            assert forall other :: Declares(root, other) ==> other == names by {
              forall other | Declares(root, other) ensures other == names {
                StringsInjective(other, names);
              }
            }
            assert Declares(root, names);
            Ok(names)
          else
            assert forall names :: !Declares(root, names) by {
              forall names | Declares(root, names) ensures false {
                StringsOfStrings(names);
              }
            }
            Err(EnvListNotStrings)
  }

  lemma {:induction false} StringsOfStrings(names: seq<string>)
    ensures StringsOf(Strings(names)) == Some(names)
  {
    StringsInjective(StringsOf(Strings(names)).value, names);
  }

  lemma {:induction false} StringsInjective(a: seq<string>, b: seq<string>)
    requires Strings(a) == Strings(b)
    ensures a == b
  {
    assert |a| == |Strings(a)|;
    forall i | 0 <= i < |a| ensures a[i] == b[i] {
      assert Strings(a)[i] == String(a[i]);
    }
  }

  /** The listing command: `tox -qq -l` followed by the extra arguments in order. */
  function ToxListCommand(extraArgs: seq<string>): (cmd: seq<string>)
    ensures |cmd| == 3 + |extraArgs|
    ensures cmd[..3] == ["tox", "-qq", "-l"] && cmd[3..] == extraArgs
  {
    ["tox", "-qq", "-l"] + extraArgs
  }

  /** The stripped form of every line that is not blank, in order. */
  function StrippedNonBlank(lines: seq<string>): (r: seq<string>)
    ensures forall x | x in r :: x != [] && IsStripped(x)
    ensures |r| <= |lines|
  {
    if lines == [] then []
    else
      var first := KeptLine(lines[0]);
      var rest := StrippedNonBlank(lines[1..]);
      assert forall x | x in first + rest :: x in first || x in rest;
      first + rest
  }

  /** What one line contributes: its stripped form, or nothing when it is blank. */
  function KeptLine(l: string): (r: seq<string>)
    ensures |r| <= 1
    ensures forall x | x in r :: x != [] && IsStripped(x)
  {
    var first := Strip(l);
    if first == [] then [] else [first]
  }

  /** The first line's contribution comes first. */
  lemma {:induction false} StrippedNonBlankHead(lines: seq<string>)
    requires lines != []
    ensures StrippedNonBlank(lines) == StrippedNonBlank([lines[0]]) + StrippedNonBlank(lines[1..])
  {
    var one := [lines[0]];
    assert one[0] == lines[0] && one[1..] == [];
    var head := KeptLine(lines[0]);
    assert StrippedNonBlank(one) == head + [] == head;
  }

  /** Filtering distributes over concatenation: order and repeats are kept. */
  lemma {:induction false} StrippedNonBlankAppend(a: seq<string>, b: seq<string>)
    ensures StrippedNonBlank(a + b) == StrippedNonBlank(a) + StrippedNonBlank(b)
  {
    if a != [] {
      SplitFirst(a, b);
      StrippedNonBlankHead(a + b);
      StrippedNonBlankHead(a);
      StrippedNonBlankAppend(a[1..], b);
      AppendAssoc(StrippedNonBlank([a[0]]), StrippedNonBlank(a[1..]), StrippedNonBlank(b));
    } else {
      assert a + b == b;
    }
  }

  /** A single line gives its stripped form, or nothing when it is blank. */
  lemma {:induction false} StrippedNonBlankLine(l: string)
    ensures StrippedNonBlank([l]) == if IsBlank(l) then [] else [Strip(l)]
  {
    assert [l][1..] == [];
  }

  /** Every name kept is the stripped form of some line. */
  lemma {:induction false} StrippedNonBlankFrom(lines: seq<string>)
    ensures forall x | x in StrippedNonBlank(lines) :: exists l | l in lines :: Strip(l) == x
  {
    if lines != [] {
      var rest := StrippedNonBlank(lines[1..]);
      StrippedNonBlankFrom(lines[1..]);
      assert StrippedNonBlank(lines) == if Strip(lines[0]) == [] then rest else [Strip(lines[0])] + rest;
      forall x | x in StrippedNonBlank(lines)
        ensures exists l | l in lines :: Strip(l) == x
      {
        if x in rest {
          var l :| l in lines[1..] && Strip(l) == x;
          assert l in lines;
        } else {
          assert lines[0] in lines && Strip(lines[0]) == x;
        }
      }
    }
  }

  /** No line that holds a non-whitespace character is dropped. */
  lemma {:induction false} StrippedNonBlankKeeps(lines: seq<string>)
    ensures forall l | l in lines && !IsBlank(l) :: Strip(l) in StrippedNonBlank(lines)
  {
    if lines != [] {
      StrippedNonBlankKeeps(lines[1..]);
      assert forall l | l in lines :: l == lines[0] || l in lines[1..];
    }
  }

  /** The environment names in the output of `tox -qq -l`: stripped, non-blank lines in order. */
  function ParseToxOutput(output: string): (envs: seq<string>)
    ensures forall e | e in envs :: e != [] && IsStripped(e)
  {
    StrippedNonBlank(SplitLines(output))
  }

  /** Lines that are already stripped, non-empty names survive unchanged and in order. */
  lemma {:induction false} StrippedNonBlankOfNames(names: seq<string>)
    requires forall i | 0 <= i < |names| :: names[i] != [] && IsStripped(names[i])
    ensures StrippedNonBlank(names) == names
  {
    if names != [] {
      StrippedNonBlankOfNames(names[1..]);
      StripStripped(names[0]);
      assert StrippedNonBlank(names) == [names[0]] + StrippedNonBlank(names[1..]);
      assert names == [names[0]] + names[1..];
    }
  }

  /** Printing names one per line and parsing the output gives the names back. */
  lemma {:induction false} ParseListing(names: seq<string>)
    requires forall i | 0 <= i < |names| :: names[i] != [] && IsStripped(names[i]) && '\n' !in names[i]
    ensures ParseToxOutput(UnlinesTerminated(names)) == names
  {
    SplitLinesUnlines(names);
    StrippedNonBlankOfNames(names);
  }

  /**
    `_list_tox_envs(project_dir, extra_args)`: the environments tox lists,
    falling back to the configured list when tox lists none or fails, and
    to `["NOTSET"]` when tox succeeds but neither source names anything.
    A failed run is never recovered from an empty configuration, and an
    exception raised while reading the configuration replaces the
    command's own outcome.
   */
  function ListToxEnvs(projectDir: string, extraArgs: seq<string>, world: ToxWorld): (r: Result<seq<string>, ToxError>)
    ensures r.Ok? ==> r.value != []
    ensures var run := world.run(ToxListCommand(extraArgs), projectDir);
            var cfg := EnvListFromConfig(world.config(PyprojectPath(projectDir)));
            && (run.NotFound? ==> r == Err(ToxNotFound))
            && (run.Ran? && ParseToxOutput(run.output) != [] ==> r == Ok(ParseToxOutput(run.output)))
            && (run.Ran? && ParseToxOutput(run.output) == [] ==>
                  r == (if cfg == Ok([]) then Ok(NoEnvironments) else cfg))
            && (run.Failed? ==>
                  r == (if cfg == Ok([]) then Err(CommandFailed(run.returnCode, run.output)) else cfg))
    ensures var cfg := world.config(PyprojectPath(projectDir));
            forall names | cfg.Document? && Declares(cfg.root, names) && names != [] ::
              !world.run(ToxListCommand(extraArgs), projectDir).NotFound? ==> r.Ok?
  {
    var cmd := ToxListCommand(extraArgs);
    match world.run(cmd, projectDir)
    case NotFound => Err(ToxNotFound)
    case Failed(rc, output) =>
      var fromConfig := EnvListFromConfig(world.config(PyprojectPath(projectDir)));
      if fromConfig.Err? then fromConfig
      else if fromConfig.value != [] then fromConfig
      else Err(CommandFailed(rc, output))
    case Ran(output) =>
      var envs := ParseToxOutput(output);
      if envs != [] then Ok(envs)
      else
        var fromConfig := EnvListFromConfig(world.config(PyprojectPath(projectDir)));
        if fromConfig.Err? then fromConfig
        else if fromConfig.value != [] then fromConfig
        else Ok(NoEnvironments)
  }

  /**
    The `env_matrix` session cache: variant id to its environments. Entries
    are only ever added, each one the first successful discovery for its
    variant.
   */
  class EnvMatrix {
    var cache: map<string, seq<string>>

    /** Every cached list names at least one environment. */
    ghost predicate Valid()
      reads this
    {
      forall v | v in cache :: cache[v] != []
    }

    constructor ()
      ensures cache == map[] && Valid()
    {
      cache := map[];
    }

    /**
      The fixture for one rendered variant: discovers its environments only
      when the variant is not cached yet, and returns the whole cache. A
      discovery that raises leaves the cache as it was.
     */
    method Get(projectDir: string, varId: string, world: ToxWorld) returns (r: Result<map<string, seq<string>>, ToxError>)
      requires Valid()
      modifies this
      ensures Valid()
      ensures varId in old(cache) ==> cache == old(cache) && r == Ok(cache)
      ensures varId !in old(cache) && ListToxEnvs(projectDir, [], world).Ok? ==>
                cache == old(cache)[varId := ListToxEnvs(projectDir, [], world).value] && r == Ok(cache)
      ensures varId !in old(cache) && ListToxEnvs(projectDir, [], world).Err? ==>
                cache == old(cache) && r == Err(ListToxEnvs(projectDir, [], world).error)
      ensures forall v | v in old(cache) :: v in cache && cache[v] == old(cache)[v]
    {
      if varId !in cache {
        var envs := ListToxEnvs(projectDir, [], world);
        if envs.Err? {
          return Err(envs.error);
        }
        cache := cache[varId := envs.value];
      }
      r := Ok(cache);
    }
  }
}
