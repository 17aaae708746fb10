/**
  The `pyproject2conda` pre-commit hook: when `pyproject.toml` is among the
  staged paths, regenerate `environment-py312-dev.yaml` and stage it again.

  The hook's contact with the outside world is an input (whether the CLI is
  on PATH, the generator's return code, whether the environment file
  exists) and an output: the ordered trace of what it asks of that world.
 */
module Pyproject2CondaHook {
  import opened Text

  const Trigger: string := "pyproject.toml"
  const Cli: string := "pyproject2conda"
  const EnvFile: string := "environment-py312-dev.yaml"

  /** The two commands the hook runs. */
  datatype Command = Generate | Stage

  /** The argument vector of each command. */
  function Argv(c: Command): seq<string> {
    match c
    case Generate => [Cli, "project", "--envs", "dev"]
    case Stage => ["git", "add", EnvFile]
  }

  /** One request the hook makes of its environment, in the order it makes them. */
  datatype Step =
    | Which(program: string)  // `shutil.which(program)`
    | Run(command: Command)   // `subprocess.run(Argv(command), check=False)`
    | Exists(path: string)    // `Path(path).exists()`

  /**
    The parts of a path that name something, in order: `""` and `"."`
    parts are collapsed away.
   */
  function NamedParts(parts: seq<string>): (r: seq<string>)
    ensures forall x :: x in r <==> x in parts && x != "" && x != "."
    ensures |r| <= |parts|
  {
    if parts == [] then []
    else
      var last := parts[|parts| - 1];
      NamedParts(parts[..|parts| - 1]) + (if last == "" || last == "." then [] else [last])
  }

  /** Collapsing keeps order: the named parts of two runs of parts, one after the other. */
  lemma {:induction false} NamedPartsAppend(a: seq<string>, b: seq<string>)
    ensures NamedParts(a + b) == NamedParts(a) + NamedParts(b)
  {
    if b == [] {
      assert a + b == a;
    } else {
      var b' := b[..|b| - 1];
      var last := b[|b| - 1];
      var tail := if last == "" || last == "." then [] else [last];
      NamedPartsAppend(a, b');
      assert (a + b)[..|a + b| - 1] == a + b' && (a + b)[|a + b| - 1] == last;
      assert NamedParts(a + b) == NamedParts(a + b') + tail;
      assert NamedParts(b) == NamedParts(b') + tail;
    }
  }

  /** `pathlib.Path(p).name`: the last named part of a POSIX path, or `""`. */
  function PathName(p: string): (name: string)
    ensures '/' !in name
    ensures name != "."
  {
    var named := NamedParts(SplitOn(p, '/'));
    if named == [] then ""
    else
      assert named[|named| - 1] in named;
      named[|named| - 1]
  }

  /** A plain file name is its own name. */
  lemma {:induction false} PathNameOfName(f: string)
    requires '/' !in f && f != "" && f != "."
    ensures PathName(f) == f
  {
    SplitOnNone(f, '/');
    assert [f][..0] == [];
  }

  /** A file name under any directory path has that file name as its name. */
  lemma {:induction false} PathNameUnder(dir: string, f: string)
    requires '/' !in f && f != "" && f != "."
    ensures PathName(dir + "/" + f) == f
  {
    SplitOnJoin(dir, '/', f);
    assert dir + "/" + f == dir + ['/'] + f;
    SplitOnNone(f, '/');
    var parts := SplitOn(dir, '/') + [f];
    assert parts[..|parts| - 1] == SplitOn(dir, '/');
  }

  /** Matching is on the name: `sub/pyproject.toml` triggers the hook, `pyproject.toml.bak` does not. */
  lemma {:induction false} TriggerExamples(dir: string)
    ensures PathName(dir + "/" + Trigger) == Trigger
    ensures PathName("pyproject.toml.bak") != Trigger
  {
    PathNameUnder(dir, Trigger);
    PathNameOfName("pyproject.toml.bak");
  }

  /** `any(Path(p).name == "pyproject.toml" for p in argv)`. */
  predicate StagesPyproject(argv: seq<string>) {
    exists i | 0 <= i < |argv| :: PathName(argv[i]) == Trigger
  }

  /**
    Steps 2 to 4 of the hook, once `pyproject.toml` is known to be staged:
    look the CLI up, run the generator, and stage the environment file if
    it is there. `cliFound` is what `shutil.which` finds, `generationCode`
    the return code of the generator, `envFileExists` whether the
    environment file is there afterwards, and `stageCode` the return code
    of `git add`, which is ignored.
   */
  method Regenerate(cliFound: bool, generationCode: int, envFileExists: bool, stageCode: int)
    returns (code: int, steps: seq<Step>)
    ensures !cliFound ==> code == 1 && steps == [Which(Cli)]
    ensures cliFound && generationCode != 0 ==> code == generationCode && steps == [Which(Cli), Run(Generate)]
    ensures cliFound && generationCode == 0 ==>
              && code == 0
              && steps == [Which(Cli), Run(Generate), Exists(EnvFile)] + (if envFileExists then [Run(Stage)] else [])
    ensures Run(Stage) in steps <==> cliFound && generationCode == 0 && envFileExists
  {
    steps := [Which(Cli)];
    if !cliFound {
      return 1, steps;
    }
    steps := steps + [Run(Generate)];
    var returnCode := generationCode;
    if returnCode != 0 {
      assert steps == [Which(Cli), Run(Generate)];
      return returnCode, steps;
    }
    steps := steps + [Exists(EnvFile)];
    assert steps == [Which(Cli), Run(Generate), Exists(EnvFile)];
    if envFileExists {
      steps := steps + [Run(Stage)];
    }
    return 0, steps;
  }

  /**
    Runs the hook on the staged paths `argv`: nothing at all unless
    `pyproject.toml` is among them, and then `Regenerate`.
   */
  method Hook(argv: seq<string>, cliFound: bool, generationCode: int, envFileExists: bool, stageCode: int)
    returns (code: int, steps: seq<Step>)
    ensures !StagesPyproject(argv) ==> code == 0 && steps == []
    ensures StagesPyproject(argv) && !cliFound ==> code == 1 && steps == [Which(Cli)]
    ensures StagesPyproject(argv) && cliFound && generationCode != 0 ==>
              code == generationCode && steps == [Which(Cli), Run(Generate)]
    ensures StagesPyproject(argv) && cliFound && generationCode == 0 ==>
              && code == 0
              && steps == [Which(Cli), Run(Generate), Exists(EnvFile)] + (if envFileExists then [Run(Stage)] else [])
    ensures Run(Stage) in steps <==> StagesPyproject(argv) && cliFound && generationCode == 0 && envFileExists
  {
    if !StagesPyproject(argv) {
      return 0, [];
    }
    code, steps := Regenerate(cliFound, generationCode, envFileExists, stageCode);
  }
}
