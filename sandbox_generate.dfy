/**
  The sandbox generator's `generate` command: choose the registered
  examples to render (all of them, or the names given, in the order given),
  then render each one in two stages under `sandbox/<name>/`, the package
  template into `package_run` and the rule template, with the package
  result as its parent, into `rule_run`.

  Reading the answer files and Copier are inputs; what the command prints
  is an output, one message per `typer.echo`.
 */
module SandboxGenerate {
  import opened Wrappers
  import opened Text
  import opened Copier

  /** One registered example and the answers `__post_init__` loads for it. */
  datatype Example = Example(
    name: string,
    packageAnswersFile: string,
    ruleAnswersFile: string,
    packageAnswers: Option<Yaml>,
    ruleAnswers: Option<Yaml>)

  /**
    `Example(name, package_answers_file, rule_answers_file)`: the dataclass
    fields, then `__post_init__` replaces both answer fields with the
    loaded files (`read` gives the parsed document of a path).
   */
  function NewExample(name: string, packageFile: string, ruleFile: string, read: string -> Yaml): (ex: Example)
    ensures ex.name == name && ex.packageAnswersFile == packageFile && ex.ruleAnswersFile == ruleFile
    ensures ex.packageAnswers.Some? && ex.ruleAnswers.Some?
    ensures ex.packageAnswers.value != Null && ex.ruleAnswers.value != Null
    ensures Truthy(read(packageFile)) ==> ex.packageAnswers == Some(read(packageFile))
    ensures Truthy(read(ruleFile)) ==> ex.ruleAnswers == Some(read(ruleFile))
  {
    var ex := Example(name, packageFile, ruleFile, None, None);
    ex.(packageAnswers := Some(LoadAnswers(read(packageFile))), ruleAnswers := Some(LoadAnswers(read(ruleFile))))
  }

  /** An example both of whose answer mappings are loaded. */
  predicate Loaded(ex: Example) {
    ex.packageAnswers.Some? && ex.ruleAnswers.Some?
  }

  /** The `EXAMPLES` registry. */
  function Registry(read: string -> Yaml): (registry: seq<Example>)
    ensures |registry| == 1 && registry[0].name == "example-answers-able"
    ensures forall i | 0 <= i < |registry| :: Loaded(registry[i])
  {
    [NewExample("example-answers-able",
                "example-answers/weh_interviews/package.yml",
                "example-answers/weh_interviews/rule.yml",
                read)]
  }

  /** The directories the command works with, all under the project root. */
  function TemplatesUnder(projectRoot: string): Templates {
    Templates(Child(projectRoot, "../able-workflow-copier-dev"), projectRoot)
  }

  function SandboxRoot(projectRoot: string): string {
    Child(projectRoot, "sandbox")
  }

  /**
    `{e.name: e for e in EXAMPLES}[name]`: the last registered example with
    that name, later registrations overriding earlier ones.
   */
  function Lookup(registry: seq<Example>, name: string): (r: Option<Example>)
    ensures r.None? <==> forall i | 0 <= i < |registry| :: registry[i].name != name
    ensures r.Some? ==> exists i | 0 <= i < |registry| ::
                          && registry[i] == r.value
                          && forall j | i < j < |registry| :: registry[j].name != name
    ensures r.Some? ==> r.value.name == name
  {
    if registry == [] then None
    else if registry[|registry| - 1].name == name then Some(registry[|registry| - 1])
    else
      var n := |registry| - 1;
      var init := registry[..n];
      var r := Lookup(init, name);
      assert r.None? ==> forall i | 0 <= i < |registry| :: registry[i].name != name by {
        if r.None? {
          forall i | 0 <= i < n ensures registry[i].name != name {
            assert init[i] == registry[i];
          }
        }
      }
      assert r.Some? ==> exists i | 0 <= i < |registry| ::
                           && registry[i] == r.value
                           && forall j | i < j < |registry| :: registry[j].name != name by {
        if r.Some? {
          var i :| 0 <= i < n && init[i] == r.value && forall j | i < j < n :: init[j].name != name;
          assert registry[i] == r.value;
          forall j | i < j < |registry| ensures registry[j].name != name {
            if j < n {
              assert init[j] == registry[j];
            }
          }
        }
      }
      r
  }

  /** The requested names that are not registered, in argument order, repeats included. */
  function MissingNames(registry: seq<Example>, names: seq<string>): (missing: seq<string>)
    ensures forall n :: n in missing <==> n in names && Lookup(registry, n).None?
    ensures |missing| <= |names|
  {
    if names == [] then []
    else
      var init := names[..|names| - 1];
      var last := names[|names| - 1];
      assert forall n | n in names :: n in init || n == last;
      MissingNames(registry, init) + (if Lookup(registry, last).None? then [last] else [])
  }

  /** One more name at the end: its report, if any, comes last. */
  lemma {:induction false} MissingNamesSnoc(registry: seq<Example>, init: seq<string>, n: string)
    ensures MissingNames(registry, init + [n]) == MissingNames(registry, init) + MissingNames(registry, [n])
  {
    var names := init + [n];
    assert names[..|names| - 1] == init && names[|names| - 1] == n;
    assert [n][..0] == [];
    var tail := if Lookup(registry, n).None? then [n] else [];
    assert MissingNames(registry, [n]) == [] + tail == tail;
  }

  /** The report distributes over concatenation: argument order and repeats are kept. */
  lemma {:induction false} MissingNamesAppend(registry: seq<Example>, a: seq<string>, b: seq<string>)
    ensures MissingNames(registry, a + b) == MissingNames(registry, a) + MissingNames(registry, b)
  {
    if b != [] {
      var init, last := b[..|b| - 1], b[|b| - 1];
      SplitLast(a, b);
      MissingNamesSnoc(registry, a + init, last);
      MissingNamesSnoc(registry, init, last);
      MissingNamesAppend(registry, a, init);
      AppendAssoc(MissingNames(registry, a), MissingNames(registry, init), MissingNames(registry, [last]));
    } else {
      assert a + b == a;
    }
  }

  /** A single name is reported exactly when it is not registered. */
  lemma {:induction false} MissingNamesOne(registry: seq<Example>, n: string)
    ensures MissingNames(registry, [n]) == if Lookup(registry, n).None? then [n] else []
  {
    assert [n][..0] == [];
  }

  /**
    The examples to render: every registered one when no name is given;
    otherwise, when every name is registered, the looked-up examples in
    argument order (a name given twice is rendered twice); otherwise the
    unknown names, in argument order.
   */
  function Select(registry: seq<Example>, names: seq<string>): (r: Result<seq<Example>, seq<string>>)
    ensures names == [] ==> r == Ok(registry)
    ensures names != [] ==> (r.Err? <==> exists k | 0 <= k < |names| :: Lookup(registry, names[k]).None?)
    ensures r.Err? ==> r.error == MissingNames(registry, names) && r.error != []
    ensures names != [] && r.Ok? ==>
              && |r.value| == |names|
              && forall k | 0 <= k < |names| :: r.value[k].name == names[k] && r.value[k] in registry
    ensures names != [] && r.Ok? ==> forall k | 0 <= k < |names| :: Lookup(registry, names[k]) == Some(r.value[k])
  {
    if names == [] then Ok(registry)
    else
      var missing := MissingNames(registry, names);
      if missing != [] then
        assert exists k | 0 <= k < |names| :: Lookup(registry, names[k]).None? by {
          assert missing[0] in missing;
          var k :| 0 <= k < |names| && names[k] == missing[0];
        }
        Err(missing)
      else
        assert forall k | 0 <= k < |names| :: Lookup(registry, names[k]).Some? by {
          forall k | 0 <= k < |names| ensures Lookup(registry, names[k]).Some? {
            assert names[k] in names;
          }
        }
        Ok(seq(|names|, k requires 0 <= k < |names| => Lookup(registry, names[k]).value))
  }

  /** What the command prints, one value per `typer.echo`. */
  datatype Message =
    | UnknownNames(missing: seq<string>)                                // the selection failed
    | Skipped(example: string, stage: Stage)                            // no answers for a stage
    | StageFailed(example: string, stage: Stage, exception: Option<string>)
    | Finished(example: string, projectDir: string)
    | AllDone

  /** The stream a message goes to. */
  datatype Stream = Stdout | Stderr

  function StreamOf(m: Message): Stream {
    if m.Finished? || m.AllDone? then Stdout else Stderr
  }

  /** The text of a message. */
  function TextOf(m: Message): string {
    match m
    case UnknownNames(missing) => "Unknown example name(s): " + JoinWith(missing, ", ")
    case Skipped(name, Package) => "[" + name + "] No package answers found, skipping package template."
    case Skipped(name, Rule) => "[" + name + "] No rule answers found, skipping rule template."
    case StageFailed(name, Package, e) => "[" + name + "] Package template failed: " + ExceptionText(e)
    case StageFailed(name, Rule, e) => "[" + name + "] Rule template failed: " + ExceptionText(e)
    case Finished(name, dir) => "[" + name + "] \U{2714}  Finished. Final project is at\n    " + dir
    case AllDone => "All done."
  }

  /** The renderings and messages of one part of the run. */
  datatype Trace = Trace(renders: seq<Render>, messages: seq<Message>)

  /** The request for the package stage of `ex`. */
  function PackageRequest(ex: Example, projectRoot: string): CopyRequest
    requires ex.packageAnswers.Some?
  {
    CopyRequest(TemplatesUnder(projectRoot).package,
                Child(Child(SandboxRoot(projectRoot), ex.name), "package_run"),
                None,
                ex.packageAnswers.value)
  }

  /** The request for the rule stage of `ex`, on top of the package result `parent`. */
  function RuleRequest(ex: Example, projectRoot: string, parent: RenderResult): CopyRequest
    requires ex.ruleAnswers.Some?
  {
    CopyRequest(TemplatesUnder(projectRoot).rule,
                Child(Child(SandboxRoot(projectRoot), ex.name), "rule_run"),
                Some(parent),
                ex.ruleAnswers.value)
  }

  /**
    The work on one example: the package stage, and the rule stage with the
    package result as parent only when the package stage succeeded. A
    failed stage is reported on stderr; a finished example prints where
    its project is.
   */
  function ExampleRun(ex: Example, projectRoot: string, copy: Copy): (t: Trace)
    ensures |t.messages| == 1 && |t.renders| <= 2
    ensures ex.packageAnswers.None? <==> t.renders == []
    ensures t.renders != [] ==>
              t.renders[0] == Render(ex.name, Package, PackageRequest(ex, projectRoot))
    ensures |t.renders| == 2 ==>
              && !Failed(copy(t.renders[0].request))
              && ex.ruleAnswers.Some?
              && t.renders[1] == Render(ex.name, Rule, RuleRequest(ex, projectRoot, copy(t.renders[0].request)))
    ensures Loaded(ex) ==> (|t.renders| == 2 <==> !Failed(copy(PackageRequest(ex, projectRoot))))
    ensures Loaded(ex) ==> !t.messages[0].Skipped?
    ensures t.messages[0].Finished? <==> |t.renders| == 2 && !Failed(copy(t.renders[1].request))
    ensures t.messages[0].Finished? ==> t.messages[0].projectDir == copy(t.renders[1].request).projectDir
    ensures t.messages[0].StageFailed? ==>
              t.renders != [] && t.messages[0].exception == copy(t.renders[|t.renders| - 1].request).exception
    ensures t.messages[0].StageFailed? <==> t.renders != [] && Failed(copy(t.renders[|t.renders| - 1].request))
    ensures t.messages[0].StageFailed? ==> (t.messages[0].stage == Package <==> |t.renders| == 1)
    ensures t.messages[0].Skipped? ==> (t.messages[0].stage == Package <==> ex.packageAnswers.None?)
    ensures (t.messages[0].Skipped? || t.messages[0].StageFailed? || t.messages[0].Finished?)
            && t.messages[0].example == ex.name
  {
    if ex.packageAnswers.None? then
      Trace([], [Skipped(ex.name, Package)])
    else
      var pkgRequest := PackageRequest(ex, projectRoot);
      var pkgResult := copy(pkgRequest);
      var pkg := [Render(ex.name, Package, pkgRequest)];
      if Failed(pkgResult) then
        Trace(pkg, [StageFailed(ex.name, Package, pkgResult.exception)])
      else if ex.ruleAnswers.None? then
        Trace(pkg, [Skipped(ex.name, Rule)])
      else
        var ruleRequest := RuleRequest(ex, projectRoot, pkgResult);
        var ruleResult := copy(ruleRequest);
        var both := pkg + [Render(ex.name, Rule, ruleRequest)];
        if Failed(ruleResult) then
          Trace(both, [StageFailed(ex.name, Rule, ruleResult.exception)])
        else
          Trace(both, [Finished(ex.name, ruleResult.projectDir)])
  }

  /** The work on the examples in order, one after the other. */
  function RunAll(exs: seq<Example>, projectRoot: string, copy: Copy): (t: Trace)
    ensures |t.messages| == |exs|
  {
    if exs == [] then Trace([], [])
    else
      var before := RunAll(exs[..|exs| - 1], projectRoot, copy);
      var last := ExampleRun(exs[|exs| - 1], projectRoot, copy);
      Trace(before.renders + last.renders, before.messages + last.messages)
  }

  /**
    One pass of the render loop of `generate_cmd`: each `continue` of the
    loop body is a return here.
   */
  method WorkOn(ex: Example, projectRoot: string, copy: Copy) returns (renders: seq<Render>, messages: seq<Message>)
    ensures Trace(renders, messages) == ExampleRun(ex, projectRoot, copy)
  {
    renders, messages := [], [];
    if ex.packageAnswers.None? {
      messages := [Skipped(ex.name, Package)];
      return;
    }
    var pkgRequest := PackageRequest(ex, projectRoot);
    renders := [Render(ex.name, Package, pkgRequest)];
    var pkgResult := copy(pkgRequest);
    if Failed(pkgResult) {
      messages := [StageFailed(ex.name, Package, pkgResult.exception)];
      return;
    }
    if ex.ruleAnswers.None? {
      messages := [Skipped(ex.name, Rule)];
      return;
    }
    var ruleRequest := RuleRequest(ex, projectRoot, pkgResult);
    renders := renders + [Render(ex.name, Rule, ruleRequest)];
    var ruleResult := copy(ruleRequest);
    if Failed(ruleResult) {
      messages := [StageFailed(ex.name, Rule, ruleResult.exception)];
      return;
    }
    messages := [Finished(ex.name, ruleResult.projectDir)];
  }

  /**
    `generate_cmd(examples)`: the exit status, the renderings requested and
    the messages printed. An unknown name ends the command with status 1
    before anything is rendered; otherwise every selected example is worked
    on in turn, whatever happened to the ones before it, and the command
    ends with "All done." and status 0.
   */
  method Generate(registry: seq<Example>, names: seq<string>, projectRoot: string, copy: Copy)
    returns (exitCode: int, renders: seq<Render>, messages: seq<Message>)
    ensures Select(registry, names).Err? ==>
              exitCode == 1 && renders == [] && messages == [UnknownNames(Select(registry, names).error)]
    ensures Select(registry, names).Ok? ==>
              && exitCode == 0
              && renders == RunAll(Select(registry, names).value, projectRoot, copy).renders
              && messages == RunAll(Select(registry, names).value, projectRoot, copy).messages + [AllDone]
  {
    var toRender: seq<Example>;
    if names == [] {
      toRender := registry;
    } else {
      var missing := MissingNames(registry, names);
      if missing != [] {
        return 1, [], [UnknownNames(missing)];
      }
      toRender := seq(|names|, k requires 0 <= k < |names| => Lookup(registry, names[k]).value);
    }
    assert Select(registry, names) == Ok(toRender);
    renders, messages := [], [];
    for i := 0 to |toRender|
      invariant renders == RunAll(toRender[..i], projectRoot, copy).renders
      invariant messages == RunAll(toRender[..i], projectRoot, copy).messages
    {
      RunAllStep(toRender, i, projectRoot, copy);
      var exRenders, exMessages := WorkOn(toRender[i], projectRoot, copy);
      renders, messages := renders + exRenders, messages + exMessages;
    }
    assert toRender[..|toRender|] == toRender;
    messages := messages + [AllDone];
    exitCode := 0;
  }

  /** The run over one more example is the run so far followed by that example's work. */
  lemma {:induction false} RunAllStep(exs: seq<Example>, i: nat, projectRoot: string, copy: Copy)
    requires i < |exs|
    ensures var before := RunAll(exs[..i], projectRoot, copy);
            var step := ExampleRun(exs[i], projectRoot, copy);
            RunAll(exs[..i + 1], projectRoot, copy) == Trace(before.renders + step.renders, before.messages + step.messages)
  {
    assert exs[..i + 1][..i] == exs[..i];
  }

  /** Every selected example is worked on, in order: its package stage is requested. */
  lemma {:induction false} EveryExampleAttempted(exs: seq<Example>, projectRoot: string, copy: Copy, k: nat)
    requires k < |exs| && exs[k].packageAnswers.Some?
    ensures Render(exs[k].name, Package, PackageRequest(exs[k], projectRoot)) in RunAll(exs, projectRoot, copy).renders
  {
    var init := exs[..|exs| - 1];
    if k < |exs| - 1 {
      assert init[k] == exs[k];
      EveryExampleAttempted(init, projectRoot, copy, k);
    }
  }

  /**
    Every rule-stage rendering follows a successful package-stage rendering
    of the same example, whose result it receives as its parent.
   */
  lemma {:induction false} RuleFollowsPackage(exs: seq<Example>, projectRoot: string, copy: Copy, j: nat)
    requires j < |RunAll(exs, projectRoot, copy).renders|
    requires RunAll(exs, projectRoot, copy).renders[j].stage == Rule
    ensures var rs := RunAll(exs, projectRoot, copy).renders;
            && j > 0
            && rs[j - 1].stage == Package && rs[j - 1].example == rs[j].example
            && !Failed(copy(rs[j - 1].request))
            && rs[j].request.parent == Some(copy(rs[j - 1].request))
  {
    var init := exs[..|exs| - 1];
    var before := RunAll(init, projectRoot, copy).renders;
    var last := ExampleRun(exs[|exs| - 1], projectRoot, copy).renders;
    assert RunAll(exs, projectRoot, copy).renders == before + last;
    if j < |before| {
      RuleFollowsPackage(init, projectRoot, copy, j);
    } else {
      var i := j - |before|;
      assert last[i].stage == Rule;
      assert i == 1;
    }
  }

  /** Examples from the registry are never skipped for missing answers. */
  lemma {:induction false} RegisteredNeverSkipped(read: string -> Yaml, projectRoot: string, copy: Copy, names: seq<string>)
    requires Select(Registry(read), names).Ok?
    ensures var exs := Select(Registry(read), names).value;
            forall k | 0 <= k < |exs| :: !RunAll(exs, projectRoot, copy).messages[k].Skipped?
  {
    var exs := Select(Registry(read), names).value;
    assert forall k | 0 <= k < |exs| :: Loaded(exs[k]);
    RunAllMessages(exs, projectRoot, copy);
  }

  /** The k-th message of a run is the message of the k-th example. */
  lemma {:induction false} RunAllMessages(exs: seq<Example>, projectRoot: string, copy: Copy)
    ensures forall k | 0 <= k < |exs| ::
              RunAll(exs, projectRoot, copy).messages[k] == ExampleRun(exs[k], projectRoot, copy).messages[0]
  {
    if exs != [] {
      var init := exs[..|exs| - 1];
      RunAllMessages(init, projectRoot, copy);
      forall k | 0 <= k < |init| ensures init[k] == exs[k] { }
    }
  }

  /**
    Only a finished example writes to stdout: the k-th message goes to
    stdout exactly when the k-th example's rule stage ran and succeeded.
   */
  lemma {:induction false} RunAllStreams(exs: seq<Example>, projectRoot: string, copy: Copy)
    ensures forall k | 0 <= k < |exs| ::
              var t := ExampleRun(exs[k], projectRoot, copy);
              StreamOf(RunAll(exs, projectRoot, copy).messages[k]) == Stdout <==>
                |t.renders| == 2 && !Failed(copy(t.renders[1].request))
  {
    RunAllMessages(exs, projectRoot, copy);
  }
}
