/**
  The template test suite's example discovery and its `rendered` fixture:
  every directory of `example-answers/` holding both `package.yml` and
  `rule.yml` is an example, and each example is rendered in two stages,
  the package template first and then the rule template on top of it.

  The directory listing, the parsed answer documents, the temporary
  directory and Copier are inputs.
 */
module TemplateConftest {
  import opened Wrappers
  import opened Copier

  /** One discovered example: its name and both answer mappings. */
  datatype Example = Example(name: string, packageAnswers: Yaml, ruleAnswers: Yaml)

  /**
    One entry of `example-answers/` in listing order: its name, whether it
    is a directory, and the parsed `package.yml` and `rule.yml` inside it
    (`None` when the file does not exist).
   */
  datatype DirEntry = DirEntry(name: string, isDir: bool, packageDoc: Option<Yaml>, ruleDoc: Option<Yaml>)

  const NoExamplesMessage: string :=
    "No examples found under `example-answers/` - ensure each example has both `package.yml` and `rule.yml`."

  /** An entry is an example directory: a directory holding both answer files. */
  predicate IsExampleDir(e: DirEntry) {
    e.isDir && e.packageDoc.Some? && e.ruleDoc.Some?
  }

  /** The example an example directory describes, its answers read with `_read_yaml`. */
  function ExampleOf(e: DirEntry): (ex: Example)
    requires IsExampleDir(e)
    ensures ex.name == e.name
    ensures ex.packageAnswers == LoadAnswers(e.packageDoc.value) && ex.ruleAnswers == LoadAnswers(e.ruleDoc.value)
  {
    Example(e.name, LoadAnswers(e.packageDoc.value), LoadAnswers(e.ruleDoc.value))
  }

  /** The examples of a listing, in listing order. */
  function ExamplesIn(entries: seq<DirEntry>): (r: seq<Example>)
    ensures |r| <= |entries|
  {
    if entries == [] then []
    else
      var last := entries[|entries| - 1];
      ExamplesIn(entries[..|entries| - 1]) + (if IsExampleDir(last) then [ExampleOf(last)] else [])
  }

  /** An example is discovered exactly when some example directory describes it. */
  lemma {:induction false} ExamplesInMembers(entries: seq<DirEntry>, ex: Example)
    ensures ex in ExamplesIn(entries) <==>
            exists i | 0 <= i < |entries| :: IsExampleDir(entries[i]) && ExampleOf(entries[i]) == ex
  {
    if entries != [] {
      var init := entries[..|entries| - 1];
      ExamplesInMembers(init, ex);
      if ex in ExamplesIn(entries) && ex !in ExamplesIn(init) {
        assert IsExampleDir(entries[|entries| - 1]) && ExampleOf(entries[|entries| - 1]) == ex;
      }
      if exists i | 0 <= i < |entries| :: IsExampleDir(entries[i]) && ExampleOf(entries[i]) == ex {
        var i :| 0 <= i < |entries| && IsExampleDir(entries[i]) && ExampleOf(entries[i]) == ex;
        if i < |init| {
          assert init[i] == entries[i];
        }
      }
    }
  }

  /** Discovery keeps listing order: the examples of two listings one after the other. */
  lemma {:induction false} ExamplesInAppend(a: seq<DirEntry>, b: seq<DirEntry>)
    ensures ExamplesIn(a + b) == ExamplesIn(a) + ExamplesIn(b)
  {
    if b == [] {
      assert a + b == a;
    } else {
      var b' := b[..|b| - 1];
      ExamplesInAppend(a, b');
      assert (a + b)[..|a + b| - 1] == a + b';
    }
  }

  /** Entries that are not example directories (plain files, directories missing a file) add nothing. */
  lemma {:induction false} NonExampleIgnored(entries: seq<DirEntry>, e: DirEntry)
    requires !IsExampleDir(e)
    ensures ExamplesIn(entries + [e]) == ExamplesIn(entries)
  {
    assert (entries + [e])[..|entries|] == entries;
  }

  /**
    `_discover_examples()`: the examples of the listing in order, or the
    `RuntimeError` message when there are none.
   */
  method DiscoverExamples(entries: seq<DirEntry>) returns (r: Result<seq<Example>, string>)
    ensures ExamplesIn(entries) == [] <==> r == Err(NoExamplesMessage)
    ensures r.Ok? ==> r.value == ExamplesIn(entries) && r.value != []
  {
    var examples: seq<Example> := [];
    for i := 0 to |entries|
      invariant examples == ExamplesIn(entries[..i])
    {
      var answersDir := entries[i];
      assert entries[..i + 1][..i] == entries[..i];
      if !answersDir.isDir {
        continue;
      }
      if answersDir.packageDoc.Some? && answersDir.ruleDoc.Some? {
        examples := examples + [Example(answersDir.name, LoadAnswers(answersDir.packageDoc.value), LoadAnswers(answersDir.ruleDoc.value))];
      }
    }
    assert entries[..|entries|] == entries;
    if examples == [] {
      return Err(NoExamplesMessage);
    }
    return Ok(examples);
  }

  /**
    The `rendered` fixture for one example rendered under `tmpRoot`: the
    renderings it requests, in order, and either `(project_dir, name)` or
    the `pytest.fail` message.
   */
  method Rendered(ex: Example, templates: Templates, tmpRoot: string, copy: Copy)
    returns (renders: seq<Render>, outcome: Result<(string, string), string>)
    ensures 1 <= |renders| <= 2
    ensures renders[0] == Render(ex.name, Package, CopyRequest(templates.package, Child(tmpRoot, "package"), None, ex.packageAnswers))
    ensures Failed(copy(renders[0].request)) ==>
              |renders| == 1
              && outcome == Err("Package template failed for " + ex.name + ": " + ExceptionText(copy(renders[0].request).exception))
    ensures !Failed(copy(renders[0].request)) ==>
              && |renders| == 2
              && renders[1] == Render(ex.name, Rule, CopyRequest(templates.rule, Child(tmpRoot, "rule"), Some(copy(renders[0].request)), ex.ruleAnswers))
              && (Failed(copy(renders[1].request)) ==>
                    outcome == Err("Rule template failed for " + ex.name + ": " + ExceptionText(copy(renders[1].request).exception)))
    ensures outcome.Ok? <==> |renders| == 2 && !Failed(copy(renders[1].request))
    ensures outcome.Ok? ==> outcome.value == (copy(renders[1].request).projectDir, ex.name)
  {
    var pkgRequest := CopyRequest(templates.package, Child(tmpRoot, "package"), None, ex.packageAnswers);
    renders := [Render(ex.name, Package, pkgRequest)];
    var pkgResult := copy(pkgRequest);
    if pkgResult.exitCode != 0 || pkgResult.exception.Some? {
      return renders, Err("Package template failed for " + ex.name + ": " + ExceptionText(pkgResult.exception));
    }
    var ruleRequest := CopyRequest(templates.rule, Child(tmpRoot, "rule"), Some(pkgResult), ex.ruleAnswers);
    renders := renders + [Render(ex.name, Rule, ruleRequest)];
    var ruleResult := copy(ruleRequest);
    if ruleResult.exitCode != 0 || ruleResult.exception.Some? {
      return renders, Err("Rule template failed for " + ex.name + ": " + ExceptionText(ruleResult.exception));
    }
    return renders, Ok((ruleResult.projectDir, ex.name));
  }
}
