/**
  What the scripts and fixtures exchange with Copier (through pytest-copie):
  answer documents as YAML values, the result of one rendering, and the
  request a rendering is made with. Copier itself is an input: a function
  from a request to the result it reports.
 */
module Copier {
  import opened Wrappers

  /** A YAML value as the safe loader builds it (floats, dates and tags are not modelled). */
  datatype Yaml =
    | Null
    | Bool(b: bool)
    | Int(i: int)
    | Str(s: string)
    | List(items: seq<Yaml>)
    | Mapping(entries: map<string, Yaml>)

  /** Python truthiness of a loaded value. */
  predicate Truthy(v: Yaml) {
    match v
    case Null => false
    case Bool(b) => b
    case Int(i) => i != 0
    case Str(s) => s != []
    case List(items) => items != []
    case Mapping(entries) => entries != map[]
  }

  const EmptyMapping: Yaml := Mapping(map[])

  /**
    `yaml.load(text) or {}`: the loaded document, or an empty mapping when
    the document is empty, null or otherwise falsy.
   */
  function LoadAnswers(doc: Yaml): (answers: Yaml)
    ensures Truthy(doc) ==> answers == doc
    ensures !Truthy(doc) ==> answers == EmptyMapping
    ensures answers != Null
  {
    if Truthy(doc) then doc else EmptyMapping
  }

  /** Loading answers that are already loaded gives them back: empty documents settle on `{}`. */
  lemma {:induction false} LoadAnswersIdempotent(doc: Yaml)
    ensures LoadAnswers(LoadAnswers(doc)) == LoadAnswers(doc)
  {
    if !Truthy(doc) {
      assert !Truthy(EmptyMapping);
    }
  }

  /** What `Copie.copy` reports: an exception or none, an exit code, and where the project was rendered. */
  datatype RenderResult = RenderResult(exception: Option<string>, exitCode: int, projectDir: string)

  /** `result.exception or result.exit_code != 0`: a set exception object is always truthy. */
  predicate Failed(r: RenderResult) {
    r.exception.Some? || r.exitCode != 0
  }

  /** `str(result.exception)` as it appears in the failure messages. */
  function ExceptionText(e: Option<string>): string {
    match e
    case None => "None"
    case Some(message) => message
  }

  /** One `Copie(...).copy(extra_answers=...)` call: template, test directory, parent result, answers. */
  datatype CopyRequest = CopyRequest(
    template: string,
    testDir: string,
    parent: Option<RenderResult>,
    answers: Yaml)

  /** Copier as seen by the scripts: the result it reports for each request. */
  type Copy = CopyRequest -> RenderResult

  /** Where the two templates live: the package template and the rule template. */
  datatype Templates = Templates(package: string, rule: string)

  /** Which of the two templates a rendering is for. */
  datatype Stage = Package | Rule

  /** One rendering in a trace: the example it was for, the stage, and the request. */
  datatype Render = Render(example: string, stage: Stage, request: CopyRequest)

  /** `Path(dir) / name`. */
  function Child(dir: string, name: string): string {
    dir + "/" + name
  }

  /** The copier settings file `_make_copier_config` writes, and where. */
  datatype CopierConfig = CopierConfig(path: string, settings: map<string, string>, createdDirs: seq<string>)

  /**
    `_make_copier_config(work_root)`: creates `work_root/copier` and
    `work_root/copier_replay`, and writes a two-key mapping pointing at
    them to `work_root/config`, whose path it returns.
   */
  function MakeCopierConfig(workRoot: string): (c: CopierConfig)
    ensures c.settings.Keys == {"copier_dir", "replay_dir"}
    ensures c.settings["copier_dir"] == Child(workRoot, "copier")
    ensures c.settings["replay_dir"] == Child(workRoot, "copier_replay")
    ensures c.path == Child(workRoot, "config")
    ensures c.createdDirs == [c.settings["copier_dir"], c.settings["replay_dir"]]
    ensures c.path !in c.settings.Values
    ensures c.settings["copier_dir"] != c.settings["replay_dir"]
  {
    var copierDir := Child(workRoot, "copier");
    var replayDir := Child(workRoot, "copier_replay");
    var settings := map["copier_dir" := copierDir, "replay_dir" := replayDir];
    var path := Child(workRoot, "config");
    DistinctChildren(workRoot, "config", "copier");
    DistinctChildren(workRoot, "config", "copier_replay");
    DistinctChildren(workRoot, "copier", "copier_replay");
    assert forall k | k in settings :: settings[k] in {copierDir, replayDir};
    CopierConfig(path, settings, [copierDir, replayDir])
  }

  /** Different names give different children of one directory. */
  lemma {:induction false} DistinctChildren(dir: string, a: string, b: string)
    requires a != b
    ensures Child(dir, a) != Child(dir, b)
  {
    var n := |dir| + 1;
    assert Child(dir, a)[n..] == a;
    assert Child(dir, b)[n..] == b;
  }
}
