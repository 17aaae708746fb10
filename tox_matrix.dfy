/**
  The collection-time matrix of the tox test: one test per pair of a
  template variant and a tox environment of its rendered project.

  `pytest_generate_tests` renders each example's package and rule
  templates (once per session, through a cache kept on pytest's config
  object), lists the tox environments of the rendered project, and
  parametrises the test with every `(variant_id, env_name)` pair and an id
  `"<variant_id>:<env_name>"` for each.
 */
module ToxMatrix {
  import opened Wrappers
  import opened Text
  import opened Copier
  import ToxEnvs
  import TemplateConftest

  /** What the cache keeps for a variant: its rendered project and its environments. */
  datatype CacheEntry = CacheEntry(projectDir: string, envs: seq<string>)

  /** The `_tox_collect_cache` dictionary, updated in place. */
  class CollectCache {
    var entries: map<string, CacheEntry>

    constructor ()
      ensures entries == map[]
    {
      entries := map[];
    }
  }

  /** The part of pytest's config object the hook uses: the cache attribute, absent at first. */
  class PytestConfig {
    var toxCollectCache: CollectCache?

    constructor ()
      ensures toxCollectCache == null
    {
      toxCollectCache := null;
    }
  }

  /** What the hook does with the test function. */
  datatype Outcome =
    | NotParametrized                      // the test does not request both arguments
    | Parametrized(argvalues: seq<(string, string)>, argids: seq<string>)
    | Raised(error: ToxEnvs.ToxError)      // environment discovery raised

  /** The test requests both `variant_id` and `env_name`. */
  predicate Requested(fixtureNames: set<string>) {
    "variant_id" in fixtureNames && "env_name" in fixtureNames
  }

  /** The cache the hook starts from: the attribute's contents, or an empty dictionary. */
  ghost function StartEntries(c: CollectCache?): map<string, CacheEntry>
    reads c
  {
    if c == null then map[] else c.entries
  }

  /** Where the rendering requests of one variant go. */
  function PackageRequest(ex: TemplateConftest.Example, templates: Templates, tmpRoot: string): CopyRequest {
    CopyRequest(templates.package, Child(tmpRoot, "pkg"), None, ex.packageAnswers)
  }

  function RuleRequest(ex: TemplateConftest.Example, templates: Templates, tmpRoot: string, pkg: RenderResult): CopyRequest {
    CopyRequest(templates.rule, Child(tmpRoot, "rule"), Some(pkg), ex.ruleAnswers)
  }

  /** The project directory of a variant's rule rendering, the package result being its parent. */
  function RuleProjectDir(ex: TemplateConftest.Example, templates: Templates, tmpRoot: string -> string, copy: Copy): string {
    var tmp := tmpRoot(ex.name);
    copy(RuleRequest(ex, templates, tmp, copy(PackageRequest(ex, templates, tmp)))).projectDir
  }

  /** `_list_tox_envs(rule.project_dir)` for a variant. */
  function Discover(ex: TemplateConftest.Example, templates: Templates, tmpRoot: string -> string, copy: Copy, world: ToxEnvs.ToxWorld): Result<seq<string>, ToxEnvs.ToxError> {
    ToxEnvs.ListToxEnvs(RuleProjectDir(ex, templates, tmpRoot, copy), [], world)
  }

  /** What the cache keeps for a variant whose discovery succeeds. */
  function DiscoveredEntry(ex: TemplateConftest.Example, templates: Templates, tmpRoot: string -> string, copy: Copy, world: ToxEnvs.ToxWorld): CacheEntry
    requires Discover(ex, templates, tmpRoot, copy, world).Ok?
  {
    CacheEntry(RuleProjectDir(ex, templates, tmpRoot, copy), Discover(ex, templates, tmpRoot, copy, world).value)
  }

  /** The state of collection: the cache, the renderings so far, and the exception raised, if any. */
  datatype Collect = Collect(entries: map<string, CacheEntry>, renders: seq<Render>, error: Option<ToxEnvs.ToxError>)

  /**
    Collection for one variant: nothing when it is cached; otherwise render
    the package template, then the rule template with the package result
    as parent (no failure check between them), then list the environments
    of the rendered project and cache them.
   */
  function Visit(c: Collect, ex: TemplateConftest.Example, templates: Templates, tmpRoot: string -> string, copy: Copy, world: ToxEnvs.ToxWorld): (v: Collect)
    ensures forall k | k in c.entries :: k in v.entries && v.entries[k] == c.entries[k]
    ensures v.error.None? ==> ex.name in v.entries && c.entries.Keys + {ex.name} == v.entries.Keys
    ensures |v.renders| == |c.renders| + (if ex.name in c.entries then 0 else 2)
    ensures ex.name in c.entries ==> v == c
    ensures ex.name !in c.entries ==>
              var tmp := tmpRoot(ex.name);
              var pkg := copy(PackageRequest(ex, templates, tmp));
              && v.renders == c.renders + [Render(ex.name, Package, PackageRequest(ex, templates, tmp)),
                                           Render(ex.name, Rule, RuleRequest(ex, templates, tmp, pkg))]
              && (v.error.Some? <==> Discover(ex, templates, tmpRoot, copy, world).Err?)
              && (v.error.Some? ==> v.error.value == Discover(ex, templates, tmpRoot, copy, world).error && v.entries == c.entries)
              && (v.error.None? ==> v.entries == c.entries[ex.name := DiscoveredEntry(ex, templates, tmpRoot, copy, world)])
  {
    if ex.name in c.entries then c
    else
      var tmp := tmpRoot(ex.name);
      var pkgRequest := PackageRequest(ex, templates, tmp);
      var ruleRequest := RuleRequest(ex, templates, tmp, copy(pkgRequest));
      var renders := c.renders + [Render(ex.name, Package, pkgRequest), Render(ex.name, Rule, ruleRequest)];
      var projectDir := copy(ruleRequest).projectDir;
      var envs := ToxEnvs.ListToxEnvs(projectDir, [], world);
      if envs.Err? then Collect(c.entries, renders, Some(envs.error))
      else Collect(c.entries[ex.name := CacheEntry(projectDir, envs.value)], renders, None)
  }

  /**
    Collection over the examples in order, from the cache `start`, stopping
    at the first exception. Cached entries are kept unchanged, and when
    nothing is raised every example ends up cached.
   */
  function CollectAll(exs: seq<TemplateConftest.Example>, start: map<string, CacheEntry>, templates: Templates,
                      tmpRoot: string -> string, copy: Copy, world: ToxEnvs.ToxWorld): (c: Collect)
    ensures forall k | k in start :: k in c.entries && c.entries[k] == start[k]
    ensures c.error.None? ==> forall i | 0 <= i < |exs| :: exs[i].name in c.entries
  {
    if exs == [] then Collect(start, [], None)
    else
      var before := CollectAll(exs[..|exs| - 1], start, templates, tmpRoot, copy, world);
      if before.error.Some? then before
      else
        assert forall i | 0 <= i < |exs| - 1 :: exs[i] == exs[..|exs| - 1][i];
        Visit(before, exs[|exs| - 1], templates, tmpRoot, copy, world)
  }

  /** The pairs of one variant, in environment order. */
  function PairsFor(varId: string, envs: seq<string>): (pairs: seq<(string, string)>)
    ensures |pairs| == |envs|
    ensures forall j | 0 <= j < |envs| :: pairs[j] == (varId, envs[j])
  {
    seq(|envs|, j requires 0 <= j < |envs| => (varId, envs[j]))
  }

  /** The pairs of the examples in order, each variant's environments taken from the cache. */
  function Pairs(exs: seq<TemplateConftest.Example>, m: map<string, CacheEntry>): seq<(string, string)>
    requires forall i | 0 <= i < |exs| :: exs[i].name in m
  {
    if exs == [] then []
    else
      var last := exs[|exs| - 1];
      Pairs(exs[..|exs| - 1], m) + PairsFor(last.name, m[last.name].envs)
  }

  /** The id of a pair. */
  function Id(pair: (string, string)): string {
    pair.0 + ":" + pair.1
  }

  /** The ids of the pairs, index for index. */
  function Ids(pairs: seq<(string, string)>): (ids: seq<string>)
    ensures |ids| == |pairs|
    ensures forall i | 0 <= i < |pairs| :: ids[i] == Id(pairs[i])
  {
    seq(|pairs|, i requires 0 <= i < |pairs| => Id(pairs[i]))
  }

  /** A variant id without ':' can be read back from an id: the id determines its pair. */
  lemma {:induction false} IdDeterminesPair(p: (string, string), q: (string, string))
    requires ':' !in p.0 && ':' !in q.0
    requires Id(p) == Id(q)
    ensures p == q
  {
    FirstIndexAt(Id(p), ':', |p.0|);
    FirstIndexAt(Id(q), ':', |q.0|);
    assert Id(p)[..|p.0|] == p.0 && Id(q)[..|q.0|] == q.0;
    assert Id(p)[|p.0| + 1..] == p.1 && Id(q)[|q.0| + 1..] == q.1;
  }

  /** Pairs depend only on the cache entries of the examples they are for. */
  lemma {:induction false} PairsFrame(exs: seq<TemplateConftest.Example>, m1: map<string, CacheEntry>, m2: map<string, CacheEntry>)
    requires forall i | 0 <= i < |exs| :: exs[i].name in m1 && exs[i].name in m2 && m1[exs[i].name] == m2[exs[i].name]
    ensures Pairs(exs, m1) == Pairs(exs, m2)
  {
    if exs != [] {
      PairsFrame(exs[..|exs| - 1], m1, m2);
    }
  }

  /** The pairs of one variant are that variant with each of its environments. */
  lemma {:induction false} PairsForMembers(varId: string, envs: seq<string>, pair: (string, string))
    ensures pair in PairsFor(varId, envs) <==> pair.0 == varId && pair.1 in envs
  {
    var pairs := PairsFor(varId, envs);
    if pair in pairs {
      var j :| 0 <= j < |pairs| && pairs[j] == pair;
    }
    if pair.0 == varId && pair.1 in envs {
      var j :| 0 <= j < |envs| && envs[j] == pair.1;
      assert pairs[j] == pair;
    }
  }

  /**
    A pair is produced exactly when its variant is one of the examples and
    its environment is among that variant's cached environments; a variant
    with no environments contributes nothing.
   */
  lemma {:induction false} PairsMembers(exs: seq<TemplateConftest.Example>, m: map<string, CacheEntry>, pair: (string, string))
    requires forall i | 0 <= i < |exs| :: exs[i].name in m
    ensures pair in Pairs(exs, m) <==>
            exists i | 0 <= i < |exs| :: exs[i].name == pair.0 && pair.1 in m[exs[i].name].envs
  {
    if exs != [] {
      var init := exs[..|exs| - 1];
      var last := exs[|exs| - 1];
      PairsMembers(init, m, pair);
      assert Pairs(exs, m) == Pairs(init, m) + PairsFor(last.name, m[last.name].envs);
      PairsForMembers(last.name, m[last.name].envs, pair);
      assert forall i | 0 <= i < |init| :: init[i] == exs[i];
      if exists i | 0 <= i < |exs| :: exs[i].name == pair.0 && pair.1 in m[exs[i].name].envs {
        var i :| 0 <= i < |exs| && exs[i].name == pair.0 && pair.1 in m[exs[i].name].envs;
        if i < |init| {
          assert init[i].name == pair.0;
        }
      }
    }
  }

  /**
    The renderings come in package/rule couples for distinct variants none
    of which was cached at the start, and each rule rendering has the
    package result of its couple as parent.
   */
  predicate WellRendered(c: Collect, start: map<string, CacheEntry>, copy: Copy) {
    && |c.renders| % 2 == 0
    && (forall k | 0 <= k < |c.renders| / 2 ::
          && c.renders[2 * k].stage == Package
          && c.renders[2 * k + 1].stage == Rule
          && c.renders[2 * k + 1].example == c.renders[2 * k].example
          && c.renders[2 * k].example !in start
          && c.renders[2 * k + 1].request.parent == Some(copy(c.renders[2 * k].request)))
    && (forall k, l | 0 <= k < l < |c.renders| / 2 :: c.renders[2 * k].example != c.renders[2 * l].example)
    && (c.error.None? ==> forall k | 0 <= k < |c.renders| / 2 :: c.renders[2 * k].example in c.entries)
  }

  /**
    Each variant is rendered at most once, never when it was cached at the
    start, and always as a package rendering followed by a rule rendering
    whose parent is the package result.
   */
  lemma {:induction false} RenderedAtMostOnce(exs: seq<TemplateConftest.Example>, start: map<string, CacheEntry>, templates: Templates,
                                              tmpRoot: string -> string, copy: Copy, world: ToxEnvs.ToxWorld)
    ensures WellRendered(CollectAll(exs, start, templates, tmpRoot, copy, world), start, copy)
  {
    if exs != [] {
      var init := exs[..|exs| - 1];
      var ex := exs[|exs| - 1];
      RenderedAtMostOnce(init, start, templates, tmpRoot, copy, world);
      var before := CollectAll(init, start, templates, tmpRoot, copy, world);
      if before.error.None? && ex.name !in before.entries {
        VisitRenders(before, ex, start, templates, tmpRoot, copy, world);
      }
    }
  }

  /** One uncached visit adds one couple for a variant not rendered before. */
  lemma {:induction false} VisitRenders(c: Collect, ex: TemplateConftest.Example, start: map<string, CacheEntry>, templates: Templates,
                     tmpRoot: string -> string, copy: Copy, world: ToxEnvs.ToxWorld)
    requires WellRendered(c, start, copy) && c.error.None? && ex.name !in c.entries
    requires forall k | k in start :: k in c.entries
    ensures WellRendered(Visit(c, ex, templates, tmpRoot, copy, world), start, copy)
  {
    var tmp := tmpRoot(ex.name);
    var pkgRequest := PackageRequest(ex, templates, tmp);
    var ruleRequest := RuleRequest(ex, templates, tmp, copy(pkgRequest));
    var v := Visit(c, ex, templates, tmpRoot, copy, world);
    assert v.renders == c.renders + [Render(ex.name, Package, pkgRequest), Render(ex.name, Rule, ruleRequest)];
    CoupleRenders(c, v, ex.name, pkgRequest, ruleRequest, start, copy);
  }

  /** Appending a couple for a fresh, uncached variant keeps the renderings well formed. */
  lemma {:induction false} CoupleRenders(c: Collect, d: Collect, name: string, pkg: CopyRequest, rule: CopyRequest,
                      start: map<string, CacheEntry>, copy: Copy)
    requires WellRendered(c, start, copy) && c.error.None? && name !in c.entries && name !in start
    requires d.renders == c.renders + [Render(name, Package, pkg), Render(name, Rule, rule)]
    requires rule.parent == Some(copy(pkg))
    requires forall k | k in c.entries :: k in d.entries
    requires d.error.None? ==> name in d.entries
    ensures WellRendered(d, start, copy)
  {
    var n := |c.renders| / 2;
    assert |d.renders| / 2 == n + 1;
    forall k | 0 <= k < n
      ensures d.renders[2 * k] == c.renders[2 * k] && d.renders[2 * k + 1] == c.renders[2 * k + 1]
    {
    }
    assert d.renders[2 * n].example == name;
  }

  /** Once collection has raised, the later examples change nothing. */
  lemma {:induction false} CollectAllStops(exs: seq<TemplateConftest.Example>, i: nat, start: map<string, CacheEntry>, templates: Templates,
                                           tmpRoot: string -> string, copy: Copy, world: ToxEnvs.ToxWorld)
    requires i <= |exs|
    requires CollectAll(exs[..i], start, templates, tmpRoot, copy, world).error.Some?
    ensures CollectAll(exs, start, templates, tmpRoot, copy, world) == CollectAll(exs[..i], start, templates, tmpRoot, copy, world)
    decreases |exs| - i
  {
    if i < |exs| {
      assert exs[..i + 1][..i] == exs[..i];
      CollectAllStops(exs, i + 1, start, templates, tmpRoot, copy, world);
    } else {
      assert exs[..i] == exs;
    }
  }

  /** `entry` is what discovery gives for some example named `k` among `exs`. */
  predicate DiscoveredFor(exs: seq<TemplateConftest.Example>, k: string, entry: CacheEntry, templates: Templates,
                          tmpRoot: string -> string, copy: Copy, world: ToxEnvs.ToxWorld) {
    exists i | 0 <= i < |exs| :: && exs[i].name == k
                                 && Discover(exs[i], templates, tmpRoot, copy, world).Ok?
                                 && entry == DiscoveredEntry(exs[i], templates, tmpRoot, copy, world)
  }

  /**
    Every entry collection adds is what discovery gives for some example of
    that name: its rule project and that project's environments.
   */
  lemma {:induction false} CollectAllDiscovers(exs: seq<TemplateConftest.Example>, start: map<string, CacheEntry>, templates: Templates,
                                               tmpRoot: string -> string, copy: Copy, world: ToxEnvs.ToxWorld)
    ensures var c := CollectAll(exs, start, templates, tmpRoot, copy, world);
            forall k | k in c.entries && k !in start :: DiscoveredFor(exs, k, c.entries[k], templates, tmpRoot, copy, world)
  {
    if exs != [] {
      var init := exs[..|exs| - 1];
      var ex := exs[|exs| - 1];
      CollectAllDiscovers(init, start, templates, tmpRoot, copy, world);
      var before := CollectAll(init, start, templates, tmpRoot, copy, world);
      var c := CollectAll(exs, start, templates, tmpRoot, copy, world);
      if before.error.None? {
        assert c == Visit(before, ex, templates, tmpRoot, copy, world);
        forall k | k in c.entries && k !in start
          ensures DiscoveredFor(exs, k, c.entries[k], templates, tmpRoot, copy, world)
        {
          if k in before.entries {
            DiscoveredForLonger(init, ex, k, before.entries[k], templates, tmpRoot, copy, world);
          } else {
            assert k == ex.name && exs[|exs| - 1] == ex;
          }
        }
      }
    }
  }

  lemma {:induction false} DiscoveredForLonger(init: seq<TemplateConftest.Example>, ex: TemplateConftest.Example, k: string, entry: CacheEntry,
                                               templates: Templates, tmpRoot: string -> string, copy: Copy, world: ToxEnvs.ToxWorld)
    requires DiscoveredFor(init, k, entry, templates, tmpRoot, copy, world)
    ensures DiscoveredFor(init + [ex], k, entry, templates, tmpRoot, copy, world)
  {
    var i :| 0 <= i < |init| && init[i].name == k && Discover(init[i], templates, tmpRoot, copy, world).Ok?
             && entry == DiscoveredEntry(init[i], templates, tmpRoot, copy, world);
    assert (init + [ex])[i] == init[i];
  }

  /** When collection raises, the exception is the one discovery raised for an example left uncached. */
  lemma {:induction false} CollectAllRaises(exs: seq<TemplateConftest.Example>, start: map<string, CacheEntry>, templates: Templates,
                                            tmpRoot: string -> string, copy: Copy, world: ToxEnvs.ToxWorld)
    ensures var c := CollectAll(exs, start, templates, tmpRoot, copy, world);
            c.error.Some? ==>
              exists i | 0 <= i < |exs| :: && exs[i].name !in c.entries
                                           && Discover(exs[i], templates, tmpRoot, copy, world) == Err(c.error.value)
  {
    if exs != [] {
      var init := exs[..|exs| - 1];
      var ex := exs[|exs| - 1];
      CollectAllRaises(init, start, templates, tmpRoot, copy, world);
      var before := CollectAll(init, start, templates, tmpRoot, copy, world);
      if before.error.Some? {
        var i :| 0 <= i < |init| && init[i].name !in before.entries
                 && Discover(init[i], templates, tmpRoot, copy, world) == Err(before.error.value);
        assert exs[i] == init[i];
      } else {
        assert exs[|exs| - 1] == ex;
      }
    }
  }

  /**
    The collection step of the hook's loop for one variant, on the cache
    object: the renderings requested so far grow and the cache gains the
    variant exactly as `Visit` says.
   */
  method VisitCache(cache: CollectCache, renders: seq<Render>, ex: TemplateConftest.Example, templates: Templates,
                    tmpRoot: string -> string, copy: Copy, world: ToxEnvs.ToxWorld)
    returns (newRenders: seq<Render>, error: Option<ToxEnvs.ToxError>)
    modifies cache
    ensures Collect(cache.entries, newRenders, error)
            == Visit(Collect(old(cache.entries), renders, None), ex, templates, tmpRoot, copy, world)
  {
    newRenders, error := renders, None;
    var varId := ex.name;
    if varId !in cache.entries {
      var tmp := tmpRoot(varId);
      var pkgRequest := PackageRequest(ex, templates, tmp);
      newRenders := newRenders + [Render(varId, Package, pkgRequest)];
      var pkg := copy(pkgRequest);
      var ruleRequest := RuleRequest(ex, templates, tmp, pkg);
      newRenders := newRenders + [Render(varId, Rule, ruleRequest)];
      var rule := copy(ruleRequest);
      var projectDir := rule.projectDir;
      var envs := ToxEnvs.ListToxEnvs(projectDir, [], world);
      if envs.Err? {
        return newRenders, Some(envs.error);
      }
      cache.entries := cache.entries[varId := CacheEntry(projectDir, envs.value)];
    }
  }

  /**
    The inner loop of the hook: one pair per environment of the variant,
    in order, each with its id.
   */
  method AddPairs(argvalues: seq<(string, string)>, argids: seq<string>, varId: string, envs: seq<string>)
    returns (values: seq<(string, string)>, ids: seq<string>)
    requires argids == Ids(argvalues)
    ensures values == argvalues + PairsFor(varId, envs)
    ensures ids == Ids(values)
  {
    values, ids := argvalues, argids;
    for j := 0 to |envs|
      invariant values == argvalues + PairsFor(varId, envs[..j])
      invariant ids == Ids(values)
    {
      values := values + [(varId, envs[j])];
      ids := ids + [Id((varId, envs[j]))];
    }
    assert envs[..|envs|] == envs;
  }

  /**
    The loop of the hook over the examples, on a cache object: collection as
    `CollectAll` says from the entries the cache holds, and, when nothing
    raises, the pairs of all examples in order and their ids.
   */
  method CollectPairs(cache: CollectCache, examples: seq<TemplateConftest.Example>,
                      templates: Templates, tmpRoot: string -> string, copy: Copy, world: ToxEnvs.ToxWorld)
    returns (renders: seq<Render>, argvalues: seq<(string, string)>, argids: seq<string>, error: Option<ToxEnvs.ToxError>)
    modifies cache
    ensures Collect(cache.entries, renders, error) == CollectAll(examples, old(cache.entries), templates, tmpRoot, copy, world)
    ensures error.None? ==> argvalues == Pairs(examples, cache.entries) && argids == Ids(argvalues)
  {
    ghost var start := cache.entries;
    renders, argvalues, argids, error := [], [], [], None;
    for i := 0 to |examples|
      invariant CollectAll(examples[..i], start, templates, tmpRoot, copy, world) == Collect(cache.entries, renders, None)
      invariant argvalues == Pairs(examples[..i], cache.entries)
      invariant argids == Ids(argvalues)
      invariant error.None?
    {
      var ex := examples[i];
      assert examples[..i + 1][..i] == examples[..i];
      ghost var oldEntries := cache.entries;
      ghost var before := Collect(cache.entries, renders, None);
      renders, error := VisitCache(cache, renders, ex, templates, tmpRoot, copy, world);
      assert CollectAll(examples[..i + 1], start, templates, tmpRoot, copy, world)
             == Visit(before, ex, templates, tmpRoot, copy, world)
             == Collect(cache.entries, renders, error);
      if error.Some? {
        CollectAllStops(examples, i + 1, start, templates, tmpRoot, copy, world);
        return;
      }
      PairsFrame(examples[..i], oldEntries, cache.entries);
      var entry := cache.entries[ex.name];
      argvalues, argids := AddPairs(argvalues, argids, ex.name, entry.envs);
    }
    assert examples[..|examples|] == examples;
  }

  /**
    `pytest_generate_tests(metafunc)`: when the test requests both
    arguments, collect every example (rendering only those the cache lacks),
    parametrise with the pairs of all examples in order and their ids, and
    store the cache on the config. Discovery that raises ends the hook:
    entries already added to a cache object taken from the config stay in
    it, and the attribute is not set.
   */
  method GenerateTests(config: PytestConfig, fixtureNames: set<string>, examples: seq<TemplateConftest.Example>,
                       templates: Templates, tmpRoot: string -> string, copy: Copy, world: ToxEnvs.ToxWorld)
    returns (outcome: Outcome, renders: seq<Render>)
    modifies config, config.toxCollectCache
    ensures !Requested(fixtureNames) ==>
              && outcome == NotParametrized && renders == []
              && config.toxCollectCache == old(config.toxCollectCache)
              && StartEntries(config.toxCollectCache) == old(StartEntries(config.toxCollectCache))
    ensures Requested(fixtureNames) ==>
              var c := CollectAll(examples, old(StartEntries(config.toxCollectCache)), templates, tmpRoot, copy, world);
              && renders == c.renders
              && (old(config.toxCollectCache) != null ==> config.toxCollectCache == old(config.toxCollectCache))
              && (c.error.Some? ==> outcome == Raised(c.error.value) && config.toxCollectCache == old(config.toxCollectCache)
                                    && StartEntries(config.toxCollectCache) == (if config.toxCollectCache == null then map[] else c.entries))
              && (c.error.None? ==> && config.toxCollectCache != null
                                    && config.toxCollectCache.entries == c.entries
                                    && outcome == Parametrized(Pairs(examples, c.entries), Ids(Pairs(examples, c.entries))))
  {
    if !Requested(fixtureNames) {
      return NotParametrized, [];
    }
    var cache: CollectCache;
    if config.toxCollectCache != null {
      cache := config.toxCollectCache;
    } else {
      cache := new CollectCache();
    }
    var argvalues, argids, error;
    renders, argvalues, argids, error := CollectPairs(cache, examples, templates, tmpRoot, copy, world);
    if error.Some? {
      return Raised(error.value), renders;
    }
    config.toxCollectCache := cache;
    return Parametrized(argvalues, argids), renders;
  }
}
