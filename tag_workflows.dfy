/** The workflow tagger (tools/tag_workflows.py): gives every `*Pipeline` class of the
    `*workflow.py` files a stable id, and adds new workflows to the id mapping without touching
    the ids already there. The file scan, the imports and `uuid4` are inputs: each scanned file
    comes with the attribute list of its imported module (or `None` when the import failed), and
    the k-th freshly generated id is `uuid(k)`. */
module TagWorkflows {
  import opened Wrappers
  import opened Seqs
  import opened PyStrings

  /** One value of the mapping file: a string-to-string dict. */
  type Entry = map<string, string>

  /** No id is listed twice. */
  predicate DistinctIds(items: seq<(string, Entry)>)
  {
    forall i, j :: 0 <= i < j < |items| ==> items[i].0 != items[j].0
  }

  /** The loaded mapping, as its `items()` in file order: (id, entry) pairs. `json.loads` keeps
      only the last of the members sharing an id, so every id appears once. */
  type Mapping = items: seq<(string, Entry)> | DistinctIds(items)

  /** A discovered workflow, `{"module": ..., "class": ...}`. */
  datatype WorkflowInfo = WorkflowInfo(modulePath: string, className: string)

  /** An attribute name of an imported module, and whether it names a class. */
  datatype ModuleAttr = ModuleAttr(name: string, isClass: bool)

  /** A scanned `*workflow.py` file: its path relative to `src`, and `dir()` of the imported
      module, `None` when importing it failed. */
  datatype SourceFile = SourceFile(relative: string, imported: Option<seq<ModuleAttr>>)

  /** The dict the loaded items describe. */
  function AsMap(existing: Mapping): map<string, Entry>
  {
    IndexBy(existing, (p: (string, Entry)) => Some(p.0), (p: (string, Entry)) => p.1)
  }

  /** The dict has exactly the listed ids, each with its own entry. */
  lemma AsMapItems(existing: Mapping, i: nat)
    requires i < |existing|
    ensures existing[i].0 in AsMap(existing) && AsMap(existing)[existing[i].0] == existing[i].1
  {
    IndexBySpec(existing, (p: (string, Entry)) => Some(p.0), (p: (string, Entry)) => p.1, existing[i].0);
  }

  /** The modules of the mapping are those of the dict's values. */
  lemma ExistingModulesOfMap(existing: Mapping, m: string)
    ensures m in ExistingModules(existing) <==> exists id :: id in AsMap(existing) && ModuleOf(AsMap(existing)[id]) == m
  {
    if m in ExistingModules(existing) {
      var p :| p in existing && ModuleOf(p.1) == m;
      var i :| 0 <= i < |existing| && existing[i] == p;
      AsMapItems(existing, i);
    }
    if exists id :: id in AsMap(existing) && ModuleOf(AsMap(existing)[id]) == m {
      var id :| id in AsMap(existing) && ModuleOf(AsMap(existing)[id]) == m;
      IndexBySpec(existing, (p: (string, Entry)) => Some(p.0), (p: (string, Entry)) => p.1, id);
      var i :| 0 <= i < |existing| && existing[i].0 == id;
      AsMapItems(existing, i);
      assert existing[i] in existing;
    }
  }

  function ExistingIds(existing: Mapping): set<string>
  {
    set p | p in existing :: p.0
  }

  /** `v.get("module", "")` */
  function ModuleOf(v: Entry): string
  {
    if "module" in v then v["module"] else ""
  }

  /** `{v.get("module", "") for v in existing.values()}` */
  function ExistingModules(existing: Mapping): set<string>
  {
    set p | p in existing :: ModuleOf(p.1)
  }

  /** The target key `f"{module}#{class}"`. */
  function Target(modulePath: string, className: string): string
  {
    modulePath + "#" + className
  }

  /** The target key of an existing entry; `None` where `v['module']` or `v['class']` raises. */
  function TargetOf(v: Entry): Option<string>
  {
    if "module" in v && "class" in v then Some(Target(v["module"], v["class"])) else None
  }

  /** `build_target_to_uuid_map`: target key to id, the last entry winning; an entry without
      `module` or `class` raises `KeyError`. */
  function BuildTargetToUuidMap(existing: Mapping): (r: Result<map<string, string>>)
    ensures r.Err? <==> exists i :: 0 <= i < |existing| && TargetOf(existing[i].1).None?
    ensures r.Err? ==> r.error == KeyError
  {
    if exists i :: 0 <= i < |existing| && TargetOf(existing[i].1).None? then Err(KeyError)
    else Ok(IndexBy(existing, (p: (string, Entry)) => TargetOf(p.1), (p: (string, Entry)) => p.0))
  }

  /** Every target key of the mapping is present, with the id of the last entry having it. */
  lemma BuildTargetSpec(existing: Mapping, t: string)
    requires BuildTargetToUuidMap(existing).Ok?
    ensures var m := BuildTargetToUuidMap(existing).value;
      t in m <==> exists i :: 0 <= i < |existing| && TargetOf(existing[i].1) == Some(t)
    ensures var m := BuildTargetToUuidMap(existing).value;
      t in m ==>
        exists i :: 0 <= i < |existing| && TargetOf(existing[i].1) == Some(t) && m[t] == existing[i].0 &&
          forall j :: i < j < |existing| ==> TargetOf(existing[j].1) != Some(t)
  {
    IndexBySpec(existing, (p: (string, Entry)) => TargetOf(p.1), (p: (string, Entry)) => p.0, t);
  }

  /** Every id the target map hands out is an id of the mapping. */
  lemma TargetIdsExist(existing: Mapping)
    requires BuildTargetToUuidMap(existing).Ok?
    ensures var m := BuildTargetToUuidMap(existing).value;
      forall t :: t in m ==> m[t] in ExistingIds(existing)
  {
    var m := BuildTargetToUuidMap(existing).value;
    forall t | t in m ensures m[t] in ExistingIds(existing) {
      BuildTargetSpec(existing, t);
    }
  }

  /** Module names without '#' make the target key determine the module. */
  predicate HashFree(s: string)
  {
    forall k :: 0 <= k < |s| ==> s[k] != '#'
  }

  /** The first '#' of a target key ends its module part. */
  lemma HashAt(m: string, c: string)
    requires HashFree(m)
    ensures Find(Target(m, c), "#") == Some(|m|)
  {
    var t := Target(m, c);
    assert OccursAt(t, "#", |m|) by {
      assert t[|m|..|m| + 1] == "#";
    }
    forall j | 0 <= j < |m| ensures !OccursAt(t, "#", j) {
      assert t[j..j + 1] == [m[j]];
    }
  }

  lemma TargetModule(m1: string, c1: string, m2: string, c2: string)
    requires HashFree(m1) && HashFree(m2) && Target(m1, c1) == Target(m2, c2)
    ensures m1 == m2
  {
    HashAt(m1, c1);
    HashAt(m2, c2);
    var t := Target(m1, c1);
    assert m1 == t[..|m1|] == m2;
  }

  /** `_get_module_path`: "src." and the relative path with '/' turned into '.', less ".py". */
  function ModulePath(relative: string): string
  {
    "src." + RemoveSuffix(Replace(relative, "/", "."), ".py")
  }

  /** The module path starts with "src.", and then follows the relative path character for
      character, '/' read as '.', with no '/' left and the ".py" suffix cut. */
  lemma ModulePathSpec(relative: string)
    ensures StartsWith(ModulePath(relative), "src.")
    ensures forall k :: 0 <= k < |ModulePath(relative)| ==> ModulePath(relative)[k] != '/'
    ensures |ModulePath(relative)| == 4 + |relative| - if EndsWith(SubstChar(relative, '/', '.'), ".py") then 3 else 0
    ensures forall k :: 0 <= k < |ModulePath(relative)| - 4 ==>
      ModulePath(relative)[4 + k] == if relative[k] == '/' then '.' else relative[k]
  {
    ReplaceSingleChar(relative, '/', '.');
    var stem := RemoveSuffix(SubstChar(relative, '/', '.'), ".py");
    assert ModulePath(relative) == "src." + stem;
  }

  /** A path ending in ".py" with no other '.' comes back from its module path by turning '.'
      into '/' again: distinct workflow files have distinct module paths. */
  lemma ModulePathInverse(relative: string)
    requires EndsWith(relative, ".py")
    requires forall k :: 0 <= k < |relative| - 3 ==> relative[k] != '.'
    ensures |ModulePath(relative)| >= 4
    ensures SubstChar(ModulePath(relative)[4..], '.', '/') + ".py" == relative
  {
    ModulePathSpec(relative);
    var sub := SubstChar(relative, '/', '.');
    assert EndsWith(sub, ".py") by {
      assert sub[|sub| - 3..] == relative[|relative| - 3..];
    }
    var back := SubstChar(ModulePath(relative)[4..], '.', '/');
    assert back + ".py" == relative by {
      assert relative == relative[..|relative| - 3] + ".py";
      assert back == relative[..|relative| - 3];
    }
  }

  lemma ModulePathInjective(r1: string, r2: string)
    requires EndsWith(r1, ".py") && forall k :: 0 <= k < |r1| - 3 ==> r1[k] != '.'
    requires EndsWith(r2, ".py") && forall k :: 0 <= k < |r2| - 3 ==> r2[k] != '.'
    requires ModulePath(r1) == ModulePath(r2)
    ensures r1 == r2
  {
    ModulePathInverse(r1);
    ModulePathInverse(r2);
  }

  /** A path without '#' gives a module path without '#'. */
  lemma ModulePathHashFree(relative: string)
    requires HashFree(relative)
    ensures HashFree(ModulePath(relative))
  {
    ModulePathSpec(relative);
    var r := ModulePath(relative);
    forall k | 0 <= k < |r| ensures r[k] != '#' {
      if k < 4 {
        assert r[..4] == "src.";
        assert r[k] == "src."[k];
      } else {
        assert r[4 + (k - 4)] == if relative[k - 4] == '/' then '.' else relative[k - 4];
      }
    }
  }

  predicate IsPipelineClass(a: ModuleAttr)
  {
    EndsWith(a.name, "Pipeline") && a.isClass
  }

  /** The workflows named after the given attributes, in their order. */
  function InfosOf(attrs: seq<ModuleAttr>, relModule: string): (r: seq<WorkflowInfo>)
    ensures |r| == |attrs|
  {
    seq(|attrs|, k requires 0 <= k < |attrs| => WorkflowInfo(relModule, attrs[k].name))
  }

  lemma InfosAppend(a: seq<ModuleAttr>, b: seq<ModuleAttr>, relModule: string)
    ensures InfosOf(a + b, relModule) == InfosOf(a, relModule) + InfosOf(b, relModule)
  {
  }

  /** The workflows `_extract_pipeline_classes` builds: one per attribute that is a pipeline
      class, in `dir()` order. */
  function PipelineClasses(attrs: seq<ModuleAttr>, relModule: string): seq<WorkflowInfo>
  {
    InfosOf(Filter(attrs, IsPipelineClass), relModule)
  }

  /** A workflow is found exactly for an attribute of the module that is a pipeline class. */
  lemma InfosMembers(f: seq<ModuleAttr>, relModule: string, w: WorkflowInfo)
    ensures w in InfosOf(f, relModule) <==>
      w.modulePath == relModule && exists k :: 0 <= k < |f| && f[k].name == w.className
  {
    if w.modulePath == relModule && exists k :: 0 <= k < |f| && f[k].name == w.className {
      var k :| 0 <= k < |f| && f[k].name == w.className;
      assert InfosOf(f, relModule)[k] == w;
    }
  }

  lemma PipelineClassesMembers(attrs: seq<ModuleAttr>, relModule: string, w: WorkflowInfo)
    ensures w in PipelineClasses(attrs, relModule) <==>
      w.modulePath == relModule && (exists i :: 0 <= i < |attrs| && attrs[i].name == w.className && IsPipelineClass(attrs[i]))
  {
    var f := Filter(attrs, IsPipelineClass);
    InfosMembers(f, relModule, w);
    if exists k :: 0 <= k < |f| && f[k].name == w.className {
      var k :| 0 <= k < |f| && f[k].name == w.className;
      FilterMembers(attrs, IsPipelineClass, f[k]);
      var i :| 0 <= i < |attrs| && attrs[i] == f[k];
    }
    if exists i :: 0 <= i < |attrs| && attrs[i].name == w.className && IsPipelineClass(attrs[i]) {
      var i :| 0 <= i < |attrs| && attrs[i].name == w.className && IsPipelineClass(attrs[i]);
      FilterMembers(attrs, IsPipelineClass, attrs[i]);
      var k :| 0 <= k < |f| && f[k] == attrs[i];
    }
  }

  lemma PipelineClassesStep(attrs: seq<ModuleAttr>, relModule: string, i: nat)
    requires i < |attrs|
    ensures PipelineClasses(attrs[..i + 1], relModule) == PipelineClasses(attrs[..i], relModule)
      + if IsPipelineClass(attrs[i]) then [WorkflowInfo(relModule, attrs[i].name)] else []
  {
    assert attrs[..i + 1] == attrs[..i] + [attrs[i]];
    FilterAppend(attrs[..i], [attrs[i]], IsPipelineClass);
    InfosAppend(Filter(attrs[..i], IsPipelineClass), Filter([attrs[i]], IsPipelineClass), relModule);
  }

  /** `_extract_pipeline_classes` */
  method ExtractPipelineClasses(attrs: seq<ModuleAttr>, relModule: string) returns (workflows: seq<WorkflowInfo>)
    ensures workflows == PipelineClasses(attrs, relModule)
  {
    workflows := [];
    for i := 0 to |attrs|
      invariant workflows == PipelineClasses(attrs[..i], relModule)
    {
      PipelineClassesStep(attrs, relModule, i);
      var attr := attrs[i];
      if !EndsWith(attr.name, "Pipeline") {
        continue;
      }
      if !attr.isClass {
        continue;
      }
      workflows := workflows + [WorkflowInfo(relModule, attr.name)];
    }
    assert attrs[..|attrs|] == attrs;
  }

  /** The workflows of a scanned file; none when its import failed. */
  function FileWorkflows(f: SourceFile): seq<WorkflowInfo>
  {
    match f.imported
    case None => []
    case Some(attrs) => PipelineClasses(attrs, ModulePath(f.relative))
  }

  /** Every workflow the scan meets, file by file, in the order they are considered. */
  function Candidates(files: seq<SourceFile>): seq<WorkflowInfo>
  {
    if files == [] then [] else Candidates(files[..|files| - 1]) + FileWorkflows(files[|files| - 1])
  }

  lemma CandidatesStep(files: seq<SourceFile>, i: nat)
    requires i < |files|
    ensures Candidates(files[..i + 1]) == Candidates(files[..i]) + FileWorkflows(files[i])
  {
    assert files[..i + 1][..i] == files[..i];
  }

  /** The id chosen for a workflow, and how many fresh ids have been generated after choosing. */
  datatype Choice = Choice(id: string, drawn: nat)

  /** `_get_or_generate_uuid`: the id stored for the target when it is a non-empty string, else
      the next fresh id. */
  function GetOrGenerateUuid(info: WorkflowInfo, byTarget: map<string, string>, uuid: nat -> string, drawn: nat): (r: Choice)
    ensures r.id == uuid(drawn) || (Target(info.modulePath, info.className) in byTarget && r.id == byTarget[Target(info.modulePath, info.className)])
  {
    var key := Target(info.modulePath, info.className);
    if key in byTarget && byTarget[key] != "" then Choice(byTarget[key], drawn) else Choice(uuid(drawn), drawn + 1)
  }

  /** A workflow whose target the mapping knows gets back the id of the last entry with that
      target, unless that id is empty; no fresh id is generated then. */
  lemma KnownTargetKeepsId(existing: Mapping, i: nat, info: WorkflowInfo, uuid: nat -> string, drawn: nat)
    requires BuildTargetToUuidMap(existing).Ok?
    requires i < |existing| && TargetOf(existing[i].1) == Some(Target(info.modulePath, info.className))
    requires forall j :: i < j < |existing| ==> TargetOf(existing[j].1) != TargetOf(existing[i].1)
    requires existing[i].0 != ""
    ensures GetOrGenerateUuid(info, BuildTargetToUuidMap(existing).value, uuid, drawn) == Choice(existing[i].0, drawn)
  {
    var t := Target(info.modulePath, info.className);
    BuildTargetSpec(existing, t);
    var m := BuildTargetToUuidMap(existing).value;
    var k :| 0 <= k < |existing| && TargetOf(existing[k].1) == Some(t) && m[t] == existing[k].0
      && forall j :: k < j < |existing| ==> TargetOf(existing[j].1) != Some(t);
    assert k == i;
  }

  /** A workflow whose target no entry has gets the next fresh id. */
  lemma UnknownTargetFreshId(existing: Mapping, info: WorkflowInfo, uuid: nat -> string, drawn: nat)
    requires BuildTargetToUuidMap(existing).Ok?
    requires forall i :: 0 <= i < |existing| ==> TargetOf(existing[i].1) != Some(Target(info.modulePath, info.className))
    ensures GetOrGenerateUuid(info, BuildTargetToUuidMap(existing).value, uuid, drawn) == Choice(uuid(drawn), drawn + 1)
  {
    BuildTargetSpec(existing, Target(info.modulePath, info.className));
  }

  /** `_should_skip_existing` */
  predicate ShouldSkipExisting(wfId: string, existing: Mapping)
  {
    wfId in ExistingIds(existing)
  }

  /** `wf_id in existing` on the loaded dict. */
  lemma ExistingIdsOfMap(existing: Mapping, wfId: string)
    ensures wfId in ExistingIds(existing) <==> wfId in AsMap(existing)
  {
    IndexBySpec(existing, (p: (string, Entry)) => Some(p.0), (p: (string, Entry)) => p.1, wfId);
    if wfId in ExistingIds(existing) {
      var p :| p in existing && p.0 == wfId;
      var i :| 0 <= i < |existing| && existing[i] == p;
    }
  }

  /** The inputs of the discovery: the target map, the loaded mapping and the fresh ids. */
  datatype Context = Context(byTarget: map<string, string>, existing: Mapping, uuid: nat -> string)

  /** The discovery's progress: the workflows added so far, by id, and the fresh ids drawn. */
  datatype Discovery = Discovery(found: map<string, WorkflowInfo>, drawn: nat)

  /** `any(workflow_info["module"] == v.get("module", "") for v in discovered.values())` */
  predicate ModuleFound(found: map<string, WorkflowInfo>, modulePath: string)
  {
    exists id :: id in found && found[id].modulePath == modulePath
  }

  /** One turn of the inner loop of `discover_workflows`. */
  function Step(st: Discovery, info: WorkflowInfo, ctx: Context): Discovery
  {
    if info.modulePath in ExistingModules(ctx.existing) || ModuleFound(st.found, info.modulePath) then st
    else
      var c := GetOrGenerateUuid(info, ctx.byTarget, ctx.uuid, st.drawn);
      if ShouldSkipExisting(c.id, ctx.existing) then Discovery(st.found, c.drawn)
      else Discovery(st.found[c.id := info], c.drawn)
  }

  /** The workflows considered one after the other. */
  function DiscoverAll(st: Discovery, infos: seq<WorkflowInfo>, ctx: Context): Discovery
  {
    if infos == [] then st else Step(DiscoverAll(st, infos[..|infos| - 1], ctx), infos[|infos| - 1], ctx)
  }

  lemma DiscoverAllStep(st: Discovery, infos: seq<WorkflowInfo>, j: nat, ctx: Context)
    requires j < |infos|
    ensures DiscoverAll(st, infos[..j + 1], ctx) == Step(DiscoverAll(st, infos[..j], ctx), infos[j], ctx)
  {
    assert infos[..j + 1][..j] == infos[..j];
  }

  /** Considering two runs of workflows is considering the second after the first. */
  lemma {:induction false} DiscoverAllAppend(st: Discovery, a: seq<WorkflowInfo>, b: seq<WorkflowInfo>, ctx: Context)
    ensures DiscoverAll(st, a + b, ctx) == DiscoverAll(DiscoverAll(st, a, ctx), b, ctx)
  {
    if b == [] {
      assert a + b == a;
    } else {
      var init := b[..|b| - 1];
      DiscoverAllAppend(st, a, init, ctx);
      assert (a + b)[..|a + b| - 1] == a + init;
    }
  }

  /** What `discover_workflows` returns. */
  function Discover(byTarget: map<string, string>, existing: Mapping, files: seq<SourceFile>, uuid: nat -> string): map<string, WorkflowInfo>
  {
    DiscoverAll(Discovery(map[], 0), Candidates(files), Context(byTarget, existing, uuid)).found
  }

  /** `discover_workflows` */
  method DiscoverWorkflows(byTarget: map<string, string>, existing: Mapping, files: seq<SourceFile>, uuid: nat -> string)
    returns (discovered: map<string, WorkflowInfo>)
    ensures discovered == Discover(byTarget, existing, files, uuid)
  {
    ghost var ctx := Context(byTarget, existing, uuid);
    ghost var start := Discovery(map[], 0);
    discovered := map[];
    var drawn := 0;
    var existingModules := set p | p in existing :: ModuleOf(p.1);
    for i := 0 to |files|
      invariant Discovery(discovered, drawn) == DiscoverAll(start, Candidates(files[..i]), ctx)
    {
      CandidatesStep(files, i);
      DiscoverAllAppend(start, Candidates(files[..i]), FileWorkflows(files[i]), ctx);
      discovered, drawn := ScanFile(files[i], byTarget, existing, existingModules, uuid, discovered, drawn);
    }
    assert files[..|files|] == files;
  }

  /** One turn of the outer loop of `discover_workflows`: import the file's module, and consider
      each of its pipeline classes; a file whose import fails adds nothing. */
  method ScanFile(f: SourceFile, byTarget: map<string, string>, existing: Mapping, existingModules: set<string>,
                  uuid: nat -> string, discovered: map<string, WorkflowInfo>, drawn: nat)
    returns (discovered': map<string, WorkflowInfo>, drawn': nat)
    requires existingModules == ExistingModules(existing)
    ensures Discovery(discovered', drawn') == DiscoverAll(Discovery(discovered, drawn), FileWorkflows(f), Context(byTarget, existing, uuid))
  {
    ghost var ctx := Context(byTarget, existing, uuid);
    discovered', drawn' := discovered, drawn;
    var relModule := ModulePath(f.relative);
    if f.imported.None? {
      return;
    }
    var workflows := ExtractPipelineClasses(f.imported.value, relModule);
    for j := 0 to |workflows|
      invariant Discovery(discovered', drawn') == DiscoverAll(Discovery(discovered, drawn), workflows[..j], ctx)
    {
      DiscoverAllStep(Discovery(discovered, drawn), workflows, j, ctx);
      discovered', drawn' := ConsiderWorkflow(workflows[j], byTarget, existing, existingModules, uuid, discovered', drawn');
    }
    assert workflows[..|workflows|] == workflows;
  }

  /** One turn of the inner loop of `discover_workflows`: skip a workflow whose module is known,
      else choose its id and add it unless the mapping already has that id. */
  method ConsiderWorkflow(info: WorkflowInfo, byTarget: map<string, string>, existing: Mapping, existingModules: set<string>,
                          uuid: nat -> string, discovered: map<string, WorkflowInfo>, drawn: nat)
    returns (discovered': map<string, WorkflowInfo>, drawn': nat)
    requires existingModules == ExistingModules(existing)
    ensures Discovery(discovered', drawn') == Step(Discovery(discovered, drawn), info, Context(byTarget, existing, uuid))
  {
    discovered', drawn' := discovered, drawn;
    if info.modulePath in existingModules || ModuleFound(discovered, info.modulePath) {
      return;
    }
    var choice := GetOrGenerateUuid(info, byTarget, uuid, drawn);
    drawn' := choice.drawn;
    if ShouldSkipExisting(choice.id, existing) {
      return;
    }
    discovered' := discovered[choice.id := info];
  }

  /** What the discovery keeps true: no workflow of an existing module, one per module, and no id
      of the mapping. */
  predicate Sound(found: map<string, WorkflowInfo>, existing: Mapping)
  {
    && (forall id :: id in found ==> found[id].modulePath !in ExistingModules(existing))
    && (forall id1, id2 :: id1 in found && id2 in found && id1 != id2 ==> found[id1].modulePath != found[id2].modulePath)
    && (forall id :: id in found ==> id !in ExistingIds(existing))
  }

  lemma StepSound(st: Discovery, info: WorkflowInfo, ctx: Context)
    requires Sound(st.found, ctx.existing)
    ensures Sound(Step(st, info, ctx).found, ctx.existing)
    ensures forall id :: id in Step(st, info, ctx).found ==> id in st.found || Step(st, info, ctx).found[id] == info
  {
  }

  lemma {:induction false} DiscoverAllSound(st: Discovery, infos: seq<WorkflowInfo>, ctx: Context)
    requires Sound(st.found, ctx.existing)
    ensures Sound(DiscoverAll(st, infos, ctx).found, ctx.existing)
    ensures forall id :: id in DiscoverAll(st, infos, ctx).found ==> id in st.found || DiscoverAll(st, infos, ctx).found[id] in infos
  {
    if infos != [] {
      var init := infos[..|infos| - 1];
      DiscoverAllSound(st, init, ctx);
      var mid := DiscoverAll(st, init, ctx);
      StepSound(mid, infos[|infos| - 1], ctx);
      forall id | id in DiscoverAll(st, infos, ctx).found && id !in st.found
        ensures DiscoverAll(st, infos, ctx).found[id] in infos
      {
        if id in mid.found && DiscoverAll(st, infos, ctx).found[id] == mid.found[id] {
          assert mid.found[id] in init;
        }
      }
    }
  }

  /** The discovered workflows all come from the scanned files; none belongs to a module of the
      mapping, no two share a module, and no id is one the mapping already has. */
  lemma DiscoverSpec(byTarget: map<string, string>, existing: Mapping, files: seq<SourceFile>, uuid: nat -> string)
    ensures Sound(Discover(byTarget, existing, files, uuid), existing)
    ensures forall id :: id in Discover(byTarget, existing, files, uuid) ==> Discover(byTarget, existing, files, uuid)[id] in Candidates(files)
  {
    DiscoverAllSound(Discovery(map[], 0), Candidates(files), Context(byTarget, existing, uuid));
  }

  /** The target map hands out ids of the mapping only. */
  predicate ReusesExisting(ctx: Context)
  {
    forall t :: t in ctx.byTarget ==> ctx.byTarget[t] in ExistingIds(ctx.existing)
  }

  /** Every id found so far is one of the fresh ids generated so far. */
  ghost predicate FoundFresh(st: Discovery, ctx: Context)
  {
    forall id :: id in st.found ==> exists k :: 0 <= k < st.drawn && ctx.uuid(k) == id
  }

  lemma StepFresh(st: Discovery, info: WorkflowInfo, ctx: Context)
    requires ReusesExisting(ctx) && FoundFresh(st, ctx)
    ensures FoundFresh(Step(st, info, ctx), ctx)
    ensures st.drawn <= Step(st, info, ctx).drawn
  {
    var r := Step(st, info, ctx);
    forall id | id in r.found ensures exists k :: 0 <= k < r.drawn && ctx.uuid(k) == id {
      if id in st.found {
        var k :| 0 <= k < st.drawn && ctx.uuid(k) == id;
      } else {
        assert ctx.uuid(st.drawn) == id;
      }
    }
  }

  lemma {:induction false} DiscoverAllFresh(st: Discovery, infos: seq<WorkflowInfo>, ctx: Context)
    requires ReusesExisting(ctx) && FoundFresh(st, ctx)
    ensures FoundFresh(DiscoverAll(st, infos, ctx), ctx)
  {
    if infos != [] {
      DiscoverAllFresh(st, infos[..|infos| - 1], ctx);
      StepFresh(DiscoverAll(st, infos[..|infos| - 1], ctx), infos[|infos| - 1], ctx);
    }
  }

  /** A workflow whose target the mapping knows is never added again under its old id: with the
      target map built from the mapping, every discovered id is a freshly generated one. */
  lemma DiscoverUsesFreshIds(existing: Mapping, files: seq<SourceFile>, uuid: nat -> string)
    requires BuildTargetToUuidMap(existing).Ok?
    ensures var found := Discover(BuildTargetToUuidMap(existing).value, existing, files, uuid);
      forall id :: id in found ==> exists k :: 0 <= k && uuid(k) == id
  {
    var ctx := Context(BuildTargetToUuidMap(existing).value, existing, uuid);
    TargetIdsExist(existing);
    DiscoverAllFresh(Discovery(map[], 0), Candidates(files), ctx);
  }

  /** The assumptions under which the discovery misses nothing: fresh ids are new and never
      repeat, the target map comes from the mapping, and no module name contains '#'. */
  ghost predicate Complete(ctx: Context)
  {
    && BuildTargetToUuidMap(ctx.existing) == Ok(ctx.byTarget)
    && (forall k :: ctx.uuid(k) !in ExistingIds(ctx.existing))
    && (forall k1, k2 :: k1 != k2 ==> ctx.uuid(k1) != ctx.uuid(k2))
    && (forall p :: p in ctx.existing ==> HashFree(ModuleOf(p.1)))
  }

  /** Every module considered so far is in the mapping or among the found workflows. */
  predicate Covers(st: Discovery, infos: seq<WorkflowInfo>, ctx: Context)
  {
    forall k :: 0 <= k < |infos| ==> infos[k].modulePath in ExistingModules(ctx.existing) || ModuleFound(st.found, infos[k].modulePath)
  }

  /** A target key the map knows belongs to a module of the mapping. */
  lemma KnownTargetModule(ctx: Context, info: WorkflowInfo)
    requires Complete(ctx) && HashFree(info.modulePath)
    requires Target(info.modulePath, info.className) in ctx.byTarget
    ensures info.modulePath in ExistingModules(ctx.existing)
  {
    var t := Target(info.modulePath, info.className);
    BuildTargetSpec(ctx.existing, t);
    var i :| 0 <= i < |ctx.existing| && TargetOf(ctx.existing[i].1) == Some(t);
    var v := ctx.existing[i].1;
    assert ctx.existing[i] in ctx.existing;
    TargetModule(info.modulePath, info.className, v["module"], v["class"]);
  }

  /** A class whose target already has an id is skipped by the module check before any id is
      chosen: the id reuse of `_get_or_generate_uuid` never adds an entry. */
  lemma KnownTargetSkipped(st: Discovery, info: WorkflowInfo, ctx: Context)
    requires BuildTargetToUuidMap(ctx.existing) == Ok(ctx.byTarget)
    requires forall p :: p in ctx.existing ==> HashFree(ModuleOf(p.1))
    requires HashFree(info.modulePath)
    requires Target(info.modulePath, info.className) in ctx.byTarget
    ensures Step(st, info, ctx) == st
  {
    var t := Target(info.modulePath, info.className);
    BuildTargetSpec(ctx.existing, t);
    var i :| 0 <= i < |ctx.existing| && TargetOf(ctx.existing[i].1) == Some(t);
    var v := ctx.existing[i].1;
    assert ctx.existing[i] in ctx.existing;
    TargetModule(info.modulePath, info.className, v["module"], v["class"]);
  }

  lemma StepCovers(st: Discovery, infos: seq<WorkflowInfo>, info: WorkflowInfo, ctx: Context)
    requires Complete(ctx) && HashFree(info.modulePath)
    requires FoundFresh(st, ctx) && Covers(st, infos, ctx)
    ensures Covers(Step(st, info, ctx), infos + [info], ctx)
  {
    var r := Step(st, info, ctx);
    TargetIdsExist(ctx.existing);
    if !(info.modulePath in ExistingModules(ctx.existing) || ModuleFound(st.found, info.modulePath)) {
      var key := Target(info.modulePath, info.className);
      if key in ctx.byTarget {
        KnownTargetModule(ctx, info);
      }
      var id := ctx.uuid(st.drawn);
      assert r.found == st.found[id := info];
      assert id !in st.found by {
        assert forall j :: 0 <= j < st.drawn ==> ctx.uuid(j) != id;
      }
      forall k | 0 <= k < |infos| && ModuleFound(st.found, infos[k].modulePath)
        ensures ModuleFound(r.found, infos[k].modulePath)
      {
        var j :| j in st.found && st.found[j].modulePath == infos[k].modulePath;
        assert r.found[j] == st.found[j];
      }
      assert r.found[id] == info;
    }
    forall k | 0 <= k < |infos| + 1
      ensures (infos + [info])[k].modulePath in ExistingModules(ctx.existing) || ModuleFound(r.found, (infos + [info])[k].modulePath)
    {
      if k < |infos| {
        assert (infos + [info])[k] == infos[k];
      }
    }
  }

  lemma {:induction false} DiscoverAllCovers(st: Discovery, done: seq<WorkflowInfo>, infos: seq<WorkflowInfo>, ctx: Context)
    requires Complete(ctx) && forall k :: 0 <= k < |infos| ==> HashFree(infos[k].modulePath)
    requires FoundFresh(st, ctx) && Covers(st, done, ctx)
    ensures Covers(DiscoverAll(st, infos, ctx), done + infos, ctx)
  {
    if infos == [] {
      assert done + infos == done;
    } else {
      var init := infos[..|infos| - 1];
      DiscoverAllCovers(st, done, init, ctx);
      TargetIdsExist(ctx.existing);
      DiscoverAllFresh(st, init, ctx);
      StepCovers(DiscoverAll(st, init, ctx), done + init, infos[|infos| - 1], ctx);
      assert done + init + [infos[|infos| - 1]] == done + infos;
    }
  }

  /** Every module of the scanned files with a pipeline class ends up in the mapping or among
      the discovered workflows, as long as fresh ids are new and distinct and no path or module
      name contains '#'. */
  lemma DiscoverComplete(existing: Mapping, files: seq<SourceFile>, uuid: nat -> string)
    requires BuildTargetToUuidMap(existing).Ok?
    requires forall k :: uuid(k) !in ExistingIds(existing)
    requires forall k1, k2 :: k1 != k2 ==> uuid(k1) != uuid(k2)
    requires forall p :: p in existing ==> HashFree(ModuleOf(p.1))
    requires forall i :: 0 <= i < |files| ==> HashFree(files[i].relative)
    ensures var found := Discover(BuildTargetToUuidMap(existing).value, existing, files, uuid);
      forall w :: w in Candidates(files) ==> w.modulePath in ExistingModules(existing) || ModuleFound(found, w.modulePath)
  {
    var ctx := Context(BuildTargetToUuidMap(existing).value, existing, uuid);
    var cands := Candidates(files);
    CandidatesHashFree(files);
    DiscoverAllCovers(Discovery(map[], 0), [], cands, ctx);
    assert [] + cands == cands;
  }

  /** Scanned paths without '#' give workflows whose modules have none. */
  lemma {:induction false} CandidatesHashFree(files: seq<SourceFile>)
    requires forall i :: 0 <= i < |files| ==> HashFree(files[i].relative)
    ensures forall k :: 0 <= k < |Candidates(files)| ==> HashFree(Candidates(files)[k].modulePath)
  {
    if files != [] {
      var f := files[|files| - 1];
      CandidatesHashFree(files[..|files| - 1]);
      ModulePathHashFree(f.relative);
      var ws := FileWorkflows(f);
      forall w | w in ws ensures HashFree(w.modulePath) {
        match f.imported {
          case Some(attrs) =>
            PipelineClassesMembers(attrs, ModulePath(f.relative), w);
          case None =>
        }
      }
      var c := Candidates(files);
      var c0 := Candidates(files[..|files| - 1]);
      forall k | 0 <= k < |c| ensures HashFree(c[k].modulePath) {
        if k < |c0| {
          assert c[k] == c0[k];
        } else {
          assert c[k] == ws[k - |c0|];
        }
      }
    }
  }

  /** A discovered workflow as the mapping file stores it. */
  function InfoEntry(w: WorkflowInfo): Entry
  {
    map["module" := w.modulePath, "class" := w.className]
  }

  /** `merged = dict(existing); merged.update(discovered)` */
  function Merge(existing: map<string, Entry>, discovered: map<string, WorkflowInfo>): (merged: map<string, Entry>)
    ensures merged.Keys == existing.Keys + discovered.Keys
    ensures forall id :: id in discovered ==> merged[id] == InfoEntry(discovered[id])
    ensures forall id :: id in existing && id !in discovered ==> merged[id] == existing[id]
  {
    existing + map id | id in discovered :: InfoEntry(discovered[id])
  }

  /** With disjoint ids the merge adds every discovered workflow and keeps every existing entry. */
  lemma MergeDisjoint(existing: map<string, Entry>, discovered: map<string, WorkflowInfo>)
    requires existing.Keys !! discovered.Keys
    ensures |Merge(existing, discovered)| == |existing| + |discovered|
    ensures forall id :: id in existing ==> Merge(existing, discovered)[id] == existing[id]
  {
    var merged := Merge(existing, discovered);
    assert |merged| == |merged.Keys|;
    assert |existing.Keys + discovered.Keys| == |existing.Keys| + |discovered.Keys|;
  }

  /** `persist_mapping` after `discover_workflows`: the written mapping holds the old entries
      unchanged and one more entry per discovered workflow. */
  lemma PersistSpec(byTarget: map<string, string>, existing: Mapping, files: seq<SourceFile>, uuid: nat -> string)
    ensures var found := Discover(byTarget, existing, files, uuid);
      |Merge(AsMap(existing), found)| == |AsMap(existing)| + |found|
    ensures var found := Discover(byTarget, existing, files, uuid);
      forall id :: id in AsMap(existing) ==> Merge(AsMap(existing), found)[id] == AsMap(existing)[id]
  {
    var found := Discover(byTarget, existing, files, uuid);
    DiscoverSpec(byTarget, existing, files, uuid);
    forall id | id in found ensures id !in AsMap(existing) {
      ExistingIdsOfMap(existing, id);
    }
    MergeDisjoint(AsMap(existing), found);
  }

  /** `WorkflowTagger.run` from the loaded mapping on: the mapping to write, or the error
      building the target map raises. */
  method Run(existing: Mapping, files: seq<SourceFile>, uuid: nat -> string) returns (r: Result<map<string, Entry>>)
    ensures BuildTargetToUuidMap(existing).Err? ==> r == Err(KeyError)
    ensures BuildTargetToUuidMap(existing).Ok? ==>
      r == Ok(Merge(AsMap(existing), Discover(BuildTargetToUuidMap(existing).value, existing, files, uuid)))
  {
    var byTarget := BuildTargetToUuidMap(existing);
    if byTarget.Err? {
      return Err(byTarget.error);
    }
    var discovered := DiscoverWorkflows(byTarget.value, existing, files, uuid);
    r := Ok(Merge(AsMap(existing), discovered));
  }
}
