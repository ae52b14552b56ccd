/**
 * src/commands/init.ts (and the older copy inside src/index.ts): the
 * manifest initialisation, the dependency install calls and the order in
 * which the command performs its steps. Subprocesses are recorded as the
 * calls that would be made, not run.
 */
module Init {
  import opened Wrappers
  import opened Json
  import opened Templates
  import opened Store
  import opened Deps
  import opened PackageManagers
  import opened EntryPoints

  const InitExports: Json := Obj(map[
    "./package.json" := Str("./package.json"),
    "." := Obj(map["import" := Str("./dist/index.js"), "require" := Str("./dist/index.cjs")])
  ])

  const Scripts: Json := Obj(map[
    "prepare" := Str("husky install"),
    "prebuild" := Str("yarn type"),
    "build" := Str("tsup"),
    "test" := Str("vitest"),
    "lint" := Str("eslint"),
    "format" := Str("prettier"),
    "pre-commit" := Str("lint-staged"),
    "attw" := Str("attw"),
    "publint" := Str("publint"),
    "type" := Str("tsc"),
    "prepack" := Str("yarn publint")
  ])

  /** The object handed to `Object.assign`; only `version` depends on the manifest. */
  function InitFields(pkg: map<string, Json>): (fields: map<string, Json>)
    ensures fields.Keys == {"version", "type", "main", "module", "types", "exports", "files",
                            "scripts", "prettier", "lint-staged", "tsup"}
  {
    map[
      "version" := if IsNullish(pkg, "version") then Str("1.0.0") else pkg["version"],
      "type" := Str("module"),
      "main" := Str("./dist/index.cjs"),
      "module" := Str("./dist/index.js"),
      "types" := Str("./dist/index.d.ts"),
      "exports" := InitExports,
      "files" := Arr([Str("dist")]),
      "scripts" := Scripts,
      "prettier" := Obj(map[]),
      "lint-staged" := Obj(map["*.{ts,md}" := Str("prettier --write")]),
      "tsup" := DefaultTsupConfig
    ]
  }

  /** `delete packageJson.main` followed by `Object.assign(packageJson, fields)`. */
  function InitManifest(pkg: map<string, Json>): map<string, Json>
  {
    (pkg - {"main"}) + InitFields(pkg)
  }

  /**
   * The manifest step against the store: read, transform, create an empty
   * `src/index.ts`, write back. A `null` document makes `delete` throw. Any
   * other document that is not an object (an array, a string, a number, a
   * boolean) takes the deletion and the assignment on a wrapper object whose
   * new properties `JSON.stringify` does not write, so it is written back as it was.
   */
  function InitOnDisk(files: map<string, File>): (r: (map<string, File>, Option<ReadError>))
    ensures r.1.Some? ==> r.0 == files
  {
    match ReadDocument(files, "")
    case Err(re) => (files, Some(re))
    case Ok(doc) =>
      if doc.Null? then (files, Some(NotAnObject))
      else
        var written := if doc.Obj? then Obj(InitManifest(doc.fields)) else doc;
        (files["src/index.ts" := TextFile("")][ManifestPath("") := JsonFile(written)], None)
  }

  method InitPackageJson(disk: Disk) returns (err: Option<ReadError>)
    modifies disk
    ensures (disk.files, err) == InitOnDisk(old(disk.files))
  {
    var read := disk.GetPackageJson("");
    if read.Err? {
      return Some(read.error);
    }
    var packageJson := read.value;
    if packageJson.Null? {
      return Some(NotAnObject);
    }
    if packageJson.Obj? {
      var fields := InitFields(packageJson.fields);
      packageJson := Obj(packageJson.fields - {"main"});
      packageJson := Obj(packageJson.fields + fields);
    }
    disk.Touch("src/index.ts");
    disk.WritePackageJson(packageJson, "");
    err := None;
  }

  /** A manifest object is initialised; a `null` document fails and changes
      nothing; any other document is written back unchanged, and in every
      case but a failure `src/index.ts` is left empty. */
  lemma InitOnDiskCases(files: map<string, File>)
    requires ManifestPath("") in files && files[ManifestPath("")].JsonFile?
    ensures var doc := files[ManifestPath("")].doc;
      var (after, err) := InitOnDisk(files);
      && (doc.Null? ==> after == files && err == Some(NotAnObject))
      && (!doc.Null? ==>
            && err.None? && after["src/index.ts"] == TextFile("")
            && after.Keys == files.Keys + {"src/index.ts"}
            && forall p :: p in files && p !in {"src/index.ts", ManifestPath("")} ==> after[p] == files[p])
      && (doc.Obj? ==> after[ManifestPath("")] == JsonFile(Obj(InitManifest(doc.fields))))
      && (!doc.Obj? && !doc.Null? ==> after[ManifestPath("")] == files[ManifestPath("")])
  {
  }

  /** An existing version is kept; a missing or null one becomes "1.0.0". */
  lemma InitVersion(pkg: map<string, Json>)
    ensures !IsNullish(pkg, "version") ==> InitManifest(pkg)["version"] == pkg["version"]
    ensures IsNullish(pkg, "version") ==> InitManifest(pkg)["version"] == Str("1.0.0")
  {
  }

  /** Whatever came before: `main` points at the CommonJS bundle, `exports`
      has exactly the keys "./package.json" and ".", `files` is ["dist"] and
      `tsup` is the default configuration. */
  lemma InitFixedFields(pkg: map<string, Json>)
    ensures InitManifest(pkg)["main"] == Str("./dist/index.cjs")
    ensures InitManifest(pkg)["exports"].Obj? && InitManifest(pkg)["exports"].fields.Keys == {"./package.json", "."}
    ensures InitManifest(pkg)["files"] == Arr([Str("dist")])
    ensures InitManifest(pkg)["tsup"] == DefaultTsupConfig
  {
  }

  /** Fields outside the assignment (name, description, ...) are unchanged;
      no field is lost. */
  lemma InitKeepsOtherFields(pkg: map<string, Json>)
    ensures InitManifest(pkg).Keys == pkg.Keys + InitFields(pkg).Keys
    ensures forall k :: k in pkg && k !in InitFields(pkg) ==> InitManifest(pkg)[k] == pkg[k]
  {
  }

  /** An entry point added after initialisation cannot throw. */
  lemma InitShapeOk(pkg: map<string, Json>)
    ensures ShapeOk(InitManifest(pkg))
    ensures FilesOf(InitManifest(pkg)) == Arr([Str("dist")])
    ensures TsupOf(InitManifest(pkg)) == DefaultTsupConfig
  {
    InitFixedFields(pkg);
  }

  /** After initialisation an addition takes the list branch of the default
      `tsup.entry` and `files` becomes ["dist", e]. */
  lemma InitThenAddEntrypoint(pkg: map<string, Json>, e: string)
    ensures Transform(InitManifest(pkg), e).Ok?
    ensures var after := Transform(InitManifest(pkg), e).value;
      && after["files"] == Arr([Str("dist"), Str(e)])
      && after["tsup"].Obj?
      && after["tsup"].fields["entry"] == Arr([Str("src/index.ts"), Str("src/" + e + ".ts")])
  {
    InitShapeOk(pkg);
    AddToInitialisedShape(InitManifest(pkg), e);
  }

  /** An addition to any manifest with the shape `init` leaves behind. */
  lemma AddToInitialisedShape(m: map<string, Json>, e: string)
    requires ShapeOk(m) && FilesOf(m) == Arr([Str("dist")]) && TsupOf(m) == DefaultTsupConfig
    ensures Transform(m, e).Ok?
    ensures var after := Transform(m, e).value;
      && after["files"] == Arr([Str("dist"), Str(e)])
      && after["tsup"].Obj?
      && after["tsup"].fields["entry"] == Arr([Str("src/index.ts"), Str("src/" + e + ".ts")])
  {
    ThrowsOnlyOnBadShape(m, e, e);
    var after := Transform(m, e).value;
    FilesAfterAdd(m, e);
    assert FilesOf(m).items + [Str(e)] == [Str("dist"), Str(e)];
    EntryAfterAdd(m, e);
    var before := EntryOf(TsupOf(m).fields);
    assert before == Arr([Str("src/index.ts")]);
    assert after["tsup"].Obj? && after["tsup"].fields["entry"] == Arr(before.items + [Str("src/" + e + ".ts")]);
    assert before.items + [Str("src/" + e + ".ts")] == [Str("src/index.ts"), Str("src/" + e + ".ts")];
  }

  /** After initialisation and one addition the manifest exports exactly
      "./package.json", "." and the new subpath. */
  lemma InitThenAddExports(pkg: map<string, Json>, e: string)
    ensures Transform(InitManifest(pkg), e).Ok?
    ensures var after := Transform(InitManifest(pkg), e).value;
      after["exports"].Obj? && after["exports"].fields.Keys == {"./package.json", ".", "./" + e}
  {
    var init := InitManifest(pkg);
    InitFixedFields(pkg);
    InitShapeOk(pkg);
    ThrowsOnlyOnBadShape(init, e, e);
    ExportsAfterAdd(init, e);
  }

  // ---------------------------------------------------------------------
  // Subprocess calls and step order

  /** An `execFile(file, args)` call. */
  datatype Exec = Exec(file: string, args: seq<string>)

  /** The install calls of init.ts: one for runtime dependencies, one with
      the dev flag for dev dependencies, each only when its list is non-empty. */
  function InstallCalls(pm: Manager, deps: DependencyMap, devDeps: DependencyMap): (calls: seq<Exec>)
    ensures |calls| == (if deps == [] then 0 else 1) + (if devDeps == [] then 0 else 1)
    ensures forall c :: c in calls ==> c.file == Name(pm) && |c.args| > 0 && c.args[0] == Commands(pm).install.command
    ensures deps != [] ==> calls[0].args[1..] == ProcessDepMap(deps)
    ensures devDeps != [] ==> var dev := calls[|calls| - 1];
      |dev.args| >= 2 && dev.args[1] == "-D" && dev.args[2..] == ProcessDepMap(devDeps)
  {
    var install := Commands(pm).install;
    var depsProcessed := ProcessDepMap(deps);
    var devDepsProcessed := ProcessDepMap(devDeps);
    (if |depsProcessed| > 0 then [Exec(Name(pm), [install.command] + depsProcessed)] else [])
    + (if |devDepsProcessed| > 0 then [Exec(Name(pm), [install.command, install.dev] + devDepsProcessed)] else [])
  }

  /** With the shipped lists only the dev install runs, e.g. `yarn add -D ... eslint@^8 ...`. */
  lemma ShippedInstall(pm: Manager)
    ensures var calls := InstallCalls(pm, Deps.Deps, DevDeps);
      && |calls| == 1
      && calls[0].args[..2] == [Commands(pm).install.command, "-D"]
      && "eslint@^8" in calls[0].args
  {
    DevDepsRendered();
    var calls := InstallCalls(pm, Deps.Deps, DevDeps);
    assert calls[0].args[2..][3] == "eslint@^8";
  }

  /** The single unconditional install call of src/index.ts. */
  function LegacyInstallCall(pm: Manager): (call: Exec)
    ensures call.file == Name(pm)
    ensures |call.args| == 2 + |LegacyDevDeps|
    ensures call.args[..2] == [Commands(pm).install.command, "-D"]
    ensures forall i :: 2 <= i < |call.args| ==> call.args[i] == LegacyDevDeps[i - 2].0
  {
    LegacyDepListBare();
    Exec(Name(pm), [Commands(pm).install.command, Commands(pm).install.dev] + ProcessDepMap(LegacyDevDeps))
  }

  datatype Step =
    | CopyBaseTemplates
    | Run(call: Exec)
    | TouchFile(path: string)
    | InitializeManifest
    | AddEntrypointStep(name: string)
    | Install(call: Exec)
    | PromptEntrypoints

  function AddSteps(names: seq<string>): (steps: seq<Step>)
    ensures |steps| == |names|
    ensures forall i :: 0 <= i < |names| ==> steps[i] == AddEntrypointStep(names[i])
  {
    seq(|names|, i requires 0 <= i < |names| => AddEntrypointStep(names[i]))
  }

  function InstallSteps(calls: seq<Exec>): (steps: seq<Step>)
    ensures |steps| == |calls|
    ensures forall i :: 0 <= i < |calls| ==> steps[i] == Install(calls[i])
  {
    seq(|calls|, i requires 0 <= i < |calls| => Install(calls[i]))
  }

  /** The steps both versions share before they diverge: copy the base
      templates, `git init`, the Yarn set-up, the manager's init, the manifest. */
  function SetupSteps(pm: Manager): (steps: seq<Step>)
    ensures forall s :: s in steps ==> !s.AddEntrypointStep? && !s.Install?
  {
    [CopyBaseTemplates, Run(Exec("git", ["init"]))]
    + (if pm == Yarn then [TouchFile("yarn.lock"), Run(Exec("yarn", ["set", "version", "stable"]))] else [])
    + [Run(Exec(Name(pm), [Commands(pm).init.command, Commands(pm).init.yes])), InitializeManifest]
  }

  /** init.ts: entry points are added before the dependencies are installed. */
  function InitSteps(pm: Manager, entryPoints: seq<string>): seq<Step>
  {
    SetupSteps(pm) + AddSteps(entryPoints) + InstallSteps(InstallCalls(pm, Deps.Deps, DevDeps)) + [PromptEntrypoints]
  }

  /** src/index.ts: the dependencies are installed first. */
  function LegacyInitSteps(pm: Manager, entryPoints: seq<string>): seq<Step>
  {
    SetupSteps(pm) + [Install(LegacyInstallCall(pm))] + AddSteps(entryPoints) + [PromptEntrypoints]
  }

  /** In init.ts every entry-point addition precedes every install, and the
      additions follow the order the names were given in. */
  lemma EntrypointsBeforeInstall(pm: Manager, entryPoints: seq<string>)
    ensures var steps := InitSteps(pm, entryPoints);
      forall i, j :: 0 <= i < |steps| && 0 <= j < |steps| && steps[i].AddEntrypointStep? && steps[j].Install? ==> i < j
    ensures var steps := InitSteps(pm, entryPoints);
      forall k :: 0 <= k < |entryPoints| ==> steps[|SetupSteps(pm)| + k] == AddEntrypointStep(entryPoints[k])
  {
    var setup := SetupSteps(pm);
    var adds := AddSteps(entryPoints);
    var steps := InitSteps(pm, entryPoints);
    forall i | 0 <= i < |steps| && steps[i].AddEntrypointStep?
      ensures |setup| <= i < |setup| + |adds|
    {
    }
    forall j | 0 <= j < |steps| && steps[j].Install?
      ensures |setup| + |adds| <= j
    {
    }
  }

  /** In src/index.ts the install precedes every entry-point addition. */
  lemma LegacyInstallBeforeEntrypoints(pm: Manager, entryPoints: seq<string>)
    ensures var steps := LegacyInitSteps(pm, entryPoints);
      forall i, j :: 0 <= i < |steps| && 0 <= j < |steps| && steps[i].AddEntrypointStep? && steps[j].Install? ==> j < i
  {
    var setup := SetupSteps(pm);
    var steps := LegacyInitSteps(pm, entryPoints);
    forall i | 0 <= i < |steps| && steps[i].AddEntrypointStep?
      ensures |setup| + 1 <= i
    {
    }
    forall j | 0 <= j < |steps| && steps[j].Install?
      ensures j == |setup|
    {
    }
  }
}
