/**
 * src/lib/entry-points.ts (and its older copy in src/index.ts): adding a
 * named entry point to the project. The root manifest gains an export
 * subpath, a `files` item and a bundler entry; a stub manifest is written
 * into the entry point's own directory and an empty source file is created.
 */
module EntryPoints {
  import opened Wrappers
  import opened Json
  import opened Templates
  import opened Store

  /** Why the transform throws: the explicit "exports must be object", or
      the TypeError a strict-mode property access raises on a wrong shape. */
  datatype ShapeError = ExportsNotObject | FilesNotArray | TsupNotObject | EntryNotContainer

  datatype AddError = ReadFailed(read: ReadError) | BadShape(shape: ShapeError)

  /** The value stored under `exports["./<e>"]`. */
  function ExportTarget(e: string): Json
  {
    Obj(map["import" := Str("./dist/" + e + ".js"), "require" := Str("./dist/" + e + ".cjs")])
  }

  /** The bundler entry, which is also the source file created for `e`. */
  function EntryPath(e: string): string
  {
    "src/" + e + ".ts"
  }

  /** A manifest property after `??=` with the given default. */
  function OrDefault(pkg: map<string, Json>, k: string, default: Json): (v: Json)
    ensures IsNullish(pkg, k) ==> v == default
    ensures !IsNullish(pkg, k) ==> v == pkg[k]
  {
    if IsNullish(pkg, k) then default else pkg[k]
  }

  function ExportsOf(pkg: map<string, Json>): Json { OrDefault(pkg, "exports", Obj(map[])) }
  function FilesOf(pkg: map<string, Json>): Json { OrDefault(pkg, "files", Arr([])) }
  function TsupOf(pkg: map<string, Json>): Json { OrDefault(pkg, "tsup", DefaultTsupConfig) }
  function EntryOf(tsup: map<string, Json>): Json { OrDefault(tsup, "entry", Arr([])) }

  /** Manifests on which the transform does not throw. An array `tsup` is
      accepted: the `entry` property set on it is lost when it is written. */
  predicate ShapeOk(pkg: map<string, Json>)
  {
    && ExportsOf(pkg).Obj?
    && FilesOf(pkg).Arr?
    && (TsupOf(pkg).Arr? || (TsupOf(pkg).Obj? && (EntryOf(TsupOf(pkg).fields).Arr? || EntryOf(TsupOf(pkg).fields).Obj?)))
  }

  /** The shape-preserving update of `entry`: push onto a list, set a key of a mapping. */
  function AddToEntry(entry: Json, e: string): (r: Json)
    requires entry.Arr? || entry.Obj?
    ensures entry.Arr? ==> r.Arr? && |r.items| == |entry.items| + 1
    ensures entry.Arr? ==> r.items[..|entry.items|] == entry.items && r.items[|entry.items|] == Str(EntryPath(e))
    ensures entry.Obj? ==> r.Obj? && r.fields.Keys == entry.fields.Keys + {e} && r.fields[e] == Str(EntryPath(e))
    ensures entry.Obj? ==> forall k :: k in entry.fields && k != e ==> r.fields[k] == entry.fields[k]
  {
    if entry.Arr? then Arr(entry.items + [Str(EntryPath(e))])
    else Obj(entry.fields[e := Str(EntryPath(e))])
  }

  function AddToTsup(tsup: Json, e: string): Json
    requires tsup.Arr? || (tsup.Obj? && (EntryOf(tsup.fields).Arr? || EntryOf(tsup.fields).Obj?))
  {
    if tsup.Arr? then tsup
    else Obj(tsup.fields["entry" := AddToEntry(EntryOf(tsup.fields), e)])
  }

  /**
   * The in-memory part of `addEntrypoint`: the manifest that is written
   * back, or the error thrown before anything is written.
   */
  function Transform(pkg: map<string, Json>, e: string): (r: Result<map<string, Json>, ShapeError>)
  {
    var exports := ExportsOf(pkg);
    if !exports.Obj? then Err(ExportsNotObject)
    else
      var files := FilesOf(pkg);
      if !files.Arr? then Err(FilesNotArray)
      else
        var tsup := TsupOf(pkg);
        if !(tsup.Obj? || tsup.Arr?) then Err(TsupNotObject)
        else if tsup.Obj? && !(EntryOf(tsup.fields).Arr? || EntryOf(tsup.fields).Obj?) then Err(EntryNotContainer)
        else Ok(pkg["exports" := Obj(exports.fields["./" + e := ExportTarget(e)])]
                   ["tsup" := AddToTsup(tsup, e)]
                   ["files" := Arr(files.items + [Str(e)])])
  }

  /** An optional manifest property: None when undefined (absent). */
  function Prop(pkg: map<string, Json>, k: string): (v: Option<Json>)
    ensures v.Some? <==> k in pkg
  {
    if k in pkg then Some(pkg[k]) else None
  }

  /**
   * `addEntrypoint(e)` against the store: read the root manifest, transform
   * it, write the stub manifest to `<e>/package.json`, create
   * `src/<e>.ts` (truncating it) and write the root manifest back.
   */
  function AddOnDisk(files: map<string, File>, e: string): (r: (map<string, File>, Option<AddError>))
    ensures r.1.Some? ==> r.0 == files
  {
    match ReadManifest(files, "")
    case Err(re) => (files, Some(ReadFailed(re)))
    case Ok(pkg) =>
      match Transform(pkg, e)
      case Err(se) => (files, Some(BadShape(se)))
      case Ok(updated) =>
        var stub := EntrypointPackageJson(Prop(updated, "name"), Prop(updated, "version"), e);
        (files[ManifestPath(e) := JsonFile(Obj(stub))]
              [EntryPath(e) := TextFile("")]
              [ManifestPath("") := JsonFile(Obj(updated))],
         None)
  }

  /** The in-place mutations of `addEntrypoint`, one property at a time. */
  method UpdateManifest(pkg: map<string, Json>, entrypoint: string) returns (r: Result<map<string, Json>, ShapeError>)
    ensures r == Transform(pkg, entrypoint)
  {
    var packageJson := pkg;
    if IsNullish(packageJson, "exports") {
      packageJson := packageJson["exports" := Obj(map[])];
    }
    var exp := packageJson["exports"];
    assert exp == ExportsOf(pkg);
    if !exp.Obj? {
      return Err(ExportsNotObject);
    }
    packageJson := packageJson["exports" := Obj(exp.fields["./" + entrypoint := ExportTarget(entrypoint)])];
    if IsNullish(packageJson, "tsup") {
      packageJson := packageJson["tsup" := DefaultTsupConfig];
    }
    var tsupConfig := packageJson["tsup"];
    assert tsupConfig == TsupOf(pkg);
    if IsNullish(packageJson, "files") {
      packageJson := packageJson["files" := Arr([])];
    }
    var files := packageJson["files"];
    assert files == FilesOf(pkg);
    if !files.Arr? {
      assert Transform(pkg, entrypoint) == Err(FilesNotArray);
      return Err(FilesNotArray);
    }
    packageJson := packageJson["files" := Arr(files.items + [Str(entrypoint)])];
    if !(tsupConfig.Obj? || tsupConfig.Arr?) {
      assert Transform(pkg, entrypoint) == Err(TsupNotObject);
      return Err(TsupNotObject);
    }
    if tsupConfig.Obj? {
      var entry := EntryOf(tsupConfig.fields);
      var entryPath := EntryPath(entrypoint);
      if entry.Arr? {
        entry := Arr(entry.items + [Str(entryPath)]);
      } else if entry.Obj? {
        entry := Obj(entry.fields[entrypoint := Str(entryPath)]);
      } else {
        assert Transform(pkg, entrypoint) == Err(EntryNotContainer);
        return Err(EntryNotContainer);
      }
      packageJson := packageJson["tsup" := Obj(tsupConfig.fields["entry" := entry])];
    }
    assert packageJson["tsup"] == AddToTsup(tsupConfig, entrypoint);
    ghost var expected := Transform(pkg, entrypoint).value;
    assert packageJson.Keys == expected.Keys;
    assert forall k | k in packageJson :: packageJson[k] == expected[k];
    assert packageJson == expected;
    r := Ok(packageJson);
  }

  method AddEntrypoint(disk: Disk, entrypoint: string) returns (err: Option<AddError>)
    modifies disk
    ensures (disk.files, err) == AddOnDisk(old(disk.files), entrypoint)
  {
    var read := disk.GetPackageJson("");
    if read.Err? {
      return Some(ReadFailed(read.error));
    }
    if !read.value.Obj? {
      return Some(ReadFailed(NotAnObject));
    }
    var updated := UpdateManifest(read.value.fields, entrypoint);
    if updated.Err? {
      return Some(BadShape(updated.error));
    }
    var packageJson := updated.value;
    disk.WritePackageJson(
      Obj(EntrypointPackageJson(Prop(packageJson, "name"), Prop(packageJson, "version"), entrypoint)),
      entrypoint);
    disk.Touch("src/" + entrypoint + ".ts");
    disk.WritePackageJson(Obj(packageJson), "");
    err := None;
  }

  /**
   * Several names in one batch. Each call reads the root manifest afresh
   * and writes it back, so the batch is a fold of AddOnDisk. In init.ts the
   * loop runs inside one task, so the first throw ends the batch.
   */
  function AddAllOnDisk(files: map<string, File>, names: seq<string>): (r: (map<string, File>, Option<AddError>))
    decreases |names|
  {
    if names == [] then (files, None)
    else
      var (next, err) := AddOnDisk(files, names[0]);
      if err.Some? then (next, err) else AddAllOnDisk(next, names[1..])
  }

  /** The `tasks` batch of entry-points.ts and add-entrypoints.ts: every
      name gets its own task, a failing task is reported and the rest run. */
  function AddEachOnDisk(files: map<string, File>, names: seq<string>): (r: (map<string, File>, seq<Option<AddError>>))
    ensures |r.1| == |names|
    decreases |names|
  {
    if names == [] then (files, [])
    else
      var (next, err) := AddOnDisk(files, names[0]);
      var (last, errs) := AddEachOnDisk(next, names[1..]);
      (last, [err] + errs)
  }

  /** The manifest-level fold: the transforms in order, stopping at a throw. */
  function TransformAll(pkg: map<string, Json>, names: seq<string>): Result<map<string, Json>, ShapeError>
    decreases |names|
  {
    if names == [] then Ok(pkg)
    else match Transform(pkg, names[0])
      case Err(se) => Err(se)
      case Ok(next) => TransformAll(next, names[1..])
  }

  method AddEntrypoints(disk: Disk, entryPoints: seq<string>) returns (err: Option<AddError>)
    modifies disk
    ensures (disk.files, err) == AddAllOnDisk(old(disk.files), entryPoints)
  {
    for i := 0 to |entryPoints|
      invariant AddAllOnDisk(old(disk.files), entryPoints) == AddAllOnDisk(disk.files, entryPoints[i..])
    {
      assert entryPoints[i..][0] == entryPoints[i] && entryPoints[i..][1..] == entryPoints[i + 1..];
      err := AddEntrypoint(disk, entryPoints[i]);
      if err.Some? {
        return;
      }
    }
    err := None;
  }

  method AddEntrypointTasks(disk: Disk, entryPoints: seq<string>) returns (errs: seq<Option<AddError>>)
    modifies disk
    ensures (disk.files, errs) == AddEachOnDisk(old(disk.files), entryPoints)
  {
    errs := [];
    assert entryPoints[0..] == entryPoints;
    for i := 0 to |entryPoints|
      invariant AddEachOnDisk(old(disk.files), entryPoints).0 == AddEachOnDisk(disk.files, entryPoints[i..]).0
      invariant AddEachOnDisk(old(disk.files), entryPoints).1 == errs + AddEachOnDisk(disk.files, entryPoints[i..]).1
    {
      assert entryPoints[i..][0] == entryPoints[i] && entryPoints[i..][1..] == entryPoints[i + 1..];
      var err := AddEntrypoint(disk, entryPoints[i]);
      errs := errs + [err];
    }
    assert entryPoints[|entryPoints|..] == [];
    assert errs + [] == errs;
  }

  // ---------------------------------------------------------------------
  // Properties of one addition

  /** The transform throws exactly on a wrong shape, and which error it
      throws does not depend on the entry point's name. */
  lemma ThrowsOnlyOnBadShape(pkg: map<string, Json>, e: string, other: string)
    ensures Transform(pkg, e).Ok? <==> ShapeOk(pkg)
    ensures Transform(pkg, e).Err? ==> Transform(pkg, other) == Transform(pkg, e)
  {
  }

  /** A present `exports` that is not an object (an array, a string, ...)
      makes the call throw "exports must be object" and leaves every file as it was. */
  lemma ExportsMustBeObject(files: map<string, File>, pkg: map<string, Json>, e: string)
    requires ReadManifest(files, "") == Ok(pkg)
    requires !IsNullish(pkg, "exports") && !pkg["exports"].Obj?
    ensures AddOnDisk(files, e) == (files, Some(BadShape(ExportsNotObject)))
  {
  }

  /** `exports["./<e>"]` is set to the dist pair, replacing any earlier value;
      the other export keys keep their values, and a missing (or null)
      `exports` becomes an object holding only the new key. */
  lemma ExportsAfterAdd(pkg: map<string, Json>, e: string)
    requires Transform(pkg, e).Ok?
    ensures var exp := Transform(pkg, e).value["exports"];
      && exp.Obj?
      && exp.fields["./" + e] == Obj(map["import" := Str("./dist/" + e + ".js"), "require" := Str("./dist/" + e + ".cjs")])
      && exp.fields.Keys == ExportsOf(pkg).fields.Keys + {"./" + e}
      && (forall k :: k in ExportsOf(pkg).fields && k != "./" + e ==> exp.fields[k] == ExportsOf(pkg).fields[k])
      && (IsNullish(pkg, "exports") ==> exp.fields.Keys == {"./" + e})
  {
  }

  /** `e` is appended at the end of `files` (created empty when missing),
      with no de-duplication. */
  lemma FilesAfterAdd(pkg: map<string, Json>, e: string)
    requires Transform(pkg, e).Ok?
    ensures Transform(pkg, e).value["files"] == Arr(FilesOf(pkg).items + [Str(e)])
    ensures IsNullish(pkg, "files") ==> Transform(pkg, e).value["files"] == Arr([Str(e)])
  {
  }

  /** The bundler entry keeps its shape: a list gains the source path at its
      end, a mapping gains the key `e`; a missing `tsup` starts from the
      default configuration and a missing `entry` from an empty list. */
  lemma EntryAfterAdd(pkg: map<string, Json>, e: string)
    requires Transform(pkg, e).Ok?
    ensures var tsup := Transform(pkg, e).value["tsup"];
      && (TsupOf(pkg).Arr? ==> tsup == pkg["tsup"])
      && (TsupOf(pkg).Obj? ==>
            && tsup.Obj?
            && tsup.fields.Keys == TsupOf(pkg).fields.Keys + {"entry"}
            && (forall k :: k in tsup.fields && k != "entry" ==> tsup.fields[k] == TsupOf(pkg).fields[k])
            && var before := EntryOf(TsupOf(pkg).fields);
               var after := tsup.fields["entry"];
               && (before.Arr? ==> after == Arr(before.items + [Str("src/" + e + ".ts")]))
               && (before.Obj? ==> after.Obj? && after.fields == before.fields[e := Str("src/" + e + ".ts")]))
      && (IsNullish(pkg, "tsup") ==>
            tsup == Obj(DefaultTsupConfig.fields["entry" := Arr([Str("src/index.ts"), Str("src/" + e + ".ts")])]))
  {
    if IsNullish(pkg, "tsup") {
      assert EntryOf(DefaultTsupConfig.fields) == Arr([Str("src/index.ts")]);
      assert [Str("src/index.ts")] + [Str(EntryPath(e))] == [Str("src/index.ts"), Str("src/" + e + ".ts")];
    }
  }

  /** Only `exports`, `files` and `tsup` change; they are present afterwards. */
  lemma OtherKeysUnchanged(pkg: map<string, Json>, e: string)
    requires Transform(pkg, e).Ok?
    ensures Transform(pkg, e).value.Keys == pkg.Keys + {"exports", "files", "tsup"}
    ensures forall k :: k in pkg && k !in {"exports", "files", "tsup"} ==> Transform(pkg, e).value[k] == pkg[k]
  {
  }

  /** A successful addition leaves a manifest on which the next one succeeds. */
  lemma SuccessKeepsShape(pkg: map<string, Json>, e: string)
    requires Transform(pkg, e).Ok?
    ensures ShapeOk(Transform(pkg, e).value)
  {
  }

  /** Adding the same name twice is not idempotent: `files` ends with two
      copies of it and the manifest differs from the one after a single addition. */
  lemma AddTwiceKeepsBothCopies(pkg: map<string, Json>, e: string)
    requires Transform(pkg, e).Ok?
    ensures Transform(Transform(pkg, e).value, e).Ok?
    ensures var twice := Transform(Transform(pkg, e).value, e).value;
      && twice["files"] == Arr(FilesOf(pkg).items + [Str(e), Str(e)])
      && twice != Transform(pkg, e).value
  {
    var once := Transform(pkg, e).value;
    SuccessKeepsShape(pkg, e);
    FilesAfterAdd(pkg, e);
    FilesAfterAdd(once, e);
    assert FilesOf(pkg).items + [Str(e)] + [Str(e)] == FilesOf(pkg).items + [Str(e), Str(e)];
    var twice := Transform(once, e).value;
    assert |twice["files"].items| != |once["files"].items|;
  }

  /** After a successful call the store holds the stub at `<e>/package.json`,
      built from the root's name and version, an empty `src/<e>.ts`, and the
      transformed root manifest; nothing else changes. */
  lemma AddOnDiskWrites(files: map<string, File>, pkg: map<string, Json>, e: string)
    requires ReadManifest(files, "") == Ok(pkg)
    requires Transform(pkg, e).Ok?
    requires e != ""
    ensures var after := AddOnDisk(files, e);
      && after.1.None?
      && after.0[ManifestPath("")] == JsonFile(Obj(Transform(pkg, e).value))
      && after.0[ManifestPath(e)] == JsonFile(Obj(EntrypointPackageJson(Prop(pkg, "name"), Prop(pkg, "version"), e)))
      && after.0[EntryPath(e)] == TextFile("")
      && after.0.Keys == files.Keys + {ManifestPath(""), ManifestPath(e), EntryPath(e)}
      && forall p :: p in files && p !in {ManifestPath(""), ManifestPath(e), EntryPath(e)} ==> after.0[p] == files[p]
  {
    OtherKeysUnchanged(pkg, e);
    var updated := Transform(pkg, e).value;
    assert Prop(updated, "name") == Prop(pkg, "name");
    assert Prop(updated, "version") == Prop(pkg, "version");
    assert |EntryPath(e)| != |ManifestPath(e)|;
    assert EntryPath(e)[0] != ManifestPath("")[0];
  }

  /** From its own directory the stub resolves to the same bundle files as
      the root's `exports["./<e>"]`: "require" for `main`, "import" for `module`. */
  lemma StubMatchesExport(parentName: Option<Json>, version: Option<Json>, e: string)
    ensures var stub := EntrypointPackageJson(parentName, version, e);
      && stub["main"] == Str("." + ExportTarget(e).fields["require"].s)
      && stub["module"] == Str("." + ExportTarget(e).fields["import"].s)
  {
  }

  // ---------------------------------------------------------------------
  // Properties of a batch

  /** A batch either throws at its first name, with the same error a single
      call would throw, or succeeds for every name. */
  lemma {:induction false} BatchAllOrNothing(pkg: map<string, Json>, names: seq<string>)
    requires names != []
    ensures TransformAll(pkg, names).Ok? <==> ShapeOk(pkg)
    ensures TransformAll(pkg, names).Err? ==> TransformAll(pkg, names) == Transform(pkg, names[0])
    decreases |names|
  {
    ThrowsOnlyOnBadShape(pkg, names[0], names[0]);
    if ShapeOk(pkg) && |names| > 1 {
      SuccessKeepsShape(pkg, names[0]);
      BatchAllOrNothing(Transform(pkg, names[0]).value, names[1..]);
    }
  }

  function Strs(names: seq<string>): (r: seq<Json>)
    ensures |r| == |names|
    ensures forall i :: 0 <= i < |names| ==> r[i] == Str(names[i])
  {
    seq(|names|, i requires 0 <= i < |names| => Str(names[i]))
  }

  /** After a successful batch, `files` is the old list followed by the
      names in batch order. */
  lemma {:induction false} BatchAppendsInOrder(pkg: map<string, Json>, names: seq<string>)
    requires names != []
    requires TransformAll(pkg, names).Ok?
    ensures var after := TransformAll(pkg, names).value;
      "files" in after && after["files"] == Arr(FilesOf(pkg).items + Strs(names))
    decreases |names|
  {
    var next := Transform(pkg, names[0]).value;
    FilesAfterAdd(pkg, names[0]);
    if |names| == 1 {
      assert TransformAll(pkg, names).value == next;
      assert Strs(names) == [Str(names[0])];
    } else {
      var rest := names[1..];
      assert TransformAll(pkg, names) == TransformAll(next, rest);
      BatchAppendsInOrder(next, rest);
      assert FilesOf(next).items == FilesOf(pkg).items + [Str(names[0])];
      assert Strs(names) == [Str(names[0])] + Strs(rest);
      assert FilesOf(pkg).items + [Str(names[0])] + Strs(rest) == FilesOf(pkg).items + Strs(names);
    }
  }

  /** After a successful batch every name of it has its export. */
  lemma {:induction false} BatchExportsEveryName(pkg: map<string, Json>, names: seq<string>)
    requires names != []
    requires TransformAll(pkg, names).Ok?
    ensures var after := TransformAll(pkg, names).value;
      && "exports" in after && after["exports"].Obj?
      && forall n :: n in names ==> ("./" + n in after["exports"].fields && after["exports"].fields["./" + n] == ExportTarget(n))
    decreases |names|
  {
    var next := Transform(pkg, names[0]).value;
    ExportsAfterAdd(pkg, names[0]);
    if |names| > 1 {
      var rest := names[1..];
      BatchExportsEveryName(next, rest);
      if names[0] !in rest {
        ExportKept(next, rest, names[0]);
      }
    }
  }

  function EntryPaths(names: seq<string>): (r: seq<Json>)
    ensures |r| == |names|
    ensures forall i :: 0 <= i < |names| ==> r[i] == Str(EntryPath(names[i]))
  {
    seq(|names|, i requires 0 <= i < |names| => Str(EntryPath(names[i])))
  }

  /** One addition on an object `tsup` leaves an object `tsup` whose entry
      is the old one with `e` added. */
  lemma EntryStep(pkg: map<string, Json>, e: string)
    requires TsupOf(pkg).Obj?
    requires Transform(pkg, e).Ok?
    ensures var next := Transform(pkg, e).value;
      && "tsup" in next && next["tsup"].Obj? && "entry" in next["tsup"].fields
      && TsupOf(next) == next["tsup"]
      && EntryOf(TsupOf(next).fields) == AddToEntry(EntryOf(TsupOf(pkg).fields), e)
  {
  }

  /** A list entry gains the names' source paths in batch order. */
  lemma {:induction false} BatchEntryList(pkg: map<string, Json>, names: seq<string>)
    requires TsupOf(pkg).Obj? && EntryOf(TsupOf(pkg).fields).Arr?
    requires TransformAll(pkg, names).Ok?
    ensures var after := TransformAll(pkg, names).value;
      && TsupOf(after).Obj?
      && EntryOf(TsupOf(after).fields) == Arr(EntryOf(TsupOf(pkg).fields).items + EntryPaths(names))
    decreases |names|
  {
    if names == [] {
      assert EntryOf(TsupOf(pkg).fields).items + [] == EntryOf(TsupOf(pkg).fields).items;
    } else {
      var e, rest := names[0], names[1..];
      var next := Transform(pkg, e).value;
      EntryStep(pkg, e);
      assert TransformAll(pkg, names) == TransformAll(next, rest);
      BatchEntryList(next, rest);
      var before := EntryOf(TsupOf(pkg).fields).items;
      assert EntryPaths(names) == [Str(EntryPath(e))] + EntryPaths(rest);
      assert before + [Str(EntryPath(e))] + EntryPaths(rest) == before + EntryPaths(names);
    }
  }

  /** A mapping entry gains every name as a key; other keys keep their values. */
  lemma {:induction false} BatchEntryMap(pkg: map<string, Json>, names: seq<string>)
    requires TsupOf(pkg).Obj? && EntryOf(TsupOf(pkg).fields).Obj?
    requires TransformAll(pkg, names).Ok?
    ensures var after := TransformAll(pkg, names).value;
      var before := EntryOf(TsupOf(pkg).fields).fields;
      && TsupOf(after).Obj? && EntryOf(TsupOf(after).fields).Obj?
      && var entry := EntryOf(TsupOf(after).fields).fields;
         && (forall k :: k in entry <==> k in before || k in names)
         && (forall n :: n in names ==> entry[n] == Str(EntryPath(n)))
         && (forall k :: k in before && k !in names ==> entry[k] == before[k])
    decreases |names|
  {
    if names != [] {
      var e, rest := names[0], names[1..];
      var next := Transform(pkg, e).value;
      EntryStep(pkg, e);
      assert TransformAll(pkg, names) == TransformAll(next, rest);
      assert names == [e] + rest;
      BatchEntryMap(next, rest);
    }
  }

  /** After a successful batch the bundler entry keeps its shape and holds
      every name's source path: appended in batch order to a list, or under
      the name's key in a mapping whose other keys keep their values. */
  lemma BatchEntriesEveryName(pkg: map<string, Json>, names: seq<string>)
    requires names != []
    requires TsupOf(pkg).Obj?
    requires TransformAll(pkg, names).Ok?
    ensures var after := TransformAll(pkg, names).value;
      var before := EntryOf(TsupOf(pkg).fields);
      && "tsup" in after && after["tsup"].Obj? && "entry" in after["tsup"].fields
      && var entry := after["tsup"].fields["entry"];
         && (before.Arr? ==> entry == Arr(before.items + EntryPaths(names)))
         && (before.Obj? ==>
               && entry.Obj?
               && (forall k :: k in entry.fields <==> k in before.fields || k in names)
               && (forall n :: n in names ==> entry.fields[n] == Str(EntryPath(n)))
               && (forall k :: k in before.fields && k !in names ==> entry.fields[k] == before.fields[k]))
  {
    BatchKeepsTsup(pkg, names);
    ThrowsOnlyOnBadShape(pkg, names[0], names[0]);
    BatchAllOrNothing(pkg, names);
    if EntryOf(TsupOf(pkg).fields).Arr? {
      BatchEntryList(pkg, names);
    } else {
      BatchEntryMap(pkg, names);
    }
  }

  /** After a non-empty successful batch on an object `tsup`, the manifest
      holds an object `tsup` with an `entry`. */
  lemma {:induction false} BatchKeepsTsup(pkg: map<string, Json>, names: seq<string>)
    requires names != []
    requires TsupOf(pkg).Obj?
    requires TransformAll(pkg, names).Ok?
    ensures var after := TransformAll(pkg, names).value;
      "tsup" in after && after["tsup"].Obj? && "entry" in after["tsup"].fields
    decreases |names|
  {
    var e, rest := names[0], names[1..];
    var next := Transform(pkg, e).value;
    EntryStep(pkg, e);
    assert TransformAll(pkg, names) == TransformAll(next, rest);
    if rest != [] {
      BatchKeepsTsup(next, rest);
    }
  }

  /** The export of `e`, once present, keeps its value through later
      additions of other names. */
  lemma {:induction false} ExportKept(pkg: map<string, Json>, names: seq<string>, e: string)
    requires TransformAll(pkg, names).Ok?
    requires ExportsOf(pkg).Obj? && "./" + e in ExportsOf(pkg).fields
    requires e !in names
    ensures var after := TransformAll(pkg, names).value;
      && "exports" in after && after["exports"].Obj?
      && "./" + e in after["exports"].fields
      && after["exports"].fields["./" + e] == ExportsOf(pkg).fields["./" + e]
    decreases |names|
  {
    if names == [] {
      assert !IsNullish(pkg, "exports");
    } else {
      assert ("./" + names[0])[2..] == names[0] && ("./" + e)[2..] == e;
      ExportsAfterAdd(pkg, names[0]);
      ExportKept(Transform(pkg, names[0]).value, names[1..], e);
    }
  }

  /** The root manifest after a batch on the store is the manifest-level fold
      of the transform, and the batch reports an error exactly when the fold throws. */
  lemma {:induction false} StoreBatchIsFold(files: map<string, File>, pkg: map<string, Json>, names: seq<string>)
    requires ReadManifest(files, "") == Ok(pkg)
    ensures AddAllOnDisk(files, names).1.None? <==> TransformAll(pkg, names).Ok?
    ensures TransformAll(pkg, names).Ok? ==>
              && ManifestPath("") in AddAllOnDisk(files, names).0
              && AddAllOnDisk(files, names).0[ManifestPath("")] == JsonFile(Obj(TransformAll(pkg, names).value))
    decreases |names|
  {
    if names != [] {
      match Transform(pkg, names[0])
      case Err(_) =>
      case Ok(next) =>
        var after := AddOnDisk(files, names[0]).0;
        assert after[ManifestPath("")] == JsonFile(Obj(next));
        StoreBatchIsFold(after, next, names[1..]);
    }
  }

  /** Once a call fails on a store, every later call fails on the same store
      and changes nothing: the failure depends only on the root manifest. */
  lemma {:induction false} FailureIsSticky(files: map<string, File>, e: string, names: seq<string>)
    requires AddOnDisk(files, e).1.Some?
    ensures AddEachOnDisk(files, names).0 == files
    ensures AddAllOnDisk(files, names).0 == files
    decreases |names|
  {
    if names != [] {
      match ReadManifest(files, "") {
        case Err(_) =>
        case Ok(pkg) => ThrowsOnlyOnBadShape(pkg, e, names[0]);
      }
      FailureIsSticky(files, e, names[1..]);
    }
  }

  /** Stopping at the first failure (init.ts) and reporting failures per
      task (entry-points.ts) leave the same files behind. */
  lemma {:induction false} BatchStylesAgree(files: map<string, File>, names: seq<string>)
    ensures AddEachOnDisk(files, names).0 == AddAllOnDisk(files, names).0
    decreases |names|
  {
    if names != [] {
      var (next, err) := AddOnDisk(files, names[0]);
      if err.Some? {
        FailureIsSticky(files, names[0], names[1..]);
      } else {
        BatchStylesAgree(next, names[1..]);
      }
    }
  }
}
