/**
 * src/lib/templates.ts: the default bundler (tsup) configuration and the
 * stub manifest written into an entry point's own directory.
 */
module Templates {
  import opened Wrappers
  import opened Json

  const DefaultTsupConfig: Json := Obj(map[
    "entry" := Arr([Str("src/index.ts")]),
    "sourcemap" := Bool(true),
    "format" := Arr([Str("esm"), Str("cjs")]),
    "dts" := Bool(true),
    "minify" := Bool(true)
  ])

  /**
   * `getEntrypointPackageJson(parentName, version, entrypoint)`. An argument
   * is None when it is `undefined`, which is when the defaults ("" and
   * "1.0.0") apply; a JSON null is passed through as a value.
   */
  function EntrypointPackageJson(parentName: Option<Json>, version: Option<Json>, entrypoint: string)
    : (stub: map<string, Json>)
    ensures stub.Keys == {"name", "version", "type", "main", "module", "types", "files"}
    ensures stub["name"].Str? && |stub["name"].s| > |entrypoint|
    ensures stub["name"].s[|stub["name"].s| - |entrypoint| - 1..] == "-" + entrypoint
    ensures stub["files"] == Arr([Str("../dist")])
  {
    var parent := if parentName.None? then "" else ToJsString(parentName.value);
    map[
      "name" := Str(parent + "-" + entrypoint),
      "version" := if version.None? then Str("1.0.0") else version.value,
      "type" := Str("module"),
      "main" := Str("../dist/" + entrypoint + ".cjs"),
      "module" := Str("../dist/" + entrypoint + ".js"),
      "types" := Str("../dist/" + entrypoint + ".d.ts"),
      "files" := Arr([Str("../dist")])
    ]
  }

  /** The parent name is prefixed as a string; a missing one leaves only "-<e>",
      a JSON null is coerced to "null". */
  lemma StubName(parentName: Option<Json>, version: Option<Json>, e: string)
    ensures parentName.None? ==> EntrypointPackageJson(parentName, version, e)["name"] == Str("-" + e)
    ensures parentName.Some? && parentName.value.Str? ==>
      EntrypointPackageJson(parentName, version, e)["name"] == Str(parentName.value.s + "-" + e)
    ensures parentName == Some(Null) ==> EntrypointPackageJson(parentName, version, e)["name"] == Str("null-" + e)
  {
  }

  /** "1.0.0" is used only for an undefined version; anything else is copied. */
  lemma StubVersion(parentName: Option<Json>, version: Option<Json>, e: string)
    ensures version.None? ==> EntrypointPackageJson(parentName, version, e)["version"] == Str("1.0.0")
    ensures version.Some? ==> EntrypointPackageJson(parentName, version, e)["version"] == version.value
  {
  }

  /** The stub is an ES module whose three entry files all sit in ../dist. */
  lemma StubPointsIntoDist(parentName: Option<Json>, version: Option<Json>, e: string)
    ensures var stub := EntrypointPackageJson(parentName, version, e);
      && stub["type"] == Str("module")
      && stub["main"] == Str("../dist/" + e + ".cjs")
      && stub["module"] == Str("../dist/" + e + ".js")
      && stub["types"] == Str("../dist/" + e + ".d.ts")
  {
  }

  lemma DefaultTsupConfigFields()
    ensures DefaultTsupConfig.Obj?
    ensures DefaultTsupConfig.fields["entry"] == Arr([Str("src/index.ts")])
    ensures DefaultTsupConfig.fields["format"] == Arr([Str("esm"), Str("cjs")])
    ensures DefaultTsupConfig.fields["sourcemap"] == Bool(true)
    ensures DefaultTsupConfig.fields["dts"] == Bool(true)
    ensures DefaultTsupConfig.fields["minify"] == Bool(true)
  {
  }
}
