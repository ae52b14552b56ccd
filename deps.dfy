/**
 * The dependency lists of src/lib/deps.ts and their rendering into
 * package-manager arguments. A dependency map is kept as the sequence of
 * its entries in `Object.entries` order.
 */
module Deps {

  /** A map value: `true` (no version) or a version range string. */
  datatype Version = Latest | Range(range: string)

  type DependencyMap = seq<(string, Version)>

  const DevDeps: DependencyMap := [
    ("@arethetypeswrong/cli", Latest),
    ("@typescript-eslint/eslint-plugin", Latest),
    ("@typescript-eslint/parser", Latest),
    ("eslint", Range("^8")),
    ("eslint-import-resolver-typescript", Latest),
    ("eslint-plugin-import", Latest),
    ("eslint-plugin-vitest", Latest),
    ("husky", Latest),
    ("lint-staged", Latest),
    ("prettier", Latest),
    ("publint", Latest),
    ("tsup", Latest),
    ("typescript", Latest),
    ("vitest", Latest)
  ]

  const Deps: DependencyMap := []

  /** The older inline `devDeps` of src/index.ts, where eslint is `true`. */
  const LegacyDevDeps: DependencyMap := [
    ("@arethetypeswrong/cli", Latest),
    ("@typescript-eslint/eslint-plugin", Latest),
    ("@typescript-eslint/parser", Latest),
    ("eslint", Latest),
    ("eslint-import-resolver-typescript", Latest),
    ("eslint-plugin-import", Latest),
    ("eslint-plugin-vitest", Latest),
    ("husky", Latest),
    ("lint-staged", Latest),
    ("prettier", Latest),
    ("publint", Latest),
    ("tsup", Latest),
    ("typescript", Latest),
    ("vitest", Latest)
  ]

  /** One entry as a package-manager argument: the bare name, or name@range. */
  function Specifier(name: string, v: Version): (r: string)
    ensures |r| >= |name| && r[..|name|] == name
    ensures v.Latest? <==> |r| == |name|
    ensures v.Range? ==> r[|name|] == '@' && r[|name| + 1..] == v.range
  {
    match v
    case Latest => name
    case Range(range) => name + "@" + range
  }

  /** `processDepMap`: one specifier per entry, in entry order. */
  function ProcessDepMap(m: DependencyMap): (r: seq<string>)
    ensures |r| == |m|
    ensures forall i :: 0 <= i < |m| && m[i].1.Latest? ==> r[i] == m[i].0
    ensures forall i :: 0 <= i < |m| && m[i].1.Range? ==> r[i] == m[i].0 + "@" + m[i].1.range
  {
    seq(|m|, i requires 0 <= i < |m| => Specifier(m[i].0, m[i].1))
  }

  /** The current dev list pins eslint to ^8; every other entry is a bare name. */
  lemma DevDepsRendered()
    ensures |ProcessDepMap(DevDeps)| == 14
    ensures ProcessDepMap(DevDeps)[3] == "eslint@^8"
    ensures forall i :: 0 <= i < 14 && i != 3 ==> ProcessDepMap(DevDeps)[i] == DevDeps[i].0
  {
    forall i | 0 <= i < 14 && i != 3 ensures DevDeps[i].1.Latest? {
      assert i in {0, 1, 2, 4, 5, 6, 7, 8, 9, 10, 11, 12, 13};
    }
  }

  lemma NoRuntimeDeps()
    ensures ProcessDepMap(Deps) == []
  {
  }

  /** In the older inline list every element is a bare package name. */
  lemma LegacyDepListBare()
    ensures |ProcessDepMap(LegacyDevDeps)| == |LegacyDevDeps|
    ensures forall i :: 0 <= i < |LegacyDevDeps| ==> ProcessDepMap(LegacyDevDeps)[i] == LegacyDevDeps[i].0
  {
    forall i | 0 <= i < |LegacyDevDeps| ensures LegacyDevDeps[i].1 == Latest {
      assert i in {0, 1, 2, 3, 4, 5, 6, 7, 8, 9, 10, 11, 12, 13};
    }
  }
}
