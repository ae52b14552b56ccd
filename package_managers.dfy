/**
 * The package-manager table of src/lib/package-managers.ts: per manager, the
 * init subcommand with its "yes" flag and the install subcommand with its
 * "dev" flag, and the list of supported manager names in table order.
 */
module PackageManagers {
  import opened Wrappers

  datatype Manager = Yarn | Npm

  datatype InitCommand = InitCommand(command: string, yes: string)
  datatype InstallCommand = InstallCommand(command: string, dev: string)
  datatype Profile = Profile(init: InitCommand, install: InstallCommand)

  /** The key a manager has in the table (and on the command line). */
  function Name(m: Manager): string
  {
    match m
    case Yarn => "yarn"
    case Npm => "npm"
  }

  /** `packageManagers[m]`. */
  function Commands(m: Manager): (p: Profile)
    ensures p.init == InitCommand("init", "-y")
    ensures p.install.dev == "-D"
    ensures p.install.command == (if m == Yarn then "add" else "install")
  {
    match m
    case Yarn => Profile(InitCommand("init", "-y"), InstallCommand("add", "-D"))
    case Npm => Profile(InitCommand("init", "-y"), InstallCommand("install", "-D"))
  }

  /** The managers in the order `Object.keys(packageManagers)` lists them. */
  const Managers: seq<Manager> := [Yarn, Npm]

  /** `supportedManagers`: the table's keys in order. */
  function SupportedManagers(): (names: seq<string>)
    ensures |names| == |Managers|
    ensures forall i :: 0 <= i < |names| ==> names[i] == Name(Managers[i])
  {
    seq(|Managers|, i requires 0 <= i < |Managers| => Name(Managers[i]))
  }

  /** `includes(supportedManagers, s)`, answering with the manager itself. */
  function ParseManager(s: string): (r: Option<Manager>)
    ensures r.Some? ==> Name(r.value) == s
  {
    if s == "yarn" then Some(Yarn)
    else if s == "npm" then Some(Npm)
    else None
  }

  lemma SupportedManagersExactly()
    ensures SupportedManagers() == ["yarn", "npm"]
  {
  }

  lemma ManagerNamesDistinct(a: Manager, b: Manager)
    ensures Name(a) == Name(b) <==> a == b
  {
  }

  /** A name is accepted exactly when it is one of `supportedManagers`,
      and it always names the manager listed under it. */
  lemma ParseManagerIffSupported(s: string)
    ensures ParseManager(s).Some? <==> s in SupportedManagers()
    ensures forall m :: ParseManager(Name(m)) == Some(m)
  {
    SupportedManagersExactly();
  }
}
