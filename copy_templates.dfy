/**
 * src/commands/copy-templates.ts: which templates a `copy-templates` run
 * copies. The known templates are the generic ones followed by each
 * manager's own; arguments of the form `<manager>:<file>` select a
 * manager's template; unknown descriptors are reported and dropped.
 * Directory listings and prompt answers are inputs.
 */
module CopyTemplates {
  import opened Wrappers
  import opened Json
  import opened PackageManagers

  /** A template: its file name and, for a manager's own template, the manager. */
  datatype TemplateDesc = TemplateDesc(filename: string, packageManager: Option<Manager>)

  // ---------------------------------------------------------------------
  // The known templates (lines 34-58)

  function GenericTemplates(filenames: seq<string>): (ds: seq<TemplateDesc>)
    ensures |ds| == |filenames|
    ensures forall i :: 0 <= i < |ds| ==> ds[i] == TemplateDesc(filenames[i], None)
  {
    seq(|filenames|, i requires 0 <= i < |filenames| => TemplateDesc(filenames[i], None))
  }

  function ManagerTemplates(m: Manager, filenames: seq<string>): (ds: seq<TemplateDesc>)
    ensures |ds| == |filenames|
    ensures forall i :: 0 <= i < |ds| ==> ds[i] == TemplateDesc(filenames[i], Some(m))
  {
    seq(|filenames|, i requires 0 <= i < |filenames| => TemplateDesc(filenames[i], Some(m)))
  }

  /** The templates of the managers `ms` in order; a manager whose directory
      could not be listed (absent from `listings`) adds nothing. */
  function ListedFor(ms: seq<Manager>, listings: map<Manager, seq<string>>): seq<TemplateDesc>
  {
    if ms == [] then []
    else
      var m := ms[|ms| - 1];
      ListedFor(ms[..|ms| - 1], listings) + (if m in listings then ManagerTemplates(m, listings[m]) else [])
  }

  function KnownTemplates(generic: seq<string>, listings: map<Manager, seq<string>>): seq<TemplateDesc>
  {
    GenericTemplates(generic) + ListedFor(Managers, listings)
  }

  method AssembleTemplates(generic: seq<string>, listings: map<Manager, seq<string>>)
    returns (templates: seq<TemplateDesc>)
    ensures templates == KnownTemplates(generic, listings)
  {
    templates := GenericTemplates(generic);
    for k := 0 to |Managers|
      invariant templates == GenericTemplates(generic) + ListedFor(Managers[..k], listings)
    {
      var packageManager := Managers[k];
      assert Managers[..k + 1][..k] == Managers[..k];
      if packageManager in listings {
        templates := templates + ManagerTemplates(packageManager, listings[packageManager]);
      }
    }
    assert Managers[..|Managers|] == Managers;
  }

  lemma {:induction false} ListedForMembership(ms: seq<Manager>, listings: map<Manager, seq<string>>, d: TemplateDesc)
    ensures d in ListedFor(ms, listings) <==>
      d.packageManager.Some? && d.packageManager.value in ms
      && d.packageManager.value in listings && d.filename in listings[d.packageManager.value]
    decreases |ms|
  {
    if ms != [] {
      var init := ms[..|ms| - 1];
      var m := ms[|ms| - 1];
      ListedForMembership(init, listings, d);
      assert ms == init + [m];
      if m in listings && d in ManagerTemplates(m, listings[m]) {
        var i :| 0 <= i < |listings[m]| && ManagerTemplates(m, listings[m])[i] == d;
        assert d.filename in listings[m];
      }
      if d.packageManager == Some(m) && m in listings && d.filename in listings[m] {
        var i :| 0 <= i < |listings[m]| && listings[m][i] == d.filename;
        assert ManagerTemplates(m, listings[m])[i] == d;
      }
    }
  }

  /** A descriptor is known exactly when it is a generic file, or a file in
      the listed directory of a supported manager; the generic ones come first. */
  lemma KnownTemplatesMembership(generic: seq<string>, listings: map<Manager, seq<string>>, d: TemplateDesc)
    ensures d in KnownTemplates(generic, listings) <==>
      || (d.packageManager.None? && d.filename in generic)
      || (d.packageManager.Some? && d.packageManager.value in listings && d.filename in listings[d.packageManager.value])
    ensures KnownTemplates(generic, listings)[..|generic|] == GenericTemplates(generic)
  {
    ListedForMembership(Managers, listings, d);
    if d.packageManager.None? && d.filename in generic {
      var i :| 0 <= i < |generic| && generic[i] == d.filename;
      assert GenericTemplates(generic)[i] == d;
    }
    if d.packageManager.Some? {
      assert d.packageManager.value in Managers by {
        assert d.packageManager.value == Managers[0] || d.packageManager.value == Managers[1];
      }
    }
  }

  // ---------------------------------------------------------------------
  // Argument parsing (lines 87-101)

  function IndexOf(s: string, c: char): (i: nat)
    requires c in s
    ensures i < |s| && s[i] == c && c !in s[..i]
  {
    if s[0] == c then 0 else 1 + IndexOf(s[1..], c)
  }

  /** `s.split(sep)` for a one-character separator. */
  function Split(s: string, sep: char): (parts: seq<string>)
    ensures |parts| >= 1
    ensures forall i :: 0 <= i < |parts| ==> sep !in parts[i]
    ensures Join(parts, [sep]) == s
    decreases |s|
  {
    if sep !in s then [s]
    else
      var i := IndexOf(s, sep);
      var rest := Split(s[i + 1..], sep);
      assert s == s[..i] + [sep] + s[i + 1..];
      [s[..i]] + rest
  }

  /** Splitting at the first separator: the part before it comes first. */
  lemma SplitAfterPrefix(p: string, sep: char, q: string)
    requires sep !in p
    ensures Split(p + [sep] + q, sep) == [p] + Split(q, sep)
  {
    var s := p + [sep] + q;
    var i := IndexOf(s, sep);
    assert s[|p|] == sep;
    assert s[..i] == p && s[i + 1..] == q;
  }

  /** The first part is everything up to the first separator. */
  lemma SplitFirst(f: string, sep: char, rest: string)
    requires sep !in f
    requires rest == [] || rest[0] == sep
    ensures Split(f + rest, sep)[0] == f
  {
    if rest == [] {
      assert f + rest == f;
    } else {
      assert f + rest == f + [sep] + rest[1..];
      SplitAfterPrefix(f, sep, rest[1..]);
    }
  }

  datatype ArgError = UnsupportedManager(name: string)

  /**
   * One file argument: when the part after the first ':' is non-empty the
   * part before it must name a supported manager and the second part is the
   * file name (later parts are ignored); otherwise the whole argument is a
   * generic file name.
   */
  function ParseTemplateArg(arg: string): (r: Result<TemplateDesc, ArgError>)
    ensures r.Ok? && r.value.packageManager.None? ==> r.value.filename == arg
    ensures r.Ok? && r.value.packageManager.Some? ==> r.value.filename != "" && ':' !in r.value.filename
    ensures r.Err? ==> ParseManager(r.error.name).None? && ':' !in r.error.name
  {
    var parts := Split(arg, ':');
    var first := parts[0];
    var second := if |parts| > 1 then parts[1] else "";
    if second != "" then
      match ParseManager(first)
      case None => Err(UnsupportedManager(first))
      case Some(m) => Ok(TemplateDesc(second, Some(m)))
    else Ok(TemplateDesc(arg, None))
  }

  /** `<first>:<file>...` with a non-empty file part selects that manager's
      template, or fails when `<first>` is not a supported manager. */
  lemma ParsePrefixed(first: string, file: string, rest: string)
    requires ':' !in first && ':' !in file && file != ""
    requires rest == [] || rest[0] == ':'
    ensures ParseTemplateArg(first + ":" + file + rest)
         == if ParseManager(first).Some? then Ok(TemplateDesc(file, ParseManager(first)))
            else Err(UnsupportedManager(first))
  {
    assert first + ":" + file + rest == first + [':'] + (file + rest);
    SplitAfterPrefix(first, ':', file + rest);
    SplitFirst(file, ':', rest);
  }

  /** An argument with nothing after its first ':' ("yarn:", "a::b") is
      taken whole as a generic file name. */
  lemma ParseEmptyFilePart(first: string, rest: string)
    requires ':' !in first
    requires rest == [] || rest[0] == ':'
    ensures ParseTemplateArg(first + ":" + rest) == Ok(TemplateDesc(first + ":" + rest, None))
  {
    assert first + ":" + rest == first + [':'] + rest;
    SplitAfterPrefix(first, ':', rest);
    SplitFirst([], ':', rest);
    assert [] + rest == rest;
  }

  lemma ParseNoColon(arg: string)
    requires ':' !in arg
    ensures ParseTemplateArg(arg) == Ok(TemplateDesc(arg, None))
  {
  }

  /** The argument form shown in the command's help: `<manager>:<file>` or `<file>`. */
  function FormatArg(d: TemplateDesc): string
  {
    (if d.packageManager.Some? then Name(d.packageManager.value) + ":" else "") + d.filename
  }

  /** Parsing the argument form of a template gives the template back. */
  lemma ParseFormatRoundTrip(d: TemplateDesc)
    requires ':' !in d.filename && d.filename != ""
    ensures ParseTemplateArg(FormatArg(d)) == Ok(d)
  {
    if d.packageManager.Some? {
      var m := d.packageManager.value;
      assert FormatArg(d) == Name(m) + ":" + d.filename + [];
      ParsePrefixed(Name(m), d.filename, []);
    } else {
      assert FormatArg(d) == d.filename;
      ParseNoColon(d.filename);
    }
  }

  /** `filenames.map(...)`: one descriptor per argument, or the first throw. */
  function ParseTemplateArgs(args: seq<string>): (r: Result<seq<TemplateDesc>, ArgError>)
    ensures r.Ok? <==> forall i :: 0 <= i < |args| ==> ParseTemplateArg(args[i]).Ok?
    ensures r.Ok? ==> |r.value| == |args| && forall i :: 0 <= i < |args| ==> ParseTemplateArg(args[i]) == Ok(r.value[i])
    ensures r.Err? ==> exists i :: 0 <= i < |args| && ParseTemplateArg(args[i]) == Err(r.error)
                                  && forall j :: 0 <= j < i ==> ParseTemplateArg(args[j]).Ok?
  {
    if args == [] then Ok([])
    else
      match ParseTemplateArg(args[0])
      case Err(e) => Err(e)
      case Ok(d) =>
        match ParseTemplateArgs(args[1..])
        case Err(e) =>
          assert forall i :: 1 <= i < |args| ==> args[i] == args[1..][i - 1];
          Err(e)
        case Ok(ds) =>
          assert forall i :: 1 <= i < |args| ==> args[i] == args[1..][i - 1];
          Ok([d] + ds)
  }

  /** With no file arguments the multiselect answer is used as it is. */
  function Processed(filenames: seq<string>, selected: seq<TemplateDesc>): (r: Result<seq<TemplateDesc>, ArgError>)
    ensures filenames == [] ==> r == Ok(selected)
  {
    if filenames == [] then Ok(selected) else ParseTemplateArgs(filenames)
  }

  // ---------------------------------------------------------------------
  // Validation (lines 104-127)

  /** Some known template has the same file name and the same manager
      (an absent manager matches only an absent one). */
  predicate IsKnown(d: TemplateDesc, templates: seq<TemplateDesc>)
  {
    exists t :: t in templates && t.filename == d.filename && t.packageManager == d.packageManager
  }

  function KnownOnly(ds: seq<TemplateDesc>, templates: seq<TemplateDesc>): seq<TemplateDesc>
  {
    if ds == [] then []
    else (if IsKnown(ds[0], templates) then [ds[0]] else []) + KnownOnly(ds[1..], templates)
  }

  function UnknownOnly(ds: seq<TemplateDesc>, templates: seq<TemplateDesc>): seq<TemplateDesc>
  {
    if ds == [] then []
    else (if IsKnown(ds[0], templates) then [] else [ds[0]]) + UnknownOnly(ds[1..], templates)
  }

  function Reversed<T>(s: seq<T>): seq<T>
  {
    if s == [] then [] else Reversed(s[1..]) + [s[0]]
  }

  /** The `while (i--)` loop: walks the descriptors from the last to the
      first, keeping the known ones in `final` and reporting the others. */
  method ValidateTemplates(processed: seq<TemplateDesc>, templates: seq<TemplateDesc>)
    returns (final: seq<TemplateDesc>, ignored: seq<TemplateDesc>)
    ensures final == Reversed(KnownOnly(processed, templates))
    ensures ignored == Reversed(UnknownOnly(processed, templates))
  {
    final, ignored := [], [];
    var i := |processed|;
    while i > 0
      invariant 0 <= i <= |processed|
      invariant final == Reversed(KnownOnly(processed[i..], templates))
      invariant ignored == Reversed(UnknownOnly(processed[i..], templates))
    {
      i := i - 1;
      var desc := processed[i];
      assert processed[i..][0] == desc && processed[i..][1..] == processed[i + 1..];
      var valid := IsKnown(desc, templates);
      var known, unknown := KnownOnly(processed[i + 1..], templates), UnknownOnly(processed[i + 1..], templates);
      if valid {
        assert KnownOnly(processed[i..], templates) == [desc] + known;
        assert UnknownOnly(processed[i..], templates) == [] + unknown == unknown;
        final := final + [desc];
      } else {
        assert KnownOnly(processed[i..], templates) == [] + known == known;
        assert UnknownOnly(processed[i..], templates) == [desc] + unknown;
        ignored := ignored + [desc];
      }
    }
    assert processed[0..] == processed;
  }

  lemma {:induction false} ReversedAt<T>(s: seq<T>, k: nat)
    requires k < |s|
    ensures |Reversed(s)| == |s| && Reversed(s)[k] == s[|s| - 1 - k]
    decreases |s|
  {
    if k < |s| - 1 {
      ReversedAt(s[1..], k);
    } else {
      ReversedLength(s[1..]);
    }
  }

  lemma {:induction false} ReversedLength<T>(s: seq<T>)
    ensures |Reversed(s)| == |s|
    decreases |s|
  {
    if s != [] {
      ReversedLength(s[1..]);
    }
  }

  lemma ReversedMembership<T>(s: seq<T>, x: T)
    ensures x in Reversed(s) <==> x in s
  {
    ReversedLength(s);
    if x in s {
      var k :| 0 <= k < |s| && s[k] == x;
      ReversedAt(s, |s| - 1 - k);
    }
    if x in Reversed(s) {
      var k :| 0 <= k < |s| && Reversed(s)[k] == x;
      ReversedAt(s, k);
    }
  }

  lemma {:induction false} KnownOnlyMembership(ds: seq<TemplateDesc>, templates: seq<TemplateDesc>, d: TemplateDesc)
    ensures d in KnownOnly(ds, templates) <==> d in ds && IsKnown(d, templates)
    ensures d in UnknownOnly(ds, templates) <==> d in ds && !IsKnown(d, templates)
    ensures |KnownOnly(ds, templates)| + |UnknownOnly(ds, templates)| == |ds|
    decreases |ds|
  {
    if ds != [] {
      KnownOnlyMembership(ds[1..], templates, d);
      assert ds == [ds[0]] + ds[1..];
    }
  }

  /** A descriptor ends up in `final` exactly when it was given and is known,
      and is reported exactly when it was given and is not; no descriptor is lost. */
  lemma ValidationPartitions(processed: seq<TemplateDesc>, templates: seq<TemplateDesc>, d: TemplateDesc)
    ensures d in Reversed(KnownOnly(processed, templates)) <==> d in processed && IsKnown(d, templates)
    ensures d in Reversed(UnknownOnly(processed, templates)) <==> d in processed && !IsKnown(d, templates)
    ensures |Reversed(KnownOnly(processed, templates))| + |Reversed(UnknownOnly(processed, templates))| == |processed|
  {
    KnownOnlyMembership(processed, templates, d);
    ReversedMembership(KnownOnly(processed, templates), d);
    ReversedMembership(UnknownOnly(processed, templates), d);
    ReversedLength(KnownOnly(processed, templates));
    ReversedLength(UnknownOnly(processed, templates));
  }

  lemma {:induction false} AllKnownKept(ds: seq<TemplateDesc>, templates: seq<TemplateDesc>)
    requires forall d :: d in ds ==> d in templates
    ensures KnownOnly(ds, templates) == ds
    ensures UnknownOnly(ds, templates) == []
    decreases |ds|
  {
    if ds != [] {
      assert ds[0] in templates;
      assert IsKnown(ds[0], templates);
      AllKnownKept(ds[1..], templates);
      assert ds == [ds[0]] + ds[1..];
    }
  }

  /** Templates picked in the multiselect are all known, so none is dropped,
      and they are copied in the reverse of the order they were listed in. */
  lemma SelectionCopiedInReverse(selected: seq<TemplateDesc>, templates: seq<TemplateDesc>)
    requires forall d :: d in selected ==> d in templates
    ensures Reversed(KnownOnly(selected, templates)) == Reversed(selected)
    ensures Reversed(UnknownOnly(selected, templates)) == []
    ensures |Reversed(selected)| == |selected|
    ensures forall k :: 0 <= k < |selected| ==> Reversed(KnownOnly(selected, templates))[k] == selected[|selected| - 1 - k]
  {
    AllKnownKept(selected, templates);
    ReversedLength(selected);
    forall k | 0 <= k < |selected|
      ensures Reversed(selected)[k] == selected[|selected| - 1 - k]
    {
      ReversedAt(selected, k);
    }
  }

  // ---------------------------------------------------------------------
  // The copies requested (lines 59-69 and 129-135)

  /** One `copyTemplate(filename, options)` call; copyTemplate itself is not part of this model. */
  datatype CopyRequest = CopyRequest(filename: string, promptBeforeOverwrite: bool, react: bool, packageManager: Option<Manager>)

  /** `--react`, or the answer to "Include React code?" when the flag is absent. */
  function ResolveReact(flag: Option<bool>, answer: bool): (react: bool)
    ensures flag.Some? ==> react == flag.value
  {
    if flag.None? then answer else flag.value
  }

  function CopyRequests(final: seq<TemplateDesc>, yes: Option<bool>, react: bool): (r: seq<CopyRequest>)
    ensures |r| == |final|
    ensures forall i :: 0 <= i < |r| ==> r[i].filename == final[i].filename && r[i].packageManager == final[i].packageManager
    ensures forall i :: 0 <= i < |r| ==> (r[i].promptBeforeOverwrite <==> yes != Some(true)) && r[i].react == react
  {
    seq(|final|, i requires 0 <= i < |final| =>
      CopyRequest(final[i].filename, !(yes == Some(true)), react, final[i].packageManager))
  }

  /** A whole run: the copies requested and the descriptors reported as
      invalid, or the throw of an unsupported manager prefix. */
  function CopyTemplatesRun(generic: seq<string>, listings: map<Manager, seq<string>>, filenames: seq<string>,
                            selected: seq<TemplateDesc>, yes: Option<bool>, react: Option<bool>, reactAnswer: bool)
    : Result<(seq<CopyRequest>, seq<TemplateDesc>), ArgError>
  {
    var templates := KnownTemplates(generic, listings);
    match Processed(filenames, selected)
    case Err(e) => Err(e)
    case Ok(processed) =>
      Ok((CopyRequests(Reversed(KnownOnly(processed, templates)), yes, ResolveReact(react, reactAnswer)),
          Reversed(UnknownOnly(processed, templates))))
  }

  /** Every copy a run requests names a known template, and with `--yes` none prompts. */
  lemma RunCopiesOnlyKnown(generic: seq<string>, listings: map<Manager, seq<string>>, filenames: seq<string>,
                           selected: seq<TemplateDesc>, yes: Option<bool>, react: Option<bool>, reactAnswer: bool)
    requires CopyTemplatesRun(generic, listings, filenames, selected, yes, react, reactAnswer).Ok?
    ensures var requests := CopyTemplatesRun(generic, listings, filenames, selected, yes, react, reactAnswer).value.0;
      forall q :: q in requests ==>
        && TemplateDesc(q.filename, q.packageManager) in KnownTemplates(generic, listings)
        && (yes == Some(true) ==> !q.promptBeforeOverwrite)
  {
    var templates := KnownTemplates(generic, listings);
    var processed := Processed(filenames, selected).value;
    var final := Reversed(KnownOnly(processed, templates));
    var requests := CopyRequests(final, yes, ResolveReact(react, reactAnswer));
    forall q | q in requests
      ensures TemplateDesc(q.filename, q.packageManager) in templates
    {
      var i :| 0 <= i < |requests| && requests[i] == q;
      var d := final[i];
      ValidationPartitions(processed, templates, d);
      var t :| t in templates && t.filename == d.filename && t.packageManager == d.packageManager;
      assert t == TemplateDesc(q.filename, q.packageManager);
    }
  }
}
