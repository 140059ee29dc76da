/** `convert_deps`: turn an RPM component listing into flatpak-builder
    modules, one per package that is not built from a private repository,
    in the listing's order. */
module Converter {
  import opened Wrappers
  import opened PyStr
  import opened Manifest
  import opened BuildSystem
  import opened Sources

  /** One entry of the listing: its `ref`, if the key is there, and whether
      a `repository` key is there. */
  datatype PackageEntry = PackageEntry(ref: Option<string>, hasRepository: bool)

  /** What lies outside the script: `fetch` is the text an HTTP GET of a url
      returns; `sourcesOf` and `patchesOf` are pyrpm's `sources_dict` and
      `patches_dict` of a spec text, as (label, value) pairs in order; and
      `expand` is pyrpm's `replace_macros` of a value against a spec text. */
  datatype Env = Env(
    fetch: string -> string,
    sourcesOf: string -> seq<(string, string)>,
    patchesOf: string -> seq<(string, string)>,
    expand: (string, string) -> string)

  /** The exceptions that end the whole conversion: a public package
      without `ref` (KeyError), or an IndexError in the `%build` scan. */
  datatype ConvertError = MissingRef(pkg: string) | BuildSectionError(pkg: string, reason: BuildError)

  const Host := "https://src.fedoraproject.org/rpms/"

  function SpecUrl(name: string, ref: string): string
  {
    Host + name + "/raw/" + ref + "/f/" + name + ".spec"
  }

  function SourcesUrl(name: string, ref: string): string
  {
    Host + name + "/raw/" + ref + "/f/sources"
  }

  /** The module dict as first created. */
  function NewModule(name: string): ModuleRecord
  {
    ModuleRecord(name, None, Some([]), None, [])
  }

  /** The module for one public package with the given ref. */
  function ModuleFor(name: string, ref: string, env: Env): Result<ModuleRecord, ConvertError>
  {
    var text := env.fetch(SpecUrl(name, ref));
    match ScanFrom(SpecLines(text), 0, NewModule(name))
    case Err(e) => Err(BuildSectionError(name, e))
    case Ok(m) =>
      Ok(m.(sources := SourceRecords(env.sourcesOf(text), text, env.fetch(SourcesUrl(name, ref)), env.expand)
                       + PatchRecords(env.patchesOf(text))))
  }

  /** The outcome for one listing entry that has no `repository` key. */
  function PackageOutcome(name: string, entry: PackageEntry, env: Env): Result<ModuleRecord, ConvertError>
  {
    if entry.ref.None? then Err(MissingRef(name)) else ModuleFor(name, entry.ref.value, env)
  }

  /** The whole conversion: packages in order, private ones skipped, the
      first exception ending the run. */
  function Convert(pkgs: seq<(string, PackageEntry)>, env: Env): Result<seq<ModuleRecord>, ConvertError>
  {
    if |pkgs| == 0 then Ok([])
    else if pkgs[0].1.hasRepository then Convert(pkgs[1..], env)
    else
      match PackageOutcome(pkgs[0].0, pkgs[0].1, env)
      case Err(e) => Err(e)
      case Ok(m) =>
        match Convert(pkgs[1..], env)
        case Err(e) => Err(e)
        case Ok(ms) => Ok([m] + ms)
  }

  /** The packages that get a module: those without a `repository` key. */
  function Public(pkgs: seq<(string, PackageEntry)>): (r: seq<(string, PackageEntry)>)
    ensures |r| <= |pkgs|
    ensures forall i :: 0 <= i < |r| ==> !r[i].1.hasRepository && r[i] in pkgs
  {
    if |pkgs| == 0 then []
    else if pkgs[0].1.hasRepository then Public(pkgs[1..])
    else [pkgs[0]] + Public(pkgs[1..])
  }

  /** One package's module, built as the loop body of `convert_deps` builds
      it: the dict, the `%build` scan, the sources, then the patches. */
  method ConvertPackage(name: string, ref: string, env: Env) returns (r: Result<ModuleRecord, ConvertError>)
    ensures r == ModuleFor(name, ref, env)
  {
    var module0 := NewModule(name);
    var specText := env.fetch(SpecUrl(name, ref));
    var scanned := ScanBuildSection(SpecLines(specText), module0);
    if scanned.Err? {
      assert ScanFrom(SpecLines(specText), 0, module0) == Err(scanned.error);
      return Err(BuildSectionError(name, scanned.error));
    }
    assert ScanFrom(SpecLines(specText), 0, module0) == Ok(scanned.value);
    ScanSucceedsOrFails(SpecLines(specText), module0);
    var withSources := AppendSources(scanned.value, env.sourcesOf(specText), specText,
                                     env.fetch, SourcesUrl(name, ref), env.expand);
    var withPatches := AppendPatches(withSources, env.patchesOf(specText));
    assert withPatches.sources == [] + SourceRecords(env.sourcesOf(specText), specText, env.fetch(SourcesUrl(name, ref)), env.expand)
                                     + PatchRecords(env.patchesOf(specText));
    ghost var m := ScanFrom(SpecLines(specText), 0, module0).value;
    assert withPatches == m.(sources := SourceRecords(env.sourcesOf(specText), specText, env.fetch(SourcesUrl(name, ref)), env.expand)
                                        + PatchRecords(env.patchesOf(specText)));
    r := Ok(withPatches);
  }

  /** Prepend modules already built to the outcome of the rest of the run. */
  function Prepend(done: seq<ModuleRecord>, rest: Result<seq<ModuleRecord>, ConvertError>): Result<seq<ModuleRecord>, ConvertError>
  {
    match rest
    case Err(e) => Err(e)
    case Ok(ms) => Ok(done + ms)
  }

  /** `convert_deps` itself: the loop over the listing. */
  method ConvertDeps(pkgs: seq<(string, PackageEntry)>, env: Env) returns (r: Result<seq<ModuleRecord>, ConvertError>)
    ensures r == Convert(pkgs, env)
  {
    var modules: seq<ModuleRecord> := [];
    var i := 0;
    assert pkgs[0..] == pkgs;
    assert Prepend([], Convert(pkgs, env)) == Convert(pkgs, env) by {
      if Convert(pkgs, env).Ok? {
        assert [] + Convert(pkgs, env).value == Convert(pkgs, env).value;
      }
    }
    while i < |pkgs|
      invariant 0 <= i <= |pkgs|
      invariant Convert(pkgs, env) == Prepend(modules, Convert(pkgs[i..], env))
    {
      var (pkgName, entry) := pkgs[i];
      assert pkgs[i..][1..] == pkgs[i + 1..];
      if entry.hasRepository {
        i := i + 1;
        continue;
      }
      if entry.ref.None? {
        assert Convert(pkgs[i..], env) == Err(MissingRef(pkgName));
        return Err(MissingRef(pkgName));
      }
      var outcome := ConvertPackage(pkgName, entry.ref.value, env);
      if outcome.Err? {
        assert Convert(pkgs[i..], env) == Err(outcome.error);
        return Err(outcome.error);
      }
      assert Convert(pkgs[i..], env) == Prepend([outcome.value], Convert(pkgs[i + 1..], env));
      if Convert(pkgs[i + 1..], env).Ok? {
        assert modules + ([outcome.value] + Convert(pkgs[i + 1..], env).value)
            == (modules + [outcome.value]) + Convert(pkgs[i + 1..], env).value;
      }
      modules := modules + [outcome.value];
      i := i + 1;
    }
    assert pkgs[i..] == [];
    assert modules + [] == modules;
    r := Ok(modules);
  }

  /** Whether a package of the listing converts. */
  predicate Converts(p: (string, PackageEntry), env: Env)
  {
    PackageOutcome(p.0, p.1, env).Ok?
  }

  /** One step of the run: a private head is skipped, a failing public
      head ends the run, a converting public head leaves the verdict to the
      rest. */
  lemma ConvertStep(pkgs: seq<(string, PackageEntry)>, env: Env)
    requires |pkgs| > 0
    ensures pkgs[0].1.hasRepository ==> Convert(pkgs, env) == Convert(pkgs[1..], env)
    ensures !pkgs[0].1.hasRepository && !Converts(pkgs[0], env) ==> Convert(pkgs, env).Err?
    ensures !pkgs[0].1.hasRepository && Converts(pkgs[0], env) ==>
      Convert(pkgs, env).Ok? == Convert(pkgs[1..], env).Ok?
  {
  }

  /** If every public package converts, the run succeeds. */
  lemma {:induction false} ConvertOkWhenAll(pkgs: seq<(string, PackageEntry)>, env: Env)
    requires forall i :: 0 <= i < |Public(pkgs)| ==> Converts(Public(pkgs)[i], env)
    ensures Convert(pkgs, env).Ok?
  {
    if |pkgs| > 0 {
      ConvertStep(pkgs, env);
      var rest := Public(pkgs[1..]);
      if pkgs[0].1.hasRepository {
        assert Public(pkgs) == rest;
      } else {
        assert Public(pkgs) == [pkgs[0]] + rest;
        assert Public(pkgs)[0] == pkgs[0];
        forall i | 0 <= i < |rest| ensures Converts(rest[i], env) {
          assert Public(pkgs)[i + 1] == rest[i];
        }
      }
      ConvertOkWhenAll(pkgs[1..], env);
    }
  }

  /** If some public package does not convert, the run fails. */
  lemma {:induction false} ConvertErrWhenSome(pkgs: seq<(string, PackageEntry)>, env: Env, i: int)
    requires 0 <= i < |Public(pkgs)| && !Converts(Public(pkgs)[i], env)
    ensures Convert(pkgs, env).Err?
  {
    ConvertStep(pkgs, env);
    var rest := Public(pkgs[1..]);
    if pkgs[0].1.hasRepository {
      assert Public(pkgs) == rest;
      ConvertErrWhenSome(pkgs[1..], env, i);
    } else {
      assert Public(pkgs) == [pkgs[0]] + rest;
      if i > 0 && Converts(pkgs[0], env) {
        assert Public(pkgs)[i] == rest[i - 1];
        ConvertErrWhenSome(pkgs[1..], env, i - 1);
      }
    }
  }

  /** The run succeeds exactly when every package without a `repository`
      key converts; private packages play no part. */
  lemma ConvertSucceeds(pkgs: seq<(string, PackageEntry)>, env: Env)
    ensures Convert(pkgs, env).Ok? <==> forall i :: 0 <= i < |Public(pkgs)| ==> Converts(Public(pkgs)[i], env)
  {
    if forall i :: 0 <= i < |Public(pkgs)| ==> Converts(Public(pkgs)[i], env) {
      ConvertOkWhenAll(pkgs, env);
    } else {
      var i :| 0 <= i < |Public(pkgs)| && !Converts(Public(pkgs)[i], env);
      ConvertErrWhenSome(pkgs, env, i);
    }
  }

  /** On success the run yields one module per package without a
      `repository` key, in listing order: the i-th module is the i-th such
      package's module. */
  lemma {:induction false} ConvertModules(pkgs: seq<(string, PackageEntry)>, env: Env)
    requires Convert(pkgs, env).Ok?
    ensures |Convert(pkgs, env).value| == |Public(pkgs)|
    ensures forall i :: 0 <= i < |Public(pkgs)| ==>
      PackageOutcome(Public(pkgs)[i].0, Public(pkgs)[i].1, env) == Ok(Convert(pkgs, env).value[i])
  {
    if |pkgs| > 0 {
      ConvertModules(pkgs[1..], env);
      var pub := Public(pkgs);
      var rest := Public(pkgs[1..]);
      if pkgs[0].1.hasRepository {
        assert pub == rest;
      } else {
        assert pub == [pkgs[0]] + rest;
        var ms := Convert(pkgs, env).value;
        forall i | 0 <= i < |pub| ensures PackageOutcome(pub[i].0, pub[i].1, env) == Ok(ms[i]) {
          if i > 0 { assert pub[i] == rest[i - 1]; }
        }
      }
    }
  }

  /** On failure the error is that of the first package without a
      `repository` key that does not convert. */
  lemma {:induction false} ConvertFirstError(pkgs: seq<(string, PackageEntry)>, env: Env)
    requires Convert(pkgs, env).Err?
    ensures exists i :: (0 <= i < |Public(pkgs)| &&
      PackageOutcome(Public(pkgs)[i].0, Public(pkgs)[i].1, env) == Err(Convert(pkgs, env).error) &&
      forall k :: 0 <= k < i ==> Converts(Public(pkgs)[k], env))
  {
    var pub := Public(pkgs);
    var rest := Public(pkgs[1..]);
    if pkgs[0].1.hasRepository {
      ConvertFirstError(pkgs[1..], env);
      assert pub == rest;
    } else {
      assert pub == [pkgs[0]] + rest;
      if !Converts(pkgs[0], env) {
        assert PackageOutcome(pub[0].0, pub[0].1, env) == Err(Convert(pkgs, env).error);
      } else {
        ConvertFirstError(pkgs[1..], env);
        var i :| 0 <= i < |rest| &&
          PackageOutcome(rest[i].0, rest[i].1, env) == Err(Convert(pkgs[1..], env).error) &&
          forall k :: 0 <= k < i ==> Converts(rest[k], env);
        assert pub[i + 1] == rest[i];
        forall k | 0 <= k < i + 1 ensures Converts(pub[k], env) {
          if k > 0 { assert pub[k] == rest[k - 1]; }
        }
      }
    }
  }

  /** A module is named after its package, and its sources are the
      `sources_dict` entries in order, each with the expanded url, the type
      guessed from it, and the one checksum entry of the package's `sources`
      file, followed by one `patch` entry per `patches_dict` entry in order. */
  lemma ModuleLayout(name: string, ref: string, env: Env)
    requires ModuleFor(name, ref, env).Ok?
    ensures var m := ModuleFor(name, ref, env).value;
      var text := env.fetch(SpecUrl(name, ref));
      var srcs := env.sourcesOf(text);
      var patches := env.patchesOf(text);
      var (key, value) := ChecksumEntry(env.fetch(SourcesUrl(name, ref)));
      && m.name == name
      && |m.sources| == |srcs| + |patches|
      && (forall i :: 0 <= i < |srcs| ==>
            m.sources[i] == Remote(SourceKindOf(env.expand(text, srcs[i].1)), env.expand(text, srcs[i].1), key, value))
      && (forall j :: 0 <= j < |patches| ==> m.sources[|srcs| + j] == Patch(patches[j].1))
  {
    var text := env.fetch(SpecUrl(name, ref));
    ScanSucceedsOrFails(SpecLines(text), NewModule(name));
  }

  lemma ScanSucceedsOrFails(lines: seq<string>, m: ModuleRecord)
    ensures ScanFrom(lines, 0, m).Ok? ==>
      ScanFrom(lines, 0, m).value.name == m.name && ScanFrom(lines, 0, m).value.sources == m.sources
  {
    ScanFails(lines, 0, m);
    if ScanFrom(lines, 0, m).Ok? {
      ScanSucceeds(lines, 0, m);
    }
  }

  /** The build fields of a module: with no `%build` line, `buildsystem`
      null and `config-opts` []; otherwise the last `%build` line decides
      `buildsystem` (its token if on the list, else `simple`), and
      `config-opts` [] / no `build-commands` hold exactly when no `%build`
      line yielded an unsupported token. The module fails exactly when some
      `%build` line is last or is followed by an empty first token. */
  lemma ModuleBuildFields(name: string, ref: string, env: Env)
    ensures var lines := SpecLines(env.fetch(SpecUrl(name, ref)));
      ModuleFor(name, ref, env).Err? <==> exists i :: 0 <= i && BadBuildAt(lines, i)
    ensures var lines := SpecLines(env.fetch(SpecUrl(name, ref)));
      var r := ModuleFor(name, ref, env);
      r.Ok? ==>
        && ((forall i :: 0 <= i ==> !IsBuildHeader(lines, i)) ==>
              r.value.buildsystem == None && r.value.configOpts == Some([]) && r.value.buildCommands == None)
        && (forall j :: 0 <= j && IsLastBuildHeader(lines, j) ==>
              var t := TokenAfter(lines, j);
              r.value.buildsystem == Some(if t in Supported then t else "simple"))
        && (r.value.configOpts == if AnyFallbackFrom(lines, 0) then None else Some([]))
        && (r.value.buildCommands == if AnyFallbackFrom(lines, 0) then Some([]) else None)
  {
    var lines := SpecLines(env.fetch(SpecUrl(name, ref)));
    ScanFails(lines, 0, NewModule(name));
    if ModuleFor(name, ref, env).Ok? {
      ScanSucceeds(lines, 0, NewModule(name));
    }
  }
}
