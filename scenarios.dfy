/** Worked conversions of small listings, checked against the model: a
    cmake package with a tarball next to a private package, and the two
    ways a `%build` section makes the run fail. The spec texts are given as
    their lines joined by "\n". */
module Scenarios {
  import opened Wrappers
  import opened PyStr
  import opened Manifest
  import opened BuildSystem
  import opened Sources
  import opened Converter

  const FooSources: string := "SHA256 (foo-1.0.tar.gz) = deadbeef\n"
  const FooUrl: string := "https://example.org/foo-1.0.tar.gz"

  lemma TwoLines(a: string, b: string)
    requires NoLineBreak(a) && NoLineBreak(b)
    ensures SplitLines(a + "\n" + (b + "\n" + "")) == [a, b]
  {
    SplitLinesBreak(b, '\n', "");
    SplitLinesLast("");
    assert b + "\n" + "" == b + ['\n'] + "";
    assert SplitLines(b + "\n" + "") == [b];
    assert a + "\n" + (b + "\n" + "") == a + ['\n'] + (b + "\n" + "");
    SplitLinesBreak(a, '\n', b + "\n" + "");
  }

  lemma ThreeLines(a: string, b: string, c: string)
    requires NoLineBreak(a) && NoLineBreak(b) && NoLineBreak(c)
    ensures SplitLines(a + "\n" + (b + "\n" + (c + "\n" + ""))) == [a, b, c]
  {
    TwoLines(b, c);
    assert a + "\n" + (b + "\n" + (c + "\n" + "")) == a + ['\n'] + (b + "\n" + (c + "\n" + ""));
    SplitLinesBreak(a, '\n', b + "\n" + (c + "\n" + ""));
  }

  /** The scan's view of a spec whose lines carry no trailing whitespace. */
  lemma SpecLinesOf(text: string, lines: seq<string>)
    requires SplitLines(text) == lines
    requires forall i :: 0 <= i < |lines| ==> |lines[i]| == 0 || !IsSpace(lines[i][|lines[i]| - 1])
    ensures SpecLines(text) == lines
  {
    FilterKeepsEveryLine(text);
    forall i | 0 <= i < |lines| ensures RStrip(lines[i]) == lines[i] {
      RStripAt(lines[i], |lines[i]|);
    }
  }

  /** The scan of a three-line spec whose middle line is its only `%build`. */
  lemma ScanMiddleBuild(a: string, c: string, m: ModuleRecord)
    requires a != "%build" && c != "%build" && FirstToken(c) != ""
    ensures ScanFrom([a, "%build", c], 0, m) == Ok(Apply(m, Classify(StripSigil(FirstToken(c)))))
  {
    var lines := [a, "%build", c];
    var m' := Apply(m, Classify(StripSigil(FirstToken(c))));
    assert ScanFrom(lines, 0, m) == ScanFrom(lines, 1, m);
    assert ScanFrom(lines, 1, m) == ScanFrom(lines, 2, m');
    assert ScanFrom(lines, 2, m') == ScanFrom(lines, 3, m');
  }

  lemma CmakeToken()
    ensures FirstToken("%cmake -B build") == "%cmake"
  {
    FirstPieceAt("%cmake -B build", ' ', 6);
  }

  lemma FooSplit(spec: string)
    requires spec == "Name: foo" + "\n" + ("%build" + "\n" + ("%cmake -B build" + "\n" + ""))
    ensures SplitLines(spec) == ["Name: foo", "%build", "%cmake -B build"]
  {
    ThreeLines("Name: foo", "%build", "%cmake -B build");
  }

  lemma FooLines(spec: string)
    requires spec == "Name: foo" + "\n" + ("%build" + "\n" + ("%cmake -B build" + "\n" + ""))
    ensures SpecLines(spec) == ["Name: foo", "%build", "%cmake -B build"]
  {
    FooSplit(spec);
    SpecLinesOf(spec, ["Name: foo", "%build", "%cmake -B build"]);
  }

  lemma FooScan(spec: string)
    requires spec == "Name: foo" + "\n" + ("%build" + "\n" + ("%cmake -B build" + "\n" + ""))
    ensures ScanFrom(SpecLines(spec), 0, NewModule("foo")) == Ok(NewModule("foo").(buildsystem := Some("cmake")))
  {
    FooLines(spec);
    CmakeToken();
    ScanMiddleBuild("Name: foo", "%cmake -B build", NewModule("foo"));
  }

  /** The first piece of `a + [c] + rest` split at `c` is `a`. */
  lemma FirstPieceOf(a: string, c: char, rest: string)
    requires c !in a
    ensures FirstPiece(a + [c] + rest, c) == a
  {
    var s := a + [c] + rest;
    assert s[..|a|] == a && s[|a|] == c;
    FirstPieceAt(s, c, |a|);
  }

  /** The last piece of `rest + [c] + b` split at `c` is `b`. */
  lemma LastPieceOf(rest: string, c: char, b: string)
    requires c !in b
    ensures LastPiece(rest + [c] + b, c) == b
  {
    var s := rest + [c] + b;
    assert s[|rest| + 1..] == b && s[|rest|] == c;
    LastPieceAt(s, c, |rest| + 1);
  }

  lemma FooUrlFirstSegment()
    ensures FirstPiece(FooUrl, '/') == "https:"
  {
    assert FooUrl == "https:" + ['/'] + "/example.org/foo-1.0.tar.gz";
    FirstPieceOf("https:", '/', "/example.org/foo-1.0.tar.gz");
  }

  lemma FooUrlLastSegment()
    ensures LastPiece(FooUrl, '/') == "foo-1.0.tar.gz"
  {
    assert FooUrl == "https://example.org" + ['/'] + "foo-1.0.tar.gz";
    LastPieceOf("https://example.org", '/', "foo-1.0.tar.gz");
  }

  lemma TarballNameHasTar()
    ensures Contains("foo-1.0.tar.gz", "tar")
  {
    var last := "foo-1.0.tar.gz";
    assert last[8..11] == "tar";
    ContainsAt(last, "tar", 8);
  }

  lemma FooKind()
    ensures SourceKindOf(FooUrl) == Some(Archive)
  {
    FooUrlFirstSegment();
    FooUrlLastSegment();
    TarballNameHasTar();
    assert StartsWith("https:", "http");
  }

  lemma FooChecksumKey()
    ensures FirstPiece(FooSources, ' ') == "SHA256"
  {
    assert FooSources == "SHA256" + [' '] + "(foo-1.0.tar.gz) = deadbeef\n";
    FirstPieceOf("SHA256", ' ', "(foo-1.0.tar.gz) = deadbeef\n");
  }

  lemma FooChecksumValue()
    ensures LastPiece(FooSources, ' ') == "deadbeef\n"
  {
    assert FooSources == "SHA256 (foo-1.0.tar.gz) =" + [' '] + "deadbeef\n";
    LastPieceOf("SHA256 (foo-1.0.tar.gz) =", ' ', "deadbeef\n");
  }

  lemma DeadbeefStripped()
    ensures RStrip("deadbeef\n") == "deadbeef"
  {
    RStripAt("deadbeef\n", 8);
  }

  lemma Sha256Lowered()
    ensures Lower("SHA256") == "sha256"
  {
  }

  lemma FooChecksum()
    ensures ChecksumEntry(FooSources) == ("sha256", "deadbeef")
  {
    FooChecksumKey();
    FooChecksumValue();
    DeadbeefStripped();
    Sha256Lowered();
  }

  /** The environment of the scenario: foo's spec file at ref abc123 is
      `spec`, its `sources` file is `FooSources`, the spec declares the one
      source `FooUrl` and no patch, and there is no macro to expand. */
  predicate FooEnv(spec: string, env: Env)
  {
    && env.fetch(SpecUrl("foo", "abc123")) == spec
    && env.fetch(SourcesUrl("foo", "abc123")) == FooSources
    && env.sourcesOf(spec) == [("Source0", FooUrl)]
    && env.patchesOf(spec) == []
    && env.expand(spec, FooUrl) == FooUrl
  }

  lemma ModuleForOk(name: string, ref: string, env: Env, text: string, m: ModuleRecord)
    requires text == env.fetch(SpecUrl(name, ref))
    requires ScanFrom(SpecLines(text), 0, NewModule(name)) == Ok(m)
    ensures ModuleFor(name, ref, env)
      == Ok(m.(sources := SourceRecords(env.sourcesOf(text), text, env.fetch(SourcesUrl(name, ref)), env.expand)
                          + PatchRecords(env.patchesOf(text))))
  {
  }

  lemma OneSource(srcs: seq<(string, string)>, specText: string, checksumText: string,
                  expand: (string, string) -> string, url: string)
    requires |srcs| == 1 && expand(specText, srcs[0].1) == url
    ensures SourceRecords(srcs, specText, checksumText, expand) == [SourceRecordFor(url, checksumText)]
  {
  }

  lemma FooRecord()
    ensures SourceRecordFor(FooUrl, FooSources) == Remote(Some(Archive), FooUrl, "sha256", "deadbeef")
  {
    FooChecksum();
    FooKind();
  }

  /** A package whose spec scans to `m` and declares one source and no
      patch becomes `m` with that one source entry. */
  lemma ModuleOneSource(name: string, ref: string, env: Env, spec: string, m: ModuleRecord,
                        url: string, rec: SourceRecord)
    requires spec == env.fetch(SpecUrl(name, ref))
    requires ScanFrom(SpecLines(spec), 0, NewModule(name)) == Ok(m)
    requires |env.sourcesOf(spec)| == 1 && env.expand(spec, env.sourcesOf(spec)[0].1) == url
    requires env.patchesOf(spec) == []
    requires SourceRecordFor(url, env.fetch(SourcesUrl(name, ref))) == rec
    ensures ModuleFor(name, ref, env) == Ok(m.(sources := [rec]))
  {
    ModuleForOk(name, ref, env, spec, m);
    OneSource(env.sourcesOf(spec), spec, env.fetch(SourcesUrl(name, ref)), env.expand, url);
    assert PatchRecords(env.patchesOf(spec)) == [];
    assert [rec] + [] == [rec];
  }

  lemma FooModuleFromScan(spec: string, env: Env)
    requires ScanFrom(SpecLines(spec), 0, NewModule("foo")) == Ok(NewModule("foo").(buildsystem := Some("cmake")))
    requires FooEnv(spec, env)
    ensures ModuleFor("foo", "abc123", env)
      == Ok(ModuleRecord("foo", Some("cmake"), Some([]), None, [Remote(Some(Archive), FooUrl, "sha256", "deadbeef")]))
  {
    FooRecord();
    ModuleOneSource("foo", "abc123", env, spec, NewModule("foo").(buildsystem := Some("cmake")),
                    FooUrl, Remote(Some(Archive), FooUrl, "sha256", "deadbeef"));
  }

  /** A cmake package with one tarball, next to a private package: the
      private one is absent, the other becomes a cmake module with empty
      `config-opts`, no `build-commands`, and one archive source carrying
      its sha256. */
  lemma CmakeArchiveScenario(spec: string, env: Env)
    requires spec == "Name: foo" + "\n" + ("%build" + "\n" + ("%cmake -B build" + "\n" + ""))
    requires FooEnv(spec, env)
    ensures Convert([("foo", PackageEntry(Some("abc123"), false)), ("bar", PackageEntry(None, true))], env)
      == Ok([ModuleRecord("foo", Some("cmake"), Some([]), None,
                          [Remote(Some(Archive), FooUrl, "sha256", "deadbeef")])])
  {
    FooScan(spec);
    FooModuleFromScan(spec, env);
    PublicThenPrivate("foo", PackageEntry(Some("abc123"), false), "bar", PackageEntry(None, true), env,
                      ModuleRecord("foo", Some("cmake"), Some([]), None,
                                   [Remote(Some(Archive), FooUrl, "sha256", "deadbeef")]));
  }

  /** A public package followed by a private one converts to the public
      package's module alone. */
  lemma PublicThenPrivate(a: string, ea: PackageEntry, b: string, eb: PackageEntry, env: Env, m: ModuleRecord)
    requires !ea.hasRepository && eb.hasRepository
    requires PackageOutcome(a, ea, env) == Ok(m)
    ensures Convert([(a, ea), (b, eb)], env) == Ok([m])
  {
    var pkgs := [(a, ea), (b, eb)];
    assert pkgs[1..][1..] == [];
    assert Convert(pkgs[1..], env) == Ok([]);
    assert [m] + [] == [m];
  }

  /** A blank line right after `%build` survives the line filter and
      yields an empty token: the scan fails. */
  lemma BlankLineAfterBuildFails(spec: string)
    requires spec == "%build" + "\n" + ("" + "\n" + ("%cmake" + "\n" + ""))
    ensures ScanFrom(SpecLines(spec), 0, NewModule("foo")) == Err(EmptyBuildToken)
  {
    ThreeLines("%build", "", "%cmake");
    SpecLinesOf(spec, ["%build", "", "%cmake"]);
  }

  /** `%build` as the spec's last line: the scan fails. */
  lemma BuildOnLastLineFails(spec: string)
    requires spec == "Name: foo" + "\n" + ("%build" + "\n" + "")
    ensures ScanFrom(SpecLines(spec), 0, NewModule("foo")) == Err(BuildIsLastLine)
  {
    TwoLines("Name: foo", "%build");
    SpecLinesOf(spec, ["Name: foo", "%build"]);
  }
}
