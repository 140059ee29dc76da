/** How `convert_deps` decides a module's build system: it scans the spec
    file line by line, and for each line equal to `%build` reads the first
    space-separated token of the next line, drops one leading `%`, and
    checks it against a fixed list of build systems flatpak-builder knows. */
module BuildSystem {
  import opened Wrappers
  import opened PyStr
  import opened Manifest

  /** The build systems passed through as they are. */
  const Supported: seq<string> := ["cmake", "qmake", "meson", "autotools", "cmake-ninja"]

  /** The two IndexErrors the scan can raise: `%build` on the last line
      (`lines[idx+1]`), and an empty token (`buildsystem[0]`). */
  datatype BuildError = BuildIsLastLine | EmptyBuildToken

  /** The `if line != "\n"` filter of the list comprehension. */
  function DropNewlineLines(lines: seq<string>): (r: seq<string>)
    ensures forall i :: 0 <= i < |r| ==> r[i] != "\n"
  {
    if |lines| == 0 then []
    else if lines[0] == "\n" then DropNewlineLines(lines[1..])
    else [lines[0]] + DropNewlineLines(lines[1..])
  }

  /** The spec file's lines as the scan sees them. */
  function SpecLines(text: string): seq<string>
  {
    var kept := DropNewlineLines(SplitLines(text));
    seq(|kept|, i requires 0 <= i < |kept| => RStrip(kept[i]))
  }

  /** The filter removes nothing: `splitlines` never yields "\n", so blank
      lines reach the scan as empty strings. */
  lemma {:induction false} FilterKeepsEveryLine(text: string)
    ensures DropNewlineLines(SplitLines(text)) == SplitLines(text)
  {
    NoLineIsNewline(SplitLines(text));
  }

  lemma {:induction false} NoLineIsNewline(lines: seq<string>)
    requires forall j, k :: 0 <= j < |lines| && 0 <= k < |lines[j]| ==> !IsLineBreak(lines[j][k])
    ensures DropNewlineLines(lines) == lines
  {
    if |lines| > 0 {
      assert lines[0] != "\n" by {
        if lines[0] == "\n" {
          assert IsLineBreak(lines[0][0]);
        }
      }
      NoLineIsNewline(lines[1..]);
      assert [lines[0]] + lines[1..] == lines;
    }
  }

  /** `line.split(" ")[0]`. */
  function FirstToken(line: string): string
  {
    FirstPiece(line, ' ')
  }

  /** Drop one leading `%` (a macro such as `%cmake`). */
  function StripSigil(t: string): string
  {
    if |t| > 0 && t[0] == '%' then t[1..] else t
  }

  datatype Decision = Native(name: string) | Fallback

  function Classify(t: string): Decision
  {
    if t in Supported then Native(t) else Fallback
  }

  /** The dict updates for one decision: a native build system is stored
      as is; otherwise `simple`, `config-opts` removed, `build-commands`
      set to an empty list. */
  function Apply(m: ModuleRecord, d: Decision): ModuleRecord
  {
    match d
    case Native(n) => m.(buildsystem := Some(n))
    case Fallback => m.(buildsystem := Some("simple"), configOpts := None, buildCommands := Some([]))
  }

  /** The scan from line `idx` on, starting from module state `m`. */
  function ScanFrom(lines: seq<string>, idx: nat, m: ModuleRecord): Result<ModuleRecord, BuildError>
    requires idx <= |lines|
    decreases |lines| - idx
  {
    if idx == |lines| then Ok(m)
    else if lines[idx] != "%build" then ScanFrom(lines, idx + 1, m)
    else if idx + 1 == |lines| then Err(BuildIsLastLine)
    else
      var t := FirstToken(lines[idx + 1]);
      if t == "" then Err(EmptyBuildToken)
      else ScanFrom(lines, idx + 1, Apply(m, Classify(StripSigil(t))))
  }

  /** The scan loop of `convert_deps`, updating the module being built. */
  method ScanBuildSection(lines: seq<string>, m: ModuleRecord) returns (r: Result<ModuleRecord, BuildError>)
    ensures r == ScanFrom(lines, 0, m)
  {
    var current := m;
    var idx := 0;
    while idx < |lines|
      invariant 0 <= idx <= |lines|
      invariant ScanFrom(lines, 0, m) == ScanFrom(lines, idx, current)
    {
      if lines[idx] == "%build" {
        if idx + 1 == |lines| {
          return Err(BuildIsLastLine);
        }
        var buildsystem := FirstToken(lines[idx + 1]);
        if buildsystem == "" {
          return Err(EmptyBuildToken);
        }
        if buildsystem[0] == '%' {
          buildsystem := buildsystem[1..];
        }
        current := Apply(current, Classify(buildsystem));
      }
      idx := idx + 1;
    }
    r := Ok(current);
  }

  predicate IsBuildHeader(lines: seq<string>, i: int)
  {
    0 <= i < |lines| && lines[i] == "%build"
  }

  /** A `%build` line the scan raises at. */
  predicate BadBuildAt(lines: seq<string>, i: int)
  {
    IsBuildHeader(lines, i) && (i + 1 == |lines| || FirstToken(lines[i + 1]) == "")
  }

  /** The token the `%build` header at `i` yields, sigil removed. */
  function TokenAfter(lines: seq<string>, i: int): string
  {
    if 0 <= i && i + 1 < |lines| then StripSigil(FirstToken(lines[i + 1])) else ""
  }

  /** The `%build` header at `j` is the last one. */
  predicate IsLastBuildHeader(lines: seq<string>, j: int)
  {
    IsBuildHeader(lines, j) && forall k :: j < k < |lines| ==> !IsBuildHeader(lines, k)
  }

  /** Some `%build` header from `idx` on yields an unsupported token. */
  ghost predicate AnyFallbackFrom(lines: seq<string>, idx: int)
  {
    exists i :: idx <= i && IsBuildHeader(lines, i) && TokenAfter(lines, i) !in Supported
  }

  /** The scan fails exactly when some `%build` line is the last line or is
      followed by a line whose first token is empty (a blank line, or one
      that starts with a space), and then with the error of the first such
      header. */
  lemma {:induction false} ScanFails(lines: seq<string>, idx: nat, m: ModuleRecord)
    requires idx <= |lines|
    ensures ScanFrom(lines, idx, m).Err? <==> exists i :: idx <= i && BadBuildAt(lines, i)
    ensures ScanFrom(lines, idx, m).Err? ==>
      exists i :: idx <= i && BadBuildAt(lines, i) &&
        (forall k :: idx <= k < i ==> !BadBuildAt(lines, k)) &&
        ScanFrom(lines, idx, m).error == (if i + 1 == |lines| then BuildIsLastLine else EmptyBuildToken)
    decreases |lines| - idx
  {
    if idx == |lines| {
    } else if lines[idx] != "%build" {
      ScanFails(lines, idx + 1, m);
      assert !BadBuildAt(lines, idx);
    } else if idx + 1 == |lines| || FirstToken(lines[idx + 1]) == "" {
      assert BadBuildAt(lines, idx);
    } else {
      var t := FirstToken(lines[idx + 1]);
      ScanFails(lines, idx + 1, Apply(m, Classify(StripSigil(t))));
      assert !BadBuildAt(lines, idx);
    }
  }

  /** With no bad `%build` line the scan succeeds, and it never touches the
      module's name or sources. */
  lemma {:induction false} ScanOk(lines: seq<string>, idx: nat, m: ModuleRecord)
    requires idx <= |lines|
    requires forall i :: idx <= i ==> !BadBuildAt(lines, i)
    ensures ScanFrom(lines, idx, m).Ok?
    ensures ScanFrom(lines, idx, m).value.name == m.name
    ensures ScanFrom(lines, idx, m).value.sources == m.sources
    decreases |lines| - idx
  {
    if idx < |lines| {
      if lines[idx] != "%build" {
        ScanOk(lines, idx + 1, m);
      } else {
        assert !BadBuildAt(lines, idx);
        ScanOk(lines, idx + 1, Apply(m, Classify(StripSigil(FirstToken(lines[idx + 1])))));
      }
    }
  }

  /** Without a `%build` line the module comes back untouched. */
  lemma {:induction false} ScanNoHeader(lines: seq<string>, idx: nat, m: ModuleRecord)
    requires idx <= |lines|
    requires forall i :: idx <= i ==> !IsBuildHeader(lines, i)
    ensures ScanFrom(lines, idx, m) == Ok(m)
    decreases |lines| - idx
  {
    if idx < |lines| {
      assert !IsBuildHeader(lines, idx);
      ScanNoHeader(lines, idx + 1, m);
    }
  }

  /** The last `%build` header decides `buildsystem`. */
  lemma {:induction false} ScanLastHeader(lines: seq<string>, idx: nat, m: ModuleRecord, j: int)
    requires idx <= j && IsLastBuildHeader(lines, j)
    requires forall i :: idx <= i ==> !BadBuildAt(lines, i)
    ensures ScanFrom(lines, idx, m).Ok?
    ensures var t := TokenAfter(lines, j);
      ScanFrom(lines, idx, m).value.buildsystem == Some(if t in Supported then t else "simple")
    decreases |lines| - idx
  {
    ScanOk(lines, idx, m);
    assert !BadBuildAt(lines, j);
    if idx == j {
      var m' := Apply(m, Classify(TokenAfter(lines, j)));
      ScanNoHeader(lines, idx + 1, m');
      assert ScanFrom(lines, idx, m) == ScanFrom(lines, idx + 1, m');
    } else if lines[idx] != "%build" {
      ScanLastHeader(lines, idx + 1, m, j);
    } else {
      assert !BadBuildAt(lines, idx);
      ScanLastHeader(lines, idx + 1, Apply(m, Classify(TokenAfter(lines, idx))), j);
    }
  }

  /** `config-opts` is gone and `build-commands` is [] as soon as some
      header from `idx` on yields an unsupported token; otherwise both keep
      their values. */
  lemma {:induction false} ScanFallback(lines: seq<string>, idx: nat, m: ModuleRecord)
    requires idx <= |lines|
    requires forall i :: idx <= i ==> !BadBuildAt(lines, i)
    ensures ScanFrom(lines, idx, m).Ok?
    ensures ScanFrom(lines, idx, m).value.configOpts ==
      (if AnyFallbackFrom(lines, idx) then None else m.configOpts)
    ensures ScanFrom(lines, idx, m).value.buildCommands ==
      (if AnyFallbackFrom(lines, idx) then Some([]) else m.buildCommands)
    decreases |lines| - idx
  {
    ScanOk(lines, idx, m);
    if idx == |lines| {
      assert !AnyFallbackFrom(lines, idx);
    } else if lines[idx] != "%build" {
      ScanFallback(lines, idx + 1, m);
      assert AnyFallbackFrom(lines, idx) == AnyFallbackFrom(lines, idx + 1) by {
        assert !IsBuildHeader(lines, idx);
      }
    } else {
      assert IsBuildHeader(lines, idx) && !BadBuildAt(lines, idx);
      var t := TokenAfter(lines, idx);
      ScanFallback(lines, idx + 1, Apply(m, Classify(t)));
      if t !in Supported {
        assert AnyFallbackFrom(lines, idx);
      } else {
        assert AnyFallbackFrom(lines, idx) == AnyFallbackFrom(lines, idx + 1);
      }
    }
  }

  /** The facts about a successful scan together: with no `%build` line the
      module is untouched (`buildsystem` stays null, `config-opts` stays []);
      otherwise the last header decides `buildsystem`, and `config-opts` is
      gone and `build-commands` is [] as soon as any header yielded an
      unsupported token, even if a later one is supported. */
  lemma ScanSucceeds(lines: seq<string>, idx: nat, m: ModuleRecord)
    requires idx <= |lines|
    requires forall i :: idx <= i ==> !BadBuildAt(lines, i)
    ensures ScanFrom(lines, idx, m).Ok?
    ensures (forall i :: idx <= i ==> !IsBuildHeader(lines, i)) ==> ScanFrom(lines, idx, m) == Ok(m)
    ensures forall j :: idx <= j && IsLastBuildHeader(lines, j) ==>
      var t := TokenAfter(lines, j);
      ScanFrom(lines, idx, m).value.buildsystem == Some(if t in Supported then t else "simple")
    ensures ScanFrom(lines, idx, m).value.configOpts ==
      (if AnyFallbackFrom(lines, idx) then None else m.configOpts)
    ensures ScanFrom(lines, idx, m).value.buildCommands ==
      (if AnyFallbackFrom(lines, idx) then Some([]) else m.buildCommands)
    ensures ScanFrom(lines, idx, m).value.name == m.name
    ensures ScanFrom(lines, idx, m).value.sources == m.sources
  {
    ScanOk(lines, idx, m);
    if forall i :: idx <= i ==> !IsBuildHeader(lines, i) {
      ScanNoHeader(lines, idx, m);
    }
    forall j | idx <= j && IsLastBuildHeader(lines, j)
      ensures var t := TokenAfter(lines, j);
      ScanFrom(lines, idx, m).value.buildsystem == Some(if t in Supported then t else "simple")
    {
      ScanLastHeader(lines, idx, m, j);
    }
    ScanFallback(lines, idx, m);
  }
}
