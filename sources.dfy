/** The source entries of a module: one per `Source` line of the spec file,
    typed by the shape of its url and given the package's checksum, then one
    per `Patch` line. */
module Sources {
  import opened Wrappers
  import opened PyStr
  import opened Manifest

  /** The type guess, first match wins, on the url's first and last
      `/`-separated segments; an http(s) url whose last segment mentions
      neither `tar` nor `git` gets no type. */
  function SourceKindOf(url: string): Option<SourceKind>
  {
    if !StartsWith(FirstPiece(url, '/'), "http") then Some(File)
    else if Contains(LastPiece(url, '/'), "tar") then Some(Archive)
    else if Contains(LastPiece(url, '/'), "git") then Some(Git)
    else None
  }

  /** The first segment starts with `http` exactly when the url does. */
  lemma FirstSegmentStartsWithHttp(url: string)
    ensures StartsWith(FirstPiece(url, '/'), "http") <==> StartsWith(url, "http")
  {
    FirstPieceIsPrefix(url, '/');
    var f := FirstPiece(url, '/');
    if StartsWith(f, "http") {
      assert url[..4] == f[..4];
    }
  }

  /** The type guess stated on the url itself: `file` exactly when the url
      does not start with `http`; otherwise `archive` exactly when the part
      after the last `/` contains `tar`, failing that `git` exactly when it
      contains `git`, and no type when it contains neither. */
  lemma SourceKindClassifies(url: string)
    ensures SourceKindOf(url) == Some(File) <==> !StartsWith(url, "http")
    ensures StartsWith(url, "http") ==>
      (SourceKindOf(url) == Some(Archive) <==> Occurs("tar", LastPiece(url, '/')))
    ensures StartsWith(url, "http") && !Occurs("tar", LastPiece(url, '/')) ==>
      (SourceKindOf(url) == Some(Git) <==> Occurs("git", LastPiece(url, '/')))
    ensures SourceKindOf(url) == None <==>
      StartsWith(url, "http") && !Occurs("tar", LastPiece(url, '/')) && !Occurs("git", LastPiece(url, '/'))
  {
    FirstSegmentStartsWithHttp(url);
    ContainsOccurs(LastPiece(url, '/'), "tar");
    ContainsOccurs(LastPiece(url, '/'), "git");
  }

  /** The checksum entry read from the `sources` file text: the key is the
      first space-separated token, lower-cased, the value the last one with
      trailing whitespace removed. */
  function ChecksumEntry(text: string): (string, string)
  {
    (Lower(FirstPiece(text, ' ')), RStrip(LastPiece(text, ' ')))
  }

  /** The key is the text before the first space, lower-cased; the value is
      the text after the last space, right-stripped; neither holds a space,
      the key no upper-case letter, and the value does not end in whitespace. */
  lemma ChecksumEntryShape(text: string)
    ensures var (key, value) := ChecksumEntry(text);
      && |key| <= |text| && key == Lower(text[..|key|])
      && (|key| < |text| ==> text[|key|] == ' ')
      && ' ' !in key
      && (forall i :: 0 <= i < |key| ==> !IsUpper(key[i]))
      && value <= LastPiece(text, ' ')
      && (forall i :: |value| <= i < |LastPiece(text, ' ')| ==> IsSpace(LastPiece(text, ' ')[i]))
      && ' ' !in value
      && (|value| == 0 || !IsSpace(value[|value| - 1]))
  {
    FirstPieceIsPrefix(text, ' ');
    LastPieceIsSuffix(text, ' ');
    var f := FirstPiece(text, ' ');
    assert text[..|f|] == f;
  }

  /** The entry for one `Source` line, given its macro-expanded url. */
  function SourceRecordFor(url: string, checksumText: string): SourceRecord
  {
    var (key, value) := ChecksumEntry(checksumText);
    Remote(SourceKindOf(url), url, key, value)
  }

  /** One entry per `(label, value)` of `sources_dict`, in order. */
  function SourceRecords(srcs: seq<(string, string)>, specText: string, checksumText: string,
                         expand: (string, string) -> string): (r: seq<SourceRecord>)
  {
    seq(|srcs|, i requires 0 <= i < |srcs| => SourceRecordFor(expand(specText, srcs[i].1), checksumText))
  }

  /** One `patch` entry per `(label, path)` of `patches_dict`, in order. */
  function PatchRecords(patches: seq<(string, string)>): seq<SourceRecord>
  {
    seq(|patches|, i requires 0 <= i < |patches| => Patch(patches[i].1))
  }

  /** The sources loop: each source fetches the package's `sources` file
      again and appends its entry to the module. */
  method AppendSources(m: ModuleRecord, srcs: seq<(string, string)>, specText: string,
                       fetch: string -> string, sourcesUrl: string,
                       expand: (string, string) -> string) returns (r: ModuleRecord)
    ensures r == m.(sources := m.sources + SourceRecords(srcs, specText, fetch(sourcesUrl), expand))
  {
    r := m;
    var i := 0;
    while i < |srcs|
      invariant 0 <= i <= |srcs|
      invariant r == m.(sources := m.sources + SourceRecords(srcs[..i], specText, fetch(sourcesUrl), expand))
    {
      var srcUrl := expand(specText, srcs[i].1);
      var kind := SourceKindOf(srcUrl);
      var shaText := fetch(sourcesUrl);
      var (key, value) := ChecksumEntry(shaText);
      r := r.(sources := r.sources + [Remote(kind, srcUrl, key, value)]);
      assert SourceRecords(srcs[..i + 1], specText, fetch(sourcesUrl), expand)
          == SourceRecords(srcs[..i], specText, fetch(sourcesUrl), expand)
             + [SourceRecordFor(srcUrl, fetch(sourcesUrl))];
      i := i + 1;
    }
    assert srcs[..i] == srcs;
  }

  /** The patches loop: one `patch` entry appended per patch. */
  method AppendPatches(m: ModuleRecord, patches: seq<(string, string)>) returns (r: ModuleRecord)
    ensures r == m.(sources := m.sources + PatchRecords(patches))
  {
    r := m;
    var i := 0;
    while i < |patches|
      invariant 0 <= i <= |patches|
      invariant r == m.(sources := m.sources + PatchRecords(patches[..i]))
    {
      r := r.(sources := r.sources + [Patch(patches[i].1)]);
      assert PatchRecords(patches[..i + 1]) == PatchRecords(patches[..i]) + [Patch(patches[i].1)];
      i := i + 1;
    }
    assert patches[..i] == patches;
  }
}
