/** The records `convert_deps` emits: one module per package, each with an
    ordered list of source entries, in the flatpak-builder manifest format. */
module Manifest {
  import opened Wrappers
  import opened OrderedDict

  /** The `type` a remote source is given; a `patch` entry is its own record. */
  datatype SourceKind = File | Archive | Git

  function KindName(k: SourceKind): string
  {
    match k
    case File => "file"
    case Archive => "archive"
    case Git => "git"
  }

  /** A source entry. A remote one has an optional `type`, a `url`, and one
      checksum entry whose key is read from the package's `sources` file; a
      patch has only `type: patch` and a `path`. */
  datatype SourceRecord =
    | Remote(kind: Option<SourceKind>, url: string, checksumKey: string, checksum: string)
    | Patch(path: string)

  /** A module. `buildsystem` None is JSON null; `configOpts` and
      `buildCommands` None mean the key is absent from the module. */
  datatype ModuleRecord = ModuleRecord(
    name: string,
    buildsystem: Option<string>,
    configOpts: Option<seq<string>>,
    buildCommands: Option<seq<string>>,
    sources: seq<SourceRecord>)

  /** The dict the script builds for a source entry, key by key in the order
      it assigns them. */
  function SourceFields(s: SourceRecord): Dict
  {
    match s
    case Patch(path) => Set(Set([], "type", "patch"), "path", path)
    case Remote(kind, url, key, sum) =>
      var typed := if kind.Some? then Set([], "type", KindName(kind.value)) else [];
      Set(Set(typed, "url", url), key, sum)
  }

  /** A remote entry carries its type (when one was decided), its url and its
      checksum, keys in that order, unless the checksum key read from the
      `sources` file is itself `type` or `url`, in which case the checksum
      value overwrites that field. A patch entry has exactly `type` and
      `path`. */
  lemma SourceFieldsContent(s: SourceRecord)
    ensures UniqueKeys(SourceFields(s))
    ensures s.Patch? ==>
      Keys(SourceFields(s)) == ["type", "path"] &&
      Get(SourceFields(s), "type") == Some("patch") &&
      Get(SourceFields(s), "path") == Some(s.path)
    ensures s.Remote? && s.checksumKey != "type" && s.checksumKey != "url" ==>
      Keys(SourceFields(s)) == (if s.kind.Some? then ["type"] else []) + ["url", s.checksumKey] &&
      Get(SourceFields(s), "type") == (if s.kind.Some? then Some(KindName(s.kind.value)) else None) &&
      Get(SourceFields(s), "url") == Some(s.url) &&
      Get(SourceFields(s), s.checksumKey) == Some(s.checksum)
    ensures s.Remote? && s.checksumKey == "url" ==>
      Get(SourceFields(s), "url") == Some(s.checksum)
    ensures s.Remote? && s.checksumKey == "type" ==>
      Get(SourceFields(s), "type") == Some(s.checksum) &&
      Get(SourceFields(s), "url") == Some(s.url)
  {
    assert UniqueKeys([]);
    assert Keys([]) == [];
    match s
    case Patch(path) =>
      SetGet([], "type", "patch");
      SetGet(Set([], "type", "patch"), "path", path);
    case Remote(kind, url, key, sum) =>
      var typed := if kind.Some? then Set([], "type", KindName(kind.value)) else [];
      if kind.Some? {
        SetGet([], "type", KindName(kind.value));
      }
      SetGet(typed, "url", url);
      SetGet(Set(typed, "url", url), key, sum);
      GetMissing(typed, "url");
      GetMissing(Set(typed, "url", url), key);
  }
}
