# r2ff: RPM packages to Flatpak modules

`r2ff.py` turns a package listing of an RPM-based distribution into the
`modules` list of a Flatpak manifest. `convert_deps` processes each package
in listing order and skips packages that carry a `repository` key. For every
other package it does four things:

- fetches the package's `.spec` file at its `ref` from the distribution's
  git forge;
- reads the tool named on the line after each `%build` header:
  `cmake`, `qmake`, `meson`, `autotools` and `cmake-ninja` pass through,
  and anything else makes a `simple` module without `config-opts` and with
  empty `build-commands`;
- turns each `Source` line into a source entry whose type is guessed from
  the url and which carries the checksum read from the package's `sources`
  file;
- turns each `Patch` line into a `patch` entry.

`get_input_args` reads the command line.

The model is written in Dafny. It is split into these modules:

- `PyStr`: the Python `str` operations the script relies on, with
  CPython's semantics and their characterising lemmas. These are
  `split(c)` (with `join` as its inverse), `splitlines`, `rstrip`,
  `lower`, `startswith` and `p in s`.
- `OrderedDict`: a `dict` as an insertion-ordered list of entries. It
  gives the key order `json.dumps` writes.
- `Manifest`: module and source records, and the key/value layout of a
  source entry.
- `BuildSystem`: the `%build` scan. It has a loop method proved equal to a
  recursive specification, and lemmas on that specification.
- `Sources`: the type guess, the checksum entry, and the source and patch
  loops.
- `Converter`: `convert_deps`. It has a loop method proved equal to the
  specification function `Convert`, and lemmas on `Convert`.
- `InputArgs`: `get_input_args`.
- `Scenarios`: worked conversions, proved on the model.

The parts outside the script are parameters of the model, held in an `Env`
value:

- `fetch`: the HTTP GET, returning decoded text.
- `sourcesOf` / `patchesOf`: pyrpm's `sources_dict` / `patches_dict`, as
  ordered `(label, value)` lists.
- `expand`: pyrpm's `replace_macros`.

Exceptions the script raises become `Err` results. The first one ends the
whole run, and no module list is returned:

- `MissingRef`: a public package without `ref`. This is the `KeyError`
  raised inside the `except` branch.
- `BuildIsLastLine`: `%build` is the last line, the `IndexError` at line
  146.
- `EmptyBuildToken`: the line after `%build` has an empty first token, the
  `IndexError` at line 148.

Behaviour of the code that the model keeps as written:

- After `splitlines` no line can equal `"\n"`. The blank-line filter
  therefore removes nothing, and a blank line right after `%build` makes
  the scan fail.
- Every `%build` header is acted on, so the last one decides
  `buildsystem`. Once any header has fallen back to `simple`,
  `config-opts` stays removed and `build-commands` stays `[]`, even if a
  later header names a supported tool.
- The checksum is not matched by file name. The key is the first
  space-separated token of the whole `sources` file, lower-cased. The value
  is its last token, right-stripped. Every source of a package gets the
  same entry. When that key is `url` or `type`, it overwrites that field.
- An `http…` url whose last segment contains neither `tar` nor `git` gets
  no `type` key.
- A package with no `%build` line keeps `buildsystem` null.
- Packages are processed one at a time, in order.

## Model

| member | source | states |
|---|---|---|
| Converter.ConvertDeps | r2ff.py:108-197 | the loop over the listing returns exactly `Convert`: modules in listing order, private packages skipped, first error ends the run |
| Converter.ConvertPackage | r2ff.py:117-196 | one loop iteration (dict, fetch, `%build` scan, sources, patches) returns exactly `ModuleFor` |
| Converter.ConvertSucceeds | r2ff.py:114-134 | the run succeeds if and only if every package without a `repository` key converts; private packages play no part |
| Converter.ConvertOkWhenAll | r2ff.py:114-197 | if every public package converts, the run returns a module list |
| Converter.ConvertErrWhenSome | r2ff.py:126-159 | if some public package fails (missing `ref`, bad `%build`), the run fails |
| Converter.ConvertModules | r2ff.py:114-197 | on success there is exactly one module per public package, in listing order, and the i-th module is the i-th public package's module |
| Converter.ConvertFirstError | r2ff.py:126-159 | on failure the error is that of the first public package that does not convert, and every earlier public package converts |
| Converter.ModuleLayout | r2ff.py:117-196 | a module is named after its package, and its sources are one entry per `sources_dict` item in order (expanded url, guessed type, the package's checksum entry), then one `patch` entry per `patches_dict` item |
| Converter.ModuleBuildFields | r2ff.py:117-159 | a module fails if and only if some `%build` line is last or is followed by an empty token. Without `%build`: buildsystem null, `config-opts` [], no `build-commands`. Otherwise the last header decides `buildsystem`, and `config-opts`/`build-commands` are dropped/[] exactly when some header fell back |
| BuildSystem.ScanBuildSection | r2ff.py:144-159 | the `%build` loop returns exactly `ScanFrom` over the prepared lines |
| BuildSystem.FilterKeepsEveryLine | r2ff.py:143 | the `line != "\n"` filter keeps every line `splitlines` produced |
| BuildSystem.NoLineIsNewline | r2ff.py:143 | no line produced by `splitlines` equals `"\n"` |
| BuildSystem.ScanFails | r2ff.py:145-149 | the scan fails if and only if some `%build` line is last or is followed by a line with an empty first token; the error is that of the first such header |
| BuildSystem.ScanOk | r2ff.py:144-159 | with no such header the scan succeeds and never changes the module's name or sources |
| BuildSystem.ScanNoHeader | r2ff.py:144-145 | without a `%build` line the module comes back unchanged |
| BuildSystem.ScanLastHeader | r2ff.py:146-159 | the last `%build` header decides `buildsystem`: its sigil-stripped token if supported, else `simple` |
| BuildSystem.ScanFallback | r2ff.py:151-157 | `config-opts` is removed and `build-commands` is [] exactly when some header yields an unsupported token; otherwise both keep their values |
| BuildSystem.ScanSucceeds | r2ff.py:144-159 | the four facts about a successful scan together |
| Sources.SourceKindClassifies | r2ff.py:168-175 | the type is `file` if and only if the url does not start with `http`; otherwise `archive` if and only if the last segment contains `tar`; then `git` if and only if it contains `git`; no type if it contains neither |
| Sources.FirstSegmentStartsWithHttp | r2ff.py:168-170 | the first `/`-segment starts with `http` if and only if the url does |
| Sources.ChecksumEntryShape | r2ff.py:180-183 | the key is the text before the first space, lower-cased and space-free; the value is the text after the last space with its trailing whitespace removed: a prefix of it, not ending in whitespace, with only whitespace after it |
| Sources.AppendSources | r2ff.py:163-186 | the sources loop appends exactly one entry per `sources_dict` item, in order, to the module's existing sources, and changes nothing else |
| Sources.AppendPatches | r2ff.py:188-194 | the patches loop appends exactly one `patch` entry per `patches_dict` item, in order, and changes nothing else |
| Manifest.SourceFieldsContent | r2ff.py:165-194 | a patch entry has keys `type`, `path` with `patch` and the path. A remote entry has keys `type` (when guessed), `url` and the checksum key, in that order, with their values. A checksum key of `url` or `type` overwrites that field. Keys are always unique |
| OrderedDict.SetGetSame | r2ff.py:171-183 | `d[k] = v` stores `v` under `k` |
| OrderedDict.SetGetOther | r2ff.py:171-183 | `d[k] = v` leaves every other key's value unchanged |
| OrderedDict.SetKeys | r2ff.py:171-183 | `d[k] = v` keeps the key order and appends `k` only when it is new |
| OrderedDict.SetUnique | r2ff.py:171-183 | `d[k] = v` keeps keys unique |
| OrderedDict.SetGet | r2ff.py:171-183 | the four facts about `d[k] = v` together |
| OrderedDict.GetMissing | r2ff.py:171-183 | a lookup misses if and only if the key is absent |
| PyStr.JoinSplit | r2ff.py:146 | joining the pieces of `s.split(c)` with `c` gives back `s` |
| PyStr.SplitJoin | r2ff.py:168 | splitting a join of separator-free pieces gives back the pieces |
| PyStr.FirstPieceIsPrefix | r2ff.py:146 | `s.split(c)[0]` is the prefix of `s` up to the first `c` |
| PyStr.LastPieceIsSuffix | r2ff.py:172-174 | `s.split(c)[-1]` is the suffix of `s` after the last `c` |
| PyStr.ContainsOccurs | r2ff.py:172-174 | `p in s` holds if and only if `p` occurs at some index of `s` |
| PyStr.RStrip | r2ff.py:143 | `rstrip()` returns a prefix that does not end in whitespace, and every removed character is whitespace |
| PyStr.Lower | r2ff.py:183 | `lower()` keeps the length, maps each letter `A`-`Z` to its lower-case counterpart and leaves every other character as it is |
| PyStr.SplitLines | r2ff.py:143 | no line from `splitlines()` holds a line break |
| PyStr.SplitLinesBreak | r2ff.py:143 | a line ended by a one-character boundary is one line, and the rest is split on its own |
| PyStr.SplitLinesCrLf | r2ff.py:143 | `"\r\n"` ends one line, not two |
| PyStr.SplitLinesLast | r2ff.py:143 | a non-empty text without a boundary is one line, and the empty text gives no line, so a final boundary opens no empty last line |
| InputArgs.GetInputArgs | r2ff.py:13-28 | `from_flathub` holds if and only if some argument starts with `--flathub`; the id is `[10:]` of the last such argument, else null; the app name is the last argument; `force_rewrite` holds if and only if `--force` is a whole argument |
| Scenarios.CmakeArchiveScenario | r2ff.py:108-197 | `foo` at `abc123` with `%build` / `%cmake -B build` and one tarball source, next to a private package, gives one cmake module with `config-opts` [], no `build-commands`, and an archive source with `sha256: deadbeef` |
| Scenarios.BlankLineAfterBuildFails | r2ff.py:143-148 | a blank line after `%build` survives the filter, and the scan fails with the empty-token error |
| Scenarios.BuildOnLastLineFails | r2ff.py:144-146 | `%build` as the last line fails with the last-line error |

## Left out

- Network access: both GETs are the parameter `fetch` and return decoded text. HTTP errors and decoding failures are not modelled.
- pyrpm: `Spec.from_string`, `sources_dict`, `patches_dict` and `replace_macros` are parameters. `hasattr` on the two dicts is taken as always true, which is the same as an empty dict when they are missing.
- Sources.AppendSources: the script fetches the `sources` file again for every source. The model has `fetch` return the same text for the same url each time, so there is one checksum text per package.
- Logging and the `print` calls: output only.
- `json.dumps` and the key order of the module dict: the module is a record. Only the key order of the source dicts is modelled, in `Manifest.SourceFields`.
- The rest of the script is not part of this model: `call_fedmod`, `get_os_version`, `generate_manifest_generic`, `get_flathub_manifest` and the top-level driver.
- PyStr.Lower: only ASCII letters are lower-cased. Python's Unicode case mapping is not modelled.
- InputArgs.GetInputArgs: requires a non-empty `argv`. The interpreter always supplies the program name, so `sys.argv[-1]` cannot fail.
- Module dicts are local values that nothing else aliases, so they are records that the loops reassign, not objects updated in place.
- Concurrency: the script is sequential, and so is the model.
