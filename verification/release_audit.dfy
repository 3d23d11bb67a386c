/**
  scripts/audit_public.py, maintenance profile: the auditor recomputes a bundle
  from its manifest and the approved source.  It accepts exactly what the builder
  writes.
*/
module ReleaseAudit {
  import opened Common
  import opened Sorting
  import opened ReleaseFiles

  const MAX_BYTES: nat := 25 * 1024 * 1024

  const SCHEMA := "melee-web-public-release-v1"

  /** What lies under an output directory; `odd` are symlinks and special files. */
  datatype Tree = Tree(files: map<Path, Bytes>, dirs: set<Path>, odd: set<Path>)

  datatype FileRecord = FileRecord(path: string, size: nat, sha: string)

  datatype Profile = Maintenance | Player | OtherProfile

  datatype Manifest = Manifest(schema: string, profile: Profile, mode: Mode, draft: bool, index: bool,
                               operator: Option<string>, contact: Option<string>, files: seq<FileRecord>, runtime: bool,
                               backend: bool)

  /** Every entry once, in whatever order the directory walk gives. */
  ghost predicate Lists(entries: seq<Path>, t: Tree) {
    && Distinct(entries) && (forall p :: p in entries <==> p in t.files || p in t.dirs || p in t.odd)
    && t.files.Keys !! t.dirs && t.files.Keys !! t.odd && t.dirs !! t.odd
  }

  // ---- The inventory ----

  function FilesAmong(entries: seq<Path>, t: Tree): seq<Path> {
    if entries == [] then []
    else
      var last := entries[|entries| - 1];
      FilesAmong(entries[..|entries| - 1], t) + if last in t.files then [last] else []
  }

  /** The files in the order of their paths. */
  function OrderOf(entries: seq<Path>, t: Tree): seq<Path> { FilesAmong(Sort(entries, PathLess), t) }

  function Total(paths: seq<Path>, files: map<Path, Bytes>): nat
    requires forall p :: p in paths ==> p in files
  {
    if paths == [] then 0 else Total(paths[..|paths| - 1], files) + |files[paths[|paths| - 1]]|
  }

  function RecordsOf(r: Rules, paths: seq<Path>, files: map<Path, Bytes>): seq<FileRecord>
    requires forall p :: p in paths ==> p in files
  {
    if paths == [] then []
    else
      var p := paths[|paths| - 1];
      RecordsOf(r, paths[..|paths| - 1], files) + [FileRecord(Rel(p), |files[p]|, r.sha(files[p]))]
  }

  lemma {:induction false} FilesAmongMembers(entries: seq<Path>, t: Tree)
    ensures forall p :: p in FilesAmong(entries, t) <==> p in entries && p in t.files
  {
    if entries == [] {
    } else {
      FilesAmongMembers(entries[..|entries| - 1], t);
      assert entries == entries[..|entries| - 1] + [entries[|entries| - 1]];
    }
  }

  lemma SortMembers(entries: seq<Path>)
    ensures forall p :: p in Sort(entries, PathLess) <==> p in entries
    ensures |Sort(entries, PathLess)| == |entries| && Ordered(Sort(entries, PathLess), PathLess)
  {
    PathStrictTotal();
    SortProperties(entries, PathLess);
    var sorted := Sort(entries, PathLess);
    assert |sorted| == |multiset(sorted)| == |multiset(entries)| == |entries|;
    forall p ensures p in sorted <==> p in entries { assert p in multiset(sorted) <==> p in multiset(entries); }
  }

  lemma OrderMembers(entries: seq<Path>, t: Tree)
    requires Lists(entries, t)
    ensures forall p :: p in OrderOf(entries, t) <==> p in t.files
  {
    hide Sort, FilesAmong, PathLess;
    SortMembers(entries);
    FilesAmongMembers(Sort(entries, PathLess), t);
  }

  /** The builder's inventory of a tree; Rejected when something is not a plain
      file or the bundle is too large. */
  method FileRecords(r: Rules, t: Tree, entries: seq<Path>) returns (result: Result<seq<FileRecord>>)
    requires Lists(entries, t)
    ensures forall p :: p in OrderOf(entries, t) <==> p in t.files
    ensures result == if t.odd == {} && Total(OrderOf(entries, t), t.files) <= MAX_BYTES
                      then Ok(RecordsOf(r, OrderOf(entries, t), t.files)) else Rejected
  {
    hide Sort, FilesAmong, PathLess, RecordsOf, Total, Rel;
    OrderMembers(entries, t);
    SortMembers(entries);
    NoFiles(r, t);
    var sorted := Sort(entries, PathLess);
    var records, total := [], 0;
    for i := 0 to |sorted|
      invariant forall p :: p in FilesAmong(sorted[..i], t) ==> p in t.files
      invariant records == RecordsOf(r, FilesAmong(sorted[..i], t), t.files)
      invariant total == Total(FilesAmong(sorted[..i], t), t.files)
      invariant forall j :: 0 <= j < i ==> sorted[j] !in t.odd
    {
      var p := sorted[i];
      assert p in entries;
      OneMoreEntry(r, t, sorted, i);
      if p in t.dirs {
        assert p !in t.files && p !in t.odd;
        continue;
      }
      if p in t.odd {
        return Rejected;
      }
      assert p in t.files;
      var size := |t.files[p]|;
      if size > MAX_BYTES {
        TooLarge(t, sorted, i);
        return Rejected;
      }
      total := total + size;
      records := records + [FileRecord(Rel(p), size, r.sha(t.files[p]))];
    }
    assert sorted[..|sorted|] == sorted;
    NoneOdd(t, entries, sorted);
    if total > MAX_BYTES {
      return Rejected;
    }
    return Ok(records);
  }

  lemma NoFiles(r: Rules, t: Tree)
    ensures FilesAmong([], t) == [] && RecordsOf(r, [], t.files) == [] && Total([], t.files) == 0
  {
  }

  lemma OneMoreEntry(r: Rules, t: Tree, sorted: seq<Path>, i: nat)
    requires i < |sorted| && forall p :: p in FilesAmong(sorted[..i], t) ==> p in t.files
    ensures FilesAmong(sorted[..i + 1], t) == FilesAmong(sorted[..i], t)
            + if sorted[i] in t.files then [sorted[i]] else []
    ensures forall p :: p in FilesAmong(sorted[..i + 1], t) ==> p in t.files
    ensures sorted[i] !in t.files ==> FilesAmong(sorted[..i + 1], t) == FilesAmong(sorted[..i], t)
    ensures sorted[i] in t.files ==>
              && Total(FilesAmong(sorted[..i + 1], t), t.files)
                 == Total(FilesAmong(sorted[..i], t), t.files) + |t.files[sorted[i]]|
              && RecordsOf(r, FilesAmong(sorted[..i + 1], t), t.files)
                 == RecordsOf(r, FilesAmong(sorted[..i], t), t.files)
                   + [FileRecord(Rel(sorted[i]), |t.files[sorted[i]]|, r.sha(t.files[sorted[i]]))]
  {
    hide Rel;
    assert sorted[..i + 1][..i] == sorted[..i];
    var before := FilesAmong(sorted[..i], t);
    if sorted[i] in t.files {
      assert (before + [sorted[i]])[..|before|] == before;
    } else {
      assert before + [] == before;
    }
  }

  lemma OneMoreFile(t: Tree, sorted: seq<Path>, i: nat)
    requires i < |sorted|
    ensures FilesAmong(sorted[..i + 1], t) == FilesAmong(sorted[..i], t)
            + if sorted[i] in t.files then [sorted[i]] else []
  {
    assert sorted[..i + 1][..i] == sorted[..i];
  }

  lemma TotalOneMore(paths: seq<Path>, p: Path, files: map<Path, Bytes>)
    requires p in files && forall q :: q in paths ==> q in files
    ensures forall q :: q in paths + [p] ==> q in files
    ensures Total(paths + [p], files) == Total(paths, files) + |files[p]|
  {
    assert (paths + [p])[..|paths|] == paths;
  }

  lemma OneMorePath(t: Tree, sorted: seq<Path>, i: nat)
    requires i < |sorted| && forall p :: p in FilesAmong(sorted[..i], t) ==> p in t.files
    ensures FilesAmong(sorted[..i + 1], t) == FilesAmong(sorted[..i], t)
            + if sorted[i] in t.files then [sorted[i]] else []
    ensures forall p :: p in FilesAmong(sorted[..i + 1], t) ==> p in t.files
    ensures Total(FilesAmong(sorted[..i + 1], t), t.files)
         == Total(FilesAmong(sorted[..i], t), t.files) + if sorted[i] in t.files then |t.files[sorted[i]]| else 0
  {
    hide Total, FilesAmong;
    OneMoreFile(t, sorted, i);
    var before := FilesAmong(sorted[..i], t);
    if sorted[i] in t.files {
      TotalOneMore(before, sorted[i], t.files);
    } else {
      assert before + [] == before;
    }
  }

  lemma {:induction false} TotalGrows(sorted: seq<Path>, t: Tree, i: nat)
    requires i <= |sorted|
    ensures forall p :: p in FilesAmong(sorted, t) ==> p in t.files
    ensures forall p :: p in FilesAmong(sorted[..i], t) ==> p in t.files
    ensures Total(FilesAmong(sorted[..i], t), t.files) <= Total(FilesAmong(sorted, t), t.files)
    decreases |sorted|
  {
    hide Total, FilesAmong;
    FilesAmongMembers(sorted, t);
    FilesAmongMembers(sorted[..i], t);
    if i < |sorted| {
      var n := |sorted| - 1;
      TotalGrows(sorted[..n], t, i);
      assert sorted[..n][..i] == sorted[..i];
      OneMorePath(t, sorted, n);
      assert sorted[..n + 1] == sorted;
    } else {
      assert sorted[..i] == sorted;
    }
  }

  /** A file over the limit puts the bundle over it. */
  lemma TooLarge(t: Tree, sorted: seq<Path>, i: nat)
    requires i < |sorted| && sorted[i] in t.files && |t.files[sorted[i]]| > MAX_BYTES
    ensures forall p :: p in FilesAmong(sorted, t) ==> p in t.files
    ensures Total(FilesAmong(sorted, t), t.files) > MAX_BYTES
  {
    hide Total, FilesAmong;
    TotalGrows(sorted, t, i + 1);
    TotalGrows(sorted, t, i);
    FilesAmongMembers(sorted[..i], t);
    OneFileTotal(t, sorted, i);
  }

  lemma OneFileTotal(t: Tree, sorted: seq<Path>, i: nat)
    requires i < |sorted| && sorted[i] in t.files
    ensures forall p :: p in FilesAmong(sorted[..i + 1], t) ==> p in t.files
    ensures Total(FilesAmong(sorted[..i + 1], t), t.files) >= |t.files[sorted[i]]|
  {
    FilesAmongMembers(sorted[..i + 1], t);
    assert sorted[..i + 1][..i] == sorted[..i];
    var before := FilesAmong(sorted[..i], t);
    assert (before + [sorted[i]])[..|before|] == before;
  }

  lemma NoneOdd(t: Tree, entries: seq<Path>, sorted: seq<Path>)
    requires Lists(entries, t) && (forall p :: p in sorted <==> p in entries)
    requires forall j :: 0 <= j < |sorted| ==> sorted[j] !in t.odd
    ensures t.odd == {}
  {
    assert forall p :: p in t.odd ==> p in sorted;
  }

  // ---- What acceptance means ----

  predicate ManifestOk(r: Rules, m: Manifest, requested: Option<Mode>) {
    && m.schema == SCHEMA && m.profile == Maintenance && m.mode != OtherMode
    && (requested.None? || requested.value == m.mode)
    && m.draft == (m.mode == Preview) && (m.index ==> m.mode == Production)
    && m.operator.Some? && m.contact.Some?
    && Configure(r, m.mode, m.operator, m.contact) == Ok((m.operator.value, m.contact.value))
    && !m.runtime && !m.backend
  }

  function SettingsOf(m: Manifest): Settings
    requires m.operator.Some? && m.contact.Some?
  {
    Settings(m.mode, m.operator.value, m.contact.value, m.index)
  }

  /** The tree is, file for file, what the builder writes for these settings. */
  ghost predicate IsBundle(r: Rules, s: Settings, t: Tree)
    requires r.Valid()
  {
    && Writable(Items(r, s)) && t.files == Laid(Items(r, s))
    && t.odd == {} && t.dirs <= {["assets"], ["licenses"]}
  }

  ghost predicate AllClean(r: Rules, s: Settings, t: Tree) {
    forall p :: p in t.files ==> r.clean(s, p, t.files[p])
  }

  /** The manifest is canonical, the tree its bundle, small enough, recorded and
      clean. */
  ghost predicate Faithful(r: Rules, t: Tree, order: seq<Path>, m: Manifest, requested: Option<Mode>)
    requires r.Valid() && forall p :: p in order ==> p in t.files
  {
    && Total(order, t.files) <= MAX_BYTES && m.files == RecordsOf(r, order, t.files)
    && m.operator.Some? && m.contact.Some?
    && var s := SettingsOf(m); ManifestOk(r, m, requested) && IsBundle(r, s, t) && AllClean(r, s, t)
  }

  // ---- The auditor ----

  /** _safe_rel, for a path given by its components */
  predicate SafeRel(p: Path) {
    && p != [] && (forall c :: c in p ==> c != "" && c != "." && c != "..")
    && (forall c :: c in p ==> '\\' !in c && '\0' !in c)
    && p[0] != "" && p[0][0] != '.'
  }

  /** ASSET_RE for one extension */
  predicate IsAsset(p: Path, extension: string) {
    && |p| == 2 && p[0] == "assets" && |p[1]| == 22 + |extension|
    && p[1][..5] == "site." && (forall c :: c in p[1][5..21] ==> HexDigit(c)) && p[1][21] == '.'
       && p[1][22..] == extension
  }

  /** _output_files: the inventory of paths, refused for strange entries, foreign
      directories, unsafe names or size. */
  method OutputFiles(t: Tree, entries: seq<Path>) returns (result: Result<seq<Path>>)
    requires Lists(entries, t)
    ensures forall p :: p in OrderOf(entries, t) <==> p in t.files
    ensures result == if t.odd == {} && t.dirs <= {["assets"], ["licenses"]}
            && (forall p :: p in t.files ==> SafeRel(p))
                         && Total(OrderOf(entries, t), t.files) <= MAX_BYTES
                      then Ok(OrderOf(entries, t)) else Rejected
  {
    hide Sort, FilesAmong, PathLess, Total, EntryOk, Lists;
    OrderMembers(entries, t);
    SortMembers(entries);
    NothingListed(t);
    var sorted := Sort(entries, PathLess);
    var paths: seq<Path>, total := [], 0;
    for i := 0 to |sorted|
      invariant paths == FilesAmong(sorted[..i], t) && forall p :: p in paths ==> p in t.files
      invariant total == Total(paths, t.files) <= MAX_BYTES
      invariant forall j :: 0 <= j < i ==> EntryOk(t, sorted[j])
    {
      var p := sorted[i];
      OneMorePath(t, sorted, i);
      if !EntryOk(t, p) {
        EntryRefused(t, entries, sorted, i);
        return Rejected;
      }
      if p in t.files {
        var size := |t.files[p]|;
        total := total + size;
        if size > MAX_BYTES || total > MAX_BYTES {
          assert sorted[..|sorted|] == sorted;
          TotalGrows(sorted, t, i + 1);
          return Rejected;
        }
        paths := paths + [p];
      }
    }
    assert sorted[..|sorted|] == sorted;
    AllLookedAt(t, entries, sorted);
    return Ok(paths);
  }

  /** Not strange, not a foreign directory, not an unsafe name. */
  predicate EntryOk(t: Tree, p: Path) {
    p !in t.odd && (p in t.dirs ==> p == ["assets"] || p == ["licenses"]) && (p in t.files ==> SafeRel(p))
  }

  lemma EntryRefused(t: Tree, entries: seq<Path>, sorted: seq<Path>, i: nat)
    requires Lists(entries, t) && i < |sorted| && !EntryOk(t, sorted[i])
    ensures !(t.odd == {} && t.dirs <= {["assets"], ["licenses"]} && forall p :: p in t.files ==> SafeRel(p))
  {
    hide SafeRel;
  }

  lemma NothingListed(t: Tree)
    ensures FilesAmong([], t) == [] && Total([], t.files) == 0
  {
  }

  lemma AllLookedAt(t: Tree, entries: seq<Path>, sorted: seq<Path>)
    requires Lists(entries, t) && (forall p :: p in sorted <==> p in entries)
    requires forall j :: 0 <= j < |sorted| ==> EntryOk(t, sorted[j])
    ensures t.odd == {} && t.dirs <= {["assets"], ["licenses"]} && forall p :: p in t.files ==> SafeRel(p)
  {
    hide SafeRel;
    assert forall p :: p in t.odd ==> p in sorted;
    assert forall p :: p in t.dirs ==> p in sorted;
    assert forall p :: p in t.files ==> p in sorted;
  }

  /** _expected_paths: the two hashed assets, when the paths are theirs and the
      fixed ones and no others. */
  method ExpectedPaths(paths: seq<Path>, mode: Mode) returns (found: Option<(Path, Path)>)
    requires Distinct(paths)
    ensures found.Some? ==>
              && IsAsset(found.value.0, "css") && IsAsset(found.value.1, "js")
              && SamePaths(paths, found.value.0, found.value.1, mode)
    ensures forall css, js :: IsAsset(css, "css") && IsAsset(js, "js") && SamePaths(paths, css, js, mode)
                              ==> found == Some((css, js))
  {
    hide IsAsset, Expected, Distinct, SamePaths;
    var css: seq<Path>, js: seq<Path> := [], [];
    for i := 0 to |paths|
      invariant css == Assets(paths[..i], "css") && js == Assets(paths[..i], "js")
      invariant forall j :: 0 <= j < i && UnderAssets(paths[j]) ==> IsAsset(paths[j], "css") || IsAsset(paths[j], "js")
    {
      assert paths[..i + 1][..i] == paths[..i];
      var p := paths[i];
      if UnderAssets(p) && !(IsAsset(p, "css") || IsAsset(p, "js")) {
        StrangeAsset(paths, p, mode);
        return None;
      }
      if IsAsset(p, "css") {
        css := css + [p];
      }
      if IsAsset(p, "js") {
        js := js + [p];
      }
    }
    assert paths[..|paths|] == paths;
    if |css| != 1 || |js| != 1 {
      WrongAssets(paths, mode);
      return None;
    }
    AssetsMembers(paths, "css");
    AssetsMembers(paths, "js");
    OneAssetEach(paths, css[0], js[0], mode);
    if !SamePaths(paths, css[0], js[0], mode) {
      return None;
    }
    return Some((css[0], js[0]));
  }

  predicate UnderAssets(p: Path) { |p| > 1 && p[0] == "assets" }

  predicate SamePaths(paths: seq<Path>, css: Path, js: Path, mode: Mode) {
    (forall p :: p in paths ==> p in Expected(css, js, mode))
        && (forall p :: p in Expected(css, js, mode) ==> p in paths)
  }

  function Assets(paths: seq<Path>, extension: string): seq<Path> {
    if paths == [] then []
    else
      var last := paths[|paths| - 1];
      Assets(paths[..|paths| - 1], extension) + if IsAsset(last, extension) then [last] else []
  }

  lemma {:induction false} AssetsMembers(paths: seq<Path>, extension: string)
    ensures forall p :: p in Assets(paths, extension) <==> p in paths && IsAsset(p, extension)
    ensures Distinct(paths) ==> Distinct(Assets(paths, extension))
  {
    hide IsAsset;
    if paths == [] {
    } else {
      var n := |paths| - 1;
      AssetsMembers(paths[..n], extension);
      assert paths == paths[..n] + [paths[n]];
      if Distinct(paths) {
        assert Distinct(paths[..n]);
        assert paths[n] !in paths[..n];
      }
    }
  }

  lemma AssetForm(p: Path, extension: string)
    requires IsAsset(p, extension)
    ensures UnderAssets(p) && |p| == 2 && |p[1]| == 22 + |extension|
  {
  }

  /** Of the expected paths, just the two assets are under assets/. */
  lemma OnlyAssets(css: Path, js: Path, mode: Mode, p: Path)
    requires p in Expected(css, js, mode) && UnderAssets(p)
    ensures p == css || p == js
  {
    hide PagePaths, TextPaths, LegalPath;
    PagesDiffer();
    TextsDiffer(mode);
    LegalPlaced();
  }

  lemma StrangeAsset(paths: seq<Path>, p: Path, mode: Mode)
    requires p in paths && UnderAssets(p) && !IsAsset(p, "css") && !IsAsset(p, "js")
    ensures forall css, js :: IsAsset(css, "css") && IsAsset(js, "js") ==> !SamePaths(paths, css, js, mode)
  {
    hide IsAsset, UnderAssets, Expected;
    forall css, js | IsAsset(css, "css") && IsAsset(js, "js") ensures !SamePaths(paths, css, js, mode) {
      if p in Expected(css, js, mode) { OnlyAssets(css, js, mode, p); }
    }
  }

  /** Expected paths hold one stylesheet and one script. */
  lemma ExpectedAssets(paths: seq<Path>, css: Path, js: Path, mode: Mode, p: Path)
    requires IsAsset(css, "css") && IsAsset(js, "js") && SamePaths(paths, css, js, mode) && p in paths
    ensures css in paths && js in paths
    ensures (IsAsset(p, "css") ==> p == css) && (IsAsset(p, "js") ==> p == js)
  {
    hide IsAsset, PagePaths, TextPaths;
    AssetForm(css, "css");
    AssetForm(js, "js");
    assert css in Expected(css, js, mode) && js in Expected(css, js, mode);
    if IsAsset(p, "css") {
      AssetForm(p, "css");
      OnlyAssets(css, js, mode, p);
    }
    if IsAsset(p, "js") {
      AssetForm(p, "js");
      OnlyAssets(css, js, mode, p);
    }
  }

  lemma AssetsThere(paths: seq<Path>, css: Path, js: Path, mode: Mode)
    requires SamePaths(paths, css, js, mode)
    ensures css in paths && js in paths
  {
    hide PagePaths, TextPaths;
    assert css in Expected(css, js, mode) && js in Expected(css, js, mode);
  }

  lemma WrongAssets(paths: seq<Path>, mode: Mode)
    requires Distinct(paths) && (|Assets(paths, "css")| != 1 || |Assets(paths, "js")| != 1)
    ensures forall css, js :: IsAsset(css, "css") && IsAsset(js, "js") ==> !SamePaths(paths, css, js, mode)
  {
    hide IsAsset, SamePaths, Assets;
    AssetsMembers(paths, "css");
    AssetsMembers(paths, "js");
    forall css, js | IsAsset(css, "css") && IsAsset(js, "js") ensures !SamePaths(paths, css, js, mode) {
      if SamePaths(paths, css, js, mode) {
        AssetsThere(paths, css, js, mode);
        forall p | p in paths ensures (IsAsset(p, "css") ==> p == css) && (IsAsset(p, "js") ==> p == js) {
          ExpectedAssets(paths, css, js, mode, p);
        }
        JustOne(Assets(paths, "css"), css);
        JustOne(Assets(paths, "js"), js);
      }
    }
  }

  lemma JustOne(paths: seq<Path>, one: Path)
    requires Distinct(paths) && forall p :: p in paths ==> p == one
    ensures |paths| <= 1 && (one in paths ==> |paths| == 1)
  {
    DistinctCount(paths);
    var members := set p | p in paths;
    assert members == {} || members == {one};
    if |paths| > 0 { assert paths[0] in members; }
  }

  lemma OneAssetEach(paths: seq<Path>, css: Path, js: Path, mode: Mode)
    requires IsAsset(css, "css") && IsAsset(js, "js") && css in paths && js in paths
    ensures forall c, j :: IsAsset(c, "css") && IsAsset(j, "js") && SamePaths(paths, c, j, mode) ==> c == css && j == js
  {
    hide IsAsset, SamePaths;
    forall c, j | IsAsset(c, "css") && IsAsset(j, "js") && SamePaths(paths, c, j, mode) ensures c == css && j == js {
      ExpectedAssets(paths, c, j, mode, css);
      ExpectedAssets(paths, c, j, mode, js);
    }
  }

  /** Header, redirect and index policies, and the text rules, file by file. */
  predicate TextOk(r: Rules, s: Settings, p: Path, data: Bytes) {
    && r.clean(s, p, data)
    && (p == HeadersPath() ==> data == r.utf8(Headers(r, s.mode, s.index)))
    && (p == RedirectsPath() ==> Redirects(s.mode).Some? && data == r.utf8(Redirects(s.mode).value))
    && (p == RobotsPath() ==> data == r.utf8(Robots(s.mode, s.index)))
  }

  predicate AllTextOk(r: Rules, s: Settings, paths: seq<Path>, files: map<Path, Bytes>) {
    forall p :: p in paths ==> p in files && TextOk(r, s, p, files[p])
  }

  /** An asset with the approved content, under the name that content gives it. */
  predicate AssetOk(r: Rules, files: map<Path, Bytes>, p: Path, source: Bytes, extension: string)
    requires r.Valid()
  {
    p in files && files[p] == source && p == AssetPath(r, files[p], extension)
  }

  function At(files: map<Path, Bytes>, p: Path): Option<Bytes> { if p in files then Some(files[p]) else None }

  method CheckTexts(r: Rules, s: Settings, paths: seq<Path>, t: Tree) returns (ok: bool)
    requires forall p :: p in paths ==> p in t.files
    ensures ok <==> AllTextOk(r, s, paths, t.files)
  {
    hide TextOk;
    for i := 0 to |paths|
      invariant forall j :: 0 <= j < i ==> TextOk(r, s, paths[j], t.files[paths[j]])
    {
      if !TextOk(r, s, paths[i], t.files[paths[i]]) {
        return false;
      }
    }
    return true;
  }

  /** The pages are the approved ones with this bundle's settings. */
  method CheckPages(r: Rules, s: Settings, t: Tree) returns (ok: bool)
    requires r.Valid() && forall p :: p in PagePaths() ==> p in t.files
    ensures ok <==> PagesMatch(r, s, t.files)
  {
    hide Pages, PageData;
    for i := 0 to |Pages()|
      invariant forall j :: 0 <= j < i ==>
                  PagePaths()[j] in t.files && PageData(r, s, Pages()[j]) == Some(t.files[PagePaths()[j]])
    {
      assert PagePaths()[i] in PagePaths();
      if PageData(r, s, Pages()[i]) != Some(t.files[PagePaths()[i]]) {
        return false;
      }
    }
    return true;
  }

  method Audit(r: Rules, t: Tree, entries: seq<Path>, m: Manifest, requested: Option<Mode>) returns (ok: bool)
    requires r.Valid() && Lists(entries, t)
    ensures forall p :: p in OrderOf(entries, t) <==> p in t.files
    ensures ok <==> Faithful(r, t, OrderOf(entries, t), m, requested)
  {
    hide ManifestOk, Lists, OrderOf, IsBundle, AllClean, RecordsOf, Total, Sort, SafeRel, IsAsset, Expected, TextOk,
         r.Valid, PagePaths;
    OrderMembers(entries, t);
    OrderDistinct(entries, t);
    ghost var order := OrderOf(entries, t);
    if !ManifestOk(r, m, requested) {
      return false;
    }
    HasNames(r, m, requested);
    var s := SettingsOf(m);
    var listed := OutputFiles(t, entries);
    if listed.Rejected? {
      NotListed(r, s, t, order);
      return false;
    }
    var paths := listed.value;
    var found := ExpectedPaths(paths, s.mode);
    if found.None? {
      NotExpected(r, s, t, order);
      return false;
    }
    var css, js := found.value.0, found.value.1;
    ExpectedPlaced(css, js, s.mode);
    ByName(r, t, entries);
    if m.files != RecordsOf(r, Sort(paths, RelLess), t.files) {
      return false;
    }
    var texts := CheckTexts(r, s, paths, t);
    FixedThere(paths, css, js, s.mode);
    var pages := CheckPages(r, s, t);
    ok := texts && pages && AssetOk(r, t.files, css, r.css, "css") && AssetOk(r, t.files, js, r.js, "js")
          && At(t.files, LegalPath()) == Some(r.legal);
    Decides(r, s, t, order, css, js);
  }

  // ---- Why the checks amount to being the bundle ----

  lemma {:induction false} FilesAmongDistinct(entries: seq<Path>, t: Tree)
    requires Distinct(entries)
    ensures Distinct(FilesAmong(entries, t))
  {
    if entries == [] {
    } else {
      var n := |entries| - 1;
      FilesAmongDistinct(entries[..n], t);
      FilesAmongMembers(entries[..n], t);
      assert entries[n] !in entries[..n];
    }
  }

  lemma OrderDistinct(entries: seq<Path>, t: Tree)
    requires Lists(entries, t)
    ensures Distinct(OrderOf(entries, t))
  {
    hide PathLess, FilesAmong, Distinct;
    PathStrictTotal();
    SortProperties(entries, PathLess);
    DistinctAlike(entries, Sort(entries, PathLess));
    FilesAmongDistinct(Sort(entries, PathLess), t);
  }

  lemma {:induction false} FilesAmongOrdered(entries: seq<Path>, t: Tree)
    requires Ordered(entries, PathLess)
    ensures Ordered(FilesAmong(entries, t), PathLess)
  {
    hide PathLess;
    if entries == [] {
    } else {
      var n := |entries| - 1;
      assert entries == entries[..n] + [entries[n]];
      FilesAmongOrdered(entries[..n], t);
      FilesAmongMembers(entries[..n], t);
      forall p | p in FilesAmong(entries[..n], t) ensures !PathLess(entries[n], p) {
        var i :| 0 <= i < n && entries[i] == p;
      }
    }
  }

  /** Sorting the names of the files gives back the order of their paths. */
  lemma ByName(r: Rules, t: Tree, entries: seq<Path>)
    requires Lists(entries, t) && forall p :: p in t.files ==> Placed(p)
    ensures Sort(OrderOf(entries, t), RelLess) == OrderOf(entries, t)
  {
    hide PathLess, RelLess, FilesAmong, Placed;
    var order := OrderOf(entries, t);
    OrderMembers(entries, t);
    SortMembers(entries);
    FilesAmongOrdered(Sort(entries, PathLess), t);
    PlacedOrder(order);
    PathStrictTotal();
    SortProperties(order, PathLess);
    OrderedUnique(Sort(order, PathLess), order, PathLess);
  }

  lemma AssetNamed(r: Rules, data: Bytes, extension: string)
    requires r.Valid()
    ensures IsAsset(AssetPath(r, data, extension), extension)
  {
    var p, hash := AssetPath(r, data, extension), r.sha(data)[..16];
    assert p[1][..5] == "site." && p[1][5..21] == hash && p[1][22..] == extension;
    assert forall c :: c in hash ==> c in r.sha(data);
  }

  lemma AssetIsPlaced(p: Path, extension: string)
    requires IsAsset(p, extension) && '/' !in extension
    ensures Placed(p) && |p| == 2 && p[0] == "assets"
  {
    assert p[1] == p[1][..5] + p[1][5..21] + [p[1][21]] + p[1][22..];
    assert '/' !in "site." && '/' !in p[1][5..21];
  }

  /** The paths of a bundle are what its auditor expects, and only they are. */
  lemma BundlePaths(r: Rules, s: Settings, t: Tree, order: seq<Path>)
    requires r.Valid() && IsBundle(r, s, t) && forall p :: p in order <==> p in t.files
    ensures IsAsset(CssPath(r), "css") && IsAsset(JsPath(r), "js") && SamePaths(order, CssPath(r), JsPath(r), s.mode)
  {
    hide Items, Laid, IsAsset, Expected, CssPath, JsPath, AssetPath, r.Valid;
    NamedAssets(r);
    BundleDistinct(r, s);
    LaidLookup(Items(r, s));
    ItemsAt(r, s);
  }

  lemma NamedAssets(r: Rules)
    requires r.Valid()
    ensures IsAsset(CssPath(r), "css") && IsAsset(JsPath(r), "js")
  {
    hide IsAsset, AssetPath;
    AssetNamed(r, r.css, "css");
    AssetNamed(r, r.js, "js");
  }

  lemma ExpectedPlaced(css: Path, js: Path, mode: Mode)
    requires IsAsset(css, "css") && IsAsset(js, "js")
    ensures forall p :: p in Expected(css, js, mode) ==> Placed(p)
    ensures Distinct(Expected(css, js, mode))
  {
    hide IsAsset, Expected, Placed, Distinct;
    AssetIsPlaced(css, "css");
    AssetIsPlaced(js, "js");
    AssetForm(css, "css");
    AssetForm(js, "js");
    ExpectedDistinct(css, js, mode);
  }

  lemma PagesSafe()
    ensures forall p :: p in PagePaths() ==> SafeRel(p)
  {
    hide Pages;
    PageNamesSafe();
    forall i | 0 <= i < |Pages()| ensures SafeRel(PagePaths()[i]) {
      assert PagePaths()[i] == [Pages()[i]];
    }
  }

  lemma PageNamesSafe()
    ensures forall i :: 0 <= i < |Pages()| ==>
              && '\\' !in Pages()[i] && '\0' !in Pages()[i] && |Pages()[i]| > 2 && Pages()[i][0] != '.'
  {
  }

  lemma TextsSafe(mode: Mode)
    ensures forall p :: p in TextPaths(mode) ==> SafeRel(p)
  {
    hide SafeRel, LegalPath, HeadersPath, RedirectsPath, RobotsPath;
    LegalSafe();
    HeadersSafe();
    RedirectsSafe();
    RobotsSafe();
  }

  lemma LegalSafe()
    ensures SafeRel(LegalPath())
  {
    assert '\\' !in "licenses" && '\0' !in "licenses";
    assert '\\' !in "runtime-third-party.txt" && '\0' !in "runtime-third-party.txt";
    assert LegalPath()[0] == "licenses" && LegalPath()[1] == "runtime-third-party.txt";
  }

  lemma HeadersSafe()
    ensures SafeRel(HeadersPath())
  {
    assert '\\' !in "_headers" && '\0' !in "_headers";
  }

  lemma RedirectsSafe()
    ensures SafeRel(RedirectsPath())
  {
    assert '\\' !in "_redirects" && '\0' !in "_redirects";
  }

  lemma RobotsSafe()
    ensures SafeRel(RobotsPath())
  {
    assert '\\' !in "robots.txt" && '\0' !in "robots.txt";
  }

  lemma AssetSafe(p: Path, extension: string)
    requires IsAsset(p, extension) && '\\' !in extension && '\0' !in extension
    ensures SafeRel(p)
  {
    assert p[1] == p[1][..5] + p[1][5..21] + [p[1][21]] + p[1][22..];
    assert '\\' !in "site." && '\0' !in "site.";
    assert '\\' !in p[1][5..21] && '\0' !in p[1][5..21];
    assert '\\' !in "assets" && '\0' !in "assets" && "assets"[0] == 'a';
    assert |p[1]| > 2 && |p[0]| == 6;
  }

  lemma ExpectedSafe(css: Path, js: Path, mode: Mode)
    requires IsAsset(css, "css") && IsAsset(js, "js")
    ensures forall p :: p in Expected(css, js, mode) ==> SafeRel(p)
  {
    hide IsAsset, SafeRel, PagePaths, TextPaths;
    PagesSafe();
    TextsSafe(mode);
    AssetSafe(css, "css");
    AssetSafe(js, "js");
  }

  /** A refused listing is no bundle, or a bundle that is too large. */
  lemma NotListed(r: Rules, s: Settings, t: Tree, order: seq<Path>)
    requires r.Valid() && forall p :: p in order <==> p in t.files
    ensures IsBundle(r, s, t) ==>
              t.odd == {} && t.dirs <= {["assets"], ["licenses"]} && forall p :: p in t.files ==> SafeRel(p)
  {
    hide SafeRel, IsAsset, Expected, CssPath, JsPath, r.Valid, Items, Laid;
    if IsBundle(r, s, t) {
      BundlePaths(r, s, t, order);
      ExpectedSafe(CssPath(r), JsPath(r), s.mode);
    }
  }

  lemma NotExpected(r: Rules, s: Settings, t: Tree, order: seq<Path>)
    requires r.Valid() && forall p :: p in order <==> p in t.files
    requires forall css, js :: IsAsset(css, "css") && IsAsset(js, "js") ==> !SamePaths(order, css, js, s.mode)
    ensures !IsBundle(r, s, t)
  {
    hide IsAsset, SamePaths, CssPath, JsPath, IsBundle, r.Valid;
    if IsBundle(r, s, t) {
      BundlePaths(r, s, t, order);
    }
  }

  lemma HasNames(r: Rules, m: Manifest, requested: Option<Mode>)
    requires ManifestOk(r, m, requested)
    ensures m.operator.Some? && m.contact.Some?
  {
  }

  lemma FixedThere(paths: seq<Path>, css: Path, js: Path, mode: Mode)
    requires SamePaths(paths, css, js, mode)
    ensures css in paths && js in paths && LegalPath() in paths && HeadersPath() in paths && RobotsPath() in paths
    ensures (mode == Production ==> RedirectsPath() in paths) && forall p :: p in PagePaths() ==> p in paths
  {
    hide PagePaths, LegalPath, HeadersPath, RobotsPath, RedirectsPath;
    var expected := Expected(css, js, mode);
    assert css in expected && js in expected;
    assert forall p :: p in TextPaths(mode) ==> p in expected;
    assert LegalPath() in TextPaths(mode) && HeadersPath() in TextPaths(mode) && RobotsPath() in TextPaths(mode);
    assert mode == Production ==> RedirectsPath() in TextPaths(mode);
    assert forall p :: p in PagePaths() ==> p in expected;
  }

  /** Each item is in the tree with its content. */
  predicate Matches(items: seq<Item>, files: map<Path, Bytes>) {
    forall i :: 0 <= i < |items| ==> items[i].path in files && items[i].data == Some(files[items[i].path])
  }

  predicate AssetsMatch(r: Rules, files: map<Path, Bytes>)
    requires r.Valid()
  {
    At(files, CssPath(r)) == Some(r.css) && At(files, JsPath(r)) == Some(r.js)
  }

  predicate PagesMatch(r: Rules, s: Settings, files: map<Path, Bytes>)
    requires r.Valid()
  {
    forall i :: 0 <= i < |Pages()| ==>
        PagePaths()[i] in files && PageData(r, s, Pages()[i]) == Some(files[PagePaths()[i]])
  }

  predicate TextsMatch(r: Rules, s: Settings, files: map<Path, Bytes>) {
    && At(files, LegalPath()) == Some(r.legal)
    && At(files, HeadersPath()) == Some(r.utf8(Headers(r, s.mode, s.index)))
    && (Redirects(s.mode).Some? ==> At(files, RedirectsPath()) == Some(r.utf8(Redirects(s.mode).value)))
    && At(files, RobotsPath()) == Some(r.utf8(Robots(s.mode, s.index)))
  }

  lemma MatchJoin(a: seq<Item>, b: seq<Item>, files: map<Path, Bytes>)
    ensures Matches(a + b, files) <==> Matches(a, files) && Matches(b, files)
  {
    assert forall i :: 0 <= i < |a| ==> (a + b)[i] == a[i];
    assert forall i :: 0 <= i < |b| ==> (a + b)[|a| + i] == b[i];
  }

  lemma AssetItemsMatch(r: Rules, files: map<Path, Bytes>)
    requires r.Valid()
    ensures Matches(AssetItems(r), files) <==> AssetsMatch(r, files)
  {
    hide CssPath, JsPath;
    var items := AssetItems(r);
    assert items[0].path == CssPath(r) && items[1].path == JsPath(r);
  }

  lemma PageItemsMatch(r: Rules, s: Settings, files: map<Path, Bytes>)
    requires r.Valid()
    ensures Matches(PageItems(r, s, Pages()), files) <==> PagesMatch(r, s, files)
  {
    hide Pages, PageData;
    assert forall i :: 0 <= i < |Pages()| ==> PageItems(r, s, Pages())[i].path == PagePaths()[i];
  }

  lemma TextItemsMatch(r: Rules, s: Settings, files: map<Path, Bytes>)
    ensures Matches(TextItems(r, s), files) <==> TextsMatch(r, s, files)
  {
    hide LegalPath, HeadersPath, RedirectsPath, RobotsPath, Headers, Robots, Redirects;
    var items := TextItems(r, s);
    assert items[0].path == LegalPath() && items[1].path == HeadersPath() && items[|items| - 1].path == RobotsPath();
    if Redirects(s.mode).Some? {
      assert |items| == 4 && items[2].path == RedirectsPath();
    } else {
      assert |items| == 3;
    }
  }

  lemma ItemsMatch(r: Rules, s: Settings, files: map<Path, Bytes>)
    requires r.Valid()
    ensures Matches(Items(r, s), files) <==> AssetsMatch(r, files) && PagesMatch(r, s, files) && TextsMatch(r, s, files)
  {
    hide Matches, AssetsMatch, AssetItems, PageItems, TextItems, CssPath, JsPath, PagesMatch, TextsMatch, Pages;
    AssetItemsMatch(r, files);
    PageItemsMatch(r, s, files);
    TextItemsMatch(r, s, files);
    MatchJoin(AssetItems(r), PageItems(r, s, Pages()), files);
    MatchJoin(AssetItems(r) + PageItems(r, s, Pages()), TextItems(r, s), files);
  }

  /** With the expected paths, the remaining comparisons decide between a clean
      bundle and anything else. */
  lemma Decides(r: Rules, s: Settings, t: Tree, order: seq<Path>, css: Path, js: Path)
    requires r.Valid() && (forall p :: p in order <==> p in t.files)
    requires IsAsset(css, "css") && IsAsset(js, "js") && SamePaths(order, css, js, s.mode)
    requires t.odd == {} && t.dirs <= {["assets"], ["licenses"]}
    ensures AllTextOk(r, s, order, t.files) && PagesMatch(r, s, t.files) && AssetOk(r, t.files, css, r.css, "css")
              && AssetOk(r, t.files, js, r.js, "js") && At(t.files, LegalPath()) == Some(r.legal)
       <==> IsBundle(r, s, t) && AllClean(r, s, t)
  {
    hide IsAsset, SamePaths, PagesMatch, TextsMatch, AssetsMatch, AllTextOk, AssetOk, AllClean, IsBundle, r.Valid,
         CssPath, JsPath, LegalPath;
    TextsOk(r, s, t, order, css, js);
    AssetIs(r, t.files, css, r.css, "css");
    AssetIs(r, t.files, js, r.js, "js");
    NamesAre(r);
    if css == CssPath(r) && js == JsPath(r) {
      BundleByContent(r, s, t, order);
    } else if IsBundle(r, s, t) {
      BundlePaths(r, s, t, order);
      AssetsThere(order, CssPath(r), JsPath(r), s.mode);
      ExpectedAssets(order, css, js, s.mode, CssPath(r));
      ExpectedAssets(order, css, js, s.mode, JsPath(r));
    }
    if AssetsMatch(r, t.files) { AssetsAt(r, t.files); }
  }

  lemma NamesAre(r: Rules)
    requires r.Valid()
    ensures CssPath(r) == AssetPath(r, r.css, "css") && JsPath(r) == AssetPath(r, r.js, "js")
  {
  }

  lemma AssetsAt(r: Rules, files: map<Path, Bytes>)
    requires r.Valid()
    ensures AssetsMatch(r, files) <==> At(files, CssPath(r)) == Some(r.css) && At(files, JsPath(r)) == Some(r.js)
  {
  }

  lemma AssetIs(r: Rules, files: map<Path, Bytes>, p: Path, source: Bytes, extension: string)
    requires r.Valid()
    ensures AssetOk(r, files, p, source, extension)
            <==> p == AssetPath(r, source, extension) && At(files, p) == Some(source)
  {
    hide AssetPath;
  }

  lemma BundleByContent(r: Rules, s: Settings, t: Tree, order: seq<Path>)
    requires r.Valid() && (forall p :: p in order <==> p in t.files) && SamePaths(order, CssPath(r), JsPath(r), s.mode)
    requires t.odd == {} && t.dirs <= {["assets"], ["licenses"]}
    ensures IsBundle(r, s, t)
       <==> At(t.files, CssPath(r)) == Some(r.css) && At(t.files, JsPath(r)) == Some(r.js) && PagesMatch(r, s, t.files)
            && TextsMatch(r, s, t.files)
  {
    hide Expected, PagesMatch, TextsMatch, Items, ItemPaths, Distinct, CssPath, JsPath, r.Valid, Laid, Placed;
    BundleDistinct(r, s);
    ItemsAt(r, s);
    ItemsMatch(r, s, t.files);
    LaidExactly(Items(r, s), t.files);
  }

  lemma TextsOk(r: Rules, s: Settings, t: Tree, order: seq<Path>, css: Path, js: Path)
    requires (forall p :: p in order <==> p in t.files) && SamePaths(order, css, js, s.mode)
    requires IsAsset(css, "css") && IsAsset(js, "js")
    ensures AllTextOk(r, s, order, t.files) && At(t.files, LegalPath()) == Some(r.legal)
       <==> TextsMatch(r, s, t.files) && AllClean(r, s, t)
  {
    hide IsAsset, SamePaths, LegalPath, HeadersPath, RedirectsPath, RobotsPath, Headers, Robots, Redirects;
    FixedThere(order, css, js, s.mode);
    RedirectsInProduction(s.mode);
    if s.mode != Production { NoRedirects(order, css, js, s.mode); }
  }

  lemma RedirectsInProduction(mode: Mode)
    ensures Redirects(mode).Some? <==> mode == Production
  {
  }

  /** Outside production no bundle path is the redirect file. */
  lemma NoRedirects(paths: seq<Path>, css: Path, js: Path, mode: Mode)
    requires SamePaths(paths, css, js, mode) && mode != Production && IsAsset(css, "css") && IsAsset(js, "js")
    ensures RedirectsPath() !in paths
  {
    hide IsAsset, PagePaths;
    AssetForm(css, "css");
    AssetForm(js, "js");
    PagesDiffer();
    assert RedirectsPath()[0][0] == '_' && |RedirectsPath()| == 1;
    assert HeadersPath()[0][1] == 'h' && RedirectsPath()[0][1] == 'r' && RobotsPath()[0][0] == 'r'
           && |LegalPath()| == 2;
  }
}
