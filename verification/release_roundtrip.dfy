/**
  What the builder writes in the maintenance profile and what the auditor accepts
  are the same bundles.
*/
module ReleaseRoundTrip {
  import opened Common
  import opened ReleaseFiles
  import opened ReleaseBuild
  import opened ReleaseAudit

  function Puts(items: seq<Item>): seq<Act> {
    seq(|items|, i requires 0 <= i < |items| => Put(items[i].path, items[i].data))
  }

  /** The steps of `build` after the output directory exists. */
  function Acts(r: Rules, s: Settings): seq<Act>
    requires r.Valid()
  {
    [MakeDir(["assets"])] + Puts(AssetItems(r)) + Puts(PageItems(r, s, Pages())) + [MakeDir(["licenses"])]
        + Puts(TextItems(r, s))
  }

  lemma MadeJoin(a: seq<Act>, b: seq<Act>)
    ensures AllMade(a + b) <==> AllMade(a) && AllMade(b)
  {
    assert forall i :: 0 <= i < |a| ==> (a + b)[i] == a[i];
    assert forall i :: 0 <= i < |b| ==> (a + b)[|a| + i] == b[i];
  }

  lemma WrittenLast(acts: seq<Act>, last: Act)
    requires AllMade(acts + [last])
    ensures AllMade(acts) && (last.Put? ==> last.data.Some?)
    ensures Written(acts + [last]) == if last.Put? then Written(acts)[last.path := last.data.value] else Written(acts)
  {
    MadeJoin(acts, [last]);
    assert [last][0] == last;
    assert (acts + [last])[..|acts|] == acts;
  }

  lemma {:induction false} WrittenJoin(a: seq<Act>, b: seq<Act>)
    ensures AllMade(a + b) <==> AllMade(a) && AllMade(b)
    ensures AllMade(a + b) ==> Written(a + b) == Written(a) + Written(b)
  {
    MadeJoin(a, b);
    if b == [] {
      assert a + b == a;
    } else if AllMade(a + b) {
      hide Written, AllMade;
      var n := |b| - 1;
      assert a + b == (a + b[..n]) + [b[n]] && b == b[..n] + [b[n]];
      WrittenLast(a + b[..n], b[n]);
      WrittenLast(b[..n], b[n]);
      WrittenJoin(a, b[..n]);
    }
  }

  lemma {:induction false} PutsWrite(items: seq<Item>)
    ensures AllMade(Puts(items)) <==> Writable(items)
    ensures Writable(items) ==> Written(Puts(items)) == Laid(items)
  {
    assert forall i :: 0 <= i < |items| ==> Puts(items)[i].data == items[i].data;
    if items != [] && Writable(items) {
      var n := |items| - 1;
      PutsWrite(items[..n]);
      assert Puts(items)[..n] == Puts(items[..n]);
    }
  }

  lemma MakeDirWrites(p: Path)
    ensures AllMade([MakeDir(p)]) && Written([MakeDir(p)]) == map[]
  {
    assert [MakeDir(p)][..0] == [];
  }

  lemma PutsJoin(a: seq<Item>, b: seq<Item>)
    ensures Puts(a + b) == Puts(a) + Puts(b)
  {
  }

  /** The steps write the bundle, or nothing can. */
  lemma ActsWrite(r: Rules, s: Settings)
    requires r.Valid()
    ensures AllMade(Acts(r, s)) <==> Writable(Items(r, s))
    ensures Writable(Items(r, s)) ==> Written(Acts(r, s)) == Laid(Items(r, s))
  {
    hide Written, AllMade, Laid, Writable, AssetItems, PageItems, TextItems, Pages, Puts;
    var a, p, t := AssetItems(r), PageItems(r, s, Pages()), TextItems(r, s);
    MakeDirWrites(["assets"]);
    MakeDirWrites(["licenses"]);
    WrittenJoin([MakeDir(["assets"])], Puts(a));
    WrittenJoin([MakeDir(["assets"])] + Puts(a), Puts(p));
    WrittenJoin([MakeDir(["assets"])] + Puts(a) + Puts(p), [MakeDir(["licenses"])]);
    WrittenJoin([MakeDir(["assets"])] + Puts(a) + Puts(p) + [MakeDir(["licenses"])], Puts(t));
    PutsWrite(a + p + t);
    PutsJoin(a, p);
    PutsJoin(a + p, t);
    WrittenJoin(Puts(a), Puts(p));
    WrittenJoin(Puts(a) + Puts(p), Puts(t));
  }

  /** The steps do not get in each other's way: a build that nothing disturbs
      finishes. */
  lemma ActsApart(r: Rules, s: Settings)
    requires r.Valid()
    ensures Distinct(ActPaths(Acts(r, s))) && [] !in ActPaths(Acts(r, s)) && Rooted(Acts(r, s))
    ensures Doable(Acts(r, s)) <==> AllMade(Acts(r, s))
  {
    ActsRooted(r, s);
    ActsDistinct(r, s);
  }

  lemma ActsDistinct(r: Rules, s: Settings)
    requires r.Valid()
    ensures Distinct(ActPaths(Acts(r, s))) && [] !in ActPaths(Acts(r, s))
  {
    hide AssetItems, PageItems, TextItems, Pages, ItemPaths, Distinct, Placed;
    var a, p, t := AssetItems(r), PageItems(r, s, Pages()), TextItems(r, s);
    BundleDistinct(r, s);
    ItemPathsJoin(a, p);
    ItemPathsJoin(a + p, t);
    var paths := ItemPaths(a) + ItemPaths(p) + ItemPaths(t);
    assert ItemPaths(Items(r, s)) == paths;
    PutPaths(a);
    PutPaths(p);
    PutPaths(t);
    assert ActPaths(Acts(r, s)) == [["assets"]] + ItemPaths(a) + ItemPaths(p) + [["licenses"]] + ItemPaths(t);
    RootsNotPlaced();
    TwoInserted(["assets"], ItemPaths(a) + ItemPaths(p), ["licenses"], ItemPaths(t));
    assert ActPaths(Acts(r, s)) == [["assets"]] + (ItemPaths(a) + ItemPaths(p)) + [["licenses"]] + ItemPaths(t);
    assert forall q :: q in ActPaths(Acts(r, s)) ==> q == ["assets"] || q == ["licenses"] || q in paths;
  }

  /** Whether the paths below the root are below this directory. */
  predicate Under(items: seq<Item>, dir: string) {
    forall item :: item in items && |item.path| > 1 ==> item.path[..|item.path| - 1] == [dir]
  }

  lemma PutsUnder(items: seq<Item>, dir: string)
    requires Under(items, dir)
    ensures forall act :: act in Puts(items) && |act.path| > 1 ==> act.path[..|act.path| - 1] == [dir]
  {
    forall act | act in Puts(items) && |act.path| > 1 ensures act.path[..|act.path| - 1] == [dir] {
      var i :| 0 <= i < |items| && Puts(items)[i] == act;
      assert items[i] in items;
    }
  }

  lemma AssetsUnder(r: Rules)
    requires r.Valid()
    ensures Under(AssetItems(r), "assets")
  {
    hide CssPath, JsPath;
    AssetsDiffer(r);
    assert CssPath(r)[..1] == ["assets"] == JsPath(r)[..1];
  }

  lemma PagesUnder(r: Rules, s: Settings)
    requires r.Valid()
    ensures forall item :: item in PageItems(r, s, Pages()) ==> |item.path| == 1
  {
    hide Pages, PageData;
  }

  lemma TextsUnder(r: Rules, s: Settings)
    ensures Under(TextItems(r, s), "licenses")
  {
    hide Headers, Robots, Redirects;
    assert LegalPath()[..1] == ["licenses"];
  }

  lemma ActsRooted(r: Rules, s: Settings)
    requires r.Valid()
    ensures Rooted(Acts(r, s))
  {
    hide AssetItems, PageItems, TextItems, Pages, Puts, Under;
    var acts := Acts(r, s);
    var a, p, t := Puts(AssetItems(r)), Puts(PageItems(r, s, Pages())), Puts(TextItems(r, s));
    AssetsUnder(r);
    PutsUnder(AssetItems(r), "assets");
    PagesUnder(r, s);
    PutsShort(PageItems(r, s, Pages()));
    TextsUnder(r, s);
    PutsUnder(TextItems(r, s), "licenses");
    var middle := 1 + |a| + |p|;
    assert acts == [MakeDir(["assets"])] + a + p + [MakeDir(["licenses"])] + t;
    assert acts[0] == MakeDir(["assets"]) && acts[middle] == MakeDir(["licenses"]);
    forall k | |a| < k < middle ensures |acts[k].path| == 1 {
      assert acts[k] == p[k - |a| - 1];
    }
    forall i | 0 <= i < |acts| && |acts[i].path| > 1
      ensures exists j :: 0 <= j < i && acts[j].MakeDir? && acts[j].path == acts[i].path[..|acts[i].path| - 1]
    {
      if 0 < i <= |a| {
        assert acts[i] in a;
      } else if i > middle {
        assert acts[i] == t[i - middle - 1];
        assert acts[i] in t;
      }
    }
  }

  lemma PutsShort(items: seq<Item>)
    requires forall item :: item in items ==> |item.path| == 1
    ensures forall act :: act in Puts(items) ==> |act.path| == 1
  {
  }

  lemma PutPaths(items: seq<Item>)
    ensures ActPaths(Puts(items)) == ItemPaths(items)
  {
  }

  lemma RootsNotPlaced()
    ensures !Placed(["assets"]) && !Placed(["licenses"]) && !Placed([]) && ["assets"] != ["licenses"]
  {
    assert "assets"[0] == 'a' && "licenses"[0] == 'l';
    assert ["assets"][0][0] == 'a' && ["licenses"][0][0] == 'l';
  }

  lemma TwoInserted(a: Path, xs: seq<Path>, b: Path, ys: seq<Path>)
    requires a != b && a !in xs + ys && b !in xs + ys && Distinct(xs + ys)
    ensures Distinct([a] + xs + [b] + ys)
  {
    assert forall p :: p in xs ==> p in xs + ys;
    assert forall p :: p in ys ==> p in xs + ys;
    forall p | p in xs ensures p !in ys { DistinctApart(xs, ys, p); }
    HalvesDistinct(xs, ys);
    DistinctJoin([a], xs);
    DistinctJoin([b], ys);
    DistinctJoin([a] + xs, [b] + ys);
    assert [a] + xs + [b] + ys == ([a] + xs) + ([b] + ys);
  }

  lemma DistinctApart(xs: seq<Path>, ys: seq<Path>, p: Path)
    requires Distinct(xs + ys) && p in xs
    ensures p !in ys
  {
    var i :| 0 <= i < |xs| && xs[i] == p;
    assert (xs + ys)[i] == p;
    assert forall j :: 0 <= j < |ys| ==> (xs + ys)[|xs| + j] == ys[j];
  }

  lemma HalvesDistinct(xs: seq<Path>, ys: seq<Path>)
    requires Distinct(xs + ys)
    ensures Distinct(xs) && Distinct(ys)
  {
    assert forall i :: 0 <= i < |xs| ==> (xs + ys)[i] == xs[i];
    assert forall j :: 0 <= j < |ys| ==> (xs + ys)[|xs| + j] == ys[j];
  }

  // ---- The manifest ----

  /** The manifest value; the index flag counts in production only. */
  function ManifestOf(s: Settings, records: seq<FileRecord>): Manifest {
    Manifest(SCHEMA, Maintenance, s.mode, s.mode == Preview, s.mode == Production && s.index, Some(s.operator),
             Some(s.contact),
             records, false, false)
  }

  /** What the builder's output directory holds: files and directories only. */
  function BuiltTree(files: map<Path, Bytes>, dirs: set<Path>): Tree { Tree(files, dirs, {}) }

  /** The manifest's bytes, unless the bundle is too large; `walk` is the order in
      which the directory walk lists the tree. */
  function Seal(r: Rules, s: Settings, walk: Tree -> seq<Path>, encode: Manifest -> Bytes):
    (map<Path, Bytes>, set<Path>) -> Option<Bytes>
  {
    (files, dirs) =>
      var t := BuiltTree(files, dirs);
      var order := OrderOf(walk(t), t);
      if (forall p :: p in order ==> p in files) && Total(order, files) <= MAX_BYTES
      then Some(encode(ManifestOf(s, RecordsOf(r, order, files)))) else None
  }

  /** The manifest is refused exactly for files of more than 25 MiB together. */
  lemma SealExactly(r: Rules, s: Settings, walk: Tree -> seq<Path>, encode: Manifest -> Bytes, files: map<Path, Bytes>,
                    dirs: set<Path>)
    requires Lists(walk(BuiltTree(files, dirs)), BuiltTree(files, dirs))
    ensures var order := OrderOf(walk(BuiltTree(files, dirs)), BuiltTree(files, dirs));
            && (forall p :: p in order <==> p in files)
            && Seal(r, s, walk, encode)(files, dirs)
            == if Total(order, files) > 26214400 then None else Some(encode(ManifestOf(s, RecordsOf(r, order, files))))
  {
    hide OrderOf, Total, RecordsOf, ManifestOf, Lists;
    OrderMembers(walk(BuiltTree(files, dirs)), BuiltTree(files, dirs));
  }

  /** The steps make the two directories that the auditor allows. */
  lemma ActsMake(r: Rules, s: Settings)
    requires r.Valid()
    ensures MadeDirs(Acts(r, s)) == {["assets"], ["licenses"]}
  {
    hide AssetItems, PageItems, TextItems, Pages;
    var acts := Acts(r, s);
    var a, p, t := Puts(AssetItems(r)), Puts(PageItems(r, s, Pages())), Puts(TextItems(r, s));
    assert acts == [MakeDir(["assets"])] + a + p + [MakeDir(["licenses"])] + t;
    assert acts[0] == MakeDir(["assets"]) && acts[1 + |a| + |p|] == MakeDir(["licenses"]);
    forall act | act in acts && act.MakeDir? ensures act.path in {["assets"], ["licenses"]} {
      assert act !in a && act !in p && act !in t;
    }
    assert MakeDir(["assets"]) in acts && MakeDir(["licenses"]) in acts;
  }

  /** In a preview the index flag changes nothing that is written. */
  lemma SameItems(r: Rules, s: Settings)
    requires r.Valid() && s.mode == Preview
    ensures Items(r, s) == Items(r, s.(index := false))
  {
    hide Headers, Robots, Redirects, Pages, PageData;
    var other := s.(index := false);
    PreviewIgnoresIndex(r, s.index);
    PreviewIgnoresIndex(r, false);
    PageDataSame(r, s, other);
    assert PageItems(r, s, Pages()) == PageItems(r, other, Pages());
    assert TextItems(r, s) == TextItems(r, other);
  }

  lemma PageDataSame(r: Rules, s: Settings, other: Settings)
    requires r.Valid() && other == s.(index := other.index)
    ensures forall name :: PageData(r, s, name) == PageData(r, other, name)
  {
  }

  /** What the builder was asked for. */
  ghost predicate Asked(r: Rules, s: Settings, mode: Mode, operator: Option<string>, contact: Option<string>,
                        index: bool) {
    Configure(r, mode, operator, contact) == Ok((s.operator, s.contact)) && s.mode == mode && s.index == index
  }

  /** The settings that count: no index flag outside production. */
  function Effective(s: Settings): Settings { s.(index := s.mode == Production && s.index) }

  lemma EffectiveBundle(r: Rules, s: Settings, t: Tree)
    requires r.Valid() && Writable(Items(r, s)) && t.files == Laid(Items(r, s)) && s.mode != OtherMode
    requires t.odd == {} && t.dirs <= {["assets"], ["licenses"]}
    ensures IsBundle(r, Effective(s), t)
  {
    hide Items, Laid, Writable, r.Valid;
    if s.mode == Preview { SameItems(r, s); }
  }

  lemma ManifestAsked(r: Rules, s: Settings, mode: Mode, operator: Option<string>, contact: Option<string>, index: bool,
                      records: seq<FileRecord>, requested: Option<Mode>)
    requires Asked(r, s, mode, operator, contact, index) && (requested.None? || requested.value == mode)
    ensures var m := ManifestOf(s, records);
            mode != OtherMode && ManifestOk(r, m, requested) && SettingsOf(m) == Effective(s) && m.files == records
  {
    hide Configure;
    ConfigureTwice(r, mode, operator, contact);
    ModeKnown(r, mode, operator, contact);
  }

  lemma Sealed(r: Rules, s: Settings, walk: Tree -> seq<Path>, encode: Manifest -> Bytes, files: map<Path, Bytes>,
               dirs: set<Path>, bytes: Bytes)
    requires Seal(r, s, walk, encode)(files, dirs) == Some(bytes)
    ensures var order := OrderOf(walk(BuiltTree(files, dirs)), BuiltTree(files, dirs));
            (forall p :: p in order ==> p in files) && Total(order, files) <= MAX_BYTES
            && bytes == encode(ManifestOf(s, RecordsOf(r, order, files)))
  {
    hide OrderOf, Total, RecordsOf, ManifestOf;
  }

  /** Nothing but the text rules is left for the auditor to decide. */
  ghost predicate Certified(r: Rules, t: Tree, order: seq<Path>, m: Manifest, requested: Option<Mode>)
    requires r.Valid()
  {
    && (forall p :: p in order <==> p in t.files) && m.operator.Some? && m.contact.Some?
    && (Faithful(r, t, order, m, requested) <==> AllClean(r, SettingsOf(m), t))
  }

  lemma BundleCertified(r: Rules, s: Settings, t: Tree, order: seq<Path>, m: Manifest, requested: Option<Mode>)
    requires r.Valid() && (forall p :: p in order <==> p in t.files) && Total(order, t.files) <= MAX_BYTES
    requires m.files == RecordsOf(r, order, t.files) && ManifestOk(r, m, requested) && SettingsOf(m) == Effective(s)
    requires IsBundle(r, Effective(s), t)
    ensures Certified(r, t, order, m, requested)
  {
    hide Total, RecordsOf, IsBundle, AllClean, Configure;
  }

  /** A tree that the builder's steps made, with the manifest it sealed, passes
      every comparison of the auditor. */
  lemma WrittenIsAudited(r: Rules, s: Settings, mode: Mode, operator: Option<string>, contact: Option<string>,
                         index: bool, t: Tree, bytes: Bytes, walk: Tree -> seq<Path>, encode: Manifest -> Bytes,
                         requested: Option<Mode>)
    requires r.Valid() && Asked(r, s, mode, operator, contact, index) && (requested.None? || requested.value == mode)
    requires AllMade(Acts(r, s)) && t == BuiltTree(Written(Acts(r, s)), MadeDirs(Acts(r, s)))
    requires Seal(r, s, walk, encode)(t.files, t.dirs) == Some(bytes) && Lists(walk(t), t)
    ensures exists m :: bytes == encode(m) && Certified(r, t, OrderOf(walk(t), t), m, requested)
  {
    hide Written, AllMade, MadeDirs, OrderOf, Lists, Items, Laid, Writable, Asked, Total, RecordsOf, r.Valid, Acts,
         Seal, ManifestOk, IsBundle, Certified, ManifestOf;
    var order := OrderOf(walk(t), t);
    OrderMembers(walk(t), t);
    ActsWrite(r, s);
    ActsMake(r, s);
    Sealed(r, s, walk, encode, t.files, t.dirs, bytes);
    ManifestAsked(r, s, mode, operator, contact, index, RecordsOf(r, order, t.files), requested);
    AskedMode(r, s, mode, operator, contact, index);
    EffectiveBundle(r, s, t);
    BundleCertified(r, s, t, order, ManifestOf(s, RecordsOf(r, order, t.files)), requested);
  }

  /** Reading gives back every manifest that was written. */
  ghost predicate Reads(encode: Manifest -> Bytes, decode: Bytes -> Option<Manifest>) {
    forall m :: decode(encode(m)) == Some(m)
  }

  /** So does the output directory of whatever a build in this profile finishes,
      with the manifest read back from where the build put it, however the
      directory walk lists it. */
  lemma BuiltIsAudited(r: Rules, s: Settings, mode: Mode, operator: Option<string>, contact: Option<string>,
                       index: bool, name: string, before: map<Place, Bytes>, now: map<Place, Bytes>, dirs: set<Place>,
                       manifest: Place, walk: Tree -> seq<Path>, encode: Manifest -> Bytes,
                       decode: Bytes -> Option<Manifest>, requested: Option<Mode>)
    requires r.Valid() && Asked(r, s, mode, operator, contact, index) && (requested.None? || requested.value == mode)
    requires Finished(name, before, now, dirs, Acts(r, s), None, manifest, Seal(r, s, walk, encode))
    requires var t := BuiltTree(OutputTree(now), OutputDirs(dirs)); Lists(walk(t), t)
    requires Reads(encode, decode)
    ensures var t := BuiltTree(OutputTree(now), OutputDirs(dirs));
            && manifest in now && decode(now[manifest]).Some?
            && Certified(r, t, OrderOf(walk(t), t), decode(now[manifest]).value, requested)
  {
    hide Written, AllMade, MadeDirs, OrderOf, Lists, Asked, r.Valid, Acts, Seal, Certified, Rest, OutputTree,
         OutputDirs;
    var t := BuiltTree(OutputTree(now), OutputDirs(dirs));
    WrittenIsAudited(r, s, mode, operator, contact, index, t, now[manifest], walk, encode, requested);
    var m :| now[manifest] == encode(m) && Certified(r, t, OrderOf(walk(t), t), m, requested);
    assert decode(encode(m)) == Some(m);
  }

  lemma AskedMode(r: Rules, s: Settings, mode: Mode, operator: Option<string>, contact: Option<string>, index: bool)
    requires Asked(r, s, mode, operator, contact, index)
    ensures s.mode == mode && s.index == index
  {
    hide Configure;
  }

  lemma ModeKnown(r: Rules, mode: Mode, operator: Option<string>, contact: Option<string>)
    requires Configure(r, mode, operator, contact).Ok?
    ensures mode == Preview || mode == Production
  {
  }

  predicate StepsWrite(r: Rules, s: Settings, files: map<Path, Bytes>)
    requires r.Valid()
  {
    AllMade(Acts(r, s)) && files == Written(Acts(r, s))
  }

  /** The manifest is the one the builder writes for these settings and files. */
  ghost predicate SelfRecorded(r: Rules, t: Tree, order: seq<Path>, m: Manifest)
    requires (forall p :: p in order ==> p in t.files) && m.operator.Some? && m.contact.Some?
  {
    && m == ManifestOf(SettingsOf(m), RecordsOf(r, order, t.files))
    && Asked(r, SettingsOf(m), m.mode, m.operator, m.contact, m.index)
  }

  predicate Small(order: seq<Path>, files: map<Path, Bytes>)
    requires forall p :: p in order ==> p in files
  {
    Total(order, files) <= MAX_BYTES
  }

  /** The files are what the builder's steps write, within the limit. */
  ghost predicate BuilderWrites(r: Rules, s: Settings, t: Tree, order: seq<Path>)
    requires r.Valid() && forall p :: p in order ==> p in t.files
  {
    Small(order, t.files) && t.odd == {} && t.dirs <= {["assets"], ["licenses"]} && StepsWrite(r, s, t.files)
  }

  /** The auditor accepts exactly the bundles that the builder writes and that
      pass the text rules. */
  lemma AcceptsExactlyBuilds(r: Rules, t: Tree, order: seq<Path>, m: Manifest, requested: Option<Mode>)
    requires r.Valid() && forall p :: p in order ==> p in t.files
    ensures Faithful(r, t, order, m, requested) <==>
              && m.operator.Some? && m.contact.Some? && SelfRecorded(r, t, order, m)
              && BuilderWrites(r, SettingsOf(m), t, order)
              && AllClean(r, SettingsOf(m), t) && (requested.None? || requested.value == m.mode)
  {
    hide Written, AllMade, Items, Laid, Writable, ManifestOk, Asked, Total, RecordsOf, AllClean, r.Valid, Acts,
         ManifestOf;
    if m.operator.Some? && m.contact.Some? {
      ActsWrite(r, SettingsOf(m));
      CanonicalManifest(r, m, RecordsOf(r, order, t.files), requested);
    } else {
      NamesMissing(r, m, requested);
    }
  }

  lemma CanonicalManifest(r: Rules, m: Manifest, records: seq<FileRecord>, requested: Option<Mode>)
    requires m.operator.Some? && m.contact.Some?
    ensures ManifestOk(r, m, requested) && m.files == records
       <==> m == ManifestOf(SettingsOf(m), records) && (requested.None? || requested.value == m.mode)
            && Asked(r, SettingsOf(m), m.mode, m.operator, m.contact, m.index)
  {
    hide Configure;
    if Configure(r, m.mode, m.operator, m.contact).Ok? { ModeKnown(r, m.mode, m.operator, m.contact); }
  }

  lemma NamesMissing(r: Rules, m: Manifest, requested: Option<Mode>)
    requires m.operator.None? || m.contact.None?
    ensures !ManifestOk(r, m, requested)
  {
  }
}
