/**
  scripts/build_public.py `build`: writing a bundle, its diagnostics sidecar and
  its manifest, and taking everything back when a step fails.  Any disk operation
  may fail, a write also after some bytes; removing files does not fail.
*/
module ReleaseBuild {
  import opened Common
  import opened ReleaseFiles

  /** Where a path lies: in the output directory, in the sibling directory
      `<output>.functions`, or elsewhere. */
  datatype Place = Output(rel: Path) | Sidecar(rel: Path) | Elsewhere(abs: Path)

  datatype Fault = NoFault | Fails | Tears(written: Bytes)

  /** A step of writing the output: a directory, or a file whose content may
      refuse to be made. */
  datatype Act = MakeDir(path: Path) | Put(path: Path, data: Option<Bytes>)

  datatype Staged = NotFresh | NotWritten | BadName | Ready

  predicate NameChar(c: char) {
    'A' <= c <= 'Z' || 'a' <= c <= 'z' || '0' <= c <= '9' || c == '_' || c == '.' || c == '-'
  }

  /** `<name>.functions` matches the pattern for sidecar names. */
  predicate SafeName(name: string) {
    && 0 < |name| <= 96 && (forall c :: c in name ==> NameChar(c))
    && name[0] != '_' && name[0] != '.' && name[0] != '-'
  }

  /** The pattern [A-Za-z0-9][A-Za-z0-9_.-]{0,95} in its own terms. */
  lemma SafeNameExactly(name: string)
    ensures SafeName(name) <==>
            && 1 <= |name| <= 1 + 95
            && ('A' <= name[0] <= 'Z' || 'a' <= name[0] <= 'z' || '0' <= name[0] <= '9')
            && forall i :: 1 <= i < |name| ==>
                 || 'A' <= name[i] <= 'Z' || 'a' <= name[i] <= 'z' || '0' <= name[i] <= '9'
                 || name[i] in "_.-"
  {
    if SafeName(name) {
      assert forall i :: 0 <= i < |name| ==> NameChar(name[i]);
    } else if 1 <= |name| <= 96 && forall i :: 0 <= i < |name| ==> NameChar(name[i]) {
      assert forall c :: c in name ==> NameChar(c);
    }
  }

  class Disk {
    var files: map<Place, Bytes>
    var dirs: set<Place>
    var clock: nat
    const faults: nat -> Fault

    constructor (files: map<Place, Bytes>, dirs: set<Place>, faults: nat -> Fault)
      ensures this.files == files && this.dirs == dirs && this.faults == faults && clock == 0
    {
      this.files, this.dirs, this.faults, clock := files, dirs, faults, 0;
    }

    /** What lies in a directory lies in a directory that exists. */
    ghost predicate Shaped()
      reads this
    {
      forall p :: Exists(p) ==> (p.Output? ==> Output([]) in dirs) && (p.Sidecar? ==> Sidecar([]) in dirs)
    }

    /** No disk operation fails of itself. */
    ghost predicate Quiet() { forall n :: faults(n) == NoFault }

    predicate Exists(p: Place)
      reads this`files, this`dirs
    {
      p in files || p in dirs
    }

    /** The directory that a new path goes into.  Those above a place elsewhere are
        made just before, or were there. */
    predicate ParentMade(p: Place)
      reads this`dirs
    {
      match p
      case Output(rel) => rel == [] || Output(rel[..|rel| - 1]) in dirs
      case Sidecar(rel) => rel == [] || Sidecar(rel[..|rel| - 1]) in dirs
      case Elsewhere(_) => true
    }

    method Mkdir(p: Place) returns (ok: bool)
      modifies this`dirs, this`clock
      ensures ok <==> faults(old(clock)) == NoFault && !old(Exists(p)) && old(ParentMade(p))
      ensures dirs == (if ok then old(dirs) + {p} else old(dirs)) && clock == old(clock) + 1
    {
      var fault := faults(clock);
      clock := clock + 1;
      if Exists(p) || !ParentMade(p) || fault != NoFault {
        return false;
      }
      dirs := dirs + {p};
      return true;
    }

    /** mkdir(parents=True, exist_ok=True) of the deepest of these directories;
        a file in the way refuses it, and it may stop half way. */
    method MkdirAll(ds: set<Place>) returns (ok: bool)
      modifies this`dirs, this`clock
      ensures ok <==> faults(old(clock)) == NoFault && ds !! files.Keys
      ensures old(dirs) <= dirs <= old(dirs) + ds && (ok ==> ds <= dirs) && clock == old(clock) + 1
    {
      ok := faults(clock) == NoFault && forall d :: d in ds ==> d !in files;
      clock := clock + 1;
      if ok {
        dirs := dirs + ds;
      } else if d :| d in ds {
        dirs := dirs + {d};
      }
    }

    /** _write_new */
    method WriteNew(p: Place, data: Bytes) returns (ok: bool)
      modifies this`files, this`clock
      ensures ok <==> faults(old(clock)) == NoFault && !old(Exists(p)) && ParentMade(p)
      ensures clock == old(clock) + 1 && OnlyPut(old(files), files, p)
      ensures old(Exists(p)) || !ParentMade(p) || faults(old(clock)) == Fails ==> files == old(files)
      ensures ok ==> files == old(files)[p := data]
      ensures !old(Exists(p)) && ParentMade(p) && faults(old(clock)).Tears? ==>
                files == old(files)[p := faults(old(clock)).written]
    {
      var fault := faults(clock);
      clock := clock + 1;
      if Exists(p) || !ParentMade(p) {
        return false;
      }
      match fault
      case NoFault => files := files[p := data]; return true;
      case Fails => return false;
      case Tears(part) => files := files[p := part]; return false;
    }

    /** rmtree of the output or the sidecar */
    method RemoveOutput()
      modifies this`files, this`dirs
      ensures files == Rest(old(files), true, false, None)
      ensures forall d :: d in dirs <==> d in old(dirs) && !d.Output?
      ensures forall p: Place :: p.Output? ==> !Exists(p)
    {
      files := Rest(files, true, false, None);
      dirs := set d | d in dirs && !d.Output?;
    }

    method RemoveSidecar()
      modifies this`files, this`dirs
      ensures files == Rest(old(files), false, true, None)
      ensures forall d :: d in dirs <==> d in old(dirs) && !d.Sidecar?
    {
      files := Rest(files, false, true, None);
      dirs := set d | d in dirs && !d.Sidecar?;
    }

    method PerformOne(act: Act) returns (ok: bool)
      modifies this
      ensures old(dirs) <= dirs && (forall p: Place :: !p.Output? ==> (Exists(p) <==> old(Exists(p))))
      ensures Rest(files, true, false, None) == Rest(old(files), true, false, None)
      ensures forall p :: Exists(Output(p)) ==> old(Exists(Output(p))) || p == act.path
      ensures ok ==> (act.Put? ==> act.data.Some?)
                     && OutputTree(files) == if act.Put? then OutputTree(old(files))[act.path := act.data.value]
                        else OutputTree(old(files))
      ensures forall d :: d in dirs && d !in old(dirs) ==> d.Output?
      ensures ok ==> OutputDirs(dirs) == OutputDirs(old(dirs))
                                         + if act.MakeDir? && act.path != [] then {act.path} else {}
      ensures Quiet() && !old(Exists(Output(act.path))) && old(ParentMade(Output(act.path)))
              && (act.Put? ==> act.data.Some?)
              ==> ok
    {
      hide Rest, OutputTree;
      match act
      case MakeDir(path) =>
        ok := Mkdir(Output(path));
      case Put(path, data) =>
        if data.None? {
          return false;
        }
        ghost var was := files;
        ok := WriteNew(Output(path), data.value);
        OnePut(was, files, path);
    }

    /** Runs the steps into the output; false when one raised. */
    method Perform(acts: seq<Act>) returns (ok: bool)
      requires forall f :: f in files ==> !f.Output?
      requires Shaped() && Output([]) in dirs && forall d :: d in dirs && d.Output? ==> d.rel == []
      modifies this
      ensures old(dirs) <= dirs && (forall p: Place :: !p.Output? ==> (Exists(p) <==> old(Exists(p))))
      ensures Shaped() && Rest(files, true, false, None) == old(files)
      ensures forall d :: d in dirs && d !in old(dirs) ==> d.Output?
      ensures ok ==> AllMade(acts) && OutputTree(files) == Written(acts) && OutputDirs(dirs) == MadeDirs(acts)
      ensures Quiet() && Doable(acts) ==> ok
    {
      hide Written, Doable, AllMade, Rest, OutputTree, OutputDirs, MadeDirs, Distinct, ActPaths;
      NothingYet(files);
      NoDirsYet(dirs);
      NothingWritten();
      for i := 0 to |acts|
        invariant old(dirs) <= dirs && (forall p: Place :: !p.Output? ==> (Exists(p) <==> old(Exists(p))))
        invariant Shaped() && Rest(files, true, false, None) == old(files)
        invariant forall d :: d in dirs && d !in old(dirs) ==> d.Output?
        invariant AllMade(acts[..i]) && OutputTree(files) == Written(acts[..i])
                  && OutputDirs(dirs) == MadeDirs(acts[..i])
        invariant forall p :: Exists(Output(p)) ==> p == [] || exists j :: 0 <= j < i && acts[j].path == p
      {
        OneMoreAct(acts, i);
        FreshAct(acts, i);
        if Doable(acts) { ParentAmong(acts, i, dirs); }
        var done := PerformOne(acts[i]);
        if !done {
          return false;
        }
      }
      assert acts[..|acts|] == acts;
      return true;
    }

    /** Whatever is in the sidecar lies on the way to one of the first i sources. */
    ghost predicate Tracked(source: seq<(Path, Bytes)>, i: nat)
      requires i <= |source|
      reads this`files, this`dirs
    {
      forall p :: Exists(Sidecar(p)) ==> exists j :: 0 <= j < i && p <= source[j].0
    }

    /** stage_diagnostics_backend, once the sources are read. */
    method Stage(name: string, source: seq<(Path, Bytes)>) returns (staged: Staged)
      requires Shaped() && [] !in Paths(source)
      modifies this
      ensures staged == NotFresh <==> old(Exists(Sidecar([])))
      ensures staged == NotFresh || staged == NotWritten ==> files == old(files) && dirs == old(dirs)
      ensures staged == BadName || staged == Ready ==>
                old(dirs) <= dirs && forall d :: d in dirs && d !in old(dirs) ==> d.Sidecar?
      ensures staged != NotFresh ==> forall d :: d in old(dirs) ==> !d.Sidecar?
      ensures staged == BadName || staged == Ready ==>
                && (staged == Ready <==> SafeName(name)) && (forall f :: f in old(files) ==> !f.Sidecar?)
                && Rest(files, false, true, None) == old(files) && SidecarTree(files) == Copied(source)
      ensures Quiet() ==> (staged == NotWritten <==> !old(Exists(Sidecar([]))) && !Apart(Paths(source)))
      ensures staged == Ready ==> OutputDirs(dirs) == OutputDirs(old(dirs))
      ensures staged == Ready ==> forall p: Place :: p.Elsewhere? ==> (Exists(p) <==> old(Exists(p)))
    {
      hide Copied, SafeName, Rest, SidecarTree, OutputDirs, Apart;
      if Exists(Sidecar([])) {
        return NotFresh;
      }
      NothingBeside(files);
      NothingCopied();
      assert forall d :: d in dirs && d.Sidecar? ==> Exists(d);
      for i := 0 to |source|
        invariant Rest(files, false, true, None) == old(files) && SidecarTree(files) == Copied(source[..i])
        invariant Tracked(source, i) && Covers(files, dirs, source, i) && FilesFrom(files, source, i)
        invariant forall p: Place :: p.Elsewhere? ==> (Exists(p) <==> old(Exists(p)))
        invariant OutputDirs(dirs) == OutputDirs(old(dirs))
        invariant old(dirs) <= dirs && forall d :: d in dirs && d !in old(dirs) ==> d.Sidecar?
        invariant ApartSoFar(source, i)
      {
        OneMoreCopy(source, i);
        assert Paths(source)[i] != [];
        var written := StageOne(source, i);
        if !written {
          RemoveSidecar();
          return NotWritten;
        }
      }
      assert source[..|source|] == source;
      ApartAll(source);
      return if SafeName(name) then Ready else BadName;
    }

    method StageOne(source: seq<(Path, Bytes)>, i: nat) returns (ok: bool)
      requires i < |source| && source[i].0 != []
      requires Tracked(source, i) && Covers(files, dirs, source, i) && FilesFrom(files, source, i)
               && ApartSoFar(source, i)
      modifies this
      ensures Rest(files, false, true, None) == Rest(old(files), false, true, None)
      ensures ok ==> SidecarTree(files) == SidecarTree(old(files))[source[i].0 := source[i].1] && Tracked(source, i + 1)
      ensures ok ==> Covers(files, dirs, source, i + 1) && FilesFrom(files, source, i + 1) && ApartSoFar(source, i + 1)
      ensures Quiet() && Apart(Paths(source)) ==> ok
      ensures OutputDirs(dirs) == OutputDirs(old(dirs))
      ensures old(dirs) <= dirs && forall d :: d in dirs && d !in old(dirs) ==> d.Sidecar?
      ensures forall p: Place :: p.Elsewhere? ==> (Exists(p) <==> old(Exists(p)))
    {
      hide Rest, SidecarTree, Covers, FilesFrom, ApartSoFar, Apart;
      if Apart(Paths(source)) { NothingInTheWay(files, source, i); }
      ghost var was := files;
      ok := MakeParents(source[i].0);
      if ok {
        StillCovers(was, old(dirs), dirs, source, i);
        ok := CopyFile(source[i]);
        if ok { NextSource(was, files, dirs, source, i); }
      }
    }

    /** path.parent.mkdir(parents=True, exist_ok=True) in the sidecar */
    method MakeParents(path: Path) returns (ok: bool)
      requires path != []
      modifies this`dirs, this`clock
      ensures old(dirs) <= dirs && forall d :: d in dirs && d !in old(dirs) ==> d.Sidecar? && d.rel < path
      ensures ok ==> ParentMade(Sidecar(path)) && forall k :: 0 <= k < |path| ==> Sidecar(path[..k]) in dirs
      ensures ok ==> forall k :: 0 <= k < |path| ==> Sidecar(path[..k]) !in files
      ensures Quiet() && (forall p :: Sidecar(p) in files ==> !(p < path)) ==> ok
    {
      var parents := set k | 0 <= k < |path| :: Sidecar(path[..k]);
      assert forall k :: 0 <= k < |path| ==> Sidecar(path[..k]) in parents;
      ok := MkdirAll(parents);
    }

    method CopyFile(item: (Path, Bytes)) returns (ok: bool)
      modifies this`files, this`clock
      ensures Rest(files, false, true, None) == Rest(old(files), false, true, None)
      ensures ok ==> SidecarTree(files) == SidecarTree(old(files))[item.0 := item.1]
      ensures ok ==> files == old(files)[Sidecar(item.0) := item.1] && !old(Exists(Sidecar(item.0)))
      ensures OnlyPut(old(files), files, Sidecar(item.0))
      ensures Quiet() && !old(Exists(Sidecar(item.0))) && ParentMade(Sidecar(item.0)) ==> ok
    {
      ghost var was := files;
      ok := WriteNew(Sidecar(item.0), item.1);
      OneCopy(was, files, item.0);
    }

    /** The manifest, when the inventory is within its limits. */
    method Close(manifest: Place, above: set<Place>, content: Option<Bytes>) returns (ok: bool)
      modifies this
      ensures OnlyPut(old(files), files, manifest)
      ensures ok ==> content.Some? && manifest !in old(files) && files == old(files)[manifest := content.value]
      ensures (forall d :: d in above ==> !d.Output?) ==> OutputDirs(dirs) == OutputDirs(old(dirs))
      ensures old(dirs) <= dirs <= old(dirs) + above && (ok ==> above <= dirs)
      ensures Quiet() && content.Some? && !old(Exists(manifest)) && manifest !in above && manifest.Elsewhere?
              && above !! old(files).Keys
              ==> ok
    {
      if content.None? {
        return false;
      }
      ok := MkdirAll(above);
      if ok {
        ok := WriteNew(manifest, content.value);
      }
    }

    /** The handler for what fails after the sidecar. */
    method TakeBack(created: bool, manifest: Place)
      modifies this`files, this`dirs
      ensures files == Rest(old(files), true, created, Some(manifest))
      ensures forall d :: d in dirs <==> d in old(dirs) && !d.Output? && !(created && d.Sidecar?)
    {
      RemoveOutput();
      if created {
        RemoveSidecar();
      }
      files := Rest(files, false, false, Some(manifest));
    }

    /** The whole build, once sources and settings are accepted.  `sidecar` is
        absent in the maintenance profile and where there is no backend source;
        `seal` turns the finished tree into the manifest's bytes or refuses its
        size; `above` are the directories over the manifest, which lie in the
        output only when it does.  `leaked` says that the sidecar was written and
        its name refused. */
    method Build(name: string, acts: seq<Act>, sidecar: Option<seq<(Path, Bytes)>>, manifest: Place, above: set<Place>,
                 seal: (map<Path, Bytes>, set<Path>) -> Option<Bytes>)
      returns (ok: bool, leaked: bool)
      requires Shaped() && (sidecar.Some? ==> [] !in Paths(sidecar.value))
      requires !manifest.Output? ==> forall d :: d in above ==> !d.Output?
      modifies this
      ensures !ok && !leaked ==> files == old(files) && old(dirs) <= dirs <= old(dirs) + above
      ensures leaked ==> !ok && Leaked(name, old(files), files, sidecar)
      ensures leaked ==> old(dirs) <= dirs && forall d :: d in dirs && d !in old(dirs) ==> d.Sidecar?
      ensures ok ==> old(dirs) + above <= dirs
      ensures ok ==> forall d :: d in dirs && d !in old(dirs) + above ==> d.Output? || (sidecar.Some? && d.Sidecar?)
      ensures !ok ==> forall p: Place :: p.Output? ==> (Exists(p) <==> old(Exists(p)))
      ensures ok ==> Finished(name, old(files), files, dirs, acts, sidecar, manifest, seal)
      ensures old(Exists(Sidecar([]))) ==> !leaked && (sidecar.Some? ==> !ok)
      ensures ok || leaked ==> !manifest.Output? && !old(Exists(manifest)) && !old(Exists(Output([])))
      ensures Quiet() && manifest.Elsewhere? && manifest !in above && !old(Exists(manifest)) && !old(Exists(Output([])))
              && (forall d :: d in above ==> d.Elsewhere? && d !in old(files))
              && Doable(acts) && seal(Written(acts), MadeDirs(acts)).Some?
              && (sidecar.Some? ==> Apart(Paths(sidecar.value)) && !old(Exists(Sidecar([]))) && SafeName(name))
              ==> ok
      ensures Quiet() && !manifest.Output? && !old(Exists(manifest)) && !old(Exists(Output([])))
              && !old(Exists(Sidecar([])))
              && Doable(acts) && sidecar.Some? && Apart(Paths(sidecar.value)) && !SafeName(name)
              ==> leaked
    {
      hide Written, Copied, SafeName, Doable, AllMade, Rest, OutputTree, SidecarTree, OutputDirs, MadeDirs, Finished,
           Leaked, Apart, Paths;
      if Exists(Output([])) || manifest.Output? || Exists(manifest) {
        return false, false;
      }
      ghost var before := files;
      var made := Mkdir(Output([]));
      if !made {
        return false, false;
      }
      var performed := Perform(acts);
      if !performed {
        RemoveOutput();
        return false, false;
      }
      ghost var bundle := files;
      if sidecar.Some? {
        var staged := Stage(name, sidecar.value);
        ghost var full := files;
        if staged == BadName {
          RemoveOutput();
          AfterBadName(name, before, bundle, full, sidecar);
          return false, true;
        }
        if staged != Ready {
          RemoveOutput();
          return false, false;
        }
        OutputKept(bundle, full);
      }
      ghost var full := files;
      if forall d :: d in above ==> d.Elsewhere? && d !in before { FreeAbove(before, bundle, full, above); }
      ok := Close(manifest, above, seal(OutputTree(files), OutputDirs(dirs)));
      ghost var last := files;
      if !ok {
        TakeBack(sidecar.Some?, manifest);
        AllTakenBack(before, bundle, full, last, sidecar.Some?, manifest);
      } else {
        AllThere(name, before, bundle, full, last, dirs, acts, sidecar, manifest, seal);
      }
      return ok, false;
    }
  }

  /** Under an unsafe name every undisturbed build whose steps can all be made
      raises and leaves its whole sidecar, and nothing else, on the empty disk. */
  method UnsafeNameLeaks(name: string, acts: seq<Act>, source: seq<(Path, Bytes)>,
                         seal: (map<Path, Bytes>, set<Path>) -> Option<Bytes>)
    returns (disk: Disk, ok: bool)
    requires !SafeName(name) && Doable(acts)
    requires source != [] && Apart(Paths(source))
    ensures !ok && SidecarTree(disk.files) == Copied(source) && disk.files != map[]
    ensures forall f :: f in disk.files ==> f.Sidecar?
  {
    hide Apart, Copied, Written, SafeName, Rest, SidecarTree, OutputTree, Paths, Doable, Finished, Leaked;
    NonEmptyPaths(source);
    CopiedSome(source);
    disk := new Disk(map[], {}, (n: nat) => NoFault);
    var leaked;
    ok, leaked := disk.Build(name, acts, Some(source), Elsewhere(["manifest"]), {}, seal);
    LeakKeeps(name, disk.files, source);
  }

  lemma LeakKeeps(name: string, now: map<Place, Bytes>, source: seq<(Path, Bytes)>)
    requires Leaked(name, map[], now, Some(source))
    ensures SidecarTree(now) == Copied(source) && forall f :: f in now ==> f.Sidecar?
  {
    hide SafeName, Copied;
    assert forall f :: f in now && !f.Sidecar? ==> f in Rest(now, false, true, None);
  }

  lemma NonEmptyPaths(source: seq<(Path, Bytes)>)
    requires Apart(Paths(source))
    ensures [] !in Paths(source)
  {
  }

  lemma CopiedSome(source: seq<(Path, Bytes)>)
    requires source != []
    ensures Copied(source) != map[] && SidecarTree(map[]) == map[]
  {
    assert source[|source| - 1].0 in Copied(source);
  }

  /** The sidecar is complete, its name is not acceptable, all else is as it was. */
  ghost predicate Leaked(name: string, before: map<Place, Bytes>, now: map<Place, Bytes>,
                         sidecar: Option<seq<(Path, Bytes)>>) {
    && sidecar.Some? && !SafeName(name) && (forall f :: f in before ==> !f.Sidecar?)
    && Rest(now, false, true, None) == before && SidecarTree(now) == Copied(sidecar.value)
  }

  /** Output, sidecar and manifest are complete, all else is as it was. */
  ghost predicate Finished(name: string, before: map<Place, Bytes>, now: map<Place, Bytes>, dirs: set<Place>,
                           acts: seq<Act>, sidecar: Option<seq<(Path, Bytes)>>, manifest: Place,
                           seal: (map<Path, Bytes>, set<Path>) -> Option<Bytes>) {
    && AllMade(acts) && OutputTree(now) == Written(acts) && OutputDirs(dirs) == MadeDirs(acts)
    && manifest in now && seal(Written(acts), MadeDirs(acts)) == Some(now[manifest])
    && Rest(now, true, sidecar.Some?, Some(manifest)) == before
    && (sidecar.Some? ==>
            SafeName(name) && SidecarTree(Rest(now, false, false, Some(manifest))) == Copied(sidecar.value))
  }

  function Paths(source: seq<(Path, Bytes)>): seq<Path> {
    seq(|source|, i requires 0 <= i < |source| => source[i].0)
  }

  function ActPaths(acts: seq<Act>): seq<Path> {
    seq(|acts|, i requires 0 <= i < |acts| => acts[i].path)
  }

  /** No path is another, or above another. */
  predicate Apart(paths: seq<Path>) {
    && (forall i :: 0 <= i < |paths| ==> paths[i] != [])
    && forall i, j :: 0 <= i < |paths| && 0 <= j < |paths| && i != j ==> !(paths[i] <= paths[j])
  }

  /** No file of the sidecar is other than one of the first i sources. */
  ghost predicate FilesFrom(files: map<Place, Bytes>, source: seq<(Path, Bytes)>, i: nat)
    requires i <= |source|
  {
    forall p :: Sidecar(p) in files ==> exists j :: 0 <= j < i && source[j].0 == p
  }

  /** The first i sources are there, with every directory above them. */
  ghost predicate Covers(files: map<Place, Bytes>, dirs: set<Place>, source: seq<(Path, Bytes)>, i: nat)
    requires i <= |source|
  {
    forall j :: 0 <= j < i ==>
      Sidecar(source[j].0) in files && forall k :: 0 <= k < |source[j].0| ==> Sidecar(source[j].0[..k]) in dirs
  }

  lemma StillCovers(files: map<Place, Bytes>, dirs: set<Place>, more: set<Place>, source: seq<(Path, Bytes)>, i: nat)
    requires i <= |source| && Covers(files, dirs, source, i) && dirs <= more
    ensures Covers(files, more, source, i)
  {
  }

  lemma PrefixTaken(p: Path, q: Path)
    ensures p <= q ==> p == q || (|p| < |q| && p == q[..|p|])
  {
    if p <= q && |p| == |q| { assert p == q; }
  }

  /** A source written at a fresh place, with no file above it, lies apart from
      those written before. */
  lemma NextSource(was: map<Place, Bytes>, now: map<Place, Bytes>, dirs: set<Place>, source: seq<(Path, Bytes)>, i: nat)
    requires i < |source| && source[i].0 != []
    requires Covers(was, dirs, source, i) && FilesFrom(was, source, i) && ApartSoFar(source, i)
    requires now == was[Sidecar(source[i].0) := source[i].1]
    requires Sidecar(source[i].0) !in was && Sidecar(source[i].0) !in dirs
    requires forall k :: 0 <= k < |source[i].0| ==>
               Sidecar(source[i].0[..k]) in dirs && Sidecar(source[i].0[..k]) !in was
    ensures Covers(now, dirs, source, i + 1) && FilesFrom(now, source, i + 1) && ApartSoFar(source, i + 1)
  {
    var p := source[i].0;
    forall j | 0 <= j < i ensures !(source[j].0 <= p) && !(p <= source[j].0) {
      var q := source[j].0;
      PrefixTaken(q, p);
      PrefixTaken(p, q);
    }
    forall r | Sidecar(r) in now ensures exists j :: 0 <= j < i + 1 && source[j].0 == r {
      if Sidecar(r) !in was { assert source[i].0 == r; }
    }
  }

  lemma NothingInTheWay(files: map<Place, Bytes>, source: seq<(Path, Bytes)>, i: nat)
    requires i < |source| && Apart(Paths(source)) && FilesFrom(files, source, i)
    ensures forall p :: Sidecar(p) in files ==> !(p < source[i].0)
    ensures forall j :: 0 <= j < i ==> !(source[i].0 <= source[j].0)
  {
    FreshCopy(source, i);
  }

  ghost predicate ApartSoFar(source: seq<(Path, Bytes)>, i: nat)
    requires i <= |source|
  {
    && (forall j :: 0 <= j < i ==> source[j].0 != [])
    && forall j, k :: 0 <= j < i && 0 <= k < i && j != k ==> !(source[j].0 <= source[k].0)
  }

  lemma ApartAll(source: seq<(Path, Bytes)>)
    ensures ApartSoFar(source, |source|) <==> Apart(Paths(source))
  {
    assert forall j :: 0 <= j < |source| ==> Paths(source)[j] == source[j].0;
  }

  /** At most one file is new or changed. */
  predicate OnlyPut(was: map<Place, Bytes>, now: map<Place, Bytes>, p: Place) {
    now == was || (p in now && now == was[p := now[p]])
  }

  /** The files without the output's, without the sidecar's, without one more. */
  function Rest(files: map<Place, Bytes>, output: bool, sidecar: bool, one: Option<Place>): map<Place, Bytes> {
    map f | f in files && !(output && f.Output?) && !(sidecar && f.Sidecar?) && Some(f) != one :: files[f]
  }

  function OutputTree(files: map<Place, Bytes>): map<Path, Bytes> {
    map f | f in files && f.Output? :: f.rel := files[f]
  }

  /** The directories below the output. */
  function OutputDirs(dirs: set<Place>): set<Path> { set d | d in dirs && d.Output? && d.rel != [] :: d.rel }

  /** The directories the steps make below the output. */
  function MadeDirs(acts: seq<Act>): set<Path> { set a | a in acts && a.MakeDir? && a.path != [] :: a.path }

  function SidecarTree(files: map<Place, Bytes>): map<Path, Bytes> {
    map f | f in files && f.Sidecar? :: f.rel := files[f]
  }

  /** Each step goes into the output or into a directory that an earlier step made. */
  predicate Rooted(acts: seq<Act>) {
    forall i :: 0 <= i < |acts| && |acts[i].path| > 1 ==>
      exists j :: 0 <= j < i && acts[j].MakeDir? && acts[j].path == acts[i].path[..|acts[i].path| - 1]
  }

  /** Nothing but a fault can stop these steps. */
  predicate Doable(acts: seq<Act>) {
    AllMade(acts) && Distinct(ActPaths(acts)) && [] !in ActPaths(acts) && Rooted(acts)
  }

  lemma ParentAmong(acts: seq<Act>, i: nat, dirs: set<Place>)
    requires i < |acts| && Doable(acts) && OutputDirs(dirs) == MadeDirs(acts[..i]) && Output([]) in dirs
    ensures var p := acts[i].path; p != [] && Output(p[..|p| - 1]) in dirs
  {
    hide AllMade, Distinct;
    var p := acts[i].path;
    assert ActPaths(acts)[i] == p;
    if |p| > 1 {
      var j :| 0 <= j < i && acts[j].MakeDir? && acts[j].path == p[..|p| - 1];
      assert acts[..i][j] == acts[j];
      assert p[..|p| - 1] in MadeDirs(acts[..i]);
    } else {
      assert p[..|p| - 1] == [];
    }
  }

  predicate AllMade(acts: seq<Act>) { forall i :: 0 <= i < |acts| && acts[i].Put? ==> acts[i].data.Some? }

  /** The files the steps put down. */
  function Written(acts: seq<Act>): map<Path, Bytes>
    requires AllMade(acts)
  {
    if acts == [] then map[]
    else
      var last := acts[|acts| - 1];
      assert AllMade(acts[..|acts| - 1]);
      var before := Written(acts[..|acts| - 1]);
      if last.Put? then before[last.path := last.data.value] else before
  }

  function Copied(source: seq<(Path, Bytes)>): map<Path, Bytes> {
    if source == [] then map[] else Copied(source[..|source| - 1])[source[|source| - 1].0 := source[|source| - 1].1]
  }

  lemma NothingWritten()
    ensures AllMade([]) && Written([]) == map[] && MadeDirs([]) == {}
  {
  }

  lemma NoDirsYet(dirs: set<Place>)
    requires forall d :: d in dirs && d.Output? ==> d.rel == []
    ensures OutputDirs(dirs) == {}
  {
  }

  lemma OneMoreAct(acts: seq<Act>, i: nat)
    requires i < |acts| && AllMade(acts[..i])
    ensures AllMade(acts[..i + 1]) <==> acts[i].Put? ==> acts[i].data.Some?
    ensures AllMade(acts[..i + 1]) ==>
              Written(acts[..i + 1]) == if acts[i].Put? then Written(acts[..i])[acts[i].path := acts[i].data.value]
                  else Written(acts[..i])
    ensures AllMade(acts) ==> AllMade(acts[..i + 1])
    ensures MadeDirs(acts[..i + 1])
         == MadeDirs(acts[..i]) + if acts[i].MakeDir? && acts[i].path != [] then {acts[i].path} else {}
  {
    assert acts[..i + 1][..i] == acts[..i];
    assert acts[..i + 1] == acts[..i] + [acts[i]];
  }

  lemma FreshAct(acts: seq<Act>, i: nat)
    requires i < |acts|
    ensures Doable(acts) ==> (forall j :: 0 <= j < i ==> acts[j].path != acts[i].path) && acts[i].path != []
    ensures Doable(acts) && acts[i].Put? ==> acts[i].data.Some?
  {
    assert ActPaths(acts)[i] == acts[i].path;
    assert forall j :: 0 <= j < i ==> ActPaths(acts)[j] == acts[j].path;
  }

  lemma FreshCopy(source: seq<(Path, Bytes)>, i: nat)
    requires i < |source| && Apart(Paths(source))
    ensures forall j :: 0 <= j < i ==> !(source[i].0 <= source[j].0) && !(source[j].0 <= source[i].0)
  {
    assert forall j :: 0 <= j <= i ==> Paths(source)[j] == source[j].0;
  }

  lemma NothingCopied()
    ensures Copied([]) == map[]
  {
  }

  lemma OneMoreCopy(source: seq<(Path, Bytes)>, i: nat)
    requires i < |source|
    ensures Copied(source[..i + 1]) == Copied(source[..i])[source[i].0 := source[i].1]
  {
    assert source[..i + 1][..i] == source[..i];
  }

  lemma NothingYet(files: map<Place, Bytes>)
    requires forall f :: f in files ==> !f.Output?
    ensures Rest(files, true, false, None) == files && OutputTree(files) == map[]
  {
  }

  lemma NothingBeside(files: map<Place, Bytes>)
    requires forall f :: f in files ==> !f.Sidecar?
    ensures Rest(files, false, true, None) == files && SidecarTree(files) == map[]
  {
  }

  /** One file put into the output, whole or torn, changes nothing outside it. */
  lemma OnePut(was: map<Place, Bytes>, now: map<Place, Bytes>, path: Path)
    requires OnlyPut(was, now, Output(path))
    ensures Rest(now, true, false, None) == Rest(was, true, false, None)
    ensures Output(path) in now ==> OutputTree(now) == OutputTree(was)[path := now[Output(path)]]
  {
  }

  lemma OneCopy(was: map<Place, Bytes>, now: map<Place, Bytes>, path: Path)
    requires OnlyPut(was, now, Sidecar(path))
    ensures Rest(now, false, true, None) == Rest(was, false, true, None)
    ensures Sidecar(path) in now ==> SidecarTree(now) == SidecarTree(was)[path := now[Sidecar(path)]]
  {
  }

  lemma AfterBadName(name: string, before: map<Place, Bytes>, bundle: map<Place, Bytes>, full: map<Place, Bytes>,
                     sidecar: Option<seq<(Path, Bytes)>>)
    requires sidecar.Some? && !SafeName(name)
    requires Rest(bundle, true, false, None) == before && (forall f :: f in bundle ==> !f.Sidecar?)
    requires Rest(full, false, true, None) == bundle && SidecarTree(full) == Copied(sidecar.value)
    ensures Leaked(name, before, Rest(full, true, false, None), sidecar)
  {
    hide SafeName, Copied;
    assert forall f :: f in before ==> f in bundle;
    assert Rest(Rest(full, true, false, None), false, true, None) == Rest(bundle, true, false, None);
    assert SidecarTree(Rest(full, true, false, None)) == SidecarTree(full);
  }

  lemma OutputKept(bundle: map<Place, Bytes>, full: map<Place, Bytes>)
    requires Rest(full, false, true, None) == bundle
    ensures OutputTree(full) == OutputTree(bundle)
  {
    assert forall f :: f in bundle <==> f in full && !f.Sidecar?;
    assert forall f :: f in bundle ==> bundle[f] == full[f];
  }

  lemma AllTakenBack(before: map<Place, Bytes>, bundle: map<Place, Bytes>, full: map<Place, Bytes>,
                     last: map<Place, Bytes>, created: bool, manifest: Place)
    requires Rest(bundle, true, false, None) == before && manifest !in before && !manifest.Output?
    requires if created then Rest(full, false, true, None) == bundle && (forall f :: f in bundle ==> !f.Sidecar?)
             else full == bundle
    requires OnlyPut(full, last, manifest)
    ensures Rest(last, true, created, Some(manifest)) == before
  {
    var rest := Rest(last, true, created, Some(manifest));
    forall f ensures f in rest <==> f in before {
      assert f in bundle && !f.Output? <==> f in before;
    }
    forall f | f in before ensures rest[f] == before[f] {
      assert before[f] == bundle[f] == full[f];
    }
  }

  lemma FreeAbove(before: map<Place, Bytes>, bundle: map<Place, Bytes>, full: map<Place, Bytes>, above: set<Place>)
    requires Rest(bundle, true, false, None) == before && (full == bundle || Rest(full, false, true, None) == bundle)
    requires forall d :: d in above ==> d.Elsewhere? && d !in before
    ensures above !! full.Keys
  {
    forall d | d in above ensures d !in full {
      assert d in bundle <==> d in before;
    }
  }

  lemma AllThere(name: string, before: map<Place, Bytes>, bundle: map<Place, Bytes>, full: map<Place, Bytes>,
                 last: map<Place, Bytes>, dirs: set<Place>, acts: seq<Act>, sidecar: Option<seq<(Path, Bytes)>>,
                 manifest: Place, seal: (map<Path, Bytes>, set<Path>) -> Option<Bytes>)
    requires AllMade(acts) && OutputTree(bundle) == Written(acts) && OutputDirs(dirs) == MadeDirs(acts)
    requires Rest(bundle, true, false, None) == before && manifest !in before && !manifest.Output?
    requires if sidecar.Some? then Rest(full, false, true, None) == bundle && (forall f :: f in bundle ==> !f.Sidecar?)
             else full == bundle
    requires sidecar.Some? ==> SafeName(name) && SidecarTree(full) == Copied(sidecar.value)
    requires seal(OutputTree(full), OutputDirs(dirs)).Some? && manifest !in full
    requires last == full[manifest := seal(OutputTree(full), OutputDirs(dirs)).value]
    ensures Finished(name, before, last, dirs, acts, sidecar, manifest, seal)
  {
    hide SafeName, Copied, Written, AllMade, OutputDirs, MadeDirs, Rest, OutputTree, SidecarTree;
    AllTakenBack(before, bundle, full, last, sidecar.Some?, manifest);
    if sidecar.Some? { OutputKept(bundle, full); }
    ManifestBeside(full, last, manifest);
  }

  lemma ManifestBeside(full: map<Place, Bytes>, last: map<Place, Bytes>, manifest: Place)
    requires !manifest.Output? && manifest !in full && manifest in last && last == full[manifest := last[manifest]]
    ensures OutputTree(last) == OutputTree(full) && Rest(last, false, false, Some(manifest)) == full
  {
  }
}
