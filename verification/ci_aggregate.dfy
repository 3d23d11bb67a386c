/**
  scripts/ci_aggregate.py `validate_reports`: accepts the reports of all CI
  partitions when they describe one exact split of the discovered tests.  A JSON
  value of the wrong shape is an absent one.
*/
module CiAggregate {
  import opened Common
  import opened Sorting
  import opened CiVerify

  datatype Inventory<D> = Inventory(count: int, digest: D, ids: Option<seq<string>>)

  datatype Report<D> = Report(status: string, group: string, commit: string, targets: seq<string>,
                              discovered: Option<Inventory<D>>, selected: Option<Inventory<D>>,
                              deferred: Option<Inventory<D>>, tests: seq<(string, string)>)

  /** The report files of a directory, by group. */
  type Files<D> = string -> Option<Report<D>>

  /** test_id.split(".", 1)[0] */
  function First(id: string): string {
    if id == "" || id[0] == '.' then "" else [id[0]] + First(id[1..])
  }

  // ---- What acceptance means ----

  predicate Current<D>(c: Config<D>, files: Files<D>, group: string, commit: string) {
    && files(group).Some?
    && var r := files(group).value;
       r.status == "passed" && r.group == group && r.commit == commit
       && group in c.targets && r.targets == c.targets[group]
  }

  predicate Listed<D(==)>(c: Config<D>, inventory: Option<Inventory<D>>) {
    && inventory.Some? && inventory.value.ids.Some?
    && var ids := inventory.value.ids.value;
       Distinct(ids) && inventory.value.count == |ids| && inventory.value.digest == c.Digest(ids)
  }

  function Ids<D>(inventory: Option<Inventory<D>>): seq<string> {
    if inventory.Some? && inventory.value.ids.Some? then inventory.value.ids.value else []
  }

  function SelectedBy<D>(files: Files<D>, group: string): seq<string> {
    if files(group).Some? then Ids(files(group).value.selected) else []
  }

  function DeferredBy<D>(files: Files<D>, group: string): seq<string> {
    if files(group).Some? then Ids(files(group).value.deferred) else []
  }

  function UnitLists<D>(c: Config<D>, of: string -> seq<string>): seq<seq<string>> {
    seq(|c.units|, i requires 0 <= i < |c.units| => of(c.units[i]))
  }

  function SelectedLists<D>(c: Config<D>, files: Files<D>): seq<seq<string>> { UnitLists(c, u => SelectedBy(files, u)) }

  function DeferredLists<D>(c: Config<D>, files: Files<D>): seq<seq<string>> { UnitLists(c, u => DeferredBy(files, u)) }

  predicate Apart(a: seq<string>, b: seq<string>) { forall x :: x in a ==> x !in b }

  predicate PairwiseApart(lists: seq<seq<string>>) {
    forall i, j :: 0 <= i < j < |lists| ==> Apart(lists[i], lists[j])
  }

  /** Every id sits in the list of the shard its first component hashes to. */
  predicate InPlace<D>(c: Config<D>, lists: seq<seq<string>>)
    requires c.base > 0
  {
    forall i, id :: 0 <= i < |lists| && id in lists[i] ==> c.UnitShard(First(id)) == i
  }

  predicate DiscoveredBy<D(==)>(files: Files<D>, group: string, count: int, digest: D) {
    && files(group).Some? && files(group).value.discovered.Some?
    && var d := files(group).value.discovered.value;
       d.count == count && d.digest == digest
  }

  /** The owner selects exactly the deferred cases of its modules. */
  ghost predicate TakenOver<D>(files: Files<D>, owner: Owner, deferred: seq<string>) {
    forall id :: First(id) in owner.modules ==> (id in SelectedBy(files, owner.group) <==> id in deferred)
  }

  function Passed<D>(files: Files<D>, group: string): seq<string> {
    if files(group).Some? then PassedIn(files(group).value.tests) else []
  }

  /** The names of the tests that the report lists as passed. */
  function PassedIn(tests: seq<(string, string)>): (names: seq<string>)
    ensures forall t :: t in names <==> (t, "passed") in tests
  {
    if tests == [] then []
    else (if tests[0].1 == "passed" then [tests[0].0] else []) + PassedIn(tests[1..])
  }

  predicate RequiredPassed<D>(c: Config<D>, files: Files<D>, group: string) {
    group in c.required ==> forall t :: t in c.required[group] ==> t in Passed(files, group)
  }

  ghost predicate OwnerOk<D>(c: Config<D>, files: Files<D>, owner: Owner) {
    && files(owner.group).Some? && Listed(c, files(owner.group).value.selected)
    && TakenOver(files, owner, Concat(DeferredLists(c, files)))
    && RequiredPassed(c, files, owner.group)
  }

  ghost predicate UnitListed<D>(c: Config<D>, files: Files<D>, u: string) {
    files(u).Some? && Listed(c, files(u).value.selected) && Listed(c, files(u).value.deferred)
  }

  /** The union of the unit inventories is the discovered one. */
  ghost predicate Covers<D>(c: Config<D>, files: Files<D>, count: int, digest: D) {
    var union := Concat(SelectedLists(c, files)) + Concat(DeferredLists(c, files));
    |union| == count && c.Digest(union) == digest
  }

  ghost predicate Separate<D>(c: Config<D>, files: Files<D>)
    requires c.base > 0
  {
    var selected, deferred := SelectedLists(c, files), DeferredLists(c, files);
    && PairwiseApart(selected) && PairwiseApart(deferred) && Apart(Concat(selected), Concat(deferred))
    && InPlace(c, selected) && InPlace(c, deferred)
    && forall id :: id in Concat(deferred) ==> c.Rehomed(First(id))
  }

  ghost predicate Acceptable<D>(c: Config<D>, files: Files<D>, commit: string)
    requires c.Valid()
  {
    && (forall g :: g in c.groups ==> Current(c, files, g, commit))
    && SameDiscovered(c, files)
    && (forall u :: u in c.units ==> UnitListed(c, files, u))
    && Separate(c, files)
    && (forall i :: 0 <= i < |c.rehomed| ==> OwnerOk(c, files, c.rehomed[i]))
    && var d := files(c.units[0]).value.discovered.value; Covers(c, files, d.count, d.digest)
  }

  ghost predicate SameDiscovered<D>(c: Config<D>, files: Files<D>)
    requires c.Valid()
  {
    && files(c.units[0]).Some? && files(c.units[0]).value.discovered.Some?
    && var d := files(c.units[0]).value.discovered.value;
       d.count > 0 && forall u :: u in c.units ==> DiscoveredBy(files, u, d.count, d.digest)
  }

  // ---- The checks ----

  method CheckInventory<D(==)>(c: Config<D>, inventory: Option<Inventory<D>>) returns (ok: bool)
    ensures ok <==> Listed(c, inventory)
  {
    if inventory.None? || inventory.value.count < 0 || inventory.value.ids.None? {
      return false;
    }
    var ids := inventory.value.ids.value;
    DistinctCount(ids);
    if |ids| != |set id | id in ids| || inventory.value.count != |ids| {
      return false;
    }
    return inventory.value.digest == c.Digest(ids);
  }

  method CheckCurrent<D>(c: Config<D>, files: Files<D>, commit: string) returns (ok: bool)
    ensures ok <==> forall g :: g in c.groups ==> Current(c, files, g, commit)
  {
    for i := 0 to |c.groups|
      invariant forall j :: 0 <= j < i ==> Current(c, files, c.groups[j], commit)
    {
      var group := c.groups[i];
      assert group in c.groups && (files(group).None? ==> !Current(c, files, group, commit));
      if files(group).None? {
        return false;
      }
      var report := files(group).value;
      if report.status != "passed" || report.group != group || report.commit != commit {
        return false;
      }
      if group !in c.targets || report.targets != c.targets[group] {
        return false;
      }
    }
    return true;
  }

  method CheckDiscovered<D(==)>(c: Config<D>, files: Files<D>) returns (ok: bool)
    requires c.Valid()
    ensures ok <==> SameDiscovered(c, files)
  {
    assert |c.units| > 0;
    if files(c.units[0]).None? || files(c.units[0]).value.discovered.None? {
      return false;
    }
    var expected := files(c.units[0]).value.discovered.value;
    if expected.count <= 0 {
      return false;
    }
    for i := 0 to |c.units|
      invariant forall j :: 0 <= j < i ==> DiscoveredBy(files, c.units[j], expected.count, expected.digest)
    {
      var report := files(c.units[i]);
      assert c.units[i] in c.units;
      if report.None? || report.value.discovered.None? || report.value.discovered.value.count != expected.count
         || report.value.discovered.value.digest != expected.digest {
        assert !DiscoveredBy(files, c.units[i], expected.count, expected.digest);
        return false;
      }
    }
    return true;
  }

  method CheckUnits<D(==)>(c: Config<D>, files: Files<D>) returns (ok: bool)
    ensures ok <==> forall u :: u in c.units ==> UnitListed(c, files, u)
  {
    hide Listed;
    for i := 0 to |c.units|
      invariant forall j :: 0 <= j < i ==> UnitListed(c, files, c.units[j])
    {
      var r := files(c.units[i]);
      if r.None? {
        assert !UnitListed(c, files, c.units[i]);
        return false;
      }
      var selected := CheckInventory(c, r.value.selected);
      var deferred := CheckInventory(c, r.value.deferred);
      if !(selected && deferred) {
        assert !UnitListed(c, files, c.units[i]);
        return false;
      }
    }
    return true;
  }

  /** The overlap loop: each list against the union of the later ones. */
  method CheckApart(lists: seq<seq<string>>) returns (ok: bool)
    ensures ok <==> PairwiseApart(lists)
  {
    hide Apart;
    for i := 0 to |lists|
      invariant forall k, j :: 0 <= k < i && k < j < |lists| ==> Apart(lists[k], lists[j])
    {
      var later := UnionFrom(lists, i + 1);
      var overlap := set x | x in lists[i] && x in later;
      ApartFromLater(lists, i, later);
      if overlap != {} {
        ghost var x :| x in overlap;
        return false;
      }
      assert forall x :: x in lists[i] ==> x !in overlap;
    }
    return true;
  }

  method UnionFrom(lists: seq<seq<string>>, from: nat) returns (union: set<string>)
    requires from <= |lists|
    ensures forall x :: x in union <==> exists j :: from <= j < |lists| && x in lists[j]
  {
    union := {};
    for j := from to |lists|
      invariant forall x :: x in union <==> exists k :: from <= k < j && x in lists[k]
    {
      union := union + set x | x in lists[j];
    }
  }

  lemma ApartFromLater(lists: seq<seq<string>>, i: nat, later: set<string>)
    requires i < |lists| && forall x :: x in later <==> exists j :: i + 1 <= j < |lists| && x in lists[j]
    ensures (forall x :: x in lists[i] ==> x !in later) <==> forall j :: i < j < |lists| ==> Apart(lists[i], lists[j])
  {
  }

  method CheckInPlace<D>(c: Config<D>, lists: seq<seq<string>>) returns (ok: bool)
    requires c.base > 0
    ensures ok <==> InPlace(c, lists)
  {
    for i := 0 to |lists|
      invariant InPlace(c, lists[..i])
    {
      var misplaced := set id | id in lists[i] && c.UnitShard(First(id)) != i;
      if misplaced != {} {
        ghost var id :| id in misplaced;
        return false;
      }
      assert forall id :: id in lists[i] ==> id !in misplaced;
    }
    assert lists[..|lists|] == lists;
    return true;
  }

  method CheckOwner<D(==)>(c: Config<D>, files: Files<D>, owner: Owner, deferred: seq<string>) returns (ok: bool)
    requires deferred == Concat(DeferredLists(c, files))
    ensures ok <==> OwnerOk(c, files, owner)
  {
    hide Listed, First, Concat, DeferredLists;
    if files(owner.group).None? {
      return false;
    }
    var report := files(owner.group).value;
    var listed := CheckInventory(c, report.selected);
    if !listed {
      return false;
    }
    var linked := set id | id in Ids(report.selected) && First(id) in owner.modules;
    var expected := set id | id in deferred && First(id) in owner.modules;
    SameModuleIds(files, owner, deferred, linked, expected);
    if linked != expected {
      return false;
    }
    var required := if owner.group in c.required then c.required[owner.group] else [];
    var missing := set t | t in required && t !in PassedIn(report.tests);
    if missing != {} {
      ghost var t :| t in missing;
      return false;
    }
    assert forall t :: t in required ==> t !in missing;
    return true;
  }

  lemma SameModuleIds<D>(files: Files<D>, owner: Owner, deferred: seq<string>, linked: set<string>,
                         expected: set<string>)
    requires linked == set id | id in SelectedBy(files, owner.group) && First(id) in owner.modules
    requires expected == set id | id in deferred && First(id) in owner.modules
    ensures linked == expected <==> TakenOver(files, owner, deferred)
  {
    hide First;
    if linked == expected {
      forall id | First(id) in owner.modules ensures id in SelectedBy(files, owner.group) <==> id in deferred {
        assert id in linked <==> id in expected;
      }
    }
  }

  /** The ids whose first component is one of the modules. */
  function OfModules(ids: seq<string>, modules: seq<string>): seq<string> {
    if ids == [] then [] else (if First(ids[0]) in modules then [ids[0]] else []) + OfModules(ids[1..], modules)
  }

  lemma {:induction false} OfModulesExactly(ids: seq<string>, modules: seq<string>, id: string)
    ensures multiset(OfModules(ids, modules))[id] == if First(id) in modules then multiset(ids)[id] else 0
  {
    if ids == [] {
    } else {
      hide First;
      var first, rest := ids[0], OfModules(ids[1..], modules);
      OfModulesExactly(ids[1..], modules, id);
      assert ids == [first] + ids[1..];
      if First(first) in modules {
        assert OfModules(ids, modules) == [first] + rest;
      } else {
        assert OfModules(ids, modules) == [] + rest == rest;
      }
    }
  }

  /** What the summary says each owner took over. */
  function Reassigned<D>(c: Config<D>, files: Files<D>, owners: nat): seq<(nat, D)>
    requires owners <= |c.rehomed|
  {
    seq(owners, i requires 0 <= i < |c.rehomed| =>
      var ids := OfModules(Concat(DeferredLists(c, files)), c.rehomed[i].modules); (|ids|, c.Digest(ids)))
  }

  method CheckOwners<D(==)>(c: Config<D>, files: Files<D>, deferred: seq<string>)
    returns (ok: bool, reassigned: seq<(nat, D)>)
    requires deferred == Concat(DeferredLists(c, files))
    ensures ok <==> forall i :: 0 <= i < |c.rehomed| ==> OwnerOk(c, files, c.rehomed[i])
    ensures ok ==> reassigned == Reassigned(c, files, |c.rehomed|)
  {
    hide OwnerOk, First, Concat, DeferredLists, c.Digest;
    reassigned := [];
    for i := 0 to |c.rehomed|
      invariant forall j :: 0 <= j < i ==> OwnerOk(c, files, c.rehomed[j])
      invariant reassigned == Reassigned(c, files, i)
    {
      var owned := CheckOwner(c, files, c.rehomed[i], deferred);
      if !owned {
        return false, [];
      }
      var group := OfModules(deferred, c.rehomed[i].modules);
      reassigned := reassigned + [(|group|, c.Digest(group))];
    }
    return true, reassigned;
  }

  /** Sets of ids are duplicate-free lists here: once no two inventories overlap,
      their union is their concatenation. */
  method ValidateReports<D(==)>(c: Config<D>, files: Files<D>, commit: string) returns (result: Result<seq<(nat, D)>>)
    requires c.Valid()
    ensures result.Ok? <==> Acceptable(c, files, commit)
    ensures result.Ok? ==> result.value == Reassigned(c, files, |c.rehomed|)
  {
    hide Current, Listed, OwnerOk, PairwiseApart, InPlace, First, UnitListed, DiscoveredBy, SelectedLists,
         DeferredLists, Concat;
    var current := CheckCurrent(c, files, commit);
    var alike := CheckDiscovered(c, files);
    var listed := CheckUnits(c, files);
    if !(current && alike && listed) {
      return Rejected;
    }
    var expected := files(c.units[0]).value.discovered.value;
    var separate := CheckSeparate(c, files);
    if !separate {
      return Rejected;
    }
    var deferredIds := Concat(DeferredLists(c, files));
    var owned, reassigned := CheckOwners(c, files, deferredIds);
    if !owned {
      return Rejected;
    }
    var union := Concat(SelectedLists(c, files)) + deferredIds;
    if |union| != expected.count || c.Digest(union) != expected.digest {
      return Rejected;
    }
    return Ok(reassigned);
  }

  method CheckSeparate<D>(c: Config<D>, files: Files<D>) returns (ok: bool)
    requires c.base > 0
    ensures ok <==> Separate(c, files)
  {
    hide PairwiseApart, InPlace, First, c.Rehomed, SelectedLists, DeferredLists, Concat;
    var selected, deferred := SelectedLists(c, files), DeferredLists(c, files);
    var selectedIds, deferredIds := Concat(selected), Concat(deferred);
    var selectedApart := CheckApart(selected);
    var deferredApart := CheckApart(deferred);
    var both := CheckApart([selectedIds, deferredIds]);
    var selectedPlaced := CheckInPlace(c, selected);
    var deferredPlaced := CheckInPlace(c, deferred);
    var unowned := set id | id in deferredIds && !c.Rehomed(First(id));
    TwoApart(selectedIds, deferredIds);
    if unowned != {} {
      ghost var id :| id in unowned;
      return false;
    }
    assert forall id :: id in deferredIds ==> id !in unowned;
    return selectedApart && deferredApart && both && selectedPlaced && deferredPlaced;
  }

  lemma TwoApart(a: seq<string>, b: seq<string>)
    ensures PairwiseApart([a, b]) <==> Apart(a, b)
  {
    hide Apart;
    assert [a, b][0] == a && [a, b][1] == b;
  }

  // ---- Joining lines loses nothing when there are no newlines inside ----

  predicate Clean(ids: seq<string>) { forall id :: id in ids ==> '\n' !in id }

  function Newlines(s: string): nat { if s == "" then 0 else (if s[0] == '\n' then 1 else 0) + Newlines(s[1..]) }

  lemma {:induction false} NewlinesConcat(a: string, b: string)
    ensures Newlines(a + b) == Newlines(a) + Newlines(b)
  {
    if a == "" {
      assert a + b == b;
    } else {
      NewlinesConcat(a[1..], b);
      assert (a + b)[1..] == a[1..] + b;
    }
  }

  lemma {:induction false} NewlineFree(s: string)
    ensures Newlines(s) == 0 <==> '\n' !in s
  {
    if s == "" {
    } else {
      NewlineFree(s[1..]);
      assert s == [s[0]] + s[1..];
    }
  }

  /** A joined list has one newline less than it has lines, exactly when no line
      has one of its own. */
  lemma {:induction false} JoinedNewlines(lines: seq<string>)
    requires lines != []
    ensures Newlines(JoinLines(lines)) >= |lines| - 1
    ensures Newlines(JoinLines(lines)) == |lines| - 1 <==> Clean(lines)
  {
    NewlineFree(lines[0]);
    if |lines| > 1 {
      var rest := JoinLines(lines[1..]);
      JoinedNewlines(lines[1..]);
      NewlinesConcat(lines[0] + "\n", rest);
      NewlinesConcat(lines[0], "\n");
      assert Newlines("\n") == 1;
      assert lines == [lines[0]] + lines[1..];
    }
  }

  /** Lists of equal length with one joined text are equal when one is clean. */
  lemma JoinInjective(a: seq<string>, b: seq<string>)
    requires |a| == |b| && Clean(b) && JoinLines(a) == JoinLines(b)
    ensures a == b
  {
    if a != [] {
      JoinedNewlines(a);
      JoinedNewlines(b);
      CleanJoinInjective(a, b);
    }
  }

  lemma {:induction false} CleanJoinInjective(a: seq<string>, b: seq<string>)
    requires |a| == |b| && Clean(a) && Clean(b) && JoinLines(a) == JoinLines(b)
    ensures a == b
  {
    if |a| > 1 {
      var text := JoinLines(a);
      assert text == a[0] + "\n" + JoinLines(a[1..]) == b[0] + "\n" + JoinLines(b[1..]);
      SameHead(a[0], JoinLines(a[1..]), b[0], JoinLines(b[1..]));
      CleanJoinInjective(a[1..], b[1..]);
      assert a == [a[0]] + a[1..] && b == [b[0]] + b[1..];
    } else if |a| == 1 {
      assert a == [a[0]] && b == [b[0]];
    }
  }

  lemma SameHead(a: string, restA: string, b: string, restB: string)
    requires '\n' !in a && '\n' !in b && a + "\n" + restA == b + "\n" + restB
    ensures a == b && restA == restB
  {
    var text := a + "\n" + restA;
    assert text[|a|] == '\n' && text[|b|] == '\n';
    assert forall i :: 0 <= i < |a| ==> text[i] == a[i] && a[i] in a;
    assert forall i :: 0 <= i < |b| ==> text[i] == b[i] && b[i] in b;
    assert a == text[..|a|] && b == text[..|b|];
    assert restA == text[|a| + 1..] && restB == text[|b| + 1..];
  }

  // ---- Accepted reports describe an exact split ----

  ghost predicate Injective<D>(f: string -> D) { forall a, b :: f(a) == f(b) ==> a == b }

  /** A digest with the count fixes a clean list up to order. */
  lemma DigestFixes<D>(c: Config<D>, xs: seq<string>, ys: seq<string>)
    requires Injective(c.sha) && |xs| == |ys| && Clean(ys) && c.Digest(xs) == c.Digest(ys)
    ensures multiset(xs) == multiset(ys)
  {
    var a, b := Sort(xs, StrLess), Sort(ys, StrLess);
    StrLessStrictTotal();
    SortProperties(xs, StrLess);
    SortProperties(ys, StrLess);
    assert |a| == |multiset(a)| == |multiset(xs)| == |xs|;
    assert |b| == |multiset(b)| == |multiset(ys)| == |ys|;
    forall id | id in b ensures '\n' !in id {
      assert id in multiset(b);
      assert id in multiset(ys);
      assert id in ys;
    }
    JoinInjective(a, b);
  }

  lemma {:induction false} ConcatDistinct(lists: seq<seq<string>>)
    requires PairwiseApart(lists) && forall i :: 0 <= i < |lists| ==> Distinct(lists[i])
    ensures Distinct(Concat(lists))
    ensures forall x :: x in Concat(lists) <==> exists i :: 0 <= i < |lists| && x in lists[i]
  {
    if lists == [] {
    } else {
      var rest := lists[1..];
      assert forall i :: 0 <= i < |rest| ==> rest[i] == lists[i + 1];
      assert PairwiseApart(rest);
      ConcatDistinct(rest);
      assert lists == [lists[0]] + rest;
      assert forall x :: x in lists[0] ==> x !in Concat(rest);
      DistinctBoth(lists[0], Concat(rest));
    }
  }

  lemma DistinctBoth(a: seq<string>, b: seq<string>)
    requires Distinct(a) && Distinct(b) && Apart(a, b)
    ensures Distinct(a + b)
  {
    forall i, j | 0 <= i < j < |a + b| ensures (a + b)[i] != (a + b)[j] {
      if i < |a| && j >= |a| {
        assert a[i] in a && b[j - |a|] in b;
      }
    }
  }

  /** The id is listed by one unit, as selected or as deferred but not both, and
      by no other unit. */
  ghost predicate PlacedOnce<D>(c: Config<D>, files: Files<D>, id: string)
    requires c.Valid()
  {
    var at := c.UnitShard(First(id));
    && at < |c.units|
    && (id in SelectedBy(files, c.units[at]) <==> id !in DeferredBy(files, c.units[at]))
    && forall i :: 0 <= i < |c.units| && i != at ==>
         id !in SelectedBy(files, c.units[i]) && id !in DeferredBy(files, c.units[i])
  }

  /** One owner of the module exists and lists the id, once. */
  ghost predicate TakenOnce<D>(c: Config<D>, files: Files<D>, id: string) {
    var at := c.OwnerOf(First(id));
    && at < |c.rehomed| && id in SelectedBy(files, c.rehomed[at].group)
       && Distinct(SelectedBy(files, c.rehomed[at].group))
    && forall i :: 0 <= i < |c.rehomed| && First(id) in c.rehomed[i].modules ==> i == at
  }

  lemma UnionDistinct<D>(c: Config<D>, files: Files<D>)
    requires c.Valid() && Separate(c, files) && forall u :: u in c.units ==> UnitListed(c, files, u)
    ensures var selected, deferred := SelectedLists(c, files), DeferredLists(c, files);
            && Distinct(Concat(selected) + Concat(deferred))
            && (forall x :: x in Concat(selected) <==> exists i :: 0 <= i < |selected| && x in selected[i])
            && (forall x :: x in Concat(deferred) <==> exists i :: 0 <= i < |deferred| && x in deferred[i])
  {
    hide PairwiseApart, InPlace, Concat, First, c.Rehomed, Apart;
    var selected, deferred := SelectedLists(c, files), DeferredLists(c, files);
    forall i | 0 <= i < |c.units| ensures Distinct(selected[i]) && Distinct(deferred[i]) {
      assert UnitListed(c, files, c.units[i]);
      assert selected[i] == SelectedBy(files, c.units[i]) && deferred[i] == DeferredBy(files, c.units[i]);
    }
    ConcatDistinct(selected);
    ConcatDistinct(deferred);
    DistinctBoth(Concat(selected), Concat(deferred));
  }

  /** Accepted reports place every discovered test once, and every deferred test
      with its one linked owner.  `all` is what the discovered inventory counts
      and digests; test ids have no newline. */
  lemma AcceptedIsSplit<D>(c: Config<D>, files: Files<D>, commit: string, all: seq<string>)
    requires c.Valid() && Injective(c.sha) && Acceptable(c, files, commit)
    requires Clean(all) && DiscoveredBy(files, c.units[0], |all|, c.Digest(all))
    ensures Distinct(all)
    ensures multiset(Concat(SelectedLists(c, files))) + multiset(Concat(DeferredLists(c, files))) == multiset(all)
    ensures forall id :: id in all ==> PlacedOnce(c, files, id)
    ensures forall id :: id in Concat(DeferredLists(c, files)) ==> id in all && TakenOnce(c, files, id)
  {
    hide Current, OwnerOk, Separate, First, UnitListed, PlacedOnce, TakenOnce, Concat, c.Digest, SelectedLists,
         DeferredLists;
    var selected, deferred := Concat(SelectedLists(c, files)), Concat(DeferredLists(c, files));
    UnionDistinct(c, files);
    DigestFixes(c, selected + deferred, all);
    DistinctAlike(selected + deferred, all);
    forall id | id in all ensures PlacedOnce(c, files, id) {
      assert id in multiset(all);
      assert id in multiset(selected + deferred);
      PlacedFromUnion(c, files, id);
    }
    forall id | id in deferred ensures id in all && TakenOnce(c, files, id) {
      assert id in selected + deferred;
      assert id in multiset(selected + deferred);
      TakenFromDeferred(c, files, id);
    }
  }

  lemma PlacedFromUnion<D>(c: Config<D>, files: Files<D>, id: string)
    requires c.Valid() && Separate(c, files) && forall u :: u in c.units ==> UnitListed(c, files, u)
    requires id in Concat(SelectedLists(c, files)) + Concat(DeferredLists(c, files))
    ensures PlacedOnce(c, files, id)
  {
    hide First, UnitListed, Concat, PairwiseApart, c.Rehomed;
    UnionDistinct(c, files);
    var selected, deferred := SelectedLists(c, files), DeferredLists(c, files);
    assert forall i :: 0 <= i < |c.units| ==>
             selected[i] == SelectedBy(files, c.units[i]) && deferred[i] == DeferredBy(files, c.units[i]);
  }

  lemma TakenFromDeferred<D>(c: Config<D>, files: Files<D>, id: string)
    requires c.Valid() && Separate(c, files) && id in Concat(DeferredLists(c, files))
    requires forall i :: 0 <= i < |c.rehomed| ==> OwnerOk(c, files, c.rehomed[i])
    ensures TakenOnce(c, files, id)
  {
    hide First, Concat, PairwiseApart, InPlace, Apart, SelectedLists, DeferredLists;
    assert c.Rehomed(First(id));
    var at := c.OwnerOf(First(id));
    assert OwnerOk(c, files, c.rehomed[at]);
  }

  // ---- Honest reports are accepted ----

  function IdsOf(cases: seq<Test>): seq<string> {
    if cases == [] then [] else (if cases[0].Case? then [cases[0].id] else []) + IdsOf(cases[1..])
  }

  /** The id of a case starts with the module of its class. */
  predicate IdsNameModules(cases: seq<Test>) {
    forall t :: t in cases && t.Case? ==> First(t.id) == t.mod
  }

  /** What the producer's _inventory writes for a list of ids. */
  function IdInventory<D>(c: Config<D>, ids: seq<string>): Inventory<D> {
    Inventory(|ids|, c.Digest(ids), Some(Sort(ids, StrLess)))
  }

  lemma SortedIds(ids: seq<string>)
    ensures multiset(Sort(ids, StrLess)) == multiset(ids)
    ensures |Sort(ids, StrLess)| == |ids|
    ensures Sort(Sort(ids, StrLess), StrLess) == Sort(ids, StrLess)
  {
    StrLessStrictTotal();
    SortProperties(ids, StrLess);
    assert |Sort(ids, StrLess)| == |multiset(Sort(ids, StrLess))|;
    assert |ids| == |multiset(ids)|;
    SortUnique(Sort(ids, StrLess), ids, StrLess);
  }

  /** An inventory is refused only for duplicates. */
  lemma InventoryListed<D>(c: Config<D>, ids: seq<string>)
    ensures Listed(c, Some(IdInventory(c, ids))) <==> Distinct(ids)
  {
    hide Distinct;
    SortedIds(ids);
    if Distinct(ids) { DistinctAlike(ids, Sort(ids, StrLess)); }
    if Distinct(Sort(ids, StrLess)) { DistinctAlike(Sort(ids, StrLess), ids); }
  }

  lemma {:induction false} ChosenIds(cases: seq<Test>, wanted: string -> bool, id: string)
    requires IdsNameModules(cases)
    ensures IdsNameModules(Chosen(cases, wanted))
    ensures multiset(IdsOf(Chosen(cases, wanted)))[id] == if wanted(First(id)) then multiset(IdsOf(cases))[id] else 0
  {
    hide First;
    if cases == [] {
    } else {
      assert cases == [cases[0]] + cases[1..];
      ChosenIds(cases[1..], wanted, id);
      var kept := Chosen(cases[1..], wanted);
      if cases[0].Case? {
        assert First(cases[0].id) == cases[0].mod;
        assert ([cases[0]] + kept)[1..] == kept;
      }
      assert [] + kept == kept;
      assert IdsOf(Chosen(cases, wanted))
          == (if cases[0].Case? && wanted(cases[0].mod) then [cases[0].id] else []) + IdsOf(kept);
    }
  }

  /** How often a unit partition lists an id. */
  lemma PartIds<D>(c: Config<D>, suite: seq<Test>, shard: nat, deferred: bool, id: string)
    requires c.base > 0 && IdsNameModules(Cases(suite))
    ensures multiset(IdsOf(Cases(UnitPart(c, suite, shard, deferred))))[id]
         == if c.UnitShard(First(id)) == shard && c.Rehomed(First(id)) == deferred
            then multiset(IdsOf(Cases(suite)))[id] else 0
  {
    hide Cases, UnitPart, First, IdsOf, Chosen;
    UnitPartCases(c, suite, shard, deferred);
    ChosenIds(Cases(suite), InShard(c, shard), id);
    ChosenIds(Chosen(Cases(suite), InShard(c, shard)), m => c.Rehomed(m) == deferred, id);
  }

  ghost predicate HonestUnit<D>(c: Config<D>, files: Files<D>, suite: seq<Test>, i: nat)
    requires c.base > 0 && i < |c.units|
  {
    var all := IdsOf(Cases(suite));
    && files(c.units[i]).Some?
    && var r := files(c.units[i]).value;
       && r.discovered == Some(Inventory(|all|, c.Digest(all), None))
       && r.selected == Some(IdInventory(c, IdsOf(Cases(UnitPart(c, suite, i, false)))))
       && r.deferred == Some(IdInventory(c, IdsOf(Cases(UnitPart(c, suite, i, true)))))
  }

  ghost predicate Honest<D>(c: Config<D>, files: Files<D>, suite: seq<Test>)
    requires c.base > 0
  {
    forall i :: 0 <= i < |c.units| ==> HonestUnit(c, files, suite, i)
  }

  function Lists<D>(c: Config<D>, files: Files<D>, deferred: bool): seq<seq<string>> {
    if deferred then DeferredLists(c, files) else SelectedLists(c, files)
  }

  /** How often an honest unit report lists an id. */
  lemma HonestList<D>(c: Config<D>, files: Files<D>, suite: seq<Test>, deferred: bool, id: string, i: nat)
    requires c.Valid() && Honest(c, files, suite) && IdsNameModules(Cases(suite)) && i < |c.units|
    ensures |Lists(c, files, deferred)| == |c.units|
    ensures multiset(Lists(c, files, deferred)[i])[id]
         == if c.UnitShard(First(id)) == i && c.Rehomed(First(id)) == deferred
            then multiset(IdsOf(Cases(suite)))[id] else 0
  {
    hide Cases, UnitPart, First, IdsOf, c.Digest, IdsNameModules;
    assert HonestUnit(c, files, suite, i);
    PartIds(c, suite, i, deferred, id);
    SortedIds(IdsOf(Cases(UnitPart(c, suite, i, deferred))));
  }

  lemma HonestUnion<D>(c: Config<D>, files: Files<D>, suite: seq<Test>, deferred: bool, id: string)
    requires c.Valid() && Honest(c, files, suite) && IdsNameModules(Cases(suite))
    ensures multiset(Concat(Lists(c, files, deferred)))[id] ==
            if c.Rehomed(First(id)) == deferred then multiset(IdsOf(Cases(suite)))[id] else 0
  {
    hide Cases, First, IdsOf, IdsNameModules, Honest, Concat;
    var lists, at := Lists(c, files, deferred), c.UnitShard(First(id));
    assert |lists| == |c.units|;
    forall i | 0 <= i < |lists| && i != at ensures id !in lists[i] {
      HonestList(c, files, suite, deferred, id, i);
      assert id !in multiset(lists[i]);
    }
    HonestList(c, files, suite, deferred, id, at);
    ConcatCount(lists, id, at);
  }

  lemma HonestCover<D>(c: Config<D>, files: Files<D>, suite: seq<Test>)
    requires c.Valid() && Honest(c, files, suite) && IdsNameModules(Cases(suite))
    ensures var all, union := IdsOf(Cases(suite)), Concat(SelectedLists(c, files)) + Concat(DeferredLists(c, files));
            multiset(union) == multiset(all) && Covers(c, files, |all|, c.Digest(all))
  {
    hide Cases, First, IdsOf, IdsNameModules, Honest, Concat, SelectedLists, DeferredLists;
    var all := IdsOf(Cases(suite));
    var selected, deferred := Concat(SelectedLists(c, files)), Concat(DeferredLists(c, files));
    forall id ensures multiset(selected + deferred)[id] == multiset(all)[id] {
      HonestUnion(c, files, suite, false, id);
      HonestUnion(c, files, suite, true, id);
      assert multiset(selected + deferred) == multiset(selected) + multiset(deferred);
    }
    assert multiset(selected + deferred) == multiset(all);
    assert |selected + deferred| == |multiset(selected + deferred)| == |multiset(all)| == |all|;
    StrLessStrictTotal();
    SortUnique(selected + deferred, all, StrLess);
  }

  lemma InPlaceApart<D>(c: Config<D>, lists: seq<seq<string>>)
    requires c.base > 0 && InPlace(c, lists)
    ensures PairwiseApart(lists)
  {
    hide First;
    forall i, j | 0 <= i < j < |lists| ensures Apart(lists[i], lists[j]) {
      forall x | x in lists[i] ensures x !in lists[j] {
        assert c.UnitShard(First(x)) == i;
      }
    }
  }

  lemma HonestInPlace<D>(c: Config<D>, files: Files<D>, suite: seq<Test>, deferred: bool)
    requires c.Valid() && Honest(c, files, suite) && IdsNameModules(Cases(suite))
    ensures InPlace(c, Lists(c, files, deferred)) && PairwiseApart(Lists(c, files, deferred))
  {
    hide Cases, First, IdsOf, IdsNameModules, Honest;
    var lists := Lists(c, files, deferred);
    assert |lists| == |c.units|;
    forall i, id | 0 <= i < |lists| && id in lists[i] ensures c.UnitShard(First(id)) == i {
      HonestList(c, files, suite, deferred, id, i);
      assert id in multiset(lists[i]);
    }
    InPlaceApart(c, lists);
  }

  lemma HonestMembers<D>(c: Config<D>, files: Files<D>, suite: seq<Test>, deferred: bool, id: string)
    requires c.Valid() && Honest(c, files, suite) && IdsNameModules(Cases(suite))
    ensures id in Concat(Lists(c, files, deferred)) <==> id in IdsOf(Cases(suite)) && c.Rehomed(First(id)) == deferred
  {
    hide Cases, First, IdsOf, IdsNameModules, Honest, Concat, c.Rehomed, Lists;
    HonestUnion(c, files, suite, deferred, id);
    assert id in multiset(Concat(Lists(c, files, deferred))) <==> id in Concat(Lists(c, files, deferred));
    assert id in multiset(IdsOf(Cases(suite))) <==> id in IdsOf(Cases(suite));
  }

  lemma HonestSeparate<D>(c: Config<D>, files: Files<D>, suite: seq<Test>)
    requires c.Valid() && Honest(c, files, suite) && IdsNameModules(Cases(suite))
    ensures Separate(c, files)
  {
    hide Cases, First, IdsOf, IdsNameModules, Honest, Concat, SelectedLists, DeferredLists, c.Rehomed, InPlace,
         PairwiseApart, c.Valid;
    HonestInPlace(c, files, suite, false);
    HonestInPlace(c, files, suite, true);
    forall id ensures
        && (id in Concat(SelectedLists(c, files)) ==> !c.Rehomed(First(id)))
        && (id in Concat(DeferredLists(c, files)) ==> c.Rehomed(First(id)))
    {
      HonestMembers(c, files, suite, false, id);
      HonestMembers(c, files, suite, true, id);
    }
  }

  lemma HonestListed<D>(c: Config<D>, files: Files<D>, suite: seq<Test>)
    requires c.Valid() && Honest(c, files, suite) && IdsNameModules(Cases(suite))
    ensures (forall u :: u in c.units ==> UnitListed(c, files, u)) <==> Distinct(IdsOf(Cases(suite)))
  {
    hide Cases, First, IdsOf, IdsNameModules, Honest, Concat, SelectedLists, DeferredLists, Separate, Distinct;
    var all := IdsOf(Cases(suite));
    if Distinct(all) {
      forall i | 0 <= i < |c.units| ensures UnitListed(c, files, c.units[i]) { DistinctParts(c, files, suite, i); }
    }
    if forall u :: u in c.units ==> UnitListed(c, files, u) {
      HonestSeparate(c, files, suite);
      UnionDistinct(c, files);
      HonestCover(c, files, suite);
      DistinctAlike(Concat(SelectedLists(c, files)) + Concat(DeferredLists(c, files)), all);
    }
  }

  lemma DistinctParts<D>(c: Config<D>, files: Files<D>, suite: seq<Test>, i: nat)
    requires c.Valid() && Honest(c, files, suite) && IdsNameModules(Cases(suite)) && i < |c.units|
    requires Distinct(IdsOf(Cases(suite)))
    ensures UnitListed(c, files, c.units[i])
  {
    hide Cases, First, IdsOf, IdsNameModules, UnitPart, Distinct, IdInventory, Listed;
    assert HonestUnit(c, files, suite, i);
    DistinctMultiset(IdsOf(Cases(suite)));
    DistinctPart(c, suite, i, false);
    DistinctPart(c, suite, i, true);
    InventoryListed(c, IdsOf(Cases(UnitPart(c, suite, i, false))));
    InventoryListed(c, IdsOf(Cases(UnitPart(c, suite, i, true))));
  }

  lemma DistinctPart<D>(c: Config<D>, suite: seq<Test>, i: nat, deferred: bool)
    requires c.base > 0 && IdsNameModules(Cases(suite)) && Distinct(IdsOf(Cases(suite)))
    ensures Distinct(IdsOf(Cases(UnitPart(c, suite, i, deferred))))
  {
    hide Cases, First, IdsOf, IdsNameModules, UnitPart, Distinct;
    var part := IdsOf(Cases(UnitPart(c, suite, i, deferred)));
    DistinctMultiset(IdsOf(Cases(suite)));
    forall id ensures multiset(part)[id] <= 1 { PartIds(c, suite, i, deferred, id); }
    AtMostOnce(part);
  }

  lemma AtMostOnce(ids: seq<string>)
    requires forall id :: multiset(ids)[id] <= 1
    ensures Distinct(ids)
  {
    forall i, j | 0 <= i < j < |ids| ensures ids[i] != ids[j] {
      assert multiset(ids)[ids[i]] <= 1;
      if ids[i] == ids[j] { CountTwice(ids, i, j); }
    }
  }

  lemma HonestDiscovered<D>(c: Config<D>, files: Files<D>, suite: seq<Test>)
    requires c.Valid() && Honest(c, files, suite)
    ensures var all := IdsOf(Cases(suite));
            && (SameDiscovered(c, files) <==> all != [])
            && files(c.units[0]).Some?
            && files(c.units[0]).value.discovered == Some(Inventory(|all|, c.Digest(all), None))
  {
    hide Cases, IdsOf, UnitPart, IdInventory, c.Digest;
    assert HonestUnit(c, files, suite, 0);
    forall u | u in c.units ensures DiscoveredBy(files, u, |IdsOf(Cases(suite))|, c.Digest(IdsOf(Cases(suite)))) {
      var i :| 0 <= i < |c.units| && c.units[i] == u;
      assert HonestUnit(c, files, suite, i);
    }
  }

  /** What a linked owner must report about a discovered suite. */
  ghost predicate OwnerHonest<D>(c: Config<D>, files: Files<D>, owner: Owner, linked: seq<string>, all: seq<string>) {
    && Distinct(linked)
    && (forall id :: First(id) in owner.modules ==> (id in linked <==> id in all))
    && RequiredPassed(c, files, owner.group)
  }

  lemma OwnerOkExactly<D>(c: Config<D>, files: Files<D>, suite: seq<Test>, k: nat, linked: seq<string>)
    requires c.Valid() && Honest(c, files, suite) && IdsNameModules(Cases(suite)) && k < |c.rehomed|
    requires files(c.rehomed[k].group).Some? && files(c.rehomed[k].group).value.selected == Some(IdInventory(c, linked))
    ensures OwnerOk(c, files, c.rehomed[k]) <==> OwnerHonest(c, files, c.rehomed[k], linked, IdsOf(Cases(suite)))
  {
    hide Cases, First, IdsOf, IdsNameModules, Honest, Concat, SelectedLists, DeferredLists, Distinct, Listed,
         RequiredPassed;
    var owner, all := c.rehomed[k], IdsOf(Cases(suite));
    InventoryListed(c, linked);
    SortedIds(linked);
    forall id ensures id in SelectedBy(files, owner.group) <==> id in linked {
      assert id in multiset(Sort(linked, StrLess)) <==> id in multiset(linked);
    }
    forall id | First(id) in owner.modules
      ensures id in Concat(DeferredLists(c, files)) <==> id in all
    {
      HonestMembers(c, files, suite, true, id);
      assert c.Rehomed(First(id));
    }
  }

  /** Reports written by the producer over one discovered suite are accepted
      exactly when the suite is not empty, its ids are distinct, and each linked
      owner selects the whole of its modules, once, with its required tests
      passed. */
  lemma HonestAccepted<D>(c: Config<D>, files: Files<D>, commit: string, suite: seq<Test>,
                          linked: string -> seq<string>)
    requires c.Valid() && Honest(c, files, suite) && IdsNameModules(Cases(suite))
    requires forall g :: g in c.groups ==> Current(c, files, g, commit)
    requires forall k :: 0 <= k < |c.rehomed| ==>
               files(c.rehomed[k].group).Some? &&
               files(c.rehomed[k].group).value.selected == Some(IdInventory(c, linked(c.rehomed[k].group)))
    ensures var all := IdsOf(Cases(suite));
            Acceptable(c, files, commit) <==>
              && all != [] && Distinct(all)
              && forall k :: 0 <= k < |c.rehomed| ==>
                   OwnerHonest(c, files, c.rehomed[k], linked(c.rehomed[k].group), all)
  {
    hide Cases, First, IdsOf, IdsNameModules, Current, Separate, Distinct, UnitListed, OwnerOk, OwnerHonest, Covers,
         IdInventory, SameDiscovered, Honest, c.Digest;
    HonestSeparate(c, files, suite);
    HonestCover(c, files, suite);
    HonestListed(c, files, suite);
    forall k | 0 <= k < |c.rehomed|
      ensures OwnerOk(c, files, c.rehomed[k])
         <==> OwnerHonest(c, files, c.rehomed[k], linked(c.rehomed[k].group), IdsOf(Cases(suite)))
    {
      OwnerOkExactly(c, files, suite, k, linked(c.rehomed[k].group));
    }
    HonestDiscovered(c, files, suite);
  }

  // ---- How many linked partitions select a deferred test ----

  predicate Linked<D>(c: Config<D>, g: string) { g in c.groups && g !in c.units }

  predicate Selects<D>(c: Config<D>, files: Files<D>, g: string, id: string) {
    Linked(c, g) && id in SelectedBy(files, g)
  }

  /** Exactly one linked partition selects the test. */
  ghost predicate SelectedOnce<D>(c: Config<D>, files: Files<D>, id: string) {
    && (exists g :: Selects(c, files, g, id))
    && forall g, h :: Selects(c, files, g, id) && Selects(c, files, h, id) ==> g == h
  }

  /** No linked partition lists a deferred test of a module it does not own. */
  ghost predicate NoStrangers<D>(c: Config<D>, files: Files<D>) {
    forall g, id :: Selects(c, files, g, id) && id in Concat(DeferredLists(c, files)) ==>
                      c.Rehomed(First(id)) && c.rehomed[c.OwnerOf(First(id))].group == g
  }

  /** Accepted reports have each deferred test selected by exactly one linked
      partition if and only if none lists a deferred test that it does not own. */
  lemma OneSelectorExactly<D>(c: Config<D>, files: Files<D>, commit: string)
    requires c.Valid() && Acceptable(c, files, commit)
    ensures (forall id :: id in Concat(DeferredLists(c, files)) ==> SelectedOnce(c, files, id))
            <==> NoStrangers(c, files)
  {
    hide Current, OwnerOk, First, UnitListed, Concat, c.Digest, SelectedLists, DeferredLists, SelectedBy, Covers,
         SameDiscovered;
    var deferred := Concat(DeferredLists(c, files));
    forall id | id in deferred
      ensures c.Rehomed(First(id)) && Selects(c, files, c.rehomed[c.OwnerOf(First(id))].group, id)
    {
      TakenFromDeferred(c, files, id);
    }
    if NoStrangers(c, files) {
      forall id | id in deferred ensures SelectedOnce(c, files, id) {}
    }
    if forall id :: id in deferred ==> SelectedOnce(c, files, id) {
      forall g, id | Selects(c, files, g, id) && id in deferred
        ensures c.Rehomed(First(id)) && c.rehomed[c.OwnerOf(First(id))].group == g
      {
        assert SelectedOnce(c, files, id);
      }
    }
  }

  function IndexIn(units: seq<string>, g: string): (i: nat)
    ensures i < |units| ==> units[i] == g
    ensures g in units ==> i < |units|
  {
    if units == [] || units[0] == g then 0 else 1 + IndexIn(units[1..], g)
  }

  function AllPassed(tests: seq<string>): seq<(string, string)> {
    if tests == [] then [] else [(tests[0], "passed")] + AllPassed(tests[1..])
  }

  /** Reports of a suite with one rehomed test: the units are honest, and every
      linked partition selects that test. */
  function Doubled<D>(c: Config<D>, commit: string, id: string): Files<D>
    requires c.base > 0
  {
    g =>
      var suite := [Case(id, First(id))];
      var unit := IndexIn(c.units, g);
      var listed := IdInventory(c, IdsOf(Cases(UnitPart(c, suite, unit, false))));
      var left := IdInventory(c, IdsOf(Cases(UnitPart(c, suite, unit, true))));
      var required := if g in c.required then c.required[g] else [];
      Some(Report("passed", g, commit, if g in c.targets then c.targets[g] else [],
                  Some(Inventory(1, c.Digest([id]), None)),
                  Some(if g in c.units then listed else IdInventory(c, [id])),
                  Some(left), AllPassed(required)))
  }

  lemma {:induction false} AllPassedPass(tests: seq<string>)
    ensures forall t :: t in tests ==> t in PassedIn(AllPassed(tests))
  {
    if tests == [] {
    } else {
      AllPassedPass(tests[1..]);
      var rows := AllPassed(tests);
      assert rows[0] == (tests[0], "passed") && rows[1..] == AllPassed(tests[1..]);
    }
  }

  lemma OneCase(id: string)
    ensures IdsOf(Cases([Case(id, First(id))])) == [id] && IdsNameModules(Cases([Case(id, First(id))]))
  {
    var t := Case(id, First(id));
    assert [t][1..] == [] && [t] + [] == [t];
    assert Cases([t]) == [t];
    assert [id] + IdsOf([]) == [id];
  }

  lemma DoubledHonest<D>(c: Config<D>, commit: string, id: string)
    requires c.Valid()
    ensures Honest(c, Doubled(c, commit, id), [Case(id, First(id))])
  {
    hide Cases, IdsOf, UnitPart, IdInventory, c.Digest, First;
    OneCase(id);
    var files, suite := Doubled(c, commit, id), [Case(id, First(id))];
    forall i | 0 <= i < |c.units| ensures HonestUnit(c, files, suite, i) {
      var g := c.units[i];
      assert g in c.units && c.units[IndexIn(c.units, g)] == g;
      assert IndexIn(c.units, g) == i;
    }
  }

  ghost predicate OwnerLists<D>(c: Config<D>, files: Files<D>, k: nat, ids: seq<string>)
    requires k < |c.rehomed|
  {
    files(c.rehomed[k].group).Some? && files(c.rehomed[k].group).value.selected == Some(IdInventory(c, ids))
  }

  lemma DoubledOwner<D>(c: Config<D>, commit: string, id: string, k: nat)
    requires c.Valid() && k < |c.rehomed|
    ensures OwnerHonest(c, Doubled(c, commit, id), c.rehomed[k], [id], [id])
    ensures OwnerLists(c, Doubled(c, commit, id), k, [id])
  {
    hide Cases, IdsOf, UnitPart, IdInventory, c.Digest, First;
    var g := c.rehomed[k].group;
    AllPassedPass(if g in c.required then c.required[g] else []);
  }

  /** The aggregator accepts reports in which every linked partition selects one
      deferred test. */
  lemma ManySelectorsAccepted<D>(c: Config<D>, commit: string, id: string)
    requires c.Valid() && c.BuildsOnce() && c.Rehomed(First(id))
    ensures var files := Doubled(c, commit, id);
            && Acceptable(c, files, commit) && id in Concat(DeferredLists(c, files))
            && forall g :: Linked(c, g) ==> Selects(c, files, g, id)
  {
    hide Cases, IdsOf, UnitPart, IdInventory, c.Digest, First, Honest, OwnerHonest, Acceptable, c.Rehomed, Concat,
         DeferredLists, Doubled, Selects, Linked, Current, c.BuildsOnce, IdsNameModules;
    var files, suite := Doubled(c, commit, id), [Case(id, First(id))];
    OneCase(id);
    OneId(id);
    DoubledHonest(c, commit, id);
    DoubledCurrent(c, commit, id);
    DoubledSelected(c, commit, id);
    forall k | 0 <= k < |c.rehomed|
      ensures OwnerHonest(c, files, c.rehomed[k], [id], [id]) && OwnerLists(c, files, k, [id])
    {
      DoubledOwner(c, commit, id, k);
    }
    HonestAccepted(c, files, commit, suite, (g: string) => [id]);
    HonestMembers(c, files, suite, true, id);
  }

  lemma OneId(id: string)
    ensures id in [id] && [id] != [] && Distinct([id])
  {
  }

  lemma DoubledCurrent<D>(c: Config<D>, commit: string, id: string)
    requires c.Valid() && c.BuildsOnce()
    ensures forall g :: g in c.groups ==> Current(c, Doubled(c, commit, id), g, commit)
  {
    hide Cases, IdsOf, UnitPart, IdInventory, c.Digest, First;
  }

  lemma DoubledSelected<D>(c: Config<D>, commit: string, id: string)
    requires c.Valid()
    ensures forall g :: Linked(c, g) ==> Selects(c, Doubled(c, commit, id), g, id)
  {
    hide Cases, IdsOf, UnitPart, IdInventory, c.Digest, First;
    SortedOne(c, id);
  }

  lemma SortedOne<D>(c: Config<D>, id: string)
    ensures Ids(Some(IdInventory(c, [id]))) == [id]
  {
    hide c.Digest, StrLess;
    assert [id][1..] == [] && Sort([], StrLess) == [];
    assert Sort([id], StrLess) == Insert(id, Sort([id][1..], StrLess), StrLess) == [id];
  }

  lemma {:induction false} FirstOf(m: string, rest: string)
    requires '.' !in m
    ensures First(m + "." + rest) == m
  {
    var id := m + "." + rest;
    if m == "" {
    } else {
      assert m[0] in m && id[1..] == m[1..] + "." + rest;
      FirstOf(m[1..], rest);
    }
  }

  /** With the repository's groups and owners, a test of any rehomed module that
      both the gameplay and the fighter partition select is accepted. */
  lemma RepositoryDoubles<D>(c: Config<D>, commit: string, owner: nat, m: string, rest: string)
    requires c.Valid() && c.BuildsOnce() && c.groups == Groups() && c.units == UnitGroups()
             && c.rehomed == RehomedModules()
    requires owner < |c.rehomed| && m in c.rehomed[owner].modules && '.' !in m
    ensures var files, id := Doubled(c, commit, m + "." + rest), m + "." + rest;
            Acceptable(c, files, commit) && id in Concat(DeferredLists(c, files)) && !SelectedOnce(c, files, id)
  {
    hide Acceptable, Concat, DeferredLists, First, Doubled, Groups, UnitGroups, RehomedModules, SelectedOnce,
         c.BuildsOnce;
    FirstOf(m, rest);
    TwoLinked();
    assert c.Rehomed(m);
    NotOnce(c, commit, m + "." + rest, Groups()[5], Groups()[6]);
  }

  lemma NotOnce<D>(c: Config<D>, commit: string, id: string, g: string, h: string)
    requires c.Valid() && c.BuildsOnce() && c.Rehomed(First(id)) && Linked(c, g) && Linked(c, h) && g != h
    ensures var files := Doubled(c, commit, id);
            && Acceptable(c, files, commit) && id in Concat(DeferredLists(c, files)) && !SelectedOnce(c, files, id)
  {
    hide Acceptable, Concat, DeferredLists, First, Doubled, c.BuildsOnce, c.Rehomed, Distinct;
    ManySelectorsAccepted(c, commit, id);
    assert Selects(c, Doubled(c, commit, id), g, id) && Selects(c, Doubled(c, commit, id), h, id);
  }

  lemma TwoLinked()
    ensures |Groups()| == 9 && Groups()[5] != Groups()[6] && Groups()[5] !in UnitGroups()
            && Groups()[6] !in UnitGroups()
  {
    hide RequiredTests, Targets, Overrides, RehomedModules;
    UnitsDiffer();
    assert |"gameplay"| == 8 && |"fighter"| == 7;
  }
}
