/**
  scripts/ci_verify.py: which CI partition runs which test.  Running the tests,
  building targets and writing the report file are outside the model.
*/
module CiVerify {
  import opened Common
  import opened Sorting

  /** "\n".join(lines) */
  function JoinLines(lines: seq<string>): string {
    if lines == [] then "" else if |lines| == 1 then lines[0] else lines[0] + "\n" + JoinLines(lines[1..])
  }

  /** A linked partition that runs the complete modules listed. */
  datatype Owner = Owner(group: string, modules: seq<string>)

  /** The partition tables.  `sha` is SHA-256 of the UTF-8 text; `number` reads
      the digest of a module name as a big-endian integer. */
  datatype Config<!D> = Config(groups: seq<string>, targets: map<string, seq<string>>, units: seq<string>,
                               overrides: map<string, nat>, base: nat, rehomed: seq<Owner>,
                               required: map<string, seq<string>>, sha: string -> D, number: string -> nat)
  {
    /** What the tables must satisfy for every test to have a place. */
    ghost predicate Valid() {
      && Distinct(units) && (forall u :: u in units ==> u in groups) && 0 < base <= |units|
      && (forall m :: m in overrides ==> overrides[m] < |units|)
      && (forall i :: 0 <= i < |rehomed| ==> rehomed[i].group in groups && rehomed[i].group !in units)
      && (forall i, j, m :: 0 <= i < j < |rehomed| && m in rehomed[i].modules ==> m !in rehomed[j].modules)
    }

    /** Every group has its targets, none is built by two groups, and only linked
        groups have required tests. */
    ghost predicate BuildsOnce() {
      && (forall g :: g in groups ==> g in targets)
      && (forall i, j, t :: 0 <= i < j < |groups| && t in targets[groups[i]] ==> t !in targets[groups[j]])
      && (forall g :: g in required ==> g in groups && g !in units)
    }

    function UnitShard(m: string): nat
      requires base > 0
    {
      if m in overrides then overrides[m] else number(m) % base
    }

    /** The position of the owner of a module, or the number of owners. */
    function OwnerOf(m: string): (i: nat)
      ensures i <= |rehomed|
      ensures i < |rehomed| ==> m in rehomed[i].modules
      ensures i == |rehomed| ==> forall j :: 0 <= j < |rehomed| ==> m !in rehomed[j].modules
    {
      OwnerFrom(m, 0)
    }

    function OwnerFrom(m: string, from: nat): (i: nat)
      requires from <= |rehomed|
      ensures from <= i <= |rehomed|
      ensures i < |rehomed| ==> m in rehomed[i].modules
      ensures i == |rehomed| ==> forall j :: from <= j < |rehomed| ==> m !in rehomed[j].modules
      decreases |rehomed| - from
    {
      if from == |rehomed| || m in rehomed[from].modules then from else OwnerFrom(m, from + 1)
    }

    predicate Rehomed(m: string) { OwnerOf(m) < |rehomed| }

    /** _canonical_hash: the digest of the sorted, newline-joined ids. */
    function Digest(ids: seq<string>): D { sha(JoinLines(Sort(ids, StrLess))) }
  }

  // ---- The tables of the repository ----

  function Groups(): seq<string> {
    ["unit-0", "unit-1", "unit-2", "runtime", "graphics", "gameplay", "fighter", "effects", "menus"]
  }

  function UnitGroups(): seq<string> { ["unit-0", "unit-1", "unit-2"] }

  /** GROUPS and LINKED_BUILD_TARGETS together. */
  function Targets(): map<string, seq<string>> {
    map["unit-0" := [], "unit-1" := [], "unit-2" := [],
        "runtime" := ["gameplay_menu_browser"],
        "graphics" := ["gx_probe"],
        "gameplay" := ["gameplay_checks", "gameplay_fighter_input_trace"],
        "fighter" := ["fighter_runtime_probe", "gameplay_pad_state_trace", "gameplay_save_profile_trace",
                      "gameplay_fighter_asset_trace"],
        "effects" := ["gameplay_effect_banks_trace", "gameplay_bonus_data_trace", "gameplay_stage_numeric_trace"],
        "menus" := ["native_menu_scene_trace", "dat_menu_support_trace"]]
  }

  function Overrides(): map<string, nat> {
    map["test_source_lbaudio_joined_runtime" := 2,
        "test_first_results_state_compare" := 2,
        "test_whole_session_state_compare" := 2]
  }

  function RehomedModules(): seq<Owner> {
    [Owner("gameplay", ["test_gameplay_bootstrap", "test_gameplay_collision"]),
     Owner("fighter", ["test_gameplay_fighter_assets"])]
  }

  function RequiredTests(): map<string, seq<string>> {
    map["gameplay" := GameplayTests(), "fighter" := FighterTests(), "effects" := EffectsTests(),
        "menus" := MenusTests()]
  }

  function GameplayTests(): seq<string> {
    ["test_hsd_native.NativeJointRuntimeTests.test_original_allocation_callback_rejection_and_restart",
     "test_hsd_native.NativeJointRuntimeTests.test_replacement_heap_is_never_used_for_teardown",
     "test_gameplay_common_context.CommonContextTests.test_original_material_owners_restore_all_common_globals",
     "test_source_devcom_startup.SourceDevComStartupTests.test_source_prefix_and_deferred_devcom_recycling",
     "test_source_devcom_startup.SourceDevComStartupTests.test_fresh_process_rejects_malformed_source_geometry",
     "test_gameplay_bootstrap.GameplayBootstrapTests.test_original_object_world_and_process_order",
     "test_gameplay_bootstrap.GameplayBootstrapTests.test_original_fighter_input_consumer_and_lifetime",
     "test_gameplay_bootstrap.GameplayBootstrapTests.test_generation_accessor_rejects_replaced_heap",
     "test_gameplay_bootstrap.GameplayBootstrapTests.test_session_arena_retains_original_payload_between_worlds",
     "test_gameplay_collision.GameplayCollisionTests.test_original_static_collision_load_queries_and_lifetime"]
  }

  function FighterTests(): seq<string> {
    ["test_gameplay_fighter_assets.GameplayFighterAssetsTests.test_scoped_constructor_storage_lifetime",
     "test_pad_state.PadSnapshotTests.test_native_codec_and_source_input_edges",
     "test_gameplay_save_profile.SaveProfileTests.test_original_initialization_and_restoration"]
  }

  function EffectsTests(): seq<string> {
    ["test_gameplay_effects.EffectContextTests.test_authored_bank_bounds_lifetimes_and_restart"]
  }

  function MenusTests(): seq<string> {
    ["test_gameplay_native_menus.NativeMenuSourceTests.test_original_sis_layout_and_style_stack",
     "test_dat_menu_support.DatMenuSupportTests.test_support_roots_and_optional_local_assets"]
  }

  function Repository<D>(sha: string -> D, number: string -> nat): Config<D> {
    Config(Groups(), Targets(), UnitGroups(), Overrides(), 2, RehomedModules(), RequiredTests(), sha, number)
  }

  lemma UnitsDiffer()
    ensures Distinct(UnitGroups()) && |UnitGroups()| == 3
    ensures forall u :: u in UnitGroups() ==> |u| == 6 && u in Groups()
  {
    UnitsAreGroups();
    hide Groups;
    var units := UnitGroups();
    assert units[0][5] == '0' && units[1][5] == '1' && units[2][5] == '2';
  }

  lemma UnitsAreGroups()
    ensures forall u :: u in UnitGroups() ==> u in Groups()
  {
    assert Groups()[0] == UnitGroups()[0] && Groups()[1] == UnitGroups()[1] && Groups()[2] == UnitGroups()[2];
  }

  lemma OverridesInRange()
    ensures forall m :: m in Overrides() ==> Overrides()[m] == 2
  {
  }

  /** Four linked groups have required tests. */
  lemma RepositoryRequires(g: string)
    ensures g in RequiredTests() <==> g == "gameplay" || g == "fighter" || g == "effects" || g == "menus"
  {
    hide GameplayTests, FighterTests, EffectsTests, MenusTests;
  }

  predicate Slow(m: string) {
    || m == "test_source_lbaudio_joined_runtime" || m == "test_first_results_state_compare"
    || m == "test_whole_session_state_compare"
  }

  /** The slow modules have the last unit partition for themselves; the digest
      spreads all others over the first two. */
  lemma RepositoryShards<D>(c: Config<D>, m: string)
    requires c == Repository(c.sha, c.number)
    ensures c.base == 2 && c.UnitShard(m) == if Slow(m) then 2 else c.number(m) % 2
  {
    hide Groups, Targets, UnitGroups, RehomedModules, RequiredTests, Overrides, Slow;
    OverridesInRange();
    Overridden(m);
  }

  lemma Overridden(m: string)
    ensures m in Overrides() <==> Slow(m)
  {
  }

  lemma OwnersApart()
    ensures |RehomedModules()| == 2
    ensures forall m :: m in RehomedModules()[0].modules ==> |m| == 23 && m !in RehomedModules()[1].modules
    ensures forall i :: 0 <= i < 2 ==> RehomedModules()[i].group in Groups() && |RehomedModules()[i].group| > 6
  {
    hide Groups, RehomedModules;
    FirstOwner();
    SecondOwner();
    FirstOwnerGroup();
    SecondOwnerGroup();
  }

  lemma FirstOwner()
    ensures |RehomedModules()| == 2 && forall m :: m in RehomedModules()[0].modules ==> |m| == 23
  {
  }

  lemma SecondOwner()
    ensures |RehomedModules()| == 2 && forall m :: m in RehomedModules()[1].modules ==> |m| == 28
  {
  }

  lemma FirstOwnerGroup()
    ensures |RehomedModules()| == 2 && |RehomedModules()[0].group| == 8 && RehomedModules()[0].group in Groups()
  {
    assert Groups()[5] == RehomedModules()[0].group;
  }

  lemma SecondOwnerGroup()
    ensures |RehomedModules()| == 2 && |RehomedModules()[1].group| == 7 && RehomedModules()[1].group in Groups()
  {
    assert Groups()[6] == RehomedModules()[1].group;
  }

  /** Which group builds a target, told by the length and a letter of its name. */
  function BuilderOf(t: string): nat {
    match |t|
    case 8 => 4
    case 15 => 5
    case 21 => if t[0] == 'g' then 3 else 6
    case 22 => 8
    case 23 => 8
    case 24 => 6
    case 25 => 7
    case 27 => if t[9] == 's' then 6 else 7
    case 28 => if t[9] == 's' then 7 else if t[17] == 'i' then 5 else 6
    case _ => 0
  }

  lemma EachHasTargets()
    ensures forall g :: g in Groups() ==> g in Targets()
  {
    hide Overrides, RequiredTests, RehomedModules, UnitGroups, BuilderOf;
  }

  lemma FewTargets()
    ensures |Groups()| == 9
    ensures Targets()[Groups()[0]] == Targets()[Groups()[1]] == Targets()[Groups()[2]] == []
    ensures forall t :: t in Targets()[Groups()[3]] ==> BuilderOf(t) == 3
    ensures forall t :: t in Targets()[Groups()[4]] ==> BuilderOf(t) == 4
    ensures forall t :: t in Targets()[Groups()[5]] ==> BuilderOf(t) == 5
  {
    hide Overrides, RequiredTests, RehomedModules, UnitGroups;
    assert Targets()["gameplay"] == ["gameplay_checks", "gameplay_fighter_input_trace"];
  }

  lemma FighterTargets()
    ensures forall t :: t in Targets()[Groups()[6]] ==> BuilderOf(t) == 6
  {
    hide Overrides, RequiredTests, RehomedModules, UnitGroups;
  }

  lemma EffectsTargets()
    ensures forall t :: t in Targets()[Groups()[7]] ==> BuilderOf(t) == 7
  {
    hide Overrides, RequiredTests, RehomedModules, UnitGroups;
  }

  lemma MenusTargets()
    ensures forall t :: t in Targets()[Groups()[8]] ==> BuilderOf(t) == 8
  {
    hide Overrides, RequiredTests, RehomedModules, UnitGroups;
  }

  lemma RequiredLinked()
    ensures forall g :: g in RequiredTests() ==> g in Groups() && |g| != 6
  {
    hide Overrides, Targets, RehomedModules, UnitGroups, GameplayTests, FighterTests, EffectsTests, MenusTests;
    assert Groups()[5] == "gameplay" && Groups()[6] == "fighter" && Groups()[7] == "effects" && Groups()[8] == "menus";
  }

  lemma RepositoryValid<D>(sha: string -> D, number: string -> nat)
    ensures Repository(sha, number).Valid()
  {
    hide Groups, UnitGroups, Overrides, RehomedModules, RequiredTests, Targets;
    UnitsDiffer();
    OverridesInRange();
    OwnersApart();
  }

  lemma TargetsBuilder(i: nat, t: string)
    requires i < |Groups()| && Groups()[i] in Targets() && t in Targets()[Groups()[i]]
    ensures BuilderOf(t) == i
  {
    hide Groups, RequiredTests, Targets, BuilderOf;
    FewTargets();
    FighterTargets();
    EffectsTargets();
    MenusTargets();
  }

  lemma RepositoryBuildsOnce<D>(sha: string -> D, number: string -> nat)
    ensures Repository(sha, number).BuildsOnce()
  {
    hide Groups, UnitGroups, Overrides, RehomedModules, RequiredTests, Targets, BuilderOf;
    UnitsDiffer();
    EachHasTargets();
    RequiredLinked();
    forall i, j, t | 0 <= i < j < |Groups()| && t in Targets()[Groups()[i]] ensures t !in Targets()[Groups()[j]] {
      TargetsBuilder(i, t);
      if t in Targets()[Groups()[j]] { TargetsBuilder(j, t); }
    }
  }

  // ---- Suites ----

  /** A unittest suite; a case knows its id and the module of its class. */
  datatype Test = Case(id: string, mod: string) | Suite(tests: seq<Test>)

  /** The cases of a suite in discovery order. */
  function Cases(tests: seq<Test>): seq<Test> {
    if tests == [] then []
    else (if tests[0].Case? then [tests[0]] else Cases(tests[0].tests)) + Cases(tests[1..])
  }

  /** The cases whose module is wanted. */
  function Chosen(cases: seq<Test>, wanted: string -> bool): seq<Test> {
    if cases == [] then []
    else (if cases[0].Case? && wanted(cases[0].mod) then [cases[0]] else []) + Chosen(cases[1..], wanted)
  }

  /** No suite inside is empty. */
  predicate NoHollow(tests: seq<Test>) {
    forall t :: t in tests && t.Suite? ==> Cases(t.tests) != [] && NoHollow(t.tests)
  }

  function Keep(tests: seq<Test>, wanted: string -> bool): seq<Test> {
    if tests == [] then []
    else KeepOne(tests[0], wanted) + Keep(tests[1..], wanted)
  }

  /** A case stays when it is wanted, a suite when something in it stays. */
  function KeepOne(test: Test, wanted: string -> bool): seq<Test> {
    match test
    case Case(_, m) => if wanted(m) then [test] else []
    case Suite(tests) =>
      var child := Keep(tests, wanted);
      if Cases(child) != [] then [Suite(child)] else []
  }

  function InShard<D>(c: Config<D>, shard: nat): string -> bool
    requires c.base > 0
  {
    m => c.UnitShard(m) == shard
  }

  method FilterSuite<D>(c: Config<D>, suite: seq<Test>, shard: nat) returns (selected: seq<Test>)
    requires c.base > 0
    ensures selected == Keep(suite, InShard(c, shard))
    decreases suite
  {
    hide Cases;
    var wanted := InShard(c, shard);
    selected := [];
    for i := 0 to |suite|
      invariant selected + Keep(suite[i..], wanted) == Keep(suite, wanted)
    {
      KeepStep(selected, suite, i, wanted);
      match suite[i]
      case Suite(tests) =>
        var child := FilterSuite(c, tests, shard);
        if Cases(child) != [] {
          selected := selected + [Suite(child)];
        }
      case Case(_, m) =>
        if c.UnitShard(m) == shard {
          selected := selected + [suite[i]];
        }
    }
    assert selected + [] == selected;
  }

  method FilterModules(suite: seq<Test>, modules: set<string>, inside: bool) returns (selected: seq<Test>)
    ensures selected == Keep(suite, m => (m in modules) == inside)
    decreases suite
  {
    hide Cases;
    var wanted := m => (m in modules) == inside;
    selected := [];
    for i := 0 to |suite|
      invariant selected + Keep(suite[i..], wanted) == Keep(suite, wanted)
    {
      KeepStep(selected, suite, i, wanted);
      match suite[i]
      case Suite(tests) =>
        var child := FilterModules(tests, modules, inside);
        if Cases(child) != [] {
          selected := selected + [Suite(child)];
        }
      case Case(_, m) =>
        if (m in modules) == inside {
          selected := selected + [suite[i]];
        }
    }
    assert selected + [] == selected;
  }

  lemma KeepStep(selected: seq<Test>, suite: seq<Test>, i: nat, wanted: string -> bool)
    requires i < |suite|
    ensures selected + Keep(suite[i..], wanted) == (selected + KeepOne(suite[i], wanted)) + Keep(suite[i + 1..], wanted)
    ensures selected + [] == selected
  {
    hide KeepOne;
    assert suite[i..][1..] == suite[i + 1..];
    assert Keep(suite[i..], wanted) == KeepOne(suite[i], wanted) + Keep(suite[i + 1..], wanted);
  }

  // ---- Filtering splits a suite exactly ----

  lemma {:induction false} ChosenConcat(a: seq<Test>, b: seq<Test>, wanted: string -> bool)
    ensures Chosen(a + b, wanted) == Chosen(a, wanted) + Chosen(b, wanted)
  {
    if a == [] {
      assert a + b == b;
    } else {
      ChosenConcat(a[1..], b, wanted);
      assert (a + b)[1..] == a[1..] + b;
      Associate(if a[0].Case? && wanted(a[0].mod) then [a[0]] else [], Chosen(a[1..], wanted), Chosen(b, wanted));
    }
  }

  lemma {:induction false} CasesConcat(a: seq<Test>, b: seq<Test>)
    ensures Cases(a + b) == Cases(a) + Cases(b)
  {
    hide Cases;
    if a == [] {
      NoCases();
      assert a + b == b;
    } else {
      CasesConcat(a[1..], b);
      assert (a + b)[1..] == a[1..] + b;
      CasesStep(a);
      CasesStep(a + b);
      Associate(if a[0].Case? then [a[0]] else Cases(a[0].tests), Cases(a[1..]), Cases(b));
    }
  }

  lemma NoCases()
    ensures Cases([]) == []
  {
  }

  lemma {:induction false} OnlyCases(tests: seq<Test>)
    ensures forall t :: t in Cases(tests) ==> t.Case?
  {
    if tests == [] {
    } else {
      OnlyCases(tests[1..]);
      if tests[0].Suite? { OnlyCases(tests[0].tests); }
    }
  }

  lemma CasesStep(tests: seq<Test>)
    requires tests != []
    ensures Cases(tests) == (if tests[0].Case? then [tests[0]] else Cases(tests[0].tests)) + Cases(tests[1..])
  {
  }

  lemma CasesOfOne(t: Test)
    ensures Cases([t]) == if t.Case? then [t] else Cases(t.tests)
  {
    assert [t][1..] == [];
    var own := if t.Case? then [t] else Cases(t.tests);
    assert own + [] == own;
  }

  /** Filtering a tree keeps exactly the wanted cases, in their order, and leaves
      no empty suite behind. */
  lemma {:induction false} KeepChooses(tests: seq<Test>, wanted: string -> bool)
    ensures Cases(Keep(tests, wanted)) == Chosen(Cases(tests), wanted)
    ensures NoHollow(Keep(tests, wanted))
    decreases tests
  {
    if tests == [] {
    } else {
      KeepOneChooses(tests[0], wanted);
      KeepChooses(tests[1..], wanted);
      CasesConcat(KeepOne(tests[0], wanted), Keep(tests[1..], wanted));
      CasesConcat([tests[0]], tests[1..]);
      CasesOfOne(tests[0]);
      assert tests == [tests[0]] + tests[1..];
      ChosenConcat(Cases([tests[0]]), Cases(tests[1..]), wanted);
      HollowConcat(KeepOne(tests[0], wanted), Keep(tests[1..], wanted));
    }
  }

  lemma HollowConcat(a: seq<Test>, b: seq<Test>)
    requires NoHollow(a) && NoHollow(b)
    ensures NoHollow(a + b)
  {
    hide Cases;
    forall t | t in a + b && t.Suite? ensures Cases(t.tests) != [] && NoHollow(t.tests) {
      assert t in a || t in b;
    }
  }

  lemma KeepOneChooses(test: Test, wanted: string -> bool)
    ensures Cases(KeepOne(test, wanted)) == Chosen(if test.Case? then [test] else Cases(test.tests), wanted)
    ensures NoHollow(KeepOne(test, wanted))
    decreases test
  {
    match test
    case Case(_, m) =>
      CasesOfOne(test);
      assert [test][1..] == [];
    case Suite(tests) =>
      KeepChooses(tests, wanted);
      CasesOfOne(Suite(Keep(tests, wanted)));
  }

  lemma {:induction false} ChosenCount(cases: seq<Test>, wanted: string -> bool, t: Test)
    ensures multiset(Chosen(cases, wanted))[t] == if t.Case? && wanted(t.mod) then multiset(cases)[t] else 0
  {
    if cases == [] {
    } else {
      assert cases == [cases[0]] + cases[1..];
      ChosenCount(cases[1..], wanted, t);
    }
  }

  lemma {:induction false} ConcatCount<T>(xss: seq<seq<T>>, x: T, at: nat)
    requires forall i :: 0 <= i < |xss| && i != at ==> x !in xss[i]
    ensures multiset(Concat(xss))[x] == if at < |xss| then multiset(xss[at])[x] else 0
  {
    if xss == [] {
    } else {
      var rest := xss[1..];
      if at > 0 {
        assert forall i :: 0 <= i < |rest| && i != at - 1 ==> rest[i] == xss[i + 1];
        ConcatCount(rest, x, at - 1);
        assert x !in xss[0];
      } else {
        assert forall i :: 0 <= i < |rest| ==> rest[i] == xss[i + 1];
        ConcatCount(rest, x, |rest|);
      }
      assert multiset(Concat(xss)) == multiset(xss[0]) + multiset(Concat(rest));
    }
  }

  /** What one unit partition runs, and what it leaves to the linked ones. */
  function UnitPart<D>(c: Config<D>, suite: seq<Test>, shard: nat, deferred: bool): seq<Test>
    requires c.base > 0
  {
    Keep(Keep(suite, InShard(c, shard)), m => c.Rehomed(m) == deferred)
  }

  method SplitSuite<D>(c: Config<D>, suite: seq<Test>, shard: nat) returns (selected: seq<Test>, deferred: seq<Test>)
    requires c.base > 0
    ensures selected == UnitPart(c, suite, shard, false) && deferred == UnitPart(c, suite, shard, true)
  {
    var shardSuite := FilterSuite(c, suite, shard);
    var rehomed := set i, j | 0 <= i < |c.rehomed| && 0 <= j < |c.rehomed[i].modules| :: c.rehomed[i].modules[j];
    RehomedIn(c, rehomed);
    deferred := FilterModules(shardSuite, rehomed, true);
    selected := FilterModules(shardSuite, rehomed, false);
    SameKeep(shardSuite, m => (m in rehomed) == true, m => c.Rehomed(m) == true);
    SameKeep(shardSuite, m => (m in rehomed) == false, m => c.Rehomed(m) == false);
  }

  lemma RehomedIn<D>(c: Config<D>, rehomed: set<string>)
    requires rehomed == set i, j | 0 <= i < |c.rehomed| && 0 <= j < |c.rehomed[i].modules| :: c.rehomed[i].modules[j]
    ensures forall m :: m in rehomed <==> c.Rehomed(m)
  {
  }

  lemma {:induction false} SameKeep(tests: seq<Test>, p: string -> bool, q: string -> bool)
    requires forall m :: p(m) == q(m)
    ensures Keep(tests, p) == Keep(tests, q)
    decreases tests
  {
    if tests == [] {
    } else {
      if tests[0].Suite? { SameKeep(tests[0].tests, p, q); }
      SameKeep(tests[1..], p, q);
    }
  }

  lemma UnitPartCases<D>(c: Config<D>, suite: seq<Test>, shard: nat, deferred: bool)
    requires c.base > 0
    ensures Cases(UnitPart(c, suite, shard, deferred))
         == Chosen(Chosen(Cases(suite), InShard(c, shard)), m => c.Rehomed(m) == deferred)
  {
    KeepChooses(suite, InShard(c, shard));
    KeepChooses(Keep(suite, InShard(c, shard)), m => c.Rehomed(m) == deferred);
  }

  function UnitParts<D>(c: Config<D>, suite: seq<Test>, deferred: bool): seq<seq<Test>>
    requires c.base > 0
  {
    seq(|c.units|, i requires 0 <= i => Cases(UnitPart(c, suite, i, deferred)))
  }

  lemma UnitPartCount<D>(c: Config<D>, suite: seq<Test>, shard: nat, deferred: bool, t: Test)
    requires c.base > 0
    ensures multiset(Cases(UnitPart(c, suite, shard, deferred)))[t]
         == if t.Case? && c.UnitShard(t.mod) == shard && c.Rehomed(t.mod) == deferred
            then multiset(Cases(suite))[t] else 0
  {
    hide Cases, Chosen, UnitPart;
    UnitPartCases(c, suite, shard, deferred);
    ChosenCount(Cases(suite), InShard(c, shard), t);
    ChosenCount(Chosen(Cases(suite), InShard(c, shard)), m => c.Rehomed(m) == deferred, t);
  }

  /** Every case of the suite, as often as it occurs, is in one part of one unit
      partition. */
  lemma SplitExactly<D>(c: Config<D>, suite: seq<Test>)
    requires c.Valid()
    ensures multiset(Concat(UnitParts(c, suite, false))) + multiset(Concat(UnitParts(c, suite, true)))
            == multiset(Cases(suite))
  {
    hide Cases, UnitPart, UnitParts, Concat;
    var kept, left := UnitParts(c, suite, false), UnitParts(c, suite, true);
    forall t ensures multiset(Concat(kept))[t] + multiset(Concat(left))[t] == multiset(Cases(suite))[t] {
      UnitPartsCount(c, suite, false, t);
      UnitPartsCount(c, suite, true, t);
      if !t.Case? { OnlyCases(suite); }
    }
  }

  lemma UnitPartsCount<D>(c: Config<D>, suite: seq<Test>, deferred: bool, t: Test)
    requires c.Valid()
    ensures multiset(Concat(UnitParts(c, suite, deferred)))[t]
         == if t.Case? && c.Rehomed(t.mod) == deferred then multiset(Cases(suite))[t] else 0
  {
    hide Cases, UnitPart, Concat;
    var parts := UnitParts(c, suite, deferred);
    var at := if t.Case? then c.UnitShard(t.mod) else 0;
    forall i | 0 <= i < |parts| ensures multiset(parts[i])[t]
        == if t.Case? && c.UnitShard(t.mod) == i && c.Rehomed(t.mod) == deferred then multiset(Cases(suite))[t] else 0
    {
      UnitPartCount(c, suite, i, deferred, t);
    }
    assert forall i :: 0 <= i < |parts| && i != at ==> t !in multiset(parts[i]);
    ConcatCount(parts, t, at);
  }
}
