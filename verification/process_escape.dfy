/**
  What a passing run of scripts/capture_owner_deadline.py leaves behind: of the
  inventoried processes only those that replaced their command line after they
  were first recorded can be left, and a run in which one is.
*/
module ProcessEscape {
  import opened Common
  import opened ProcessInventory
  import opened ProcessOwner
  import opened ProcessProtocol

  // ---- What a passing check says about instances ----

  /** The recorded process, whatever its command line is now. */
  predicate Present(r: Record, procs: Procs) {
    r.row.pid in procs && procs[r.row.pid].start == r.row.start
  }

  /** In every reachable state a present record is the very instance that a scan
      saw. */
  lemma PresentIsScanned(c: Config, s: State, j: nat)
    requires Inv(c, s) && j < |s.inventory| && Present(s.inventory[j], s.seen)
    ensures exists k :: 0 <= k < |s.scans| && s.inventory[j].row.pid in s.scans[k].procs
                     && SameInstance(s.scans[k].procs[s.inventory[j].row.pid], s.seen[s.inventory[j].row.pid])
  {
    hide View.RecordFor, Below, View.Valid, BrowserAbove, MachineRight, EventsOk, ScansRight, ScanRight,
         KinRight, Led, Grounded, DistinctIdentities;
    var r := s.inventory[j];
    var k := ScanBehind(c, s, j);
    ScanViewValid(c, s.born, s.scans[k]);
    RecordedExactly(s.scans[k].view, r.row.pid);
    assert BornAs(s.born, r.row.pid, s.scans[k].procs[r.row.pid]);
    assert BornAs(s.born, r.row.pid, s.seen[r.row.pid]);
  }

  /** The cleanup is over, no scan or read has failed, and everything inventoried
      counts as missing. */
  predicate Observed(s: State) { s.phase.Done? && !s.failed && AllMissing(s.inventory, Snapshot(s.seen)) }

  function LastTable(s: State): Procs
    requires s.tables != []
  {
    s.tables[|s.tables| - 1]
  }

  /** The check was made on the last table that was read. */
  lemma LastInUse(c: Config, s: State)
    requires Inv(c, s) && Observed(s)
    ensures s.tables != [] && s.seen == LastTable(s)
  {
    hide MachineRight, ScansRight, Grounded, DistinctIdentities, EventsOk, AllBorn, NotVacated, Snapshot;
  }

  /** With identities distinct in pid and start, no inventoried identity is in the
      last table of a run that was observed to the end. */
  lemma PassLeavesNoIdentity(c: Config, start: State, steps: seq<Step>)
    requires Init(c, start) && After(c, start, steps).Some? && Observed(After(c, start, steps).value)
    requires DistinctPidStart(After(c, start, steps).value.inventory)
    ensures var s := After(c, start, steps).value;
            && s.tables != []
            && forall j :: 0 <= j < |s.inventory| ==> !Same(s.inventory[j], Snapshot(LastTable(s)))
  {
    hide Init, After, Inv, Same, Snapshot, DistinctPidStart;
    var s := After(c, start, steps).value;
    RunsKeep(c, start, steps);
    LastInUse(c, s);
    MissingIsGone(s.inventory, Snapshot(s.seen));
  }

  // ---- Only a new command line escapes ----

  /** The n-th step replaces the command line of the process with this pid and
      start, which is inventoried by then. */
  ghost predicate ExecsRecorded(c: Config, start: State, steps: seq<Step>, n: nat, pid: int, born: string) {
    && n < |steps| && After(c, start, steps[..n]).Some?
    && ReplacesRecorded(After(c, start, steps[..n]).value, steps[n], pid, born)
  }

  predicate ReplacesRecorded(s: State, step: Step, pid: int, born: string) {
    && step.Exec? && step.pid == pid && pid in s.procs && s.procs[pid].start == born
    && FirstLike(s.inventory, pid, born).Some?
  }

  /** Where the process is, it shows the command line of its first record. */
  predicate Shows(procs: Procs, pid: int, born: string, first: Option<Record>) {
    first.Some? && pid in procs && procs[pid].start == born ==> procs[pid].command == first.value.row.command
  }

  predicate Unchanged(s: State, pid: int, born: string) {
    var first := FirstLike(s.inventory, pid, born);
    Shows(s.procs, pid, born, first) && Shows(s.seen, pid, born, first)
  }

  lemma {:induction false} FirstLikeJoin(a: seq<Record>, b: seq<Record>, pid: int, born: string)
    ensures FirstLike(a + b, pid, born) == if FirstLike(a, pid, born).Some? then FirstLike(a, pid, born)
                                           else FirstLike(b, pid, born)
  {
    if a == [] {
      assert a + b == b;
    } else {
      FirstLikeJoin(a[1..], b, pid, born);
      assert (a + b)[1..] == a[1..] + b;
    }
  }

  /** What a scan adds is in its table. */
  lemma {:induction false} AbsorbRows(v: View, records: seq<Record>, from: nat)
    requires v.Valid() && from <= |v.order|
    ensures var after := Absorb(v, records, from).0;
            && records <= after
            && forall i :: |records| <= i < |after| ==>
                 after[i].row.pid in v.table && after[i].row == v.table[after[i].row.pid]
    decreases |v.order| - from
  {
    hide View.RecordFor, Known, IdentityOf, View.Valid;
    if from < |v.order| {
      var r := v.RecordFor(v.order[from]);
      if r.None? || Known(records, IdentityOf(r.value.row)) {
        AbsorbRows(v, records, from + 1);
      } else {
        RecordInTable(v, v.order[from]);
        if |records| + 1 <= LIMIT { AbsorbRows(v, records + [r.value], from + 1); }
      }
    }
  }

  lemma RecordInTable(v: View, p: int)
    requires v.Valid() && v.RecordFor(p).Some?
    ensures p in v.table && v.RecordFor(p).value.row == v.table[p] && v.table[p].pid == p
  {
    hide View.Descendant, View.BrowserRoots, Among, Least;
    RecordedExactly(v, p);
  }

  /** A recorded pid and start have been given to a process. */
  lemma RecordedBorn(c: Config, s: State, pid: int, born: string)
    requires Inv(c, s) && FirstLike(s.inventory, pid, born).Some?
    ensures (pid, born) in s.born
  {
    hide View.RecordFor, Below, View.Valid, BrowserAbove, IsLineage, MachineRight, SeenRight, EventsOk,
         ScansRight, ScanRight, FirstLike, Grounded, DistinctIdentities;
    FirstIsOne(s.inventory, pid, born);
    var j :| 0 <= j < |s.inventory| && s.inventory[j].row.pid == pid && s.inventory[j].row.start == born;
    var k := ScanBehind(c, s, j);
    ScanViewValid(c, s.born, s.scans[k]);
    RecordedExactly(s.scans[k].view, pid);
    ScannedKin(c, s.born, s.scans[k], pid, s.inventory[j].lineage);
  }

  lemma ScanUnchanged(c: Config, s: State, order: seq<int>, pid: int, born: string)
    requires Inv(c, s) && Enabled(c, s, ScanTable(order)) && Unchanged(s, pid, born)
    ensures Unchanged(Next(c, s, ScanTable(order)), pid, born)
  {
    hide Inv, FirstLike, Absorb, View.Valid;
    var v, was := ViewOf(c, s.procs, order), s.inventory;
    var now := Absorb(v, was, 0).0;
    AbsorbRows(v, was, 0);
    var more := now[|was|..];
    assert now == was + more;
    FirstLikeJoin(was, more, pid, born);
    if FirstLike(was, pid, born).None? && FirstLike(more, pid, born).Some? {
      FirstIsOne(more, pid, born);
      var j :| 0 <= j < |more| && more[j] == FirstLike(more, pid, born).value && more[j].row.pid == pid;
      assert now[|was| + j] == more[j];
    }
  }

  lemma StepUnchanged(c: Config, s: State, step: Step, pid: int, born: string)
    requires Inv(c, s) && Enabled(c, s, step) && Unchanged(s, pid, born) && !ReplacesRecorded(s, step, pid, born)
    ensures Unchanged(Next(c, s, step), pid, born)
  {
    hide Inv, FirstLike, Absorb, View.Valid, Adopts, Free, GroupStep, SignalStep;
    match step
    case ScanTable(order) => ScanUnchanged(c, s, order, pid, born);
    case Spawn(_, _, _) => if FirstLike(s.inventory, pid, born).Some? { RecordedBorn(c, s, pid, born); }
    case SignalGroup => GroupStepOnly(c, s);
    case SignalNext => SignalStepOnly(s);
    case _ =>
  }

  lemma GroupStepOnly(c: Config, s: State)
    requires s.phase.TermGroups? || s.phase.KillGroups?
    ensures var t := GroupStep(c, s); t == s.(log := t.log, phase := t.phase)
  {
    hide ToLeader;
  }

  lemma SignalStepOnly(s: State)
    requires s.phase.Terminate? || s.phase.Kill?
    ensures var t := SignalStep(s); t == s.(log := t.log, phase := t.phase)
  {
    hide Candidate, Same, SentTo;
  }

  lemma {:induction false} RunUnchanged(c: Config, start: State, steps: seq<Step>, pid: int, born: string)
    requires Init(c, start) && After(c, start, steps).Some?
    requires forall n: nat :: !ExecsRecorded(c, start, steps, n, pid, born)
    ensures Unchanged(After(c, start, steps).value, pid, born)
  {
    hide Inv, Enabled, Next, Unchanged, ReplacesRecorded;
    if steps == [] {
      StartUnchanged(c, start, pid, born);
    } else {
      var n := |steps| - 1;
      forall k: nat ensures !ExecsRecorded(c, start, steps[..n], k, pid, born) {
        if k < n {
          assert steps[..n][..k] == steps[..k];
          assert !ExecsRecorded(c, start, steps, k, pid, born);
        }
      }
      RunUnchanged(c, start, steps[..n], pid, born);
      RunsKeep(c, start, steps[..n]);
      assert !ExecsRecorded(c, start, steps, n, pid, born);
      StepUnchanged(c, After(c, start, steps[..n]).value, steps[n], pid, born);
    }
  }

  lemma StartUnchanged(c: Config, start: State, pid: int, born: string)
    requires Init(c, start)
    ensures Unchanged(start, pid, born)
  {
    hide MachineRight;
  }

  /** In every run observed to the end, an inventoried process that is in the last
      table has replaced its command line after it was first recorded. */
  lemma SurvivorsExec(c: Config, start: State, steps: seq<Step>, j: nat)
    requires Init(c, start) && After(c, start, steps).Some? && Observed(After(c, start, steps).value)
    requires j < |After(c, start, steps).value.inventory|
    ensures var s, r := After(c, start, steps).value, After(c, start, steps).value.inventory[j];
            && s.tables != []
            && (Present(r, LastTable(s)) ==> exists n: nat :: ExecsRecorded(c, start, steps, n, r.row.pid, r.row.start))
  {
    hide Init, After, Inv, ExecsRecorded, FirstLike;
    var s, r := After(c, start, steps).value, After(c, start, steps).value.inventory[j];
    RunsKeep(c, start, steps);
    LastInUse(c, s);
    if forall n: nat :: !ExecsRecorded(c, start, steps, n, r.row.pid, r.row.start) {
      RunUnchanged(c, start, steps, r.row.pid, r.row.start);
      FirstExists(s.inventory, j);
      assert Missing(s.inventory, j, Snapshot(s.seen));
    }
  }

  // ---- The run ----

  ghost predicate Reachable(c: Config, start: State, s: State) {
    exists steps :: After(c, start, steps) == Some(s)
  }

  lemma Go(c: Config, start: State, s: State, step: Step)
    requires Reachable(c, start, s) && Enabled(c, s, step)
    ensures Reachable(c, start, Next(c, s, step))
  {
    hide Enabled, Next;
    var steps :| After(c, start, steps) == Some(s);
    var more := steps + [step];
    assert more[..|more| - 1] == steps;
    assert After(c, start, more) == Some(Next(c, s, step));
  }

  function RunnerProc(node: string): Proc { Proc(1, 0, 10, 10, "a", node, {1}, false) }

  function BrowserProc(chrome: string): Proc { Proc(2, 10, 10, 10, "b", chrome, {1, 2}, false) }

  /** The helper leads a session of its own. */
  function HelperProc(parent: int, command: string): Proc { Proc(3, parent, 30, 30, "c", command, {1, 2, 3}, false) }

  function Setting(isBrowser: string -> bool): Config { Config(Leader(10, 1), None, isBrowser) }

  /** A machine that runs the capture runner and nothing else. */
  function Start(node: string): State {
    State(map[10 := RunnerProc(node)], 2, map[(10, "a") := Birth(1, {1})], {}, Watch, [], map[], {}, [], [], [], false)
  }

  lemma StartRight(node: string, isBrowser: string -> bool)
    ensures Init(Setting(isBrowser), Start(node))
  {
  }

  function Three(node: string, chrome: string, command: string): Procs {
    map[10 := RunnerProc(node), 20 := BrowserProc(chrome), 30 := HelperProc(20, command)]
  }

  lemma Launch(node: string, chrome: string, isBrowser: string -> bool) returns (s: State)
    ensures Reachable(Setting(isBrowser), Start(node), s)
    ensures s.procs == Three(node, chrome, chrome) && s.phase == Watch && s.inventory == [] && s.reaped == {}
    ensures !s.failed
  {
    hide Reachable;
    var c, start := Setting(isBrowser), Start(node);
    Begin(c, start);
    s := GoSpawn(c, start, start, 10, 20, "b");
    s := GoExec(c, start, s, 20, chrome);
    assert {1} + {2} == {1, 2} && {1, 2} + {3} == {1, 2, 3};
    assert s.procs[20] == BrowserProc(chrome);
    assert s.procs == map[10 := RunnerProc(node), 20 := BrowserProc(chrome)];
    s := GoSpawn(c, start, s, 20, 30, "c");
    s := GoSession(c, start, s, 30);
    assert s.procs[30] == HelperProc(20, chrome);
    assert s.procs == Three(node, chrome, chrome);
  }

  lemma Begin(c: Config, start: State)
    ensures Reachable(c, start, start)
  {
    assert After(c, start, []) == Some(start);
  }

  lemma GoSpawn(c: Config, start: State, s: State, parent: int, pid: int, born: string) returns (t: State)
    requires Reachable(c, start, s) && parent in s.procs && !s.procs[parent].zombie && Free(s.procs, pid)
    requires (pid, born) !in s.born
    ensures Reachable(c, start, t)
    ensures var child := Child(s.procs[parent], parent, s.nextUid, born);
            t == s.(procs := s.procs[pid := child], nextUid := s.nextUid + 1,
                    born := s.born[(pid, born) := Birth(child.uid, child.kin)])
  {
    hide Reachable, Free;
    Go(c, start, s, Spawn(parent, pid, born));
    t := Next(c, s, Spawn(parent, pid, born));
  }

  lemma GoExec(c: Config, start: State, s: State, pid: int, command: string) returns (t: State)
    requires Reachable(c, start, s) && pid in s.procs
    ensures Reachable(c, start, t)
    ensures t == s.(procs := s.procs[pid := s.procs[pid].(command := command)])
  {
    hide Reachable;
    Go(c, start, s, Exec(pid, command));
    t := Next(c, s, Exec(pid, command));
  }

  lemma GoSession(c: Config, start: State, s: State, pid: int) returns (t: State)
    requires Reachable(c, start, s) && pid in s.procs
    ensures Reachable(c, start, t)
    ensures t == s.(procs := s.procs[pid := s.procs[pid].(pgid := pid, sid := pid)])
  {
    hide Reachable;
    Go(c, start, s, NewSession(pid));
    t := Next(c, s, NewSession(pid));
  }

  /** A process exits, its children go to no visible process, and it is reaped. */
  lemma GoAway(c: Config, start: State, s: State, pid: int) returns (t: State)
    requires Reachable(c, start, s) && pid in s.procs && !s.procs[pid].zombie
    ensures Reachable(c, start, t)
    ensures t == s.(procs := Exited(s.procs, pid, 0) - {pid}, vacated := s.vacated + {pid},
                    reaped := if c.Leads(s.procs[pid].uid) then s.reaped + {s.procs[pid].uid} else s.reaped)
  {
    hide Reachable;
    Go(c, start, s, Exit(pid, 0));
    var n := Next(c, s, Exit(pid, 0));
    Go(c, start, n, Reap(pid));
    t := Next(c, n, Reap(pid));
  }

  lemma GoScan(c: Config, start: State, s: State, order: seq<int>) returns (t: State)
    requires Reachable(c, start, s) && s.phase == Watch && c.runner.uid !in s.reaped
    requires ViewOf(c, s.procs, order).Valid() && Absorb(ViewOf(c, s.procs, order), s.inventory, 0).1
    ensures Reachable(c, start, t)
    ensures t == s.(inventory := Absorb(ViewOf(c, s.procs, order), s.inventory, 0).0, seen := t.seen,
                    vacated := t.vacated, tables := t.tables, scans := t.scans)
  {
    hide Reachable, ViewOf, Absorb, View.Valid;
    Go(c, start, s, ScanTable(order));
    t := Next(c, s, ScanTable(order));
  }

  lemma GoRead(c: Config, start: State, s: State) returns (t: State)
    requires Reachable(c, start, s) && s.phase in {Refresh, Wait, Reread, Verify}
    ensures Reachable(c, start, t)
    ensures t == s.(seen := s.procs, vacated := {}, tables := t.tables, phase := t.phase)
    ensures t.phase == if s.phase == Wait || s.phase == Verify then s.phase else AfterReading(s.phase)
  {
    hide Reachable;
    Go(c, start, s, ReadTable);
    t := Next(c, s, ReadTable);
  }

  lemma GoOn(c: Config, start: State, s: State) returns (t: State)
    requires Reachable(c, start, s) && (s.phase == Wait || s.phase == Verify)
    ensures Reachable(c, start, t) && t == s.(phase := AfterReading(s.phase))
  {
    hide Reachable;
    Go(c, start, s, StopReading);
    t := Next(c, s, StopReading);
  }

  const ORDER := [10, 20, 30]

  lemma OneUp(t: Table, p: int, root: int, seen: set<int>, above: seq<Row>)
    requires p in t && p !in seen && p != root && Walk(t[p].ppid, t, root, seen + {p}) == Some(above)
    ensures Walk(p, t, root, seen) == Some(above + [t[p]])
  {
  }

  lemma AtRoot(t: Table, root: int, seen: set<int>)
    requires root in t && root !in seen
    ensures Walk(root, t, root, seen) == Some([t[root]])
  {
  }

  lemma Lineages(c: Config, node: string, chrome: string, command: string)
    requires c.runner.pid == 10
    ensures var v := ViewOf(c, Three(node, chrome, command), ORDER);
            && v.Valid()
            && v.Lineage(10) == Some([v.table[10]])
            && v.Lineage(20) == Some([v.table[10], v.table[20]])
            && v.Lineage(30) == Some([v.table[10], v.table[20], v.table[30]])
  {
    hide Walk;
    var v := ViewOf(c, Three(node, chrome, command), ORDER);
    var t := v.table;
    assert t.Keys == {10, 20, 30} && t[20].ppid == 10 && t[30].ppid == 20;
    assert forall p :: p in ORDER <==> p == 10 || p == 20 || p == 30;
    AtRoot(t, 10, {});
    AtRoot(t, 10, {} + {20});
    OneUp(t, 20, 10, {}, [t[10]]);
    AtRoot(t, 10, {} + {30} + {20});
    OneUp(t, 20, 10, {} + {30}, [t[10]]);
    assert [t[10]] + [t[20]] == [t[10], t[20]];
    OneUp(t, 30, 10, {}, [t[10], t[20]]);
    assert [t[10], t[20]] + [t[30]] == [t[10], t[20], t[30]];
  }

  /** Each scan of the three processes attributes the browser and its helper. */
  lemma Attributed(c: Config, node: string, chrome: string, command: string)
    requires c.runner.pid == 10 && c.isBrowser(chrome)
    ensures var v := ViewOf(c, Three(node, chrome, command), ORDER);
            && v.Valid() && v.RecordFor(10).None?
            && v.RecordFor(20).Some? && IdentityOf(v.RecordFor(20).value.row) == Identity(20, "b", chrome)
            && v.RecordFor(20).value.browserRoot == 20
            && v.RecordFor(30).Some? && IdentityOf(v.RecordFor(30).value.row) == Identity(30, "c", command)
  {
    hide Walk, Among, Least, OnWay, Arrives;
    var v := ViewOf(c, Three(node, chrome, command), ORDER);
    Lineages(c, node, chrome, command);
    RecordedExactly(v, 10);
    RecordedExactly(v, 20);
    RecordedExactly(v, 30);
    assert v.BrowserRoot(20);
    assert v.Lineage(20).value[1].pid == 20 && v.Lineage(30).value[1].pid == 20;
    DescendantExactly(v, 20);
    DescendantExactly(v, 30);
    BrowserOnChain(v, 20, 20);
    BrowserOnChain(v, 30, 20);
  }

  /** The inventory after the two scans: the helper is in it twice. */
  ghost predicate Twice(records: seq<Record>, chrome: string, helper: string) {
    && |records| == 3 && IdentityOf(records[0].row) == Identity(20, "b", chrome) && records[0].browserRoot == 20
    && IdentityOf(records[1].row) == Identity(30, "c", chrome)
    && IdentityOf(records[2].row) == Identity(30, "c", helper)
  }

  lemma AbsorbFirst(v: View, chrome: string)
    requires v.order == ORDER && v.RecordFor(10).None? && v.RecordFor(20).Some? && v.RecordFor(30).Some?
    requires IdentityOf(v.RecordFor(20).value.row) == Identity(20, "b", chrome)
    requires IdentityOf(v.RecordFor(30).value.row) == Identity(30, "c", chrome)
    ensures Absorb(v, [], 0) == ([v.RecordFor(20).value, v.RecordFor(30).value], true)
  {
    hide Walk, Among, Least;
    var a, b := v.RecordFor(20).value, v.RecordFor(30).value;
    assert Absorb(v, [a, b], 3) == ([a, b], true);
    assert !Known([a], Identity(30, "c", chrome));
    assert [a] + [b] == [a, b];
    assert Absorb(v, [a], 2) == ([a, b], true);
    assert !Known([], Identity(20, "b", chrome));
    assert [] + [a] == [a];
    assert Absorb(v, [], 1) == ([a, b], true);
  }

  lemma AbsorbSecond(v: View, records: seq<Record>, chrome: string, helper: string)
    requires v.order == ORDER && v.RecordFor(10).None? && v.RecordFor(20).Some? && v.RecordFor(30).Some?
    requires IdentityOf(v.RecordFor(20).value.row) == Identity(20, "b", chrome)
    requires IdentityOf(v.RecordFor(30).value.row) == Identity(30, "c", helper) && helper != chrome
    requires |records| == 2 && IdentityOf(records[0].row) == Identity(20, "b", chrome) && records[0].browserRoot == 20
    requires IdentityOf(records[1].row) == Identity(30, "c", chrome)
    ensures Absorb(v, records, 0) == (records + [v.RecordFor(30).value], true)
    ensures Twice(records + [v.RecordFor(30).value], chrome, helper)
  {
    hide Walk, Among, Least;
    var b := v.RecordFor(30).value;
    assert Absorb(v, records + [b], 3) == (records + [b], true);
    assert !Known(records, Identity(30, "c", helper));
    assert Absorb(v, records, 2) == (records + [b], true);
    assert Known(records, Identity(20, "b", chrome));
    assert Absorb(v, records, 1) == (records + [b], true);
  }

  lemma Scans(node: string, chrome: string, helper: string, isBrowser: string -> bool, s: State) returns (t: State)
    requires isBrowser(chrome) && helper != chrome && Reachable(Setting(isBrowser), Start(node), s)
    requires s.procs == Three(node, chrome, chrome) && s.phase == Watch && s.inventory == [] && s.reaped == {}
    requires !s.failed
    ensures !t.failed && t.reaped == {}
    ensures Reachable(Setting(isBrowser), Start(node), t)
    ensures t.procs == Three(node, chrome, helper) && t.phase == Watch && Twice(t.inventory, chrome, helper)
  {
    hide Absorb, Walk, ViewOf, Reachable, View.Valid, View.RecordFor;
    var c, start := Setting(isBrowser), Start(node);
    Attributed(c, node, chrome, chrome);
    Attributed(c, node, chrome, helper);
    OrderOfView(c, s.procs);
    AbsorbFirst(ViewOf(c, s.procs, ORDER), chrome);
    t := GoScan(c, start, s, ORDER);
    t := GoExec(c, start, t, 30, helper);
    assert t.procs == Three(node, chrome, helper);
    OrderOfView(c, t.procs);
    AbsorbSecond(ViewOf(c, t.procs, ORDER), t.inventory, chrome, helper);
    t := GoScan(c, start, t, ORDER);
  }

  lemma OrderOfView(c: Config, procs: Procs)
    ensures ViewOf(c, procs, ORDER).order == ORDER
  {
  }

  /** The browser exits and is reaped. */
  lemma BrowserExits(c: Config, start: State, node: string, chrome: string, helper: string, s: State) returns (t: State)
    requires c.runner == Leader(10, 1) && c.server == None
    requires Reachable(c, start, s) && s.procs == Three(node, chrome, helper)
    ensures Reachable(c, start, t) && t == s.(procs := t.procs, vacated := t.vacated)
    ensures t.procs == map[10 := RunnerProc(node), 30 := HelperProc(0, helper)]
  {
    hide Reachable, ViewOf, Absorb;
    t := GoAway(c, start, s, 20);
    assert t.procs.Keys == {10, 30};
    assert t.procs[30] == HelperProc(0, helper) && t.procs[10] == RunnerProc(node);
  }

  /** So does the runner. */
  lemma RunnerExits(c: Config, start: State, node: string, helper: string, s: State) returns (t: State)
    requires c.runner == Leader(10, 1) && c.server == None
    requires Reachable(c, start, s) && s.procs == map[10 := RunnerProc(node), 30 := HelperProc(0, helper)]
    ensures Reachable(c, start, t) && t == s.(procs := t.procs, vacated := t.vacated, reaped := t.reaped)
    ensures t.procs == map[30 := HelperProc(0, helper)] && c.runner.uid in t.reaped
  {
    hide Reachable, ViewOf, Absorb;
    t := GoAway(c, start, s, 10);
    assert t.procs.Keys == {30};
    assert t.procs[30] == HelperProc(0, helper);
  }

  /** No group is left to signal and nothing to scan once the runner is reaped. */
  lemma StopOwner(c: Config, start: State, s: State) returns (t: State)
    requires Reachable(c, start, s) && s.phase == Watch && c.runner.uid in s.reaped && c.server == None
    ensures Reachable(c, start, t) && t == s.(phase := Refresh)
  {
    hide Reachable, Free, Adopts, ViewOf, Absorb, Members;
    assert c.Leaders() == [c.runner] && s.log + [] == s.log;
    Go(c, start, s, StopScanning);
    var s1 := Next(c, s, StopScanning);
    Go(c, start, s1, SignalGroup);
    var s2 := Next(c, s1, SignalGroup);
    Go(c, start, s2, SignalGroup);
    var s3 := Next(c, s2, SignalGroup);
    Go(c, start, s3, StopScanning);
    var s4 := Next(c, s3, StopScanning);
    Go(c, start, s4, SignalGroup);
    var s5 := Next(c, s4, SignalGroup);
    Go(c, start, s5, SignalGroup);
    var s6 := Next(c, s5, SignalGroup);
    Go(c, start, s6, StopScanning);
    t := Next(c, s6, StopScanning);
  }

  /** A phase of signals, whatever is sent, ends behind the last record. */
  lemma {:induction false} AllSignalled(c: Config, start: State, s: State) returns (t: State)
    requires Reachable(c, start, s) && (s.phase.Terminate? || s.phase.Kill?) && s.phase.next <= |s.inventory|
    ensures Reachable(c, start, t) && t.phase == if s.phase.Kill? then Verify else Wait
    ensures t == s.(phase := t.phase, log := t.log)
    decreases |s.inventory| - s.phase.next
  {
    hide Reachable, Same, Candidate, SentTo;
    Go(c, start, s, SignalNext);
    var n := Next(c, s, SignalNext);
    if s.phase.next == |s.inventory| {
      t := n;
    } else {
      t := AllSignalled(c, start, n);
    }
  }

  /** Refresh, TERM, wait, KILL and verify, each read succeeding, with nothing
      changing meanwhile. */
  lemma CleanUp(c: Config, start: State, s: State) returns (t: State)
    requires Reachable(c, start, s) && s.phase == Refresh
    ensures Reachable(c, start, t) && t.phase == Done && t.procs == s.procs == t.seen
    ensures t.inventory == s.inventory && t.reaped == s.reaped && t.failed == s.failed
  {
    hide Reachable;
    t := GoRead(c, start, s);
    t := AllSignalled(c, start, t);
    t := GoRead(c, start, t);
    t := GoOn(c, start, t);
    t := GoRead(c, start, t);
    t := AllSignalled(c, start, t);
    t := GoRead(c, start, t);
    t := GoOn(c, start, t);
  }

  /** What the processes contribute to a passing verdict. */
  ghost predicate Passing(c: Config, s: State) {
    && Observed(s) && c.runner.uid in s.reaped && RootObserved(s.inventory, c.isBrowser)
    && forall l :: l in c.Leaders() ==> Members(s.procs, l.pid) == {}
  }

  /** For any browser command line and any other one there is a run that passes in
      which every read succeeds and is of the machine as it is at the end, while an
      inventoried process, born of the runner, is still there.  It leads a session
      of its own and does not exit. */
  lemma EscapeHappens(node: string, chrome: string, helper: string, isBrowser: string -> bool)
    requires isBrowser(chrome) && helper != chrome
    ensures Init(Setting(isBrowser), Start(node))
    ensures exists s :: Reachable(Setting(isBrowser), Start(node), s) && Passing(Setting(isBrowser), s)
                     && s.seen == s.procs
                     && exists j :: 0 <= j < |s.inventory| && Same(s.inventory[j], Snapshot(s.seen))
  {
    hide Reachable, Init;
    var c, start := Setting(isBrowser), Start(node);
    StartRight(node, isBrowser);
    var s := Launch(node, chrome, isBrowser);
    s := Scans(node, chrome, helper, isBrowser, s);
    s := BrowserExits(c, start, node, chrome, helper, s);
    s := RunnerExits(c, start, node, helper, s);
    s := StopOwner(c, start, s);
    s := CleanUp(c, start, s);
    Escaped(s.inventory, s.procs, chrome, helper);
    assert s.inventory[0] in s.inventory;
  }

  lemma Escaped(records: seq<Record>, procs: Procs, chrome: string, helper: string)
    requires Twice(records, chrome, helper) && helper != chrome && procs == map[30 := HelperProc(0, helper)]
    ensures AllMissing(records, Snapshot(procs)) && Same(records[2], Snapshot(procs))
  {
    var t := Snapshot(procs);
    assert t.Keys == {30} && t[30].start == "c" && t[30].command == helper;
    FirstOfHelper(records, chrome, helper);
    assert Missing(records, 0, t) && Missing(records, 1, t) && Missing(records, 2, t);
  }

  lemma FirstOfHelper(records: seq<Record>, chrome: string, helper: string)
    requires Twice(records, chrome, helper)
    ensures FirstLike(records, 30, "c") == Some(records[1])
  {
    assert records[1..][0] == records[1];
    assert FirstLike(records, 30, "c") == FirstLike(records[1..], 30, "c");
  }
}
