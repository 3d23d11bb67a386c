/**
  The ownership protocol of scripts/capture_owner_deadline.py as a state machine:
  steps of the operating system (spawn, exec, regroup, exit with reparenting,
  reaping, and so reuse of pids) interleave in any order with the owner's scans,
  table reads and signals.
*/
module ProcessProtocol {
  import opened Common
  import opened ProcessInventory
  import opened ProcessOwner

  /** A process until it is reaped.  `uid` tells instances apart that reuse one
      pid; `kin` holds its own uid and those of all its ancestors by birth. */
  datatype Proc = Proc(uid: nat, ppid: int, pgid: int, sid: int, start: string, command: string, kin: set<nat>,
                       zombie: bool)

  type Procs = map<int, Proc>

  datatype Birth = Birth(uid: nat, kin: set<nat>)

  /** Which instance a pid and start time belong to. */
  type Births = map<(int, string), Birth>

  /** A child that the owner started in a session of its own. */
  datatype Leader = Leader(pid: int, uid: nat)

  datatype Config = Config(runner: Leader, server: Option<Leader>, isBrowser: string -> bool)
  {
    predicate Leads(uid: nat) { uid == runner.uid || (server.Some? && uid == server.value.uid) }

    /** The groups to stop, in order. */
    function Leaders(): seq<Leader> { [runner] + if server.Some? then [server.value] else [] }
  }

  datatype Phase =
    | Watch | TermGroups(next: nat) | Grace | KillGroups(next: nat) | FinalScan
    | Refresh | Terminate(next: nat) | Wait | Reread | Kill(next: nat) | Verify | Done

  /** A table that was scanned, with the processes it shows. */
  datatype Scan = Scan(view: View, procs: Procs)

  /** What the owner sent.  To a group: who received it.  To a pid: the processes
      shown by the table it decided on and how many tables had been read by then,
      the process that received it, and whether the pid was vacated in between. */
  datatype Event =
    | ToGroup(leader: Leader, sig: Sig, receivers: set<Proc>)
    | ToPid(pid: int, sig: Sig, seen: Procs, read: nat, received: Option<Proc>, raced: bool)

  datatype State = State(procs: Procs, nextUid: nat, born: Births,
                         /** Leaders whose exit the owner has collected: poll() is no longer None. */ reaped: set<nat>,
                         phase: Phase, inventory: seq<Record>,
                         /** The processes shown by the table in use. */ seen: Procs, vacated: set<int>,
                         /** Every table that was read, scans included. */ tables: seq<Procs>, scans: seq<Scan>,
                         log: seq<Event>, /** A scan or a read of the table has failed. */ failed: bool)

  datatype Step =
    | Spawn(parent: int, pid: int, start: string)
    | Exec(pid: int, command: string)
    | Regroup(pid: int, pgid: int)
    | NewSession(pid: int)
    | Exit(pid: int, heir: int)
    | Reap(pid: int)
    | ScanTable(order: seq<int>)
    | ScanFails
    | StopScanning
    | SignalGroup
    | ReadTable
    | ReadFails
    | StopReading
    | SignalNext

  function Snapshot(procs: Procs): Table {
    map p | p in procs :: Row(p, procs[p].ppid, procs[p].pgid, procs[p].start, procs[p].command)
  }

  function ViewOf(c: Config, procs: Procs, order: seq<int>): View {
    View(order, Snapshot(procs), c.runner.pid, c.isBrowser)
  }

  /** Orphans go to a living ancestor by birth, or to no visible process. */
  predicate Adopts(procs: Procs, pid: int, heir: int) {
    forall q :: q in procs && procs[q].ppid == pid ==>
      heir <= 0 || (heir in procs && heir != pid && heir != q && !procs[heir].zombie && procs[heir].uid in procs[q].kin)
  }

  /** A free pid: no process, group or session has it. */
  predicate Free(procs: Procs, pid: int) {
    pid > 0 && pid !in procs && forall q :: q in procs ==> procs[q].pgid != pid && procs[q].sid != pid
  }

  /** What can happen.  No start time is given twice for one pid: that is what
      makes a start an identity.  A process changes its group within its session
      only.  The owner scans and signals groups while poll() says None, and so
      before it has reaped the leader; the last scan is left out only then. */
  ghost predicate Enabled(c: Config, s: State, step: Step) {
    match step
    case Spawn(parent, pid, start) =>
      parent in s.procs && !s.procs[parent].zombie && Free(s.procs, pid) && (pid, start) !in s.born
    case Exec(pid, _) => pid in s.procs
    case Regroup(pid, pgid) =>
      pid in s.procs
      && (pgid == pid || exists q :: q in s.procs && s.procs[q].pgid == pgid && s.procs[q].sid == s.procs[pid].sid)
    case NewSession(pid) => pid in s.procs
    case Exit(pid, heir) => pid in s.procs && !s.procs[pid].zombie && Adopts(s.procs, pid, heir)
    case Reap(pid) => pid in s.procs && s.procs[pid].zombie
    case ScanTable(order) =>
      s.phase in {Watch, Grace, FinalScan} && c.runner.uid !in s.reaped && ViewOf(c, s.procs, order).Valid()
    case ScanFails => s.phase in {Watch, Grace, FinalScan} && c.runner.uid !in s.reaped
    case StopScanning => s.phase in {Watch, Grace} || (s.phase.FinalScan? && c.runner.uid in s.reaped)
    case SignalGroup => s.phase.TermGroups? || s.phase.KillGroups?
    case ReadTable => s.phase in {Refresh, Wait, Reread, Verify}
    case ReadFails => s.phase in {Refresh, Wait, Reread, Verify}
    case StopReading => s.phase in {Wait, Verify}
    case SignalNext => s.phase.Terminate? || s.phase.Kill?
  }

  function AfterScanning(p: Phase): Phase {
    match p case Watch => TermGroups(0) case Grace => KillGroups(0) case _ => Refresh
  }

  function AfterReading(p: Phase): Phase {
    match p case Refresh => Terminate(0) case Reread => Kill(0) case Wait => Reread case _ => Done
  }

  function Members(procs: Procs, pgid: int): set<Proc> { set p | p in procs && procs[p].pgid == pgid :: procs[p] }

  /** The group of a leader is signalled exactly while the leader is not reaped. */
  function ToLeader(s: State, l: Leader, sig: Sig): seq<Event> {
    if l.uid in s.reaped then [] else [ToGroup(l, sig, Members(s.procs, l.pid))]
  }

  function GroupStep(c: Config, s: State): State
    requires s.phase.TermGroups? || s.phase.KillGroups?
  {
    var i := s.phase.next;
    if i >= |c.Leaders()| then s.(phase := if s.phase.KillGroups? then FinalScan else Grace)
    else
      s.(log := s.log + ToLeader(s, c.Leaders()[i], if s.phase.KillGroups? then KILL else TERM),
         phase := if s.phase.KillGroups? then KillGroups(i + 1) else TermGroups(i + 1))
  }

  /** The record the i-th signal is decided by: each record for TERM, the first one
      with the same pid and start for KILL. */
  function Candidate(s: State, i: nat): Option<Record>
    requires i < |s.inventory|
  {
    var r := s.inventory[i];
    if s.phase.Kill? then FirstLike(s.inventory, r.row.pid, r.row.start) else Some(r)
  }

  function SentTo(s: State, pid: int, sig: Sig): Event {
    ToPid(pid, sig, s.seen, |s.tables|, if pid in s.procs then Some(s.procs[pid]) else None, pid in s.vacated)
  }

  function SignalStep(s: State): State
    requires s.phase.Terminate? || s.phase.Kill?
  {
    var i := s.phase.next;
    if i >= |s.inventory| then s.(phase := if s.phase.Kill? then Verify else Wait)
    else
      var r, sig := Candidate(s, i), if s.phase.Kill? then KILL else TERM;
      var sent := if r.Some? && Same(r.value, Snapshot(s.seen)) then [SentTo(s, r.value.row.pid, sig)] else [];
      s.(log := s.log + sent, phase := if s.phase.Kill? then Kill(i + 1) else Terminate(i + 1))
  }

  function Child(parent: Proc, parentPid: int, uid: nat, start: string): Proc {
    Proc(uid, parentPid, parent.pgid, parent.sid, start, parent.command, parent.kin + {uid}, false)
  }

  function Exited(procs: Procs, pid: int, heir: int): Procs
    requires pid in procs
  {
    map p | p in procs ::
      if p == pid then procs[p].(zombie := true)
      else if procs[p].ppid == pid then procs[p].(ppid := heir)
      else procs[p]
  }

  ghost function Next(c: Config, s: State, step: Step): State
    requires Enabled(c, s, step)
  {
    match step
    case Spawn(parent, pid, start) =>
      var child := Child(s.procs[parent], parent, s.nextUid, start);
      s.(procs := s.procs[pid := child], nextUid := s.nextUid + 1,
         born := s.born[(pid, start) := Birth(child.uid, child.kin)])
    case Exec(pid, command) => s.(procs := s.procs[pid := s.procs[pid].(command := command)])
    case Regroup(pid, pgid) => s.(procs := s.procs[pid := s.procs[pid].(pgid := pgid)])
    case NewSession(pid) => s.(procs := s.procs[pid := s.procs[pid].(pgid := pid, sid := pid)])
    case Exit(pid, heir) => s.(procs := Exited(s.procs, pid, heir))
    case Reap(pid) =>
      s.(procs := s.procs - {pid}, vacated := s.vacated + {pid},
         reaped := if c.Leads(s.procs[pid].uid) then s.reaped + {s.procs[pid].uid} else s.reaped)
    case ScanTable(order) =>
      var v := ViewOf(c, s.procs, order);
      var after := Absorb(v, s.inventory, 0);
      s.(inventory := after.0, seen := s.procs, vacated := {}, tables := s.tables + [s.procs],
         scans := s.scans + [Scan(v, s.procs)], failed := s.failed || !after.1,
         phase := if s.phase.Grace? || (s.phase.Watch? && after.1) then s.phase else AfterScanning(s.phase))
    case ScanFails => s.(failed := true, phase := if s.phase.Grace? then Grace else AfterScanning(s.phase))
    case StopScanning => s.(phase := AfterScanning(s.phase))
    case SignalGroup => GroupStep(c, s)
    case ReadTable =>
      var t := s.(seen := s.procs, vacated := {}, tables := s.tables + [s.procs]);
      if s.phase.Wait? || s.phase.Verify? then t else t.(phase := AfterReading(s.phase))
    case ReadFails =>
      if s.phase.Wait? || s.phase.Verify? then s.(failed := true, phase := AfterReading(s.phase))
      else s.(failed := true, seen := map[], phase := AfterReading(s.phase))
    case StopReading => s.(phase := AfterReading(s.phase))
    case SignalNext => SignalStep(s)
  }

  // ---- What every reachable state keeps ----

  /** A pid and a start name one instance, and no two name the same. */
  ghost predicate BirthsRight(born: Births, nextUid: nat) {
    && (forall k :: k in born ==> born[k].uid < nextUid && forall u :: u in born[k].kin ==> u < nextUid)
    && (forall k, l :: k in born && l in born && born[k].uid == born[l].uid ==> k == l)
  }

  predicate BornAs(born: Births, pid: int, p: Proc) {
    (pid, p.start) in born && born[(pid, p.start)] == Birth(p.uid, p.kin)
  }

  ghost predicate AllBorn(born: Births, procs: Procs) {
    forall p :: p in procs ==> BornAs(born, p, procs[p])
  }

  /** Parents are living ancestors by birth, and ancestry is transitive. */
  ghost predicate KinRight(procs: Procs) {
    && (forall p :: p in procs ==>
          p > 0 && procs[p].ppid != p && procs[p].uid in procs[p].kin && ParentRight(procs, procs[p]))
    && (forall p, q :: p in procs && q in procs && procs[q].uid in procs[p].kin ==> procs[q].kin <= procs[p].kin)
  }

  predicate ParentRight(procs: Procs, p: Proc) {
    p.ppid <= 0 || (p.ppid in procs && procs[p.ppid].uid in p.kin && !procs[p.ppid].zombie)
  }

  /** Until it is reaped a leader holds its pid and leads its session, and only
      its descendants by birth are in its session or group. */
  ghost predicate Led(procs: Procs, l: Leader) {
    && l.pid in procs && procs[l.pid].uid == l.uid && procs[l.pid].sid == l.pid
    && forall p :: p in procs ==>
         (procs[p].pgid == l.pid ==> procs[p].sid == l.pid) && (procs[p].sid == l.pid ==> l.uid in procs[p].kin)
  }

  ghost predicate LeadersRight(c: Config, procs: Procs, reaped: set<nat>) {
    && (c.runner.uid !in reaped ==> Led(procs, c.runner))
    && (c.server.Some? && c.server.value.uid !in reaped ==> Led(procs, c.server.value))
  }

  ghost predicate MachineRight(c: Config, s: State) {
    && BirthsRight(s.born, s.nextUid) && AllBorn(s.born, s.procs) && KinRight(s.procs)
    && LeadersRight(c, s.procs, s.reaped)
  }

  predicate SameInstance(p: Proc, q: Proc) { p.uid == q.uid && p.kin == q.kin }

  /** The table in use is the last one read, and its pids not vacated since still
      belong to the instances it shows. */
  ghost predicate SeenRight(s: State) {
    && AllBorn(s.born, s.seen)
    && (s.seen == map[] || (s.tables != [] && s.seen == s.tables[|s.tables| - 1]))
    && (!s.failed ==> if s.tables == [] then !Reading(s.phase) else s.seen == s.tables[|s.tables| - 1])
    && NotVacated(s.seen, s.vacated, s.procs)
  }

  /** The owner has refreshed its table. */
  predicate Reading(p: Phase) {
    p.Terminate? || p.Wait? || p.Reread? || p.Kill? || p.Verify? || p.Done?
  }

  ghost predicate NotVacated(seen: Procs, vacated: set<int>, procs: Procs) {
    forall p :: p in seen && p !in vacated ==> p in procs && SameInstance(procs[p], seen[p])
  }

  function Views(scans: seq<Scan>): seq<View> { seq(|scans|, i requires 0 <= i < |scans| => scans[i].view) }

  ghost predicate ScanRight(c: Config, born: Births, scan: Scan) {
    && scan.view == ViewOf(c, scan.procs, scan.view.order) && scan.view.Valid()
    && AllBorn(born, scan.procs) && KinRight(scan.procs) && Led(scan.procs, c.runner)
  }

  ghost predicate ScansRight(c: Config, born: Births, scans: seq<Scan>) {
    forall k :: 0 <= k < |scans| ==> ScanRight(c, born, scans[k])
  }

  /** A group signal went to an owned group, all of it born of its leader.  A
      signal to a pid was decided on a table really read whose row is an
      inventoried process; unless the pid was vacated since, the instance behind
      that row received it. */
  ghost predicate EventOk(c: Config, inventory: seq<Record>, born: Births, tables: seq<Procs>, e: Event) {
    match e
    case ToGroup(l, _, receivers) =>
      && (l == c.runner || c.server == Some(l))
      && forall q :: q in receivers ==> q.pgid == l.pid && l.uid in q.kin
    case ToPid(pid, _, seen, read, received, raced) =>
      && 0 < read <= |tables| && seen == tables[read - 1] && pid in seen
      && Justified(inventory, pid, Snapshot(seen)) && BornAs(born, pid, seen[pid])
      && (!raced ==> received.Some? && SameInstance(received.value, seen[pid]))
  }

  ghost predicate EventsOk(c: Config, inventory: seq<Record>, born: Births, tables: seq<Procs>, log: seq<Event>) {
    forall k :: 0 <= k < |log| ==> EventOk(c, inventory, born, tables, log[k])
  }

  ghost predicate OwnerRight(c: Config, s: State) {
    && SeenRight(s) && ScansRight(c, s.born, s.scans)
    && Grounded(s.inventory, Views(s.scans)) && DistinctIdentities(s.inventory)
    && EventsOk(c, s.inventory, s.born, s.tables, s.log)
  }

  ghost predicate Inv(c: Config, s: State) { MachineRight(c, s) && OwnerRight(c, s) }

  /** Any machine with the two leaders started, the owner about to watch, and
      nothing scanned or sent. */
  ghost predicate Init(c: Config, s: State) {
    && MachineRight(c, s) && s.reaped == {} && s.phase == Watch && s.inventory == []
    && s.seen == map[] && s.tables == [] && s.scans == [] && s.log == [] && !s.failed
  }

  lemma InitRight(c: Config, s: State)
    requires Init(c, s)
    ensures Inv(c, s)
  {
    hide MachineRight;
  }

  // ---- The machine's steps ----

  ghost predicate BornMore(a: Births, b: Births) {
    forall k :: k in a ==> k in b && a[k] == b[k]
  }

  lemma BornStays(a: Births, b: Births, procs: Procs)
    requires BornMore(a, b) && AllBorn(a, procs)
    ensures AllBorn(b, procs)
  {
  }

  lemma ScansStay(c: Config, a: Births, b: Births, scans: seq<Scan>)
    requires ScansRight(c, a, scans) && BornMore(a, b)
    ensures ScansRight(c, b, scans)
  {
    hide AllBorn, BornMore, KinRight, Led, ViewOf;
    forall k | 0 <= k < |scans| ensures ScanRight(c, b, scans[k]) { BornStays(a, b, scans[k].procs); }
  }

  lemma EventsStay(c: Config, was: seq<Record>, now: seq<Record>, a: Births, b: Births, earlier: seq<Procs>,
                   tables: seq<Procs>, log: seq<Event>)
    requires EventsOk(c, was, a, earlier, log) && BornMore(a, b) && was <= now && earlier <= tables
    ensures EventsOk(c, now, b, tables, log)
  {
    hide Same, Snapshot;
    forall k | 0 <= k < |log| ensures EventOk(c, now, b, tables, log[k]) {
      var e := log[k];
      assert EventOk(c, was, a, earlier, e);
      if e.ToPid? {
        var j :| 0 <= j < |was| && e.pid == was[j].row.pid && Same(was[j], Snapshot(e.seen));
        assert now[j] == was[j];
        assert tables[e.read - 1] == earlier[e.read - 1];
      }
    }
  }

  /** A step of the machine alone keeps what the owner relies on. */
  lemma MachineStep(c: Config, s: State, t: State)
    requires Inv(c, s) && MachineRight(c, t) && BornMore(s.born, t.born) && NotVacated(t.seen, t.vacated, t.procs)
    requires t.inventory == s.inventory && t.seen == s.seen && t.tables == s.tables && t.scans == s.scans
    requires t.log == s.log && t.failed == s.failed && t.phase == s.phase
    ensures Inv(c, t)
  {
    hide MachineRight, NotVacated, EventsOk, Grounded, DistinctIdentities, ScansRight, AllBorn, BornMore;
    BornStays(s.born, t.born, s.seen);
    ScansStay(c, s.born, t.born, s.scans);
    EventsStay(c, s.inventory, t.inventory, s.born, t.born, s.tables, t.tables, s.log);
  }

  lemma SameBirths(born: Births)
    ensures BornMore(born, born)
  {
  }

  lemma SpawnKin(procs: Procs, born: Births, nextUid: nat, parent: int, pid: int, start: string)
    requires KinRight(procs) && AllBorn(born, procs) && BirthsRight(born, nextUid)
    requires parent in procs && !procs[parent].zombie && Free(procs, pid)
    ensures KinRight(procs[pid := Child(procs[parent], parent, nextUid, start)])
  {
    hide Free, AllBorn, BirthsRight;
    var child := Child(procs[parent], parent, nextUid, start);
    var now := procs[pid := child];
    assert pid !in procs && pid > 0 by { FreePid(procs, pid); }
    FreshUid(procs, born, nextUid);
    forall p | p in now ensures p > 0 && now[p].ppid != p && now[p].uid in now[p].kin && ParentRight(now, now[p]) {
      if p != pid { assert ParentRight(procs, procs[p]); }
    }
  }

  lemma FreshUid(procs: Procs, born: Births, nextUid: nat)
    requires AllBorn(born, procs) && BirthsRight(born, nextUid)
    ensures forall p :: p in procs ==> nextUid !in procs[p].kin && procs[p].uid != nextUid
  {
    forall p | p in procs ensures nextUid !in procs[p].kin && procs[p].uid != nextUid {
      assert BornAs(born, p, procs[p]);
    }
  }

  lemma FreePid(procs: Procs, pid: int)
    requires Free(procs, pid)
    ensures pid > 0 && pid !in procs && forall q :: q in procs ==> procs[q].pgid != pid && procs[q].sid != pid
  {
  }

  lemma SpawnLed(procs: Procs, l: Leader, parent: int, pid: int, uid: nat, start: string)
    requires Led(procs, l) && parent in procs && Free(procs, pid)
    ensures Led(procs[pid := Child(procs[parent], parent, uid, start)], l)
  {
  }

  lemma SpawnBirths(procs: Procs, born: Births, nextUid: nat, pid: int, child: Proc)
    requires BirthsRight(born, nextUid) && AllBorn(born, procs) && (pid, child.start) !in born
    requires child.uid == nextUid && forall u :: u in child.kin ==> u <= nextUid
    ensures var more := born[(pid, child.start) := Birth(child.uid, child.kin)];
            BirthsRight(more, nextUid + 1) && AllBorn(more, procs[pid := child]) && BornMore(born, more)
  {
  }

  lemma SpawnKeeps(c: Config, s: State, parent: int, pid: int, start: string)
    requires Inv(c, s) && Enabled(c, s, Spawn(parent, pid, start))
    ensures Inv(c, Next(c, s, Spawn(parent, pid, start)))
  {
    hide EventsOk, Grounded, DistinctIdentities, ScansRight, KinRight, Led, BirthsRight, BornMore, Free;
    var t := Next(c, s, Spawn(parent, pid, start));
    var child := Child(s.procs[parent], parent, s.nextUid, start);
    FreePid(s.procs, pid);
    SpawnKin(s.procs, s.born, s.nextUid, parent, pid, start);
    assert BornAs(s.born, parent, s.procs[parent]);
    assert forall u :: u in child.kin ==> u <= s.nextUid by { KinOld(s.born, s.nextUid, parent, s.procs[parent]); }
    SpawnBirths(s.procs, s.born, s.nextUid, pid, child);
    if c.runner.uid !in s.reaped { SpawnLed(s.procs, c.runner, parent, pid, s.nextUid, start); }
    if c.server.Some? && c.server.value.uid !in s.reaped {
      SpawnLed(s.procs, c.server.value, parent, pid, s.nextUid, start);
    }
    MachineStep(c, s, t);
  }

  lemma KinOld(born: Births, nextUid: nat, pid: int, p: Proc)
    requires BirthsRight(born, nextUid) && BornAs(born, pid, p)
    ensures forall u :: u in p.kin ==> u < nextUid
  {
  }

  /** Steps that change one process but not its parent, birth or life. */
  lemma TouchKin(procs: Procs, pid: int, p: Proc)
    requires KinRight(procs) && pid in procs
    requires p == procs[pid].(command := p.command, pgid := p.pgid, sid := p.sid)
    ensures KinRight(procs[pid := p])
  {
    var now := procs[pid := p];
    forall q | q in now ensures q > 0 && now[q].ppid != q && now[q].uid in now[q].kin && ParentRight(now, now[q]) {
      assert ParentRight(procs, procs[q]);
    }
  }

  lemma TouchLed(procs: Procs, l: Leader, pid: int, p: Proc)
    requires Led(procs, l) && KinRight(procs) && pid in procs
    requires p == procs[pid].(command := p.command, pgid := p.pgid, sid := p.sid)
    requires p.sid == pid || p.sid == procs[pid].sid
    requires p.pgid == pid || p.pgid == procs[pid].pgid
             || exists q :: q in procs && procs[q].pgid == p.pgid && procs[q].sid == procs[pid].sid
    requires p.sid != procs[pid].sid ==> p.pgid == pid
    ensures Led(procs[pid := p], l)
  {
  }

  lemma TouchKeeps(c: Config, s: State, pid: int, p: Proc)
    requires Inv(c, s) && pid in s.procs
    requires p == s.procs[pid].(command := p.command, pgid := p.pgid, sid := p.sid)
    requires p.sid == pid || p.sid == s.procs[pid].sid
    requires p.pgid == pid || p.pgid == s.procs[pid].pgid
          || exists q :: q in s.procs && s.procs[q].pgid == p.pgid && s.procs[q].sid == s.procs[pid].sid
    requires p.sid != s.procs[pid].sid ==> p.pgid == pid
    ensures Inv(c, s.(procs := s.procs[pid := p]))
  {
    hide EventsOk, Grounded, DistinctIdentities, ScansRight, KinRight, Led, BirthsRight;
    TouchKin(s.procs, pid, p);
    if c.runner.uid !in s.reaped { TouchLed(s.procs, c.runner, pid, p); }
    if c.server.Some? && c.server.value.uid !in s.reaped { TouchLed(s.procs, c.server.value, pid, p); }
    SameBirths(s.born);
    MachineStep(c, s, s.(procs := s.procs[pid := p]));
  }

  lemma ExitKin(procs: Procs, pid: int, heir: int)
    requires KinRight(procs) && pid in procs && Adopts(procs, pid, heir)
    ensures KinRight(Exited(procs, pid, heir))
  {
    var now := Exited(procs, pid, heir);
    forall q | q in now ensures q > 0 && now[q].ppid != q && now[q].uid in now[q].kin && ParentRight(now, now[q]) {
      assert ParentRight(procs, procs[q]);
    }
  }

  lemma ExitKeeps(c: Config, s: State, pid: int, heir: int)
    requires Inv(c, s) && Enabled(c, s, Exit(pid, heir))
    ensures Inv(c, Next(c, s, Exit(pid, heir)))
  {
    hide EventsOk, Grounded, DistinctIdentities, ScansRight, KinRight, BirthsRight, Adopts;
    ExitKin(s.procs, pid, heir);
    SameBirths(s.born);
    MachineStep(c, s, Next(c, s, Exit(pid, heir)));
  }

  lemma ReapKin(procs: Procs, pid: int)
    requires KinRight(procs) && pid in procs && procs[pid].zombie
    ensures KinRight(procs - {pid})
  {
    var now := procs - {pid};
    forall q | q in now ensures q > 0 && now[q].ppid != q && now[q].uid in now[q].kin && ParentRight(now, now[q]) {
      assert ParentRight(procs, procs[q]);
    }
  }

  lemma ReapLed(procs: Procs, l: Leader, pid: int)
    requires Led(procs, l) && pid in procs && procs[pid].uid != l.uid
    ensures Led(procs - {pid}, l)
  {
  }

  lemma ReapKeeps(c: Config, s: State, pid: int)
    requires Inv(c, s) && Enabled(c, s, Reap(pid))
    ensures Inv(c, Next(c, s, Reap(pid)))
  {
    hide EventsOk, Grounded, DistinctIdentities, ScansRight, KinRight, BirthsRight, Led;
    var t := Next(c, s, Reap(pid));
    ReapKin(s.procs, pid);
    if c.runner.uid !in t.reaped { ReapLed(s.procs, c.runner, pid); }
    if c.server.Some? && c.server.value.uid !in t.reaped { ReapLed(s.procs, c.server.value, pid); }
    SameBirths(s.born);
    MachineStep(c, s, t);
  }

  // ---- The owner's steps ----

  lemma ReadKeeps(c: Config, s: State, step: Step)
    requires Inv(c, s) && Enabled(c, s, step) && (step.ReadTable? || step.ReadFails? || step.StopReading?)
    ensures Inv(c, Next(c, s, step))
  {
    hide Inv, SeenRight;
    var t := Next(c, s, step);
    ReadSees(c, s, step);
    LookKeeps(c, s, t);
  }

  lemma ReadSees(c: Config, s: State, step: Step)
    requires Inv(c, s) && Enabled(c, s, step) && (step.ReadTable? || step.ReadFails? || step.StopReading?)
    ensures SeenRight(Next(c, s, step))
  {
    hide MachineRight, EventsOk, Grounded, DistinctIdentities, ScansRight, AllBorn, NotVacated, Snapshot;
    if step.ReadTable? { AllBornNow(c, s); }
    NothingSeen(s);
  }

  /** Another table in use changes nothing else the owner relies on. */
  lemma LookKeeps(c: Config, s: State, t: State)
    requires Inv(c, s) && SeenRight(t) && s.tables <= t.tables
    requires t == s.(seen := t.seen, vacated := t.vacated, tables := t.tables, failed := t.failed, phase := t.phase)
    ensures Inv(c, t)
  {
    hide MachineRight, SeenRight, EventsOk, Grounded, DistinctIdentities, ScansRight;
    SameMachine(c, s, t);
    SameBirths(s.born);
    EventsStay(c, s.inventory, t.inventory, s.born, t.born, s.tables, t.tables, s.log);
  }

  lemma NothingSeen(s: State)
    ensures AllBorn(s.born, map[]) && forall vacated :: NotVacated(map[], vacated, s.procs)
  {
  }

  /** The machine does not notice the owner looking. */
  lemma SameMachine(c: Config, s: State, t: State)
    requires t.procs == s.procs && t.born == s.born && t.nextUid == s.nextUid && t.reaped == s.reaped
    ensures MachineRight(c, s) ==> MachineRight(c, t)
  {
  }

  lemma AllBornNow(c: Config, s: State)
    requires MachineRight(c, s)
    ensures AllBorn(s.born, s.procs) && NotVacated(s.procs, {}, s.procs)
  {
  }

  lemma {:induction false} AbsorbGrounded(v: View, records: seq<Record>, from: nat, scans: seq<View>)
    requires v.Valid() && v in scans && from <= |v.order|
    requires Grounded(records, scans) && DistinctIdentities(records)
    ensures Grounded(Absorb(v, records, from).0, scans) && DistinctIdentities(Absorb(v, records, from).0)
    decreases |v.order| - from
  {
    hide View.RecordFor, View.Valid, Below, BrowserAbove, IsLineage;
    if from < |v.order| {
      var p := v.order[from];
      var r := v.RecordFor(p);
      if r.Some? && !Known(records, IdentityOf(r.value.row)) {
        var more := records + [r.value];
        RecordedExactly(v, p);
        assert SeenIn(r.value, scans);
        assert forall i :: 0 <= i < |records| ==> more[i] == records[i];
        assert Grounded(more, scans);
        if |more| <= LIMIT { AbsorbGrounded(v, more, from + 1, scans); }
      } else {
        AbsorbGrounded(v, records, from + 1, scans);
      }
    }
  }

  lemma GroundedMore(records: seq<Record>, scans: seq<View>, v: View)
    requires Grounded(records, scans)
    ensures Grounded(records, scans + [v])
  {
    forall i | 0 <= i < |records| ensures SeenIn(records[i], scans + [v]) {
      assert SeenIn(records[i], scans);
      var u :| u in scans && u.Valid() && u.RecordFor(records[i].row.pid) == Some(records[i]);
      assert u in scans + [v];
    }
  }

  lemma NewScanRight(c: Config, s: State, order: seq<int>)
    requires MachineRight(c, s) && c.runner.uid !in s.reaped && ViewOf(c, s.procs, order).Valid()
    ensures ScanRight(c, s.born, Scan(ViewOf(c, s.procs, order), s.procs))
  {
    hide KinRight, Led, AllBorn, BirthsRight;
  }

  lemma ScanKeeps(c: Config, s: State, order: seq<int>)
    requires Inv(c, s) && Enabled(c, s, ScanTable(order))
    ensures Inv(c, Next(c, s, ScanTable(order)))
  {
    hide MachineRight, Absorb, Walk, EventsOk, Grounded, DistinctIdentities, ScanRight, AllBorn, NotVacated, ViewOf;
    var t := Next(c, s, ScanTable(order));
    var v := ViewOf(c, s.procs, order);
    SameMachine(c, s, t);
    SameBirths(s.born);
    AllBornNow(c, s);
    NewScanRight(c, s, order);
    assert ViewOf(c, s.procs, order).Valid() && v.Valid();
    assert Views(t.scans) == Views(s.scans) + [v];
    GroundedMore(s.inventory, Views(s.scans), v);
    assert v in Views(t.scans) by { assert Views(t.scans)[|s.scans|] == v; }
    AbsorbGrounded(v, s.inventory, 0, Views(t.scans));
    AbsorbComplete(v, s.inventory, 0);
    EventsStay(c, s.inventory, t.inventory, s.born, t.born, s.tables, t.tables, s.log);
  }

  lemma PhaseKeeps(c: Config, s: State, step: Step)
    requires Inv(c, s) && Enabled(c, s, step) && (step.ScanFails? || step.StopScanning?)
    ensures Inv(c, Next(c, s, step))
  {
    hide MachineRight, Grounded, DistinctIdentities, ScansRight, EventsOk;
    SameMachine(c, s, Next(c, s, step));
  }

  lemma EventsAppend(c: Config, inventory: seq<Record>, born: Births, tables: seq<Procs>, a: seq<Event>, b: seq<Event>)
    requires EventsOk(c, inventory, born, tables, a) && EventsOk(c, inventory, born, tables, b)
    ensures EventsOk(c, inventory, born, tables, a + b)
  {
    hide EventOk;
  }

  /** A step that only sends. */
  lemma SendStep(c: Config, s: State, sent: seq<Event>, phase: Phase)
    requires Inv(c, s) && EventsOk(c, s.inventory, s.born, s.tables, sent) && (Reading(phase) ==> Reading(s.phase))
    ensures Inv(c, s.(log := s.log + sent, phase := phase))
  {
    hide MachineRight, Grounded, DistinctIdentities, ScansRight, EventsOk;
    SameMachine(c, s, s.(log := s.log + sent, phase := phase));
    EventsAppend(c, s.inventory, s.born, s.tables, s.log, sent);
  }

  lemma MembersBorn(procs: Procs, l: Leader)
    requires Led(procs, l)
    ensures forall q :: q in Members(procs, l.pid) ==> q.pgid == l.pid && l.uid in q.kin
  {
  }

  lemma LeadersLed(c: Config, s: State, i: nat)
    requires MachineRight(c, s) && i < |c.Leaders()|
    ensures var l := c.Leaders()[i];
            (l == c.runner || c.server == Some(l)) && (l.uid !in s.reaped ==> Led(s.procs, l))
  {
    hide KinRight, BirthsRight, AllBorn, Led;
  }

  lemma GroupsKeep(c: Config, s: State)
    requires Inv(c, s) && Enabled(c, s, SignalGroup)
    ensures Inv(c, Next(c, s, SignalGroup))
  {
    hide MachineRight, Led, OwnerRight, Members, EventsOk, Reading;
    var i, kill := s.phase.next, s.phase.KillGroups?;
    NotReading(s.phase);
    NoEvents(c, s.inventory, s.born, s.tables);
    assert s.log + [] == s.log;
    if i >= |c.Leaders()| {
      NotReading(if kill then FinalScan else Grace);
      SendStep(c, s, [], if kill then FinalScan else Grace);
    } else {
      var l := c.Leaders()[i];
      LeadersLed(c, s, i);
      if l.uid !in s.reaped {
        MembersBorn(s.procs, l);
        OneEvent(c, s.inventory, s.born, s.tables, ToLeader(s, l, if kill then KILL else TERM)[0]);
      }
      var phase := if kill then KillGroups(i + 1) else TermGroups(i + 1);
      NotReading(phase);
      SendStep(c, s, ToLeader(s, l, if kill then KILL else TERM), phase);
    }
  }

  lemma NotReading(p: Phase)
    ensures p.TermGroups? || p.KillGroups? || p.Grace? || p.FinalScan? ==> !Reading(p)
  {
  }

  /** The record a signal is decided by is inventoried. */
  lemma CandidateKnown(s: State, i: nat)
    requires i < |s.inventory| && Candidate(s, i).Some?
    ensures exists j :: 0 <= j < |s.inventory| && s.inventory[j] == Candidate(s, i).value
  {
    hide FirstLike;
    FirstIsOne(s.inventory, s.inventory[i].row.pid, s.inventory[i].row.start);
  }

  lemma SentOk(c: Config, s: State, i: nat, sig: Sig)
    requires Inv(c, s) && i < |s.inventory| && Candidate(s, i).Some? && Same(Candidate(s, i).value, Snapshot(s.seen))
    ensures EventsOk(c, s.inventory, s.born, s.tables, [SentTo(s, Candidate(s, i).value.row.pid, sig)])
  {
    hide MachineRight, Grounded, DistinctIdentities, ScansRight, EventsOk, Candidate;
    CandidateKnown(s, i);
    var pid := Candidate(s, i).value.row.pid;
    assert Justified(s.inventory, pid, Snapshot(s.seen));
    assert pid in s.seen && BornAs(s.born, pid, s.seen[pid]);
    OneEvent(c, s.inventory, s.born, s.tables, SentTo(s, pid, sig));
  }

  lemma OneEvent(c: Config, inventory: seq<Record>, born: Births, tables: seq<Procs>, e: Event)
    requires EventOk(c, inventory, born, tables, e)
    ensures EventsOk(c, inventory, born, tables, [e])
  {
    hide EventOk;
  }

  lemma NoEvents(c: Config, inventory: seq<Record>, born: Births, tables: seq<Procs>)
    ensures EventsOk(c, inventory, born, tables, [])
  {
  }

  lemma SignalKeeps(c: Config, s: State)
    requires Inv(c, s) && Enabled(c, s, SignalNext)
    ensures Inv(c, Next(c, s, SignalNext))
  {
    hide MachineRight, OwnerRight, Candidate, EventsOk, Same, SentTo;
    var i := s.phase.next;
    NoEvents(c, s.inventory, s.born, s.tables);
    assert s.log + [] == s.log;
    if i >= |s.inventory| {
      SendStep(c, s, [], if s.phase.Kill? then Verify else Wait);
    } else {
      var r, sig := Candidate(s, i), if s.phase.Kill? then KILL else TERM;
      if r.Some? && Same(r.value, Snapshot(s.seen)) {
        SentOk(c, s, i, sig);
        SendStep(c, s, [SentTo(s, r.value.row.pid, sig)], if s.phase.Kill? then Kill(i + 1) else Terminate(i + 1));
      } else {
        SendStep(c, s, [], if s.phase.Kill? then Kill(i + 1) else Terminate(i + 1));
      }
    }
  }

  lemma TouchStep(c: Config, s: State, step: Step)
    requires Inv(c, s) && Enabled(c, s, step) && (step.Exec? || step.Regroup? || step.NewSession?)
    ensures Inv(c, Next(c, s, step))
  {
    hide Inv;
    match step
    case Exec(pid, command) => TouchKeeps(c, s, pid, s.procs[pid].(command := command));
    case Regroup(pid, pgid) => TouchKeeps(c, s, pid, s.procs[pid].(pgid := pgid));
    case NewSession(pid) => TouchKeeps(c, s, pid, s.procs[pid].(pgid := pid, sid := pid));
  }

  /** Every step of the machine or the owner keeps the invariant. */
  lemma StepKeeps(c: Config, s: State, step: Step)
    requires Inv(c, s) && Enabled(c, s, step)
    ensures Inv(c, Next(c, s, step))
  {
    hide Inv, Enabled, Next;
    match step
    case Spawn(parent, pid, start) => SpawnKeeps(c, s, parent, pid, start);
    case Exec(_, _) => TouchStep(c, s, step);
    case Regroup(_, _) => TouchStep(c, s, step);
    case NewSession(_) => TouchStep(c, s, step);
    case Exit(pid, heir) => ExitKeeps(c, s, pid, heir);
    case Reap(pid) => ReapKeeps(c, s, pid);
    case ScanTable(order) => ScanKeeps(c, s, order);
    case ScanFails => PhaseKeeps(c, s, step);
    case StopScanning => PhaseKeeps(c, s, step);
    case SignalGroup => GroupsKeep(c, s);
    case ReadTable => ReadKeeps(c, s, step);
    case ReadFails => ReadKeeps(c, s, step);
    case StopReading => ReadKeeps(c, s, step);
    case SignalNext => SignalKeeps(c, s);
  }

  // ---- Runs ----

  /** The state after the steps, when each is enabled. */
  ghost function After(c: Config, start: State, steps: seq<Step>): Option<State> {
    if steps == [] then Some(start)
    else
      var before := After(c, start, steps[..|steps| - 1]);
      var last := steps[|steps| - 1];
      if before.Some? && Enabled(c, before.value, last) then Some(Next(c, before.value, last)) else None
  }

  lemma {:induction false} RunsKeep(c: Config, start: State, steps: seq<Step>)
    requires Init(c, start)
    ensures After(c, start, steps).Some? ==> Inv(c, After(c, start, steps).value)
  {
    hide Enabled, Next;
    if steps == [] {
      InitRight(c, start);
    } else {
      RunsKeep(c, start, steps[..|steps| - 1]);
      var before, last := After(c, start, steps[..|steps| - 1]), steps[|steps| - 1];
      if before.Some? && Enabled(c, before.value, last) { StepKeeps(c, before.value, last); }
    }
  }

  /** A process on a lineage from the runner was born of the runner. */
  lemma {:induction false} LineageIsKin(procs: Procs, chain: seq<Row>, l: Leader, i: nat)
    requires KinRight(procs) && Led(procs, l) && i < |chain|
    requires IsLineage(chain, chain[|chain| - 1].pid, Snapshot(procs), l.pid)
    ensures chain[i].pid in procs && l.uid in procs[chain[i].pid].kin
  {
    var p := chain[i].pid;
    if i > 0 {
      LineageIsKin(procs, chain, l, i - 1);
      assert ParentRight(procs, procs[p]) && procs[p].ppid == chain[i].ppid == chain[i - 1].pid;
    }
  }

  /** The instance was seen in a scan, as the process it is now, below the runner
      instance and a browser root. */
  ghost predicate SeenBelowRunner(c: Config, s: State, pid: int, p: Proc) {
    exists k :: 0 <= k < |s.scans| && ScannedAs(c, s.scans[k], pid, p)
  }

  ghost predicate ScannedAs(c: Config, scan: Scan, pid: int, p: Proc) {
    && scan.view == ViewOf(c, scan.procs, scan.view.order) && scan.view.Valid()
    && c.runner.pid in scan.procs && scan.procs[c.runner.pid].uid == c.runner.uid
    && pid in scan.procs && SameInstance(scan.procs[pid], p)
    && scan.procs[pid].start == p.start && scan.procs[pid].command == p.command
    && Below(scan.view.table, scan.view.root, pid) && exists b :: BrowserAbove(scan.view, pid, b)
  }

  /** The n-th step of the run sent the signal to a pid, on the last table read
      before it, to whatever had the pid then. */
  ghost predicate SentBy(c: Config, start: State, steps: seq<Step>, n: nat, e: Event)
    requires e.ToPid?
  {
    && n < |steps| && steps[n].SignalNext? && After(c, start, steps[..n]).Some?
    && var before := After(c, start, steps[..n]).value;
       && before.tables != [] && e.read == |before.tables| && e.seen == before.tables[|before.tables| - 1]
       && e.received == (if e.pid in before.procs then Some(before.procs[e.pid]) else None)
       && e.raced == (e.pid in before.vacated)
  }

  /** What a step adds to the log. */
  lemma StepSends(c: Config, s: State, step: Step, e: Event)
    requires Inv(c, s) && Enabled(c, s, step) && e in Next(c, s, step).log && e !in s.log && e.ToPid?
    ensures step.SignalNext? && s.tables != [] && e.read == |s.tables| && e.seen == s.tables[|s.tables| - 1]
    ensures e.received == (if e.pid in s.procs then Some(s.procs[e.pid]) else None) && e.raced == (e.pid in s.vacated)
  {
    hide Inv, SignalStep, GroupStep, Absorb, ViewOf, Snapshot;
    if step.SignalNext? {
      SignalSends(c, s, e);
    } else if step.SignalGroup? {
      GroupSends(c, s, e);
    }
  }

  lemma GroupSends(c: Config, s: State, e: Event)
    requires (s.phase.TermGroups? || s.phase.KillGroups?) && e in GroupStep(c, s).log && e !in s.log
    ensures e.ToGroup?
  {
    hide Members;
  }

  lemma SignalSends(c: Config, s: State, e: Event)
    requires Inv(c, s) && (s.phase.Terminate? || s.phase.Kill?) && e in SignalStep(s).log && e !in s.log && e.ToPid?
    ensures s.tables != [] && e.read == |s.tables| && e.seen == s.tables[|s.tables| - 1]
    ensures e.received == (if e.pid in s.procs then Some(s.procs[e.pid]) else None) && e.raced == (e.pid in s.vacated)
  {
    hide MachineRight, EventsOk, Grounded, DistinctIdentities, ScansRight, AllBorn, NotVacated, Candidate;
  }

  lemma {:induction false} SentByStep(c: Config, start: State, steps: seq<Step>, e: Event)
    requires Init(c, start) && After(c, start, steps).Some? && e in After(c, start, steps).value.log && e.ToPid?
    ensures exists n :: SentBy(c, start, steps, n, e)
    decreases |steps|
  {
    hide Inv, Enabled, Next;
    if steps == [] {
      NothingSent(c, start);
    } else {
      var n := |steps| - 1;
      var s := After(c, start, steps[..n]).value;
      if e in s.log {
        SentByStep(c, start, steps[..n], e);
        var k: nat :| SentBy(c, start, steps[..n], k, e);
        assert steps[..n][..k] == steps[..k];
        assert SentBy(c, start, steps, k, e);
      } else {
        RunsKeep(c, start, steps[..n]);
        StepSends(c, s, steps[n], e);
        assert SentBy(c, start, steps, n, e);
      }
    }
  }

  lemma NothingSent(c: Config, start: State)
    requires Init(c, start)
    ensures start.log == []
  {
  }

  /** In every interleaving, what the owner signals is one of its two groups, all
      of it born of the group's leader, or a pid.  The row of that pid, in the last
      table read before, is a process instance born of the runner and seen below
      it and a browser root; and it is the one that receives the signal unless the
      pid was vacated in between. */
  lemma SignalsAreOwned(c: Config, start: State, steps: seq<Step>, e: Event)
    requires Init(c, start) && After(c, start, steps).Some? && e in After(c, start, steps).value.log
    ensures e.ToGroup? ==>
              && (e.leader == c.runner || c.server == Some(e.leader))
              && forall q :: q in e.receivers ==> q.pgid == e.leader.pid && e.leader.uid in q.kin
    ensures e.ToPid? ==>
              var s := After(c, start, steps).value;
              && (exists n :: SentBy(c, start, steps, n, e)) && e.pid in e.seen
              && SeenBelowRunner(c, s, e.pid, e.seen[e.pid]) && c.runner.uid in e.seen[e.pid].kin
              && (!e.raced ==> e.received.Some? && SameInstance(e.received.value, e.seen[e.pid]))
  {
    hide After, Inv, SeenBelowRunner, SentBy;
    RunsKeep(c, start, steps);
    var s := After(c, start, steps).value;
    var k :| 0 <= k < |s.log| && s.log[k] == e;
    EventOwned(c, s, k);
    if e.ToPid? { SentByStep(c, start, steps, e); }
  }

  lemma EventOwned(c: Config, s: State, k: nat)
    requires Inv(c, s) && k < |s.log|
    ensures var e := s.log[k];
            && EventOk(c, s.inventory, s.born, s.tables, e)
            && (e.ToPid? ==> SeenBelowRunner(c, s, e.pid, e.seen[e.pid]) && c.runner.uid in e.seen[e.pid].kin)
  {
    hide SeenBelowRunner, MachineRight, SeenRight, ScansRight, Grounded, DistinctIdentities;
    var e := s.log[k];
    assert EventOk(c, s.inventory, s.born, s.tables, e);
    if e.ToPid? {
      var t := Snapshot(e.seen);
      var j :| 0 <= j < |s.inventory| && e.pid == s.inventory[j].row.pid && Same(s.inventory[j], t);
      RecordSeen(c, s, j, e.seen[e.pid]);
    }
  }

  lemma RecordSeen(c: Config, s: State, j: nat, p: Proc)
    requires Inv(c, s) && j < |s.inventory|
    requires var row := s.inventory[j].row;
             p.start == row.start && p.command == row.command && BornAs(s.born, row.pid, p)
    ensures SeenBelowRunner(c, s, s.inventory[j].row.pid, p) && c.runner.uid in p.kin
  {
    hide View.RecordFor, Below, BrowserAbove, IsLineage, MachineRight, SeenRight, EventsOk, ScansRight,
         KinRight, Led, AllBorn, BirthsRight, Grounded, DistinctIdentities;
    var r := s.inventory[j];
    var k := ScanBehind(c, s, j);
    ScanViewValid(c, s.born, s.scans[k]);
    RecordedExactly(s.scans[k].view, r.row.pid);
    ScannedKin(c, s.born, s.scans[k], r.row.pid, r.lineage);
    assert ScannedAs(c, s.scans[k], r.row.pid, p);
  }

  /** The scan that a record comes from. */
  lemma ScanBehind(c: Config, s: State, j: nat) returns (k: nat)
    requires ScansRight(c, s.born, s.scans) && Grounded(s.inventory, Views(s.scans)) && j < |s.inventory|
    ensures k < |s.scans| && ScanRight(c, s.born, s.scans[k])
    ensures s.scans[k].view.RecordFor(s.inventory[j].row.pid) == Some(s.inventory[j])
  {
    hide View.RecordFor, View.Valid, ScanRight;
    var r := s.inventory[j];
    assert SeenIn(r, Views(s.scans));
    var v :| v in Views(s.scans) && v.Valid() && v.RecordFor(r.row.pid) == Some(r);
    k :| 0 <= k < |s.scans| && Views(s.scans)[k] == v;
  }

  lemma ScanViewValid(c: Config, born: Births, scan: Scan)
    requires ScanRight(c, born, scan)
    ensures scan.view.Valid() && AllBorn(born, scan.procs) && scan.view == ViewOf(c, scan.procs, scan.view.order)
    ensures scan.view.table == Snapshot(scan.procs) && scan.view.root == c.runner.pid
  {
    hide AllBorn, KinRight, Led, View.Valid;
  }

  lemma ScannedKin(c: Config, born: Births, scan: Scan, pid: int, chain: seq<Row>)
    requires ScanRight(c, born, scan) && IsLineage(chain, pid, scan.view.table, scan.view.root)
    ensures pid in scan.procs && BornAs(born, pid, scan.procs[pid]) && c.runner.uid in scan.procs[pid].kin
    ensures c.runner.pid in scan.procs && scan.procs[c.runner.pid].uid == c.runner.uid
  {
    LineageIsKin(scan.procs, chain, c.runner, |chain| - 1);
  }

  /** Who was hit by a signal, races on a reused pid aside. */
  predicate Receives(e: Event, p: Proc) {
    match e
    case ToGroup(_, _, receivers) => p in receivers
    case ToPid(_, _, _, _, received, raced) => received == Some(p) && !raced
  }

  /** A process that was not born of the runner or of the server receives no
      signal, neither to its pid nor to its group. */
  lemma OthersAreSpared(c: Config, start: State, steps: seq<Step>, e: Event, p: Proc)
    requires Init(c, start) && After(c, start, steps).Some? && e in After(c, start, steps).value.log
    requires c.runner.uid !in p.kin && (c.server.Some? ==> c.server.value.uid !in p.kin)
    ensures !Receives(e, p)
  {
    hide After, SeenBelowRunner, SentBy;
    SignalsAreOwned(c, start, steps, e);
  }
}
