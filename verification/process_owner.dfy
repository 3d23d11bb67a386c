/**
  scripts/capture_owner_deadline.py `main`: the cleanup phases that retire every
  inventoried browser process, and the verdict.  What `ps` and `kill` answer is
  an input; a failed `ps` answers nothing.
*/
module ProcessOwner {
  import opened Common
  import opened ProcessInventory

  datatype Sig = TERM | KILL

  datatype Answer = Delivered | NoSuchProcess | Refused

  datatype Status = Absent | Preserved | Signaled | Failed | NotNeeded

  /** A signal sent to one pid, the table it was decided on, and how many times
      `ps` had been asked by then. */
  datatype Sent = Sent(pid: int, sig: Sig, table: Table, asked: nat)

  datatype Cleanup = Cleanup(pid: int, start: string, term: Status, kill: Status, absent: bool)

  /** The outside: answers of the n-th `ps` and the n-th `kill`, and how many
      rounds the wait and verify loops begin before their deadlines. */
  datatype World = World(ps: nat -> Option<Table>, kill: nat -> Answer, waitRounds: nat, verifyRounds: nat)

  /** The row in the table is the recorded process. */
  predicate Same(r: Record, t: Table) {
    r.row.pid in t && t[r.row.pid].start == r.row.start && t[r.row.pid].command == r.row.command
  }

  /** The first record with the pid and start, whatever its command. */
  function FirstLike(records: seq<Record>, pid: int, start: string): Option<Record> {
    if records == [] then None
    else if records[0].row.pid == pid && records[0].row.start == start then Some(records[0])
    else FirstLike(records[1..], pid, start)
  }

  /** The pid is that of a recorded process whose row is in the table. */
  ghost predicate Justified(records: seq<Record>, pid: int, t: Table) {
    exists j :: 0 <= j < |records| && pid == records[j].row.pid && Same(records[j], t)
  }

  /** The signal went to a recorded process that the last answer of `ps` lists. */
  ghost predicate Fresh(world: World, records: seq<Record>, e: Sent) {
    Justified(records, e.pid, e.table) && e.asked > 0 && world.ps(e.asked - 1) == Some(e.table)
  }

  /** What a read leaves in use: its answer, or nothing. */
  function InUse(answer: Option<Table>): Table { if answer.Some? then answer.value else map[] }

  /** None of the answers from this one up to that one was a failure. */
  predicate AllAnswered(ps: nat -> Option<Table>, from: nat, to: nat) {
    forall n :: from <= n < to ==> ps(n).Some?
  }

  /** The last table among these answers. */
  function LastAnswer(ps: nat -> Option<Table>, from: nat, to: nat, before: Table): Table
    decreases to
  {
    if to <= from then before
    else if ps(to - 1).Some? then ps(to - 1).value
    else LastAnswer(ps, from, to - 1, before)
  }

  /** A polling loop asked for these answers: up to the first that failed or
      showed what it waits for, or for all its rounds. */
  ghost predicate Polled(ps: nat -> Option<Table>, from: nat, to: nat, rounds: nat, reached: Table -> bool) {
    && from <= to <= from + rounds
    && (forall n :: from <= n < to - 1 ==> ps(n).Some? && !reached(ps(n).value))
    && (to < from + rounds ==> from < to && (ps(to - 1).None? || reached(ps(to - 1).value)))
  }

  /** Some recorded identity with this pid and start is in the table. */
  predicate StillListed(records: seq<Record>, pid: int, start: string, t: Table) {
    pid in t && t[pid].start == start && Known(records, Identity(pid, start, t[pid].command))
  }

  /** No recorded process is in the table. */
  predicate NoneLive(records: seq<Record>, t: Table) {
    forall i :: 0 <= i < |records| ==> !Same(records[i], t)
  }

  /** No pid and start is still listed exactly when no recorded process is. */
  lemma ListedExactly(records: seq<Record>, t: Table)
    ensures NoneLive(records, t) <==>
            forall i :: 0 <= i < |records| ==> !StillListed(records, records[i].row.pid, records[i].row.start, t)
  {
  }

  /** What the receipt of one signal says, if sending it is answered so. */
  function StatusOf(r: Record, t: Table, answer: Answer): Status {
    if r.row.pid !in t then Absent
    else if !Same(r, t) then Preserved
    else match answer case Delivered => Signaled case NoSuchProcess => Absent case Refused => Failed
  }

  /** TERM for each of the first n recorded processes still in the table. */
  function TermLog(records: seq<Record>, n: nat, t: Table, asked: nat): seq<Sent>
    requires n <= |records|
  {
    if n == 0 then []
    else
      TermLog(records, n - 1, t, asked) + SignalOf(records[n - 1], TERM, t, asked)
  }

  /** The signal to a record, when it is still in the table. */
  function SignalOf(r: Record, sig: Sig, t: Table, asked: nat): seq<Sent> {
    if Same(r, t) then [Sent(r.row.pid, sig, t, asked)] else []
  }

  lemma TermNone(records: seq<Record>, t: Table, asked: nat)
    ensures TermLog(records, 0, t, asked) == []
  {
  }

  lemma TermNext(records: seq<Record>, n: nat, t: Table, asked: nat)
    requires n < |records|
    ensures TermLog(records, n + 1, t, asked) == TermLog(records, n, t, asked) + SignalOf(records[n], TERM, t, asked)
  {
  }

  /** KILL for each of the first n recorded processes whose first record with the
      same pid and start is still in the table. */
  function KillLog(records: seq<Record>, n: nat, t: Table, asked: nat): seq<Sent>
    requires n <= |records|
  {
    if n == 0 then []
    else
      var first := FirstLike(records, records[n - 1].row.pid, records[n - 1].row.start);
      KillLog(records, n - 1, t, asked) + if first.Some? then SignalOf(first.value, KILL, t, asked) else []
  }

  lemma KillNone(records: seq<Record>, t: Table, asked: nat)
    ensures KillLog(records, 0, t, asked) == []
  {
  }

  lemma KillNext(records: seq<Record>, n: nat, t: Table, asked: nat)
    requires n < |records|
    ensures var first := FirstLike(records, records[n].row.pid, records[n].row.start);
            KillLog(records, n + 1, t, asked)
            == KillLog(records, n, t, asked)
               + if first.Some? && Same(first.value, t) then SignalOf(first.value, KILL, t, asked) else []
  {
    hide FirstLike;
  }

  /** The TERM receipt of the i-th record, decided on this table after so many reads
      and signals. */
  function TermReceipt(w: World, records: seq<Record>, i: nat, t: Table, asked: nat, sent: nat): Status
    requires i < |records|
  {
    StatusOf(records[i], t, w.kill(sent + |TermLog(records, i, t, asked)|))
  }

  /** The KILL receipt likewise. */
  function KillReceipt(w: World, records: seq<Record>, i: nat, t: Table, asked: nat, sent: nat): Status
    requires i < |records|
  {
    var first := FirstLike(records, records[i].row.pid, records[i].row.start);
    if first.Some? && Same(first.value, t)
    then StatusOf(first.value, t, w.kill(sent + |KillLog(records, i, t, asked)|)) else NotNeeded
  }

  /** How the final check decides that one inventoried process is gone. */
  predicate Missing(records: seq<Record>, i: nat, t: Table)
    requires i < |records|
  {
    var row, first := records[i].row, FirstLike(records, records[i].row.pid, records[i].row.start);
    row.pid !in t || first.None? || t[row.pid].start != row.start || t[row.pid].command != first.value.row.command
  }

  class Owner {
    const world: World
    const records: seq<Record>
    var table: Table
    var rows: seq<Cleanup>
    var errors: set<string>
    var taken: nat
    /** Every signal sent to a pid. */
    var log: seq<Sent>

    /** `earlier` holds the scan failures reported before the cleanup. */
    constructor (world: World, records: seq<Record>, table: Table, earlier: set<string>)
      ensures this.world == world && this.records == records && this.table == table && errors == earlier
      ensures rows == [] && taken == 0 && log == []
    {
      this.world, this.records, this.table, errors := world, records, table, earlier;
      rows, taken, log := [], 0, [];
    }

    ghost predicate RowsFollow()
      reads this`rows
    {
      |rows| == |records| && forall i :: 0 <= i < |rows| ==>
                  rows[i].pid == records[i].row.pid && rows[i].start == records[i].row.start
    }

    /** process_table(); false when it raised. */
    method Read() returns (t: Option<Table>)
      modifies this`taken
      ensures t == world.ps(old(taken)) && taken == old(taken) + 1
    {
      t := world.ps(taken);
      taken := taken + 1;
    }

    /** A read whose failure leaves an empty table and an error. */
    method ReadOrEmpty(key: string)
      modifies this`taken, this`table, this`errors
      ensures taken == old(taken) + 1 && table == InUse(world.ps(old(taken)))
      ensures errors == old(errors) + if world.ps(old(taken)).Some? then {} else {key}
    {
      var t := Read();
      if t.Some? {
        table := t.value;
      } else {
        table := map[];
        errors := errors + {key};
      }
    }

    /** signal_pid_if_same */
    method SignalIfSame(r: Record, sig: Sig) returns (status: Status)
      modifies this`log
      ensures log == old(log) + SignalOf(r, sig, table, taken)
      ensures status == StatusOf(r, table, world.kill(|old(log)|))
    {
      if r.row.pid !in table {
        return Absent;
      }
      if table[r.row.pid].start != r.row.start || table[r.row.pid].command != r.row.command {
        return Preserved;
      }
      var answer := world.kill(|log|);
      log := log + [Sent(r.row.pid, sig, table, taken)];
      match answer
      case Delivered => return Signaled;
      case NoSuchProcess => return Absent;
      case Refused => return Failed;
    }

    method TermEach()
      requires rows == []
      modifies this`log, this`rows
      ensures log == old(log) + TermLog(records, |records|, table, taken) && RowsFollow()
      ensures forall i :: 0 <= i < |rows| ==>
                && rows[i].term == TermReceipt(world, records, i, table, taken, |old(log)|)
                && rows[i].kill == NotNeeded && !rows[i].absent
    {
      hide Same, TermLog, SignalOf, StatusOf;
      TermNone(records, table, taken);
      for i := 0 to |records|
        invariant log == old(log) + TermLog(records, i, table, taken) && |rows| == i
        invariant forall k :: 0 <= k < i ==> rows[k].pid == records[k].row.pid && rows[k].start == records[k].row.start
        invariant forall k :: 0 <= k < i ==>
                    && rows[k].term == TermReceipt(world, records, k, table, taken, |old(log)|)
                    && rows[k].kill == NotNeeded && !rows[k].absent
      {
        var r := records[i];
        TermNext(records, i, table, taken);
        Associate(old(log), TermLog(records, i, table, taken), SignalOf(r, TERM, table, taken));
        var status := SignalIfSame(r, TERM);
        rows := rows + [Cleanup(r.row.pid, r.row.start, status, NotNeeded, false)];
      }
    }

    method WaitForExit()
      requires RowsFollow()
      modifies this`taken, this`table, this`errors
      ensures Polled(world.ps, old(taken), taken, world.waitRounds, t => NoneLive(records, t))
      ensures table == LastAnswer(world.ps, old(taken), taken, old(table))
      ensures errors == old(errors)
                        + if AllAnswered(world.ps, old(taken), taken) then {} else {"process_table_wait_error"}
    {
      hide StillListed, NoneLive;
      for k := 0 to world.waitRounds
        invariant taken == old(taken) + k && errors == old(errors)
        invariant forall n :: old(taken) <= n < taken ==> world.ps(n).Some? && !NoneLive(records, world.ps(n).value)
        invariant table == LastAnswer(world.ps, old(taken), taken, old(table))
      {
        var t := Read();
        if t.None? {
          errors := errors + {"process_table_wait_error"};
          break;
        }
        table := t.value;
        ListedExactly(records, table);
        if forall i :: 0 <= i < |rows| ==> !StillListed(records, rows[i].pid, rows[i].start, table) {
          break;
        }
      }
    }

    method KillEach()
      requires RowsFollow() && forall i :: 0 <= i < |rows| ==> rows[i].kill == NotNeeded
      modifies this`log, this`rows
      ensures log == old(log) + KillLog(records, |records|, table, taken) && RowsFollow()
      ensures forall i :: 0 <= i < |rows| ==>
                rows[i] == old(rows[i]).(kill := KillReceipt(world, records, i, table, taken, |old(log)|))
    {
      hide Same, FirstLike, StatusOf, KillLog, SignalOf;
      KillNone(records, table, taken);
      ghost var before, w, all, t, n, sent := rows, world, records, table, taken, |log|;
      ghost var receipts := seq(|all|, i requires 0 <= i < |all| => KillReceipt(w, all, i, t, n, sent));
      for i := 0 to |rows|
        invariant log == old(log) + KillLog(records, i, table, taken) && |rows| == |records|
        invariant forall k :: 0 <= k < i ==> rows[k] == before[k].(kill := receipts[k])
        invariant forall k :: i <= k < |rows| ==> rows[k] == before[k]
      {
        assert rows[i] == before[i];
        var first := FirstLike(records, rows[i].pid, rows[i].start);
        KillNext(records, i, table, taken);
        if first.Some? && Same(first.value, table) {
          Associate(old(log), KillLog(records, i, table, taken), SignalOf(first.value, KILL, table, taken));
          var status := SignalIfSame(first.value, KILL);
          rows := rows[i := rows[i].(kill := status)];
        }
      }
    }

    method Verify()
      modifies this`taken, this`table, this`errors
      ensures Polled(world.ps, old(taken), taken, world.verifyRounds, t => AllMissing(records, t))
      ensures table == LastAnswer(world.ps, old(taken), taken, old(table))
      ensures errors == old(errors)
                        + if AllAnswered(world.ps, old(taken), taken) then {} else {"process_table_verify_error"}
    {
      hide AllMissing;
      for k := 0 to world.verifyRounds
        invariant taken == old(taken) + k && errors == old(errors)
        invariant forall n :: old(taken) <= n < taken ==> world.ps(n).Some? && !AllMissing(records, world.ps(n).value)
        invariant table == LastAnswer(world.ps, old(taken), taken, old(table))
      {
        var t := Read();
        if t.None? {
          errors := errors + {"process_table_verify_error"};
          break;
        }
        table := t.value;
        if AllMissing(records, table) {
          break;
        }
      }
    }

    method MarkAbsent()
      requires RowsFollow()
      modifies this`rows
      ensures RowsFollow()
      ensures forall i :: 0 <= i < |rows| ==> rows[i] == old(rows[i]).(absent := Missing(records, i, table))
    {
      for i := 0 to |rows|
        invariant RowsFollow()
        invariant forall k :: 0 <= k < |rows| ==>
                    rows[k] == if k < i then old(rows[k]).(absent := Missing(records, k, table)) else old(rows[k])
      {
        var row := rows[i];
        var first := FirstLike(records, row.pid, row.start);
        var absent := row.pid !in table || first.None? || table[row.pid].start != row.start
                      || table[row.pid].command != first.value.row.command;
        rows := rows[i := row.(absent := absent)];
      }
    }

    /** Answer `from` decides the TERMs, then the wait loop polls, answer n decides
        the KILLs, and the verify loop polls up to answer `to`. */
    ghost predicate CleanedUp(from: nat, n: nat, to: nat)
      reads this`log
    {
      && Polled(world.ps, from + 1, n, world.waitRounds, t => NoneLive(records, t))
      && Polled(world.ps, n + 1, to, world.verifyRounds, t => AllMissing(records, t))
      && log == TermLog(records, |records|, InUse(world.ps(from)), from + 1)
                + KillLog(records, |records|, InUse(world.ps(n)), n + 1)
    }

    /** The table refresh after the runner stopped, TERM, and the wait. */
    method TermPhase()
      requires rows == [] && log == []
      modifies this
      ensures RowsFollow() && forall i :: 0 <= i < |rows| ==> rows[i].kill == NotNeeded
      ensures Polled(world.ps, old(taken) + 1, taken, world.waitRounds, t => NoneLive(records, t))
      ensures log == TermLog(records, |records|, InUse(world.ps(old(taken))), old(taken) + 1)
      ensures (errors == {} <==> old(errors) == {} && AllAnswered(world.ps, old(taken), taken)) && old(errors) <= errors
    {
      hide Same, FirstLike, TermLog, RowsFollow, InUse, Polled, AllAnswered, LastAnswer, TermReceipt, NoneLive;
      ReadOrEmpty("process_table_cleanup_error");
      TermEach();
      WaitForExit();
      PolledBounds(world.ps, old(taken) + 1, taken, world.waitRounds, t => NoneLive(records, t));
      FirstAnswered(world.ps, old(taken), taken);
    }

    /** The second refresh, KILL, the verification and the receipts. */
    method KillPhase()
      requires RowsFollow() && forall i :: 0 <= i < |rows| ==> rows[i].kill == NotNeeded
      modifies this
      ensures RowsFollow() && forall i :: 0 <= i < |rows| ==> (rows[i].absent <==> Missing(records, i, table))
      ensures Polled(world.ps, old(taken) + 1, taken, world.verifyRounds, t => AllMissing(records, t))
      ensures log == old(log) + KillLog(records, |records|, InUse(world.ps(old(taken))), old(taken) + 1)
      ensures table == LastAnswer(world.ps, old(taken) + 1, taken, InUse(world.ps(old(taken))))
      ensures (errors == {} <==> old(errors) == {} && AllAnswered(world.ps, old(taken), taken)) && old(errors) <= errors
    {
      hide Same, Missing, FirstLike, KillLog, RowsFollow, InUse, Polled, AllAnswered, LastAnswer, AllMissing,
           KillReceipt;
      ReadOrEmpty("process_table_kill_error");
      KillEach();
      Verify();
      MarkAbsent();
      PolledBounds(world.ps, old(taken) + 1, taken, world.verifyRounds, t => AllMissing(records, t));
      FirstAnswered(world.ps, old(taken), taken);
    }

    /** From the table refresh after the runner stopped to the cleanup receipts. */
    method RetireBrowsers() returns (ghost n: nat)
      requires rows == [] && log == []
      modifies this
      ensures RowsFollow() && CleanedUp(old(taken), n, taken)
      ensures table == LastAnswer(world.ps, n + 1, taken, InUse(world.ps(n)))
      ensures (errors == {} <==> old(errors) == {} && AllAnswered(world.ps, old(taken), taken)) && old(errors) <= errors
      ensures forall i :: 0 <= i < |rows| ==> (rows[i].absent <==> Missing(records, i, table))
    {
      hide Same, Missing, FirstLike, TermLog, KillLog, RowsFollow, InUse, Polled, AllAnswered, LastAnswer, AllMissing,
           NoneLive;
      TermPhase();
      n := taken;
      PolledBounds(world.ps, old(taken) + 1, n, world.waitRounds, t => NoneLive(records, t));
      KillPhase();
      PolledBounds(world.ps, n + 1, taken, world.verifyRounds, t => AllMissing(records, t));
      AnsweredJoin(world.ps, old(taken), n, taken);
    }

    /** The verdict over the cleanup receipts and everything else the report holds. */
    method Verdict(f: Findings) returns (pass: bool)
      ensures pass <==>
                && f.childExit == Some(0) && f.captureGroupAbsent && f.serverGroupAbsent && f.cdpOk && errors == {}
                && (forall i :: 0 <= i < |rows| ==> rows[i].absent)
                && (f.requireBrowser ==> RootObserved(records, f.isBrowser))
                && !f.deadlineExpired && !f.ownerError && f.withinTime
    {
      var absent := true;
      for i := 0 to |rows|
        invariant absent <==> forall k :: 0 <= k < i ==> rows[k].absent
      {
        absent := absent && rows[i].absent;
      }
      var observed := false;
      for i := 0 to |records|
        invariant observed <==> RootObserved(records[..i], f.isBrowser)
      {
        var r := records[i];
        assert records[..i + 1] == records[..i] + [r];
        observed := observed || (r.row.pid == r.browserRoot && f.isBrowser(r.row.command));
      }
      assert records[..|records|] == records;
      var cleanupPassed := f.captureGroupAbsent && f.serverGroupAbsent && absent && f.cdpOk && errors == {};
      return f.childExit == Some(0) && cleanupPassed && (!f.requireBrowser || observed) && !f.deadlineExpired
             && !f.ownerError && f.withinTime;
    }

    /** Cleanup and verdict: which runs pass, and on what their verdict rests. */
    method Finish(f: Findings) returns (pass: bool)
      requires rows == [] && log == []
      modifies this
      ensures exists n: nat :: CleanedUp(old(taken), n, taken)
      ensures pass <==>
                && f.Good() && old(errors) == {} && AllAnswered(world.ps, old(taken), taken)
                && AllMissing(records, table) && (f.requireBrowser ==> RootObserved(records, f.isBrowser))
      ensures pass ==> old(taken) + 1 < taken && world.ps(taken - 1) == Some(table)
      ensures pass && DistinctPidStart(records) ==> forall i :: 0 <= i < |records| ==> !Same(records[i], table)
      ensures forall e :: e in log ==> Fresh(world, records, e) && old(taken) < e.asked <= taken
    {
      hide Same, Missing, FirstLike, TermLog, KillLog, Fresh, DistinctPidStart, Polled;
      ghost var n := RetireBrowsers();
      assert CleanedUp(old(taken), n, taken);
      PolledBounds(world.ps, old(taken) + 1, n, world.waitRounds, t => NoneLive(records, t));
      PolledBounds(world.ps, n + 1, taken, world.verifyRounds, t => AllMissing(records, t));
      TermFresh(world, records, |records|, old(taken));
      KillFresh(world, records, |records|, n);
      ghost var terms := TermLog(records, |records|, InUse(world.ps(old(taken))), old(taken) + 1);
      ghost var kills := KillLog(records, |records|, InUse(world.ps(n)), n + 1);
      assert forall e :: e in log ==> e in terms || e in kills;
      pass := Verdict(f);
      if AllAnswered(world.ps, old(taken), taken) { assert world.ps(taken - 1).Some? && world.ps(n).Some?; }
      if pass && DistinctPidStart(records) { MissingIsGone(records, table); }
      assert CleanedUp(old(taken), n, taken);
    }
  }

  lemma AnsweredJoin(ps: nat -> Option<Table>, from: nat, n: nat, to: nat)
    requires from <= n <= to
    ensures AllAnswered(ps, from, to) <==> AllAnswered(ps, from, n) && AllAnswered(ps, n, to)
  {
  }

  lemma FirstAnswered(ps: nat -> Option<Table>, from: nat, to: nat)
    requires from < to
    ensures AllAnswered(ps, from, to) <==> ps(from).Some? && AllAnswered(ps, from + 1, to)
  {
  }

  lemma PolledBounds(ps: nat -> Option<Table>, from: nat, to: nat, rounds: nat, reached: Table -> bool)
    requires Polled(ps, from, to, rounds, reached)
    ensures from <= to <= from + rounds
  {
  }

  /** What the rest of the report says; `cdpOk` is the outcome of the CDP
      attribution. */
  datatype Findings = Findings(childExit: Option<int>, captureGroupAbsent: bool, serverGroupAbsent: bool, cdpOk: bool,
                               requireBrowser: bool, isBrowser: string -> bool, deadlineExpired: bool, ownerError: bool,
                               withinTime: bool)
  {
    /** Everything in the report that the cleanup does not decide is in order. */
    predicate Good() {
      && childExit == Some(0) && captureGroupAbsent && serverGroupAbsent && cdpOk
      && !deadlineExpired && !ownerError && withinTime
    }
  }

  predicate RootObserved(records: seq<Record>, isBrowser: string -> bool) {
    exists r :: r in records && r.row.pid == r.browserRoot && isBrowser(r.row.command)
  }

  // ---- What the final check is worth ----

  predicate AllMissing(records: seq<Record>, t: Table) {
    forall i :: 0 <= i < |records| ==> Missing(records, i, t)
  }

  predicate DistinctPidStart(records: seq<Record>) {
    forall i, j :: 0 <= i < j < |records| ==>
        records[i].row.pid != records[j].row.pid || records[i].row.start != records[j].row.start
  }

  lemma {:induction false} FirstExists(records: seq<Record>, i: nat)
    requires i < |records|
    ensures var first := FirstLike(records, records[i].row.pid, records[i].row.start);
            first.Some? && exists j ::
                        0 <= j <= i && records[j] == first.value && first.value.row.pid == records[i].row.pid
                                && first.value.row.start == records[i].row.start
  {
    if !(records[0].row.pid == records[i].row.pid && records[0].row.start == records[i].row.start) {
      FirstExists(records[1..], i - 1);
      var first := FirstLike(records[1..], records[i].row.pid, records[i].row.start);
      var j :| 0 <= j <= i - 1 && records[1..][j] == first.value && first.value.row.pid == records[i].row.pid
            && first.value.row.start == records[i].row.start;
      assert records[j + 1] == first.value;
    } else {
      assert records[0] == FirstLike(records, records[i].row.pid, records[i].row.start).value;
    }
  }

  lemma MissingIsGone(records: seq<Record>, t: Table)
    requires DistinctPidStart(records) && AllMissing(records, t)
    ensures NoneLive(records, t)
  {
    forall i | 0 <= i < |records| ensures !Same(records[i], t) {
      FirstExists(records, i);
      assert Missing(records, i, t);
    }
  }

  lemma GoneIsMissing(records: seq<Record>, t: Table)
    requires NoneLive(records, t)
    ensures AllMissing(records, t)
  {
    forall i | 0 <= i < |records| ensures Missing(records, i, t) {
      FirstExists(records, i);
      var first := FirstLike(records, records[i].row.pid, records[i].row.start);
      var j :| 0 <= j <= i && records[j] == first.value && first.value.row.pid == records[i].row.pid
            && first.value.row.start == records[i].row.start;
      assert !Same(records[j], t);
    }
  }

  /** A table in which the later of two records with one pid and start is live
      and yet everything counts as missing: the process replaced its command
      line between two scans. */
  lemma ExecHidesProcess(records: seq<Record>, i: nat, j: nat)
    requires i < j < |records| && DistinctIdentities(records)
    requires records[i].row.pid == records[j].row.pid && records[i].row.start == records[j].row.start
    ensures exists k, t :: 0 <= k < |records| && Same(records[k], t) && AllMissing(records, t)
  {
    FirstExists(records, j);
    var row := records[j].row;
    var first := FirstLike(records, row.pid, row.start).value;
    var f :| 0 <= f <= j && records[f] == first && first.row.pid == row.pid && first.row.start == row.start;
    var k := if f == j then i else j;
    var t: Table := map[row.pid := records[k].row];
    assert IdentityOf(records[i].row) != IdentityOf(records[j].row);
    assert f != k ==> IdentityOf(records[f].row) != IdentityOf(records[k].row);
    assert Same(records[k], t);
    forall n | 0 <= n < |records| ensures Missing(records, n, t) {
      if records[n].row.pid == row.pid && records[n].row.start == row.start {
        assert FirstLike(records, row.pid, row.start).value == first;
      }
    }
    assert AllMissing(records, t);
  }

  /** The final check proves every inventoried process gone, whatever the table,
      exactly when no two inventoried identities share pid and start. */
  lemma AbsenceExactly(records: seq<Record>)
    requires DistinctIdentities(records)
    ensures (forall t :: AllMissing(records, t) ==> NoneLive(records, t)) <==> DistinctPidStart(records)
    ensures forall t :: NoneLive(records, t) ==> AllMissing(records, t)
  {
    hide Missing, FirstLike;
    forall t | NoneLive(records, t) ensures AllMissing(records, t) { GoneIsMissing(records, t); }
    if DistinctPidStart(records) {
      forall t | AllMissing(records, t) ensures NoneLive(records, t) { MissingIsGone(records, t); }
    } else {
      var i, j :| 0 <= i < j < |records| && records[i].row.pid == records[j].row.pid
          && records[i].row.start == records[j].row.start;
      ExecHidesProcess(records, i, j);
      var k, t :| 0 <= k < |records| && Same(records[k], t) && AllMissing(records, t);
      assert !NoneLive(records, t);
    }
  }

  /** Each TERM goes to a pid that the answer just read lists as an inventoried
      process: an empty stand-in sends nothing. */
  lemma {:induction false} TermFresh(world: World, records: seq<Record>, n: nat, read: nat)
    requires n <= |records|
    ensures forall e :: e in TermLog(records, n, InUse(world.ps(read)), read + 1) ==>
                          Fresh(world, records, e) && e.asked == read + 1
  {
    if n > 0 { TermFresh(world, records, n - 1, read); }
  }

  lemma {:induction false} KillFresh(world: World, records: seq<Record>, n: nat, read: nat)
    requires n <= |records|
    ensures forall e :: e in KillLog(records, n, InUse(world.ps(read)), read + 1) ==>
                          Fresh(world, records, e) && e.asked == read + 1
  {
    if n > 0 {
      KillFresh(world, records, n - 1, read);
      FirstIsOne(records, records[n - 1].row.pid, records[n - 1].row.start);
    }
  }

  lemma {:induction false} FirstIsOne(records: seq<Record>, pid: int, start: string)
    ensures var first := FirstLike(records, pid, start);
            first.Some? ==> exists j :: 0 <= j < |records| && records[j] == first.value && first.value.row.pid == pid
                                     && first.value.row.start == start
  {
    if records != [] && !(records[0].row.pid == pid && records[0].row.start == start) {
      FirstIsOne(records[1..], pid, start);
      var first := FirstLike(records[1..], pid, start);
      if first.Some? {
        var j :| 0 <= j < |records[1..]| && records[1..][j] == first.value && first.value.row.pid == pid
            && first.value.row.start == start;
        assert records[j + 1] == first.value;
      }
    }
  }
}
