/**
  The whole list of signals of scripts/capture_owner_deadline.py: in every
  interleaving of the protocol the owner sends what its cleanup phases say.
*/
module ProcessSignals {
  import opened Common
  import opened ProcessInventory
  import opened ProcessOwner
  import opened ProcessProtocol

  /** What was signalled, whoever received it. */
  datatype Sign = OnGroup(leader: Leader, sig: Sig) | OnPid(pid: int, sig: Sig)

  function SignOf(e: Event): Sign {
    match e case ToGroup(l, sig, _) => OnGroup(l, sig) case ToPid(pid, sig, _, _, _, _) => OnPid(pid, sig)
  }

  function Signs(log: seq<Event>): seq<Sign> { seq(|log|, i requires 0 <= i < |log| => SignOf(log[i])) }

  function Pids(sent: seq<Sent>): seq<Sign> {
    seq(|sent|, i requires 0 <= i < |sent| => OnPid(sent[i].pid, sent[i].sig))
  }

  /** One signal to each of these groups whose mark is set. */
  function Groups(leaders: seq<Leader>, marks: seq<bool>, sig: Sig): seq<Sign>
    requires |marks| <= |leaders|
  {
    if marks == [] then []
    else
      var n := |marks| - 1;
      Groups(leaders, marks[..n], sig) + if marks[n] then [OnGroup(leaders[n], sig)] else []
  }

  /** TERM to every recorded process that the table lists. */
  function Terms(records: seq<Record>, t: Procs): seq<Sign> { Pids(TermLog(records, |records|, Snapshot(t), 0)) }

  /** KILL for every record whose first like it the table lists. */
  function Kills(records: seq<Record>, t: Procs): seq<Sign> { Pids(KillLog(records, |records|, Snapshot(t), 0)) }

  /** Which groups got TERM and KILL, and on which tables the pids were decided. */
  datatype Course = Course(term: seq<bool>, kill: seq<bool>, first: Procs, second: Procs)

  /** Only a leader reaped by then was left out, and what got no TERM gets no KILL. */
  ghost predicate Marked(c: Config, s: State, o: Course) {
    && |o.kill| <= |o.term| <= |c.Leaders()|
    && (forall i :: 0 <= i < |o.term| && !o.term[i] ==> c.Leaders()[i].uid in s.reaped)
    && (forall i :: 0 <= i < |o.kill| && !o.kill[i] ==> c.Leaders()[i].uid in s.reaped)
    && (forall i :: 0 <= i < |o.kill| && o.kill[i] ==> o.term[i])
  }

  /** A table that was read, or none after a failure. */
  predicate WasRead(s: State, t: Procs) { t in s.tables || (t == map[] && s.failed) }

  ghost predicate GroupsSent(c: Config, s: State, o: Course, n: nat, m: nat, rest: seq<Sign>) {
    && Marked(c, s, o) && |o.term| == n && |o.kill| == m
    && Signs(s.log) == Groups(c.Leaders(), o.term, TERM) + Groups(c.Leaders(), o.kill, KILL) + rest
  }

  /** What the log holds in each phase. */
  ghost predicate OnCourse(c: Config, s: State, o: Course) {
    var all := |c.Leaders()|;
    match s.phase
    case Watch => GroupsSent(c, s, o, 0, 0, [])
    case TermGroups(i) => i <= all && GroupsSent(c, s, o, i, 0, [])
    case Grace => GroupsSent(c, s, o, all, 0, [])
    case KillGroups(i) => i <= all && GroupsSent(c, s, o, all, i, [])
    case FinalScan => GroupsSent(c, s, o, all, all, [])
    case Refresh => GroupsSent(c, s, o, all, all, [])
    case Terminate(i) =>
      && i <= |s.inventory| && WasRead(s, s.seen)
      && GroupsSent(c, s, o, all, all, Pids(TermLog(s.inventory, i, Snapshot(s.seen), 0)))
    case Wait => WasRead(s, o.first) && GroupsSent(c, s, o, all, all, Terms(s.inventory, o.first))
    case Reread => WasRead(s, o.first) && GroupsSent(c, s, o, all, all, Terms(s.inventory, o.first))
    case Kill(i) =>
      && i <= |s.inventory| && WasRead(s, o.first) && WasRead(s, s.seen)
      && GroupsSent(c, s, o, all, all,
                    Terms(s.inventory, o.first) + Pids(KillLog(s.inventory, i, Snapshot(s.seen), 0)))
    case _ =>
      && WasRead(s, o.first) && WasRead(s, o.second)
      && GroupsSent(c, s, o, all, all, Terms(s.inventory, o.first) + Kills(s.inventory, o.second))
  }

  /** Nothing was signalled or decided, and what was read is still on record. */
  ghost predicate Quiet(s: State, t: State) {
    && t.log == s.log && t.inventory == s.inventory && s.reaped <= t.reaped
    && (forall p :: p in s.tables ==> p in t.tables) && (s.failed ==> t.failed)
  }

  lemma MarkedStill(c: Config, s: State, t: State, o: Course)
    requires Marked(c, s, o) && s.reaped <= t.reaped
    ensures Marked(c, t, o)
  {
  }

  lemma StillOnCourse(c: Config, s: State, t: State, o: Course)
    requires OnCourse(c, s, o) && Quiet(s, t) && t.phase == s.phase
    requires s.phase.Terminate? || s.phase.Kill? ==> t.seen == s.seen
    ensures OnCourse(c, t, o)
  {
    hide Marked, Signs, Groups, Pids, Terms, Kills;
    assert Marked(c, t, o) by { MarkedStill(c, s, t, o); }
  }

  /** The log depends on the inventory only once pids are signalled. */
  lemma ScanOnCourse(c: Config, s: State, step: Step, o: Course)
    requires Enabled(c, s, step) && (step.ScanTable? || step.ScanFails? || step.StopScanning?) && OnCourse(c, s, o)
    ensures OnCourse(c, Next(c, s, step), o)
  {
    hide Marked, Signs, Groups, Pids, Terms, Kills, Absorb, View.Valid;
    assert Marked(c, Next(c, s, step), o) by { MarkedStill(c, s, Next(c, s, step), o); }
  }

  lemma OneMoreMark(leaders: seq<Leader>, marks: seq<bool>, sig: Sig, sent: bool)
    requires |marks| < |leaders|
    ensures Groups(leaders, marks + [sent], sig)
         == Groups(leaders, marks, sig) + if sent then [OnGroup(leaders[|marks|], sig)] else []
  {
    assert (marks + [sent])[..|marks|] == marks;
  }

  lemma SignsJoin(a: seq<Event>, b: seq<Event>)
    ensures Signs(a + b) == Signs(a) + Signs(b)
  {
  }

  lemma PidsJoin(a: seq<Sent>, b: seq<Sent>)
    ensures Pids(a + b) == Pids(a) + Pids(b)
  {
  }

  lemma NoSigns()
    ensures Pids([]) == [] && Signs([]) == []
  {
  }

  lemma LeaderSigns(s: State, l: Leader, sig: Sig)
    ensures Signs(ToLeader(s, l, sig)) == if l.uid in s.reaped then [] else [OnGroup(l, sig)]
  {
    hide Members;
  }

  lemma TermGroupOnCourse(c: Config, s: State, o: Course) returns (next: Course)
    requires s.phase.TermGroups? && s.phase.next < |c.Leaders()| && OnCourse(c, s, o)
    ensures OnCourse(c, GroupStep(c, s), next)
  {
    hide Signs, Groups, ToLeader;
    var l, leaders := c.Leaders()[s.phase.next], c.Leaders();
    var sent := l.uid !in s.reaped;
    LeaderSigns(s, l, TERM);
    SignsJoin(s.log, ToLeader(s, l, TERM));
    next := o.(term := o.term + [sent]);
    OneMoreMark(leaders, o.term, TERM, sent);
    assert o.kill == [];
    NoGroups(leaders, KILL);
  }

  lemma KillGroupOnCourse(c: Config, s: State, o: Course) returns (next: Course)
    requires s.phase.KillGroups? && s.phase.next < |c.Leaders()| && OnCourse(c, s, o)
    ensures OnCourse(c, GroupStep(c, s), next)
  {
    hide Signs, Groups, ToLeader;
    var l, leaders := c.Leaders()[s.phase.next], c.Leaders();
    var sent := l.uid !in s.reaped;
    LeaderSigns(s, l, KILL);
    SignsJoin(s.log, ToLeader(s, l, KILL));
    next := o.(kill := o.kill + [sent]);
    OneMoreMark(leaders, o.kill, KILL, sent);
  }

  lemma GroupOnCourse(c: Config, s: State, o: Course) returns (next: Course)
    requires (s.phase.TermGroups? || s.phase.KillGroups?) && OnCourse(c, s, o)
    ensures OnCourse(c, GroupStep(c, s), next)
  {
    hide Signs, Groups, ToLeader, Marked;
    next := o;
    if s.phase.next >= |c.Leaders()| {
      assert Marked(c, GroupStep(c, s), o) by { MarkedStill(c, s, GroupStep(c, s), o); }
    } else if s.phase.TermGroups? {
      next := TermGroupOnCourse(c, s, o);
    } else {
      next := KillGroupOnCourse(c, s, o);
    }
  }

  lemma NoGroups(leaders: seq<Leader>, sig: Sig)
    ensures Groups(leaders, [], sig) == []
  {
  }

  /** What one signal to a pid adds, in the owner's own terms. */
  lemma PidSigns(s: State)
    requires (s.phase.Terminate? || s.phase.Kill?) && s.phase.next < |s.inventory|
    ensures var i, t, log := s.phase.next, Snapshot(s.seen), SignalStep(s).log;
            Signs(log) == Signs(s.log)
            + if s.phase.Terminate? then Pids(SignalOf(s.inventory[i], TERM, t, 0))
              else
                var first := FirstLike(s.inventory, s.inventory[i].row.pid, s.inventory[i].row.start);
                if first.Some? then Pids(SignalOf(first.value, KILL, t, 0)) else []
  {
    hide FirstLike, Snapshot, Same;
  }

  lemma TermOnCourse(c: Config, s: State, o: Course)
    requires s.phase.Terminate? && s.phase.next < |s.inventory| && OnCourse(c, s, o)
    ensures OnCourse(c, SignalStep(s), o)
  {
    hide Signs, Groups, Pids, TermLog, Snapshot, SignalOf, FirstLike, Marked, Same, SentTo;
    var i, t, all := s.phase.next, Snapshot(s.seen), s.inventory;
    assert Marked(c, SignalStep(s), o) by { MarkedStill(c, s, SignalStep(s), o); }
    PidSigns(s);
    TermNext(all, i, t, 0);
    PidsJoin(TermLog(all, i, t, 0), SignalOf(all[i], TERM, t, 0));
  }

  lemma KillAdds(s: State) returns (more: seq<Sign>)
    requires s.phase.Kill? && s.phase.next < |s.inventory|
    ensures Signs(SignalStep(s).log) == Signs(s.log) + more
    ensures var i, t := s.phase.next, Snapshot(s.seen);
            Pids(KillLog(s.inventory, i + 1, t, 0)) == Pids(KillLog(s.inventory, i, t, 0)) + more
  {
    hide Signs, Pids, KillLog, Snapshot, SignalOf, FirstLike, Same, SentTo, SignalStep;
    var i, t, all := s.phase.next, Snapshot(s.seen), s.inventory;
    PidSigns(s);
    KillNext(all, i, t, 0);
    NoSigns();
    var first := FirstLike(all, all[i].row.pid, all[i].row.start);
    if first.Some? {
      more := Pids(SignalOf(first.value, KILL, t, 0));
      NotSame(first.value, KILL, t);
      PidsJoin(KillLog(all, i, t, 0), SignalOf(first.value, KILL, t, 0));
    } else {
      more := [];
      PidsJoin(KillLog(all, i, t, 0), []);
    }
  }

  lemma KillOnCourse(c: Config, s: State, o: Course)
    requires s.phase.Kill? && s.phase.next < |s.inventory| && OnCourse(c, s, o)
    ensures OnCourse(c, SignalStep(s), o)
  {
    hide Signs, Groups, Pids, KillLog, Snapshot, SignalOf, FirstLike, Marked, Same, SentTo, Terms;
    assert Marked(c, SignalStep(s), o) by { MarkedStill(c, s, SignalStep(s), o); }
    var more := KillAdds(s);
  }

  /** At the end of the inventory the table in use is the one that decided. */
  lemma AllSignalled(c: Config, s: State, o: Course) returns (next: Course)
    requires (s.phase.Terminate? || s.phase.Kill?) && s.phase.next >= |s.inventory| && OnCourse(c, s, o)
    ensures OnCourse(c, SignalStep(s), next)
  {
    hide Signs, Groups, Pids, TermLog, KillLog, Snapshot, Marked;
    next := if s.phase.Terminate? then o.(first := s.seen) else o.(second := s.seen);
    assert Marked(c, SignalStep(s), next) by {
      MarkedStill(c, s, SignalStep(s), o);
      SameMarks(c, SignalStep(s), o, next);
    }
  }

  lemma SignalOnCourse(c: Config, s: State, o: Course) returns (next: Course)
    requires (s.phase.Terminate? || s.phase.Kill?) && OnCourse(c, s, o)
    ensures OnCourse(c, SignalStep(s), next)
  {
    hide OnCourse, SignalStep;
    next := o;
    if s.phase.next >= |s.inventory| {
      next := AllSignalled(c, s, o);
    } else if s.phase.Terminate? {
      TermOnCourse(c, s, o);
    } else {
      KillOnCourse(c, s, o);
    }
  }

  lemma SameMarks(c: Config, s: State, o: Course, other: Course)
    requires Marked(c, s, o) && other.term == o.term && other.kill == o.kill
    ensures Marked(c, s, other)
  {
  }

  lemma NotSame(r: Record, sig: Sig, t: Table)
    ensures !Same(r, t) ==> SignalOf(r, sig, t, 0) == []
  {
  }

  /** A table to decide on, or none, before the first signal of a phase. */
  lemma FreshOnCourse(c: Config, s: State, t: State, o: Course)
    requires (s.phase.Refresh? || s.phase.Reread?) && OnCourse(c, s, o) && Quiet(s, t)
    requires t.phase == AfterReading(s.phase) && WasRead(t, t.seen)
    ensures OnCourse(c, t, o)
  {
    hide Signs, Groups, Pids, Snapshot, Marked, Terms, TermLog, KillLog;
    assert Marked(c, t, o) by { MarkedStill(c, s, t, o); }
    TermNone(s.inventory, Snapshot(t.seen), 0);
    KillNone(s.inventory, Snapshot(t.seen), 0);
    NoSigns();
  }

  /** The polling loops only read. */
  lemma PollOnCourse(c: Config, s: State, t: State, o: Course)
    requires (s.phase.Wait? || s.phase.Verify?) && OnCourse(c, s, o) && Quiet(s, t)
    requires t.phase == s.phase || t.phase == AfterReading(s.phase)
    ensures OnCourse(c, t, o)
  {
    hide Signs, Groups, Marked, Terms, Kills;
    assert Marked(c, t, o) by { MarkedStill(c, s, t, o); }
  }

  lemma ReadOnCourse(c: Config, s: State, step: Step, o: Course)
    requires Enabled(c, s, step) && (step.ReadTable? || step.ReadFails? || step.StopReading?) && OnCourse(c, s, o)
    ensures OnCourse(c, Next(c, s, step), o)
  {
    hide OnCourse;
    var t := Next(c, s, step);
    assert step.ReadTable? ==> t.tables[|s.tables|] == s.procs;
    if s.phase.Wait? || s.phase.Verify? {
      PollOnCourse(c, s, t, o);
    } else {
      FreshOnCourse(c, s, t, o);
    }
  }

  lemma StepOnCourse(c: Config, s: State, step: Step, o: Course) returns (next: Course)
    requires Enabled(c, s, step) && OnCourse(c, s, o)
    ensures OnCourse(c, Next(c, s, step), next)
  {
    hide OnCourse, GroupStep, SignalStep, Absorb, View.Valid;
    next := o;
    match step
    case ScanTable(_) => ScanOnCourse(c, s, step, o);
    case ScanFails => ScanOnCourse(c, s, step, o);
    case StopScanning => ScanOnCourse(c, s, step, o);
    case SignalGroup => next := GroupOnCourse(c, s, o);
    case ReadTable => ReadOnCourse(c, s, step, o);
    case ReadFails => ReadOnCourse(c, s, step, o);
    case StopReading => ReadOnCourse(c, s, step, o);
    case SignalNext => next := SignalOnCourse(c, s, o);
    case _ => StillOnCourse(c, s, Next(c, s, step), o);
  }

  lemma {:induction false} RunOnCourse(c: Config, start: State, steps: seq<Step>) returns (o: Course)
    requires Init(c, start) && After(c, start, steps).Some?
    ensures OnCourse(c, After(c, start, steps).value, o)
  {
    hide OnCourse, Enabled, Next;
    if steps == [] {
      o := StartOnCourse(c, start);
    } else {
      var n := |steps| - 1;
      var before := RunOnCourse(c, start, steps[..n]);
      o := StepOnCourse(c, After(c, start, steps[..n]).value, steps[n], before);
    }
  }

  lemma StartOnCourse(c: Config, start: State) returns (o: Course)
    requires Init(c, start)
    ensures OnCourse(c, start, o)
  {
    o := Course([], [], map[], map[]);
  }

  /** Everything signalled in a run to the end, in order: TERM to the groups of the
      runner and the server, then KILL to them, each unless it was reaped by then;
      TERM to each inventoried process that one table lists; and KILL for each whose
      first record like it a later table lists.  Both are tables that were read,
      unless a read failed, which stands for a table without rows. */
  lemma RunSignals(c: Config, start: State, steps: seq<Step>) returns (o: Course)
    requires Init(c, start) && After(c, start, steps).Some? && After(c, start, steps).value.phase.Done?
    ensures var s := After(c, start, steps).value;
            && |o.term| == |o.kill| == |c.Leaders()| && Marked(c, s, o) && WasRead(s, o.first) && WasRead(s, o.second)
            && Signs(s.log) == Groups(c.Leaders(), o.term, TERM) + Groups(c.Leaders(), o.kill, KILL)
                               + Terms(s.inventory, o.first) + Kills(s.inventory, o.second)
  {
    hide Marked, WasRead, Signs, Groups, Terms, Kills;
    o := RunOnCourse(c, start, steps);
    var s := After(c, start, steps).value;
    Associate(Groups(c.Leaders(), o.term, TERM) + Groups(c.Leaders(), o.kill, KILL), Terms(s.inventory, o.first),
              Kills(s.inventory, o.second));
  }
}
