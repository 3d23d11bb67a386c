/**
  scripts/capture_owner_deadline.py: parent lineages and the inventory of browser
  processes.  The process table is what `ps` printed; which command lines start
  the browser is a parameter.
*/
module ProcessInventory {
  import opened Common

  datatype Row = Row(pid: int, ppid: int, pgid: int, start: string, command: string)

  type Table = map<int, Row>

  predicate Keyed(t: Table) { forall p :: p in t ==> t[p].pid == p }

  /** process_identity */
  datatype Identity = Identity(pid: int, start: string, command: string)

  function IdentityOf(row: Row): Identity { Identity(row.pid, row.start, row.command) }

  // ---- Lineages ----

  /** The rows from the root down to `current`, unless the parent walk leaves the
      table or meets a process in `seen` again. */
  function Walk(current: int, t: Table, root: int, seen: set<int>): Option<seq<Row>>
    decreases t.Keys - seen
  {
    if current !in t || current in seen then None
    else if current == root then Some([t[current]])
    else
      var above := Walk(t[current].ppid, t, root, seen + {current});
      if above.Some? then Some(above.value + [t[current]]) else None
  }

  function Reversed(rows: seq<Row>): seq<Row> {
    if rows == [] then [] else Reversed(rows[1..]) + [rows[0]]
  }

  method LineageFor(pid: int, t: Table, root: int) returns (lineage: Option<seq<Row>>)
    ensures lineage == Walk(pid, t, root, {})
  {
    var chain: seq<Row> := [];
    var seen: set<int> := {};
    var current := pid;
    assert forall c: seq<Row> :: c + [] == c;
    while current in t && current !in seen
      invariant var w := Walk(current, t, root, seen);
                Walk(pid, t, root, {}) == if w.Some? then Some(w.value + Reversed(chain)) else None
      decreases t.Keys - seen
    {
      seen := seen + {current};
      ReversedLast(chain, t[current]);
      chain := chain + [t[current]];
      if current == root {
        return Some(Reversed(chain));
      }
      current := t[current].ppid;
    }
    return None;
  }

  lemma {:induction false} ReversedLast(rows: seq<Row>, row: Row)
    ensures Reversed(rows + [row]) == [row] + Reversed(rows)
    ensures forall c: seq<Row> :: c + ([row] + Reversed(rows)) == (c + [row]) + Reversed(rows)
  {
    if rows == [] {
    } else {
      ReversedLast(rows[1..], row);
      assert (rows + [row])[1..] == rows[1..] + [row];
    }
  }

  /** From the root to the process along parent links, through the table, without
      repeats. */
  predicate IsLineage(chain: seq<Row>, pid: int, t: Table, root: int) {
    && chain != [] && chain[0].pid == root && chain[|chain| - 1].pid == pid
    && (forall i :: 0 <= i < |chain| ==> chain[i].pid in t && chain[i] == t[chain[i].pid])
    && (forall i :: 0 < i < |chain| ==> chain[i].ppid == chain[i - 1].pid)
    && (forall i, j :: 0 <= i < j < |chain| ==> chain[i].pid != chain[j].pid)
  }

  lemma {:induction false} WalkIsLineage(current: int, t: Table, root: int, seen: set<int>)
    requires Keyed(t) && Walk(current, t, root, seen).Some?
    ensures var chain := Walk(current, t, root, seen).value;
            IsLineage(chain, current, t, root) && forall i :: 0 <= i < |chain| ==> chain[i].pid !in seen
    decreases t.Keys - seen
  {
    if current != root { WalkIsLineage(t[current].ppid, t, root, seen + {current}); }
  }

  /** At most n parent links inside the table lead to the root. */
  predicate Reaches(p: int, t: Table, root: int, n: nat)
    decreases n
  {
    p in t && (p == root || (n > 0 && Reaches(t[p].ppid, t, root, n - 1)))
  }

  /** Some number of parent links inside the table leads to the root. */
  ghost predicate Arrives(p: int, t: Table, root: int) { exists n: nat :: Reaches(p, t, root, n) }

  lemma {:induction false} ReachesMore(p: int, t: Table, root: int, n: nat, m: nat)
    requires Reaches(p, t, root, n) && n <= m
    ensures Reaches(p, t, root, m)
    decreases n
  {
    if p != root { ReachesMore(t[p].ppid, t, root, n - 1, m - 1); }
  }

  /** The shortest walk to the root cannot meet a process that is further away. */
  lemma {:induction false} WalkFinds(p: int, t: Table, root: int, seen: set<int>, n: nat)
    requires Reaches(p, t, root, n) && (n == 0 || !Reaches(p, t, root, n - 1))
    requires forall q :: q in seen ==> !Reaches(q, t, root, n)
    ensures Walk(p, t, root, seen).Some?
    decreases n
  {
    if p != root {
      forall q | q in seen + {p} ensures !Reaches(q, t, root, n - 1) {
        if q in seen && Reaches(q, t, root, n - 1) { ReachesMore(q, t, root, n - 1, n); }
      }
      WalkFinds(t[p].ppid, t, root, seen + {p}, n - 1);
    }
  }

  lemma {:induction false} WalkReaches(p: int, t: Table, root: int, seen: set<int>)
    requires Walk(p, t, root, seen).Some?
    ensures Arrives(p, t, root)
    decreases t.Keys - seen
  {
    if p == root {
      assert Reaches(p, t, root, 0);
    } else {
      WalkReaches(t[p].ppid, t, root, seen + {p});
      var n: nat :| Reaches(t[p].ppid, t, root, n);
      assert Reaches(p, t, root, n + 1);
    }
  }

  lemma {:induction false} ShortestWalk(p: int, t: Table, root: int, n: nat) returns (least: nat)
    requires Reaches(p, t, root, n)
    ensures Reaches(p, t, root, least) && (least == 0 || !Reaches(p, t, root, least - 1))
    decreases n
  {
    if n > 0 && Reaches(p, t, root, n - 1) {
      least := ShortestWalk(p, t, root, n - 1);
    } else {
      least := n;
    }
  }

  /** A lineage is found, and is one, exactly when the parent walk inside the table
      reaches the root; cyclic tables included. */
  lemma LineageExactly(pid: int, t: Table, root: int)
    requires Keyed(t)
    ensures Walk(pid, t, root, {}).Some? <==> Arrives(pid, t, root)
    ensures Walk(pid, t, root, {}).Some? ==> IsLineage(Walk(pid, t, root, {}).value, pid, t, root)
  {
    if Walk(pid, t, root, {}).Some? {
      WalkReaches(pid, t, root, {});
      WalkIsLineage(pid, t, root, {});
    } else if Arrives(pid, t, root) {
      var n: nat :| Reaches(pid, t, root, n);
      var least := ShortestWalk(pid, t, root, n);
      WalkFinds(pid, t, root, {}, least);
    }
  }

  /** b is met on the parent walk from p, after at most n links and not above the
      root. */
  predicate Passes(p: int, b: int, t: Table, root: int, n: nat)
    decreases n
  {
    p in t && (p == b || (n > 0 && p != root && Passes(t[p].ppid, b, t, root, n - 1)))
  }

  predicate OnChain(p: int, chain: seq<Row>) { exists i :: 0 <= i < |chain| && chain[i].pid == p }

  lemma OnLonger(p: int, chain: seq<Row>, row: Row)
    ensures OnChain(p, chain + [row]) <==> OnChain(p, chain) || p == row.pid
  {
    if OnChain(p, chain) {
      var i :| 0 <= i < |chain| && chain[i].pid == p;
      assert (chain + [row])[i] == chain[i];
    }
    assert (chain + [row])[|chain|] == row;
  }

  /** b is met somewhere on the parent walk from p to the root. */
  ghost predicate OnWay(p: int, b: int, t: Table, root: int) { exists n: nat :: Passes(p, b, t, root, n) }

  lemma OnWayUp(p: int, b: int, t: Table, root: int)
    requires p in t && p != root && p != b
    ensures OnWay(p, b, t, root) ==> OnWay(t[p].ppid, b, t, root)
  {
    if n: nat :| Passes(p, b, t, root, n) { assert Passes(t[p].ppid, b, t, root, n - 1); }
  }

  lemma OnWayDown(p: int, b: int, t: Table, root: int)
    requires p in t && p != root
    ensures OnWay(t[p].ppid, b, t, root) ==> OnWay(p, b, t, root)
  {
    if n: nat :| Passes(t[p].ppid, b, t, root, n) { assert Passes(p, b, t, root, n + 1); }
  }

  lemma OnWayHere(p: int, t: Table, root: int)
    requires p in t
    ensures OnWay(p, p, t, root)
  {
    assert Passes(p, p, t, root, 0);
  }

  lemma OnlyRoot(b: int, t: Table, root: int)
    requires b != root
    ensures !OnWay(root, b, t, root)
  {
  }

  lemma OnSingle(p: int, row: Row)
    ensures OnChain(p, [row]) <==> p == row.pid
  {
    assert [row][0] == row;
  }

  /** A lineage holds exactly what is on the way. */
  lemma {:induction false} WalkPasses(p: int, t: Table, root: int, seen: set<int>, b: int)
    requires Keyed(t) && Walk(p, t, root, seen).Some?
    ensures OnChain(b, Walk(p, t, root, seen).value) <==> OnWay(p, b, t, root)
    decreases t.Keys - seen
  {
    hide OnChain, OnWay;
    OnWayHere(p, t, root);
    if p == root {
      OnSingle(b, t[p]);
      if b != root { OnlyRoot(b, t, root); }
    } else {
      var above := t[p].ppid;
      WalkPasses(above, t, root, seen + {p}, b);
      OnLonger(b, Walk(above, t, root, seen + {p}).value, t[p]);
      OnWayDown(p, b, t, root);
      if b != p { OnWayUp(p, b, t, root); }
    }
  }

  /** What is passed on the way to the root reaches the root. */
  lemma {:induction false} PassedReaches(p: int, b: int, t: Table, root: int, n: nat, m: nat)
    requires Passes(p, b, t, root, n) && Reaches(p, t, root, m)
    ensures Reaches(b, t, root, m)
    decreases n
  {
    if p != b {
      PassedReaches(t[p].ppid, b, t, root, n - 1, m - 1);
      ReachesMore(b, t, root, m - 1, m);
    }
  }

  // ---- The inventory ----

  /** Strictly below the root along parent links. */
  ghost predicate Below(t: Table, root: int, p: int) { p != root && Arrives(p, t, root) }

  /** A process seen below the capture root and below (or as) a browser root. */
  datatype Record = Record(row: Row, browserRoot: int, lineage: seq<Row>)

  function Least(xs: seq<int>): int
    requires xs != []
  {
    if |xs| == 1 || xs[0] <= Least(xs[1..]) then xs[0] else Least(xs[1..])
  }

  /** One process table in the order `ps` printed it, seen by an owner. */
  datatype View = View(order: seq<int>, table: Table, root: int, isBrowser: string -> bool)
  {
    ghost predicate Valid() { Keyed(table) && forall p :: p in order <==> p in table }

    function Lineage(p: int): Option<seq<Row>> { Walk(p, table, root, {}) }

    predicate Descendant(p: int) { Lineage(p).Some? && |Lineage(p).value| > 1 }

    predicate BrowserRoot(p: int) { p in table && Descendant(p) && isBrowser(table[p].command) }

    function BrowserRoots(n: nat): seq<int>
      requires n <= |order|
    {
      if n == 0 then [] else BrowserRoots(n - 1) + if BrowserRoot(order[n - 1]) then [order[n - 1]] else []
    }

    function RecordFor(p: int): Option<Record> {
      if p !in table || !Descendant(p) then None
      else
        var above := Among(BrowserRoots(|order|), Lineage(p).value);
        if above == [] then None else Some(Record(table[p], Least(above), Lineage(p).value))
    }
  }

  /** The pids that occur in the chain. */
  function Among(pids: seq<int>, chain: seq<Row>): seq<int> {
    if pids == [] then []
    else Among(pids[..|pids| - 1], chain) +
         if exists i :: 0 <= i < |chain| && chain[i].pid == pids[|pids| - 1] then [pids[|pids| - 1]] else []
  }

  predicate Known(records: seq<Record>, id: Identity) {
    exists i :: 0 <= i < |records| && IdentityOf(records[i].row) == id
  }

  const LIMIT := 512

  /** The inventory after the pids from position `from` on are looked at, and
      whether it stayed within the limit. */
  function Absorb(v: View, records: seq<Record>, from: nat): (seq<Record>, bool)
    requires from <= |v.order|
    decreases |v.order| - from
  {
    if from == |v.order| then (records, true)
    else
      var r := v.RecordFor(v.order[from]);
      if r.None? || Known(records, IdentityOf(r.value.row)) then Absorb(v, records, from + 1)
      else if |records| + 1 > LIMIT then (records + [r.value], false)
      else Absorb(v, records + [r.value], from + 1)
  }

  class Inventory {
    var records: seq<Record>
    /** The tables that were scanned. */
    ghost var scans: seq<View>

    ghost predicate Valid()
      reads this
    {
      Grounded(records, scans) && DistinctIdentities(records)
    }

    constructor ()
      ensures records == [] && scans == [] && Valid()
    {
      records, scans := [], [];
    }

    /** capture_browser_inventory; an absent table is a `ps` that failed. */
    method Capture(read: Option<View>) returns (ok: bool)
      requires Valid() && (read.Some? ==> read.value.Valid())
      modifies this
      ensures Valid()
      ensures read.None? ==> !ok && records == old(records) && scans == old(scans)
      ensures read.Some? ==> (records, ok) == Absorb(read.value, old(records), 0) && scans == old(scans) + [read.value]
    {
      if read.None? {
        return false;
      }
      hide Known, IdentityOf;
      var v := read.value;
      var descendants := Descendants(v);
      var roots := Roots(v, descendants);
      scans := scans + [v];
      for i := 0 to |v.order|
        invariant Grounded(records, scans) && DistinctIdentities(records)
        invariant Absorb(v, records, i) == Absorb(v, old(records), 0)
        invariant scans == old(scans) + [v]
      {
        var p := v.order[i];
        if p in descendants {
          var above := Among(roots, descendants[p]);
          var row := v.table[p];
          if above != [] && !Known(records, IdentityOf(row)) {
            records := records + [Record(row, Least(above), descendants[p])];
            if |records| > LIMIT {
              return false;
            }
          }
        }
      }
      return true;
    }
  }

  /** A lineage of more than the root is one of a process below the root. */
  lemma DescendantExactly(v: View, p: int)
    requires v.Valid()
    ensures v.Descendant(p) <==> Below(v.table, v.root, p)
  {
    hide Walk, Arrives;
    LineageExactly(p, v.table, v.root);
    if v.Lineage(p).Some? {
      var chain := v.Lineage(p).value;
      LongLineage(chain, p, v.table, v.root);
    }
  }

  lemma LongLineage(chain: seq<Row>, p: int, t: Table, root: int)
    requires IsLineage(chain, p, t, root)
    ensures |chain| > 1 <==> p != root
  {
    if |chain| > 1 { assert chain[0].pid != chain[|chain| - 1].pid; }
  }

  lemma DescendantInTable(v: View, p: int)
    ensures v.Descendant(p) ==> p in v.table
  {
  }

  method Descendants(v: View) returns (descendants: map<int, seq<Row>>)
    requires v.Valid()
    ensures forall p :: p in descendants <==> v.Descendant(p)
    ensures forall p :: p in descendants <==> Below(v.table, v.root, p)
    ensures forall p :: p in descendants ==> v.Lineage(p).Some? && descendants[p] == v.Lineage(p).value
  {
    hide Walk;
    descendants := map[];
    for i := 0 to |v.order|
      invariant forall p :: p in descendants <==> p in v.order[..i] && v.Descendant(p)
      invariant forall p :: p in descendants ==> v.Lineage(p).Some? && descendants[p] == v.Lineage(p).value
    {
      var chain := LineageFor(v.order[i], v.table, v.root);
      if chain.Some? && |chain.value| > 1 {
        descendants := descendants[v.order[i] := chain.value];
      }
    }
    assert v.order[..|v.order|] == v.order;
    forall p ensures v.Descendant(p) ==> p in v.table { DescendantInTable(v, p); }
    forall p ensures v.Descendant(p) <==> Below(v.table, v.root, p) { DescendantExactly(v, p); }
  }

  method Roots(v: View, descendants: map<int, seq<Row>>) returns (roots: seq<int>)
    requires v.Valid() && forall p :: p in descendants <==> v.Descendant(p)
    ensures roots == v.BrowserRoots(|v.order|)
  {
    hide Walk;
    roots := [];
    for i := 0 to |v.order|
      invariant roots == v.BrowserRoots(i)
    {
      var p := v.order[i];
      if p in descendants && v.isBrowser(v.table[p].command) {
        roots := roots + [p];
      }
    }
  }

  /** Every record is what some scanned table says about its process. */
  ghost predicate Grounded(records: seq<Record>, scans: seq<View>) {
    forall i :: 0 <= i < |records| ==> SeenIn(records[i], scans)
  }

  ghost predicate SeenIn(r: Record, scans: seq<View>) {
    exists v :: v in scans && v.Valid() && v.RecordFor(r.row.pid) == Some(r)
  }

  predicate DistinctIdentities(records: seq<Record>) {
    forall i, j :: 0 <= i < j < |records| ==> IdentityOf(records[i].row) != IdentityOf(records[j].row)
  }

  // ---- What being in the inventory means ----

  lemma {:induction false} LeastIsLeast(xs: seq<int>)
    requires xs != []
    ensures Least(xs) in xs && forall x :: x in xs ==> Least(xs) <= x
  {
    if |xs| > 1 {
      LeastIsLeast(xs[1..]);
      assert xs == [xs[0]] + xs[1..];
    }
  }

  lemma {:induction false} AmongMembers(pids: seq<int>, chain: seq<Row>)
    ensures forall p :: p in Among(pids, chain) <==> p in pids && OnChain(p, chain)
  {
    if pids == [] {
    } else {
      AmongMembers(pids[..|pids| - 1], chain);
      assert pids == pids[..|pids| - 1] + [pids[|pids| - 1]];
    }
  }

  lemma {:induction false} BrowserRootsMembers(v: View, n: nat)
    requires n <= |v.order|
    ensures forall p :: p in v.BrowserRoots(n) <==> p in v.order[..n] && v.BrowserRoot(p)
  {
    if n > 0 {
      BrowserRootsMembers(v, n - 1);
      assert v.order[..n] == v.order[..n - 1] + [v.order[n - 1]];
    }
  }

  /** On the way from p to the root, below the root, b starts the browser. */
  ghost predicate BrowserAbove(v: View, p: int, b: int) {
    && b in v.table && b != v.root && v.isBrowser(v.table[b].command)
    && OnWay(p, b, v.table, v.root)
  }

  lemma BrowserOnChain(v: View, p: int, b: int)
    requires v.Valid() && v.Descendant(p)
    ensures OnChain(b, v.Lineage(p).value) && v.BrowserRoot(b) <==> BrowserAbove(v, p, b)
  {
    hide Walk, OnChain, OnWay;
    WalkPasses(p, v.table, v.root, {}, b);
    DescendantExactly(v, p);
    DescendantExactly(v, b);
    DescendantInTable(v, b);
    if OnWay(p, b, v.table, v.root) { WayReaches(p, b, v.table, v.root); }
  }

  lemma WayReaches(p: int, b: int, t: Table, root: int)
    requires OnWay(p, b, t, root) && Arrives(p, t, root)
    ensures Arrives(b, t, root)
  {
    var n: nat :| Passes(p, b, t, root, n);
    var m: nat :| Reaches(p, t, root, m);
    PassedReaches(p, b, t, root, n, m);
  }

  /** A process gets a record exactly when it is below the capture root and a
      process that starts the browser is on the way there; the record names the
      least such one and carries the way. */
  lemma RecordedExactly(v: View, p: int)
    requires v.Valid()
    ensures v.RecordFor(p).Some? <==> Below(v.table, v.root, p) && exists b :: BrowserAbove(v, p, b)
    ensures v.RecordFor(p).Some? ==>
              var r := v.RecordFor(p).value;
              && p in v.table && r.row == v.table[p] && r.row.pid == p
              && IsLineage(r.lineage, p, v.table, v.root) && |r.lineage| > 1
              && BrowserAbove(v, p, r.browserRoot) && OnChain(r.browserRoot, r.lineage)
              && (forall b :: BrowserAbove(v, p, b) ==> r.browserRoot <= b)
  {
    hide Among, Least, Walk, OnChain, BrowserAbove;
    DescendantExactly(v, p);
    if v.Descendant(p) {
      WalkIsLineage(p, v.table, v.root, {});
      var chain := v.Lineage(p).value;
      BrowserRootsMembers(v, |v.order|);
      assert v.order[..|v.order|] == v.order;
      AmongMembers(v.BrowserRoots(|v.order|), chain);
      var above := Among(v.BrowserRoots(|v.order|), chain);
      forall b ensures b in above <==> BrowserAbove(v, p, b) { BrowserOnChain(v, p, b); }
      if above != [] { LeastIsLeast(above); }
      if b :| BrowserAbove(v, p, b) { assert b in above; }
    }
  }

  /** Every inventoried process was seen below the capture root in some scan, with
      the root and a browser root on its lineage. */
  lemma InventoryOwned(records: seq<Record>, scans: seq<View>, i: nat)
    requires Grounded(records, scans) && i < |records|
    ensures exists v :: v in scans && v.Valid() &&
              var r := records[i];
              && r.row.pid in v.table && r.row == v.table[r.row.pid]
              && IsLineage(r.lineage, r.row.pid, v.table, v.root) && r.lineage[0].pid == v.root
              && OnChain(r.browserRoot, r.lineage) && r.browserRoot in v.table
                 && v.isBrowser(v.table[r.browserRoot].command)
  {
    hide Walk;
    assert SeenIn(records[i], scans);
    var v :| v in scans && v.Valid() && v.RecordFor(records[i].row.pid) == Some(records[i]);
    RecordedExactly(v, records[i].row.pid);
  }

  lemma {:induction false} AbsorbComplete(v: View, records: seq<Record>, from: nat)
    requires v.Valid() && from <= |v.order|
    ensures var after := Absorb(v, records, from);
            && records <= after.0 && (forall id :: Known(records, id) ==> Known(after.0, id))
            && (after.1 ==> forall j :: from <= j < |v.order| && v.RecordFor(v.order[j]).Some?
                              ==> Known(after.0, IdentityOf(v.table[v.order[j]])))
            && (|records| <= 512 ==> if after.1 then |after.0| <= 512 else |after.0| == 513)
            && (!after.1 ==> |after.0| > 512)
    decreases |v.order| - from
  {
    hide View.Valid, View.Descendant, View.BrowserRoots, Among, Least, Walk;
    if from < |v.order| {
      var r := v.RecordFor(v.order[from]);
      if r.None? || Known(records, IdentityOf(r.value.row)) {
        AbsorbComplete(v, records, from + 1);
      } else if |records| + 1 <= LIMIT {
        var more := records + [r.value];
        assert more[|records|] == r.value;
        assert forall i :: 0 <= i < |records| ==> more[i] == records[i];
        AbsorbComplete(v, more, from + 1);
      } else {
        var more := records + [r.value];
        assert forall i :: 0 <= i < |records| ==> more[i] == records[i];
      }
    }
  }
}
