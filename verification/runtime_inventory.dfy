/**
  scripts/build_reference_dolphin.py `runtime_inventory`: a worklist over the
  dynamic libraries that a packaged application loads.
*/
module RuntimeInventory {
  import opened Common
  import opened Sorting

  /** Where a load name was looked for: nowhere, in places that do not exist, or
      found (already resolved to a canonical path). */
  datatype Resolution<+P> = NoCandidates | Absent | At(path: P)

  /** What otool and the file system answer; these do not change during a run. */
  datatype World<!P(==), !H> = World(
    canonical: P -> P,
    loads: P -> seq<string>,
    resolve: (P, string) -> Resolution<P>,
    isLibrary: P -> bool,
    text: P -> string,
    digest: P -> H,
    size: P -> nat)
  {
    /** A load this owner cannot satisfy: the inventory raises. */
    predicate Missing(owner: P, name: string) {
      var r := resolve(owner, name);
      r.NoCandidates? || (r.Absent? && !SystemManaged(name))
    }

    function Key(owner: P, name: string): string {
      match resolve(owner, name) case At(p) => text(p) case _ => name
    }

    /** The load is hashed. */
    predicate Hashed(owner: P, name: string) { resolve(owner, name).At? && !SystemManaged(name) }

    /** The load makes its target an owner too. */
    predicate Followed(owner: P, name: string) { Hashed(owner, name) && isLibrary(resolve(owner, name).path) }
  }

  predicate SystemManaged(name: string) { "/System/" <= name || "/usr/lib/" <= name }

  datatype Entry<P, H> = Entry(loadName: string, loadNames: seq<string>, resolvedPath: Option<P>, systemManaged: bool,
                               contents: Option<(H, nat)>)

  /** A load: which owner, which name. */
  type Loaded<P> = (P, string)

  /** The entry table after one more load. */
  function Record<P(==), H>(w: World<P, H>, entries: map<string, Entry<P, H>>, owner: P, name: string)
    : map<string, Entry<P, H>>
  {
    var r, key := w.resolve(owner, name), w.Key(owner, name);
    var path := if r.At? then Some(r.path) else None;
    var item := if key in entries then entries[key] else Entry(name, [name], path, SystemManaged(name), None);
    var named := if name in item.loadNames then item else item.(loadNames := item.loadNames + [name]);
    var hashed := if w.Hashed(owner, name) then named.(contents := Some((w.digest(r.path), w.size(r.path)))) else named;
    entries[key := hashed]
  }

  ghost function RecordAll<P, H>(w: World<P, H>, done: seq<Loaded<P>>): map<string, Entry<P, H>> {
    if done == [] then map[]
    else
      var last := done[|done| - 1];
      Record(w, RecordAll(w, done[..|done| - 1]), last.0, last.1)
  }

  // ---- The owners an inventory must visit ----

  /** Contains every initial owner and everything its members make an owner. */
  ghost predicate Closed<P(!new), H>(w: World<P, H>, initial: seq<P>, s: set<P>) {
    && (forall p :: p in initial ==> w.canonical(p) in s)
    && (forall o, name :: o in s && name in w.loads(o) && w.Followed(o, name) ==>
          w.canonical(w.resolve(o, name).path) in s)
  }

  /** A chain of n followed loads leads from an initial owner to o. */
  ghost predicate ReachedIn<P(!new), H>(w: World<P, H>, initial: seq<P>, o: P, n: nat)
    decreases n
  {
    if n == 0 then exists p :: p in initial && w.canonical(p) == o
    else exists q, name :: ReachedIn(w, initial, q, n - 1) && Leads(w, q, name, o)
  }

  predicate Leads<P(==), H>(w: World<P, H>, q: P, name: string, o: P) {
    name in w.loads(q) && w.Followed(q, name) && w.canonical(w.resolve(q, name).path) == o
  }

  ghost predicate Reached<P(!new), H>(w: World<P, H>, initial: seq<P>, o: P) {
    exists n: nat :: ReachedIn(w, initial, o, n)
  }

  class Inventory<P(==,!new), H> {
    const world: World<P, H>
    var queue: seq<P>
    var seen: set<P>
    var entries: map<string, Entry<P, H>>
    var keys: seq<string>
    /** Every load recorded so far and every owner taken up, in order. */
    ghost var done: seq<Loaded<P>>
    ghost var visited: seq<P>

    constructor (world: World<P, H>)
      ensures this.world == world
    {
      this.world, queue, seen, entries, keys, done, visited := world, [], {}, map[], [], [], [];
    }

    ghost predicate KeysListed()
      reads this
    {
      Distinct(keys) && forall k :: k in keys <==> k in entries
    }

    ghost predicate Tables()
      reads this
    {
      && entries == RecordAll(world, done) && KeysListed()
      && Distinct(visited) && (forall o :: o in visited <==> o in seen)
      && (forall d :: d in done ==> d.0 in seen && d.1 in world.loads(d.0) && !world.Missing(d.0, d.1))
    }

    /** Everything discovered is visited or queued. */
    ghost predicate Frontier(initial: seq<P>)
      reads this
    {
      && (forall p :: p in initial ==> world.canonical(p) in seen || p in queue)
      && (forall d :: d in done && world.Followed(d.0, d.1) ==>
            world.canonical(world.resolve(d.0, d.1).path) in seen || world.resolve(d.0, d.1).path in queue)
      && (forall o :: o in seen ==> Reached(world, initial, o))
      && (forall p :: p in queue ==> Reached(world, initial, world.canonical(p)))
    }

    /** Every load of every owner taken up, but those in `except`, is recorded. */
    ghost predicate OwnersDone(except: set<P>)
      reads this
    {
      forall o, name :: o in seen && o !in except && name in world.loads(o) ==> (o, name) in done
    }

    method UpdateEntry(owner: P, name: string)
      requires KeysListed()
      modifies this`entries, this`keys
      ensures entries == Record(world, old(entries), owner, name) && KeysListed()
    {
      hide Distinct, SystemManaged;
      var resolved := world.resolve(owner, name);
      var systemManaged := SystemManaged(name);
      var key := if resolved.At? then world.text(resolved.path) else name;
      var path := if resolved.At? then Some(resolved.path) else None;
      if key !in entries {
        entries := entries[key := Entry(name, [name], path, systemManaged, None)];
        DistinctMore(keys, key);
        keys := keys + [key];
      }
      var item := entries[key];
      if name !in item.loadNames {
        item := item.(loadNames := item.loadNames + [name]);
      }
      if resolved.At? && !systemManaged {
        item := item.(contents := Some((world.digest(resolved.path), world.size(resolved.path))));
      }
      entries := entries[key := item];
    }

    /** Takes up one load of an owner; false when the inventory must raise. */
    method RecordLoad(owner: P, name: string, ghost initial: seq<P>) returns (ok: bool)
      requires Tables() && Frontier(initial) && owner in seen && name in world.loads(owner)
      modifies this
      ensures seen == old(seen) && visited == old(visited)
      ensures ok <==> !world.Missing(owner, name)
      ensures ok ==> Tables() && Frontier(initial) && done == old(done) + [(owner, name)]
    {
      hide Record, RecordAll, Reached;
      var resolved := world.resolve(owner, name);
      var systemManaged := "/System/" <= name || "/usr/lib/" <= name;
      if resolved.NoCandidates? {
        return false;
      }
      if resolved.Absent? && !systemManaged {
        return false;
      }
      UpdateEntry(owner, name);
      RecordOneMore(world, done, owner, name);
      done := done + [(owner, name)];
      if resolved.At? && !systemManaged {
        if world.isLibrary(resolved.path) {
          queue := queue + [resolved.path];
          FollowedIsReached(world, initial, owner, name);
        }
      }
      return true;
    }

    /** The loop over one owner's loads. */
    method RecordLoads(owner: P, ghost initial: seq<P>) returns (ok: bool)
      requires Tables() && Frontier(initial) && owner in seen && OwnersDone({owner})
      modifies this
      ensures seen == old(seen) && visited == old(visited)
      ensures ok ==> Tables() && Frontier(initial) && OwnersDone({})
      ensures !ok ==> exists name :: name in world.loads(owner) && world.Missing(owner, name)
    {
      hide RecordAll, Reached;
      var names := world.loads(owner);
      for i := 0 to |names|
        invariant seen == old(seen) && visited == old(visited)
        invariant Tables() && Frontier(initial) && OwnersDone({owner})
        invariant forall j :: 0 <= j < i ==> (owner, names[j]) in done
      {
        var fine := RecordLoad(owner, names[i], initial);
        if !fine {
          return false;
        }
      }
      return true;
    }

    /** Takes the next path off the queue; `fresh` when its owner is new. */
    method TakeOwner(ghost initial: seq<P>) returns (owner: P, isNew: bool)
      requires Tables() && Frontier(initial) && OwnersDone({}) && queue != []
      modifies this`queue, this`seen, this`visited
      ensures owner == world.canonical(old(queue)[0]) && queue == old(queue)[1..]
      ensures isNew <==> owner !in old(seen)
      ensures seen == old(seen) + {owner}
      ensures Tables() && Frontier(initial) && OwnersDone(if isNew then {owner} else {})
    {
      hide RecordAll, Reached;
      owner := world.canonical(queue[0]);
      assert forall p :: p in queue <==> p == queue[0] || p in queue[1..];
      queue := queue[1..];
      isNew := owner !in seen;
      if isNew {
        AppendFresh(visited, owner);
        seen := seen + {owner};
        visited := visited + [owner];
      }
    }

    /** The whole inventory.  `universe` holds every canonical path there is:
        the file system is finite. */
    method Run(initial: seq<P>, ghost universe: set<P>) returns (result: Result<seq<Entry<P, H>>>)
      requires seen == {} && entries == map[] && keys == [] && done == [] && visited == []
      requires forall p :: world.canonical(p) in universe
      modifies this
      ensures result.Ok? <==> NoneMissing(world, initial)
      ensures result.Ok? ==> Tables() && OwnersDone({}) && result.value == Listing(entries, keys)
      ensures result.Ok? ==>
                && Closed(world, initial, seen) && (forall o :: o in seen <==> Reached(world, initial, o))
                && forall other: set<P> :: Closed(world, initial, other) ==> seen <= other
    {
      hide RecordAll, Listing, Reached, NoneMissing;
      queue := initial;
      InitialReached(world, initial);
      NothingRecorded(world);
      while queue != []
        invariant Tables() && Frontier(initial) && OwnersDone({}) && seen <= universe
        decreases universe - seen, |queue|
      {
        var owner, isNew := TakeOwner(initial);
        if isNew {
          var fine := RecordLoads(owner, initial);
          if !fine {
            OneMissing(world, initial, owner);
            return Rejected;
          }
        }
      }
      LeastClosed(world, initial, seen);
      NothingMissing(world, initial, seen, done);
      return Ok(Listing(entries, keys));
    }
  }

  lemma AppendFresh<T>(xs: seq<T>, x: T)
    requires Distinct(xs) && x !in xs
    ensures Distinct(xs + [x]) && forall y :: y in xs + [x] <==> y in xs || y == x
  {
  }

  /** Every load of every owner that must be visited can be found. */
  ghost predicate NoneMissing<P(!new), H>(w: World<P, H>, initial: seq<P>) {
    forall o, name :: Reached(w, initial, o) && name in w.loads(o) ==> !w.Missing(o, name)
  }

  lemma OneMissing<P(!new), H>(w: World<P, H>, initial: seq<P>, o: P)
    requires Reached(w, initial, o) && exists name :: name in w.loads(o) && w.Missing(o, name)
    ensures !NoneMissing(w, initial)
  {
    hide Reached;
    var name :| name in w.loads(o) && w.Missing(o, name);
  }

  lemma NothingMissing<P(!new), H>(w: World<P, H>, initial: seq<P>, seen: set<P>, done: seq<Loaded<P>>)
    requires forall o :: Reached(w, initial, o) ==> o in seen
    requires forall o, name :: o in seen && name in w.loads(o) ==> (o, name) in done
    requires forall d :: d in done ==> !w.Missing(d.0, d.1)
    ensures NoneMissing(w, initial)
  {
    hide Reached;
  }

  /** The entries in the order of their sorted keys. */
  function Listing<P, H>(entries: map<string, Entry<P, H>>, keys: seq<string>): seq<Entry<P, H>>
    requires forall k :: k in keys ==> k in entries
  {
    SortedMembers(keys);
    var order := Sort(keys, StrLess);
    seq(|order|, i requires 0 <= i < |order| => entries[order[i]])
  }

  lemma SortedMembers(keys: seq<string>)
    ensures forall k :: k in Sort(keys, StrLess) <==> k in keys
    ensures Ordered(Sort(keys, StrLess), StrLess)
  {
    StrLessStrictTotal();
    SortProperties(keys, StrLess);
    forall k ensures k in Sort(keys, StrLess) <==> k in keys {
      assert k in multiset(Sort(keys, StrLess)) <==> k in multiset(keys);
    }
  }

  lemma NothingRecorded<P, H>(w: World<P, H>)
    ensures RecordAll(w, []) == map[]
  {
  }

  lemma InitialReached<P(!new), H>(w: World<P, H>, initial: seq<P>)
    ensures forall p :: p in initial ==> Reached(w, initial, w.canonical(p))
  {
    forall p | p in initial ensures Reached(w, initial, w.canonical(p)) {
      assert ReachedIn(w, initial, w.canonical(p), 0);
    }
  }

  lemma RecordOneMore<P, H>(w: World<P, H>, done: seq<Loaded<P>>, owner: P, name: string)
    ensures RecordAll(w, done + [(owner, name)]) == Record(w, RecordAll(w, done), owner, name)
  {
    assert (done + [(owner, name)])[..|done|] == done;
  }

  lemma FollowedIsReached<P(!new), H>(w: World<P, H>, initial: seq<P>, o: P, name: string)
    requires Reached(w, initial, o) && name in w.loads(o) && w.Followed(o, name)
    ensures Reached(w, initial, w.canonical(w.resolve(o, name).path))
  {
    var n: nat :| ReachedIn(w, initial, o, n);
    var target := w.canonical(w.resolve(o, name).path);
    assert Leads(w, o, name, target);
    assert ReachedIn(w, initial, target, n + 1);
  }

  /** A closed set holds every owner that a chain of loads reaches. */
  lemma {:induction false} ReachedInClosed<P(!new), H>(w: World<P, H>, initial: seq<P>, s: set<P>, o: P, n: nat)
    requires Closed(w, initial, s) && ReachedIn(w, initial, o, n)
    ensures o in s
    decreases n
  {
    if n == 0 {
    } else {
      var q, name :| ReachedIn(w, initial, q, n - 1) && Leads(w, q, name, o);
      ReachedInClosed(w, initial, s, q, n - 1);
    }
  }

  /** A closed set of owners that chains of loads reach is all of them, and lies in
      every closed set: it is the least one. */
  lemma LeastClosed<P(!new), H>(w: World<P, H>, initial: seq<P>, seen: set<P>)
    requires Closed(w, initial, seen) && (forall o :: o in seen ==> Reached(w, initial, o))
    ensures forall o :: o in seen <==> Reached(w, initial, o)
    ensures forall other: set<P> :: Closed(w, initial, other) ==> seen <= other
  {
    hide Closed, ReachedIn;
    forall o | Reached(w, initial, o) ensures o in seen {
      var n: nat :| ReachedIn(w, initial, o, n);
      ReachedInClosed(w, initial, seen, o, n);
    }
    forall other: set<P> | Closed(w, initial, other) ensures seen <= other {
      forall o | o in seen ensures o in other {
        var n: nat :| ReachedIn(w, initial, o, n);
        ReachedInClosed(w, initial, other, o, n);
      }
    }
  }

  // ---- What the entry table says ----

  predicate Loads<P(==), H>(w: World<P, H>, done: seq<Loaded<P>>, key: string, name: string) {
    exists d :: d in done && w.Key(d.0, d.1) == key && d.1 == name
  }

  predicate HashedIn<P(==), H>(w: World<P, H>, done: seq<Loaded<P>>, key: string) {
    exists d :: d in done && w.Key(d.0, d.1) == key && w.Hashed(d.0, d.1)
  }

  /** Each entry lists exactly the names of the loads that share its key, once
      each and the first one first; it carries contents exactly when one of them
      is a resolved load that the system does not manage, and then those of a
      file with that path. */
  ghost predicate DescribesKey<P, H>(w: World<P, H>, done: seq<Loaded<P>>, key: string, e: Entry<P, H>) {
    && Distinct(e.loadNames) && e.loadNames != [] && e.loadNames[0] == e.loadName
    && (forall name :: name in e.loadNames <==> Loads(w, done, key, name))
    && (e.contents.Some? <==> HashedIn(w, done, key))
    && (e.contents.Some? ==>
          exists d :: d in done && w.Key(d.0, d.1) == key && w.Hashed(d.0, d.1) &&
            var p := w.resolve(d.0, d.1).path; e.contents.value == (w.digest(p), w.size(p)))
  }

  predicate Mentions<P(==), H>(w: World<P, H>, done: seq<Loaded<P>>, key: string) {
    exists d :: d in done && w.Key(d.0, d.1) == key
  }

  ghost predicate Describes<P, H>(w: World<P, H>, done: seq<Loaded<P>>, entries: map<string, Entry<P, H>>) {
    && (forall key :: key in entries <==> Mentions(w, done, key))
    && (forall key :: key in entries ==> DescribesKey(w, done, key, entries[key]))
  }

  lemma {:induction false} TableDescribes<P, H>(w: World<P, H>, done: seq<Loaded<P>>)
    ensures Describes(w, done, RecordAll(w, done))
  {
    if done == [] {
    } else {
      var n := |done| - 1;
      TableDescribes(w, done[..n]);
      DescribesOneMore(w, done[..n], RecordAll(w, done[..n]), done[n]);
      assert done == done[..n] + [done[n]];
    }
  }

  lemma DescribesOneMore<P, H>(w: World<P, H>, done: seq<Loaded<P>>, entries: map<string, Entry<P, H>>, d: Loaded<P>)
    requires Describes(w, done, entries)
    ensures Describes(w, done + [d], Record(w, entries, d.0, d.1))
  {
    hide DescribesKey;
    var after := Record(w, entries, d.0, d.1);
    forall key ensures key in after <==> Mentions(w, done + [d], key) {
      assert d in done + [d];
      assert forall x :: x in done + [d] <==> x in done || x == d;
    }
    forall key | key in after ensures DescribesKey(w, done + [d], key, after[key]) {
      if key != w.Key(d.0, d.1) {
        OtherKey(w, done, key, entries[key], d);
      } else if key in entries {
        SameKey(w, done, entries, d);
      } else {
        NewKey(w, done, entries, d);
      }
    }
  }

  lemma OtherKey<P, H>(w: World<P, H>, done: seq<Loaded<P>>, key: string, e: Entry<P, H>, d: Loaded<P>)
    requires DescribesKey(w, done, key, e) && key != w.Key(d.0, d.1)
    ensures DescribesKey(w, done + [d], key, e)
  {
    assert forall x :: x in done + [d] <==> x in done || x == d;
    assert forall name :: Loads(w, done + [d], key, name) <==> Loads(w, done, key, name);
  }

  lemma LoadsOneMore<P, H>(w: World<P, H>, done: seq<Loaded<P>>, d: Loaded<P>)
    ensures var key := w.Key(d.0, d.1);
            && (forall name :: Loads(w, done + [d], key, name) <==> Loads(w, done, key, name) || name == d.1)
            && (HashedIn(w, done + [d], key) <==> HashedIn(w, done, key) || w.Hashed(d.0, d.1))
  {
    assert d in done + [d];
    assert forall x :: x in done + [d] <==> x in done || x == d;
  }

  lemma SameKey<P, H>(w: World<P, H>, done: seq<Loaded<P>>, entries: map<string, Entry<P, H>>, d: Loaded<P>)
    requires var key := w.Key(d.0, d.1); key in entries && DescribesKey(w, done, key, entries[key])
    ensures var key := w.Key(d.0, d.1); DescribesKey(w, done + [d], key, Record(w, entries, d.0, d.1)[key])
  {
    hide Loads, HashedIn;
    LoadsOneMore(w, done, d);
    assert d in done + [d];
    assert forall x :: x in done ==> x in done + [d];
  }

  lemma NewKey<P, H>(w: World<P, H>, done: seq<Loaded<P>>, entries: map<string, Entry<P, H>>, d: Loaded<P>)
    requires var key := w.Key(d.0, d.1); key !in entries && !Mentions(w, done, key)
    ensures var key := w.Key(d.0, d.1); DescribesKey(w, done + [d], key, Record(w, entries, d.0, d.1)[key])
  {
    LoadsOneMore(w, done, d);
    assert d in done + [d];
    var key := w.Key(d.0, d.1);
    assert forall name :: !Loads(w, done, key, name);
    assert !HashedIn(w, done, key);
  }
}
