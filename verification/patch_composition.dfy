/**
  scripts/build_reference_dolphin.py: the pinned source tree is brought to the
  full patch series plus the observer overlay by a run that may stop between any
  two steps and be started again.
*/
module PatchComposition {
  import opened Common

  datatype Patch<S> = Patch(name: string, sha: S)

  /** The build source: its staged index (as `git ls-files -s` prints it), the
      marker files under .mwrc, every other untracked file by digest, and what
      the two git checks of the worktree report. */
  datatype Work<I, S> = Work(index: I, markers: map<string, S>, files: map<string, S>, worktreeClean: bool,
                             submodulesClean: bool)

  /** What the run is given: the pinned index, the patch series in order, the
      overlay to install (path and digest), and git apply. */
  datatype Recipe<!I, !S> = Recipe(head: I, patches: seq<Patch<S>>, overlay: map<string, S>, overlayOrder: seq<string>,
                                   apply: (I, Patch<S>) -> Option<I>)
  {
    /** The index after the first n patches, or None when one does not apply. */
    function Index(n: nat): Option<I>
      requires n <= |patches|
    {
      if n == 0 then Some(head)
      else match Index(n - 1)
           case None => None
           case Some(i) => apply(i, patches[n - 1])
    }

    /** Patch names are file names of one directory; the overlay is listed once. */
    ghost predicate WellFormed() {
      && (forall i, j :: 0 <= i < j < |patches| ==> patches[i].name != patches[j].name)
      && Distinct(overlayOrder) && (forall p :: p in overlayOrder <==> p in overlay)
      && (forall n :: 0 <= n <= |patches| ==> Index(n).Some?)
    }
  }

  /** The first prefix whose index is the staged one. */
  function FirstPrefix<I(==), S>(r: Recipe<I, S>, index: I, from: nat): Option<nat>
    requires from <= |r.patches|
    decreases |r.patches| - from
  {
    if r.Index(from) == Some(index) then Some(from)
    else if from == |r.patches| then None
    else FirstPrefix(r, index, from + 1)
  }

  /** Markers of the first p patches, possibly not all of them, with their digests. */
  predicate MarkersWithin<I, S(==)>(r: Recipe<I, S>, markers: map<string, S>, p: nat)
    requires p <= |r.patches|
  {
    forall name :: name in markers ==> exists i :: 0 <= i < p && r.patches[i] == Patch(name, markers[name])
  }

  /** `verify_source_composition`. */
  function Verify<I(==), S(==)>(r: Recipe<I, S>, w: Work<I, S>, requireComplete: bool): Result<nat> {
    match FirstPrefix(r, w.index, 0)
    case None => Rejected
    case Some(prefix) =>
      if requireComplete && prefix != |r.patches| then Rejected
      else if !w.worktreeClean then Rejected
      else if prefix > |r.patches| || !MarkersWithin(r, w.markers, prefix) then Rejected
      else if exists p :: p in w.files && p !in r.overlay then Rejected
      else if requireComplete && !w.submodulesClean then Rejected
      else if exists p :: p in r.overlay && p in w.files && w.files[p] != r.overlay[p] then Rejected
      else if requireComplete && exists p :: p in r.overlay && p !in w.files then Rejected
      else Ok(prefix)
  }

  // ---- The steps of a run ----

  datatype Step = Apply(patch: nat) | Mark(patch: nat) | Copy(path: string)

  predicate Fits<I, S>(r: Recipe<I, S>, s: Step) {
    match s case Apply(i) => i < |r.patches| case Mark(i) => i < |r.patches| case Copy(p) => p in r.overlay
  }

  function Do<I, S>(r: Recipe<I, S>, w: Work<I, S>, s: Step): Work<I, S>
    requires Fits(r, s)
  {
    match s
    case Apply(i) => (match r.apply(w.index, r.patches[i]) case None => w case Some(next) => w.(index := next))
    case Mark(i) => w.(markers := w.markers[r.patches[i].name := r.patches[i].sha])
    case Copy(p) => w.(files := w.files[p := r.overlay[p]])
  }

  function DoAll<I, S>(r: Recipe<I, S>, w: Work<I, S>, steps: seq<Step>): Work<I, S>
    requires forall s :: s in steps ==> Fits(r, s)
  {
    if steps == [] then w else Do(r, DoAll(r, w, steps[..|steps| - 1]), steps[|steps| - 1])
  }

  /** Apply what is missing after `prefix`, rewriting every marker on the way. */
  function PatchSteps(count: nat, prefix: nat): seq<Step> {
    if count == 0 then []
    else PatchSteps(count - 1, prefix) + (if count - 1 >= prefix then [Apply(count - 1)] else []) + [Mark(count - 1)]
  }

  /** Copy what is absent, in listing order. */
  function CopySteps(order: seq<string>, present: set<string>): seq<Step> {
    if order == [] then []
    else CopySteps(order[..|order| - 1], present) +
         if order[|order| - 1] in present then [] else [Copy(order[|order| - 1])]
  }

  function Plan<I, S>(r: Recipe<I, S>, w: Work<I, S>, prefix: nat): seq<Step> {
    PatchSteps(|r.patches|, prefix) + CopySteps(r.overlayOrder, w.files.Keys)
  }

  lemma {:induction false} PatchStepsFit(count: nat, prefix: nat)
    ensures forall s :: s in PatchSteps(count, prefix) ==> (s.Apply? || s.Mark?) && s.patch < count
  {
    if count > 0 { PatchStepsFit(count - 1, prefix); }
  }

  lemma {:induction false} CopyStepsFit(order: seq<string>, present: set<string>)
    ensures forall s :: s in CopySteps(order, present) ==> s.Copy? && s.path in order && s.path !in present
  {
    if order == [] {
    } else {
      CopyStepsFit(order[..|order| - 1], present);
    }
  }

  lemma PlanFits<I, S>(r: Recipe<I, S>, w: Work<I, S>, prefix: nat)
    requires r.WellFormed()
    ensures forall s :: s in Plan(r, w, prefix) ==> Fits(r, s)
  {
    PatchStepsFit(|r.patches|, prefix);
    CopyStepsFit(r.overlayOrder, w.files.Keys);
  }

  // ---- The run itself ----

  /** An overlay file that the tree has with other content. */
  predicate Differs<I, S(==)>(r: Recipe<I, S>, w: Work<I, S>, p: string) {
    p in r.overlay && p in w.files && w.files[p] != r.overlay[p]
  }

  datatype Outcome = Refused | Stopped | Completed

  class BuildSource<I(==), S(==)> {
    const recipe: Recipe<I, S>
    var work: Work<I, S>
    ghost var done: seq<Step>

    constructor (recipe: Recipe<I, S>, work: Work<I, S>)
      ensures this.recipe == recipe && this.work == work
    {
      this.recipe, this.work, this.done := recipe, work, [];
    }

    method Perform(s: Step, ghost start: Work<I, S>)
      requires Fits(recipe, s) && (forall d :: d in done ==> Fits(recipe, d)) && work == DoAll(recipe, start, done)
      modifies this
      ensures done == old(done) + [s] && (forall d :: d in done ==> Fits(recipe, d))
              && work == DoAll(recipe, start, done)
    {
      work := Do(recipe, work, s);
      done := done + [s];
      assert done[..|done| - 1] == old(done);
    }

    ghost predicate Tracked(start: Work<I, S>)
      reads this
    {
      (forall d :: d in done ==> Fits(recipe, d)) && work == DoAll(recipe, start, done)
    }

    /** The patch loop, stopped after `budget` steps. */
    method ApplyPatches(prefix: nat, budget: nat, ghost start: Work<I, S>) returns (left: nat, finished: bool)
      requires done == [] && Tracked(start)
      modifies this
      ensures Tracked(start)
      ensures finished ==> done == PatchSteps(|recipe.patches|, prefix) && left + |done| == budget
      ensures !finished ==> done < PatchSteps(|recipe.patches|, prefix) && |done| == budget && left == 0
    {
      hide DoAll, Do;
      left := budget;
      for index := 0 to |recipe.patches|
        invariant done == PatchSteps(index, prefix) && Tracked(start) && left + |done| == budget
      {
        PatchStepsWithin(index + 1, |recipe.patches|, prefix);
        if index >= prefix {
          if left == 0 {
            return 0, false;
          }
          Perform(Apply(index), start);
          left := left - 1;
        }
        if left == 0 {
          return 0, false;
        }
        Perform(Mark(index), start);
        left := left - 1;
      }
      finished := true;
    }

    /** `copy_overlay`, stopped after `budget` steps.  It refuses at the first
        overlay file that is there with other content. */
    method CopyOverlay(prefix: nat, budget: nat, ghost start: Work<I, S>) returns (outcome: Outcome)
      requires recipe.WellFormed() && Tracked(start) && done == PatchSteps(|recipe.patches|, prefix)
      modifies this
      ensures Tracked(start)
      ensures outcome == Completed ==>
                done == Plan(recipe, start, prefix) && forall p :: p in recipe.overlay ==> !Differs(recipe, start, p)
      ensures outcome == Stopped ==> done < Plan(recipe, start, prefix) && |done| == |old(done)| + budget
      ensures outcome == Refused ==>
                exists k :: 0 <= k < |recipe.overlayOrder| && Differs(recipe, start, recipe.overlayOrder[k])
                         && (forall j :: 0 <= j < k ==> !Differs(recipe, start, recipe.overlayOrder[j]))
                         && done == old(done) + CopySteps(recipe.overlayOrder[..k], start.files.Keys)
      ensures |done| <= |old(done)| + budget
    {
      hide DoAll, Do, PatchSteps, CopySteps;
      NoCopies(start.files.Keys);
      var left: nat := budget;
      ghost var present := start.files.Keys;
      for k := 0 to |recipe.overlayOrder|
        invariant done == old(done) + CopySteps(recipe.overlayOrder[..k], present)
        invariant Tracked(start) && left + |done| == budget + |old(done)|
        invariant forall j :: 0 <= j < k ==> !Differs(recipe, start, recipe.overlayOrder[j])
      {
        var path := recipe.overlayOrder[k];
        CopiedSoFar(recipe, start, prefix, k);
        CopyStepsNext(recipe.overlayOrder, k, present);
        if path in work.files {
          if work.files[path] != recipe.overlay[path] {
            return Refused;
          }
          continue;
        }
        if left == 0 {
          return Stopped;
        }
        Perform(Copy(path), start);
        left := left - 1;
      }
      assert recipe.overlayOrder[..|recipe.overlayOrder|] == recipe.overlayOrder;
      return Completed;
    }

    /** One run: verify, resume the patch series, copy the overlay, verify again.
        It is stopped after `budget` steps. */
    method Resume(budget: nat) returns (outcome: Outcome)
      requires recipe.WellFormed()
      modifies this
      ensures var admitted := Verify(recipe, old(work), false);
              if admitted.Rejected? then outcome == Refused && work == old(work)
              else
                var plan := Plan(recipe, old(work), admitted.value);
                && (forall s :: s in plan ==> Fits(recipe, s))
                && (budget < |plan| ==> outcome == Stopped && work == DoAll(recipe, old(work), plan[..budget]))
                && (budget >= |plan| ==>
                      && work == DoAll(recipe, old(work), plan)
                      && outcome == if Verify(recipe, work, true).Ok? then Completed else Refused)
    {
      var admitted := Verify(recipe, work, false);
      if admitted.Rejected? {
        return Refused;
      }
      hide Do, Verify, PatchSteps, CopySteps;
      ghost var start := work;
      ghost var plan := Plan(recipe, start, admitted.value);
      AdmittedFiles(recipe, start);
      PlanFits(recipe, start, admitted.value);
      done := [];
      var left, patched := ApplyPatches(admitted.value, budget, start);
      if !patched {
        assert done == plan[..budget];
        return Stopped;
      }
      var copied := CopyOverlay(admitted.value, left, start);
      if copied == Stopped {
        assert done == plan[..budget];
        return Stopped;
      }
      if Verify(recipe, work, true).Rejected? {
        return Refused;
      }
      return Completed;
    }
  }

  lemma AdmittedFiles<I, S>(r: Recipe<I, S>, w: Work<I, S>)
    requires Verify(r, w, false).Ok?
    ensures forall p :: p in w.files && p in r.overlay ==> w.files[p] == r.overlay[p]
  {
  }

  lemma NoCopies(present: set<string>)
    ensures CopySteps([], present) == []
  {
  }

  lemma CopyStepsNext(order: seq<string>, k: nat, present: set<string>)
    requires k < |order|
    ensures CopySteps(order[..k + 1], present)
            == CopySteps(order[..k], present) + if order[k] in present then [] else [Copy(order[k])]
    ensures CopySteps(order[..k + 1], present) <= CopySteps(order, present)
  {
    assert order[..k + 1][..k] == order[..k];
    CopyStepsWithin(order, k + 1, present);
  }

  lemma {:induction false} PatchStepsWithin(count: nat, total: nat, prefix: nat)
    requires count <= total
    ensures PatchSteps(count, prefix) <= PatchSteps(total, prefix)
    decreases total
  {
    if count < total { PatchStepsWithin(count, total - 1, prefix); }
  }

  lemma {:induction false} CopyStepsWithin(order: seq<string>, k: nat, present: set<string>)
    requires k <= |order|
    ensures CopySteps(order[..k], present) <= CopySteps(order, present)
    decreases |order|
  {
    if k < |order| {
      CopyStepsWithin(order[..|order| - 1], k, present);
      assert order[..|order| - 1][..k] == order[..k];
    } else {
      assert order[..k] == order;
    }
  }

  lemma {:induction false} DoAllFiles<I, S>(r: Recipe<I, S>, w: Work<I, S>, steps: seq<Step>)
    requires forall s :: s in steps ==> Fits(r, s)
    ensures forall p :: p in DoAll(r, w, steps).files <==> p in w.files || Copy(p) in steps
    ensures forall p :: p in DoAll(r, w, steps).files ==>
              DoAll(r, w, steps).files[p] == if Copy(p) in steps then r.overlay[p] else w.files[p]
  {
    if steps == [] {
    } else {
      hide Fits;
      var before, last := steps[..|steps| - 1], steps[|steps| - 1];
      DoAllFiles(r, w, before);
      assert steps == before + [last];
      DoFiles(r, DoAll(r, w, before), last);
    }
  }

  lemma DoFiles<I, S>(r: Recipe<I, S>, w: Work<I, S>, s: Step)
    requires Fits(r, s)
    ensures s.Copy? ==> s.path in r.overlay
    ensures Do(r, w, s).files == if s.Copy? then w.files[s.path := r.overlay[s.path]] else w.files
  {
  }

  /** When the k-th overlay file is reached, it is present exactly if it was so
      at the start. */
  lemma CopiedSoFar<I, S>(r: Recipe<I, S>, w: Work<I, S>, prefix: nat, k: nat)
    requires r.WellFormed() && k < |r.overlayOrder|
    requires var steps := PatchSteps(|r.patches|, prefix) + CopySteps(r.overlayOrder[..k], w.files.Keys);
             forall s :: s in steps ==> Fits(r, s)
    ensures var steps := PatchSteps(|r.patches|, prefix) + CopySteps(r.overlayOrder[..k], w.files.Keys);
            var now := DoAll(r, w, steps).files;
            var p := r.overlayOrder[k];
            && (p in now <==> p in w.files) && (p in now ==> now[p] == w.files[p])
  {
    var steps := PatchSteps(|r.patches|, prefix) + CopySteps(r.overlayOrder[..k], w.files.Keys);
    DoAllFiles(r, w, steps);
    PatchStepsFit(|r.patches|, prefix);
    CopyStepsFit(r.overlayOrder[..k], w.files.Keys);
    assert forall p :: p in r.overlayOrder[..k] ==> p != r.overlayOrder[k];
  }

  // ---- Crash safety ----

  ghost predicate DistinctIndexes<I, S>(r: Recipe<I, S>) {
    forall i, j :: 0 <= i < j <= |r.patches| ==> r.Index(i) != r.Index(j)
  }

  /** A run may be stopped here with p patches applied: some of their markers are
      written, and some of the overlay is copied. */
  ghost predicate AtBoundary<I, S>(r: Recipe<I, S>, w: Work<I, S>, p: nat) {
    && p <= |r.patches| && r.Index(p) == Some(w.index) && MarkersWithin(r, w.markers, p)
    && w.worktreeClean && (forall f :: f in w.files ==> f in r.overlay && w.files[f] == r.overlay[f])
  }

  lemma {:induction false} FirstPrefixFinds<I, S>(r: Recipe<I, S>, index: I, from: nat)
    requires from <= |r.patches|
    ensures match FirstPrefix(r, index, from)
            case None => forall i :: from <= i <= |r.patches| ==> r.Index(i) != Some(index)
            case Some(p) => from <= p <= |r.patches| && r.Index(p) == Some(index)
                            && forall i :: from <= i < p ==> r.Index(i) != Some(index)
    decreases |r.patches| - from
  {
    if r.Index(from) != Some(index) && from < |r.patches| { FirstPrefixFinds(r, index, from + 1); }
  }

  /** Admission without the completeness demand, both ways: the prefix reported is
      the first one that stages this index, and the tree is at its boundary. */
  lemma AdmittedExactly<I, S>(r: Recipe<I, S>, w: Work<I, S>, p: nat)
    ensures Verify(r, w, false) == Ok(p) <==>
            AtBoundary(r, w, p) && forall i :: 0 <= i < p ==> r.Index(i) != Some(w.index)
  {
    FirstPrefixFinds(r, w.index, 0);
    if AtBoundary(r, w, p) && forall i :: 0 <= i < p ==> r.Index(i) != Some(w.index) {
      assert FirstPrefix(r, w.index, 0) == Some(p);
    }
  }

  /** With pairwise distinct prefix indexes every stopped run is admitted with
      the prefix it reached. */
  lemma BoundaryAdmitted<I, S>(r: Recipe<I, S>, w: Work<I, S>, p: nat)
    requires DistinctIndexes(r) && AtBoundary(r, w, p)
    ensures Verify(r, w, false) == Ok(p)
  {
    AdmittedExactly(r, w, p);
  }

  /** The marked state right after p uninterrupted patches. */
  ghost function Boundary<I, S>(r: Recipe<I, S>, p: nat): Work<I, S>
    requires r.WellFormed() && p <= |r.patches|
  {
    Work(r.Index(p).value, map i | 0 <= i < p :: r.patches[i].name := r.patches[i].sha, map[], true, true)
  }

  /** Exactly then: when two prefixes stage the same index, some stopped run is
      refused because its markers run ahead of the first such prefix. */
  lemma AdmissionExactly<I, S>(r: Recipe<I, S>)
    requires r.WellFormed()
    ensures DistinctIndexes(r) <==> forall p :: 0 <= p <= |r.patches| ==> Verify(r, Boundary(r, p), false) == Ok(p)
    ensures DistinctIndexes(r) <==> forall p :: 0 <= p <= |r.patches| ==> Verify(r, Boundary(r, p), false).Ok?
  {
    if DistinctIndexes(r) {
      forall p | 0 <= p <= |r.patches| ensures Verify(r, Boundary(r, p), false) == Ok(p) {
        BoundaryMarkers(r, p);
        BoundaryAdmitted(r, Boundary(r, p), p);
      }
    } else {
      var i, j :| 0 <= i < j <= |r.patches| && r.Index(i) == r.Index(j);
      var w := Boundary(r, j);
      BoundaryMarkers(r, j);
      FirstPrefixFinds(r, w.index, 0);
      var first := FirstPrefix(r, w.index, 0).value;
      assert first <= i;
      assert r.patches[i].name in w.markers;
      assert !MarkersWithin(r, w.markers, first);
    }
  }

  lemma BoundaryMarkers<I, S>(r: Recipe<I, S>, p: nat)
    requires r.WellFormed() && p <= |r.patches|
    ensures forall i :: 0 <= i < p ==> r.patches[i].name in Boundary(r, p).markers
    ensures AtBoundary(r, Boundary(r, p), p)
  {
    hide MarkersWithin, Distinct;
    BoundaryMarked(r, p);
  }

  lemma BoundaryMarked<I, S>(r: Recipe<I, S>, p: nat)
    requires r.WellFormed() && p <= |r.patches|
    ensures MarkersWithin(r, Boundary(r, p).markers, p)
  {
    hide Distinct;
    var m := Boundary(r, p).markers;
    forall name | name in m ensures exists i :: 0 <= i < p && r.patches[i] == Patch(name, m[name]) {
      var i :| 0 <= i < p && r.patches[i].name == name;
      assert r.patches[i] == Patch(name, m[name]);
    }
  }

  /** One more step of the patch loop moves from boundary to boundary. */
  lemma ApplyKeeps<I, S>(r: Recipe<I, S>, w: Work<I, S>, p: nat)
    requires r.WellFormed() && AtBoundary(r, w, p) && p < |r.patches|
    ensures AtBoundary(r, Do(r, w, Apply(p)), p + 1)
  {
    assert r.Index(p + 1).Some?;
    assert forall name :: name in w.markers ==> exists i :: 0 <= i < p && r.patches[i] == Patch(name, w.markers[name]);
  }

  lemma MarkKeeps<I, S>(r: Recipe<I, S>, w: Work<I, S>, p: nat, i: nat)
    requires AtBoundary(r, w, p) && i < p
    ensures AtBoundary(r, Do(r, w, Mark(i)), p)
  {
    var m := Do(r, w, Mark(i)).markers;
    forall name | name in m ensures exists k :: 0 <= k < p && r.patches[k] == Patch(name, m[name]) {
      if name == r.patches[i].name { assert r.patches[i] == Patch(name, m[name]); }
    }
  }

  lemma CopyKeeps<I, S>(r: Recipe<I, S>, w: Work<I, S>, p: nat, path: string)
    requires AtBoundary(r, w, p) && path in r.overlay
    ensures AtBoundary(r, Do(r, w, Copy(path)), p)
  {
    assert MarkersWithin(r, w.markers, p);
  }

  lemma DoAllAppend<I, S>(r: Recipe<I, S>, w: Work<I, S>, steps: seq<Step>, s: Step)
    requires Fits(r, s) && forall d :: d in steps ==> Fits(r, d)
    ensures (forall d :: d in steps + [s] ==> Fits(r, d)) && DoAll(r, w, steps + [s]) == Do(r, DoAll(r, w, steps), s)
  {
    assert (steps + [s])[..|steps|] == steps;
  }

  /** A boundary at prefix p after any number of steps of the plan's patch part. */
  ghost predicate Safe<I, S>(r: Recipe<I, S>, w: Work<I, S>, steps: seq<Step>, p: nat) {
    (forall d :: d in steps ==> Fits(r, d)) && AtBoundary(r, DoAll(r, w, steps), p)
  }

  lemma {:induction false} PatchPartSafe<I, S>(r: Recipe<I, S>, w: Work<I, S>, p: nat, count: nat, k: nat)
    requires r.WellFormed() && AtBoundary(r, w, p) && count <= |r.patches| && k <= |PatchSteps(count, p)|
    ensures exists q :: p <= q <= |r.patches| && Safe(r, w, PatchSteps(count, p)[..k], q)
    ensures Safe(r, w, PatchSteps(count, p), Max(p, count))
    decreases count
  {
    hide AtBoundary;
    var all := PatchSteps(count, p);
    assert all[..|all|] == all;
    if count == 0 {
      BoundaryBound(r, w, p);
      assert all[..k] == [];
      assert Safe(r, w, all[..k], p);
    } else {
      var before := PatchSteps(count - 1, p);
      PatchPartSafe(r, w, p, count - 1, if k <= |before| then k else |before|);
      PatchPartStep(r, w, p, count);
      if k <= |before| {
        assert all[..k] == before[..k];
      } else if k < |all| {
        assert all[..k] == before + [Apply(count - 1)];
        assert Safe(r, w, all[..k], count);
      } else {
        assert Safe(r, w, all[..k], Max(p, count));
      }
    }
  }

  lemma PatchPartStep<I, S>(r: Recipe<I, S>, w: Work<I, S>, p: nat, count: nat)
    requires r.WellFormed() && 0 < count <= |r.patches| && p <= |r.patches|
    requires Safe(r, w, PatchSteps(count - 1, p), Max(p, count - 1))
    ensures count > p ==> Safe(r, w, PatchSteps(count - 1, p) + [Apply(count - 1)], count)
    ensures Safe(r, w, PatchSteps(count, p), Max(p, count))
  {
    hide AtBoundary, Do, DoAll, Fits;
    var before := PatchSteps(count - 1, p);
    if count > p {
      ApplyKeeps(r, DoAll(r, w, before), count - 1);
      DoAllAppend(r, w, before, Apply(count - 1));
      MarkKeeps(r, DoAll(r, w, before + [Apply(count - 1)]), count, count - 1);
      DoAllAppend(r, w, before + [Apply(count - 1)], Mark(count - 1));
    } else {
      MarkKeeps(r, DoAll(r, w, before), p, count - 1);
      DoAllAppend(r, w, before, Mark(count - 1));
      assert before + [] == before;
    }
  }

  lemma {:induction false} CopyPartSafe<I, S>(r: Recipe<I, S>, w: Work<I, S>, steps: seq<Step>, copies: seq<Step>,
                                              q: nat)
    requires Safe(r, w, steps, q) && forall c :: c in copies ==> c.Copy? && c.path in r.overlay
    ensures Safe(r, w, steps + copies, q)
    decreases |copies|
  {
    if copies == [] {
      assert steps + copies == steps;
    } else {
      var n := |copies| - 1;
      CopyPartSafe(r, w, steps, copies[..n], q);
      CopyKeeps(r, DoAll(r, w, steps + copies[..n]), q, copies[n].path);
      DoAllAppend(r, w, steps + copies[..n], copies[n]);
      assert steps + copies == steps + copies[..n] + [copies[n]];
    }
  }

  /** Stopping a run of any boundary after any number of steps leaves a boundary,
      never an earlier one. */
  lemma PlanSafe<I, S>(r: Recipe<I, S>, w: Work<I, S>, p: nat, k: nat)
    requires r.WellFormed() && AtBoundary(r, w, p) && k <= |Plan(r, w, p)|
    ensures exists q :: p <= q <= |r.patches| && Safe(r, w, Plan(r, w, p)[..k], q)
  {
    hide AtBoundary;
    var n, patches, copies := |r.patches|, PatchSteps(|r.patches|, p), CopySteps(r.overlayOrder, w.files.Keys);
    CopyStepsFit(r.overlayOrder, w.files.Keys);
    assert p <= n by { BoundaryBound(r, w, p); }
    if k <= |patches| {
      PatchPartSafe(r, w, p, n, k);
      assert Plan(r, w, p)[..k] == patches[..k];
    } else {
      PatchPartSafe(r, w, p, n, 0);
      CopyPartSafe(r, w, patches, copies[..k - |patches|], n);
      assert Plan(r, w, p)[..k] == patches + copies[..k - |patches|];
      assert Safe(r, w, Plan(r, w, p)[..k], n);
    }
  }

  lemma BoundaryBound<I, S>(r: Recipe<I, S>, w: Work<I, S>, p: nat)
    requires AtBoundary(r, w, p)
    ensures p <= |r.patches|
  {
  }

  // ---- What a finished run leaves ----

  /** The full patch series, every marker and the complete overlay. */
  ghost predicate Complete<I, S>(r: Recipe<I, S>, w: Work<I, S>) {
    && AtBoundary(r, w, |r.patches|)
    && (forall i :: 0 <= i < |r.patches| ==> r.patches[i].name in w.markers)
    && w.files == r.overlay
  }

  lemma {:induction false} AllMarked<I, S>(r: Recipe<I, S>, w: Work<I, S>, steps: seq<Step>)
    requires forall s :: s in steps ==> Fits(r, s)
    ensures forall i :: 0 <= i < |r.patches| && Mark(i) in steps ==> r.patches[i].name in DoAll(r, w, steps).markers
  {
    if steps == [] {
    } else {
      AllMarked(r, w, steps[..|steps| - 1]);
      assert steps == steps[..|steps| - 1] + [steps[|steps| - 1]];
    }
  }

  lemma {:induction false} PatchStepsMark(count: nat, prefix: nat, i: nat)
    requires i < count
    ensures Mark(i) in PatchSteps(count, prefix)
  {
    if i < count - 1 { PatchStepsMark(count - 1, prefix, i); }
  }

  lemma {:induction false} CopyStepsAll(order: seq<string>, present: set<string>, p: string)
    requires p in order && p !in present
    ensures Copy(p) in CopySteps(order, present)
  {
    var n := |order| - 1;
    assert order == order[..n] + [order[n]];
    if p in order[..n] { CopyStepsAll(order[..n], present, p); }
  }

  lemma FullPlanCompletes<I, S>(r: Recipe<I, S>, w: Work<I, S>, p: nat)
    requires r.WellFormed() && AtBoundary(r, w, p)
    ensures (forall s :: s in Plan(r, w, p) ==> Fits(r, s)) && Complete(r, DoAll(r, w, Plan(r, w, p)))
    ensures DoAll(r, w, Plan(r, w, p)).submodulesClean == w.submodulesClean
  {
    hide DoAll, PatchSteps, CopySteps, Fits, Distinct, MarkersWithin;
    var plan := Plan(r, w, p);
    PatchPartSafe(r, w, p, |r.patches|, 0);
    CopyStepsFit(r.overlayOrder, w.files.Keys);
    CopyPartSafe(r, w, PatchSteps(|r.patches|, p), CopySteps(r.overlayOrder, w.files.Keys), |r.patches|);
    AllMarked(r, w, plan);
    forall i | 0 <= i < |r.patches| ensures Mark(i) in plan { PatchStepsMark(|r.patches|, p, i); }
    DoAllFiles(r, w, plan);
    DoAllSubmodules(r, w, plan);
    forall f | f in r.overlay ensures f in w.files || Copy(f) in plan {
      if f !in w.files { CopyStepsAll(r.overlayOrder, w.files.Keys, f); }
    }
  }

  lemma {:induction false} DoAllSubmodules<I, S>(r: Recipe<I, S>, w: Work<I, S>, steps: seq<Step>)
    requires forall s :: s in steps ==> Fits(r, s)
    ensures DoAll(r, w, steps).submodulesClean == w.submodulesClean
  {
    if steps == [] {
    } else {
      DoAllSubmodules(r, w, steps[..|steps| - 1]);
    }
  }

  /** The final verification accepts exactly the pinned tree with the full series
      and the complete overlay, nothing missing and nothing extra. */
  lemma CompleteExactly<I, S>(r: Recipe<I, S>, w: Work<I, S>)
    requires DistinctIndexes(r)
    ensures Verify(r, w, true).Ok? <==>
            AtBoundary(r, w, |r.patches|) && w.files == r.overlay && w.submodulesClean
  {
    FirstPrefixFinds(r, w.index, 0);
    if AtBoundary(r, w, |r.patches|) { BoundaryAdmitted(r, w, |r.patches|); }
  }

  /** The tree after runs stopped after the given numbers of steps. */
  ghost function AfterRuns<I, S>(r: Recipe<I, S>, w: Work<I, S>, budgets: seq<nat>): Work<I, S>
    requires r.WellFormed()
  {
    if budgets == [] then w
    else
      var before := AfterRuns(r, w, budgets[..|budgets| - 1]);
      match Verify(r, before, false)
      case Rejected => before
      case Ok(prefix) =>
        PlanFits(r, before, prefix);
        var plan, budget := Plan(r, before, prefix), budgets[|budgets| - 1];
        DoAll(r, before, if budget < |plan| then plan[..budget] else plan)
  }

  lemma {:induction false} RunsKeepBoundary<I, S>(r: Recipe<I, S>, w: Work<I, S>, p: nat, budgets: seq<nat>)
    requires r.WellFormed() && DistinctIndexes(r) && AtBoundary(r, w, p)
    ensures exists q :: p <= q <= |r.patches| && AtBoundary(r, AfterRuns(r, w, budgets), q)
    ensures AfterRuns(r, w, budgets).submodulesClean == w.submodulesClean
  {
    hide AtBoundary, Verify, Plan;
    if budgets == [] {
      BoundaryBound(r, w, p);
      assert AtBoundary(r, AfterRuns(r, w, budgets), p);
    } else {
      RunsKeepBoundary(r, w, p, budgets[..|budgets| - 1]);
      var before, budget := AfterRuns(r, w, budgets[..|budgets| - 1]), budgets[|budgets| - 1];
      var q :| p <= q <= |r.patches| && AtBoundary(r, before, q);
      BoundaryAdmitted(r, before, q);
      PlanFits(r, before, q);
      var plan := Plan(r, before, q);
      var k := if budget < |plan| then budget else |plan|;
      assert plan[..|plan|] == plan;
      PlanSafe(r, before, q, k);
      DoAllSubmodules(r, before, plan[..k]);
      var q' :| q <= q' <= |r.patches| && Safe(r, before, plan[..k], q');
      assert AtBoundary(r, AfterRuns(r, w, budgets), q');
    }
  }

  /** Crash safety: from a tree at a boundary (a fresh clone is one), after any
      number of runs stopped anywhere, the next run is admitted with the prefix
      actually applied, and left alone it ends with the full series, every
      marker and the complete overlay, which the final verification accepts. */
  lemma CrashSafe<I, S>(r: Recipe<I, S>, w: Work<I, S>, p: nat, budgets: seq<nat>)
    requires r.WellFormed() && DistinctIndexes(r) && AtBoundary(r, w, p)
    ensures var now := AfterRuns(r, w, budgets);
            exists q :: p <= q <= |r.patches| && r.Index(q) == Some(now.index) && Verify(r, now, false) == Ok(q) &&
              (forall s :: s in Plan(r, now, q) ==> Fits(r, s)) &&
              var final := DoAll(r, now, Plan(r, now, q));
              Complete(r, final) && (w.submodulesClean ==> Verify(r, final, true).Ok?)
  {
    RunsKeepBoundary(r, w, p, budgets);
    var now := AfterRuns(r, w, budgets);
    var q :| p <= q <= |r.patches| && AtBoundary(r, now, q);
    BoundaryAdmitted(r, now, q);
    FullPlanCompletes(r, now, q);
    CompleteExactly(r, DoAll(r, now, Plan(r, now, q)));
  }
}
