/**
  scripts/bind_retail_clock.py: the startup clock model that predicts every
  input-queue snapshot, and the version 5 recipe it is bound to.
*/
module RetailClock {
  import opened Common
  import opened BigEndian
  import opened Bits
  import opened RetailRecipe

  /** `count` controller samples queued at source tick `tick`. */
  datatype Snapshot = Snapshot(tick: int, count: int)

  const PAD := 8100000
  const VI := 8108100

  function Min(a: int, b: int): int { if a < b then a else b }

  // ---- The alarm/poll race ----

  /** How many of the alarms at alarm, alarm + pad, ... are due by `poll`. */
  function Due(alarm: int, poll: int, pad: int): nat
    requires pad > 0
    decreases poll - alarm
  {
    if alarm <= poll then 1 + Due(alarm + pad, poll, pad) else 0
  }

  lemma {:induction false} DueQuotient(alarm: int, poll: int)
    ensures Due(alarm, poll, PAD) == if alarm <= poll then (poll - alarm) / PAD + 1 else 0
    decreases poll - alarm
  {
    if alarm <= poll { DueQuotient(alarm + PAD, poll); }
  }

  /** The snapshots predicted from the first poll on. */
  function Polls(cursor: int, alarm: int, poll: int, count: int, pad: int, vi: int): seq<Snapshot>
    requires pad > 0
    decreases count - cursor
  {
    if cursor >= count then []
    else
      var taken := Max(1, Due(alarm, poll, pad));
      var queued := Min(taken, count - cursor);
      [Snapshot(cursor, queued)] + Polls(cursor + queued, alarm + taken * pad, poll + vi, count, pad, vi)
  }

  function Expected(count: int, nextPad: int, firstPoll: int, pad: int, vi: int): seq<Snapshot>
    requires pad > 0
  {
    [Snapshot(0, 1), Snapshot(1, 1)] + Polls(2, nextPad + pad, firstPoll, count, pad, vi)
  }

  /** A row the binder must compare with the prediction. */
  predicate Compared(row: Row) { row.clockPc.Equals(QUEUE_READ_PC) && !row.r3.Missing? && !row.r3.Equals(0) }

  predicate Supported(row: Row) { row.sourceTick.Int? && row.r3.Int? && 1 <= row.r3.n <= 2 }

  /** The observed snapshots, unless one is unsupported. */
  function Observed(rows: seq<Row>): Result<seq<Snapshot>> {
    if rows == [] then Ok([])
    else if !Compared(rows[0]) then Observed(rows[1..])
    else if !Supported(rows[0]) || Observed(rows[1..]).Rejected? then Rejected
    else Ok([Snapshot(rows[0].sourceTick.n, rows[0].r3.n)] + Observed(rows[1..]).value)
  }

  method PredictSnapshots(count: int, nextPad: int, firstPoll: int, padPeriod: int, viPeriod: int)
    returns (expected: seq<Snapshot>)
    requires padPeriod > 0
    ensures expected == Expected(count, nextPad, firstPoll, padPeriod, viPeriod)
  {
    expected := [Snapshot(0, 1), Snapshot(1, 1)];
    var alarm, poll, cursor := nextPad + padPeriod, firstPoll, 2;
    while cursor < count
      invariant Expected(count, nextPad, firstPoll, padPeriod, viPeriod) ==
                expected + Polls(cursor, alarm, poll, count, padPeriod, viPeriod)
      decreases count - cursor
    {
      var queued := 0;
      ghost var alarm0 := alarm;
      while alarm <= poll
        invariant queued >= 0 && alarm == alarm0 + queued * padPeriod
        invariant queued + Due(alarm, poll, padPeriod) == Due(alarm0, poll, padPeriod)
        decreases poll - alarm
      {
        assert (queued + 1) * padPeriod == queued * padPeriod + padPeriod;
        queued := queued + 1;
        alarm := alarm + padPeriod;
      }
      if queued == 0 {
        queued := 1;
        alarm := alarm + padPeriod;
      }
      queued := Min(queued, count - cursor);
      expected := expected + [Snapshot(cursor, queued)];
      cursor := cursor + queued;
      poll := poll + viPeriod;
    }
    assert expected + [] == expected;
  }

  /** Accepts exactly when the complete observed history is the prediction. */
  method ValidateQueuePrediction(rows: seq<Row>, count: int, nextPad: int, firstPoll: int, padPeriod: int,
                                 viPeriod: int)
    returns (r: Result<nat>)
    requires padPeriod > 0
    ensures var expected := Expected(count, nextPad, firstPoll, padPeriod, viPeriod);
            r == if Observed(rows) == Ok(expected) then Ok(|expected|) else Rejected
  {
    var expected := PredictSnapshots(count, nextPad, firstPoll, padPeriod, viPeriod);
    hide Expected, Observed;
    var observed: seq<Snapshot> := [];
    assert rows[0..] == rows;
    PrependNothing(Observed(rows));
    for i := 0 to |rows|
      invariant Observed(rows) == Prepend(Ok(observed), Observed(rows[i..]))
    {
      ObservedStep(rows, i);
      if rows[i].clockPc.Equals(QUEUE_READ_PC) && !rows[i].r3.Missing? && !rows[i].r3.Equals(0) {
        if !(rows[i].sourceTick.Int? && rows[i].r3.Int? && 1 <= rows[i].r3.n <= 2) {
          return Rejected;
        }
        PrependAssociative(observed, [Snapshot(rows[i].sourceTick.n, rows[i].r3.n)], Observed(rows[i + 1..]));
        observed := observed + [Snapshot(rows[i].sourceTick.n, rows[i].r3.n)];
      }
    }
    ObservedNone();
    assert rows[|rows|..] == [] && observed + [] == observed;
    var index := 0;
    while index < |expected| && index < |observed|
      invariant 0 <= index <= |expected| && index <= |observed|
      invariant forall j :: 0 <= j < index ==> expected[j] == observed[j]
    {
      if expected[index] != observed[index] {
        return Rejected;
      }
      index := index + 1;
    }
    if |observed| != |expected| {
      return Rejected;
    }
    assert expected == observed;
    return Ok(|expected|);
  }

  lemma ObservedNone()
    ensures Observed([]) == Ok([])
  {
  }

  lemma ObservedStep(rows: seq<Row>, i: nat)
    requires i < |rows|
    ensures Observed(rows[i..]) ==
              if !Compared(rows[i]) then Observed(rows[i + 1..])
              else if !Supported(rows[i]) then Rejected
              else Prepend(Ok([Snapshot(rows[i].sourceTick.n, rows[i].r3.n)]), Observed(rows[i + 1..]))
  {
    assert rows[i..][1..] == rows[i + 1..];
  }

  // ---- Closed form ----

  /** Alarms taken in the first k polls, when no poll is clipped; d is how far
      the first poll follows the first alarm. */
  function Taken(k: nat, d: int): int {
    if k == 0 then 0 else k - 1 + Max(1, (d + 8100 * (k - 1)) / PAD)
  }

  /** The cursor after k polls. */
  function Cursor(k: nat, d: int, count: int): int { Min(count, 2 + Taken(k, d)) }

  lemma TakenZero(d: int)
    ensures Taken(0, d) == 0
  {
  }

  lemma TakenStep(k: nat, d: int)
    requires 0 < d < VI
    ensures 1 <= Taken(k + 1, d) - Taken(k, d) <= 2
  {
    var x := d + 8100 * k;
    if k > 0 {
      assert d + 8100 * (k - 1) == x - 8100;
      assert (x - 8100) / PAD <= x / PAD <= (x - 8100) / PAD + 1;
    }
  }

  /** Poll k+1 finds exactly the alarms the closed form says. */
  lemma DueClosed(k: nat, nextPad: int, firstPoll: int)
    requires 0 < firstPoll - nextPad < VI
    ensures var d := firstPoll - nextPad;
            Max(1, Due(nextPad + PAD * (1 + Taken(k, d)), firstPoll + VI * k, PAD)) == Taken(k + 1, d) - Taken(k, d)
  {
    var d, t := firstPoll - nextPad, Taken(k, firstPoll - nextPad);
    var gap := d + VI * k - PAD * (1 + t);
    var x := d + 8100 * k;
    assert gap == x + PAD * (k - 1 - t);
    DueQuotient(nextPad + PAD * (1 + t), firstPoll + VI * k);
    assert gap / PAD == x / PAD + (k - 1 - t);
    TakenStep(k, d);
  }

  /** `ps` are the snapshots the closed form gives from poll k + 1 to the end. */
  predicate FollowsCursor(ps: seq<Snapshot>, k: nat, d: int, count: int) {
    && Cursor(k + |ps|, d, count) == count
    && forall n: nat :: k <= n < k + |ps| ==>
         Cursor(n, d, count) < count &&
         ps[n - k] == Snapshot(Cursor(n, d, count), Cursor(n + 1, d, count) - Cursor(n, d, count))
  }

  lemma FollowsCons(s: Snapshot, rest: seq<Snapshot>, k: nat, d: int, count: int)
    requires FollowsCursor(rest, k + 1, d, count) && Cursor(k, d, count) < count
    requires s == Snapshot(Cursor(k, d, count), Cursor(k + 1, d, count) - Cursor(k, d, count))
    ensures FollowsCursor([s] + rest, k, d, count)
  {
    hide Cursor;
    var ps := [s] + rest;
    assert forall j :: 1 <= j < |ps| ==> ps[j] == rest[j - 1];
  }

  lemma {:induction false} PollsClosed(k: nat, nextPad: int, firstPoll: int, count: int)
    requires 0 < firstPoll - nextPad < VI && 2 + Taken(k, firstPoll - nextPad) <= count
    ensures var d := firstPoll - nextPad;
            FollowsCursor(Polls(2 + Taken(k, d), nextPad + PAD * (1 + Taken(k, d)), firstPoll + VI * k, count,
                                PAD, VI), k, d, count)
    decreases count - Taken(k, firstPoll - nextPad)
  {
    hide Taken, Due, FollowsCursor;
    var d := firstPoll - nextPad;
    var cursor, alarm := 2 + Taken(k, d), nextPad + PAD * (1 + Taken(k, d));
    if cursor < count {
      DueClosed(k, nextPad, firstPoll);
      TakenStep(k, d);
      var taken := Taken(k + 1, d) - Taken(k, d);
      var next := Min(taken, count - cursor);
      assert alarm + taken * PAD == nextPad + PAD * (1 + Taken(k + 1, d));
      assert firstPoll + VI * k + VI == firstPoll + VI * (k + 1);
      var rest := Polls(cursor + next, alarm + taken * PAD, firstPoll + VI * k + VI, count, PAD, VI);
      if 2 + Taken(k + 1, d) <= count {
        PollsClosed(k + 1, nextPad, firstPoll, count);
      } else {
        FollowsNothing(k + 1, d, count);
      }
      FollowsCons(Snapshot(cursor, next), rest, k, d, count);
    } else {
      FollowsNothing(k, d, count);
    }
  }

  lemma FollowsNothing(k: nat, d: int, count: int)
    requires Cursor(k, d, count) == count
    ensures FollowsCursor([], k, d, count)
  {
  }

  /** Under the accepted startup constants every predicted snapshot is given by
      the closed form: the cursor after k >= 1 polls is
      min(count, k + 1 + max(1, (d + 8100 (k - 1)) div 8100000)). */
  lemma ClosedForm(count: int, nextPad: int, firstPoll: int)
    requires count >= 2 && 0 < nextPad < firstPoll <= VI
    ensures var d := firstPoll - nextPad;
            var e := Expected(count, nextPad, firstPoll, PAD, VI);
            && |e| >= 2 && e[0] == Snapshot(0, 1) && e[1] == Snapshot(1, 1)
            && Cursor(0, d, count) == 2 && Cursor(|e| - 2, d, count) == count
            && forall k :: 2 <= k < |e| ==>
                 e[k] == Snapshot(Cursor(k - 2, d, count), Cursor(k - 1, d, count) - Cursor(k - 2, d, count)) &&
                 1 <= e[k].count <= 2 &&
                 (e[k].count == 2 ==> Double(k - 1, d)) && (Double(k - 1, d) && k < |e| - 1 ==> e[k].count == 2)
  {
    var d := firstPoll - nextPad;
    hide Polls, Taken;
    assert Taken(0, d) == 0 by { TakenZero(d); }
    PollsClosed(0, nextPad, firstPoll, count);
    var e := Expected(count, nextPad, firstPoll, PAD, VI);
    var ps := Polls(2, nextPad + PAD, firstPoll, count, PAD, VI);
    forall k | 2 <= k < |e|
      ensures e[k] == Snapshot(Cursor(k - 2, d, count), Cursor(k - 1, d, count) - Cursor(k - 2, d, count))
      ensures 1 <= e[k].count <= 2
      ensures e[k].count == 2 ==> Double(k - 1, d)
      ensures Double(k - 1, d) && k < |e| - 1 ==> e[k].count == 2
    {
      assert e[k] == ps[k - 2];
      TakenStep(k - 2, d);
      if k < |e| - 1 { assert Cursor(k - 1, d, count) < count; }
    }
  }

  /** Poll k takes two samples when nothing clips it. */
  predicate Double(k: nat, d: int) { k > 0 && Taken(k, d) - Taken(k - 1, d) == 2 }

  /** Poll k is double exactly when the accumulated 8100-tick drift first passes
      a multiple, beyond the first, of the alarm period. */
  lemma DoubleExactly(k: nat, d: int)
    requires 0 < d < VI
    ensures Double(k, d) <==> k > 1 && d + 8100 * (k - 1) >= 2 * PAD && (d + 8100 * (k - 1)) % PAD < 8100
  {
    if k > 1 {
      var x := d + 8100 * (k - 1);
      assert d + 8100 * (k - 2) == x - 8100;
      assert x == PAD * (x / PAD) + x % PAD;
      assert x - 8100 == PAD * ((x - 8100) / PAD) + (x - 8100) % PAD;
    }
  }

  /** After an unclipped double snapshot the next one comes exactly 1000 polls later. */
  lemma DoublesSpaced(k: nat, d: int)
    requires 0 < d < VI && Double(k, d)
    ensures Double(k + 1000, d)
    ensures forall n: nat :: k < n < k + 1000 ==> !Double(n, d)
  {
    hide Double;
    DoubleExactly(k, d);
    DoubleExactly(k + 1000, d);
    forall n: nat | k < n < k + 1000 ensures !Double(n, d) {
      DoubleExactly(n, d);
      Drift(d + 8100 * (k - 1), n - k);
      assert d + 8100 * (n - 1) == d + 8100 * (k - 1) + 8100 * (n - k);
    }
    assert d + 8100 * (k + 1000 - 1) == d + 8100 * (k - 1) + PAD;
  }

  lemma Drift(x: int, m: int)
    requires x % PAD < 8100 && 0 < m < 1000
    ensures (x + 8100 * m) % PAD == x % PAD + 8100 * m
  {
    assert x == PAD * (x / PAD) + x % PAD;
  }

  // ---- Binding ----

  /** The first row with this tick that the queue-read breakpoint produced.
      A row with the tick but no program counter raises. */
  function FirstAt(rows: seq<Row>, tick: int): Result<Row> {
    if rows == [] then Rejected
    else if !rows[0].sourceTick.Equals(tick) then FirstAt(rows[1..], tick)
    else if rows[0].clockPc.Missing? then Rejected
    else if rows[0].clockPc.Equals(QUEUE_READ_PC) then Ok(rows[0])
    else FirstAt(rows[1..], tick)
  }

  /** Two words as one number: the high one shifted by 32 bits, or-ed with the low one. */
  function Words(high: nat, low: nat): nat { BitOr(Shl(high, 32), low) }

  datatype Context = Context(padPeriod: int, viPeriod: int, deadline: int, firstPoll: int)

  /** The startup context, when the two probe rows carry what is read from them. */
  function StartupContext(rows: seq<Row>): Result<Context> {
    if exists i :: 0 <= i < |rows| && !rows[i].sourceTick.Comparable() then Rejected
    else
      match (FirstAt(rows, 0), FirstAt(rows, 2))
      case (Ok(first), Ok(vi)) =>
        if first.probe.None? || first.queueBytes.None? || !first.coreTicks.Int? || !vi.coreTicks.Int? then Rejected
        else
          var p, w, q := first.probe.value, first.probe.value.cadence, first.queueBytes.value;
          if |w| < 28 || |p.video| < 118 || |q| < 4 then Rejected
          else
            var padPeriod := 12 * Words(w[26], w[27]);
            var deadline := 12 * (Words(w[22], w[23]) - p.timeAdjust - p.timeBase);
            var firstPoll := vi.coreTicks.n - first.coreTicks.n;
            if padPeriod != PAD || p.viPeriod != VI || !q[3].Equals(1) || p.video[117] != 2
               || !((p.video[23] == 2 && p.video[47] == 7) || (p.video[23] == 7 && p.video[47] == 2))
               || !vi.r3.Equals(0) || !(0 < deadline < firstPoll <= p.viPeriod)
            then Rejected
            else Ok(Context(padPeriod, p.viPeriod, deadline, firstPoll))
      case _ => Rejected
  }

  function ContextBytes(c: Context): Bytes
    requires c.padPeriod >= 0 && c.viPeriod >= 0 && c.deadline >= 0 && c.firstPoll >= 0
  {
    Pack(c.padPeriod, 8) + Pack(c.viPeriod, 8) + Pack(c.deadline, 8) + Pack(c.firstPoll, 8) + Pack(2, 4) + Pack(0, 4)
  }

  /** What the version 5 recipe's block decodes to. */
  function ReadContext(block: Bytes): Context
    requires |block| == 40
  {
    Context(Unpack(block[0..8]), Unpack(block[8..16]), Unpack(block[16..24]), Unpack(block[24..32]))
  }

  datatype Binding<+D> = Binding(payload: Bytes, snapshotsChecked: nat, recipeSha: D, clocksSha: D, outputSha: D,
                                 frames: nat)

  /** The acceptance rule of the binder. */
  predicate Accepts(recipe: Bytes, rows: seq<Row>) {
    CompleteV4(recipe, 2) &&
    match StartupContext(rows)
    case Rejected => false
    case Ok(c) => Observed(rows) == Ok(Expected(Frames(recipe), c.deadline, c.firstPoll, PAD, VI))
  }

  method Bind<D(==)>(recipe: Bytes, clocks: Bytes, rows: seq<Row>, recipeSha: D, clocksSha: D, digest: Bytes -> D)
    returns (r: Result<Binding<D>>)
    ensures r.Ok? <==> digest(recipe) == recipeSha && digest(clocks) == clocksSha && Accepts(recipe, rows)
    ensures r.Ok? ==>
              var c := StartupContext(rows).value;
              && r.value.payload == Reissue(recipe, 5, ContextBytes(c))
              && r.value.snapshotsChecked == |Expected(Frames(recipe), c.deadline, c.firstPoll, PAD, VI)|
              && r.value.recipeSha == digest(recipe) && r.value.clocksSha == digest(clocks)
              && r.value.outputSha == digest(r.value.payload) && r.value.frames == Frames(recipe)
  {
    if digest(recipe) != recipeSha {
      return Rejected;
    }
    if digest(clocks) != clocksSha {
      return Rejected;
    }
    if |recipe| < 20 {
      return Rejected;
    }
    if recipe[0..4] != MAGIC || Version(recipe) != 4 || !(2 <= Frames(recipe) <= 36000)
       || |recipe| != 20 + 312 + 822 + 44 * Frames(recipe) {
      return Rejected;
    }
    var context := StartupContext(rows);
    if context.Rejected? {
      return Rejected;
    }
    var c := context.value;
    var snapshots := ValidateQueuePrediction(rows, Frames(recipe), c.deadline, c.firstPoll, c.padPeriod, c.viPeriod);
    if snapshots.Rejected? {
      return Rejected;
    }
    var payload := Reissue(recipe, 5, ContextBytes(c));
    return Ok(Binding(payload, snapshots.value, recipeSha, clocksSha, digest(payload), Frames(recipe)));
  }

  /** Clock binding is lossless: the context block reads back and removing it
      gives back the input recipe. */
  lemma BindingLossless(recipe: Bytes, rows: seq<Row>)
    requires Accepts(recipe, rows)
    ensures var c := StartupContext(rows).value;
            var out := Reissue(recipe, 5, ContextBytes(c));
            && |out| == |recipe| + 40
            && out[..4] == ['M' as int, 'W' as int, 'R' as int, 'C' as int] && Unpack(out[4..8]) == 5
            && ReadContext(out[20..60]) == c && Unpack(out[52..56]) == 2 && Unpack(out[56..60]) == 0
            && Restore(out, 40) == recipe
  {
    hide Pack, Unpack, Pow256, Observed, Expected;
    var c := StartupContext(rows).value;
    var block := ContextBytes(c);
    Widths();
    ReissueLayout(recipe, 5, block);
    ReissueRestores(recipe, 5, block);
    UnpackPack(5, 4);
    UnpackPack(c.padPeriod, 8);
    UnpackPack(c.viPeriod, 8);
    UnpackPack(c.deadline, 8);
    UnpackPack(c.firstPoll, 8);
    assert block[0..8] == Pack(c.padPeriod, 8);
    assert block[8..16] == Pack(c.viPeriod, 8);
    assert block[16..24] == Pack(c.deadline, 8);
    assert block[24..32] == Pack(c.firstPoll, 8);
    UnpackPack(2, 4);
    UnpackPack(0, 4);
    var out := Reissue(recipe, 5, block);
    assert out[52..56] == block[32..36] == Pack(2, 4);
    assert out[56..60] == block[36..40] == Pack(0, 4);
  }
}
