/**
  scripts/bind_retail_queue.py: recorded input-queue snapshots packed into a
  version 6 recipe.
*/
module RetailQueue {
  import opened Common
  import opened BigEndian
  import opened RetailRecipe
  import RetailClock

  const WORD64 := 0x1_0000_0000_0000_0000

  /** `count` samples became available `time` ticks after the first snapshot. */
  datatype Event = Event(time: nat, count: nat)

  predicate Skipped(row: Row) { !row.clockPc.Equals(QUEUE_READ_PC) || row.r3.Equals(0) }

  /** A snapshot that continues at `cursor`, later than `last`, and agrees with
      the protected queue state. */
  predicate Continues(row: Row, cursor: int, last: int, frames: int) {
    && row.sourceTick == Field.Int(cursor)
    && row.coreTicks.Int? && last < row.coreTicks.n && 0 <= row.coreTicks.n < WORD64
    && row.r3.Int? && 1 <= row.r3.n <= 5 && cursor + row.r3.n <= frames
    && row.queueBytes.Some? && |row.queueBytes.value| >= 4
    && row.queueBytes.value[0].Equals(5) && row.queueBytes.value[3].Equals(row.r3.n)
  }

  /** The rows a snapshot was recorded in. */
  function Recorded(rows: seq<Row>): seq<Row> {
    if rows == [] then []
    else if Skipped(rows[0]) then Recorded(rows[1..])
    else [rows[0]] + Recorded(rows[1..])
  }

  /** Samples delivered by the recorded rows. */
  function Delivered(rs: seq<Row>): int {
    if rs == [] then 0 else Delivered(rs[..|rs| - 1]) + rs[|rs| - 1].r3.Value()
  }

  /** Reference acceptance of a whole history: every recorded row continues where
      the rows before it stopped. */
  predicate Unbroken(rs: seq<Row>, frames: int) {
    forall i :: 0 <= i < |rs| ==> UnbrokenAt(rs, i, frames)
  }

  predicate UnbrokenAt(rs: seq<Row>, i: nat, frames: int)
    requires i < |rs|
  {
    Continues(rs[i], Delivered(rs[..i]), if i == 0 then -1 else rs[i - 1].coreTicks.Value(), frames)
  }

  predicate History(rows: seq<Row>, frames: int) {
    Unbroken(Recorded(rows), frames) && Delivered(Recorded(rows)) == frames
  }

  lemma {:induction false} TimesRise(rs: seq<Row>, frames: int, i: nat, j: nat)
    requires Unbroken(rs, frames) && i <= j < |rs|
    ensures rs[i].coreTicks.Value() <= rs[j].coreTicks.Value()
    ensures i < j ==> rs[i].coreTicks.Value() < rs[j].coreTicks.Value()
    decreases j
  {
    if i < j {
      assert UnbrokenAt(rs, j, frames);
      TimesRise(rs, frames, i, j - 1);
    }
  }

  lemma InRange(rs: seq<Row>, frames: int)
    requires Unbroken(rs, frames)
    ensures forall i :: 0 <= i < |rs| ==>
      0 <= rs[i].coreTicks.Value() - rs[0].coreTicks.Value() < WORD64 && 1 <= rs[i].r3.Value() <= 5
  {
    forall i | 0 <= i < |rs|
      ensures 0 <= rs[i].coreTicks.Value() - rs[0].coreTicks.Value() < WORD64 && 1 <= rs[i].r3.Value() <= 5
    {
      assert UnbrokenAt(rs, i, frames) && UnbrokenAt(rs, 0, frames);
      TimesRise(rs, frames, 0, i);
    }
  }

  function EventsOf(rs: seq<Row>, frames: int): (es: seq<Event>)
    requires Unbroken(rs, frames)
    ensures |es| == |rs|
  {
    InRange(rs, frames);
    seq(|rs|, i requires 0 <= i < |rs| =>
      Event(rs[i].coreTicks.Value() - rs[0].coreTicks.Value(), rs[i].r3.Value()))
  }

  function PackEvent(e: Event): Bytes { Pack(e.time, 8) + Pack(e.count, 1) }

  function PackEvents(es: seq<Event>): Bytes {
    if es == [] then [] else PackEvents(es[..|es| - 1]) + PackEvent(es[|es| - 1])
  }

  function QueueBytes(es: seq<Event>): Bytes { Pack(|es|, 4) + Pack(0, 4) + PackEvents(es) }

  datatype Binding<+D> = Binding(output: Bytes, snapshots: nat, contextBytes: nat, recipeSha: D, clocksSha: D,
                                 outputSha: D, frames: nat)

  lemma {:induction false} RecordedAppend(rows: seq<Row>, row: Row)
    ensures Recorded(rows + [row]) == Recorded(rows) + if Skipped(row) then [] else [row]
  {
    if rows == [] {
      assert [row][1..] == [];
    } else {
      RecordedAppend(rows[1..], row);
      assert (rows + [row])[1..] == rows[1..] + [row];
    }
  }

  lemma UnbrokenAppend(rs: seq<Row>, row: Row, frames: int)
    ensures Unbroken(rs + [row], frames) <==>
            Unbroken(rs, frames) &&
            Continues(row, Delivered(rs), if rs == [] then -1 else rs[|rs| - 1].coreTicks.Value(), frames)
    ensures Delivered(rs + [row]) == Delivered(rs) + row.r3.Value()
  {
    var all := rs + [row];
    assert all[..|rs|] == rs;
    forall i | 0 <= i < |rs| ensures UnbrokenAt(all, i, frames) == UnbrokenAt(rs, i, frames) {
      assert all[..i] == rs[..i];
    }
    if Unbroken(all, frames) { assert UnbrokenAt(all, |rs|, frames); }
  }

  /** A prefix of the history that breaks cannot be repaired later. */
  lemma {:induction false} BrokenStays(rs: seq<Row>, more: seq<Row>, frames: int)
    requires !Unbroken(rs, frames)
    ensures !Unbroken(rs + more, frames)
    decreases |more|
  {
    if more == [] {
      assert rs + more == rs;
    } else {
      UnbrokenAppend(rs, more[0], frames);
      BrokenStays(rs + [more[0]], more[1..], frames);
      assert rs + [more[0]] + more[1..] == rs + more;
    }
  }

  lemma {:induction false} RecordedConcat(a: seq<Row>, b: seq<Row>)
    ensures Recorded(a + b) == Recorded(a) + Recorded(b)
  {
    hide Skipped;
    if a == [] {
      assert a + b == b;
    } else {
      RecordedConcat(a[1..], b);
      assert (a + b)[1..] == a[1..] + b;
      Associate(if Skipped(a[0]) then [] else [a[0]], Recorded(a[1..]), Recorded(b));
    }
  }

  method Bind<D(==)>(recipe: Bytes, clocks: Bytes, rows: seq<Row>, recipeSha: D, clocksSha: D, digest: Bytes -> D)
    returns (r: Result<Binding<D>>)
    ensures r.Ok? <==> digest(recipe) == recipeSha && digest(clocks) == clocksSha && CompleteV4(recipe, 1)
                       && History(rows, Frames(recipe))
    ensures r.Ok? ==>
              var es := EventsOf(Recorded(rows), Frames(recipe));
              && r.value.output == Reissue(recipe, 6, QueueBytes(es))
              && r.value.snapshots == |es| && r.value.contextBytes == |QueueBytes(es)|
              && r.value.recipeSha == digest(recipe) && r.value.clocksSha == digest(clocks)
              && r.value.outputSha == digest(r.value.output) && r.value.frames == Frames(recipe)
  {
    if digest(recipe) != recipeSha || digest(clocks) != clocksSha {
      return Rejected;
    }
    if |recipe| < 20 {
      return Rejected;
    }
    var frames := Frames(recipe);
    if recipe[0..4] != MAGIC || Version(recipe) != 4 || !(1 <= frames <= 36000)
       || |recipe| != 20 + 312 + 822 + 44 * frames {
      return Rejected;
    }
    var events := RecordEvents(rows, frames);
    if events.Rejected? {
      return Rejected;
    }
    var queue := Pack(|events.value|, 4) + Pack(0, 4) + PackEvents(events.value);
    var output := Reissue(recipe, 6, queue);
    return Ok(Binding(output, |events.value|, |queue|, recipeSha, clocksSha, digest(output), frames));
  }

  /** The loop over the clock stream. */
  method RecordEvents(rows: seq<Row>, frames: nat) returns (r: Result<seq<Event>>)
    ensures r.Ok? <==> History(rows, frames)
    ensures r.Ok? ==> r.value == EventsOf(Recorded(rows), frames)
  {
    var events: seq<Event>, cursor, origin: Option<int>, last := [], 0, None, -1;
    ghost var rs: seq<Row> := [];
    NothingRecorded(frames);
    hide Unbroken, UnbrokenAt, Delivered, Recorded, EventsOf;
    for i := 0 to |rows|
      invariant rs == Recorded(rows[..i]) && Unbroken(rs, frames)
      invariant cursor == Delivered(rs) && events == EventsOf(rs, frames)
      invariant last == if rs == [] then -1 else rs[|rs| - 1].coreTicks.Value()
      invariant origin == if rs == [] then None else Some(rs[0].coreTicks.Value())
    {
      var row := rows[i];
      assert rows[..i + 1] == rows[..i] + [row];
      RecordedAppend(rows[..i], row);
      if !row.clockPc.Equals(QUEUE_READ_PC) {
        continue;
      }
      if row.r3.Equals(0) {
        continue;
      }
      UnbrokenAppend(rs, row, frames);
      if !(row.sourceTick == Field.Int(cursor) && row.coreTicks.Int? && last < row.coreTicks.n
           && 0 <= row.coreTicks.n < 0x1_0000_0000_0000_0000
           && row.r3.Int? && 1 <= row.r3.n <= 5 && cursor + row.r3.n <= frames) {
        Refused(rows, i, frames);
        return Rejected;
      }
      if row.queueBytes.None? || |row.queueBytes.value| < 4 || !row.queueBytes.value[0].Equals(5)
         || !row.queueBytes.value[3].Equals(row.r3.n) {
        Refused(rows, i, frames);
        return Rejected;
      }
      if origin == None {
        origin := Some(row.coreTicks.n);
      }
      EventsAppend(rs, row, frames);
      events := events + [Event(row.coreTicks.n - origin.value, row.r3.n)];
      cursor := cursor + row.r3.n;
      last := row.coreTicks.n;
      rs := rs + [row];
    }
    assert rows[..|rows|] == rows;
    if cursor != frames {
      return Rejected;
    }
    return Ok(events);
  }

  lemma NothingRecorded(frames: int)
    ensures Recorded([]) == [] && Unbroken([], frames) && Delivered([]) == 0 && EventsOf([], frames) == []
  {
  }

  lemma EventsAppend(rs: seq<Row>, row: Row, frames: int)
    requires Unbroken(rs + [row], frames)
    ensures Unbroken(rs, frames)
    ensures var origin := if rs == [] then row.coreTicks.Value() else rs[0].coreTicks.Value();
            && row.coreTicks.Value() >= origin && row.r3.Value() >= 0
            && EventsOf(rs + [row], frames) == EventsOf(rs, frames)
               + [Event(row.coreTicks.Value() - origin, row.r3.Value())]
  {
    UnbrokenAppend(rs, row, frames);
    InRange(rs + [row], frames);
    assert (rs + [row])[|rs|] == row;
  }

  lemma Refused(rows: seq<Row>, i: nat, frames: nat)
    requires i < |rows| && !Unbroken(Recorded(rows[..i + 1]), frames)
    ensures !History(rows, frames)
  {
    RecordedConcat(rows[..i + 1], rows[i + 1..]);
    assert rows[..i + 1] + rows[i + 1..] == rows;
    BrokenStays(Recorded(rows[..i + 1]), Recorded(rows[i + 1..]), frames);
  }

  // ---- What acceptance means ----

  function Total(es: seq<Event>): nat {
    if es == [] then 0 else Total(es[..|es| - 1]) + es[|es| - 1].count
  }

  lemma {:induction false} TotalsAgree(rs: seq<Row>, frames: int, i: nat)
    requires Unbroken(rs, frames) && i <= |rs|
    ensures Total(EventsOf(rs, frames)[..i]) == Delivered(rs[..i])
  {
    if i > 0 {
      TotalsAgree(rs, frames, i - 1);
      assert EventsOf(rs, frames)[..i][..i - 1] == EventsOf(rs, frames)[..i - 1];
      assert rs[..i][..i - 1] == rs[..i - 1];
    }
  }

  predicate Rising(es: seq<Event>) {
    (es != [] ==> es[0].time == 0) && forall i, j :: 0 <= i < j < |es| ==> es[i].time < es[j].time
  }

  lemma EventsRise(rs: seq<Row>, frames: int)
    requires Unbroken(rs, frames)
    ensures Rising(EventsOf(rs, frames))
  {
    forall i, j | 0 <= i < j < |rs| ensures EventsOf(rs, frames)[i].time < EventsOf(rs, frames)[j].time {
      TimesRise(rs, frames, i, j);
    }
  }

  /** Accepted events tile [0, frames): each starts where the previous ended, at
      its recorded tick; times start at 0 and strictly increase. */
  lemma EventsTile(rows: seq<Row>, frames: int)
    requires History(rows, frames)
    ensures var rs := Recorded(rows);
            var es := EventsOf(rs, frames);
            && Total(es) == frames && Rising(es)
            && (forall i :: 0 <= i < |es| ==> 1 <= es[i].count <= 5 && es[i].time < WORD64
                                              && rs[i].sourceTick == Field.Int(Total(es[..i])))
  {
    hide Recorded, Delivered, Total;
    var rs := Recorded(rows);
    var es := EventsOf(rs, frames);
    TotalsAgree(rs, frames, |rs|);
    assert es[..|rs|] == es && rs[..|rs|] == rs;
    InRange(rs, frames);
    EventsRise(rs, frames);
    forall i | 0 <= i < |es|
      ensures rs[i].sourceTick == Field.Int(Total(es[..i]))
    {
      TotalsAgree(rs, frames, i);
      assert UnbrokenAt(rs, i, frames);
    }
  }

  // ---- Reading the block back ----

  function ReadEvents(block: Bytes, n: nat): seq<Event>
    requires |block| == 9 * n
    decreases n
  {
    if n == 0 then []
    else ReadEvents(block[..9 * (n - 1)], n - 1) +
         [Event(Unpack(block[9 * (n - 1)..9 * (n - 1) + 8]), Unpack(block[9 * (n - 1) + 8..]))]
  }

  lemma {:induction false} ReadPackEvents(es: seq<Event>)
    requires forall i :: 0 <= i < |es| ==> es[i].time < WORD64 && es[i].count < 256
    ensures |PackEvents(es)| == 9 * |es|
    ensures ReadEvents(PackEvents(es), |es|) == es
  {
    hide Pack, Unpack, Pow256, ReadEvents, PackEvent;
    if es == [] {
      ReadNone();
    } else {
      var n := |es| - 1;
      ReadPackEvents(es[..n]);
      ReadOneMore(PackEvents(es[..n]), es[n], n);
      assert es == es[..n] + [es[n]];
    }
  }

  lemma ReadNone()
    ensures ReadEvents([], 0) == []
  {
  }

  lemma ReadOneMore(block: Bytes, e: Event, n: nat)
    requires |block| == 9 * n && e.time < WORD64 && e.count < 256
    ensures |block + PackEvent(e)| == 9 * (n + 1)
    ensures ReadEvents(block + PackEvent(e), n + 1) == ReadEvents(block, n) + [e]
  {
    hide Pack, Unpack, Pow256;
    Widths();
    UnpackPack(e.time, 8);
    UnpackPack(e.count, 1);
    var all, at := block + PackEvent(e), |block|;
    assert all[..at] == block;
    assert all[at..at + 8] == Pack(e.time, 8);
    assert all[at + 8..] == Pack(e.count, 1);
  }

  datatype Decoded = Decoded(recipe: Bytes, events: seq<Event>)

  /** Reference decoder of a version 6 recipe: the version 4 recipe it was made
      from and its queue events. */
  function Decode(output: Bytes): Option<Decoded> {
    if |output| < 28 || Unpack(output[4..8]) != 6 then None
    else
      var n := Unpack(output[20..24]);
      if |output| < 28 + 9 * n then None
      else Some(Decoded(Restore(output, 8 + 9 * n), ReadEvents(output[28..28 + 9 * n], n)))
  }

  lemma {:induction false} EventCount(es: seq<Event>)
    requires forall i :: 0 <= i < |es| ==> es[i].count >= 1
    ensures |es| <= Total(es)
  {
    if es == [] {
    } else {
      EventCount(es[..|es| - 1]);
    }
  }

  /** Queue binding is lossless: the output decodes to the input recipe, byte for
      byte, and to the accepted events. */
  lemma BindingLossless(recipe: Bytes, rows: seq<Row>)
    requires CompleteV4(recipe, 1) && History(rows, Frames(recipe))
    ensures var es := EventsOf(Recorded(rows), Frames(recipe));
            var out := Reissue(recipe, 6, QueueBytes(es));
            && |out| == |recipe| + 8 + 9 * |es| && Decode(out) == Some(Decoded(recipe, es))
            && out[..4] == ['M' as int, 'W' as int, 'R' as int, 'C' as int] && Unpack(out[4..8]) == 6
            && Unpack(out[20..24]) == |es| && Unpack(out[24..28]) == 0
  {
    hide Pack, Unpack, Pow256, PackEvents, ReadEvents, EventsOf, Total, Reissue, Restore;
    var es := EventsOf(Recorded(rows), Frames(recipe));
    EventsTile(rows, Frames(recipe));
    EventCount(es);
    ReadPackEvents(es);
    Widths();
    UnpackPack(|es|, 4);
    UnpackPack(6, 4);
    var block := QueueBytes(es);
    ReissueLayout(recipe, 6, block);
    ReissueRestores(recipe, 6, block);
    var out := Reissue(recipe, 6, block);
    var body := out[20..20 + |block|];
    assert body == block;
    assert block[0..4] == Pack(|es|, 4) && block[8..] == PackEvents(es);
    assert body[0..4] == out[20..24] && body[8..] == out[28..28 + 9 * |es|];
    UnpackPack(0, 4);
    assert block[4..8] == Pack(0, 4);
    assert body[4..8] == out[24..28];
  }

  // ---- Agreement with the clock binder ----

  /** The tick and count of each event. */
  function Snapshots(es: seq<Event>): seq<RetailClock.Snapshot> {
    seq(|es|, i requires 0 <= i < |es| => RetailClock.Snapshot(Total(es[..i]), es[i].count))
  }

  lemma {:induction false} ObservedIsRecorded(rows: seq<Row>)
    requires RetailClock.Observed(rows).Ok?
    requires forall r :: r in Recorded(rows) ==> r.r3.Int?
    ensures var o, rs := RetailClock.Observed(rows).value, Recorded(rows);
            && |o| == |rs|
            && forall i :: 0 <= i < |rs| ==>
                 rs[i].sourceTick.Int? && o[i] == RetailClock.Snapshot(rs[i].sourceTick.n, rs[i].r3.n)
  {
    if rows == [] {
    } else {
      assert !Skipped(rows[0]) ==> rows[0] in Recorded(rows);
      ObservedIsRecorded(rows[1..]);
    }
  }

  /** When both binders accept a stream for one recipe, the clock binder's
      prediction is the queue binder's own list of snapshots. */
  lemma BindersAgree(recipe: Bytes, rows: seq<Row>)
    requires RetailClock.Accepts(recipe, rows) && CompleteV4(recipe, 1) && History(rows, Frames(recipe))
    ensures var c := RetailClock.StartupContext(rows).value;
            RetailClock.Expected(Frames(recipe), c.deadline, c.firstPoll, RetailClock.PAD, RetailClock.VI) ==
            Snapshots(EventsOf(Recorded(rows), Frames(recipe)))
  {
    var rs := Recorded(rows);
    var es := EventsOf(rs, Frames(recipe));
    forall r | r in rs ensures r.r3.Int? {
      var i :| 0 <= i < |rs| && rs[i] == r;
      assert UnbrokenAt(rs, i, Frames(recipe));
    }
    ObservedIsRecorded(rows);
    EventsTile(rows, Frames(recipe));
  }
}
