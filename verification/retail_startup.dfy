/**
  The startup rows of scripts/bind_retail_clock.py, from the side of the capture:
  which rows carry a clock context, and that the binder reads back exactly that.
*/
module RetailStartup {
  import opened Bits
  import opened Common
  import opened RetailRecipe
  import opened RetailClock

  /** The number, or a value of another type that equals it. */
  predicate Is(f: Field, n: int) { f == Int(n) || f == Like(n) }

  /** The i-th row is the first that the queue-read breakpoint produced at this
      tick, and every row at the tick before it names another breakpoint. */
  predicate FirstHit(rows: seq<Row>, tick: int, i: nat) {
    && i < |rows| && Is(rows[i].sourceTick, tick) && Is(rows[i].clockPc, 0x803769d4)
    && forall j :: 0 <= j < i && Is(rows[j].sourceTick, tick) ==>
         rows[j].clockPc != Missing && !Is(rows[j].clockPc, 0x803769d4)
  }

  lemma {:induction false} FirstAtHit(rows: seq<Row>, tick: int, i: nat)
    requires FirstHit(rows, tick, i)
    ensures FirstAt(rows, tick) == Ok(rows[i])
  {
    if i > 0 {
      assert forall j :: 0 <= j < i - 1 ==> rows[1..][j] == rows[j + 1];
      FirstAtHit(rows[1..], tick, i - 1);
    }
  }

  lemma {:induction false} FirstAtIsHit(rows: seq<Row>, tick: int) returns (i: nat)
    requires FirstAt(rows, tick).Ok?
    ensures FirstHit(rows, tick, i) && FirstAt(rows, tick) == Ok(rows[i])
  {
    if rows[0].sourceTick.Equals(tick) && rows[0].clockPc.Equals(QUEUE_READ_PC) {
      i := 0;
    } else {
      var k := FirstAtIsHit(rows[1..], tick);
      i := k + 1;
      assert forall j :: 0 < j < i ==> rows[j] == rows[1..][j - 1];
    }
  }

  /** What a startup capture means.  `pad` and `alarm` count time-base ticks of
      twelve processor ticks each, `alarm` from the time base on; `first` and
      `second` are the times of the two queue reads. */
  datatype Startup = Startup(pad: nat, alarm: int, timeBase: int, adjust: int, vi: int, first: int, second: int,
                             queued: Field, shown: int, buffers: (int, int), idle: Field)

  function High(n: nat): nat { n / 0x1_0000_0000 }

  function Low(n: nat): nat { n % 0x1_0000_0000 }

  /** The two rows show this startup: periods and the alarm are split into a high
      and a low word, the alarm on top of base and adjustment. */
  predicate Shows(s: Startup, first: Row, second: Row) {
    && first.coreTicks == Int(s.first) && second.coreTicks == Int(s.second) && second.r3 == s.idle
    && first.queueBytes.Some? && |first.queueBytes.value| >= 4 && first.queueBytes.value[3] == s.queued
    && first.probe.Some?
    && var p := first.probe.value;
       && p.timeBase == s.timeBase && p.timeAdjust == s.adjust && p.viPeriod == s.vi
       && |p.video| >= 118 && p.video[117] == s.shown && (p.video[23], p.video[47]) == s.buffers
       && |p.cadence| >= 28 && s.timeBase + s.adjust + s.alarm >= 0
       && p.cadence[22] == High(s.timeBase + s.adjust + s.alarm)
       && p.cadence[23] == Low(s.timeBase + s.adjust + s.alarm)
       && p.cadence[26] == High(s.pad) && p.cadence[27] == Low(s.pad)
  }

  /** A pad period of 8100000 and a video period of 8108100 processor ticks, one
      sample queued, the two original buffers, nothing queued at the second read,
      and the alarm before it within one video period. */
  predicate Original(s: Startup) {
    && s.pad == 675000 && s.vi == 8108100 && Is(s.queued, 1) && s.shown == 2
    && s.buffers in {(2, 7), (7, 2)} && Is(s.idle, 0)
    && 0 < 12 * s.alarm < s.second - s.first <= 8108100
  }

  lemma WordsSum(high: nat, low: nat)
    requires low < 0x1_0000_0000
    ensures Words(high, low) == 0x1_0000_0000 * high + low
  {
    Shl32(1);
    Shl32(high);
    OrDisjoint(low, high, 32);
    OrCommutes(low, Shl(high, 32));
  }

  lemma WordsSplit(n: nat)
    ensures Words(High(n), Low(n)) == n
  {
    hide Words;
    WordsSum(High(n), Low(n));
  }

  /** Whatever the time base and its adjustment are, the binder reads the context
      the capture shows, and refuses it when any one thing is not original. */
  lemma StartupRead(rows: seq<Row>, i: nat, k: nat, s: Startup)
    requires forall j :: 0 <= j < |rows| ==> !rows[j].sourceTick.Missing? && !rows[j].sourceTick.Other?
    requires FirstHit(rows, 0, i) && FirstHit(rows, 2, k) && Shows(s, rows[i], rows[k])
    ensures StartupContext(rows)
         == if Original(s) then Ok(Context(8100000, 8108100, 12 * s.alarm, s.second - s.first)) else Rejected
  {
    hide FirstHit, FirstAt, Words, High, Low;
    FirstAtHit(rows, 0, i);
    FirstAtHit(rows, 2, k);
    WordsSplit(s.pad);
    WordsSplit(s.timeBase + s.adjust + s.alarm);
  }

  /** Nothing else is accepted: behind every context there are the two rows and,
      when the low words have 32 bits, an original startup that they show. */
  lemma StartupBehind(rows: seq<Row>) returns (i: nat, k: nat, s: Startup)
    requires StartupContext(rows).Ok?
    ensures forall j :: 0 <= j < |rows| ==> !rows[j].sourceTick.Missing? && !rows[j].sourceTick.Other?
    ensures FirstHit(rows, 0, i) && FirstHit(rows, 2, k)
    ensures rows[i].probe.Some? && |rows[i].probe.value.cadence| >= 28
    ensures rows[i].probe.value.cadence[23] < 0x1_0000_0000 && rows[i].probe.value.cadence[27] < 0x1_0000_0000 ==>
              Shows(s, rows[i], rows[k]) && Original(s)
  {
    hide FirstHit, FirstAt, Words;
    i := FirstAtIsHit(rows, 0);
    k := FirstAtIsHit(rows, 2);
    var first, second, p := rows[i], rows[k], rows[i].probe.value;
    var w := p.cadence;
    s := Startup(Words(w[26], w[27]), Words(w[22], w[23]) - p.timeAdjust - p.timeBase, p.timeBase, p.timeAdjust,
                 p.viPeriod, first.coreTicks.n, second.coreTicks.n, first.queueBytes.value[3], p.video[117],
                 (p.video[23], p.video[47]), second.r3);
    if w[23] < 0x1_0000_0000 && w[27] < 0x1_0000_0000 {
      WordsSum(w[26], w[27]);
      WordsSum(w[22], w[23]);
    }
  }
}
