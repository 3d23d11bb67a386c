/**
  scripts/a3_expected_fault_auditor.py: byte accounting of the cut proxy and the
  chain of checksums from the browser report to both peers' retained rows.  JSON
  values have the shapes the auditor demands of them; the flat status checks
  around these are not part of this model.
*/
module CutEvidence {
  import opened Common

  // ---- Proxy accounting ----

  const MAX_UINT: int := 0x1F_FFFF_FFFF_FFFF

  predicate Uint(v: int) { 0 <= v <= MAX_UINT }

  datatype Direction = ClientToWorker | WorkerToClient

  const DIRECTIONS: seq<Direction> := [ClientToWorker, WorkerToClient]

  datatype Counters = Counters(enqueued: int, released: int, onCut: int, onStop: int, onFailure: int)
  {
    predicate Uints() { Uint(enqueued) && Uint(released) && Uint(onCut) && Uint(onStop) && Uint(onFailure) }

    function Plus(more: Counters): Counters {
      Counters(enqueued + more.enqueued, released + more.released, onCut + more.onCut, onStop + more.onStop,
               onFailure + more.onFailure)
    }
  }

  const ZERO := Counters(0, 0, 0, 0, 0)

  /** One direction of one connection; the digests are of the bytes that went in
      and came out. */
  datatype Flow<D> = Flow(counters: Counters, enqueuedSha: D, releasedSha: D)

  datatype Connection<!D> = Connection(id: int, reason: string, clean: bool, hashesMatch: bool,
                                       flows: Direction -> Flow<D>)

  datatype Aggregate = Aggregate(counters: Counters, cutAtThreshold: int)

  predicate Reconciled(c: Counters) {
    c.enqueued == c.released + c.onCut && c.onStop == 0 && c.onFailure == 0
  }

  predicate Lossless<D(==)>(f: Flow<D>) {
    && f.counters.onCut == 0 && f.counters.onStop == 0 && f.counters.onFailure == 0
    && f.counters.enqueued == f.counters.released && f.enqueuedSha == f.releasedSha
  }

  predicate FlowOk<D(==)>(c: Connection<D>, selected: int, d: Direction) {
    && c.flows(d).counters.Uints()
    && if c.id == selected then Reconciled(c.flows(d).counters) else Lossless(c.flows(d))
  }

  predicate ConnectionOk<D(==)>(c: Connection<D>, selected: int) {
    && Uint(c.id)
    && (if c.id == selected then c.reason == "cut" && !c.clean else c.reason == "" && c.clean && c.hashesMatch)
    && FlowOk(c, selected, ClientToWorker) && FlowOk(c, selected, WorkerToClient)
  }

  /** One counter row per direction, summed over the connections. */
  function Sum<D>(closed: seq<Connection<D>>, d: Direction): Counters {
    if closed == [] then ZERO else Sum(closed[..|closed| - 1], d).Plus(closed[|closed| - 1].flows(d).counters)
  }

  function Identities<D>(closed: seq<Connection<D>>): seq<int> {
    seq(|closed|, i requires 0 <= i < |closed| => closed[i].id)
  }

  /** The books balance: every connection is in order, one of them is the selected
      one, and each direction's totals are the sums over the connections. */
  predicate Balanced<D(==)>(closed: seq<Connection<D>>, selected: int, total: Direction -> Aggregate) {
    && Distinct(Identities(closed)) && selected in Identities(closed)
    && (forall i :: 0 <= i < |closed| ==> ConnectionOk(closed[i], selected))
    && (forall d :: d in DIRECTIONS ==> total(d).counters == Sum(closed, d) && total(d).cutAtThreshold == 0)
  }

  method CheckFlow<D(==)>(connection: Connection<D>, selected: int, d: Direction) returns (ok: bool)
    ensures ok <==> FlowOk(connection, selected, d)
  {
    var flow := connection.flows(d);
    var c := flow.counters;
    if !(Uint(c.enqueued) && Uint(c.released) && Uint(c.onCut) && Uint(c.onStop) && Uint(c.onFailure)) {
      return false;
    }
    if connection.id == selected {
      return c.enqueued == c.released + c.onCut && c.onStop == 0 && c.onFailure == 0;
    }
    return c.onCut == 0 && c.onStop == 0 && c.onFailure == 0 && c.enqueued == c.released
        && flow.enqueuedSha == flow.releasedSha;
  }

  /** The bytes the selected connection dropped, while walking the connections. */
  function CutSum<D>(closed: seq<Connection<D>>, selected: int, d: Direction): int {
    if closed == [] then 0
    else
      var last := closed[|closed| - 1];
      CutSum(closed[..|closed| - 1], selected, d) + if last.id == selected then last.flows(d).counters.onCut else 0
  }

  /** The accounting of _validate_cleanup.  The totals are also compared with the
      drops seen on the cut connection and with no drops elsewhere; those
      comparisons never decide the outcome. */
  method ValidateProxy<D(==)>(closed: seq<Connection<D>>, selected: int, total: Direction -> Aggregate)
      returns (ok: bool)
    ensures ok <==> Balanced(closed, selected, total)
  {
    hide ConnectionOk, FlowOk, Sum, CutSum;
    NothingClosed<D>(selected);
    var ids: set<int> := {};
    var cutRows := 0;
    var sums := [ZERO, ZERO];
    var cuts := [0, 0];
    for i := 0 to |closed|
      invariant |sums| == 2 && |cuts| == 2
      invariant Distinct(Identities(closed[..i])) && ids == set id | id in Identities(closed[..i])
      invariant forall j :: 0 <= j < i ==> ConnectionOk(closed[j], selected)
      invariant cutRows == if selected in ids then 1 else 0
      invariant sums[0] == Sum(closed[..i], ClientToWorker) && sums[1] == Sum(closed[..i], WorkerToClient)
      invariant cuts[0] == CutSum(closed[..i], selected, ClientToWorker)
      invariant cuts[1] == CutSum(closed[..i], selected, WorkerToClient)
    {
      var connection := closed[i];
      OneMore(closed, i, selected);
      var fine := CheckConnection(connection, selected);
      if !fine || connection.id in ids {
        RepeatedOrBad(closed, i, selected, ids);
        return false;
      }
      ids := ids + {connection.id};
      var isCut := connection.id == selected;
      if isCut {
        cutRows := cutRows + 1;
      }
      for d := 0 to 2
        invariant |sums| == 2 && |cuts| == 2
        invariant forall e :: 0 <= e < 2 ==>
                    sums[e] == if e < d then Sum(closed[..i + 1], DIRECTIONS[e]) else Sum(closed[..i], DIRECTIONS[e])
        invariant forall e :: 0 <= e < 2 ==>
                    cuts[e] == if e < d then CutSum(closed[..i + 1], selected, DIRECTIONS[e])
                               else CutSum(closed[..i], selected, DIRECTIONS[e])
      {
        var c := connection.flows(DIRECTIONS[d]).counters;
        sums := sums[d := sums[d].Plus(c)];
        if isCut {
          cuts := cuts[d := cuts[d] + c.onCut];
        }
      }
    }
    assert closed[..|closed|] == closed;
    if cutRows != 1 {
      return false;
    }
    AllDropsOnCut(closed, selected, ClientToWorker);
    AllDropsOnCut(closed, selected, WorkerToClient);
    ok := true;
    for d := 0 to 2
      invariant ok <==> forall e :: 0 <= e < d ==>
                  total(DIRECTIONS[e]).counters == sums[e] && total(DIRECTIONS[e]).cutAtThreshold == 0
    {
      var t := total(DIRECTIONS[d]);
      ok := ok && t.counters == sums[d] && t.cutAtThreshold == 0 && t.counters.onStop == 0 && t.counters.onFailure == 0
              && t.counters.onCut == cuts[d];
    }
  }

  method CheckConnection<D(==)>(connection: Connection<D>, selected: int) returns (ok: bool)
    ensures ok <==> ConnectionOk(connection, selected)
  {
    if !Uint(connection.id) {
      return false;
    }
    if !(if connection.id == selected then connection.reason == "cut" && !connection.clean
         else connection.reason == "" && connection.clean && connection.hashesMatch) {
      return false;
    }
    for d := 0 to 2
      invariant forall e :: 0 <= e < d ==> FlowOk(connection, selected, DIRECTIONS[e])
    {
      var fine := CheckFlow(connection, selected, DIRECTIONS[d]);
      if !fine {
        return false;
      }
    }
    assert FlowOk(connection, selected, DIRECTIONS[0]) && FlowOk(connection, selected, DIRECTIONS[1]);
    return true;
  }

  lemma NothingClosed<D>(selected: int)
    ensures forall d :: Sum<D>([], d) == ZERO && CutSum<D>([], selected, d) == 0
  {
  }

  lemma OneMore<D>(closed: seq<Connection<D>>, i: nat, selected: int)
    requires i < |closed|
    ensures Identities(closed[..i + 1]) == Identities(closed[..i]) + [closed[i].id]
    ensures forall d :: Sum(closed[..i + 1], d) == Sum(closed[..i], d).Plus(closed[i].flows(d).counters)
    ensures forall d :: CutSum(closed[..i + 1], selected, d)
                     == CutSum(closed[..i], selected, d)
                        + if closed[i].id == selected then closed[i].flows(d).counters.onCut else 0
  {
    assert closed[..i + 1][..i] == closed[..i];
  }

  lemma RepeatedOrBad<D>(closed: seq<Connection<D>>, i: nat, selected: int, ids: set<int>)
    requires i < |closed| && ids == set id | id in Identities(closed[..i])
    requires !ConnectionOk(closed[i], selected) || closed[i].id in ids
    ensures !(Distinct(Identities(closed)) && forall j :: 0 <= j < |closed| ==> ConnectionOk(closed[j], selected))
  {
    hide ConnectionOk;
    if closed[i].id in ids {
      var j :| 0 <= j < i && Identities(closed[..i])[j] == closed[i].id;
      assert Identities(closed)[j] == Identities(closed)[i];
    }
  }

  /** Nothing is dropped but on the cut connection. */
  lemma {:induction false} AllDropsOnCut<D>(closed: seq<Connection<D>>, selected: int, d: Direction)
    requires forall i :: 0 <= i < |closed| ==> ConnectionOk(closed[i], selected)
    ensures var s := Sum(closed, d);
            s.enqueued == s.released + s.onCut && s.onCut == CutSum(closed, selected, d) && s.onStop == 0
                && s.onFailure == 0
  {
    if closed == [] {
    } else {
      AllDropsOnCut(closed[..|closed| - 1], selected, d);
      assert ConnectionOk(closed[|closed| - 1], selected);
      assert FlowOk(closed[|closed| - 1], selected, d);
    }
  }

  lemma {:induction false} CutSumIsOne<D>(closed: seq<Connection<D>>, selected: int, d: Direction)
    requires Distinct(Identities(closed))
    ensures selected !in Identities(closed) ==> CutSum(closed, selected, d) == 0
    ensures forall i :: 0 <= i < |closed| && closed[i].id == selected ==>
              CutSum(closed, selected, d) == closed[i].flows(d).counters.onCut
  {
    if closed == [] {
    } else {
      var n := |closed| - 1;
      OneMore(closed, n, selected);
      assert closed[..n + 1] == closed;
      assert forall i :: 0 <= i < |closed| ==> Identities(closed)[i] == closed[i].id;
      assert forall i :: 0 <= i < n ==> Identities(closed[..n])[i] == closed[i].id;
      CutSumIsOne(closed[..n], selected, d);
    }
  }

  /** Accepted books conserve bytes in each direction: what went in came out or
      was dropped on the cut, all of it by the one selected connection, and every
      other connection delivered exactly the bytes it took. */
  lemma BytesConserved<D>(closed: seq<Connection<D>>, selected: int, total: Direction -> Aggregate, d: Direction)
    requires Balanced(closed, selected, total)
    ensures var t := total(d).counters;
            t.enqueued == t.released + t.onCut && t.onStop == 0 && t.onFailure == 0
    ensures exists cut :: 0 <= cut < |closed| && closed[cut].id == selected &&
              total(d).counters.onCut == closed[cut].flows(d).counters.onCut &&
              forall i :: 0 <= i < |closed| && i != cut ==> closed[i].id != selected && Lossless(closed[i].flows(d))
  {
    hide Lossless, Reconciled;
    assert d in DIRECTIONS by { assert DIRECTIONS[0] == ClientToWorker && DIRECTIONS[1] == WorkerToClient; }
    AllDropsOnCut(closed, selected, d);
    CutSumIsOne(closed, selected, d);
    var cut :| 0 <= cut < |closed| && Identities(closed)[cut] == selected;
    forall i | 0 <= i < |closed| && i != cut ensures closed[i].id != selected && Lossless(closed[i].flows(d)) {
      assert Identities(closed)[i] != Identities(closed)[cut];
      assert ConnectionOk(closed[i], selected);
    }
  }

  // ---- Checksums ----

  const HEX := "0123456789abcdef"

  function Nibble(d: int): char
    requires 0 <= d < 16
  {
    HEX[d]
  }

  /** bytes.hex() */
  function Hex(row: Bytes): string {
    if row == [] then "" else [Nibble(row[0] / 16), Nibble(row[0] % 16)] + Hex(row[1..])
  }

  function Digit(c: char): (d: int)
    ensures d < 16
  {
    if '0' <= c <= '9' then c as int - '0' as int else if 'a' <= c <= 'f' then c as int - 'a' as int + 10 else -1
  }

  predicate HexDigits(s: string) { forall c :: c in s ==> Digit(c) >= 0 }

  /** The pattern [0-9a-f]{128}. */
  predicate RawHex(s: string) { |s| == 128 && HexDigits(s) }

  /** bytes.fromhex() of lower-case digits. */
  function FromHex(s: string): (row: Bytes)
    requires |s| % 2 == 0 && HexDigits(s)
    ensures |row| == |s| / 2
  {
    if s == "" then []
    else
      assert s[0] in s && s[1] in s && forall c :: c in s[2..] ==> c in s;
      [16 * Digit(s[0]) + Digit(s[1])] + FromHex(s[2..])
  }

  lemma DigitNibble(d: int)
    requires 0 <= d < 16
    ensures Digit(Nibble(d)) == d
  {
  }

  lemma NibbleDigit(c: char)
    requires Digit(c) >= 0
    ensures Nibble(Digit(c)) == c
  {
  }

  lemma {:induction false} HexLowerCase(row: Bytes)
    ensures |Hex(row)| == 2 * |row| && HexDigits(Hex(row))
  {
    hide Nibble, Digit;
    if row == [] {
    } else {
      DigitNibble(row[0] / 16);
      DigitNibble(row[0] % 16);
      HexLowerCase(row[1..]);
    }
  }

  lemma {:induction false} HexRoundTrip(row: Bytes)
    ensures |Hex(row)| == 2 * |row| && HexDigits(Hex(row))
    ensures FromHex(Hex(row)) == row
  {
    hide Nibble, Digit, HexDigits;
    HexLowerCase(row);
    if row == [] {
    } else {
      HexRoundTrip(row[1..]);
      DigitNibble(row[0] / 16);
      DigitNibble(row[0] % 16);
      assert Hex(row)[2..] == Hex(row[1..]);
      assert row == [row[0]] + row[1..];
    }
  }

  lemma HexCons(b: byte, row: Bytes)
    ensures Hex([b] + row) == [Nibble(b / 16), Nibble(b % 16)] + Hex(row)
  {
    assert ([b] + row)[1..] == row;
  }

  lemma {:induction false} FromHexRoundTrip(s: string)
    requires |s| % 2 == 0 && HexDigits(s)
    ensures Hex(FromHex(s)) == s
  {
    hide Nibble, Digit, Hex;
    if s != "" {
      assert s[0] in s && s[1] in s && forall c :: c in s[2..] ==> c in s;
      FromHexRoundTrip(s[2..]);
      NibbleDigit(s[0]);
      NibbleDigit(s[1]);
      var high, low := Digit(s[0]), Digit(s[1]);
      var b := 16 * high + low;
      HexCons(b, FromHex(s[2..]));
      assert b / 16 == high && b % 16 == low;
      assert s == [s[0], s[1]] + s[2..];
    } else {
      assert Hex([]) == "" by { HexLowerCase([]); }
    }
  }

  datatype Role = Alpha | Beta

  const ROLES: seq<Role> := [Alpha, Beta]

  /** One value for each role. */
  datatype Both<+T> = Both(alpha: T, beta: T)
  {
    function Of(role: Role): T { if role == Alpha then alpha else beta }
  }

  datatype Record<+D> = Record(sourceTick: int, bytes: int, parsedTick: int, raw: Both<string>, sha: Both<D>)

  datatype Comparison<+D> = Comparison(compared: int, requested: int, frozen: bool, records: seq<Record<D>>,
                                       exactCount: int, first: int, last: int)

  predicate RecordOk<D(==)>(r: Record<D>, tick: nat, sha: Bytes -> D) {
    && r.sourceTick == tick && r.bytes == 64 && r.parsedTick == tick
    && RawHex(r.raw.alpha) && r.raw.alpha == r.raw.beta
    && r.sha.alpha == sha(FromHex(r.raw.alpha)) && r.sha.beta == sha(FromHex(r.raw.alpha))
  }

  /** The browser's comparison is the receipt the probe took before the cut: a
      frozen prefix of equal, well-formed, correctly digested rows. */
  predicate PrefixOk<D(==)>(c: Comparison<D>, receipt: Comparison<D>, sha: Bytes -> D) {
    && receipt == c
    && Uint(c.compared) && c.compared >= 120 && Uint(c.requested) && c.requested >= 120 && c.frozen
    && |c.records| == c.compared && c.exactCount == c.compared && c.first == 0 && c.last == c.compared - 1
    && forall tick :: 0 <= tick < |c.records| ==> RecordOk(c.records[tick], tick, sha)
  }

  method ChecksumPrefix<D(==)>(c: Comparison<D>, receipt: Comparison<D>, sha: Bytes -> D) returns (ok: bool)
    ensures ok <==> PrefixOk(c, receipt, sha)
  {
    hide HexDigits, FromHex;
    if receipt != c {
      return false;
    }
    if !(Uint(c.compared) && Uint(c.requested) && c.compared >= 120 && c.requested >= 120 && c.frozen) {
      return false;
    }
    if !(|c.records| == c.compared && c.exactCount == c.compared && c.first == 0 && c.last == c.compared - 1) {
      return false;
    }
    for tick := 0 to |c.records|
      invariant forall t :: 0 <= t < tick ==> RecordOk(c.records[t], t, sha)
    {
      var r := c.records[tick];
      if !(r.sourceTick == tick && r.bytes == 64 && r.parsedTick == tick) {
        return false;
      }
      if !(RawHex(r.raw.alpha) && r.raw.alpha == r.raw.beta) {
        return false;
      }
      var raw := FromHex(r.raw.alpha);
      if r.sha.alpha != sha(raw) || r.sha.beta != sha(raw) {
        return false;
      }
    }
    return true;
  }

  /** What a peer's snapshot says of its menu, its transport and its protocol. */
  datatype Health = Health(menuPhase: int, menuRunning: int, active: int, terminalKind: int, endpointClosed: bool,
                           ready: bool, mismatchCount: int, mismatches: seq<int>, divergences: int)

  /** Active in the original menu, not terminated, connected, never diverged. */
  predicate Healthy(h: Health) {
    && h.menuPhase == 1 && h.menuRunning == 1 && h.active == 1 && h.terminalKind == 0 && !h.endpointClosed
    && h.ready && h.mismatchCount == 0 && h.mismatches == [] && h.divergences == 0
  }

  /** What a peer still held when the cut was made. */
  datatype Peer = Peer(health: Health, cursor: int, sourceCursor: int, retained: seq<seq<int>>, captures: seq<Sample>)

  /** One captured controller row. */
  datatype Sample = Sample(inputTick: int, sourceCursor: int, localPort: int, bytes: seq<int>)

  predicate AllBytes(row: seq<int>) { forall b :: b in row ==> 0 <= b < 256 }

  function AsBytes(row: seq<int>): (bytes: Bytes)
    requires AllBytes(row)
    ensures |bytes| == |row| && forall i :: 0 <= i < |row| ==> bytes[i] == row[i]
  {
    if row == [] then []
    else
      assert row[0] in row && forall b :: b in row[1..] ==> b in row;
      var first: byte := row[0];
      [first] + AsBytes(row[1..])
  }

  predicate RetainedOk(row: seq<int>, raw: string) { |row| == 64 && AllBytes(row) && Hex(AsBytes(row)) == raw }

  predicate PeerOk<D>(peer: Peer, records: seq<Record<D>>, role: Role) {
    && Healthy(peer.health)
    && Uint(peer.cursor) && peer.sourceCursor == peer.cursor && peer.cursor >= |records| && |peer.retained| >= |records|
    && forall tick :: 0 <= tick < |records| ==> RetainedOk(peer.retained[tick], records[tick].raw.Of(role))
  }

  predicate PeersOk<D>(peers: Both<Peer>, records: seq<Record<D>>) {
    PeerOk(peers.alpha, records, Alpha) && PeerOk(peers.beta, records, Beta)
  }

  method PreFaultPeers<D>(peers: Both<Peer>, records: seq<Record<D>>) returns (ok: bool)
    ensures ok <==> PeersOk(peers, records)
  {
    hide Hex, AllBytes;
    for r := 0 to 2
      invariant forall q :: 0 <= q < r ==> PeerOk(peers.Of(ROLES[q]), records, ROLES[q])
    {
      var peer, h := peers.Of(ROLES[r]), peers.Of(ROLES[r]).health;
      if !(h.menuPhase == 1 && h.menuRunning == 1 && h.active == 1 && h.terminalKind == 0 && !h.endpointClosed) {
        return false;
      }
      if !(h.ready && h.mismatchCount == 0 && h.mismatches == [] && h.divergences == 0) {
        return false;
      }
      if !(Uint(peer.cursor) && peer.sourceCursor == peer.cursor && peer.cursor >= |records|
          && |peer.retained| >= |records|) {
        return false;
      }
      for tick := 0 to |records|
        invariant forall t :: 0 <= t < tick ==> RetainedOk(peer.retained[t], records[t].raw.Of(ROLES[r]))
      {
        var actual := peer.retained[tick];
        if |actual| != 64 || !AllBytes(actual) {
          return false;
        }
        if Hex(AsBytes(actual)) != records[tick].raw.Of(ROLES[r]) {
          return false;
        }
      }
    }
    assert PeerOk(peers.Of(ROLES[0]), records, ROLES[0]) && PeerOk(peers.Of(ROLES[1]), records, ROLES[1]);
    return true;
  }

  /** A JSON number. */
  datatype Number = Finite(value: real) | NotFinite

  /** How far a cursor moved on one peer's screen. */
  datatype Delta = Delta(x: Number, y: Number)

  /** Further than a hundredth: compared by squares, without a root. */
  predicate Moved(d: Delta) {
    d.x.Finite? && d.y.Finite? && d.x.value * d.x.value + d.y.value * d.y.value > 0.01 * 0.01
  }

  /** The keyboard witness of one role: the first sample that is not neutral, the
      checksum count the report says it needs, and the movement each peer saw. */
  datatype Witness = Witness(localPort: int, sample: Sample, declared: int, deltas: Both<Delta>)

  function Matches(captures: seq<Sample>, tick: int): seq<Sample> {
    if captures == [] then []
    else Matches(captures[..|captures| - 1], tick) +
         if captures[|captures| - 1].inputTick == tick then [captures[|captures| - 1]] else []
  }

  function Port(role: Role): int { if role == Alpha then 0 else 1 }

  predicate WitnessOk(w: Witness, role: Role, delay: int, captures: seq<Sample>, compared: int) {
    && w.localPort == Port(role) && w.sample.localPort == Port(role) && w.sample.inputTick == w.sample.sourceCursor
    && |w.sample.bytes| == 11 && AllBytes(w.sample.bytes) && (w.sample.bytes[2] != 0 || w.sample.bytes[3] != 0)
    && Uint(w.sample.inputTick) && Matches(captures, w.sample.inputTick) == [w.sample]
    && Uint(w.declared) && w.declared >= w.sample.inputTick + delay + 1 && compared >= w.declared
    && Moved(w.deltas.alpha) && Moved(w.deltas.beta)
  }

  predicate WitnessesOk(ws: Both<Witness>, delay: int, peers: Both<Peer>, compared: int) {
    && Uint(delay)
    && WitnessOk(ws.alpha, Alpha, delay, peers.alpha.captures, compared)
    && WitnessOk(ws.beta, Beta, delay, peers.beta.captures, compared)
  }

  method KeyboardWitness(w: Witness, role: Role, delay: int, captures: seq<Sample>, compared: int) returns (ok: bool)
    ensures ok <==> WitnessOk(w, role, delay, captures, compared)
  {
    var s, port := w.sample, if role == Beta then 1 else 0;
    if !(w.localPort == port && s.localPort == port && s.inputTick == s.sourceCursor && |s.bytes| == 11
        && AllBytes(s.bytes)
         && (s.bytes[2] != 0 || s.bytes[3] != 0) && Uint(s.inputTick)) {
      return false;
    }
    var matches: seq<Sample> := [];
    for i := 0 to |captures|
      invariant matches == Matches(captures[..i], s.inputTick)
    {
      assert captures[..i + 1][..i] == captures[..i];
      if captures[i].inputTick == s.inputTick {
        matches := matches + [captures[i]];
      }
    }
    assert captures[..|captures|] == captures;
    if !(|matches| == 1 && matches[0] == s) {
      return false;
    }
    var derived := s.inputTick + delay + 1;
    if !(Uint(w.declared) && w.declared >= derived
        && compared >= if derived > w.declared then derived else w.declared) {
      return false;
    }
    for observer := 0 to 2
      invariant forall o :: 0 <= o < observer ==> Moved(w.deltas.Of(ROLES[o]))
    {
      var d := w.deltas.Of(ROLES[observer]);
      if d.x.NotFinite? || d.y.NotFinite? {
        return false;
      }
      if d.x.value * d.x.value + d.y.value * d.y.value <= 0.0001 {
        return false;
      }
    }
    assert Moved(w.deltas.Of(ROLES[0])) && Moved(w.deltas.Of(ROLES[1]));
    return true;
  }

  method KeyboardWitnesses(ws: Both<Witness>, delay: int, peers: Both<Peer>, compared: int) returns (ok: bool)
    ensures ok <==> WitnessesOk(ws, delay, peers, compared)
  {
    hide WitnessOk;
    if !Uint(delay) {
      return false;
    }
    for r := 0 to 2
      invariant forall q :: 0 <= q < r ==>
                  WitnessOk(ws.Of(ROLES[q]), ROLES[q], delay, peers.Of(ROLES[q]).captures, compared)
    {
      ok := KeyboardWitness(ws.Of(ROLES[r]), ROLES[r], delay, peers.Of(ROLES[r]).captures, compared);
      if !ok {
        return;
      }
    }
    assert forall q :: 0 <= q < 2 ==> WitnessOk(ws.Of(ROLES[q]), ROLES[q], delay, peers.Of(ROLES[q]).captures,
           compared);
    assert ROLES[0] == Alpha && ROLES[1] == Beta;
    return true;
  }

  /** Below the compared count both peers hold the same 64-byte row, and it is the
      row whose hexadecimal form and digest the browser reported. */
  lemma PeersAgree<D>(c: Comparison<D>, receipt: Comparison<D>, sha: Bytes -> D, peers: Both<Peer>, tick: nat)
    requires PrefixOk(c, receipt, sha) && PeersOk(peers, c.records) && tick < c.compared
    ensures tick < |peers.alpha.retained| && tick < |peers.beta.retained|
    ensures var row := peers.alpha.retained[tick];
            && row == peers.beta.retained[tick] && |row| == 64 && AllBytes(row)
            && receipt.records[tick].sha.alpha == receipt.records[tick].sha.beta == sha(AsBytes(row))
  {
    hide Hex, FromHex, AllBytes, RawHex;
    assert RecordOk(c.records[tick], tick, sha);
    var a, b := peers.alpha.retained[tick], peers.beta.retained[tick];
    assert RetainedOk(a, c.records[tick].raw.Of(Alpha)) && RetainedOk(b, c.records[tick].raw.Of(Beta));
    HexRoundTrip(AsBytes(a));
    HexRoundTrip(AsBytes(b));
    assert AsBytes(a) == AsBytes(b);
    assert forall i :: 0 <= i < 64 ==> AsBytes(a)[i] == a[i] && AsBytes(b)[i] == b[i];
    assert a == b;
  }

  predicate AgreeAt(peers: Both<Peer>, tick: nat) {
    && tick < |peers.alpha.retained| && tick < |peers.beta.retained|
    && peers.alpha.retained[tick] == peers.beta.retained[tick]
  }

  /** The compared rows reach past each input that moved the cursor: the tick at
      which it took effect is one both healthy peers agree on, and no other sample
      was captured at its input tick. */
  lemma MovementCovered<D>(c: Comparison<D>, receipt: Comparison<D>, sha: Bytes -> D, peers: Both<Peer>,
                           ws: Both<Witness>, role: Role, delay: int)
    requires PrefixOk(c, receipt, sha) && PeersOk(peers, c.records) && WitnessesOk(ws, delay, peers, c.compared)
    ensures var w, captures := ws.Of(role), peers.Of(role).captures;
            && w.sample.inputTick + delay < c.compared
            && (forall tick :: 0 <= tick <= w.sample.inputTick + delay ==> AgreeAt(peers, tick))
            && w.sample in captures
            && forall i, j :: 0 <= i < j < |captures| && captures[i].inputTick == w.sample.inputTick
                          ==> captures[j].inputTick != w.sample.inputTick
  {
    hide PrefixOk, PeersOk, RecordOk, RetainedOk, Moved;
    var w, captures := ws.Of(role), peers.Of(role).captures;
    assert WitnessOk(w, role, delay, captures, c.compared);
    forall tick | 0 <= tick <= w.sample.inputTick + delay ensures AgreeAt(peers, tick)
    {
      PeersAgree(c, receipt, sha, peers, tick);
    }
    OneMatch(captures, w.sample.inputTick);
  }

  lemma {:induction false} OneMatch(captures: seq<Sample>, tick: int)
    ensures forall s :: s in Matches(captures, tick) ==> s in captures
    ensures |Matches(captures, tick)| == 0 ==> forall i :: 0 <= i < |captures| ==> captures[i].inputTick != tick
    ensures |Matches(captures, tick)| <= 1 ==>
              forall i, j :: 0 <= i < j < |captures| && captures[i].inputTick == tick ==> captures[j].inputTick != tick
  {
    if captures == [] {
    } else {
      OneMatch(captures[..|captures| - 1], tick);
    }
  }
}
