/**
  scripts/capture_allocation_history.py: controller logs matched against the
  ordered inputs of a menu route by repeated first-match search.
*/
module MenuRoute {
  import opened Common

  /** One row of the input log; a field that is absent is None. */
  datatype Row = Row(event: Option<string>, scene: Option<int>, mode: Option<int>, command: Option<string>,
                     cur: Option<int>, hovered: Option<int>)

  /** One input of a route and the menu state it must be given in, if any. */
  datatype Pattern = Pattern(scene: int, mode: int, command: string, cur: Option<int>, hovered: Option<int>)

  predicate Input(p: Pattern, row: Row) {
    row.scene == Some(p.scene) && row.mode == Some(p.mode) && row.command == Some(p.command)
  }

  predicate InState(p: Pattern, row: Row) {
    (p.cur.Some? ==> row.cur == p.cur) && (p.hovered.Some? ==> row.hovered == p.hovered)
  }

  predicate Matches(p: Pattern, row: Row) { Input(p, row) && InState(p, row) }

  function Anywhere(scene: int, mode: int, command: string): Pattern { Pattern(scene, mode, command, None, None) }

  function Within(scene: int, mode: int, command: string, cur: int, hovered: int): Pattern {
    Pattern(scene, mode, command, Some(cur), Some(hovered))
  }

  const CSS_PROBE: seq<Pattern> := [
    Anywhere(8, 2, "PRESS B"), Anywhere(8, 2, "PRESS L"), Anywhere(8, 2, "PRESS R"), Anywhere(8, 2, "PRESS START")]

  const SOUND_MENU: seq<Pattern> := [
    Within(1, 1, "PRESS B", 2, 0), Within(1, 1, "PRESS B", 0, 1), Anywhere(0, 0, "PRESS START"),
    Within(1, 1, "PRESS A", 0, 3), Within(1, 1, "PRESS A", 4, 1), Within(1, 1, "PRESS B", 20, 0),
    Within(1, 1, "PRESS A", 4, 1), Within(1, 1, "PRESS D_DOWN", 20, 0), Within(1, 1, "PRESS D_LEFT", 20, 0),
    Within(1, 1, "PRESS B", 20, 0), Within(1, 1, "PRESS B", 4, 1), Within(1, 1, "PRESS B", 0, 3),
    Anywhere(0, 0, "PRESS START"), Within(1, 1, "PRESS A", 0, 1), Within(1, 1, "PRESS A", 2, 0)]

  const SOUND_ROUTE := CSS_PROBE + SOUND_MENU

  const MENU_ROUTE: seq<Pattern> := CSS_PROBE + [
    Pattern(1, 1, "PRESS B", Some(2), None), Pattern(1, 1, "PRESS B", Some(0), None), Anywhere(0, 0, "PRESS START"),
    Anywhere(1, 1, "PRESS DOWN"), Within(1, 1, "PRESS A", 0, 1), Within(1, 1, "PRESS A", 2, 0)]

  /** `stateful` is whether the search itself looks at the menu state. */
  predicate Hit(p: Pattern, row: Row, stateful: bool) { Input(p, row) && (stateful ==> InState(p, row)) }

  /** The first row past `after` that the pattern hits, or -1. */
  predicate IsFirst(rows: seq<Row>, p: Pattern, after: int, stateful: bool, index: int) {
    if index == -1 then forall i :: 0 <= i < |rows| && i > after ==> !Hit(p, rows[i], stateful)
    else after < index && 0 <= index < |rows| && Hit(p, rows[index], stateful)
         && forall i :: 0 <= i < index && i > after ==> !Hit(p, rows[i], stateful)
  }

  method Find(rows: seq<Row>, p: Pattern, after: int, stateful: bool) returns (index: int)
    requires after >= -1
    ensures index >= -1 && IsFirst(rows, p, after, stateful, index)
  {
    var i := after + 1;
    while i < |rows|
      invariant after < i
      invariant forall j :: 0 <= j < i && j < |rows| && j > after ==> !Hit(p, rows[j], stateful)
    {
      var row := rows[i];
      var given := row.scene == Some(p.scene) && row.mode == Some(p.mode) && row.command == Some(p.command);
      var there := (p.cur.None? || row.cur == p.cur) && (p.hovered.None? || row.hovered == p.hovered);
      if given && (!stateful || there) {
        return i;
      }
      i := i + 1;
    }
    return -1;
  }

  /** The chained searches as the verifiers make them: each starts after the
      result of the one before, and after a failure that is the log's start. */
  predicate Chained(rows: seq<Row>, ps: seq<Pattern>, stateful: bool, found: seq<int>) {
    |found| == |ps| && forall k :: 0 <= k < |ps| ==> Searched(rows, ps[k], stateful, found, k)
  }

  predicate Searched(rows: seq<Row>, p: Pattern, stateful: bool, found: seq<int>, k: nat)
    requires k < |found|
  {
    found[k] >= -1 && IsFirst(rows, p, if k == 0 then -1 else found[k - 1], stateful, found[k])
  }

  predicate AllFound(found: seq<int>) { forall k :: 0 <= k < |found| ==> found[k] >= 0 }

  /** A strictly increasing choice of rows, one for each pattern in order. */
  predicate Embeds(rows: seq<Row>, ps: seq<Pattern>, choice: seq<int>) {
    && |choice| == |ps|
    && (forall k :: 0 <= k < |choice| ==> 0 <= choice[k] < |rows| && Matches(ps[k], rows[choice[k]]))
    && (forall k :: 0 < k < |choice| ==> choice[k - 1] < choice[k])
  }

  /** The searches, one statement of the source for each pattern. */
  method Chain(rows: seq<Row>, ps: seq<Pattern>, stateful: bool) returns (found: seq<int>)
    ensures Chained(rows, ps, stateful, found)
  {
    found := [];
    for k := 0 to |ps|
      invariant Chained(rows, ps[..k], stateful, found)
    {
      assert k > 0 ==> Searched(rows, ps[..k][k - 1], stateful, found, k - 1);
      var index := Find(rows, ps[k], if k == 0 then -1 else found[k - 1], stateful);
      ghost var before := found;
      found := found + [index];
      forall j: nat | j < k ensures Searched(rows, ps[j], stateful, found, j) {
        assert Searched(rows, ps[..k][j], stateful, before, j);
      }
    }
    assert ps[..|ps|] == ps;
  }

  predicate Commands(rows: seq<Row>) {
    rows != [] && forall i :: 0 <= i < |rows| ==> rows[i].event == Some("pad_command")
  }

  /** Leftmost search never loses a match: it stays at or before any choice. */
  lemma {:induction false} GreedyFirst(rows: seq<Row>, ps: seq<Pattern>, found: seq<int>, choice: seq<int>, k: nat)
    requires Chained(rows, ps, true, found) && Embeds(rows, ps, choice) && k < |ps|
    ensures 0 <= found[k] <= choice[k]
  {
    assert Searched(rows, ps[k], true, found, k);
    if k > 0 { GreedyFirst(rows, ps, found, choice, k - 1); }
  }

  /** Every search succeeds exactly when some choice matches: a restart from the
      log's start follows a failure, which stays among the results. */
  lemma GreedyComplete(rows: seq<Row>, ps: seq<Pattern>, found: seq<int>)
    requires Chained(rows, ps, true, found)
    ensures AllFound(found) <==> exists choice :: Embeds(rows, ps, choice)
  {
    if AllFound(found) {
      forall k | 0 <= k < |ps|
        ensures 0 <= found[k] < |rows| && Matches(ps[k], rows[found[k]]) && (k > 0 ==> found[k - 1] < found[k])
      {
        assert Searched(rows, ps[k], true, found, k);
      }
      assert Embeds(rows, ps, found);
    }
    if choice :| Embeds(rows, ps, choice) {
      forall k | 0 <= k < |ps| ensures found[k] >= 0 { GreedyFirst(rows, ps, found, choice, k); }
    }
  }

  /** Accepts exactly the logs in which some increasing choice of rows matches
      all nineteen inputs of the route. */
  method VerifySoundRoute(rows: seq<Row>) returns (r: Result<nat>)
    ensures r == if Commands(rows) && exists choice :: Embeds(rows, SOUND_ROUTE, choice) then Ok(|rows|) else Rejected
  {
    if rows == [] || exists i :: 0 <= i < |rows| && rows[i].event != Some("pad_command") {
      return Rejected;
    }
    var found := Chain(rows, SOUND_ROUTE, true);
    GreedyComplete(rows, SOUND_ROUTE, found);
    if exists k :: 0 <= k < 4 && found[k] < 0 {
      return Rejected;
    }
    if exists k :: 4 <= k < |found| && found[k] < 0 {
      return Rejected;
    }
    return Ok(|rows|);
  }

  // ---- The stricter menu route ----

  /** A choice in which each row is the first that gives the input after the
      row chosen before, whatever its menu state. */
  predicate LeftmostInputs(rows: seq<Row>, ps: seq<Pattern>, choice: seq<int>) {
    Chained(rows, ps, false, choice) && AllFound(choice)
  }

  lemma {:induction false} ChainedUnique(rows: seq<Row>, ps: seq<Pattern>, stateful: bool, a: seq<int>, b: seq<int>,
                                         k: nat)
    requires Chained(rows, ps, stateful, a) && Chained(rows, ps, stateful, b) && k < |ps|
    ensures a[k] == b[k]
  {
    if k > 0 { ChainedUnique(rows, ps, stateful, a, b, k - 1); }
    assert Searched(rows, ps[k], stateful, a, k) && Searched(rows, ps[k], stateful, b, k);
  }

  function Previous(found: seq<int>, k: nat): int
    requires k <= |found|
  {
    if k == 0 then -1 else found[k - 1]
  }

  /** No row strictly between two rows of the chain gives the next input, in
      whatever state. */
  predicate Undistracted(rows: seq<Row>, ps: seq<Pattern>, found: seq<int>)
    requires |found| == |ps|
  {
    forall k :: 0 <= k < |ps| ==> ClearBefore(rows, ps[k], Previous(found, k), found[k])
  }

  predicate ClearBefore(rows: seq<Row>, p: Pattern, after: int, index: int) {
    forall i :: 0 <= i < |rows| && after < i < index ==> !Input(p, rows[i])
  }

  /** The state-blind leftmost rows are those of the stateful chain as long as the
      chain is undistracted. */
  lemma {:induction false} BlindFinds(rows: seq<Row>, ps: seq<Pattern>, found: seq<int>)
    requires Chained(rows, ps, true, found) && AllFound(found) && Undistracted(rows, ps, found)
    ensures LeftmostInputs(rows, ps, found) && Embeds(rows, ps, found)
  {
    forall k: nat | k < |ps|
      ensures Searched(rows, ps[k], false, found, k) && 0 <= found[k] < |rows| && Matches(ps[k], rows[found[k]])
      ensures k > 0 ==> found[k - 1] < found[k]
    {
      assert Searched(rows, ps[k], true, found, k);
      assert ClearBefore(rows, ps[k], Previous(found, k), found[k]);
    }
  }

  /** A blind first hit in the right state is the stateful one, with nothing
      before it. */
  lemma SameHit(rows: seq<Row>, p: Pattern, after: int, stateful: int, blind: int)
    requires after >= -1 && stateful >= -1 && 0 <= blind < |rows| && InState(p, rows[blind])
    requires IsFirst(rows, p, after, true, stateful) && IsFirst(rows, p, after, false, blind)
    ensures stateful == blind && ClearBefore(rows, p, after, stateful)
  {
    assert Hit(p, rows[blind], true);
    if stateful != -1 { assert Hit(p, rows[stateful], false); }
    assert forall i :: 0 <= i < |rows| && Input(p, rows[i]) ==> Hit(p, rows[i], false);
  }

  lemma {:induction false} BlindIsStateful(rows: seq<Row>, ps: seq<Pattern>, found: seq<int>, choice: seq<int>, k: nat)
    requires Chained(rows, ps, true, found) && Chained(rows, ps, false, choice) && Embeds(rows, ps, choice) && k < |ps|
    ensures found[k] == choice[k] && ClearBefore(rows, ps[k], Previous(found, k), found[k])
  {
    hide IsFirst, ClearBefore, Input, InState;
    if k > 0 { BlindIsStateful(rows, ps, found, choice, k - 1); }
    assert Searched(rows, ps[k], true, found, k) && Searched(rows, ps[k], false, choice, k);
    SameHit(rows, ps[k], Previous(found, k), found[k], choice[k]);
  }

  /** A log that contains the route is accepted by the state-blind search if and
      only if its stateful leftmost chain is undistracted. */
  lemma BlindExactly(rows: seq<Row>, ps: seq<Pattern>, found: seq<int>)
    requires Chained(rows, ps, true, found) && AllFound(found)
    ensures (exists choice :: LeftmostInputs(rows, ps, choice) && Embeds(rows, ps, choice))
            <==> Undistracted(rows, ps, found)
  {
    hide Embeds, ClearBefore, Searched;
    if Undistracted(rows, ps, found) { BlindFinds(rows, ps, found); }
    if choice :| LeftmostInputs(rows, ps, choice) && Embeds(rows, ps, choice) {
      forall k | 0 <= k < |ps| ensures ClearBefore(rows, ps[k], Previous(found, k), found[k]) {
        BlindIsStateful(rows, ps, found, choice, k);
      }
    }
  }

  lemma {:induction false} FirstHit(rows: seq<Row>, p: Pattern, after: int, stateful: bool, from: nat)
      returns (index: int)
    requires from <= |rows| && after >= -1 && forall i :: 0 <= i < from && i > after ==> !Hit(p, rows[i], stateful)
    ensures index >= -1 && IsFirst(rows, p, after, stateful, index)
    decreases |rows| - from
  {
    if from == |rows| {
      index := -1;
    } else if from > after && Hit(p, rows[from], stateful) {
      index := from;
    } else {
      index := FirstHit(rows, p, after, stateful, from + 1);
    }
  }

  lemma {:induction false} ChainExists(rows: seq<Row>, ps: seq<Pattern>, stateful: bool) returns (found: seq<int>)
    ensures Chained(rows, ps, stateful, found)
  {
    if ps == [] {
      found := [];
    } else {
      var n := |ps| - 1;
      var before := ChainExists(rows, ps[..n], stateful);
      if n > 0 { assert Searched(rows, ps[..n][n - 1], stateful, before, n - 1); }
      var index := FirstHit(rows, ps[n], Previous(before, n), stateful, 0);
      found := before + [index];
      forall j: nat | j < n ensures Searched(rows, ps[j], stateful, found, j) {
        assert Searched(rows, ps[..n][j], stateful, before, j);
      }
    }
  }

  /** A route's leftmost inputs alone have the right states if and only if the log
      contains the route in order and nothing strictly between the rows of its
      leftmost chain gives the next input in another state. */
  lemma MenuRouteExactly(rows: seq<Row>, ps: seq<Pattern>)
    ensures (exists choice :: LeftmostInputs(rows, ps, choice) && Embeds(rows, ps, choice))
       <==> exists found :: Chained(rows, ps, true, found) && AllFound(found) && Undistracted(rows, ps, found)
  {
    hide Embeds, Undistracted;
    var chain := ChainExists(rows, ps, true);
    GreedyComplete(rows, ps, chain);
    forall found | Chained(rows, ps, true, found) ensures found == chain {
      forall k | 0 <= k < |found| ensures found[k] == chain[k] { ChainedUnique(rows, ps, true, found, chain, k); }
    }
    if AllFound(chain) { BlindExactly(rows, ps, chain); }
  }

  /** Here the search ignores the menu state and the state is checked on what it
      found, so the log is accepted exactly when its leftmost inputs are the
      ones given in the right states. */
  /** The menu state that each input was given in, checked after the search. */
  method GivenInState(rows: seq<Row>, ps: seq<Pattern>, found: seq<int>) returns (ok: bool)
    requires |found| == |ps| && forall k :: 0 <= k < |found| ==> 0 <= found[k] < |rows|
    ensures ok <==> forall k :: 0 <= k < |found| ==> InState(ps[k], rows[found[k]])
  {
    for k := 0 to |found|
      invariant forall j :: 0 <= j < k ==> InState(ps[j], rows[found[j]])
    {
      var p, row := ps[k], rows[found[k]];
      if (p.cur.Some? && row.cur != p.cur) || (p.hovered.Some? && row.hovered != p.hovered) {
        return false;
      }
    }
    return true;
  }

  method VerifyMenuRoute(rows: seq<Row>) returns (r: Result<nat>)
    ensures r.Ok? <==> Commands(rows) && exists choice ::
              LeftmostInputs(rows, MENU_ROUTE, choice) && Embeds(rows, MENU_ROUTE, choice)
    ensures r.Ok? ==> r.value == |rows|
  {
    if rows == [] {
      return Rejected;
    }
    if exists i :: 0 <= i < |rows| && rows[i].event != Some("pad_command") {
      return Rejected;
    }
    var found := Chain(rows, MENU_ROUTE, false);
    forall choice | LeftmostInputs(rows, MENU_ROUTE, choice) ensures choice == found {
      forall k | 0 <= k < |found| ensures choice[k] == found[k] {
        ChainedUnique(rows, MENU_ROUTE, false, choice, found, k);
      }
    }
    if exists k :: 0 <= k < |found| && found[k] < 0 {
      return Rejected;
    }
    forall k | 0 <= k < |found|
      ensures found[k] < |rows| && Input(MENU_ROUTE[k], rows[found[k]]) && (k > 0 ==> found[k - 1] < found[k])
    {
      assert Searched(rows, MENU_ROUTE[k], false, found, k);
    }
    var placed := GivenInState(rows, MENU_ROUTE, found);
    if !placed {
      return Rejected;
    }
    assert LeftmostInputs(rows, MENU_ROUTE, found) && Embeds(rows, MENU_ROUTE, found);
    return Ok(|rows|);
  }

  function Given(p: Pattern): Row {
    Row(Some("pad_command"), Some(p.scene), Some(p.mode), Some(p.command), p.cur, p.hovered)
  }

  const STRAY := Row(Some("pad_command"), Some(1), Some(1), Some("PRESS B"), Some(20), Some(0))

  /** Every input of the menu route in its right state, with a stray Back press
      in another menu after the fourth. */
  function StrayLog(): (log: seq<Row>) {
    seq(11, i requires 0 <= i < 11 =>
      if i < 4 then Given(MENU_ROUTE[i]) else if i == 4 then STRAY else Given(MENU_ROUTE[i - 1]))
  }

  lemma StrayAt(i: int)
    requires 0 <= i < 11
    ensures StrayLog()[i] == if i < 4 then Given(MENU_ROUTE[i]) else if i == 4 then STRAY else Given(MENU_ROUTE[i - 1])
  {
  }

  lemma StrayEmbeds()
    ensures Embeds(StrayLog(), MENU_ROUTE, seq(10, k => if k < 4 then k else k + 1))
  {
    assert |MENU_ROUTE| == 10;
    var choice := seq(10, k => if k < 4 then k else k + 1);
    forall k | 0 <= k < 10 ensures 0 <= choice[k] < 11 && Matches(MENU_ROUTE[k], StrayLog()[choice[k]]) {
      StrayAt(choice[k]);
    }
  }

  lemma OnlyStart(i: int)
    requires 0 <= i < 11 && Input(MENU_ROUTE[3], StrayLog()[i])
    ensures i == 3
  {
    assert forall k :: 4 <= k < 10 ==> MENU_ROUTE[k].scene != 8;
    assert forall k :: 0 <= k < 3 ==> |MENU_ROUTE[k].command| < |MENU_ROUTE[3].command|;
    StrayAt(i);
  }

  /** The stricter verifier is not complete: this log gives every input of its
      route in the right state and is refused. */
  lemma MenuRouteIncomplete()
    ensures Commands(StrayLog()) && (exists choice :: Embeds(StrayLog(), MENU_ROUTE, choice))
    ensures forall choice :: !(LeftmostInputs(StrayLog(), MENU_ROUTE, choice) && Embeds(StrayLog(), MENU_ROUTE, choice))
  {
    hide Chained, Embeds;
    var log := StrayLog();
    StrayEmbeds();
    StrayCommands();
    forall choice ensures !(LeftmostInputs(log, MENU_ROUTE, choice) && Embeds(log, MENU_ROUTE, choice)) {
      StrayRefused(choice);
    }
  }

  lemma StrayCommands()
    ensures Commands(StrayLog())
  {
    forall i | 0 <= i < 11 ensures StrayLog()[i].event == Some("pad_command") { StrayAt(i); }
    assert |StrayLog()| == 11;
  }

  lemma StrayRefused(choice: seq<int>)
    ensures !(Chained(StrayLog(), MENU_ROUTE, false, choice) && Embeds(StrayLog(), MENU_ROUTE, choice))
  {
    var log := StrayLog();
    assert |MENU_ROUTE| == 10;
    StrayAt(4);
    if Chained(log, MENU_ROUTE, false, choice) && Embeds(log, MENU_ROUTE, choice) {
      assert Searched(log, MENU_ROUTE[4], false, choice, 4);
      assert Matches(MENU_ROUTE[3], log[choice[3]]) && Matches(MENU_ROUTE[4], log[choice[4]]);
      OnlyStart(choice[3]);
      assert Hit(MENU_ROUTE[4], log[4], false);
      assert false;
    }
  }

  // ---- The logs that the repository keeps as examples ----

  function Command(scene: int, mode: int, command: string): Row {
    Row(Some("pad_command"), Some(scene), Some(mode), Some(command), None, None)
  }

  function Placed(scene: int, mode: int, command: string, cur: int, hovered: int): Row {
    Command(scene, mode, command).(cur := Some(cur), hovered := Some(hovered))
  }

  /** From the character screen to the main menu's settings. */
  function SessionStart(): seq<Row> {
    [Command(8, 2, "PRESS B"), Command(8, 2, "PRESS L"), Command(8, 2, "PRESS R"), Command(8, 2, "PRESS START"),
     Placed(1, 1, "PRESS B", 2, 0), Placed(1, 1, "PRESS B", 0, 1), Command(0, 0, "PRESS START"),
     Placed(1, 1, "PRESS D_UP", 0, 0), Placed(1, 1, "PRESS D_UP", 0, 4), Placed(1, 1, "PRESS A", 0, 3),
     Placed(1, 1, "PRESS D_DOWN", 4, 0)]
  }

  /** Through the sound screen, where `edit` is pressed, and back. */
  function SessionEnd(edit: string): seq<Row> {
    [Placed(1, 1, "PRESS A", 4, 1), Placed(1, 1, "PRESS B", 20, 0), Placed(1, 1, "PRESS A", 4, 1),
     Placed(1, 1, "PRESS D_DOWN", 20, 0), Placed(1, 1, edit, 20, 0), Placed(1, 1, "PRESS B", 20, 0),
     Placed(1, 1, "PRESS B", 4, 1), Placed(1, 1, "PRESS B", 0, 3), Command(0, 0, "PRESS START"),
     Placed(1, 1, "PRESS A", 0, 1), Placed(1, 1, "PRESS A", 2, 0)]
  }

  const SESSION_CHOICE: seq<int> := [0, 1, 2, 3, 4, 5, 6, 9, 11, 12, 13, 14, 15, 16, 17, 18, 19, 20, 21]

  lemma StartMatches(k: nat)
    requires k < 8
    ensures |SessionStart()| == 11 && |SOUND_ROUTE| == 19
    ensures Matches(SOUND_ROUTE[k], SessionStart()[SESSION_CHOICE[k]])
  {
    var log := SessionStart();
    if k < 4 {
      assert SOUND_ROUTE[k] == CSS_PROBE[k];
    } else {
      assert SOUND_ROUTE[k] == SOUND_MENU[k - 4];
    }
  }

  lemma EndMatches(k: nat)
    requires 8 <= k < 19
    ensures |SessionEnd("PRESS D_LEFT")| == 11 && |SOUND_ROUTE| == 19
    ensures Matches(SOUND_ROUTE[k], SessionEnd("PRESS D_LEFT")[k - 8])
  {
    assert SOUND_ROUTE[k] == SOUND_MENU[k - 4];
  }

  lemma SessionMatches(k: nat)
    requires k < 19
    ensures var log := SessionStart() + SessionEnd("PRESS D_LEFT");
            |log| == 22 && |SOUND_ROUTE| == 19 && Matches(SOUND_ROUTE[k], log[SESSION_CHOICE[k]])
  {
    hide Matches, SessionStart, SessionEnd;
    StartMatches(0);
    EndMatches(8);
    if k < 8 { StartMatches(k); } else { EndMatches(k); }
  }

  /** The sound session with its balance turned down takes the route. */
  lemma SoundSessionTakesRoute()
    ensures Embeds(SessionStart() + SessionEnd("PRESS D_LEFT"), SOUND_ROUTE, SESSION_CHOICE)
  {
    hide Matches, SessionStart, SessionEnd;
    var log := SessionStart() + SessionEnd("PRESS D_LEFT");
    SessionMatches(0);
    forall k | 0 <= k < 19 ensures Matches(SOUND_ROUTE[k], log[SESSION_CHOICE[k]]) { SessionMatches(k); }
  }

  lemma NeverLeft(i: nat)
    requires i < 22
    ensures var log := SessionStart() + SessionEnd("PRESS D_RIGHT");
            |log| == 22 && log[i].command.Some? && (|log[i].command.value| > 8 ==> log[i].command.value[8] != 'L')
  {
    var log := SessionStart() + SessionEnd("PRESS D_RIGHT");
    if i < 11 { assert log[i] == SessionStart()[i]; } else { assert log[i] == SessionEnd("PRESS D_RIGHT")[i - 11]; }
  }

  /** With the balance turned the other way it does not. */
  lemma OtherSessionMissesRoute(choice: seq<int>)
    ensures !Embeds(SessionStart() + SessionEnd("PRESS D_RIGHT"), SOUND_ROUTE, choice)
  {
    hide SessionStart, SessionEnd;
    var log := SessionStart() + SessionEnd("PRESS D_RIGHT");
    NeverLeft(0);
    EndMatches(12);
    if Embeds(log, SOUND_ROUTE, choice) {
      assert Matches(SOUND_ROUTE[12], log[choice[12]]) && "PRESS D_LEFT"[8] == 'L';
      NeverLeft(choice[12]);
    }
  }

  /** The session of the menu route, row by row. */
  function MenuSession(): seq<Row> {
    [Command(8, 2, "PRESS B"), Command(8, 2, "PRESS L"), Command(8, 2, "PRESS R"), Command(8, 2, "PRESS START"),
     Placed(1, 1, "PRESS B", 2, 0), Placed(1, 1, "PRESS B", 0, 1), Command(0, 0, "PRESS START"),
     Placed(1, 1, "PRESS DOWN", 0, 0), Placed(1, 1, "PRESS A", 0, 1), Placed(1, 1, "PRESS A", 2, 0)]
  }

  lemma MenuMatches(k: nat)
    requires k < 10
    ensures |MenuSession()| == 10 == |MENU_ROUTE| && Matches(MENU_ROUTE[k], MenuSession()[k])
  {
    if k < 4 { assert MENU_ROUTE[k] == CSS_PROBE[k]; }
  }

  lemma MenuSessionTakesRoute()
    ensures var choice := seq(10, k => k);
            LeftmostInputs(MenuSession(), MENU_ROUTE, choice) && Embeds(MenuSession(), MENU_ROUTE, choice)
  {
    hide MenuSession, Input, InState;
    MenuMatches(0);
    forall k | 0 <= k < 10 ensures Matches(MENU_ROUTE[k], MenuSession()[k]) { MenuMatches(k); }
  }
}
