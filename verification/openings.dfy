/**
 * The opening-lesson panel: splitting UCI move strings, replaying a lesson
 * up to its current step, pairing moves into numbered rows, the step
 * counter with its prev/next/select transitions, the progress label and
 * button states, the animation's step sequence, and the category/search
 * filter over the openings table.
 */
module Openings {
  import opened Common
  import opened Chess
  import JsString

  /** One entry of the openings table; `moves` are UCI strings such as "e2e4" or "e7e8q". */
  datatype Opening = Opening(eco: string, name: string, moves: seq<string>, description: string, category: string)

  // ---------------------------------------------------------------------
  // UCI move strings

  /** `s.slice(a, b)` for `0 <= a <= b`: JavaScript clips both ends to the string. */
  function Slice(s: string, a: nat, b: nat): (r: string)
    requires a <= b
    ensures |r| == Min(b, |s|) - Min(a, |s|)
    ensures b <= |s| ==> r == s[a..b]
  {
    s[Min(a, |s|)..Min(b, |s|)]
  }

  /**
   * `{ from: m.slice(0, 2), to: m.slice(2, 4), promotion: m[4] ?? "q" }`:
   * the first two characters, the next two, and the fifth or a queen.
   */
  function ParseUci(m: string): (r: MoveRequest)
    ensures |r.from| == Min(2, |m|) && |r.to| == Max(0, Min(4, |m|) - 2)
    ensures r.from + r.to == m[..Min(4, |m|)]
    ensures |m| >= 5 ==> r.promotion == [m[4]]
    ensures |m| <= 4 ==> r.promotion == "q"
  {
    assert m[..Min(4, |m|)] == m[..Min(2, |m|)] + m[Min(2, |m|)..Min(4, |m|)];
    MoveRequest(Slice(m, 0, 2), Slice(m, 2, 4), if |m| > 4 then [m[4]] else "q")
  }

  /** The UCI text of a move request. */
  function UciText(r: MoveRequest): string {
    r.from + r.to + r.promotion
  }

  /** A request with two-character squares and a one-character promotion survives a trip through its text. */
  lemma ParseUciText(r: MoveRequest)
    requires |r.from| == 2 && |r.to| == 2 && |r.promotion| == 1
    ensures ParseUci(UciText(r)) == r
  {
    var m := UciText(r);
    assert m[..2] == r.from;
    assert m[2..4] == r.to;
    assert m[4] == r.promotion[0];
  }

  /** A five-character move is rebuilt exactly; a four-character one gains the default queen. */
  lemma UciTextParse(m: string)
    requires |m| == 4 || |m| == 5
    ensures |m| == 5 ==> UciText(ParseUci(m)) == m
    ensures |m| == 4 ==> UciText(ParseUci(m)) == m + "q"
  {
    assert m[..4] + m[4..] == m;
  }

  // ---------------------------------------------------------------------
  // Replaying a lesson

  /** One `chess.move` of a lesson; a move the board rejects leaves the position as it was. */
  function Play(apply: MoveOracle, pos: Fen, m: string): Fen {
    match apply(pos, ParseUci(m))
    case Some(a) => a.after
    case None => pos
  }

  /** The position after playing `moves` one by one from `pos`. */
  function Replay(apply: MoveOracle, pos: Fen, moves: seq<string>): Fen
    decreases |moves|
  {
    if moves == [] then pos
    else Play(apply, Replay(apply, pos, moves[..|moves| - 1]), moves[|moves| - 1])
  }

  /** How many moves are on the board at lesson step `step`: `min(step + 1, |moves|)`, never negative. */
  function MovesShown(step: int, count: nat): (n: nat)
    ensures n <= count
    ensures -1 <= step < count ==> n == step + 1
  {
    Max(0, Min(step + 1, count))
  }

  /**
   * `getFenAtStep(moves, step)`: replays moves `0..step` from the initial
   * position, stopping at the end of the list.
   */
  method FenAtStep(apply: MoveOracle, moves: seq<string>, step: int) returns (fen: Fen)
    ensures fen == Replay(apply, StartFen, moves[..MovesShown(step, |moves|)])
  {
    fen := StartFen;
    var i := 0;
    while i <= step && i < |moves|
      invariant 0 <= i <= MovesShown(step, |moves|)
      invariant fen == Replay(apply, StartFen, moves[..i])
    {
      assert moves[..i + 1][..i] == moves[..i];
      fen := Play(apply, fen, moves[i]);
      i := i + 1;
    }
  }

  /**
   * The position the panel broadcasts for a lesson step: the initial
   * position for a negative step, otherwise `FenAtStep`. Both branches
   * agree with replaying the first `step + 1` moves.
   */
  method LessonPosition(apply: MoveOracle, o: Opening, step: int) returns (fen: Fen)
    ensures fen == Replay(apply, StartFen, o.moves[..MovesShown(step, |o.moves|)])
    ensures step < 0 ==> fen == StartFen
  {
    if step < 0 {
      fen := StartFen;
    } else {
      fen := FenAtStep(apply, o.moves, step);
    }
  }

  /** Stepping forward inside a lesson plays exactly one more move. */
  lemma NextStepPlaysOneMove(apply: MoveOracle, moves: seq<string>, step: int)
    requires -1 <= step < |moves| - 1
    ensures Replay(apply, StartFen, moves[..MovesShown(step + 1, |moves|)])
         == Play(apply, Replay(apply, StartFen, moves[..MovesShown(step, |moves|)]), moves[step + 1])
  {
    assert moves[..step + 2][..step + 1] == moves[..step + 1];
  }

  // ---------------------------------------------------------------------
  // The move list

  /** One numbered row of the move list: White's move and, if any, Black's reply. */
  datatype MoveRow = MoveRow(number: int, white: string, black: Option<string>)

  /** The SAN the board reports for move `i` played after moves `0..i-1`; `None` if rejected. */
  function SanAt(apply: MoveOracle, moves: seq<string>, i: nat): Option<string>
    requires i < |moves|
  {
    match apply(Replay(apply, StartFen, moves[..i]), ParseUci(moves[i]))
    case Some(a) => Some(a.san)
    case None => None
  }

  /** Row `k` holds move `2k` and, if there is one, move `2k + 1`, with the fallbacks of `formatMoves`. */
  ghost predicate RowMatches(apply: MoveOracle, moves: seq<string>, row: MoveRow, k: nat)
    requires 2 * k < |moves|
  {
    && row.number == k + 1
    && row.white == SanAt(apply, moves, 2 * k).GetOr(moves[2 * k])
    && row.black == (if 2 * k + 1 < |moves| then SanAt(apply, moves, 2 * k + 1) else None)
  }

  /** `rows` is the complete move list for `moves`. */
  ghost predicate MoveListOf(apply: MoveOracle, moves: seq<string>, rows: seq<MoveRow>) {
    && |moves| <= 2 * |rows| <= |moves| + 1
    && forall k :: 0 <= k < |rows| ==> 2 * k < |moves| && RowMatches(apply, moves, rows[k], k)
  }

  /** One `chess.move` of `formatMoves` on the position reached so far: the new position and the SAN, if legal. */
  function PlayReporting(apply: MoveOracle, pos: Fen, m: string): (Fen, Option<string>) {
    match apply(pos, ParseUci(m))
    case Some(a) => (a.after, Some(a.san))
    case None => (pos, None)
  }

  /** Playing move `i` on the position after moves `0..i-1` reports `SanAt(i)` and reaches the next prefix. */
  lemma PlayReportingAt(apply: MoveOracle, moves: seq<string>, i: nat)
    requires i < |moves|
    ensures var p := PlayReporting(apply, Replay(apply, StartFen, moves[..i]), moves[i]);
      p.0 == Replay(apply, StartFen, moves[..i + 1]) && p.1 == SanAt(apply, moves, i)
  {
    assert moves[..i + 1][..i] == moves[..i];
  }

  /**
   * One iteration of `formatMoves`: row `k` from the position after the
   * first `2k` moves, and the position after the row's moves.
   */
  method PairRow(apply: MoveOracle, moves: seq<string>, pos: Fen, k: nat) returns (row: MoveRow, next: Fen)
    requires 2 * k < |moves| && pos == Replay(apply, StartFen, moves[..2 * k])
    ensures RowMatches(apply, moves, row, k)
    ensures 2 * k + 2 < |moves| ==> next == Replay(apply, StartFen, moves[..2 * k + 2])
  {
    var i := 2 * k;
    PlayReportingAt(apply, moves, i);
    var white := PlayReporting(apply, pos, moves[i]);
    next := white.0;
    var black: Option<string> := None;
    if i + 1 < |moves| {
      PlayReportingAt(apply, moves, i + 1);
      var reply := PlayReporting(apply, next, moves[i + 1]);
      next := reply.0;
      black := reply.1;
    }
    row := MoveRow(k + 1, white.1.GetOr(moves[i]), black);
  }

  /**
   * `formatMoves(moves)`: pairs the moves into rows numbered from 1. White's
   * entry falls back to the raw UCI text when the board rejects the move;
   * Black's entry is null when there is no reply or the board rejects it.
   */
  method FormatMoves(apply: MoveOracle, moves: seq<string>) returns (rows: seq<MoveRow>)
    ensures MoveListOf(apply, moves, rows)
  {
    var pos := StartFen;
    rows := [];
    var k := 0;
    while 2 * k < |moves|
      invariant k == |rows| && 2 * k <= |moves| + 1
      invariant 2 * k < |moves| ==> pos == Replay(apply, StartFen, moves[..2 * k])
      invariant RowsMatch(apply, moves, rows)
      decreases |moves| - 2 * k
    {
      var row;
      row, pos := PairRow(apply, moves, pos, k);
      RowsMatchExtend(apply, moves, rows, row);
      rows := rows + [row];
      k := k + 1;
    }
  }

  /** Every row so far is the row its index calls for. */
  ghost predicate RowsMatch(apply: MoveOracle, moves: seq<string>, rows: seq<MoveRow>) {
    forall k :: 0 <= k < |rows| ==> 2 * k < |moves| && RowMatches(apply, moves, rows[k], k)
  }

  lemma RowsMatchExtend(apply: MoveOracle, moves: seq<string>, rows: seq<MoveRow>, row: MoveRow)
    requires RowsMatch(apply, moves, rows) && 2 * |rows| < |moves| && RowMatches(apply, moves, row, |rows|)
    ensures RowsMatch(apply, moves, rows + [row])
  {
    var ext := rows + [row];
    forall k | 0 <= k < |ext|
      ensures 2 * k < |moves| && RowMatches(apply, moves, ext[k], k)
    {
      if k < |rows| {
        assert ext[k] == rows[k];
      }
    }
  }

  /**
   * When the board accepts every move, Black's entry is missing exactly in
   * the last row of a list with an odd number of moves.
   */
  lemma BlackMissingOnlyAtOddEnd(apply: MoveOracle, moves: seq<string>, rows: seq<MoveRow>)
    requires MoveListOf(apply, moves, rows)
    requires forall i :: 0 <= i < |moves| ==> SanAt(apply, moves, i).Some?
    ensures forall k :: 0 <= k < |rows| ==> (rows[k].black.None? <==> |moves| % 2 == 1 && k == |rows| - 1)
  {
    forall k | 0 <= k < |rows|
      ensures rows[k].black.None? <==> |moves| % 2 == 1 && k == |rows| - 1
    {
      assert RowMatches(apply, moves, rows[k], k);
      if 2 * k + 1 < |moves| {
        assert SanAt(apply, moves, 2 * k + 1).Some?;
        assert rows[k].black.Some?;
        assert !(|moves| % 2 == 1 && k == |rows| - 1);
      } else {
        assert |moves| == 2 * k + 1;
      }
    }
  }

  /** When the board accepts every move, each row shows SAN for White, never the raw UCI fallback. */
  lemma WhiteIsSanWhenLegal(apply: MoveOracle, moves: seq<string>, rows: seq<MoveRow>)
    requires MoveListOf(apply, moves, rows)
    requires forall i :: 0 <= i < |moves| ==> SanAt(apply, moves, i).Some?
    ensures forall k :: 0 <= k < |rows| ==> rows[k].white == SanAt(apply, moves, 2 * k).value
  {
    forall k | 0 <= k < |rows|
      ensures rows[k].white == SanAt(apply, moves, 2 * k).value
    {
      assert RowMatches(apply, moves, rows[k], k);
    }
  }

  // ---------------------------------------------------------------------
  // The lesson stepper

  /** The panel's lesson state: the active opening (none in browse mode) and the step, -1 before the first move. */
  datatype Lesson = Lesson(active: Option<Opening>, step: int)

  /** In a lesson the step lies in `[-1, |moves| - 1]`. */
  predicate StepInRange(l: Lesson) {
    l.active.Some? ==> -1 <= l.step <= |l.active.value.moves| - 1
  }

  /** `handleSelectOpening`: enter a lesson at its starting position. */
  function SelectOpening(l: Lesson, o: Opening): (l': Lesson)
    ensures StepInRange(l')
    ensures l'.active == Some(o) && l'.step == -1
  {
    Lesson(Some(o), -1)
  }

  /** `handlePrev`: one step back, never below -1; ignored in browse mode. */
  function Prev(l: Lesson): (l': Lesson)
    ensures l'.active == l.active
    ensures StepInRange(l) ==> StepInRange(l')
    ensures l.active.None? ==> l' == l
    ensures l.active.Some? && l.step >= 0 ==> l'.step == l.step - 1
    ensures l.active.Some? && l.step == -1 ==> l' == l
  {
    if l.active.None? then l else Lesson(l.active, Max(-1, l.step - 1))
  }

  /** `handleNext`: one step forward, never past the last move; ignored in browse mode. */
  function Next(l: Lesson): (l': Lesson)
    ensures l'.active == l.active
    ensures StepInRange(l) ==> StepInRange(l')
    ensures l.active.None? ==> l' == l
    ensures l.active.Some? && l.step < |l.active.value.moves| - 1 ==> l'.step == l.step + 1
    ensures l.active.Some? && l.step == |l.active.value.moves| - 1 ==> l' == l
  {
    if l.active.None? then l else Lesson(l.active, Min(|l.active.value.moves| - 1, l.step + 1))
  }

  /** Clicking move `index` in the move list jumps straight to it. */
  function ClickMove(l: Lesson, index: int): (l': Lesson)
    requires l.active.Some? && 0 <= index < |l.active.value.moves|
    ensures StepInRange(l') && l'.active == l.active && l'.step == index
  {
    Lesson(l.active, index)
  }

  /** The header's "shown/total" label and the two buttons' disabled flags. */
  datatype Controls = Controls(shown: int, total: int, prevDisabled: bool, nextDisabled: bool)

  function LessonControls(o: Opening, step: int): (c: Controls)
    ensures c.total == |o.moves|
    ensures c.shown >= 0
    ensures -1 <= step <= |o.moves| - 1 ==> c.shown == MovesShown(step, |o.moves|)
  {
    var progress := step + 1;
    Controls(Max(0, progress), |o.moves|, step < 0, step >= |o.moves| - 1)
  }

  /** Inside a lesson, a button is disabled exactly when pressing it would change nothing. */
  lemma DisabledIffNoEffect(l: Lesson)
    requires l.active.Some? && StepInRange(l)
    ensures LessonControls(l.active.value, l.step).prevDisabled <==> Prev(l) == l
    ensures LessonControls(l.active.value, l.step).nextDisabled <==> Next(l) == l
  {
  }

  /** The label counts the moves on the board for every step reachable in a lesson. */
  lemma ProgressCountsMoves(l: Lesson)
    requires l.active.Some? && StepInRange(l)
    ensures 0 <= LessonControls(l.active.value, l.step).shown <= |l.active.value.moves|
  {
  }

  /** The steps the animation ticks through, starting from `step` while `step < count - 1`. */
  function Ticks(step: int, count: int): seq<int>
    decreases Max(0, count - step)
  {
    if step < count - 1 then [step] + Ticks(step + 1, count) else [step]
  }

  /** `handleAnimate`: reset to -1, then emit 0, 1, ... until the last move is shown. */
  function AnimationSteps(count: int): seq<int> {
    [-1] + Ticks(0, count)
  }

  lemma {:induction false} TicksAreConsecutive(step: int, count: int)
    requires step <= count - 1
    ensures |Ticks(step, count)| == count - step
    ensures forall j :: 0 <= j < count - step ==> Ticks(step, count)[j] == step + j
    decreases count - step
  {
    if step < count - 1 {
      TicksAreConsecutive(step + 1, count);
    }
  }

  /**
   * For a lesson with moves the animation visits every step from -1 to the
   * last move once, in order. For a lesson with no moves it still emits
   * step 0, one past the last valid step.
   */
  lemma AnimationVisitsEveryStep(count: int)
    ensures count >= 1 ==> |AnimationSteps(count)| == count + 1
    ensures count >= 1 ==> forall j :: 0 <= j <= count ==> AnimationSteps(count)[j] == j - 1
    ensures count <= 0 ==> AnimationSteps(count) == [-1, 0]
  {
    if count >= 1 {
      TicksAreConsecutive(0, count);
    }
  }

  // ---------------------------------------------------------------------
  // Browsing: category toggle and search filter

  /** A category chip: clicking the selected one clears the choice, any other selects it. */
  function ToggleCategory(selected: Option<string>, cat: string): (r: Option<string>)
    ensures selected == Some(cat) ==> r.None?
    ensures selected != Some(cat) ==> r == Some(cat)
  {
    if selected == Some(cat) then None else Some(cat)
  }

  /** `!selectedCategory || o.category === selectedCategory`: no choice (null or "") matches all. */
  predicate CategoryMatches(selected: Option<string>, o: Opening) {
    selected.None? || selected.value == "" || o.category == selected.value
  }

  /** Empty search, or a case-insensitive substring of the name or ECO code. */
  predicate SearchMatches(search: string, o: Opening) {
    || search == ""
    || JsString.Includes(JsString.Lower(o.name), JsString.Lower(search))
    || JsString.Includes(JsString.Lower(o.eco), JsString.Lower(search))
  }

  predicate Keep(selected: Option<string>, search: string, o: Opening) {
    CategoryMatches(selected, o) && SearchMatches(search, o)
  }

  /** `a` is `b` with some entries removed, the rest in their original order. */
  predicate IsSubsequence<T(==)>(a: seq<T>, b: seq<T>)
    decreases |b|
  {
    if a == [] then true
    else if b == [] then false
    else if a[0] == b[0] then IsSubsequence(a[1..], b[1..])
    else IsSubsequence(a, b[1..])
  }

  /** `OPENINGS.filter(...)`: the entries kept by the category and search, in table order. */
  function Filter(table: seq<Opening>, selected: Option<string>, search: string): (r: seq<Opening>)
    ensures IsSubsequence(r, table)
    ensures forall x :: x in r ==> x in table && Keep(selected, search, x)
    ensures forall i :: 0 <= i < |table| && Keep(selected, search, table[i]) ==> table[i] in r
    ensures forall x :: multiset(r)[x] == if Keep(selected, search, x) then multiset(table)[x] else 0
    decreases |table|
  {
    if table == [] then []
    else
      assert table == [table[0]] + table[1..];
      if Keep(selected, search, table[0]) then [table[0]] + Filter(table[1..], selected, search)
      else Filter(table[1..], selected, search)
  }

  /**
   * Clicking a category chip and filtering: clicking the selected chip
   * lists every category again, clicking another one lists only that
   * category, and clicking the same chip twice from no choice (or from
   * that chip) restores the choice.
   */
  lemma ToggleCategoryFilters(table: seq<Opening>, selected: Option<string>, cat: string, search: string)
    ensures selected == Some(cat) ==> Filter(table, ToggleCategory(selected, cat), search) == Filter(table, None, search)
    ensures selected != Some(cat) && cat != "" ==>
      forall x :: x in Filter(table, ToggleCategory(selected, cat), search) ==> x.category == cat
    ensures selected.None? || selected == Some(cat) ==> ToggleCategory(ToggleCategory(selected, cat), cat) == selected
  {
  }

  /** The case of the search text does not matter. */
  lemma SearchIgnoresCase(selected: Option<string>, search: string, o: Opening)
    ensures Keep(selected, search, o) <==> Keep(selected, JsString.Lower(search), o)
  {
    JsString.LowerIdempotent(search);
  }

  /** With no category and no search the whole table is listed. */
  lemma {:induction false} FilterNothingKeepsAll(table: seq<Opening>)
    ensures Filter(table, None, "") == table
    decreases |table|
  {
    if table != [] {
      FilterNothingKeepsAll(table[1..]);
    }
  }

  /** Filtering the filtered list again changes nothing. */
  lemma {:induction false} FilterIdempotent(table: seq<Opening>, selected: Option<string>, search: string)
    ensures Filter(Filter(table, selected, search), selected, search) == Filter(table, selected, search)
    decreases |table|
  {
    if table != [] {
      FilterIdempotent(table[1..], selected, search);
      if Keep(selected, search, table[0]) {
        var r := Filter(table, selected, search);
        assert r[0] == table[0] && r[1..] == Filter(table[1..], selected, search);
      }
    }
  }

  // ---------------------------------------------------------------------
  // Two entries of the openings table, as concrete witnesses

  const Italian := Opening("C50", "Italian Game", ["e2e4", "e7e5", "g1f3", "b8c6", "f1c4"], "", "e4 Openings")
  const Sicilian := Opening("B20", "Sicilian Defense", ["e2e4", "c7c5"], "", "e4 Openings")

  /** Searching "ITALIAN" finds the Italian Game by name, whatever the case. */
  lemma SearchByNameWitness()
    ensures Keep(None, "ITALIAN", Italian)
  {
    assert JsString.Lower("ITALIAN") == "italian";
    assert JsString.Lower("Italian Game")[..7] == "italian";
  }

  /** Searching "c5" inside the e4 category finds the Italian Game by its ECO code C50. */
  lemma SearchByEcoWitness()
    ensures Keep(Some("e4 Openings"), "c5", Italian)
  {
    assert JsString.Lower("c5") == "c5";
    assert JsString.Lower("C50")[..2] == "c5";
  }

  /** The d4 category hides the Sicilian Defense. */
  lemma CategoryWitness()
    ensures !Keep(Some("d4 Openings"), "", Sicilian)
  {
  }
}
