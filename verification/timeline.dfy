/**
 * The game timeline of the main screen: a flat list of positions, a cursor
 * into it, and the position on display. A successful move discards every
 * position after the cursor before appending; back and forward step the
 * cursor and stop at either end; random access clamps.
 */
module Timeline {
  import opened Common
  import opened Chess
  import JsString

  /** `history`, `historyIndex` and `currentFen` of the main screen. */
  datatype Timeline = Timeline(history: seq<Fen>, index: int, current: Fen)

  /** The list is non-empty, the cursor is in range, and the display shows `history[index]`. */
  predicate Valid(t: Timeline) {
    && |t.history| > 0
    && 0 <= t.index < |t.history|
    && t.current == t.history[t.index]
  }

  /** Whether the cursor is on the newest position. */
  predicate AtEnd(t: Timeline)
    requires Valid(t)
  {
    t.index == |t.history| - 1
  }

  /** The state a fresh game starts in: one position, cursor on it. */
  function Init(start: Fen): (t: Timeline)
    ensures Valid(t) && AtEnd(t)
    ensures t.current == start && t.history == [start]
  {
    Timeline([start], 0, start)
  }

  /** `loadFenAt(index)`: move the cursor to `index` clamped into the list; the list is kept. */
  function LoadFenAt(t: Timeline, i: int): (t': Timeline)
    requires Valid(t)
    ensures Valid(t')
    ensures t'.history == t.history
    ensures 0 <= i < |t.history| ==> t'.index == i
    ensures i < 0 ==> t'.index == 0
    ensures i >= |t.history| ==> t'.index == |t.history| - 1
  {
    var bounded := Clamp(i, 0, |t.history| - 1);
    Timeline(t.history, bounded, t.history[bounded])
  }

  /** What `handleMove` returns and the state it leaves. */
  datatype MoveOutcome = MoveOutcome(accepted: bool, timeline: Timeline)

  /**
   * `handleMove(from, to)`: ask the rules library for the move, always with
   * queen promotion. A rejected move changes nothing; an accepted one keeps
   * the positions up to the cursor, appends the new one, and puts the cursor
   * on it.
   */
  function HandleMove(t: Timeline, apply: MoveOracle, from: string, to: string): (r: MoveOutcome)
    requires Valid(t)
    ensures Valid(r.timeline)
    ensures r.accepted <==> apply(t.current, MoveRequest(from, to, "q")).Some?
    ensures !r.accepted ==> r.timeline == t
    ensures r.accepted ==>
      && |r.timeline.history| == t.index + 2
      && r.timeline.history[..t.index + 1] == t.history[..t.index + 1]
      && r.timeline.current == apply(t.current, MoveRequest(from, to, "q")).value.after
      && AtEnd(r.timeline)
  {
    match apply(t.current, MoveRequest(from, to, "q"))
    case None => MoveOutcome(false, t)
    case Some(applied) =>
      var next := t.history[..t.index + 1] + [applied.after];
      MoveOutcome(true, Timeline(next, |next| - 1, applied.after))
  }

  /** `handleBack`: one step towards the start, nothing at the start. */
  function Back(t: Timeline): (t': Timeline)
    requires Valid(t)
    ensures Valid(t') && t'.history == t.history
    ensures t.index == 0 ==> t' == t
    ensures t.index > 0 ==> t'.index == t.index - 1
  {
    if t.index > 0 then LoadFenAt(t, t.index - 1) else t
  }

  /** `handleForward`: one step towards the newest position, nothing at the end. */
  function Forward(t: Timeline): (t': Timeline)
    requires Valid(t)
    ensures Valid(t') && t'.history == t.history
    ensures AtEnd(t) ==> t' == t
    ensures !AtEnd(t) ==> t'.index == t.index + 1
  {
    if t.index < |t.history| - 1 then LoadFenAt(t, t.index + 1) else t
  }

  /** `handleUndo`: delegates to back, so it never removes a position. */
  function Undo(t: Timeline): (t': Timeline)
    requires Valid(t)
    ensures Valid(t') && t'.history == t.history
    ensures t.index == 0 ==> t' == t
    ensures t.index > 0 ==> t'.index == t.index - 1 && t'.current == t.history[t.index - 1]
  {
    Back(t)
  }

  /** The `disableForward` flag handed to the board panel. */
  function DisableForward(t: Timeline): (r: bool)
    requires Valid(t)
    ensures r <==> AtEnd(t)
    ensures r <==> Forward(t) == t
  {
    t.index >= |t.history| - 1
  }

  /** The element a key event was aimed at, if any. */
  datatype Target = NoTarget | Element(tagName: Option<string>, isContentEditable: bool)

  datatype KeyEvent = KeyEvent(key: string, target: Target)

  /** The keyboard handler's effect: the new state and whether it called `preventDefault`. */
  datatype KeyOutcome = KeyOutcome(timeline: Timeline, preventDefault: bool)

  /** Typing into a form field or an editable element is not navigation. */
  predicate IsEditable(target: Target)
    ensures IsEditable(target) ==> target.Element?
    ensures target.Element? && target.isContentEditable ==> IsEditable(target)
  {
    match target
    case NoTarget => false
    case Element(tag, editable) =>
      || (tag.Some? && JsString.Lower(tag.value) in {"input", "textarea", "select"})
      || editable
  }

  /** The tag name is lower-cased before the comparison, so its case never matters. */
  lemma EditableIgnoresTagCase(tag: string, editable: bool)
    ensures IsEditable(Element(Some(tag), editable)) <==> IsEditable(Element(Some(JsString.Lower(tag)), editable))
  {
    JsString.LowerIdempotent(tag);
  }

  /** The window `keydown` handler: ArrowLeft is back, ArrowRight is forward. */
  function HandleKey(t: Timeline, ev: KeyEvent): (r: KeyOutcome)
    requires Valid(t)
    ensures Valid(r.timeline) && r.timeline.history == t.history
    ensures IsEditable(ev.target) ==> r == KeyOutcome(t, false)
    ensures !IsEditable(ev.target) && ev.key == "ArrowLeft" ==> r == KeyOutcome(Back(t), true)
    ensures !IsEditable(ev.target) && ev.key == "ArrowRight" ==> r == KeyOutcome(Forward(t), true)
    ensures ev.key !in {"ArrowLeft", "ArrowRight"} ==> r == KeyOutcome(t, false)
  {
    if IsEditable(ev.target) then KeyOutcome(t, false)
    else if ev.key == "ArrowLeft" then KeyOutcome(Back(t), true)
    else if ev.key == "ArrowRight" then KeyOutcome(Forward(t), true)
    else KeyOutcome(t, false)
  }

  // ---------------------------------------------------------------------
  // Navigation round trips

  /** Forward undoes a back step taken away from the start. */
  lemma ForwardUndoesBack(t: Timeline)
    requires Valid(t) && t.index > 0
    ensures Forward(Back(t)) == t
  {
  }

  /** Back undoes a forward step taken away from the end. */
  lemma BackUndoesForward(t: Timeline)
    requires Valid(t) && !AtEnd(t)
    ensures Back(Forward(t)) == t
  {
  }

  /** After an accepted move, back shows the position the move was played from. */
  lemma BackAfterMove(t: Timeline, apply: MoveOracle, from: string, to: string)
    requires Valid(t)
    requires HandleMove(t, apply, from, to).accepted
    ensures Back(HandleMove(t, apply, from, to).timeline).current == t.current
    ensures Back(HandleMove(t, apply, from, to).timeline).index == t.index
  {
  }

  /** `k` presses of back. */
  function BackSteps(t: Timeline, k: nat): (t': Timeline)
    requires Valid(t)
    ensures Valid(t') && t'.history == t.history
    decreases k
  {
    if k == 0 then t else BackSteps(Back(t), k - 1)
  }

  /** Back pressed `k` times lands on `max(0, index - k)`. */
  lemma {:induction false} BackStepsIndex(t: Timeline, k: nat)
    requires Valid(t)
    ensures BackSteps(t, k).index == Max(0, t.index - k)
    decreases k
  {
    if k > 0 {
      BackStepsIndex(Back(t), k - 1);
    }
  }

  /**
   * Going back `k` steps and then playing a legal move leaves
   * `max(0, index - k) + 2` positions: the redo branch is gone.
   */
  lemma BranchAfterBackSteps(t: Timeline, k: nat, apply: MoveOracle, from: string, to: string)
    requires Valid(t)
    requires HandleMove(BackSteps(t, k), apply, from, to).accepted
    ensures |HandleMove(BackSteps(t, k), apply, from, to).timeline.history| == Max(0, t.index - k) + 2
    ensures HandleMove(BackSteps(t, k), apply, from, to).timeline.history[..Max(0, t.index - k) + 1]
         == t.history[..Max(0, t.index - k) + 1]
  {
    BackStepsIndex(t, k);
  }

  // ---------------------------------------------------------------------
  // Every position in the list follows from its predecessor by one move

  /** `q` is reachable from `p` by one move the board accepts. */
  ghost predicate Successor(apply: MoveOracle, p: Fen, q: Fen) {
    exists from: string, to: string ::
      apply(p, MoveRequest(from, to, "q")).Some? && apply(p, MoveRequest(from, to, "q")).value.after == q
  }

  /** The list has no gaps: each entry is one move after the previous one. */
  ghost predicate Linked(apply: MoveOracle, h: seq<Fen>) {
    forall i :: 0 <= i < |h| - 1 ==> Successor(apply, h[i], h[i + 1])
  }

  /** The user actions of the main screen that touch the timeline. */
  datatype Action = Move(from: string, to: string) | BackAction | ForwardAction | UndoAction | Key(ev: KeyEvent)

  /** The state after one action. */
  function Step(t: Timeline, apply: MoveOracle, a: Action): (t': Timeline)
    requires Valid(t)
    ensures Valid(t')
    ensures !a.Move? ==> t'.history == t.history
  {
    match a
    case Move(from, to) => HandleMove(t, apply, from, to).timeline
    case BackAction => Back(t)
    case ForwardAction => Forward(t)
    case UndoAction => Undo(t)
    case Key(ev) => HandleKey(t, ev).timeline
  }

  /** The state after a sequence of actions, oldest first. */
  function Run(t: Timeline, apply: MoveOracle, actions: seq<Action>): (t': Timeline)
    requires Valid(t)
    ensures Valid(t')
    ensures (forall i :: 0 <= i < |actions| ==> !actions[i].Move?) ==> t'.history == t.history
    decreases |actions|
  {
    if actions == [] then t else Run(Step(t, apply, actions[0]), apply, actions[1..])
  }

  /** One action keeps the list gap-free. */
  lemma StepKeepsLinked(t: Timeline, apply: MoveOracle, a: Action)
    requires Valid(t) && Linked(apply, t.history)
    ensures Linked(apply, Step(t, apply, a).history)
  {
    if a.Move? {
      var r := HandleMove(t, apply, a.from, a.to);
      if r.accepted {
        var h := r.timeline.history;
        forall i | 0 <= i < |h| - 1
          ensures Successor(apply, h[i], h[i + 1])
        {
          if i < t.index {
            assert h[i] == t.history[i] && h[i + 1] == t.history[i + 1];
          } else {
            assert h[i] == t.current;
            assert apply(h[i], MoveRequest(a.from, a.to, "q")).value.after == h[i + 1];
          }
        }
      }
    }
  }

  /** Every sequence of actions from a fresh game keeps the list gap-free. */
  lemma {:induction false} RunKeepsLinked(t: Timeline, apply: MoveOracle, actions: seq<Action>)
    requires Valid(t) && Linked(apply, t.history)
    ensures Linked(apply, Run(t, apply, actions).history)
    decreases |actions|
  {
    if actions != [] {
      StepKeepsLinked(t, apply, actions[0]);
      RunKeepsLinked(Step(t, apply, actions[0]), apply, actions[1..]);
    }
  }

  /** A fresh game is trivially gap-free. */
  lemma InitLinked(apply: MoveOracle, start: Fen)
    ensures Linked(apply, Init(start).history)
  {
  }

  // ---------------------------------------------------------------------
  // A worked scenario

  /**
   * Start, play e2e4, go back, play d2d4: the list is [start, after d4],
   * the cursor is on the new move, and the position after e4 is gone.
   */
  lemma BranchScenario(apply: MoveOracle, e4: Applied, d4: Applied)
    requires apply(StartFen, MoveRequest("e2", "e4", "q")) == Some(e4)
    requires apply(StartFen, MoveRequest("d2", "d4", "q")) == Some(d4)
    requires e4.after != d4.after
    ensures
      var t1 := HandleMove(Init(StartFen), apply, "e2", "e4").timeline;
      var t2 := Back(t1);
      var t3 := HandleMove(t2, apply, "d2", "d4").timeline;
      && t1.history == [StartFen, e4.after] && t1.index == 1
      && t2.index == 0 && t2.current == StartFen
      && t3.history == [StartFen, d4.after] && t3.index == 1
      && e4.after !in t3.history[1..]
  {
    var t1 := HandleMove(Init(StartFen), apply, "e2", "e4").timeline;
    assert t1.history == [StartFen] + [e4.after];
    var t3 := HandleMove(Back(t1), apply, "d2", "d4").timeline;
    assert t3.history == [StartFen] + [d4.after];
  }
}
