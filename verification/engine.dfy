/**
 * The analysis hook: a local engine worker that is loaded once, a sticky
 * "engine failed" flag that routes every later request to the cloud
 * evaluation service, the three commands an analysis sends to the worker,
 * the parsing of `bestmove` replies, and the extraction of the first move
 * of the cloud service's first line.
 *
 * The worker, the dynamic import and the network are not run: their
 * outcomes arrive as values (`LoadOutcome`, `WorkerEvent`, `CloudReply`).
 */
module Engine {
  import opened Common
  import JsString

  // ---------------------------------------------------------------------
  // Cloud evaluation fallback

  /** One candidate line of a cloud evaluation; `moves` is a space-separated UCI list, possibly absent. */
  datatype Pv = Pv(moves: Option<string>)

  /** The decoded JSON body; `pvs` may be absent. */
  datatype CloudBody = CloudBody(pvs: Option<seq<Pv>>)

  /**
   * What the cloud request produced: the fetch failed outright, or a reply
   * with its `ok` flag and a body that did (`Some`) or did not (`None`)
   * decode as JSON.
   */
  datatype CloudReply = NetworkFailure | HttpReply(ok: bool, body: Option<CloudBody>)

  /** The first line's move list is present and non-empty (a non-empty string is truthy). */
  predicate HasFirstLine(r: CloudReply) {
    && r.HttpReply? && r.ok && r.body.Some?
    && r.body.value.pvs.Some? && |r.body.value.pvs.value| > 0
    && r.body.value.pvs.value[0].moves.Some? && r.body.value.pvs.value[0].moves.value != ""
  }

  /**
   * `fetchLichessEval`: the first token of the first line's moves, or null
   * for a failed request, a non-ok status, an undecodable body, a missing or
   * empty `pvs`, or a missing or empty move list.
   */
  function CloudBestMove(r: CloudReply): (m: Option<string>)
    ensures m.Some? <==> HasFirstLine(r)
    ensures m.Some? ==> m.value == JsString.FirstToken(r.body.value.pvs.value[0].moves.value)
    ensures m.Some? ==> JsString.Space !in m.value
    ensures m.Some? ==> JsString.StartsWith(r.body.value.pvs.value[0].moves.value, m.value)
  {
    match r
    case NetworkFailure => None
    case HttpReply(ok, body) =>
      if !ok then None
      else match body
        case None => None
        case Some(data) =>
          if data.pvs.Some? && |data.pvs.value| > 0 && data.pvs.value[0].moves.Some? && data.pvs.value[0].moves.value != ""
          then Some(JsString.FirstToken(data.pvs.value[0].moves.value))
          else None
  }

  /** The first move of a line made of space-free moves is its first move. */
  lemma CloudBestMoveIsFirstMove(r: CloudReply, line: seq<string>)
    requires |line| >= 1 && line[0] != ""
    requires forall i :: 0 <= i < |line| ==> JsString.Space !in line[i]
    requires r == HttpReply(true, Some(CloudBody(Some([Pv(Some(JsString.Join(line)))]))))
    ensures CloudBestMove(r) == Some(line[0])
  {
    JsString.SplitJoin(line);
    assert JsString.Join(line) != "" by {
      assert JsString.Split(JsString.Join(line))[0] == line[0];
    }
  }

  // ---------------------------------------------------------------------
  // Worker messages

  /** The `data` field of a worker event. */
  datatype Payload = Text(text: string) | NonText | Nullish

  /** What the worker hands to `onmessage`: a bare string, an event object, or nothing. */
  datatype WorkerEvent = StringEvent(s: string) | ObjectEvent(data: Payload) | NullishEvent

  /**
   * `typeof event === "string" ? event : event?.data ?? ""`, kept only when
   * it is a string: `None` stands for a non-string payload.
   */
  function MessageOf(e: WorkerEvent): (m: Option<string>)
    ensures e.StringEvent? ==> m == Some(e.s)
    ensures e.ObjectEvent? && e.data.Text? ==> m == Some(e.data.text)
    ensures e.NullishEvent? || e == ObjectEvent(Nullish) ==> m == Some("")
    ensures m.None? <==> e == ObjectEvent(NonText)
  {
    match e
    case StringEvent(s) => Some(s)
    case NullishEvent => Some("")
    case ObjectEvent(Nullish) => Some("")
    case ObjectEvent(Text(s)) => Some(s)
    case ObjectEvent(NonText) => None
  }

  // ---------------------------------------------------------------------
  // The hook's state

  /**
   * `loaded`: a worker was stored in the ref; `wasmFailed`: the sticky
   * failure flag; `usingFallback`, `thinking`, `bestMove`: the hook's
   * state; `sent`: every command posted to the worker, oldest first;
   * `pendingFetches`: cloud requests not yet answered.
   */
  datatype Hook = Hook(
    loaded: bool,
    wasmFailed: bool,
    usingFallback: bool,
    thinking: bool,
    bestMove: Option<string>,
    sent: seq<string>,
    pendingFetches: nat)

  const Initial := Hook(false, false, false, false, None, [], 0)

  /** Every place that sets the failure flag also switches to the fallback, and only a loaded worker receives commands. */
  predicate Consistent(h: Hook) {
    && (h.wasmFailed ==> h.usingFallback)
    && (h.sent != [] ==> h.loaded)
  }

  /** How loading the worker went: the import threw, was rejected, the factory threw, posting "uci" threw, or it started. */
  datatype LoadOutcome = ImportThrows | ImportRejected | FactoryThrows | UciPostThrows | Started

  /**
   * The mount effect: skipped once loading has failed; otherwise a started
   * worker is stored and sent "uci", and any failure sets the sticky flag
   * together with the fallback flag. When posting "uci" throws, the worker
   * is already stored.
   */
  function Mount(h: Hook, outcome: LoadOutcome): (h': Hook)
    ensures Consistent(h) ==> Consistent(h')
    ensures h.wasmFailed ==> h' == h
    ensures !h.wasmFailed && outcome == Started ==> !h'.wasmFailed && h'.loaded && h'.sent == h.sent + ["uci"]
    ensures !h.wasmFailed && outcome != Started ==> h'.wasmFailed && h'.usingFallback && h'.sent == h.sent
    ensures !h.wasmFailed && outcome == UciPostThrows ==> h'.loaded
    ensures !h.wasmFailed && outcome !in {Started, UciPostThrows} ==> h'.loaded == h.loaded
    ensures !h.wasmFailed && outcome == Started ==> h'.usingFallback == h.usingFallback
    ensures h'.thinking == h.thinking && h'.bestMove == h.bestMove && h'.pendingFetches == h.pendingFetches
  {
    if h.wasmFailed then h
    else match outcome
      case Started => h.(loaded := true, sent := h.sent + ["uci"])
      case UciPostThrows => h.(loaded := true, wasmFailed := true, usingFallback := true)
      case _ => h.(wasmFailed := true, usingFallback := true)
  }

  /**
   * `onmessage`: a message starting with "bestmove" stores its second
   * space-separated token (`None` when there is none, JavaScript's
   * `undefined`) and ends thinking; anything else changes nothing.
   */
  function OnMessage(h: Hook, e: WorkerEvent): (h': Hook)
    ensures var m := MessageOf(e);
      m.Some? && JsString.StartsWith(m.value, "bestmove") ==>
        h' == h.(bestMove := JsString.Token(m.value, 1), thinking := false)
    ensures var m := MessageOf(e);
      !(m.Some? && JsString.StartsWith(m.value, "bestmove")) ==> h' == h
    ensures h'.bestMove.Some? && h'.bestMove != h.bestMove ==> JsString.Space !in h'.bestMove.value
  {
    match MessageOf(e)
    case Some(msg) =>
      if JsString.StartsWith(msg, "bestmove") then h.(bestMove := JsString.Token(msg, 1), thinking := false)
      else h
    case None => h
  }

  /** The reply keyword is a single token. */
  lemma KeywordHasNoSpace()
    ensures JsString.Space !in "bestmove"
  {
    var w := "bestmove";
    assert w[0] != ' ' && w[1] != ' ' && w[2] != ' ' && w[3] != ' ' && w[4] != ' ' && w[5] != ' ' && w[6] != ' ' && w[7] != ' ';
  }

  /** The engine's answer for a space-free move text is that move, and thinking ends. */
  lemma BestmoveReplyParsed(h: Hook, move: string, rest: seq<string>)
    requires JsString.Space !in move
    ensures OnMessage(h, StringEvent(JsString.Join(["bestmove", move] + rest))).bestMove == Some(move)
    ensures !OnMessage(h, StringEvent(JsString.Join(["bestmove", move] + rest))).thinking
  {
    ReplyTokens(move, rest);
  }

  /** A space-joined reply line starts with its keyword and has the move as second token. */
  lemma ReplyTokens(move: string, rest: seq<string>)
    requires JsString.Space !in move
    ensures JsString.StartsWith(JsString.Join(["bestmove", move] + rest), "bestmove")
    ensures JsString.Token(JsString.Join(["bestmove", move] + rest), 1) == Some(move)
  {
    KeywordHasNoSpace();
    JsString.SecondToken("bestmove", move, rest);
  }

  /** A line that does not start with "bestmove", such as a progress line, leaves the state alone. */
  lemma InfoLineIgnored(h: Hook)
    ensures OnMessage(h, StringEvent("info depth 10 score cp 31 pv e2e4")) == h
  {
    var line := "info depth 10 score cp 31 pv e2e4";
    assert !JsString.StartsWith(line, "bestmove") by {
      assert line[..8][0] == 'i';
    }
  }

  const DefaultDepth: nat := 15

  /** The three commands an analysis posts to a ready worker, in order. */
  function AnalysisCommands(fen: string, depth: nat): (cmds: seq<string>)
    ensures |cmds| == 3 && cmds[0] == "uci"
  {
    ["uci", "position fen " + fen, "go depth " + JsString.NatToString(depth)]
  }

  /**
   * The worker can read the request back: the position command carries the
   * FEN after its keyword, and the search command carries the depth in
   * decimal after its keyword.
   */
  lemma AnalysisCommandsReadBack(fen: string, depth: nat)
    ensures var cmds := AnalysisCommands(fen, depth);
      && JsString.StartsWith(cmds[1], "position fen ") && cmds[1][13..] == fen
      && JsString.StartsWith(cmds[2], "go depth ")
      && (forall i :: 9 <= i < |cmds[2]| ==> JsString.IsDigit(cmds[2][i]))
      && JsString.ParseDigits(cmds[2][9..]) == depth
  {
    var cmds := AnalysisCommands(fen, depth);
    var digits := JsString.NatToString(depth);
    assert cmds[1] == "position fen " + fen;
    assert cmds[2] == "go depth " + digits;
    assert cmds[2][9..] == digits;
    JsString.ParseNatToString(depth);
  }

  /** Whether a request goes to the local worker: it is stored and loading has not failed. */
  predicate UsesEngine(h: Hook) {
    h.loaded && !h.wasmFailed
  }

  /**
   * The synchronous part of `analyzePosition(fen, depth)`: thinking is set
   * and the best move cleared; a ready worker receives the three commands
   * and thinking stays on; otherwise the fallback flag is set and a cloud
   * request is outstanding.
   */
  function BeginAnalysis(h: Hook, fen: string, depth: nat): (h': Hook)
    ensures Consistent(h) ==> Consistent(h')
    ensures h'.thinking && h'.bestMove.None?
    ensures h'.loaded == h.loaded && h'.wasmFailed == h.wasmFailed
    ensures UsesEngine(h) ==>
      h'.sent == h.sent + AnalysisCommands(fen, depth) && h'.usingFallback == h.usingFallback
      && h'.pendingFetches == h.pendingFetches
    ensures !UsesEngine(h) ==>
      h'.sent == h.sent && h'.usingFallback && h'.pendingFetches == h.pendingFetches + 1
  {
    var started := h.(thinking := true, bestMove := None);
    if UsesEngine(h) then started.(sent := h.sent + AnalysisCommands(fen, depth))
    else started.(usingFallback := true, pendingFetches := h.pendingFetches + 1)
  }

  /** A cloud reply arrives: its best move (or null) is stored and thinking ends. */
  function SettleFallback(h: Hook, r: CloudReply): (h': Hook)
    requires h.pendingFetches > 0
    ensures Consistent(h) ==> Consistent(h')
    ensures !h'.thinking && h'.bestMove == CloudBestMove(r)
    ensures h'.pendingFetches == h.pendingFetches - 1
    ensures h'.sent == h.sent && h'.wasmFailed == h.wasmFailed && h'.usingFallback == h.usingFallback
    ensures h'.loaded == h.loaded
  {
    h.(bestMove := CloudBestMove(r), thinking := false, pendingFetches := h.pendingFetches - 1)
  }

  /** `analyzePosition(fen)` with the default depth sends "go depth 15". */
  lemma DefaultDepthCommand(h: Hook, fen: string)
    requires UsesEngine(h)
    ensures BeginAnalysis(h, fen, DefaultDepth).sent[|h.sent| + 2] == "go depth 15"
  {
    assert JsString.NatToString(15) == "15";
  }

  /** An analysis on the fallback path, answered at once, ends with the cloud's move and thinking off. */
  lemma FallbackAnalysisSettles(h: Hook, fen: string, depth: nat, r: CloudReply)
    requires !UsesEngine(h)
    ensures var h' := SettleFallback(BeginAnalysis(h, fen, depth), r);
      !h'.thinking && h'.usingFallback && h'.bestMove == CloudBestMove(r) && h'.sent == h.sent
  {
  }

  // ---------------------------------------------------------------------
  // Runs of events

  /** Everything that can happen to the hook. */
  datatype Event =
    | MountEffect(outcome: LoadOutcome)
    | WorkerMessage(e: WorkerEvent)
    | Analyze(fen: string, depth: nat)
    | CloudAnswer(reply: CloudReply)

  /**
   * One event. Worker messages reach the hook only once a worker is stored
   * (the handler is attached to it); a cloud answer only settles a request
   * that is outstanding.
   */
  function Step(h: Hook, ev: Event): (h': Hook)
    ensures Consistent(h) ==> Consistent(h')
    ensures h.wasmFailed ==> h'.wasmFailed && h'.sent == h.sent
    ensures h.usingFallback ==> h'.usingFallback
  {
    match ev
    case MountEffect(outcome) => Mount(h, outcome)
    case WorkerMessage(e) => if h.loaded then OnMessage(h, e) else h
    case Analyze(fen, depth) => BeginAnalysis(h, fen, depth)
    case CloudAnswer(reply) => if h.pendingFetches > 0 then SettleFallback(h, reply) else h
  }

  function Run(h: Hook, evs: seq<Event>): Hook
    decreases |evs|
  {
    if evs == [] then h else Run(Step(h, evs[0]), evs[1..])
  }

  /**
   * Once loading has failed it stays failed, the fallback stays on, and the
   * worker never receives another command, whatever happens next.
   */
  lemma {:induction false} FailureIsSticky(h: Hook, evs: seq<Event>)
    requires h.wasmFailed
    requires Consistent(h)
    ensures Run(h, evs).wasmFailed && Run(h, evs).usingFallback
    ensures Run(h, evs).sent == h.sent
    decreases |evs|
  {
    if evs != [] {
      FailureIsSticky(Step(h, evs[0]), evs[1..]);
    }
  }

  /** The hook's invariant holds from the initial state through any run. */
  lemma {:induction false} RunConsistent(h: Hook, evs: seq<Event>)
    requires Consistent(h)
    ensures Consistent(Run(h, evs))
    decreases |evs|
  {
    if evs != [] {
      RunConsistent(Step(h, evs[0]), evs[1..]);
    }
  }

  /** The fallback flag, once on, is never switched off. */
  lemma {:induction false} FallbackIsSticky(h: Hook, evs: seq<Event>)
    requires h.usingFallback
    ensures Run(h, evs).usingFallback
    decreases |evs|
  {
    if evs != [] {
      FallbackIsSticky(Step(h, evs[0]), evs[1..]);
    }
  }

  /**
   * Requests are not told apart: when two cloud requests are outstanding
   * and the answer for the older position arrives last, its move is the
   * one left on display.
   */
  lemma LateAnswerWins(fen1: string, fen2: string, r1: CloudReply, r2: CloudReply)
    ensures
      var h := Run(Initial, [MountEffect(ImportRejected), Analyze(fen1, 15), Analyze(fen2, 15), CloudAnswer(r2), CloudAnswer(r1)]);
      h.bestMove == CloudBestMove(r1) && !h.thinking
  {
    var evs := [MountEffect(ImportRejected), Analyze(fen1, 15), Analyze(fen2, 15), CloudAnswer(r2), CloudAnswer(r1)];
    var h1 := Step(Initial, evs[0]);
    var h2 := Step(h1, evs[1]);
    var h3 := Step(h2, evs[2]);
    var h4 := Step(h3, evs[3]);
    var h5 := Step(h4, evs[4]);
    assert h4.pendingFetches == 1;
    assert Run(Initial, evs) == Run(h1, evs[1..]);
    assert Run(h1, evs[1..]) == Run(h2, evs[2..]);
    assert Run(h2, evs[2..]) == Run(h3, evs[3..]);
    assert Run(h3, evs[3..]) == Run(h4, evs[4..]);
    assert Run(h4, evs[4..]) == Run(h5, []);
  }
}
