/**
 * The chat endpoint of the backend: the beta-passcode gate, required-field
 * validation, system-prompt assembly from a grandmaster persona and the
 * chess context, the role-tagged message list, and the mapping of errors to
 * HTTP statuses. The language-model call is a function parameter.
 */
module Server {
  import opened Common
  import JsString

  /** JavaScript truthiness of an optional text field: present and non-empty. */
  predicate Truthy(f: Option<string>) {
    f.Some? && f.value != ""
  }

  // ---------------------------------------------------------------------
  // Beta gate

  datatype GateOutcome = Pass | Reject(status: int)

  /**
   * `betaMiddleware`: with no passcode configured (unset or empty) every
   * request passes; otherwise the `x-beta-key` header must equal it, or the
   * request is refused with 401.
   */
  function BetaGate(passcode: Option<string>, provided: Option<string>): (r: GateOutcome)
    ensures !Truthy(passcode) ==> r == Pass
    ensures Truthy(passcode) ==> (r == Pass <==> provided == passcode)
    ensures r != Pass ==> r == Reject(401)
  {
    if !Truthy(passcode) then Pass
    else if provided != passcode then Reject(401)
    else Pass
  }

  // ---------------------------------------------------------------------
  // Personas and the system prompt

  /** One persona of the roster: display name and persona prompt. */
  datatype Gm = Gm(name: string, systemPrompt: string)

  /**
   * The roster's shape: exactly the keys Magnus, Hikaru and Bobby with
   * their display names. The persona prompt texts are data and stay free.
   */
  predicate IsRoster(gms: map<string, Gm>) {
    && gms.Keys == {"Magnus", "Hikaru", "Bobby"}
    && gms["Magnus"].name == "Magnus Carlsen"
    && gms["Hikaru"].name == "Hikaru Nakamura"
    && gms["Bobby"].name == "Bobby Fischer"
  }

  /**
   * The fixed wording of the chess context. The layout lemmas below hold
   * for any wording; `Texts` is the one the server uses.
   */
  datatype Wording = Wording(
    contextHeader: string,
    fenLabel: string,
    engineLabel: string,
    engineAdvice: string,
    instructionsHead: string,
    characterLead: string,
    characterTail: string,
    instructionsTail: string)

  const Texts: Wording := Wording(
    "\n\nCHESS CONTEXT:\n",
    "Current board position (FEN): ",
    "Stockfish engine recommendation: ",
    "You may reference the engine suggestion, agree or disagree with it, and explain your reasoning in your own style. You are not bound by the engine — you have your own chess intuition.\n",
    "\nINSTRUCTIONS:\n",
    "- Respond in character as ",
    " at all times.\n",
    "- Analyze the position and answer the user's question about it.\n"
    + "- Reference specific squares, pieces, and lines when relevant.\n"
    + "- Keep responses focused and under 200 words unless a deeper analysis is clearly needed.\n"
    + "- If the user asks a non-chess question, briefly steer back to chess in character.\n")

  function FenLine(w: Wording, fen: string): string {
    w.fenLabel + fen + "\n"
  }

  /** The two lines added when an engine move is known. */
  function EngineLines(w: Wording, bestMove: string): string {
    w.engineLabel + bestMove + "\n" + w.engineAdvice
  }

  /** The instruction that names the persona. */
  function CharacterLine(w: Wording, name: string): string {
    w.characterLead + name + w.characterTail
  }

  function Instructions(w: Wording, name: string): string {
    w.instructionsHead + CharacterLine(w, name) + w.instructionsTail
  }

  /** The `chessContext` block: header, position, engine lines when the move is truthy, instructions. */
  function ChessContext(w: Wording, fen: string, bestMove: Option<string>, name: string): string {
    w.contextHeader + FenLine(w, fen) + (if Truthy(bestMove) then EngineLines(w, bestMove.value) else "") + Instructions(w, name)
  }

  /** The prompt for a persona: its own prompt followed by the chess context. */
  function Prompt(w: Wording, gm: Gm, fen: string, bestMove: Option<string>): string {
    gm.systemPrompt + ChessContext(w, fen, bestMove, gm.name)
  }

  const UnknownGm: string := "Unknown GM personality: "

  /**
   * `buildSystemPrompt`: the persona's prompt followed by the chess
   * context; an unknown persona key is an error naming the key.
   */
  function BuildSystemPrompt(gms: map<string, Gm>, selected: string, fen: string, bestMove: Option<string>): (r: Result<string, string>)
    ensures r.Err? <==> selected !in gms
    ensures r.Err? ==> r.error == UnknownGm + selected
    ensures r.Ok? ==> r.value == Prompt(Texts, gms[selected], fen, bestMove)
  {
    if selected !in gms then Err(UnknownGm + selected)
    else Ok(Prompt(Texts, gms[selected], fen, bestMove))
  }

  /**
   * Where the pieces of the prompt sit: it starts with the persona's own
   * prompt, the position line follows the context header, and the
   * instructions name the persona.
   */
  lemma PromptLayout(w: Wording, gm: Gm, fen: string, bestMove: Option<string>)
    ensures JsString.StartsWith(Prompt(w, gm, fen, bestMove), gm.systemPrompt)
    ensures JsString.OccursAt(Prompt(w, gm, fen, bestMove), FenLine(w, fen), |gm.systemPrompt| + |w.contextHeader|)
    ensures JsString.Includes(Prompt(w, gm, fen, bestMove), CharacterLine(w, gm.name))
  {
    var a, b, c := gm.systemPrompt, w.contextHeader, FenLine(w, fen);
    var d := if Truthy(bestMove) then EngineLines(w, bestMove.value) else "";
    var e, f, g := w.instructionsHead, CharacterLine(w, gm.name), w.instructionsTail;
    assert Prompt(w, gm, fen, bestMove) == a + (b + c + d + (e + f + g));
    PiecesInPlace(a, b, c, d, e, f, g);
    JsString.IncludesIff(Prompt(w, gm, fen, bestMove), f);
  }

  /** Concatenation places every piece at the sum of the lengths before it. */
  lemma PiecesInPlace(a: string, b: string, c: string, d: string, e: string, f: string, g: string)
    ensures var p := a + (b + c + d + (e + f + g));
      && JsString.StartsWith(p, a)
      && JsString.OccursAt(p, c, |a| + |b|)
      && JsString.OccursAt(p, f, |a| + |b| + |c| + |d| + |e|)
  {
    var p := a + (b + c + d + (e + f + g));
    assert p == a + b + c + d + e + f + g;
    assert p[..|a|] == a;
    assert p[|a| + |b|..|a| + |b| + |c|] == c;
    var k := |a| + |b| + |c| + |d| + |e|;
    assert p[k..k + |f|] == f;
  }

  /** Inserting `t` into `s` at position `k`. */
  function InsertAt(s: string, k: nat, t: string): string
    requires k <= |s|
  {
    s[..k] + t + s[k..]
  }

  /** The length of the prompt up to and including the position line. */
  function HeadLength(w: Wording, gm: Gm, fen: string): nat {
    |gm.systemPrompt| + |w.contextHeader| + |FenLine(w, fen)|
  }

  /**
   * The engine lines are the only difference a truthy best move makes:
   * the prompt with it is the prompt without it with the two lines
   * inserted right after the position line.
   */
  lemma EngineLinesInsertedWhenTruthy(w: Wording, gm: Gm, fen: string, bestMove: Option<string>)
    requires Truthy(bestMove)
    ensures HeadLength(w, gm, fen) <= |Prompt(w, gm, fen, None)|
    ensures Prompt(w, gm, fen, bestMove) == InsertAt(Prompt(w, gm, fen, None), HeadLength(w, gm, fen), EngineLines(w, bestMove.value))
  {
    var a, b, c, d, i := gm.systemPrompt, w.contextHeader, FenLine(w, fen), EngineLines(w, bestMove.value), Instructions(w, gm.name);
    assert Prompt(w, gm, fen, None) == a + (b + c + "" + i);
    assert Prompt(w, gm, fen, bestMove) == a + (b + c + d + i);
    InsertAfterHead(a, b, c, d, i);
  }

  /** A falsy best move leaves the prompt exactly as without one. */
  lemma NoEngineLinesWhenFalsy(w: Wording, gm: Gm, fen: string, bestMove: Option<string>)
    requires !Truthy(bestMove)
    ensures Prompt(w, gm, fen, bestMove) == Prompt(w, gm, fen, None)
  {
  }

  /** Splitting `a + (b + c + "" + i)` after `c` and inserting `d` there gives `a + (b + c + d + i)`. */
  lemma InsertAfterHead(a: string, b: string, c: string, d: string, i: string)
    ensures |a| + |b| + |c| <= |a + (b + c + "" + i)|
    ensures a + (b + c + d + i) == InsertAt(a + (b + c + "" + i), |a| + |b| + |c|, d)
  {
    var without := a + (b + c + "" + i);
    assert without == (a + b + c) + i;
    assert without[..|a| + |b| + |c|] == a + b + c;
    assert without[|a| + |b| + |c|..] == i;
  }

  // ---------------------------------------------------------------------
  // Messages

  /** One turn of the client's chat history: the sender tag ("You" for the user) and the text. */
  datatype Turn = Turn(role: Option<string>, content: string)

  datatype Role = User | Assistant

  datatype Message = Message(role: Role, content: string)

  /** The history sent by the client; absent counts as empty. */
  function TurnsOf(history: Option<seq<Turn>>): seq<Turn> {
    if history.Some? then history.value else []
  }

  function RoleOf(t: Turn): Role {
    if t.role == Some("You") then User else Assistant
  }

  /**
   * The `messages` array: every history turn in order, tagged user exactly
   * when its sender is "You" and assistant otherwise, then the question as
   * the last user message.
   */
  function BuildMessages(history: Option<seq<Turn>>, question: string): (ms: seq<Message>)
    ensures |ms| == |TurnsOf(history)| + 1
    ensures forall i :: 0 <= i < |TurnsOf(history)| ==>
      && ms[i].content == TurnsOf(history)[i].content
      && (ms[i].role == User <==> TurnsOf(history)[i].role == Some("You"))
    ensures ms[|ms| - 1] == Message(User, question)
  {
    var turns := TurnsOf(history);
    seq(|turns|, i requires 0 <= i < |turns| => Message(RoleOf(turns[i]), turns[i].content))
      + [Message(User, question)]
  }

  /** Dropping the tags gives back the history's texts followed by the question. */
  lemma MessagesKeepTexts(history: Option<seq<Turn>>, question: string)
    ensures var ms := BuildMessages(history, question);
      seq(|ms|, i requires 0 <= i < |ms| => ms[i].content)
      == seq(|TurnsOf(history)|, i requires 0 <= i < |TurnsOf(history)| => TurnsOf(history)[i].content) + [question]
  {
  }

  // ---------------------------------------------------------------------
  // The endpoint

  /** The request body; `None` is a missing or null field. */
  datatype ChatBody = ChatBody(
    selectedGM: Option<string>,
    currentFen: Option<string>,
    bestMove: Option<string>,
    question: Option<string>,
    conversationHistory: Option<seq<Turn>>)

  /** The language-model call: the text blocks of the answer, or an error that may carry an HTTP status. */
  datatype ApiResult = ApiText(blocks: seq<string>) | ApiError(status: Option<int>)

  type ModelCall = (string, seq<Message>) -> ApiResult

  datatype Reply = Answer(text: string) | Problem(message: string)

  datatype Response = Response(status: int, reply: Reply)

  /** The catch block: an error with status 401 keeps it, every other error is a 500. */
  function ErrorStatus(status: Option<int>): (code: int)
    ensures code == 401 <==> status == Some(401)
    ensures code != 401 ==> code == 500
  {
    if status == Some(401) then 401 else 500
  }

  const MissingFields: string := "Missing required fields: question, currentFen, selectedGM"
  const ApiFailure: string := "Failed to get response from Claude API"
  const BadApiKey: string := "Invalid API key. Check your ANTHROPIC_API_KEY in .env"
  const BetaRequired: string := "Beta access required"

  /**
   * What the model's answer becomes: the first content block with 200; an
   * answer without blocks throws on `content[0].text` and, like every error
   * without a status, is a 500; an error keeps status 401 and is otherwise 500.
   */
  function ReplyTo(answer: ApiResult): (r: Response)
    ensures r.status == 200 <==> answer.ApiText? && |answer.blocks| > 0
    ensures r.status == 200 ==> r.reply == Answer(answer.blocks[0])
    ensures r.status == 401 <==> answer == ApiError(Some(401))
    ensures r.status in {200, 401, 500}
  {
    match answer
    case ApiError(status) =>
      var code := ErrorStatus(status);
      Response(code, Problem(if code == 401 then BadApiKey else ApiFailure))
    case ApiText(blocks) =>
      if |blocks| == 0 then Response(ErrorStatus(None), Problem(ApiFailure))
      else Response(200, Answer(blocks[0]))
  }

  /** The three fields the handler insists on are all truthy. */
  predicate HasRequiredFields(body: ChatBody) {
    Truthy(body.question) && Truthy(body.currentFen) && Truthy(body.selectedGM)
  }

  /**
   * `POST /api/chat`: validation, prompt, messages, model call. A missing
   * field is a 400 before anything else; an unknown persona is an error
   * without a status, hence 500; otherwise the model is asked with the
   * persona's prompt and the role-tagged messages, and its answer decides.
   */
  function HandleChat(gms: map<string, Gm>, body: ChatBody, call: ModelCall): (r: Response)
    ensures !HasRequiredFields(body) ==> r == Response(400, Problem(MissingFields))
    ensures HasRequiredFields(body) && body.selectedGM.value !in gms ==> r == Response(500, Problem(ApiFailure))
    ensures HasRequiredFields(body) && body.selectedGM.value in gms ==>
      r == ReplyTo(call(Prompt(Texts, gms[body.selectedGM.value], body.currentFen.value, body.bestMove),
                        BuildMessages(body.conversationHistory, body.question.value)))
    ensures r.status in {200, 400, 401, 500}
  {
    if !HasRequiredFields(body) then Response(400, Problem(MissingFields))
    else
      match BuildSystemPrompt(gms, body.selectedGM.value, body.currentFen.value, body.bestMove)
      case Err(_) => Response(ErrorStatus(None), Problem(ApiFailure))
      case Ok(prompt) => ReplyTo(call(prompt, BuildMessages(body.conversationHistory, body.question.value)))
  }

  /** The `/api` stack: the beta gate runs before the chat handler. */
  function HandleApi(passcode: Option<string>, betaKey: Option<string>, gms: map<string, Gm>, body: ChatBody, call: ModelCall): (r: Response)
    ensures BetaGate(passcode, betaKey) != Pass ==> r.status == 401
    ensures BetaGate(passcode, betaKey) == Pass ==> r == HandleChat(gms, body, call)
  {
    match BetaGate(passcode, betaKey)
    case Reject(code) => Response(code, Problem(BetaRequired))
    case Pass => HandleChat(gms, body, call)
  }

  /**
   * A request whose persona key the lookup does not find gets a 500,
   * whatever the model would say: the model is never consulted.
   */
  lemma UnknownPersonaIs500(gms: map<string, Gm>, body: ChatBody, call: ModelCall, other: ModelCall)
    requires HasRequiredFields(body) && body.selectedGM.value !in gms
    ensures HandleChat(gms, body, call).status == 500
    ensures HandleChat(gms, body, call) == HandleChat(gms, body, other)
  {
  }

  // ---------------------------------------------------------------------
  // Persona lookup on a plain object, as written

  /** Property names every plain JavaScript object inherits from `Object.prototype`. */
  const InheritedNames: set<string> := {
    "constructor", "toString", "toLocaleString", "valueOf", "hasOwnProperty", "isPrototypeOf",
    "propertyIsEnumerable", "__proto__", "__defineGetter__", "__defineSetter__", "__lookupGetter__",
    "__lookupSetter__"}

  /**
   * `${gm.name}` for an inherited member: the constructor is `Object`, the
   * prototype object has no name, and every inherited method is named after
   * itself.
   */
  function InheritedDisplayName(key: string): string {
    if key == "constructor" then "Object" else if key == "__proto__" then "undefined" else key
  }

  /**
   * `buildSystemPrompt` as written: `gmPersonalities[selectedGM]` also finds
   * inherited members, which are truthy, so those keys do not throw; their
   * `systemPrompt` is undefined and renders as "undefined".
   */
  function BuildSystemPromptAsWritten(gms: map<string, Gm>, selected: string, fen: string, bestMove: Option<string>): (r: Result<string, string>)
    ensures selected in gms ==> r == BuildSystemPrompt(gms, selected, fen, bestMove)
    ensures r.Err? <==> selected !in gms && selected !in InheritedNames
  {
    if selected in gms then BuildSystemPrompt(gms, selected, fen, bestMove)
    else if selected in InheritedNames then Ok(Prompt(Texts, Gm(InheritedDisplayName(selected), "undefined"), fen, bestMove))
    else Err(UnknownGm + selected)
  }

  /**
   * The key "toString" is not in the roster, yet the lookup as written
   * builds a prompt beginning "undefined" instead of failing; the own-key
   * lookup rejects it.
   */
  lemma InheritedKeyAccepted(gms: map<string, Gm>, fen: string, bestMove: Option<string>)
    requires IsRoster(gms)
    ensures "toString" !in gms
    ensures BuildSystemPromptAsWritten(gms, "toString", fen, bestMove).Ok?
    ensures JsString.StartsWith(BuildSystemPromptAsWritten(gms, "toString", fen, bestMove).value, "undefined")
    ensures BuildSystemPrompt(gms, "toString", fen, bestMove).Err?
  {
    assert "toString" != "Magnus" && "toString" != "Hikaru" && "toString" != "Bobby";
    PromptLayout(Texts, Gm(InheritedDisplayName("toString"), "undefined"), fen, bestMove);
  }

  /** `POST /api/chat` over the lookup as written. */
  function HandleChatAsWritten(gms: map<string, Gm>, body: ChatBody, call: ModelCall): (r: Response)
    ensures !HasRequiredFields(body) || body.selectedGM.value in gms ==> r == HandleChat(gms, body, call)
    ensures HasRequiredFields(body) && body.selectedGM.value !in gms && body.selectedGM.value !in InheritedNames ==>
      r == HandleChat(gms, body, call)
  {
    if !HasRequiredFields(body) then Response(400, Problem(MissingFields))
    else
      match BuildSystemPromptAsWritten(gms, body.selectedGM.value, body.currentFen.value, body.bestMove)
      case Err(_) => Response(ErrorStatus(None), Problem(ApiFailure))
      case Ok(prompt) => ReplyTo(call(prompt, BuildMessages(body.conversationHistory, body.question.value)))
  }

  /**
   * End to end: a request for "toString" reaches the model with a prompt
   * beginning "undefined", so a model that answers makes it a 200, where
   * the own-key lookup answers 500.
   */
  lemma InheritedKeyReachesModel(gms: map<string, Gm>, fen: string, question: string, reply: string)
    requires IsRoster(gms) && fen != "" && question != ""
    ensures var body := ChatBody(Some("toString"), Some(fen), None, Some(question), None);
      var call: ModelCall := (p, ms) => ApiText([reply]);
      && HandleChatAsWritten(gms, body, call) == Response(200, Answer(reply))
      && HandleChat(gms, body, call).status == 500
  {
    InheritedKeyAccepted(gms, fen, None);
  }

  /** With the own-key lookup exactly the three roster keys are accepted. */
  lemma OnlyRosterKeysAccepted(gms: map<string, Gm>, selected: string, fen: string, bestMove: Option<string>)
    requires IsRoster(gms)
    ensures BuildSystemPrompt(gms, selected, fen, bestMove).Ok? <==> selected in {"Magnus", "Hikaru", "Bobby"}
  {
  }
}
