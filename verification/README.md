# Ask-GM core, modelled in Dafny

Ask-GM is a chess trainer. A player moves pieces on a board, steps back and
forth through the game, studies openings move by move, and gets an engine
suggestion. A chat backend lets a grandmaster persona (Magnus, Hikaru,
Bobby) comment on the position. This project models the decision logic of
that application as pure Dafny functions and proves properties of it:

- `Timeline` (src/App.tsx): the position history, the cursor into it,
  moves that cut off the redo branch, back/forward/undo, and the arrow-key
  handler that ignores keys typed into form fields.
- `Openings` (src/components/OpeningsPanel.tsx):
  - the UCI move parser and the replay of a lesson up to a step;
  - the numbered move list (`formatMoves`);
  - lesson navigation, the progress counter and the step animation;
  - the category and search filter over the openings table.
- `Engine` (src/hooks/useStockfish.ts):
  - the engine hook's state: loaded, failed, using the cloud fallback, thinking, best move;
  - the `bestmove` reply parser and the cloud-evaluation reply parser;
  - what an analysis request sends, and how the state evolves over any sequence of events.
- `Captured` (src/components/CapturedPieces.tsx): counting the pieces on
  the board, the lists of captured pieces, the material balance and its
  label.
- `EvalBar` (src/components/EvalBar.tsx): the bar share and the label for
  a score or a forced mate.
- `Server` (server/index.js): the beta passcode gate, required-field
  validation, the system prompt, the role-tagged message list, and how
  errors become HTTP statuses.
- `JsString`, `Common`, `Chess`: the JavaScript string operations the code
  relies on, spelled out with their JavaScript semantics:
  - `split(" ")` always returns at least one piece;
  - `slice` clips its bounds to the string;
  - an index past the end of an array reads as `undefined`;
  - `toLowerCase` is modelled on ASCII letters.

  They also hold `Option`/`Result` and the chess vocabulary.

The chess rules come from chess.js. They are not modelled. A
`MoveOracle` parameter, `(Fen, MoveRequest) -> Option<Applied>`, stands in
for `chess.move`: `None` is an illegal move, and `Some` carries the FEN
after the move and its SAN. Every property involving moves holds for every
oracle. The same goes for the language-model call in the server, which is a
`ModelCall` parameter.

## Model

| member | source | states |
|---|---|---|
| Common.Clamp | src/App.tsx:20 | the bounded index lies in `[lo, hi]`, is the index itself when that is in range, and is the nearer bound otherwise |
| JsString.Split | src/hooks/useStockfish.ts:18 | `split(" ")` yields at least one piece and no piece contains a space |
| JsString.Token | src/hooks/useStockfish.ts:46 | `split(" ")[i]` is the i-th piece when the text has at least i spaces and undefined otherwise. It is space-free, and token 0 always exists |
| JsString.SplitCount | src/hooks/useStockfish.ts:46 | `split(" ")` yields one more piece than the text has spaces |
| JsString.SecondToken | src/hooks/useStockfish.ts:45-46 | a space-join of a space-free keyword, a space-free word and any further pieces starts with the keyword, and its token 1 is the word |
| JsString.FirstToken | src/hooks/useStockfish.ts:18 | the first token has no space, is a prefix of the text, and ends at the end of the text or just before a space |
| JsString.JoinSplit | src/hooks/useStockfish.ts:18 | joining the pieces of `split(" ")` with spaces gives back the original text |
| JsString.SplitJoin | src/hooks/useStockfish.ts:46 | splitting a space-join of space-free parts gives back exactly those parts |
| JsString.IncludesIff | src/components/OpeningsPanel.tsx:124-125 | `includes` holds iff the needle occurs at some position of the text |
| JsString.LowerIdempotent | src/components/OpeningsPanel.tsx:124-125 | lower-casing twice is the same as lower-casing once |
| JsString.LowerHasNoCapitals | src/components/OpeningsPanel.tsx:124-125 | a lower-cased text contains no capital ASCII letter |
| JsString.NatToString | src/components/EvalBar.tsx:28 | the decimal text of a number is non-empty, all digits, and has no leading zero unless the number is 0 |
| JsString.ParseNatToString | src/components/EvalBar.tsx:28 | reading the decimal text back gives the number |
| Timeline.Init | src/App.tsx:13-16 | the initial history holds only the start position, with the cursor on it |
| Timeline.LoadFenAt | src/App.tsx:18-27 | loading keeps the history and moves the cursor to the index clamped to the history |
| Timeline.HandleMove | src/App.tsx:29-40 | a move is accepted iff the board accepts it. A rejected move changes nothing. An accepted one keeps the history up to the cursor, appends the new position, drops the redo branch, and puts the cursor at the end |
| Timeline.Back | src/App.tsx:42-46 | back moves the cursor one step towards the start and does nothing at the start |
| Timeline.Forward | src/App.tsx:48-52 | forward moves the cursor one step towards the end and does nothing at the end |
| Timeline.Undo | src/App.tsx:54-56 | undo keeps the history, steps the cursor back to the previous position, and does nothing at the start |
| Timeline.DisableForward | src/App.tsx:124 | the forward button is disabled iff the cursor is at the end, iff forward would do nothing |
| Timeline.HandleKey | src/App.tsx:83-103 | keys typed into input, textarea, select or editable content are ignored. Otherwise ArrowLeft goes back and ArrowRight goes forward, each with the default prevented, and every other key is ignored |
| Timeline.IsEditable | src/App.tsx:84-90 | only an element can be editable, and a content-editable element always is |
| Timeline.EditableIgnoresTagCase | src/App.tsx:85-89 | the tag name's case never decides whether a target is editable |
| Timeline.ForwardUndoesBack | src/App.tsx:42-52 | forward after back restores the timeline |
| Timeline.BackUndoesForward | src/App.tsx:42-52 | back after forward restores the timeline |
| Timeline.BackAfterMove | src/App.tsx:29-46 | going back after a move returns to the position and cursor before it |
| Timeline.BackStepsIndex | src/App.tsx:42-46 | k steps back put the cursor at `max(0, index - k)` |
| Timeline.BranchAfterBackSteps | src/App.tsx:35 | a move made after stepping back keeps the history up to the cursor and cuts everything after it |
| Timeline.Run | src/App.tsx:29-56 | any sequence of moves and navigation keeps the timeline valid, and one without moves keeps the history |
| Timeline.RunKeepsLinked | src/App.tsx:29-56 | in any sequence of actions every position in the history follows from its predecessor by an accepted move |
| Timeline.BranchScenario | src/App.tsx:29-46 | after e2e4, back and d2d4, the history is [start, after d4] and the e4 position is gone |
| Openings.Slice | src/components/OpeningsPanel.tsx:26 | `slice(a, b)` has the clipped length and is the plain slice when `b` is within the text |
| Openings.ParseUci | src/components/OpeningsPanel.tsx:26 | the from and to squares are the text's first four characters, split 2/2 and clipped. The promotion is the fifth character, or "q" when there is none |
| Openings.ParseUciText | src/components/OpeningsPanel.tsx:26 | a move request with two-letter squares and a one-letter promotion survives printing and parsing |
| Openings.UciTextParse | src/components/OpeningsPanel.tsx:26 | a 5-character UCI move prints back as itself, and a 4-character one gains the default "q" |
| Openings.MovesShown | src/components/OpeningsPanel.tsx:24 | step `s` in range shows `s + 1` moves, and never more than the lesson has |
| Openings.FenAtStep | src/components/OpeningsPanel.tsx:22-29 | the position at a step is the replay of exactly the moves shown at that step |
| Openings.LessonPosition | src/components/OpeningsPanel.tsx:63-70 | the broadcast position is the replay of the moves shown, and the start position before the first move |
| Openings.NextStepPlaysOneMove | src/components/OpeningsPanel.tsx:22-29 | the position one step later is the current one with the next move played |
| Openings.PairRow | src/components/OpeningsPanel.tsx:36-44 | one iteration builds row k from the position after 2k moves and reaches the position after 2k+2 moves |
| Openings.FormatMoves | src/components/OpeningsPanel.tsx:32-47 | there are `ceil(n/2)` rows. Row k is numbered k+1. White's entry is the SAN of move 2k on the replayed board, or the raw move if rejected. Black's entry is the SAN of move 2k+1, or null when missing or rejected |
| Openings.BlackMissingOnlyAtOddEnd | src/components/OpeningsPanel.tsx:38-44 | when every move is legal, Black's entry is missing exactly in the last row of an odd-length lesson |
| Openings.WhiteIsSanWhenLegal | src/components/OpeningsPanel.tsx:37-44 | when every move is legal, White's entries are SANs and never the raw moves |
| Openings.SelectOpening | src/components/OpeningsPanel.tsx:72-78 | selecting an opening makes it active at step -1 |
| Openings.Prev | src/components/OpeningsPanel.tsx:80-83 | previous lowers the step by one down to -1, does nothing without an active opening, and keeps the step in range |
| Openings.Next | src/components/OpeningsPanel.tsx:85-88 | next raises the step by one up to the last move, does nothing without an active opening, and keeps the step in range |
| Openings.ClickMove | src/components/OpeningsPanel.tsx:161-167 | clicking a move sets the step to its index |
| Openings.LessonControls | src/components/OpeningsPanel.tsx:132-133 | the progress shows the moves shown out of the lesson's length |
| Openings.DisabledIffNoEffect | src/components/OpeningsPanel.tsx:196-202 | the previous/next buttons are disabled iff pressing them would change nothing |
| Openings.ProgressCountsMoves | src/components/OpeningsPanel.tsx:150 | the displayed progress is between 0 and the number of moves |
| Openings.TicksAreConsecutive | src/components/OpeningsPanel.tsx:95-104 | the animation ticks visit consecutive steps up to the last move |
| Openings.AnimationVisitsEveryStep | src/components/OpeningsPanel.tsx:90-106 | the animation shows steps -1, 0, …, n-1 in order. For an empty lesson it shows -1 and then 0 |
| Openings.ToggleCategory | src/components/OpeningsPanel.tsx:260 | clicking the selected category clears it, and clicking another selects it |
| Openings.ToggleCategoryFilters | src/components/OpeningsPanel.tsx:120-127 | clicking the selected chip lists every category again, clicking another chip lists only that category, and clicking a chip twice from no choice restores no choice |
| Openings.Filter | src/components/OpeningsPanel.tsx:120-127 | the result is a subsequence of the table. It holds every copy of each entry whose category and search text match and no copy of any other entry |
| Openings.SearchIgnoresCase | src/components/OpeningsPanel.tsx:122-125 | the search matches the same entries whatever the case of the query |
| Openings.FilterNothingKeepsAll | src/components/OpeningsPanel.tsx:121-123 | no category and an empty search keep the whole table |
| Openings.FilterIdempotent | src/components/OpeningsPanel.tsx:120-127 | filtering twice gives the same result as filtering once |
| Openings.SearchByNameWitness | src/data/openings.ts:12-19 | "ITALIAN" finds the Italian Game by name |
| Openings.SearchByEcoWitness | src/data/openings.ts:12-19 | "c5" finds C50 by its code within the e4 openings |
| Openings.CategoryWitness | src/data/openings.ts:44-51 | the Sicilian is not listed under the d4 openings |
| Engine.CloudBestMove | src/hooks/useStockfish.ts:8-24 | the cloud answer is a move iff the reply is OK and its first line has moves. The move is the first space-separated token, and network errors and bad replies give null |
| Engine.CloudBestMoveIsFirstMove | src/hooks/useStockfish.ts:16-19 | for a line of moves, the cloud answer is the line's first move |
| Engine.MessageOf | src/hooks/useStockfish.ts:43-44 | a string event is its own text, an event's string data is its text, nullish data is "", and other data is no text |
| Engine.Mount | src/hooks/useStockfish.ts:33-74 | mounting after a failure does nothing. A started engine is loaded and sent "uci", and the fallback flag is left as it was. Any load failure marks the engine failed and switches to the fallback. When only posting "uci" throws, the worker is already stored; any earlier failure leaves the stored-worker flag as it was. No outcome starts a cloud request or touches thinking or the best move |
| Engine.OnMessage | src/hooks/useStockfish.ts:42-49 | a line starting with "bestmove" sets the best move to its second token and stops thinking, and every other message changes nothing |
| Engine.BestmoveReplyParsed | src/hooks/useStockfish.ts:45-48 | a `bestmove <move> …` reply yields exactly that move and clears thinking |
| Engine.InfoLineIgnored | src/hooks/useStockfish.ts:45 | an `info …` progress line leaves the state unchanged |
| Engine.BeginAnalysis | src/hooks/useStockfish.ts:86-101 | analysis starts thinking with no best move. It sends uci, position and go commands to a loaded, working engine, and otherwise switches to the fallback and starts one cloud request |
| Engine.AnalysisCommands | src/hooks/useStockfish.ts:93-95 | an analysis posts three commands, and the first is "uci" |
| Engine.AnalysisCommandsReadBack | src/hooks/useStockfish.ts:94-95 | the position command carries the FEN after "position fen ", and the search command carries the depth's decimal digits after "go depth ", which read back as the depth |
| Engine.SettleFallback | src/hooks/useStockfish.ts:101-103 | a cloud answer stops thinking, sets the best move to the parsed reply and settles one pending request. It leaves the worker, the failure and fallback flags and the sent commands as they were |
| Engine.DefaultDepthCommand | src/hooks/useStockfish.ts:87-95 | the default search command is "go depth 15" |
| Engine.FallbackAnalysisSettles | src/hooks/useStockfish.ts:99-103 | without the engine, one analysis and its answer end with no thinking, the fallback on, the parsed move shown and nothing sent to the engine |
| Engine.Step | src/hooks/useStockfish.ts:33-106 | every event keeps the state consistent, a failed engine never gets commands, and the fallback flag never clears |
| Engine.FailureIsSticky | src/hooks/useStockfish.ts:34-92 | once the engine has failed, no sequence of events sends it anything or clears the fallback |
| Engine.RunConsistent | src/hooks/useStockfish.ts:33-106 | any sequence of events keeps the state consistent |
| Engine.FallbackIsSticky | src/hooks/useStockfish.ts:100 | once the fallback is on, it stays on |
| Engine.LateAnswerWins | src/hooks/useStockfish.ts:99-103 | two cloud answers that arrive out of order leave the older request's answer as the best move |
| Captured.CountColor | src/components/CapturedPieces.tsx:23-34 | each tally is the number of squares that hold that colour's piece of that type |
| Captured.Value | src/components/CapturedPieces.tsx:5-7 | only the king is worth nothing, and no piece is worth more than 9 |
| Captured.Starting | src/components/CapturedPieces.tsx:18 | each side starts with between 1 and 8 of each counted type, and with a single piece only of the queen |
| Captured.PieceOrderByValue | src/components/CapturedPieces.tsx:19 | the listing order names each counted type exactly once, at its rank, from the most valuable to the least |
| Captured.Repeat | src/components/CapturedPieces.tsx:45-46 | the `for` loop pushes `max(0, n)` copies of the type |
| Captured.PushCopies | src/components/CapturedPieces.tsx:45-46 | the loop appends exactly `Repeat(kind, n)` |
| Captured.ComputeCaptured | src/components/CapturedPieces.tsx:21-51 | the captured lists are the missing pieces of the other colour in queen-rook-bishop-knight-pawn order, and the advantage is the weighted balance |
| Captured.CapturedFrom | src/components/CapturedPieces.tsx:42-48 | the loop over the piece order computes the listings and the balance |
| Captured.ListingCounts | src/components/CapturedPieces.tsx:42-46 | a captured list holds `max(0, starting - on board)` copies of each type |
| Captured.ListingGrouped | src/components/CapturedPieces.tsx:19-46 | a captured list is grouped queens first, pawns last |
| Captured.BalanceIsMaterialOnBoard | src/components/CapturedPieces.tsx:5-48 | the advantage is White's material on board minus Black's, with values 9/5/3/3/1 |
| Captured.BalanceAntisymmetric | src/components/CapturedPieces.tsx:47 | exchanging the colours negates the balance |
| Captured.SwapSwapsTallies | src/components/CapturedPieces.tsx:28-34 | recolouring every piece exchanges the two tallies |
| Captured.SwapColorsMirrorsResult | src/components/CapturedPieces.tsx:21-51 | recolouring the board exchanges the two captured lists and negates the advantage |
| Captured.FullArmiesShowNothing | src/components/CapturedPieces.tsx:18-48 | with full armies nothing is captured and the balance is 0 |
| Captured.PromotionWitness | src/components/CapturedPieces.tsx:42-48 | a Black promotion (an extra queen, one pawn fewer) lists a pawn and gives −8 |
| Captured.AdvantageLabel | src/components/CapturedPieces.tsx:71-76 | the label appears iff the bottom row's side (White) or the top row's side (Black) is ahead, and it reads "+" and the size of the lead |
| Captured.AtMostOneLabel | src/components/CapturedPieces.tsx:71-76 | at most one row shows a label, and neither does at a balance of 0 |
| Captured.LabelShowsLead | src/components/CapturedPieces.tsx:73-75 | the label's digits read back as the size of the lead |
| Captured.SymbolInjective | src/components/CapturedPieces.tsx:10-15 | different pieces have different glyphs |
| Captured.Symbol | src/components/CapturedPieces.tsx:10-15 | White's glyphs lie in the range ♕ to ♙ and Black's in ♛ to ♟ |
| Captured.BlackGlyphFollowsWhite | src/components/CapturedPieces.tsx:10-15 | each Black glyph is six code points after the White glyph of the same piece |
| Captured.StripSymbols | src/components/CapturedPieces.tsx:67-84 | the top row shows Black's captures as White glyphs, and the bottom row shows White's captures as Black glyphs, one per piece in order |
| EvalBar.Evaluate | src/components/EvalBar.tsx:21-38 | a null score gives 50 and "=". A mate gives 97 or 3 and "M" with the count's size. Otherwise the bar follows the curve, the label is "0.00", "+pawns" or "-pawns" by sign, and it starts with one of `=M0+-` |
| EvalBar.BlackShare | src/components/EvalBar.tsx:40 | Black's share is 100 minus White's |
| EvalBar.BlackShareInvolutive | src/components/EvalBar.tsx:40 | taking the other side's share twice gives the original |
| EvalBar.SignPrefixMatchesScore | src/components/EvalBar.tsx:35-36 | the label starts with "+" iff the score is positive and with "-" iff it is negative |
| EvalBar.MateShareBounds | src/components/EvalBar.tsx:24-40 | a mate bar is 97 iff White mates, and the two shares add up to 100 |
| EvalBar.MateLabelShowsCount | src/components/EvalBar.tsx:28 | the mate label reads back as the size of the mate count |
| EvalBar.DisplayText | src/components/EvalBar.tsx:85 | the text is "..." iff analysis is running with no score, and otherwise the label |
| Server.BetaGate | server/index.js:18-26 | without a passcode every request passes. Otherwise a request passes iff its header equals the passcode, and is refused with 401 if not |
| Server.BuildSystemPrompt | server/index.js:49-71 | the prompt fails iff the own-key lookup does not find the persona key, with an error naming the key. Otherwise it is the persona's prompt followed by the chess context |
| Server.PromptLayout | server/index.js:55-70 | the prompt starts with the persona's own prompt, has the position line right after the context header, and names the persona in the instructions |
| Server.EngineLinesInsertedWhenTruthy | server/index.js:58-61 | a truthy best move inserts exactly the two engine lines after the position line |
| Server.NoEngineLinesWhenFalsy | server/index.js:58-61 | a falsy best move leaves the prompt as if there were none |
| Server.BuildMessages | server/index.js:95-106 | the messages are the history in order, then the question. An entry is tagged user iff its sender is "You", and the length is the history's plus one |
| Server.MessagesKeepTexts | server/index.js:95-106 | the message texts are the history's texts followed by the question |
| Server.ErrorStatus | server/index.js:120-126 | an error with status 401 answers 401, and every other error answers 500 |
| Server.ReplyTo | server/index.js:108-126 | a model answer with content answers 200 with its first block. An empty answer or an error without status 401 answers 500, and status 401 answers 401 |
| Server.HandleChat | server/index.js:84-127 | a missing field gives 400 before anything else, and a persona key the own-key lookup does not find gives 500. Otherwise the model is asked with the persona's prompt and the messages, and its answer decides |
| Server.HandleApi | server/index.js:18-27 | the gate runs first: a refused request gets 401, and a passed one is the chat handler's answer |
| Server.UnknownPersonaIs500 | server/index.js:50-126 | any complete request whose persona key the own-key lookup does not find gets a 500, and the model's answer makes no difference |
| Server.OnlyRosterKeysAccepted | server/gmPersonalities.js:8-88 | with the own-key lookup, exactly the keys Magnus, Hikaru and Bobby build a prompt |
| Server.BuildSystemPromptAsWritten | server/index.js:50-53 | the lookup as written also accepts the names inherited from `Object.prototype` |
| Server.InheritedKeyAccepted | server/index.js:50-53 | "toString" is not a persona, yet the lookup as written builds a prompt starting "undefined", where the own-key lookup rejects it |
| Server.HandleChatAsWritten | server/index.js:84-127 | over the lookup as written, the endpoint agrees with the own-key one on every roster key, every incomplete request and every key that is neither a roster key nor an inherited name |
| Server.InheritedKeyReachesModel | server/index.js:50-117 | a complete request for "toString" reaches the model as written and answers 200 with its reply, where the own-key endpoint answers 500 |

## Left out

- Rendering, styles, the chat window, the persona selector and the other display-only components are not modelled; neither is `handleQuestion` in src/App.tsx. It echoes the question and sets `thinking`, and after a 500 ms timer it appends a canned reply and clears `thinking`; it never calls the server.
- chess.js itself: legality, FEN and SAN are the `MoveOracle` parameter. `chess.load` and the `Chess(fen)` constructor are not modelled; `Captured.ComputeCaptured` takes the board instead of the FEN.
- The engine hook tags no request with a generation and sends no `stop`. It sends `uci`, `position fen …` and `go depth N` for every request it hands to a loaded, working engine, and reads only `bestmove` lines; `info` lines and their scores are not parsed. Every answer overwrites the best move, so two cloud answers arriving out of order leave the older one shown (`Engine.LateAnswerWins`).
- A move the oracle refuses (`None`) leaves the timeline unchanged, as the null check in src/App.tsx does. A chess.js version that throws on an illegal move instead is not modelled.
- Timers and asynchrony: the animation's `setTimeout` chain is modelled as the sequence of steps it visits (`Openings.AnimationSteps`); stopping it, the unmount clean-up and the `isAnimating` guard that ignores a second start while a chain runs (src/components/OpeningsPanel.tsx:91) are not modelled. The engine hook's promises, `import("stockfish")`, `fetch` and the worker are modelled as events (`Engine.Event`) in any order; `terminate` on unmount is not modelled.
- `onExit` and the lesson's parent component: only the callbacks' arguments are modelled.
- Floating point: `cpToPercent` (tanh) stays symbolic as `Curve(cp)`; the `toFixed` pawn text is the parameter `PawnText`.
- EvalBar.Evaluate: the label's digits for a non-mate score come from the `PawnText` parameter, because `toFixed` is floating-point formatting.
- JsString.Lower: case folding covers ASCII letters only; JavaScript's full Unicode `toLowerCase` is not modelled.
- Express, CORS, dotenv, static serving, the health route and the start-up warning about the API key are plumbing and are not modelled. The Anthropic SDK call is the `ModelCall` parameter; its model name and token limit are not modelled.
- Server.IsRoster: the persona prompt texts in server/gmPersonalities.js are data; only the keys and display names are constrained.
- Server.HandleChat: request fields are modelled as optional strings; non-string JSON values (numbers, objects) in the body are not modelled.
- Server.BuildSystemPrompt, Server.HandleChat and Server.HandleApi are stated for the corrected own-key persona lookup. The lookup as written, which also finds `Object.prototype` names, is `Server.BuildSystemPromptAsWritten`, and the endpoint over it is `Server.HandleChatAsWritten` (see Findings).
- The openings table in src/data/openings.ts is data; only the Italian Game and the Sicilian Defense are transcribed, as witnesses.

## Findings

| source | as written | input that shows it | evidently intended | confidence | as-written member | corrected member |
|---|---|---|---|---|---|---|
| server/index.js:50-53 | `gmPersonalities[selectedGM]` on a plain object also finds members inherited from `Object.prototype`, which are truthy, so no "Unknown GM" error is raised | `selectedGM = "toString"`: the prompt becomes "undefined" followed by the chess context, with the function's name as the persona, and the model is called | only the three roster keys are accepted; every other key is an unknown persona (500) | not executed; high (standard JavaScript property lookup) | Server.InheritedKeyReachesModel | Server.OnlyRosterKeysAccepted |
