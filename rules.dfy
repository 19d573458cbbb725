/**
 * The turn and capture-chain rules of the two game files, `www/game.js` and
 * the older `game.js`, as pure transitions of the game object's fields.
 *
 * Each function here is one method of `CheckersGame` (or one event it reacts
 * to); the class in `game.dfy` performs the same steps on its fields and is
 * proved to end in the state these functions give.  Deferred bodies
 * (`setTimeout` of 400 ms, 1000 ms and the computer's thinking delay) are
 * taken as one step.  The 4-second capture-chain timer is the field
 * `captureTimer` (the square it watches) and the event `Timeout`; a pending
 * computer move is the field `aiPending` and the event `PlayAI`.
 */
module Rules {
  import opened Wrappers
  import opened Boards
  import opened Moves
  import opened Sides
  import opened Search
  import opened Ordering

  /** Which game file: `www/game.js` (`Web`) or `game.js` (`Classic`). */
  datatype Edition = Web | Classic

  /** `gameMode`: `'pvp'` or `'ai'`. */
  datatype GameMode = Pvp | Ai

  /** `aiDifficulty`: `'easy'`, `'medium'` or `'hard'`. */
  datatype Difficulty = Easy | Medium | Hard

  /** The options read when the game starts. */
  datatype Config = Config(
    edition: Edition,
    gameMode: GameMode,
    aiDifficulty: Difficulty,
    mandatoryCapture: bool,
    souffleeRule: bool)

  /** `capturedPieces`: how many pieces of each colour have left the board. */
  datatype Tally = Tally(black: nat, white: nat)

  function Count(t: Tally, c: Color): nat {
    if c == Black then t.black else t.white
  }

  /** `capturedPieces[c]++` */
  function Bump(t: Tally, c: Color): (r: Tally)
    ensures Count(r, c) == Count(t, c) + 1 && Count(r, Opponent(c)) == Count(t, Opponent(c))
  {
    if c == Black then t.(black := t.black + 1) else t.(white := t.white + 1)
  }

  /** The fields of the game object that the rules read and write. */
  datatype State = State(
    board: Board,
    currentPlayer: Color,
    selectedPiece: Option<Square>,
    validMoves: seq<Move>,
    captureSequence: bool,
    capturedPieces: Tally,
    mustCapture: seq<MoveData>,
    pieceThatMustCapture: Option<Square>,
    gameOver: bool,
    winner: Option<Color>,
    captureTimer: Option<Square>,
    aiPending: bool)

  // ---------------------------------------------------------------- lookups

  /** `ms[i]` is the first move of `ms` landing on `sq`. */
  predicate FirstLanding(ms: seq<Move>, sq: Square, i: int) {
    0 <= i < |ms| && ms[i].to == sq && forall j :: 0 <= j < i ==> ms[j].to != sq
  }

  /** `validMoves.find(m => m.row === row && m.col === col)`: the first move landing on `sq`. */
  function FindMove(ms: seq<Move>, sq: Square): (r: Option<Move>)
    ensures r.None? <==> forall m :: m in ms ==> m.to != sq
    ensures r.Some? ==> exists i :: FirstLanding(ms, sq, i) && ms[i] == r.value
  {
    if ms == [] then None
    else if ms[0].to == sq then
      assert FirstLanding(ms, sq, 0);
      Some(ms[0])
    else
      var r := FindMove(ms[1..], sq);
      if r.Some? then
        var i :| FirstLanding(ms[1..], sq, i) && ms[1..][i] == r.value;
        assert FirstLanding(ms, sq, i + 1);
        r
      else r
  }

  /** `mustCapture.some(m => m.fromRow === row && m.fromCol === col)` */
  predicate HasFrom(mc: seq<MoveData>, sq: Square) {
    exists md :: md in mc && md.from == sq
  }

  /** `mc[i]` is the first entry of `mc` whose origin is not `moved`. */
  predicate FirstOtherAt(mc: seq<MoveData>, moved: Square, i: int) {
    0 <= i < |mc| && mc[i].from != moved && forall j :: 0 <= j < i ==> mc[j].from == moved
  }

  /** `findOtherPieceToSoufflee`: the origin of the first entry whose origin is not `moved`. */
  function FirstOther(mc: seq<MoveData>, moved: Square): (r: Option<Square>)
    ensures r.None? <==> forall md :: md in mc ==> md.from == moved
    ensures r.Some? ==> exists i :: FirstOtherAt(mc, moved, i) && mc[i].from == r.value
  {
    if mc == [] then None
    else if mc[0].from != moved then
      assert FirstOtherAt(mc, moved, 0);
      Some(mc[0].from)
    else
      var r := FirstOther(mc[1..], moved);
      if r.Some? then
        var i :| FirstOtherAt(mc[1..], moved, i) && mc[1..][i].from == r.value;
        assert FirstOtherAt(mc, moved, i + 1);
        r
      else r
  }

  /** `.filter(m => m.isCapture)` */
  function CapturesIn(ms: seq<Move>): (r: seq<Move>)
    ensures forall m :: m in r <==> m in ms && m.Capture?
  {
    if ms == [] then []
    else (if ms[0].Capture? then [ms[0]] else []) + CapturesIn(ms[1..])
  }

  /**
   * `getValidMovesForSoufflee(row, col)`: the moves offered to the piece just
   * selected.
   */
  function ValidMovesForSoufflee(cfg: Config, b: Board, mustCapture: seq<MoveData>, sq: Square): seq<Move> {
    if At(b, sq).None? then []
    else
      var f := PieceMoves(b, sq);
      if cfg.souffleeRule then f.captures + f.moves
      else if cfg.mandatoryCapture && |f.captures| > 0 then f.captures
      else if cfg.mandatoryCapture && |mustCapture| > 0 then []
      else if |f.captures| > 0 then f.captures else f.moves
  }

  // ---------------------------------------------------------------- transitions

  /** `checkGameOver`, with `endGame` reduced to setting `gameOver`, the winner and stopping the timer. */
  function CheckGameOver(s: State): State {
    match Winner(s.board, s.currentPlayer)
      case None => s
      case Some(w) => s.(gameOver := true, winner := Some(w), captureTimer := None)
  }

  /** `switchPlayer`: the other side moves next. */
  function SwitchPlayer(cfg: Config, s: State): State {
    var s2 := CheckGameOver(PassTurn(cfg, s));
    if !s2.gameOver && cfg.gameMode == Ai && s2.currentPlayer == White then s2.(aiPending := true) else s2
  }

  /** The first steps of `switchPlayer`: the other side is to move, with the captures it has. */
  function PassTurn(cfg: Config, s: State): State {
    var next := Opponent(s.currentPlayer);
    var mc := MustCapture(s.board, next);
    s.(currentPlayer := next, mustCapture := mc,
      pieceThatMustCapture := if cfg.souffleeRule && |mc| > 0 then Some(mc[0].from) else None)
  }

  /** `selectPiece(row, col)` */
  function SelectPiece(cfg: Config, s: State, sq: Square): State {
    s.(selectedPiece := Some(sq), validMoves := ValidMovesForSoufflee(cfg, s.board, s.mustCapture, sq))
  }

  /** The board after the selected piece on `from` goes to `m.to` (the first two assignments of `executeMove`). */
  function Shift(b: Board, from: Square, m: Move): Board {
    Put(Put(b, m.to, At(b, from)), from, None)
  }

  /** The tail of `executeMove` that ends the turn. */
  function EndTurn(cfg: Config, s: State, to: Square): State {
    SwitchPlayer(cfg, s.(captureSequence := false, pieceThatMustCapture := None,
      board := CheckPromotion(s.board, to), selectedPiece := None, validMoves := []))
  }

  /**
   * `executeMove(move)` for the selected piece.  Without a selected piece the
   * source stops at its first line, and with an empty captured square it
   * stops when reading that piece's colour; both leave what was done so far.
   */
  function ExecuteMove(cfg: Config, s: State, m: Move): State {
    if s.selectedPiece.None? then s
    else
      var b1 := Shift(s.board, s.selectedPiece.value, m);
      if m.Capture? then
        match At(b1, m.captured)
          case None => s.(board := b1)
          case Some(victim) =>
            var b2 := CheckPromotion(Put(b1, m.captured, None), m.to);
            ContinueCapture(cfg, s.(board := b2, capturedPieces := Bump(s.capturedPieces, victim.color), selectedPiece := Some(m.to)), m.to)
      else EndTurn(cfg, s.(board := b1), m.to)
  }

  /** The capture branch of `executeMove` after the piece was taken: the chain goes on from `to` or the turn ends. */
  function ContinueCapture(cfg: Config, s: State, to: Square): State {
    var more := CapturesIn(ValidMoves(s.board, to, cfg.mandatoryCapture));
    if |more| > 0 then
      s.(captureSequence := true, validMoves := more,
        captureTimer := if cfg.souffleeRule then Some(to) else s.captureTimer)
    else EndTurn(cfg, s, to)
  }

  /** `executeMoveWithoutSwitch(move)` */
  function ExecuteMoveWithoutSwitch(s: State, m: Move): State {
    if s.selectedPiece.None? then s
    else
      s.(board := CheckPromotion(Shift(s.board, s.selectedPiece.value, m), m.to),
        captureSequence := false, selectedPiece := None, validMoves := [])
  }

  /** `applySouffleeRule(row, col)`: the piece on `sq` is blown. */
  function ApplySouffleeRule(cfg: Config, s: State, sq: Square): State {
    match At(s.board, sq)
      case None => s
      case Some(p) =>
        var s1 := s.(board := Put(s.board, sq, None), capturedPieces := Bump(s.capturedPieces, p.color),
          pieceThatMustCapture := None);
        var s2 := CheckGameOver(s1);
        if !s2.gameOver then SwitchPlayer(cfg, s2) else s2
  }

  /** `handleTimerExpired(row, col)`: the piece that did not go on capturing is blown. */
  function HandleTimerExpired(cfg: Config, s: State, sq: Square): State {
    match At(s.board, sq)
      case None => s
      case Some(p) =>
        var s1 := s.(board := Put(s.board, sq, None), capturedPieces := Bump(s.capturedPieces, p.color),
          captureSequence := false, selectedPiece := None, validMoves := [], pieceThatMustCapture := None);
        var s2 := CheckGameOver(s1);
        if !s2.gameOver then SwitchPlayer(cfg, s2) else s2
  }

  /** The 4-second timer fires. */
  function Timeout(cfg: Config, s: State): State {
    match s.captureTimer
      case None => s
      case Some(sq) => HandleTimerExpired(cfg, s.(captureTimer := None), sq)
  }

  /** The soufflée branch of `handleCellClick` in `www/game.js`: a simple move while a capture was due. */
  function WebSoufflee(cfg: Config, s: State, m: Move): State
    requires s.selectedPiece.Some?
  {
    var moved := s.selectedPiece.value;
    var couldCapture := HasFrom(s.mustCapture, moved);
    var other := FirstOther(s.mustCapture, moved);
    var s1 := ExecuteMoveWithoutSwitch(s, m);
    if other.Some? then ApplySouffleeRule(cfg, s1, other.value)
    else if couldCapture then ApplySouffleeRule(cfg, s1, m.to)
    else SwitchPlayer(cfg, s1)
  }

  /** The soufflée branch of `handleCellClick` in `game.js`: the piece recorded at the start of the turn is blown if still there. */
  function ClassicSoufflee(cfg: Config, s: State, m: Move): State
    requires s.pieceThatMustCapture.Some?
  {
    var sq := s.pieceThatMustCapture.value;
    var s1 := ExecuteMoveWithoutSwitch(s, m);
    if At(s1.board, sq).Some? then ApplySouffleeRule(cfg, s1, sq) else SwitchPlayer(cfg, s1)
  }

  /** `handleCellClick(row, col)` */
  function HandleCellClick(cfg: Config, s: State, sq: Square): State {
    if s.gameOver then s
    else if cfg.gameMode == Ai && s.currentPlayer == White then s
    else if s.captureSequence then
      match FindMove(s.validMoves, sq)
        case None => s
        case Some(m) => ExecuteMove(cfg, s.(captureTimer := None), m)
    else if Owns(s.board, s.currentPlayer, sq) then
      if cfg.mandatoryCapture && |s.mustCapture| > 0 && !cfg.souffleeRule && !HasFrom(s.mustCapture, sq) then s
      else SelectPiece(cfg, s, sq)
    else if s.selectedPiece.Some? then
      match FindMove(s.validMoves, sq)
        case None => s
        case Some(m) =>
          if cfg.edition == Web && cfg.souffleeRule && |s.mustCapture| > 0 && !m.Capture? then
            WebSoufflee(cfg, s, m)
          else if cfg.edition == Classic && cfg.souffleeRule && s.pieceThatMustCapture.Some? &&
            |s.mustCapture| > 0 && !m.Capture? then
            ClassicSoufflee(cfg, s, m)
          else ExecuteMove(cfg, s, m)
    else s
  }

  /** `doRestart` (`www/game.js`) and `restart` (`game.js`); a computer move already scheduled is not called off. */
  function Restart(s: State, b: Board): State
    requires IsInitial(b)
  {
    State(b, Black, None, [], false, Tally(0, 0), [], None, false, None, None, s.aiPending)
  }

  /** `backToMenu`: the timer is stopped and `gameOver` cleared; nothing else of the game is reset. */
  function BackToMenu(s: State): State {
    s.(captureTimer := None, gameOver := false)
  }

  /** `startGame` after the menu: `init` rebuilds the board with `createBoard` and resets no other field. */
  function StartGame(s: State, b: Board): State
    requires IsInitial(b)
  {
    s.(board := b)
  }

  // ---------------------------------------------------------------- the computer

  /** The search depth of `getBestMove`: 1, 3 and 7 in `www/game.js`, 1, 3 and 5 in `game.js`. */
  function SearchDepth(cfg: Config): nat {
    match cfg.aiDifficulty
      case Easy => 1
      case Medium => 3
      case Hard => if cfg.edition == Web then 7 else 5
  }

  /** The search of the game files: `getAllMoves`, `simulateMove` and `evaluateBoard`. */
  function GameEngine(evaluate: Board -> real): Engine {
    Engine(SideMoves, Apply, evaluate)
  }

  /**
   * `e` searches the game's own moves, applies them as the game does and
   * scores leaves with `evaluate`.  The facts are keyed on the game's own
   * functions, so they are only used where those already appear.
   */
  ghost predicate Faithful(e: Engine, evaluate: Board -> real) {
    (forall b, c {:trigger SideMoves(b, c)} :: e.moves(b, c) == SideMoves(b, c)) &&
    (forall b, md {:trigger Apply(b, md)} :: e.apply(b, md) == Apply(b, md)) &&
    e.eval == evaluate
  }

  /** The game's engine is faithful. */
  lemma GameEngineFaithful(evaluate: Board -> real)
    ensures Faithful(GameEngine(evaluate), evaluate)
  {
  }

  /** The order in which the root loop of `getBestMove` tries white's moves. */
  function RootOrder(cfg: Config, moves: seq<MoveData>): seq<MoveData> {
    if cfg.edition == Web && cfg.aiDifficulty == Hard then SortMoves(Ascending, moves) else moves
  }

  /**
   * `getBestMove()` for white: a random move on the easy level, else the
   * first move of best score, the list sorted first on the hard level of
   * `www/game.js`.
   */
  function BestMove(cfg: Config, b: Board, evaluate: Board -> real, pick: nat): Option<MoveData> {
    var moves := SideMoves(b, White);
    if moves == [] then None
    else if cfg.aiDifficulty == Easy then EasyChoice(moves, pick)
    else
      RootChoice(GameEngine(evaluate), b, RootOrder(cfg, moves), SearchDepth(cfg) - 1, true)
  }

  /** The deferred body of `playAI`: search, then `executeAIMove`. */
  function PlayAI(cfg: Config, s: State, evaluate: Board -> real, pick: nat): State {
    if !s.aiPending then s
    else
      var s1 := s.(aiPending := false);
      match BestMove(cfg, s.board, evaluate, pick)
        case None => s1
        case Some(md) => ExecuteMove(cfg, s1.(selectedPiece := Some(md.from)), md.move)
  }

  // ---------------------------------------------------------------- properties

  /** `checkPromotion` only crowns: cells keep their occupant and colour, no crown is lost, and a second call changes nothing. */
  lemma PromotionOnlyCrowns(b: Board, sq: Square)
    ensures forall q :: At(CheckPromotion(b, sq), q).Some? <==> At(b, q).Some?
    ensures forall q :: At(b, q).Some? ==>
      At(CheckPromotion(b, sq), q).value.color == At(b, q).value.color &&
      (At(b, q).value.isKing ==> At(CheckPromotion(b, sq), q).value.isKing)
    ensures CheckPromotion(CheckPromotion(b, sq), sq) == CheckPromotion(b, sq)
  {
    var r := CheckPromotion(b, sq);
    SameCells(CheckPromotion(r, sq), r);
  }

  lemma {:induction false} CapturesInAll(ms: seq<Move>)
    requires forall m :: m in ms ==> m.Capture?
    ensures CapturesIn(ms) == ms
  {
    if ms != [] {
      assert ms[0] in ms;
      CapturesInAll(ms[1..]);
    }
  }

  lemma {:induction false} CapturesInNone(ms: seq<Move>)
    requires forall m :: m in ms ==> m.Simple?
    ensures CapturesIn(ms) == []
  {
    if ms != [] {
      assert ms[0] in ms;
      CapturesInNone(ms[1..]);
    }
  }

  /** What `getValidMoves(row, col).filter(m => m.isCapture)` finds: exactly the piece's captures. */
  lemma ContinuationCaptures(b: Board, sq: Square, mandatoryCapture: bool)
    ensures CapturesIn(ValidMoves(b, sq, mandatoryCapture)) == PieceMoves(b, sq).captures
  {
    PieceMovesLand(b, sq);
    if PieceMoves(b, sq).captures != [] {
      CapturesInAll(PieceMoves(b, sq).captures);
    } else {
      CapturesInNone(PieceMoves(b, sq).moves);
    }
  }

  /**
   * `getValidMovesForSoufflee`: an empty square offers nothing; every offered
   * move is one of the piece's moves or captures; with soufflée on it offers
   * the captures then the simple moves; with it off it offers what
   * `getValidMoves` gives, or nothing when the side must capture and this
   * piece cannot.
   */
  lemma ValidMovesForSouffleeSpec(cfg: Config, b: Board, mustCapture: seq<MoveData>, sq: Square)
    ensures var r := ValidMovesForSoufflee(cfg, b, mustCapture, sq);
      var f := PieceMoves(b, sq);
      (At(b, sq).None? ==> r == []) &&
      (forall m :: m in r ==> m in f.moves || m in f.captures) &&
      (At(b, sq).Some? && cfg.souffleeRule ==> r == f.captures + f.moves) &&
      (At(b, sq).Some? && !cfg.souffleeRule ==>
        r == (if cfg.mandatoryCapture && f.captures == [] && mustCapture != [] then [] else ValidMoves(b, sq, cfg.mandatoryCapture)))
  {
  }

  /**
   * `switchPlayer`: the other side is to move, `mustCapture` lists its
   * captures, the piece recorded for soufflée is one of them, the game is
   * over exactly when `checkGameOver` finds a winner, and the computer is
   * asked to play exactly when it is white's turn in a game against it.
   */
  lemma SwitchPlayerEffect(cfg: Config, s: State)
    ensures var r := SwitchPlayer(cfg, s);
      r.currentPlayer == Opponent(s.currentPlayer) && r.board == s.board &&
      r.mustCapture == MustCapture(s.board, r.currentPlayer) &&
      (r.pieceThatMustCapture.Some? <==> cfg.souffleeRule && r.mustCapture != []) &&
      (r.pieceThatMustCapture.Some? ==>
        Owns(r.board, r.currentPlayer, r.pieceThatMustCapture.value) &&
        PieceMoves(r.board, r.pieceThatMustCapture.value).captures != []) &&
      (r.gameOver <==> s.gameOver || Winner(s.board, r.currentPlayer).Some?) &&
      (Winner(s.board, r.currentPlayer).Some? ==> r.winner == Winner(s.board, r.currentPlayer)) &&
      (r.aiPending <==> s.aiPending || (!r.gameOver && cfg.gameMode == Ai && r.currentPlayer == White)) &&
      r.captureTimer == (if Winner(s.board, r.currentPlayer).Some? then None else s.captureTimer) &&
      (Winner(s.board, r.currentPlayer).None? ==> r.winner == s.winner) &&
      r.selectedPiece == s.selectedPiece && r.validMoves == s.validMoves &&
      r.captureSequence == s.captureSequence && r.capturedPieces == s.capturedPieces
  {
    var next := Opponent(s.currentPlayer);
    var mc := MustCapture(s.board, next);
    if |mc| > 0 {
      assert mc[0] in mc;
      MustCaptureIff(s.board, next, mc[0]);
    }
  }

  /** `mustCapture` lists what `calculateMustCapture` finds for the side to move on the current board. */
  predicate CapturesInSync(s: State) {
    s.mustCapture == MustCapture(s.board, s.currentPlayer)
  }

  /**
   * A restart starts the turn in step: the opening layout owes no capture,
   * so the emptied `mustCapture` is exactly what `calculateMustCapture`
   * would find.
   */
  lemma RestartInSync(s: State, b: Board)
    requires IsInitial(b)
    ensures CapturesInSync(Restart(s, b)) && Restart(s, b).mustCapture == []
  {
    OpeningNoCaptures(b);
  }

  /**
   * Every later turn starts in step: `switchPlayer` recomputes
   * `mustCapture` for the side now to move, and selecting a piece does not
   * disturb it.
   */
  lemma TurnStartInSync(cfg: Config, s: State, sq: Square)
    ensures CapturesInSync(SwitchPlayer(cfg, s))
    ensures CapturesInSync(s) ==> CapturesInSync(SelectPiece(cfg, s, sq))
  {
    SwitchPlayerEffect(cfg, s);
  }

  /** The selected piece stands on `from` and belongs to the side to move. */
  predicate Holds(s: State, from: Square) {
    s.selectedPiece == Some(from) && Owns(s.board, s.currentPlayer, from)
  }

  /** The state `executeMove` hands to `switchPlayer` once the move is over. */
  function Ended(s: State, b: Board, t: Tally): State {
    s.(board := b, capturedPieces := t, captureSequence := false, pieceThatMustCapture := None,
      selectedPiece := None, validMoves := [])
  }

  /**
   * A capture of the selected piece: the board becomes `simulateMove`'s
   * board (the piece moved and crowned, the captured enemy removed), the
   * enemy's counter goes up by one, and either the same player goes on
   * capturing with the landed piece, offered exactly its captures, or the
   * turn ends.
   */
  lemma ExecuteCaptureEffect(cfg: Config, s: State, from: Square, m: Move)
    requires Holds(s, from) && m in PieceMoves(s.board, from).captures
    ensures var r := ExecuteMove(cfg, s, m);
      var after := Apply(s.board, MoveData(from, m));
      var t := Bump(s.capturedPieces, Opponent(s.currentPlayer));
      var more := PieceMoves(after, m.to).captures;
      (more != [] ==>
        r == s.(board := after, capturedPieces := t, selectedPiece := Some(m.to), captureSequence := true,
          validMoves := more, captureTimer := if cfg.souffleeRule then Some(m.to) else s.captureTimer)) &&
      (more == [] ==> r == SwitchPlayer(cfg, Ended(s, after, t)))
  {
    PieceMovesLand(s.board, from);
    var b1 := Shift(s.board, from, m);
    assert At(b1, m.captured) == At(s.board, m.captured);
    var after := Apply(s.board, MoveData(from, m));
    ContinuationCaptures(after, m.to, cfg.mandatoryCapture);
    PromotionOnlyCrowns(Put(b1, m.captured, None), m.to);
  }

  /** A simple move of the selected piece: the board becomes `simulateMove`'s board and the turn ends. */
  lemma ExecuteSimpleEffect(cfg: Config, s: State, from: Square, m: Move)
    requires Holds(s, from) && m in PieceMoves(s.board, from).moves
    ensures ExecuteMove(cfg, s, m) == SwitchPlayer(cfg, Ended(s, Apply(s.board, MoveData(from, m)), s.capturedPieces))
  {
    PieceMovesLand(s.board, from);
    PromotionOnlyCrowns(Shift(s.board, from, m), m.to);
  }

  /** `executeMoveWithoutSwitch` of a simple move: `simulateMove`'s board, the selection cleared, the turn not passed. */
  lemma WithoutSwitchEffect(s: State, from: Square, m: Move)
    requires Holds(s, from) && m in PieceMoves(s.board, from).moves
    ensures ExecuteMoveWithoutSwitch(s, m) ==
      s.(board := Apply(s.board, MoveData(from, m)), captureSequence := false, selectedPiece := None, validMoves := [])
  {
    PieceMovesLand(s.board, from);
  }

  /**
   * `applySouffleeRule(row, col)`: nothing on an empty square; otherwise
   * exactly that piece leaves the board, its colour's counter goes up by one,
   * and the turn passes unless the game is over.
   */
  lemma ApplySouffleeEffect(cfg: Config, s: State, sq: Square)
    requires !s.gameOver
    ensures At(s.board, sq).None? ==> ApplySouffleeRule(cfg, s, sq) == s
    ensures At(s.board, sq).Some? ==>
      var p := At(s.board, sq).value;
      var t := s.(board := Put(s.board, sq, None), capturedPieces := Bump(s.capturedPieces, p.color), pieceThatMustCapture := None);
      var r := ApplySouffleeRule(cfg, s, sq);
      r.board == Put(s.board, sq, None) && r.capturedPieces == t.capturedPieces &&
      (Winner(t.board, s.currentPlayer).Some? ==>
        r.gameOver && r.winner == Winner(t.board, s.currentPlayer) && r.currentPlayer == s.currentPlayer &&
        r.pieceThatMustCapture.None?) &&
      (Winner(t.board, s.currentPlayer).None? ==> r == SwitchPlayer(cfg, t))
  {
    if At(s.board, sq).Some? {
      var p := At(s.board, sq).value;
      var t := s.(board := Put(s.board, sq, None), capturedPieces := Bump(s.capturedPieces, p.color), pieceThatMustCapture := None);
      SwitchPlayerEffect(cfg, t);
    }
  }

  /**
   * The square blown in `www/game.js` after a simple move of the piece on
   * `moved` while captures were due: the first other piece that could
   * capture, else the moved piece at its landing square.
   */
  function WebVictim(mustCapture: seq<MoveData>, moved: Square, to: Square): Square {
    match FirstOther(mustCapture, moved)
      case Some(q) => q
      case None => to
  }

  /**
   * Soufflée in `www/game.js`: after a simple move made while the side had
   * captures, exactly one piece of that side leaves the board, the one
   * `WebVictim` names, its counter goes up by one, and the turn passes
   * unless the game is over.
   */
  lemma WebSouffleeEffect(cfg: Config, s: State, from: Square, m: Move)
    requires !s.gameOver && Holds(s, from) && m in PieceMoves(s.board, from).moves
    requires CapturesInSync(s) && s.mustCapture != []
    ensures var after := Apply(s.board, MoveData(from, m));
      var victim := WebVictim(s.mustCapture, from, m.to);
      var r := WebSoufflee(cfg, s, m);
      Owns(after, s.currentPlayer, victim) &&
      r.board == Put(after, victim, None) &&
      r.capturedPieces == Bump(s.capturedPieces, s.currentPlayer) &&
      (Winner(r.board, s.currentPlayer).Some? ==> r.gameOver && r.currentPlayer == s.currentPlayer) &&
      (Winner(r.board, s.currentPlayer).None? ==> r.currentPlayer == Opponent(s.currentPlayer))
  {
    var b := s.board;
    var c := s.currentPlayer;
    var md := MoveData(from, m);
    var after := Apply(b, md);
    PieceMovesLand(b, from);
    ApplyCells(b, c, md);
    WithoutSwitchEffect(s, from, m);
    var s1 := ExecuteMoveWithoutSwitch(s, m);
    var victim := WebVictim(s.mustCapture, from, m.to);
    match FirstOther(s.mustCapture, from)
    case Some(q) =>
      var i :| FirstOtherAt(s.mustCapture, from, i) && s.mustCapture[i].from == q;
      assert s.mustCapture[i] in s.mustCapture;
      MustCaptureIff(b, c, s.mustCapture[i]);
      assert At(after, q) == At(b, q);
      ApplySouffleeEffect(cfg, s1, q);
      SwitchPlayerEffect(cfg, s1.(board := Put(after, q, None), capturedPieces := Bump(s.capturedPieces, c), pieceThatMustCapture := None));
    case None =>
      assert s.mustCapture[0] in s.mustCapture;
      assert HasFrom(s.mustCapture, from);
      ApplySouffleeEffect(cfg, s1, m.to);
      SwitchPlayerEffect(cfg, s1.(board := Put(after, m.to, None), capturedPieces := Bump(s.capturedPieces, c), pieceThatMustCapture := None));
  }

  /**
   * Soufflée in `game.js`: after a simple move, the piece recorded at the
   * start of the turn is blown exactly when its square is still occupied;
   * when the player moved that very piece, nothing is blown and the turn
   * simply passes. After a blow the turn passes unless the game is over.
   */
  lemma ClassicSouffleeEffect(cfg: Config, s: State, from: Square, m: Move)
    requires !s.gameOver && Holds(s, from) && m in PieceMoves(s.board, from).moves
    requires s.pieceThatMustCapture.Some?
    ensures var after := Apply(s.board, MoveData(from, m));
      var q := s.pieceThatMustCapture.value;
      var r := ClassicSoufflee(cfg, s, m);
      (At(after, q).Some? ==>
        r.board == Put(after, q, None) && r.capturedPieces == Bump(s.capturedPieces, At(after, q).value.color) &&
        (Winner(r.board, s.currentPlayer).Some? ==> r.gameOver && r.currentPlayer == s.currentPlayer) &&
        (Winner(r.board, s.currentPlayer).None? ==> r.currentPlayer == Opponent(s.currentPlayer))) &&
      (At(after, q).None? ==>
        r == SwitchPlayer(cfg, s.(board := after, captureSequence := false, selectedPiece := None, validMoves := []))) &&
      (q == from ==>
        r.board == after && r.capturedPieces == s.capturedPieces && r.currentPlayer == Opponent(s.currentPlayer))
  {
    var md := MoveData(from, m);
    PieceMovesLand(s.board, from);
    ApplyCells(s.board, s.currentPlayer, md);
    WithoutSwitchEffect(s, from, m);
    var s1 := ExecuteMoveWithoutSwitch(s, m);
    var q := s.pieceThatMustCapture.value;
    assert s1.board == Apply(s.board, md) && s1.currentPlayer == s.currentPlayer;
    if At(s1.board, q).Some? {
      ApplySouffleeEffect(cfg, s1, q);
      assert ClassicSoufflee(cfg, s, m) == ApplySouffleeRule(cfg, s1, q);
      var t := s1.(board := Put(s1.board, q, None), capturedPieces := Bump(s1.capturedPieces, At(s1.board, q).value.color),
        pieceThatMustCapture := None);
      if Winner(t.board, s.currentPlayer).None? {
        SwitchPlayerEffect(cfg, t);
      }
    } else {
      SwitchPlayerEffect(cfg, s1);
    }
  }

  /**
   * Clicks change nothing once the game is over or while the computer is to
   * move; during a capture chain only a destination listed in `validMoves`
   * is accepted, and accepting it stops the timer before the move.
   */
  lemma ClickGuards(cfg: Config, s: State, sq: Square)
    ensures s.gameOver || (cfg.gameMode == Ai && s.currentPlayer == White) ==> HandleCellClick(cfg, s, sq) == s
    ensures !s.gameOver && !(cfg.gameMode == Ai && s.currentPlayer == White) && s.captureSequence ==>
      ((forall m :: m in s.validMoves ==> m.to != sq) ==> HandleCellClick(cfg, s, sq) == s) &&
      ((exists m :: m in s.validMoves && m.to == sq) ==>
        exists m :: m in s.validMoves && m.to == sq && HandleCellClick(cfg, s, sq) == ExecuteMove(cfg, s.(captureTimer := None), m))
  {
    if !s.gameOver && !(cfg.gameMode == Ai && s.currentPlayer == White) && s.captureSequence {
      var found := FindMove(s.validMoves, sq);
      if found.Some? {
        var i :| FirstLanding(s.validMoves, sq, i) && s.validMoves[i] == found.value;
        assert s.validMoves[i] in s.validMoves;
      }
    }
  }

  /**
   * The selection guard: with mandatory capture on, soufflée off and
   * captures due at the start of the turn, clicking one's own piece that
   * has no capture changes nothing, and one that has selects it with
   * exactly its captures.
   */
  lemma SelectionGuard(cfg: Config, s: State, sq: Square)
    requires !s.gameOver && !(cfg.gameMode == Ai && s.currentPlayer == White) && !s.captureSequence
    requires Owns(s.board, s.currentPlayer, sq)
    requires cfg.mandatoryCapture && !cfg.souffleeRule
    requires CapturesInSync(s) && s.mustCapture != []
    ensures PieceMoves(s.board, sq).captures == [] ==> HandleCellClick(cfg, s, sq) == s
    ensures PieceMoves(s.board, sq).captures != [] ==>
      HandleCellClick(cfg, s, sq) == s.(selectedPiece := Some(sq), validMoves := PieceMoves(s.board, sq).captures)
  {
    var f := PieceMoves(s.board, sq);
    if f.captures == [] {
      if HasFrom(s.mustCapture, sq) {
        var md :| md in s.mustCapture && md.from == sq;
        MustCaptureIff(s.board, s.currentPlayer, md);
      }
    } else {
      MustCaptureIff(s.board, s.currentPlayer, MoveData(sq, f.captures[0]));
      assert HasFrom(s.mustCapture, sq);
    }
  }

  /**
   * The 4-second timer: nothing when none is running; otherwise it stops,
   * and if a piece still stands on its square that piece leaves the board,
   * its counter goes up by one, the chain is abandoned and the turn passes
   * unless the game is over.
   */
  lemma TimeoutEffect(cfg: Config, s: State)
    requires !s.gameOver
    ensures s.captureTimer.None? ==> Timeout(cfg, s) == s
    ensures s.captureTimer.Some? && At(s.board, s.captureTimer.value).None? ==> Timeout(cfg, s) == s.(captureTimer := None)
    ensures s.captureTimer.Some? && At(s.board, s.captureTimer.value).Some? ==>
      var sq := s.captureTimer.value;
      var t := s.(board := Put(s.board, sq, None), capturedPieces := Bump(s.capturedPieces, At(s.board, sq).value.color),
        captureSequence := false, selectedPiece := None, validMoves := [], pieceThatMustCapture := None, captureTimer := None);
      var r := Timeout(cfg, s);
      r.board == t.board && r.capturedPieces == t.capturedPieces && !r.captureSequence &&
      r.selectedPiece.None? && r.validMoves == [] && r.captureTimer.None? &&
      (Winner(t.board, s.currentPlayer).Some? ==> r.gameOver && r.currentPlayer == s.currentPlayer && r.pieceThatMustCapture.None?) &&
      (Winner(t.board, s.currentPlayer).None? ==> r == SwitchPlayer(cfg, t))
  {
    if s.captureTimer.Some? && At(s.board, s.captureTimer.value).Some? {
      var sq := s.captureTimer.value;
      var t := s.(board := Put(s.board, sq, None), capturedPieces := Bump(s.capturedPieces, At(s.board, sq).value.color),
        captureSequence := false, selectedPiece := None, validMoves := [], pieceThatMustCapture := None, captureTimer := None);
      SwitchPlayerEffect(cfg, t);
    }
  }

  /**
   * `restart`/`doRestart`: a fresh game on the starting layout, black to move, nothing selected or
   * counted, no chain and no timer; a computer move already scheduled survives.
   */
  lemma RestartEffect(s: State, b: Board)
    requires IsInitial(b)
    ensures var r := Restart(s, b);
      IsInitial(r.board) && |AllPieces(r.board, Black)| == 20 && |AllPieces(r.board, White)| == 20 &&
      r.currentPlayer == Black && Count(r.capturedPieces, Black) == 0 && Count(r.capturedPieces, White) == 0 &&
      r.selectedPiece.None? && r.validMoves == [] && r.mustCapture == [] && r.pieceThatMustCapture.None? &&
      !r.captureSequence && !r.gameOver && r.winner.None? && r.captureTimer.None? && r.aiPending == s.aiPending
  {
    InitialLayout(b);
  }

  /** The root search over a reordering of `moves` picks one of them whose value is the highest. */
  lemma SearchedBest(e: Engine, b: Board, moves: seq<MoveData>, ordered: seq<MoveData>, d: nat)
    requires moves != [] && multiset(ordered) == multiset(moves)
    ensures RootChoice(e, b, ordered, d, true).Some?
    ensures var r := RootChoice(e, b, ordered, d, true).value;
      r in moves &&
      (forall md :: md in moves ==> Minimax(e, e.apply(b, md), d, false) <= Minimax(e, e.apply(b, r), d, false)) &&
      exists k :: 0 <= k < |ordered| && ordered[k] == r &&
        forall j :: 0 <= j < k ==> Minimax(e, e.apply(b, ordered[j]), d, false) < Minimax(e, e.apply(b, r), d, false)
  {
    assert moves[0] in multiset(moves);
    RootChoiceBest(e, b, ordered, d, true);
    var r := RootChoice(e, b, ordered, d, true).value;
    var k :| 0 <= k < |ordered| && r == ordered[k] &&
      (forall j :: 0 <= j < |ordered| ==>
        !Better(Minimax(e, e.apply(b, ordered[j]), d, false), Minimax(e, e.apply(b, ordered[k]), d, false), true)) &&
      (forall j :: 0 <= j < k ==>
        Better(Minimax(e, e.apply(b, ordered[k]), d, false), Minimax(e, e.apply(b, ordered[j]), d, false), true));
    assert r in multiset(ordered);
    forall md | md in moves
      ensures Minimax(e, e.apply(b, md), d, false) <= Minimax(e, e.apply(b, r), d, false)
    {
      assert md in multiset(ordered);
      var j :| 0 <= j < |ordered| && ordered[j] == md;
    }
  }

  /**
   * `getBestMove()`: `null` exactly when white has no move; otherwise one of
   * white's legal moves; on the easy level a capture whenever there is one;
   * on the other levels a move whose reply has the highest minimax value,
   * the first such in the order tried.
   */
  lemma BestMoveSpec(cfg: Config, b: Board, evaluate: Board -> real, pick: nat)
    ensures var r := BestMove(cfg, b, evaluate, pick);
      var moves := SideMoves(b, White);
      var e := GameEngine(evaluate);
      var d := SearchDepth(cfg) - 1;
      (r.None? <==> moves == []) &&
      (r.Some? ==> r.value in moves && Legal(b, White, r.value)) &&
      (r.Some? && cfg.aiDifficulty == Easy && (exists md :: md in moves && md.move.Capture?) ==> r.value.move.Capture?) &&
      (r.Some? && cfg.aiDifficulty != Easy ==>
        (forall md :: md in moves ==> Minimax(e, Apply(b, md), d, false) <= Minimax(e, Apply(b, r.value), d, false)) &&
        exists k :: 0 <= k < |RootOrder(cfg, moves)| && RootOrder(cfg, moves)[k] == r.value &&
          forall j :: 0 <= j < k ==> Minimax(e, Apply(b, RootOrder(cfg, moves)[j]), d, false) < Minimax(e, Apply(b, r.value), d, false))
  {
    var moves := SideMoves(b, White);
    SideMovesLegal(b, White);
    if moves != [] {
      if cfg.aiDifficulty == Easy {
        EasyChoiceLegal(moves, pick);
      } else {
        SearchedBest(GameEngine(evaluate), b, moves, RootOrder(cfg, moves), SearchDepth(cfg) - 1);
      }
    }
  }

  /**
   * The computer's move: nothing unless one is pending; otherwise the
   * pending flag drops and the move `getBestMove` chose, a legal white move,
   * is made from its origin as `executeAIMove` does.
   */
  lemma PlayAIEffect(cfg: Config, s: State, evaluate: Board -> real, pick: nat)
    ensures !s.aiPending ==> PlayAI(cfg, s, evaluate, pick) == s
    ensures s.aiPending && BestMove(cfg, s.board, evaluate, pick).None? ==>
      PlayAI(cfg, s, evaluate, pick) == s.(aiPending := false) && SideMoves(s.board, White) == []
    ensures s.aiPending && BestMove(cfg, s.board, evaluate, pick).Some? ==>
      var md := BestMove(cfg, s.board, evaluate, pick).value;
      Legal(s.board, White, md) &&
      PlayAI(cfg, s, evaluate, pick) == ExecuteMove(cfg, s.(aiPending := false, selectedPiece := Some(md.from)), md.move)
  {
    BestMoveSpec(cfg, s.board, evaluate, pick);
  }

  /**
   * A capture chain of the computer waits: when the computer's move leaves a
   * chain open, white is still to move, no computer move is pending and
   * every click is ignored, so only the 4-second timer (soufflée on) can end
   * the turn.
   */
  lemma AIChainWaits(cfg: Config, s: State, evaluate: Board -> real, pick: nat, sq: Square)
    requires cfg.gameMode == Ai && s.currentPlayer == White && s.aiPending && !s.gameOver
    ensures var r := PlayAI(cfg, s, evaluate, pick);
      r.captureSequence ==>
        r.currentPlayer == White && !r.aiPending && !r.gameOver &&
        PlayAI(cfg, r, evaluate, pick) == r && HandleCellClick(cfg, r, sq) == r
  {
    var r := PlayAI(cfg, s, evaluate, pick);
    match BestMove(cfg, s.board, evaluate, pick)
    case None =>
    case Some(md) =>
      var s1 := s.(aiPending := false, selectedPiece := Some(md.from));
      var m := md.move;
      if m.Capture? && At(Shift(s1.board, md.from, m), m.captured).Some? {
        var victim := At(Shift(s1.board, md.from, m), m.captured).value;
        var b2 := CheckPromotion(Put(Shift(s1.board, md.from, m), m.captured, None), m.to);
        var t := s1.(board := b2, capturedPieces := Bump(s1.capturedPieces, victim.color), selectedPiece := Some(m.to));
        if |CapturesIn(ValidMoves(b2, m.to, cfg.mandatoryCapture))| == 0 {
          SwitchPlayerEffect(cfg, t.(captureSequence := false, pieceThatMustCapture := None,
            board := CheckPromotion(t.board, m.to), selectedPiece := None, validMoves := []));
        }
      } else if !m.Capture? {
        var t := s1.(board := Shift(s1.board, md.from, m));
        SwitchPlayerEffect(cfg, t.(captureSequence := false, pieceThatMustCapture := None,
          board := CheckPromotion(t.board, m.to), selectedPiece := None, validMoves := []));
      }
  }

  /**
   * A game begun from the menu (`backToMenu`, then `startGame`) gets a fresh
   * board, but the side to move, the counters, the capture lists, the
   * selection, the chain flag and any scheduled computer move are the
   * previous game's. So when that game was left with white to move against
   * the computer and no computer move scheduled, the new game is stuck from
   * the start: every click and every computer step changes nothing.
   */
  lemma MenuStartInherits(cfg: Config, s: State, b: Board, evaluate: Board -> real, pick: nat, sq: Square)
    requires IsInitial(b)
    ensures var r := StartGame(BackToMenu(s), b);
      IsInitial(r.board) && !r.gameOver && r.captureTimer.None? &&
      r.currentPlayer == s.currentPlayer && r.capturedPieces == s.capturedPieces &&
      r.mustCapture == s.mustCapture && r.pieceThatMustCapture == s.pieceThatMustCapture &&
      r.selectedPiece == s.selectedPiece && r.validMoves == s.validMoves &&
      r.captureSequence == s.captureSequence && r.aiPending == s.aiPending
    ensures var r := StartGame(BackToMenu(s), b);
      cfg.gameMode == Ai && s.currentPlayer == White && !s.aiPending ==>
        HandleCellClick(cfg, r, sq) == r && PlayAI(cfg, r, evaluate, pick) == r
  {
  }
}
