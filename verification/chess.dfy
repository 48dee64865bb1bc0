/**
 * The vocabulary shared with the chess rules library. The library itself
 * (legality, move application, SAN, FEN generation, board extraction) is
 * not modelled: it enters every operation as a `MoveOracle` parameter or
 * as a board grid the caller supplies.
 */
module Chess {
  import opened Common

  /** A position encoding (FEN); opaque, compared as text. */
  type Fen = string

  /** The position of a freshly constructed game, `new Chess().fen()`. */
  const StartFen: Fen := "rnbqkbnr/pppppppp/8/8/8/8/PPPPPPPP/RNBQKBNR w KQkq - 0 1"

  /** The argument of `chess.move({ from, to, promotion })`. */
  datatype MoveRequest = MoveRequest(from: string, to: string, promotion: string)

  /** What a successful `chess.move` leaves behind: the new position and the move's SAN. */
  datatype Applied = Applied(after: Fen, san: string)

  /**
   * The rules library as a total function: `None` for an illegal move,
   * otherwise the successor position and the move in SAN.
   */
  type MoveOracle = (Fen, MoveRequest) -> Option<Applied>

  datatype Color = White | Black

  /** Piece types; `King` is present on the board but never counted as material. */
  datatype Kind = Pawn | Knight | Bishop | Rook | Queen | King

  datatype Piece = Piece(color: Color, kind: Kind)

  /** `chess.board()`: ranks of squares, each empty or holding a piece. */
  type Board = seq<seq<Option<Piece>>>

  function Opponent(c: Color): Color {
    match c
    case White => Black
    case Black => White
  }
}
