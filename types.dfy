/** Value types of the game: owners, pieces, squares, moves, the 9x9 board
    and the two hands. Everything here is an immutable value. */
module ShogiTypes {

  datatype Option<T> = None | Some(value: T)

  /** "b" moves towards row 0, "w" towards row 8. */
  datatype Owner = Black | White

  function Opponent(o: Owner): (r: Owner)
    ensures r != o
  {
    if o == Black then White else Black
  }

  datatype PieceType = Pawn | Lance | Knight | Silver | Gold | Bishop | Rook | King

  /** Promotion is a flag; the piece keeps its base type. */
  datatype Piece = Piece(kind: PieceType, owner: Owner, promoted: bool)

  datatype Square = Square(r: int, c: int)

  datatype Promotion = PromoteNone | PromoteOptional | PromoteMust

  /** A board move has `from`; a drop has `drop`. */
  datatype Move = Move(from: Option<Square>, to: Square, drop: Option<PieceType>, promotion: Promotion)

  type Cell = Option<Piece>

  type Row = s: seq<Cell> | |s| == 9 witness seq(9, _ => None)

  const EmptyRow: Row := seq(9, _ => None)

  /** Rows 0..8 of nine cells each; row 0 is White's back rank. */
  type Board = b: seq<Row> | |b| == 9 witness seq(9, _ => EmptyRow)

  predicate IsInside(r: int, c: int) {
    0 <= r < 9 && 0 <= c < 9
  }

  predicate OnBoard(s: Square) {
    IsInside(s.r, s.c)
  }

  function At(b: Board, s: Square): Cell
    requires OnBoard(s)
  {
    b[s.r][s.c]
  }

  /** The board with one cell replaced. */
  function SetCell(b: Board, s: Square, x: Cell): (b': Board)
    requires OnBoard(s)
    ensures At(b', s) == x
    ensures forall r, c :: IsInside(r, c) && (r, c) != (s.r, s.c) ==> b'[r][c] == b[r][c]
  {
    b[s.r := b[s.r][s.c := x]]
  }

  /** Row-major square numbering 0..80 used by the board scans. */
  function SquareAt(k: int): (s: Square)
    requires 0 <= k < 81
    ensures OnBoard(s) && s.r * 9 + s.c == k
  {
    Square(k / 9, k % 9)
  }

  /** Counts of captured pieces held by one side; the source keeps a count for
      every piece type, the king included. */
  datatype Hand = Hand(pawn: int, lance: int, knight: int, silver: int,
                       gold: int, bishop: int, rook: int, king: int)
  {
    function Count(t: PieceType): int {
      match t
      case Pawn => pawn
      case Lance => lance
      case Knight => knight
      case Silver => silver
      case Gold => gold
      case Bishop => bishop
      case Rook => rook
      case King => king
    }

    function With(t: PieceType, n: int): (h: Hand)
      ensures h.Count(t) == n
      ensures forall u :: u != t ==> h.Count(u) == Count(u)
    {
      match t
      case Pawn => this.(pawn := n)
      case Lance => this.(lance := n)
      case Knight => this.(knight := n)
      case Silver => this.(silver := n)
      case Gold => this.(gold := n)
      case Bishop => this.(bishop := n)
      case Rook => this.(rook := n)
      case King => this.(king := n)
    }
  }

  datatype Hands = Hands(black: Hand, white: Hand)
  {
    function Of(o: Owner): Hand {
      if o == Black then black else white
    }

    function Count(o: Owner, t: PieceType): int {
      Of(o).Count(t)
    }

    /** The hands with one count replaced. */
    function WithCount(o: Owner, t: PieceType, n: int): (h: Hands)
      ensures h.Count(o, t) == n
      ensures forall o', u :: (o', u) != (o, t) ==> h.Count(o', u) == Count(o', u)
    {
      if o == Black then this.(black := black.With(t, n)) else this.(white := white.With(t, n))
    }
  }

  /** A snapshot produced by applying a move. */
  datatype Position = Position(board: Board, hands: Hands)
}
