/** The starting position, empty hands and value copies (app/lib/board.ts). */
module BoardSetup {
  import opened ShogiTypes

  const ZeroHand: Hand := Hand(0, 0, 0, 0, 0, 0, 0, 0)

  /** Both hands hold nothing, the king's counter included. */
  function EmptyHands(): (h: Hands)
    ensures forall o, t :: h.Count(o, t) == 0
  {
    Hands(ZeroHand, ZeroHand)
  }

  const BackRank: seq<PieceType> := [Lance, Knight, Silver, Gold, King, Gold, Silver, Knight, Lance]

  /** The intended starting layout, square by square. */
  function InitialCell(r: int, c: int): Cell
    requires IsInside(r, c)
  {
    if r == 0 then Some(Piece(BackRank[c], White, false))
    else if r == 2 then Some(Piece(Pawn, White, false))
    else if r == 6 then Some(Piece(Pawn, Black, false))
    else if r == 8 then Some(Piece(BackRank[c], Black, false))
    else if r == 1 && c == 1 then Some(Piece(Rook, White, false))
    else if r == 1 && c == 7 then Some(Piece(Bishop, White, false))
    else if r == 7 && c == 1 then Some(Piece(Bishop, Black, false))
    else if r == 7 && c == 7 then Some(Piece(Rook, Black, false))
    else None
  }

  /** Fills an empty board: back ranks and pawn ranks column by column, then
      the four rooks and bishops. */
  method InitialBoard() returns (board: Board)
    ensures forall r, c :: IsInside(r, c) ==> board[r][c] == InitialCell(r, c)
  {
    board := seq(9, _ => EmptyRow);
    for c := 0 to 9
      invariant forall r, c' :: IsInside(r, c') ==>
        board[r][c'] == (if c' < c && r in {0, 2, 6, 8} then InitialCell(r, c') else None)
    {
      board := SetCell(board, Square(0, c), Some(Piece(BackRank[c], White, false)));
      board := SetCell(board, Square(2, c), Some(Piece(Pawn, White, false)));
      board := SetCell(board, Square(6, c), Some(Piece(Pawn, Black, false)));
      board := SetCell(board, Square(8, c), Some(Piece(BackRank[c], Black, false)));
    }
    board := SetCell(board, Square(1, 1), Some(Piece(Rook, White, false)));
    board := SetCell(board, Square(1, 7), Some(Piece(Bishop, White, false)));
    board := SetCell(board, Square(7, 1), Some(Piece(Bishop, Black, false)));
    board := SetCell(board, Square(7, 7), Some(Piece(Rook, Black, false)));
  }

  /** The home square of each king. */
  function KingHome(o: Owner): Square {
    if o == Black then Square(8, 4) else Square(0, 4)
  }

  /** Each side has exactly one king, on its home square, and nothing starts
      promoted. */
  lemma InitialKings(o: Owner)
    ensures forall r, c :: IsInside(r, c) ==>
      ((InitialCell(r, c).Some? && InitialCell(r, c).value.kind == King && InitialCell(r, c).value.owner == o)
       <==> Square(r, c) == KingHome(o))
    ensures forall r, c :: IsInside(r, c) && InitialCell(r, c).Some? ==> !InitialCell(r, c).value.promoted
  {
    forall r, c | IsInside(r, c)
      ensures (InitialCell(r, c).Some? && InitialCell(r, c).value.kind == King && InitialCell(r, c).value.owner == o)
              <==> Square(r, c) == KingHome(o)
    {
      if r == 0 || r == 8 {
        assert BackRank[c] == King <==> c == 4;
      }
    }
  }

  /** The layout is point-symmetric: turning the board half a turn swaps the
      owners and nothing else. */
  lemma InitialSymmetric(r: int, c: int)
    requires IsInside(r, c)
    ensures InitialCell(8 - r, 8 - c).None? <==> InitialCell(r, c).None?
    ensures InitialCell(r, c).Some? ==>
      InitialCell(8 - r, 8 - c) == Some(InitialCell(r, c).value.(owner := Opponent(InitialCell(r, c).value.owner)))
  {
    if r == 0 || r == 8 {
      assert BackRank[8 - c] == BackRank[c];
    }
  }

  /** Squares outside the back ranks, the pawn ranks and the four rook and
      bishop squares start empty. */
  lemma InitialEmptySquares(r: int, c: int)
    requires IsInside(r, c)
    requires r !in {0, 2, 6, 8} && Square(r, c) !in {Square(1, 1), Square(1, 7), Square(7, 1), Square(7, 7)}
    ensures InitialCell(r, c).None?
  {
  }

  function CloneRow(row: Row): (r: Row)
    ensures r == row
  {
    seq(9, j requires 0 <= j < 9 => row[j])
  }

  /** A cell-by-cell copy of the board. */
  function CloneBoard(b: Board): (r: Board)
    ensures forall i, j :: IsInside(i, j) ==> r[i][j] == b[i][j]
    ensures r == b
  {
    seq(9, i requires 0 <= i < 9 => CloneRow(b[i]))
  }

  function CloneHand(h: Hand): (r: Hand)
    ensures forall t :: r.Count(t) == h.Count(t)
  {
    Hand(h.pawn, h.lance, h.knight, h.silver, h.gold, h.bishop, h.rook, h.king)
  }

  /** A count-by-count copy of both hands. */
  function CloneHands(h: Hands): (r: Hands)
    ensures forall o, t :: r.Count(o, t) == h.Count(o, t)
    ensures r == h
  {
    Hands(CloneHand(h.black), CloneHand(h.white))
  }
}
