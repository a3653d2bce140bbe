/** Promotion policy, per-piece pseudo-moves, drop generation and move
    application (app/lib/moves.ts). */
module Moves {
  import opened ShogiTypes
  import BoardSetup

  // ---------------------------------------------------------------------
  // Promotion policy

  /** Rows 0..2 for Black, rows 6..8 for White. */
  predicate InPromotionZone(owner: Owner, row: int) {
    if owner == Black then row <= 2 else row >= 6
  }

  predicate CanPromote(p: Piece) {
    p.kind != King && p.kind != Gold && !p.promoted
  }

  predicate MustPromote(p: Piece, toRow: int) {
    if p.promoted then false
    else if p.owner == Black then
      ((p.kind == Pawn || p.kind == Lance) && toRow == 0) || (p.kind == Knight && toRow <= 1)
    else
      ((p.kind == Pawn || p.kind == Lance) && toRow == 8) || (p.kind == Knight && toRow >= 7)
  }

  /** The owner's farthest rank. */
  function LastRank(o: Owner): int {
    if o == Black then 0 else 8
  }

  /** How many rows `row` lies before the owner's farthest rank. */
  function RowsToGo(o: Owner, row: int): int {
    if o == Black then row else 8 - row
  }

  /** The promotion tag of a board move of `p` between two rows: none for a
      piece that cannot promote or a move that neither starts nor ends in the
      zone, must when the piece would otherwise have no move left, optional
      otherwise. */
  function GetMovePromotion(p: Piece, fromRow: int, toRow: int): Promotion {
    if !CanPromote(p) then PromoteNone
    else if !(InPromotionZone(p.owner, fromRow) || InPromotionZone(p.owner, toRow)) then PromoteNone
    else if MustPromote(p, toRow) then PromoteMust
    else PromoteOptional
  }

  /** What the tag says: none exactly for a piece that cannot promote or a
      move that neither starts nor ends in the zone; must exactly when the
      piece would otherwise have no move left (a pawn or lance on the last
      rank, a knight on the last two); optional otherwise. */
  lemma PromotionTag(p: Piece, fromRow: int, toRow: int)
    ensures var pr := GetMovePromotion(p, fromRow, toRow);
      && (pr == PromoteNone <==> !CanPromote(p) || (!InPromotionZone(p.owner, fromRow) && !InPromotionZone(p.owner, toRow)))
      && (pr == PromoteMust <==> pr != PromoteNone && MustPromote(p, toRow))
      && (MustPromote(p, toRow) ==> pr == PromoteMust)
      && (!p.promoted && (p.kind == Pawn || p.kind == Lance) && toRow == LastRank(p.owner) ==> pr == PromoteMust)
      && (!p.promoted && p.kind == Knight && RowsToGo(p.owner, toRow) <= 1 ==> pr == PromoteMust)
  {
  }

  // ---------------------------------------------------------------------
  // Pseudo-moves

  /** -1 for Black (towards row 0), +1 for White. */
  function Forward(o: Owner): int {
    if o == Black then -1 else 1
  }

  const KingSteps: seq<(int, int)> := [(-1, -1), (-1, 0), (-1, 1), (0, -1), (0, 1), (1, -1), (1, 0), (1, 1)]
  const DiagonalSteps: seq<(int, int)> := [(-1, -1), (-1, 1), (1, -1), (1, 1)]
  const OrthogonalSteps: seq<(int, int)> := [(-1, 0), (1, 0), (0, -1), (0, 1)]

  function GoldSteps(d: int): seq<(int, int)> {
    [(d, -1), (d, 0), (d, 1), (0, -1), (0, 1), (-d, 0)]
  }

  function SilverSteps(d: int): seq<(int, int)> {
    [(d, -1), (d, 0), (d, 1), (-d, -1), (-d, 1)]
  }

  function KnightSteps(d: int): seq<(int, int)> {
    [(d * 2, -1), (d * 2, 1)]
  }

  /** The move `pushMove` records. */
  function BoardMove(p: Piece, from: Square, to: Square): Move {
    Move(Some(from), to, None, GetMovePromotion(p, from.r, to.r))
  }

  predicate OwnPieceAt(b: Board, s: Square, o: Owner)
    requires OnBoard(s)
  {
    At(b, s).Some? && At(b, s).value.owner == o
  }

  /** What every generated board move of `p` standing on `from` satisfies: it
      starts at `from`, ends inside the board on a square not holding one of
      the mover's pieces, and carries the promotion tag of its two rows. */
  predicate PseudoShape(b: Board, p: Piece, from: Square, m: Move) {
    OnBoard(m.to) && m == BoardMove(p, from, m.to) && !OwnPieceAt(b, m.to, p.owner)
  }

  function Targets(ms: seq<Move>): set<Square> {
    set m | m in ms :: m.to
  }

  /** One step by `off` (tryStep). */
  function StepMoves(b: Board, p: Piece, from: Square, off: (int, int)): seq<Move> {
    var s := Square(from.r + off.0, from.c + off.1);
    if !OnBoard(s) then []
    else if OwnPieceAt(b, s, p.owner) then []
    else [BoardMove(p, from, s)]
  }

  /** A step reaches its square when that square is inside the board and
      does not hold one of the mover's pieces. */
  lemma StepMovesShape(b: Board, p: Piece, from: Square, off: (int, int))
    ensures forall m :: m in StepMoves(b, p, from, off) ==> PseudoShape(b, p, from, m)
    ensures Targets(StepMoves(b, p, from, off)) ==
      (var s := Square(from.r + off.0, from.c + off.1); if OnBoard(s) && !OwnPieceAt(b, s, p.owner) then {s} else {})
  {
  }

  /** The squares `offs` lead to from `from`. */
  function OffsetSquares(from: Square, offs: seq<(int, int)>): set<Square> {
    set i | 0 <= i < |offs| :: Square(from.r + offs[i].0, from.c + offs[i].1)
  }

  /** One step by each offset in turn (`steps.forEach(tryStep)`). */
  function Steps(b: Board, p: Piece, from: Square, offs: seq<(int, int)>): seq<Move>
    decreases |offs|
  {
    if |offs| == 0 then []
    else Steps(b, p, from, offs[..|offs| - 1]) + StepMoves(b, p, from, offs[|offs| - 1])
  }

  lemma {:induction false} StepsShape(b: Board, p: Piece, from: Square, offs: seq<(int, int)>)
    ensures forall m :: m in Steps(b, p, from, offs) ==> PseudoShape(b, p, from, m)
    decreases |offs|
  {
    if |offs| > 0 {
      StepsShape(b, p, from, offs[..|offs| - 1]);
      StepMovesShape(b, p, from, offs[|offs| - 1]);
    }
  }

  /** The squares the steps reach are the offset squares inside the board
      not holding one of the mover's pieces. */
  lemma {:induction false} StepsTargetSet(b: Board, p: Piece, from: Square, offs: seq<(int, int)>)
    ensures Targets(Steps(b, p, from, offs)) == set s | s in OffsetSquares(from, offs) && OnBoard(s) && !OwnPieceAt(b, s, p.owner)
    decreases |offs|
  {
    if |offs| > 0 {
      var n := |offs| - 1;
      var rest := Steps(b, p, from, offs[..n]);
      var last := StepMoves(b, p, from, offs[n]);
      StepsTargetSet(b, p, from, offs[..n]);
      OffsetSquaresSnoc(from, offs);
      TargetsConcat(rest, last);
      StepMovesShape(b, p, from, offs[n]);
    }
  }

  lemma OffsetSquaresSnoc(from: Square, offs: seq<(int, int)>)
    requires |offs| > 0
    ensures var n := |offs| - 1;
      OffsetSquares(from, offs) == OffsetSquares(from, offs[..n]) + {Square(from.r + offs[n].0, from.c + offs[n].1)}
  {
    var n := |offs| - 1;
    forall s | s in OffsetSquares(from, offs)
      ensures s in OffsetSquares(from, offs[..n]) + {Square(from.r + offs[n].0, from.c + offs[n].1)}
    {
      var i :| 0 <= i < |offs| && s == Square(from.r + offs[i].0, from.c + offs[i].1);
      if i < n { assert offs[..n][i] == offs[i]; }
    }
    forall s | s in OffsetSquares(from, offs[..n])
      ensures s in OffsetSquares(from, offs)
    {
      var i :| 0 <= i < n && s == Square(from.r + offs[..n][i].0, from.c + offs[..n][i].1);
      assert offs[..n][i] == offs[i];
    }
  }

  lemma TargetsConcat(xs: seq<Move>, ys: seq<Move>)
    ensures Targets(xs + ys) == Targets(xs) + Targets(ys)
  {
  }

  predicate UnitDirection(dr: int, dc: int) {
    -1 <= dr <= 1 && -1 <= dc <= 1 && (dr, dc) != (0, 0)
  }

  function Remaining(x: int, d: int): int {
    if d > 0 then 9 - x else if d < 0 then x + 1 else 10
  }

  /** Squares left on the ray: a bound for the slide loop. */
  function SlideFuel(nr: int, nc: int, dr: int, dc: int): nat {
    if !IsInside(nr, nc) then 0
    else if Remaining(nr, dr) < Remaining(nc, dc) then Remaining(nr, dr)
    else Remaining(nc, dc)
  }

  /** The rest of a slide from (nr, nc) on in direction (dr, dc): consecutive
      empty squares, then the first occupied square if an opponent holds it. */
  function SlideMoves(b: Board, p: Piece, from: Square, nr: int, nc: int, dr: int, dc: int): seq<Move>
    requires UnitDirection(dr, dc)
    decreases SlideFuel(nr, nc, dr, dc)
  {
    if !IsInside(nr, nc) then []
    else
      var s := Square(nr, nc);
      match At(b, s)
      case Some(target) =>
        if target.owner != p.owner then [BoardMove(p, from, s)] else []
      case None =>
        [BoardMove(p, from, s)] + SlideMoves(b, p, from, nr + dr, nc + dc, dr, dc)
  }

  /** Every square of a slide is a board move of the piece inside the board,
      and the slide starts at (nr, nc). */
  lemma {:induction false} SlideMovesShape(b: Board, p: Piece, from: Square, nr: int, nc: int, dr: int, dc: int)
    requires UnitDirection(dr, dc)
    ensures var ms := SlideMoves(b, p, from, nr, nc, dr, dc);
      && (forall m :: m in ms ==> PseudoShape(b, p, from, m))
      && (forall k :: 0 <= k < |ms| ==> OnBoard(ms[k].to))
      && (|ms| > 0 ==> ms[0].to == Square(nr, nc))
    decreases SlideFuel(nr, nc, dr, dc)
  {
    if IsInside(nr, nc) && At(b, Square(nr, nc)).None? {
      SlideMovesShape(b, p, from, nr + dr, nc + dc, dr, dc);
      var rest := SlideMoves(b, p, from, nr + dr, nc + dc, dr, dc);
      assert SlideMoves(b, p, from, nr, nc, dr, dc) == [BoardMove(p, from, Square(nr, nc))] + rest;
    }
  }

  /** `ms` walks the ray from (nr, nc) in direction (dr, dc): consecutive
      squares inside the board, every one of them empty except possibly the
      last, stopping exactly where the ray is blocked: at the board's edge,
      before one of `owner`'s pieces, or on the first other piece. */
  ghost predicate RayWalk(b: Board, owner: Owner, nr: int, nc: int, dr: int, dc: int, ms: seq<Move>) {
    && (forall k :: 0 <= k < |ms| ==> OnBoard(ms[k].to))
    && (forall k :: 0 <= k < |ms| - 1 ==> ms[k + 1].to == Square(ms[k].to.r + dr, ms[k].to.c + dc))
    && (forall k :: 0 <= k < |ms| - 1 ==> At(b, ms[k].to).None?)
    && (ms == [] ==> !IsInside(nr, nc) || OwnPieceAt(b, Square(nr, nc), owner))
    && (ms != [] ==> At(b, ms[|ms| - 1].to).Some? || !IsInside(ms[|ms| - 1].to.r + dr, ms[|ms| - 1].to.c + dc)
                     || OwnPieceAt(b, Square(ms[|ms| - 1].to.r + dr, ms[|ms| - 1].to.c + dc), owner))
  }

  /** A slide walks consecutive squares of one ray, every one of them empty
      except possibly the last, and stops exactly where the ray is blocked:
      at the board's edge, before one of the mover's own pieces, or on the
      first opponent piece. */
  lemma {:induction false} SlideRay(b: Board, p: Piece, from: Square, nr: int, nc: int, dr: int, dc: int)
    requires UnitDirection(dr, dc)
    ensures RayWalk(b, p.owner, nr, nc, dr, dc, SlideMoves(b, p, from, nr, nc, dr, dc))
    decreases SlideFuel(nr, nc, dr, dc)
  {
    var ms := SlideMoves(b, p, from, nr, nc, dr, dc);
    SlideMovesShape(b, p, from, nr, nc, dr, dc);
    if IsInside(nr, nc) && At(b, Square(nr, nc)).None? {
      var m := BoardMove(p, from, Square(nr, nc));
      var rest := SlideMoves(b, p, from, nr + dr, nc + dc, dr, dc);
      SlideRay(b, p, from, nr + dr, nc + dc, dr, dc);
      SlideMovesShape(b, p, from, nr + dr, nc + dc, dr, dc);
      assert ms == [m] + rest;
      RayStep(b, p.owner, m, rest, nr, nc, dr, dc);
    }
  }

  /** One more empty square in front of a ray walk is a ray walk. */
  lemma RayStep(b: Board, owner: Owner, m: Move, rest: seq<Move>, nr: int, nc: int, dr: int, dc: int)
    requires m.to == Square(nr, nc) && OnBoard(m.to) && At(b, m.to).None?
    requires rest != [] ==> rest[0].to == Square(nr + dr, nc + dc)
    requires RayWalk(b, owner, nr + dr, nc + dc, dr, dc, rest)
    ensures RayWalk(b, owner, nr, nc, dr, dc, [m] + rest)
  {
    RayCons(b, m, rest, dr, dc);
    RayLast(b, owner, m, rest, dr, dc);
    var ms := [m] + rest;
    assert forall k :: 0 <= k < |ms| ==> OnBoard(ms[k].to) by {
      forall k | 0 <= k < |ms| ensures OnBoard(ms[k].to) {
        if k > 0 { assert ms[k] == rest[k - 1]; }
      }
    }
  }

  /** Where a slide with one more empty square in front stops. */
  lemma RayLast(b: Board, owner: Owner, m: Move, rest: seq<Move>, dr: int, dc: int)
    requires OnBoard(m.to) && forall k :: 0 <= k < |rest| ==> OnBoard(rest[k].to)
    requires rest == [] ==> !IsInside(m.to.r + dr, m.to.c + dc) || OwnPieceAt(b, Square(m.to.r + dr, m.to.c + dc), owner)
    requires rest != [] ==> At(b, rest[|rest| - 1].to).Some? || !IsInside(rest[|rest| - 1].to.r + dr, rest[|rest| - 1].to.c + dc)
                            || OwnPieceAt(b, Square(rest[|rest| - 1].to.r + dr, rest[|rest| - 1].to.c + dc), owner)
    ensures var ms := [m] + rest;
      At(b, ms[|ms| - 1].to).Some? || !IsInside(ms[|ms| - 1].to.r + dr, ms[|ms| - 1].to.c + dc)
      || OwnPieceAt(b, Square(ms[|ms| - 1].to.r + dr, ms[|ms| - 1].to.c + dc), owner)
  {
    var ms := [m] + rest;
    if rest != [] {
      assert ms[|ms| - 1] == rest[|rest| - 1];
    }
  }

  /** Consecutive empty squares of a ray stay so with one more empty
      square in front. */
  lemma RayCons(b: Board, m: Move, rest: seq<Move>, dr: int, dc: int)
    requires OnBoard(m.to) && At(b, m.to).None?
    requires forall k :: 0 <= k < |rest| ==> OnBoard(rest[k].to)
    requires rest != [] ==> rest[0].to == Square(m.to.r + dr, m.to.c + dc)
    requires forall k :: 0 <= k < |rest| - 1 ==> rest[k + 1].to == Square(rest[k].to.r + dr, rest[k].to.c + dc)
    requires forall k :: 0 <= k < |rest| - 1 ==> At(b, rest[k].to).None?
    ensures var ms := [m] + rest;
      && (forall k :: 0 <= k < |ms| - 1 ==> ms[k + 1].to == Square(ms[k].to.r + dr, ms[k].to.c + dc))
      && (forall k :: 0 <= k < |ms| - 1 ==> At(b, ms[k].to).None?)
  {
    var ms := [m] + rest;
    forall k | 0 <= k < |ms| - 1
      ensures ms[k + 1].to == Square(ms[k].to.r + dr, ms[k].to.c + dc) && At(b, ms[k].to).None?
    {
      if k > 0 { assert ms[k] == rest[k - 1] && ms[k + 1] == rest[k]; }
    }
  }

  /** A slide starting next to `from` (trySlide). */
  function Slide(b: Board, p: Piece, from: Square, dr: int, dc: int): seq<Move>
    requires UnitDirection(dr, dc)
  {
    SlideMoves(b, p, from, from.r + dr, from.c + dc, dr, dc)
  }

  function RookSlides(b: Board, p: Piece, from: Square): seq<Move> {
    Slide(b, p, from, 1, 0) + Slide(b, p, from, -1, 0) + Slide(b, p, from, 0, 1) + Slide(b, p, from, 0, -1)
  }

  function BishopSlides(b: Board, p: Piece, from: Square): seq<Move> {
    Slide(b, p, from, 1, 1) + Slide(b, p, from, 1, -1) + Slide(b, p, from, -1, 1) + Slide(b, p, from, -1, -1)
  }

  /** Moves of a promoted piece other than the king. */
  function PromotedMoves(b: Board, p: Piece, from: Square): seq<Move> {
    if p.kind == Rook then RookSlides(b, p, from) + Steps(b, p, from, DiagonalSteps)
    else if p.kind == Bishop then BishopSlides(b, p, from) + Steps(b, p, from, OrthogonalSteps)
    else Steps(b, p, from, GoldSteps(Forward(p.owner)))
  }

  /** Moves of an unpromoted piece other than the king. */
  function UnpromotedMoves(b: Board, p: Piece, from: Square): seq<Move> {
    var d := Forward(p.owner);
    match p.kind
    case Pawn => StepMoves(b, p, from, (d, 0))
    case Lance => Slide(b, p, from, d, 0)
    case Knight => Steps(b, p, from, KnightSteps(d))
    case Silver => Steps(b, p, from, SilverSteps(d))
    case Gold => Steps(b, p, from, GoldSteps(d))
    case Bishop => BishopSlides(b, p, from)
    case Rook => RookSlides(b, p, from)
    case King => []
  }

  /** The pseudo-legal board moves of piece `p` standing on `from`. */
  function PieceMoves(b: Board, p: Piece, from: Square): seq<Move> {
    if p.kind == King then Steps(b, p, from, KingSteps)
    else if p.promoted then PromotedMoves(b, p, from)
    else UnpromotedMoves(b, p, from)
  }

  /** The pseudo-legal board moves of the piece on (r, c), in the order the
      source generates them; none for an empty square. */
  function PseudoMoves(b: Board, r: int, c: int): seq<Move>
    requires IsInside(r, c)
  {
    match b[r][c]
    case None => []
    case Some(p) => PieceMoves(b, p, Square(r, c))
  }

  method TryStep(b: Board, p: Piece, from: Square, off: (int, int), moves: seq<Move>) returns (moves': seq<Move>)
    ensures moves' == moves + StepMoves(b, p, from, off)
  {
    moves' := moves;
    var nr := from.r + off.0;
    var nc := from.c + off.1;
    if !IsInside(nr, nc) {
      return;
    }
    var target := b[nr][nc];
    if target.Some? && target.value.owner == p.owner {
      return;
    }
    moves' := moves' + [BoardMove(p, from, Square(nr, nc))];
  }

  method TrySteps(b: Board, p: Piece, from: Square, offs: seq<(int, int)>, moves: seq<Move>) returns (moves': seq<Move>)
    ensures moves' == moves + Steps(b, p, from, offs)
  {
    moves' := moves;
    for i := 0 to |offs|
      invariant moves' == moves + Steps(b, p, from, offs[..i])
    {
      assert offs[..i + 1][..i] == offs[..i];
      moves' := TryStep(b, p, from, offs[i], moves');
    }
    assert offs[..|offs|] == offs;
  }

  method TrySlide(b: Board, p: Piece, from: Square, dr: int, dc: int, moves: seq<Move>) returns (moves': seq<Move>)
    requires UnitDirection(dr, dc)
    ensures moves' == moves + Slide(b, p, from, dr, dc)
  {
    moves' := moves;
    var nr := from.r + dr;
    var nc := from.c + dc;
    while IsInside(nr, nc)
      invariant moves' + SlideMoves(b, p, from, nr, nc, dr, dc) == moves + Slide(b, p, from, dr, dc)
      decreases SlideFuel(nr, nc, dr, dc)
    {
      var target := b[nr][nc];
      if target.Some? {
        if target.value.owner != p.owner {
          moves' := moves' + [BoardMove(p, from, Square(nr, nc))];
        }
        break;
      }
      moves' := moves' + [BoardMove(p, from, Square(nr, nc))];
      nr := nr + dr;
      nc := nc + dc;
    }
  }

  method TryRookSlides(b: Board, p: Piece, from: Square, moves: seq<Move>) returns (moves': seq<Move>)
    ensures moves' == moves + RookSlides(b, p, from)
  {
    moves' := TrySlide(b, p, from, 1, 0, moves);
    moves' := TrySlide(b, p, from, -1, 0, moves');
    moves' := TrySlide(b, p, from, 0, 1, moves');
    moves' := TrySlide(b, p, from, 0, -1, moves');
  }

  method TryBishopSlides(b: Board, p: Piece, from: Square, moves: seq<Move>) returns (moves': seq<Move>)
    ensures moves' == moves + BishopSlides(b, p, from)
  {
    moves' := TrySlide(b, p, from, 1, 1, moves);
    moves' := TrySlide(b, p, from, 1, -1, moves');
    moves' := TrySlide(b, p, from, -1, 1, moves');
    moves' := TrySlide(b, p, from, -1, -1, moves');
  }

  /** The branch of getMovesForPiece for a promoted piece other than the king. */
  method TryPromotedMoves(b: Board, piece: Piece, from: Square) returns (moves: seq<Move>)
    ensures moves == PromotedMoves(b, piece, from)
  {
    if piece.kind == Rook {
      var slides := TryRookSlides(b, piece, from, []);
      assert slides == RookSlides(b, piece, from);
      moves := TrySteps(b, piece, from, DiagonalSteps, slides);
      return;
    }
    if piece.kind == Bishop {
      var slides := TryBishopSlides(b, piece, from, []);
      assert slides == BishopSlides(b, piece, from);
      moves := TrySteps(b, piece, from, OrthogonalSteps, slides);
      return;
    }
    moves := TrySteps(b, piece, from, GoldSteps(Forward(piece.owner)), []);
    assert moves == Steps(b, piece, from, GoldSteps(Forward(piece.owner)));
  }

  /** The `switch` of getMovesForPiece for an unpromoted piece. */
  method TryUnpromotedMoves(b: Board, piece: Piece, from: Square) returns (moves: seq<Move>)
    ensures moves == UnpromotedMoves(b, piece, from)
  {
    var dir := Forward(piece.owner);
    moves := [];
    match piece.kind {
      case Pawn =>
        moves := TryStep(b, piece, from, (dir, 0), moves);
      case Lance =>
        moves := TrySlide(b, piece, from, dir, 0, moves);
      case Knight =>
        moves := TrySteps(b, piece, from, KnightSteps(dir), moves);
      case Silver =>
        moves := TrySteps(b, piece, from, SilverSteps(dir), moves);
      case Gold =>
        moves := TrySteps(b, piece, from, GoldSteps(dir), moves);
      case Bishop =>
        moves := TryBishopSlides(b, piece, from, moves);
      case Rook =>
        moves := TryRookSlides(b, piece, from, moves);
      case King =>
    }
  }

  /** getMovesForPiece: the pseudo-moves of the piece on (r, c). */
  method GetMovesForPiece(b: Board, r: int, c: int) returns (moves: seq<Move>)
    requires IsInside(r, c)
    ensures moves == PseudoMoves(b, r, c)
  {
    var cell := b[r][c];
    if cell.None? {
      return [];
    }
    var piece := cell.value;
    var from := Square(r, c);
    if piece.kind == King {
      moves := TrySteps(b, piece, from, KingSteps, []);
      return;
    }
    if piece.promoted {
      moves := TryPromotedMoves(b, piece, from);
      return;
    }
    moves := TryUnpromotedMoves(b, piece, from);
  }

  /** Every pseudo-move of the piece on (r, c) starts there, ends inside the
      board on a square without one of the mover's own pieces, and carries
      the promotion tag of its rows; an empty square has none. */
  lemma PseudoMovesShape(b: Board, r: int, c: int)
    requires IsInside(r, c)
    ensures b[r][c].None? ==> PseudoMoves(b, r, c) == []
    ensures b[r][c].Some? ==> forall m :: m in PseudoMoves(b, r, c) ==> PseudoShape(b, b[r][c].value, Square(r, c), m)
  {
    if b[r][c].Some? {
      PieceMovesShape(b, b[r][c].value, Square(r, c));
    }
  }

  lemma SlidesShape(b: Board, p: Piece, from: Square)
    ensures forall m :: m in RookSlides(b, p, from) ==> PseudoShape(b, p, from, m)
    ensures forall m :: m in BishopSlides(b, p, from) ==> PseudoShape(b, p, from, m)
  {
    SlideMovesShape(b, p, from, from.r + 1, from.c, 1, 0);
    SlideMovesShape(b, p, from, from.r - 1, from.c, -1, 0);
    SlideMovesShape(b, p, from, from.r, from.c + 1, 0, 1);
    SlideMovesShape(b, p, from, from.r, from.c - 1, 0, -1);
    SlideMovesShape(b, p, from, from.r + 1, from.c + 1, 1, 1);
    SlideMovesShape(b, p, from, from.r + 1, from.c - 1, 1, -1);
    SlideMovesShape(b, p, from, from.r - 1, from.c + 1, -1, 1);
    SlideMovesShape(b, p, from, from.r - 1, from.c - 1, -1, -1);
  }

  lemma PieceMovesShape(b: Board, p: Piece, from: Square)
    ensures forall m :: m in PieceMoves(b, p, from) ==> PseudoShape(b, p, from, m)
  {
    var d := Forward(p.owner);
    SlidesShape(b, p, from);
    if p.kind == King {
      StepsShape(b, p, from, KingSteps);
    } else if p.promoted {
      StepsShape(b, p, from, DiagonalSteps);
      StepsShape(b, p, from, OrthogonalSteps);
      StepsShape(b, p, from, GoldSteps(d));
    } else {
      StepMovesShape(b, p, from, (d, 0));
      SlideMovesShape(b, p, from, from.r + d, from.c, d, 0);
      StepsShape(b, p, from, KnightSteps(d));
      StepsShape(b, p, from, SilverSteps(d));
      StepsShape(b, p, from, GoldSteps(d));
    }
  }

  /** The single-step destinations of each piece as offsets from its square,
      stated geometrically ("forward" is `Forward(p.owner)`). */
  predicate StepOffset(p: Piece, dr: int, dc: int) {
    var d := Forward(p.owner);
    var adjacent := -1 <= dr <= 1 && -1 <= dc <= 1 && (dr, dc) != (0, 0);
    if p.kind == King then adjacent
    else if p.promoted && p.kind == Rook then adjacent && dr != 0 && dc != 0
    else if p.promoted && p.kind == Bishop then adjacent && (dr == 0 || dc == 0)
    else if p.promoted || p.kind == Gold then adjacent && !(dr == -d && dc != 0)
    else if p.kind == Pawn then dr == d && dc == 0
    else if p.kind == Knight then dr == 2 * d && (dc == 1 || dc == -1)
    else if p.kind == Silver then adjacent && (dr == d || (dr == -d && dc != 0))
    else false
  }

  /** The squares a piece reaches by single steps or jumps. */
  function StepTargets(b: Board, p: Piece, from: Square): set<Square> {
    set r, c | 0 <= r < 9 && 0 <= c < 9 && StepOffset(p, r - from.r, c - from.c)
                && !OwnPieceAt(b, Square(r, c), p.owner) :: Square(r, c)
  }

  /** The slides a piece makes, by kind. */
  function SlidesOf(b: Board, p: Piece, from: Square): seq<Move> {
    var d := Forward(p.owner);
    if p.kind == King then []
    else if p.kind == Rook then RookSlides(b, p, from)
    else if p.kind == Bishop then BishopSlides(b, p, from)
    else if !p.promoted && p.kind == Lance then Slide(b, p, from, d, 0)
    else []
  }

  lemma StepsTargets(b: Board, p: Piece, from: Square, offs: seq<(int, int)>)
    requires forall i :: 0 <= i < |offs| ==> StepOffset(p, offs[i].0, offs[i].1)
    requires forall dr, dc :: StepOffset(p, dr, dc) ==> (dr, dc) in offs
    ensures Targets(Steps(b, p, from, offs)) == StepTargets(b, p, from)
  {
    StepsTargetSet(b, p, from, offs);
    OffsetTargets(b, p, from, offs);
  }

  /** A list of exactly the piece's step offsets leads to its step targets. */
  lemma OffsetTargets(b: Board, p: Piece, from: Square, offs: seq<(int, int)>)
    requires forall i :: 0 <= i < |offs| ==> StepOffset(p, offs[i].0, offs[i].1)
    requires forall dr, dc :: StepOffset(p, dr, dc) ==> (dr, dc) in offs
    ensures (set s | s in OffsetSquares(from, offs) && OnBoard(s) && !OwnPieceAt(b, s, p.owner)) == StepTargets(b, p, from)
  {
    forall s | s in StepTargets(b, p, from)
      ensures s in OffsetSquares(from, offs) && OnBoard(s) && !OwnPieceAt(b, s, p.owner)
    {
      StepTargetIsOffset(b, p, from, offs, s);
    }
    forall s | s in OffsetSquares(from, offs) && OnBoard(s) && !OwnPieceAt(b, s, p.owner)
      ensures s in StepTargets(b, p, from)
    {
      OffsetIsStepTarget(b, p, from, offs, s);
    }
  }

  lemma StepTargetIsOffset(b: Board, p: Piece, from: Square, offs: seq<(int, int)>, s: Square)
    requires forall dr, dc :: StepOffset(p, dr, dc) ==> (dr, dc) in offs
    requires s in StepTargets(b, p, from)
    ensures s in OffsetSquares(from, offs) && OnBoard(s) && !OwnPieceAt(b, s, p.owner)
  {
    var dr, dc := s.r - from.r, s.c - from.c;
    assert StepOffset(p, dr, dc);
    assert (dr, dc) in offs;
    var i :| 0 <= i < |offs| && offs[i] == (dr, dc);
    assert s == Square(from.r + offs[i].0, from.c + offs[i].1);
  }

  lemma OffsetIsStepTarget(b: Board, p: Piece, from: Square, offs: seq<(int, int)>, s: Square)
    requires forall i :: 0 <= i < |offs| ==> StepOffset(p, offs[i].0, offs[i].1)
    requires s in OffsetSquares(from, offs) && OnBoard(s) && !OwnPieceAt(b, s, p.owner)
    ensures s in StepTargets(b, p, from)
  {
    var i :| 0 <= i < |offs| && s == Square(from.r + offs[i].0, from.c + offs[i].1);
    assert StepOffset(p, s.r - from.r, s.c - from.c);
    assert s == Square(s.r, s.c) && 0 <= s.r < 9 && 0 <= s.c < 9;
  }

  /** The step offsets the generator uses for each piece. */
  function StepList(p: Piece): seq<(int, int)> {
    var d := Forward(p.owner);
    if p.kind == King then KingSteps
    else if p.promoted && p.kind == Rook then DiagonalSteps
    else if p.promoted && p.kind == Bishop then OrthogonalSteps
    else if p.promoted || p.kind == Gold then GoldSteps(d)
    else if p.kind == Pawn then [(d, 0)]
    else if p.kind == Knight then KnightSteps(d)
    else if p.kind == Silver then SilverSteps(d)
    else []
  }

  /** The generator's offset lists are exactly the geometric step table. */
  lemma StepListIsStepOffset(p: Piece)
    ensures forall i :: 0 <= i < |StepList(p)| ==> StepOffset(p, StepList(p)[i].0, StepList(p)[i].1)
    ensures forall dr, dc :: StepOffset(p, dr, dc) ==> (dr, dc) in StepList(p)
  {
  }

  lemma StepListTargets(b: Board, p: Piece, from: Square)
    ensures Targets(Steps(b, p, from, StepList(p))) == StepTargets(b, p, from)
  {
    StepListIsStepOffset(p);
    StepsTargets(b, p, from, StepList(p));
  }

  /** The destinations of a piece are exactly its step destinations (the
      king's eight neighbours; the six gold steps for gold and for promoted
      pawn, lance, knight and silver; the four diagonal neighbours for a
      promoted rook and the four orthogonal ones for a promoted bishop; the
      knight's two jumps, which nothing can block) together with the squares
      of its slides. */
  lemma PieceTargets(b: Board, p: Piece, from: Square)
    ensures Targets(PieceMoves(b, p, from)) == StepTargets(b, p, from) + Targets(SlidesOf(b, p, from))
  {
    var d := Forward(p.owner);
    var ms := PieceMoves(b, p, from);
    var steps := Steps(b, p, from, StepList(p));
    StepListTargets(b, p, from);
    if p.kind == King {
      assert ms == steps;
    } else if p.promoted && (p.kind == Rook || p.kind == Bishop) {
      assert ms == SlidesOf(b, p, from) + steps;
      TargetsConcat(SlidesOf(b, p, from), steps);
    } else if p.promoted || p.kind == Gold || p.kind == Knight || p.kind == Silver {
      assert ms == steps;
    } else if p.kind == Pawn {
      assert steps == [] + StepMoves(b, p, from, (d, 0));
      assert ms == steps;
    } else {
      assert steps == [];
      assert ms == SlidesOf(b, p, from);
    }
  }

  // ---------------------------------------------------------------------
  // Drops

  lemma SquareAtRowCol(r: int, c: int)
    requires IsInside(r, c)
    ensures SquareAt(r * 9 + c) == Square(r, c)
  {
  }

  /** The file holds an unpromoted pawn of `owner` (hasUnpromotedPawnInFile). */
  predicate UnpromotedPawnInFile(b: Board, owner: Owner, file: int)
    requires 0 <= file < 9
  {
    exists r :: 0 <= r < 9 && b[r][file] == Some(Piece(Pawn, owner, false))
  }

  method HasUnpromotedPawnInFile(b: Board, owner: Owner, file: int) returns (found: bool)
    requires 0 <= file < 9
    ensures found == UnpromotedPawnInFile(b, owner, file)
  {
    for r := 0 to 9
      invariant forall r' :: 0 <= r' < r ==> b[r'][file] != Some(Piece(Pawn, owner, false))
    {
      var cell := b[r][file];
      if cell.Some? && cell.value.owner == owner && cell.value.kind == Pawn && !cell.value.promoted {
        return true;
      }
    }
    return false;
  }

  function DropMove(t: PieceType, s: Square): Move {
    Move(None, s, Some(t), PromoteNone)
  }

  /** The square passes the checks of the drop loop for type `t`: it is empty,
      and it is not a pawn into a file with the owner's unpromoted pawn, a pawn
      or lance on the last rank, or a knight on the last two ranks. */
  predicate DropAllowed(b: Board, owner: Owner, t: PieceType, s: Square)
    requires OnBoard(s)
  {
    && At(b, s).None?
    && !(t == Pawn && UnpromotedPawnInFile(b, owner, s.c))
    && !(t == Pawn && ((owner == Black && s.r == 0) || (owner == White && s.r == 8)))
    && !(t == Lance && ((owner == Black && s.r == 0) || (owner == White && s.r == 8)))
    && !(t == Knight && ((owner == Black && s.r <= 1) || (owner == White && s.r >= 7)))
  }

  /** Drops of type `t` on columns 0..c-1 of row r. */
  function DropsInRow(b: Board, owner: Owner, t: PieceType, r: int, c: int): seq<Move>
    requires 0 <= r < 9 && 0 <= c <= 9
  {
    if c == 0 then []
    else DropsInRow(b, owner, t, r, c - 1) + (if DropAllowed(b, owner, t, Square(r, c - 1)) then [DropMove(t, Square(r, c - 1))] else [])
  }

  /** Drops of type `t` on rows 0..r-1, in row-major order. */
  function DropsOfKind(b: Board, owner: Owner, t: PieceType, r: int): seq<Move>
    requires 0 <= r <= 9
  {
    if r == 0 then [] else DropsOfKind(b, owner, t, r - 1) + DropsInRow(b, owner, t, r - 1, 9)
  }

  /** What every generated drop satisfies. */
  predicate DropShape(b: Board, h: Hands, owner: Owner, order: seq<PieceType>, m: Move) {
    && m.from.None? && m.drop.Some? && m.drop.value in order
    && m.promotion == PromoteNone
    && OnBoard(m.to) && At(b, m.to).None?
    && h.Count(owner, m.drop.value) > 0
    && !(m.drop.value == Pawn && UnpromotedPawnInFile(b, owner, m.to.c))
    && !((m.drop.value == Pawn || m.drop.value == Lance) && RowsToGo(owner, m.to.r) == 0)
    && !(m.drop.value == Knight && RowsToGo(owner, m.to.r) <= 1)
  }

  /** The drops of the hand types listed in `order`, type by type (getLegalDrops). */
  function Drops(b: Board, h: Hands, owner: Owner, order: seq<PieceType>): seq<Move>
    decreases |order|
  {
    if |order| == 0 then []
    else
      var t := order[|order| - 1];
      Drops(b, h, owner, order[..|order| - 1]) + (if h.Count(owner, t) <= 0 then [] else DropsOfKind(b, owner, t, 9))
  }

  lemma {:induction false} DropsInRowMembers(b: Board, owner: Owner, t: PieceType, r: int, c: int, m: Move)
    requires 0 <= r < 9 && 0 <= c <= 9
    ensures m in DropsInRow(b, owner, t, r, c) <==>
      m == DropMove(t, m.to) && m.to.r == r && 0 <= m.to.c < c && DropAllowed(b, owner, t, m.to)
  {
    if c > 0 {
      DropsInRowMembers(b, owner, t, r, c - 1, m);
    }
  }

  /** The drops of one type are exactly the allowed squares' drops. */
  lemma {:induction false} DropsOfKindMembers(b: Board, owner: Owner, t: PieceType, r: int, m: Move)
    requires 0 <= r <= 9
    ensures m in DropsOfKind(b, owner, t, r) <==>
      m == DropMove(t, m.to) && 0 <= m.to.r < r && 0 <= m.to.c < 9 && DropAllowed(b, owner, t, m.to)
  {
    if r > 0 {
      DropsOfKindMembers(b, owner, t, r - 1, m);
      DropsInRowMembers(b, owner, t, r - 1, 9, m);
    }
  }

  /** Every generated drop targets an empty square with a type the hand
      holds, carries no promotion, is not a second unpromoted pawn on a file,
      and is not a pawn or lance on the last rank nor a knight on the last two. */
  lemma {:induction false} DropsShape(b: Board, h: Hands, owner: Owner, order: seq<PieceType>)
    ensures forall m :: m in Drops(b, h, owner, order) ==> DropShape(b, h, owner, order, m)
    decreases |order|
  {
    if |order| > 0 {
      var n := |order| - 1;
      var t := order[n];
      DropsShape(b, h, owner, order[..n]);
      forall m | m in Drops(b, h, owner, order[..n]) ensures DropShape(b, h, owner, order, m) {
        assert DropShape(b, h, owner, order[..n], m);
        assert m.drop.value in order;
      }
      if h.Count(owner, t) > 0 {
        forall m | m in DropsOfKind(b, owner, t, 9) ensures DropShape(b, h, owner, order, m) {
          DropsOfKindMembers(b, owner, t, 9, m);
        }
      }
    }
  }

  /** Conversely every drop that passes the checks, of a listed type the hand
      holds, is generated. */
  lemma {:induction false} DropsComplete(b: Board, h: Hands, owner: Owner, order: seq<PieceType>, t: PieceType, s: Square)
    requires t in order && h.Count(owner, t) > 0 && OnBoard(s) && DropAllowed(b, owner, t, s)
    ensures DropMove(t, s) in Drops(b, h, owner, order)
    decreases |order|
  {
    var n := |order| - 1;
    if order[n] == t {
      DropsOfKindMembers(b, owner, t, 9, DropMove(t, s));
    } else {
      assert t in order[..n] by {
        var i :| 0 <= i < |order| && order[i] == t;
        assert order[..n][i] == t;
      }
      DropsComplete(b, h, owner, order[..n], t, s);
    }
  }

  /** The body of the square loop of getLegalDrops. */
  method TryDrop(b: Board, owner: Owner, t: PieceType, r: int, c: int, moves: seq<Move>) returns (moves': seq<Move>)
    requires IsInside(r, c)
    ensures moves' == moves + (if DropAllowed(b, owner, t, Square(r, c)) then [DropMove(t, Square(r, c))] else [])
  {
    moves' := moves;
    if b[r][c].Some? {
      return;
    }
    if t == Pawn {
      var inFile := HasUnpromotedPawnInFile(b, owner, c);
      if inFile {
        return;
      }
      if (owner == Black && r == 0) || (owner == White && r == 8) {
        return;
      }
    }
    if t == Lance {
      if (owner == Black && r == 0) || (owner == White && r == 8) {
        return;
      }
    }
    if t == Knight {
      if (owner == Black && r <= 1) || (owner == White && r >= 7) {
        return;
      }
    }
    moves' := moves' + [DropMove(t, Square(r, c))];
  }

  /** The inner square loop of getLegalDrops for one row. */
  method DropsRow(b: Board, owner: Owner, t: PieceType, r: int) returns (moves: seq<Move>)
    requires 0 <= r < 9
    ensures moves == DropsInRow(b, owner, t, r, 9)
  {
    moves := [];
    for c := 0 to 9
      invariant moves == DropsInRow(b, owner, t, r, c)
    {
      moves := TryDrop(b, owner, t, r, c, moves);
    }
  }

  /** The two square loops of getLegalDrops for one type. */
  method DropsOfType(b: Board, owner: Owner, t: PieceType) returns (moves: seq<Move>)
    ensures moves == DropsOfKind(b, owner, t, 9)
  {
    moves := [];
    for r := 0 to 9
      invariant moves == DropsOfKind(b, owner, t, r)
    {
      var row := DropsRow(b, owner, t, r);
      moves := moves + row;
    }
  }

  /** getLegalDrops: for each listed type held, every square in row-major order. */
  method GetLegalDrops(b: Board, h: Hands, owner: Owner, order: seq<PieceType>) returns (moves: seq<Move>)
    ensures moves == Drops(b, h, owner, order)
  {
    moves := [];
    for i := 0 to |order|
      invariant moves == Drops(b, h, owner, order[..i])
    {
      var t := order[i];
      DropsSnoc(b, h, owner, order, i);
      if h.Count(owner, t) <= 0 {
        continue;
      }
      var kind := DropsOfType(b, owner, t);
      moves := moves + kind;
    }
    assert order[..|order|] == order;
  }

  /** One more listed type appends that type's drops, if the hand holds it. */
  lemma DropsSnoc(b: Board, h: Hands, owner: Owner, order: seq<PieceType>, i: int)
    requires 0 <= i < |order|
    ensures Drops(b, h, owner, order[..i + 1]) ==
      Drops(b, h, owner, order[..i]) + (if h.Count(owner, order[i]) <= 0 then [] else DropsOfKind(b, owner, order[i], 9))
  {
    assert order[..i + 1][..i] == order[..i];
  }

  // ---------------------------------------------------------------------
  // Applying a move

  /** demote: the base type a captured piece goes back to the hand as. */
  function Demote(p: Piece): (t: PieceType)
    ensures t == p.kind
  {
    if p.kind == King then King else p.kind
  }

  /** The squares a move names lie on the board (the source indexes the
      board with them). */
  predicate ValidMove(m: Move) {
    OnBoard(m.to) && (m.from.Some? ==> OnBoard(m.from.value))
  }

  /** The position after `owner` plays `m`. */
  function Apply(b: Board, h: Hands, m: Move, owner: Owner): (next: Position)
    requires ValidMove(m)
    ensures owner == Black ==> next.hands.white == h.white
    ensures owner == White ==> next.hands.black == h.black
  {
    if m.drop.Some? then
      var t := m.drop.value;
      Position(SetCell(b, m.to, Some(Piece(t, owner, false))), h.WithCount(owner, t, h.Count(owner, t) - 1))
    else if m.from.None? then Position(b, h)
    else
      match At(b, m.from.value)
      case None => Position(b, h)
      case Some(piece) =>
        var target := At(b, m.to);
        var h' := if target.Some? && Demote(target.value) != King
                  then h.WithCount(owner, Demote(target.value), h.Count(owner, Demote(target.value)) + 1)
                  else h;
        var promote := m.promotion == PromoteMust || m.promotion == PromoteOptional;
        var moved := piece.(promoted := if promote then true else piece.promoted);
        Position(SetCell(SetCell(b, m.from.value, None), m.to, Some(moved)), h')
  }

  /** applyMove: copies the board and hands, then updates the copies. */
  method ApplyMove(b: Board, h: Hands, m: Move, owner: Owner) returns (next: Position)
    requires ValidMove(m)
    ensures next == Apply(b, h, m, owner)
  {
    var nextBoard := BoardSetup.CloneBoard(b);
    var nextHands := BoardSetup.CloneHands(h);
    if m.drop.Some? {
      var t := m.drop.value;
      nextHands := nextHands.WithCount(owner, t, nextHands.Count(owner, t) - 1);
      nextBoard := SetCell(nextBoard, m.to, Some(Piece(t, owner, false)));
      return Position(nextBoard, nextHands);
    }
    if m.from.None? {
      return Position(nextBoard, nextHands);
    }
    var from := m.from.value;
    var piece := At(nextBoard, from);
    if piece.None? {
      return Position(nextBoard, nextHands);
    }
    var target := At(nextBoard, m.to);
    if target.Some? {
      var capturedType := Demote(target.value);
      if capturedType != King {
        nextHands := nextHands.WithCount(owner, capturedType, nextHands.Count(owner, capturedType) + 1);
      }
    }
    var promote := m.promotion == PromoteMust || m.promotion == PromoteOptional;
    nextBoard := SetCell(nextBoard, from, None);
    nextBoard := SetCell(nextBoard, m.to, Some(piece.value.(promoted := if promote then true else piece.value.promoted)));
    return Position(nextBoard, nextHands);
  }

  /** A drop takes one piece of its type from the mover's hand and puts it,
      unpromoted and owned by the mover, on the target; nothing else changes. */
  lemma ApplyDrop(b: Board, h: Hands, m: Move, owner: Owner)
    requires ValidMove(m) && m.drop.Some?
    ensures var next := Apply(b, h, m, owner);
      && At(next.board, m.to) == Some(Piece(m.drop.value, owner, false))
      && (forall r, c :: IsInside(r, c) && Square(r, c) != m.to ==> next.board[r][c] == b[r][c])
      && next.hands.Count(owner, m.drop.value) == h.Count(owner, m.drop.value) - 1
      && (forall o, t :: (o, t) != (owner, m.drop.value) ==> next.hands.Count(o, t) == h.Count(o, t))
  {
  }

  /** A board move empties its origin (unless it is the target) and puts
      the moving piece on the target, promoted iff the tag is must or optional or it already was; a
      captured piece other than a king adds one of its type to the mover's
      hand; nothing else changes. */
  lemma ApplyBoardMove(b: Board, h: Hands, m: Move, owner: Owner)
    requires ValidMove(m) && m.drop.None? && m.from.Some? && At(b, m.from.value).Some?
    ensures var next := Apply(b, h, m, owner);
      var piece := At(b, m.from.value).value;
      var target := At(b, m.to);
      && (m.from.value != m.to ==> At(next.board, m.from.value).None?)
      && At(next.board, m.to) == Some(Piece(piece.kind, piece.owner,
                                            m.promotion == PromoteMust || m.promotion == PromoteOptional || piece.promoted))
      && (forall r, c :: IsInside(r, c) && Square(r, c) != m.to && Square(r, c) != m.from.value ==> next.board[r][c] == b[r][c])
      && (if target.Some? && target.value.kind != King
          then next.hands.Count(owner, target.value.kind) == h.Count(owner, target.value.kind) + 1
               && forall o, t :: (o, t) != (owner, target.value.kind) ==> next.hands.Count(o, t) == h.Count(o, t)
          else next.hands == h)
  {
  }

  /** A move without a drop whose origin is missing or empty changes nothing. */
  lemma ApplyNoPiece(b: Board, h: Hands, m: Move, owner: Owner)
    requires ValidMove(m) && m.drop.None? && (m.from.None? || At(b, m.from.value).None?)
    ensures Apply(b, h, m, owner) == Position(b, h)
  {
  }

  /** A move changes no square other than its origin and its target. */
  lemma ApplyFrame(b: Board, h: Hands, m: Move, owner: Owner, s: Square)
    requires ValidMove(m) && OnBoard(s) && s != m.to && (m.from.None? || s != m.from.value)
    ensures At(Apply(b, h, m, owner).board, s) == At(b, s)
  {
  }
}
