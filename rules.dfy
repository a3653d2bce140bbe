/** King lookup, attack and check detection, and the self-check filter on
    moves and drops (app/lib/rules.ts). */
module Rules {
  import opened ShogiTypes
  import opened Moves

  // ---------------------------------------------------------------------
  // Finding the king

  predicate KingAt(b: Board, s: Square, owner: Owner)
    requires OnBoard(s)
  {
    At(b, s).Some? && At(b, s).value.owner == owner && At(b, s).value.kind == King
  }

  function Index(s: Square): int {
    s.r * 9 + s.c
  }

  /** The first square numbered k or more holding the owner's king. */
  function KingFrom(b: Board, owner: Owner, k: int): Option<Square>
    requires 0 <= k <= 81
    decreases 81 - k
  {
    if k == 81 then None
    else if KingAt(b, SquareAt(k), owner) then Some(SquareAt(k))
    else KingFrom(b, owner, k + 1)
  }

  /** The scan from square k finds the first king square numbered k or
      more, and nothing exactly when there is none. */
  lemma {:induction false} KingFromSpec(b: Board, owner: Owner, k: int)
    requires 0 <= k <= 81
    ensures var res := KingFrom(b, owner, k);
      && (res.Some? ==> OnBoard(res.value) && KingAt(b, res.value, owner) && k <= Index(res.value))
      && (res.Some? ==> forall j :: k <= j < Index(res.value) ==> !KingAt(b, SquareAt(j), owner))
      && (res.None? <==> forall j :: k <= j < 81 ==> !KingAt(b, SquareAt(j), owner))
    decreases 81 - k
  {
    if k < 81 && !KingAt(b, SquareAt(k), owner) {
      KingFromSpec(b, owner, k + 1);
    }
  }

  /** The owner's king square, first in row-major order, if any. */
  function KingSquare(b: Board, owner: Owner): Option<Square> {
    KingFrom(b, owner, 0)
  }

  /** findKing yields the first king square of the owner in row-major order,
      and nothing exactly when the owner has no king on the board. */
  lemma KingSquareSpec(b: Board, owner: Owner)
    ensures KingSquare(b, owner).None? <==> forall r, c :: IsInside(r, c) ==> !KingAt(b, Square(r, c), owner)
    ensures KingSquare(b, owner).Some? ==>
      var s := KingSquare(b, owner).value;
      OnBoard(s) && KingAt(b, s, owner) &&
      forall r, c :: IsInside(r, c) && r * 9 + c < Index(s) ==> !KingAt(b, Square(r, c), owner)
  {
    KingFromSpec(b, owner, 0);
    var res := KingSquare(b, owner);
    if res.None? {
      forall r, c | IsInside(r, c) ensures !KingAt(b, Square(r, c), owner) {
        SquareAtRowCol(r, c);
        assert !KingAt(b, SquareAt(r * 9 + c), owner);
      }
    } else {
      var s := res.value;
      forall r, c | IsInside(r, c) && r * 9 + c < Index(s) ensures !KingAt(b, Square(r, c), owner) {
        SquareAtRowCol(r, c);
        assert !KingAt(b, SquareAt(r * 9 + c), owner);
      }
      assert !(forall r, c :: IsInside(r, c) ==> !KingAt(b, Square(r, c), owner)) by {
        SquareAtRowCol(s.r, s.c);
        assert IsInside(s.r, s.c) && KingAt(b, Square(s.r, s.c), owner);
      }
    }
  }

  /** The unique first king: a king square with no king before it is the
      one KingSquare yields. */
  lemma KingSquareIs(b: Board, owner: Owner, s: Square)
    requires OnBoard(s) && KingAt(b, s, owner)
    requires forall j :: 0 <= j < Index(s) ==> !KingAt(b, SquareAt(j), owner)
    ensures KingSquare(b, owner) == Some(s)
  {
    SquareAtRowCol(s.r, s.c);
    KingFromSpec(b, owner, 0);
    var k := KingSquare(b, owner);
    assert k.Some? by {
      assert !(forall j :: 0 <= j < 81 ==> !KingAt(b, SquareAt(j), owner)) by {
        assert KingAt(b, SquareAt(Index(s)), owner);
      }
    }
    var t := k.value;
    SquareAtRowCol(t.r, t.c);
    assert Index(s) <= Index(t) by {
      assert KingAt(b, SquareAt(Index(t)), owner);
    }
    assert Index(t) <= Index(s) by {
      assert KingAt(b, SquareAt(Index(s)), owner);
    }
  }

  /** findKing: scans rows and columns and returns at the first king. */
  method FindKing(b: Board, owner: Owner) returns (res: Option<Square>)
    ensures res == KingSquare(b, owner)
  {
    for r := 0 to 9
      invariant forall j :: 0 <= j < r * 9 ==> !KingAt(b, SquareAt(j), owner)
    {
      for c := 0 to 9
        invariant forall j :: 0 <= j < r * 9 + c ==> !KingAt(b, SquareAt(j), owner)
      {
        SquareAtRowCol(r, c);
        var cell := b[r][c];
        if cell.Some? && cell.value.owner == owner && cell.value.kind == King {
          KingSquareIs(b, owner, Square(r, c));
          return Some(Square(r, c));
        }
      }
    }
    KingFromSpec(b, owner, 0);
    return None;
  }

  // ---------------------------------------------------------------------
  // Attacks and check

  /** Some move of `ms` ends on `target` (`moves.some(...)`). */
  predicate Hits(ms: seq<Move>, target: Square) {
    exists m :: m in ms && m.to == target
  }

  predicate AttacksFrom(b: Board, r: int, c: int, target: Square, attacker: Owner)
    requires IsInside(r, c)
  {
    b[r][c].Some? && b[r][c].value.owner == attacker && Hits(PseudoMoves(b, r, c), target)
  }

  /** Some piece of `attacker` has a pseudo-move ending on `target`. */
  predicate SquareAttacked(b: Board, target: Square, attacker: Owner) {
    exists r, c | 0 <= r < 9 && 0 <= c < 9 :: AttacksFrom(b, r, c, target, attacker)
  }

  /** The loop body of isSquareAttacked for one square. */
  method PieceAttacks(b: Board, r: int, c: int, target: Square, attacker: Owner) returns (hits: bool)
    requires IsInside(r, c)
    ensures hits == AttacksFrom(b, r, c, target, attacker)
  {
    var cell := b[r][c];
    if cell.None? || cell.value.owner != attacker {
      return false;
    }
    var moves := GetMovesForPiece(b, r, c);
    hits := Hits(moves, target);
  }

  /** One row of the isSquareAttacked scan. */
  method RowAttacks(b: Board, r: int, target: Square, attacker: Owner) returns (found: bool)
    requires 0 <= r < 9
    ensures found == exists c | 0 <= c < 9 :: AttacksFrom(b, r, c, target, attacker)
  {
    var c := 0;
    found := false;
    while c < 9 && !found
      invariant 0 <= c <= 9
      invariant found ==> 0 < c && AttacksFrom(b, r, c - 1, target, attacker)
      invariant !found ==> forall c' :: 0 <= c' < c ==> !AttacksFrom(b, r, c', target, attacker)
    {
      found := PieceAttacks(b, r, c, target, attacker);
      c := c + 1;
    }
  }

  /** isSquareAttacked: scans the attacker's pieces and returns at the first
      one with a move onto the target. */
  method IsSquareAttacked(b: Board, target: Square, attacker: Owner) returns (attacked: bool)
    ensures attacked == SquareAttacked(b, target, attacker)
  {
    for r := 0 to 9
      invariant forall r', c' :: 0 <= r' < r && 0 <= c' < 9 ==> !AttacksFrom(b, r', c', target, attacker)
    {
      var found := RowAttacks(b, r, target, attacker);
      if found {
        return true;
      }
    }
    return false;
  }

  /** isInCheck: true when the owner has no king, otherwise whether the
      opponent attacks the king square findKing reports. */
  predicate InCheck(b: Board, owner: Owner): (check: bool)
    ensures !check ==> exists r, c :: IsInside(r, c) && KingAt(b, Square(r, c), owner)
  {
    KingSquareSpec(b, owner);
    match KingSquare(b, owner)
    case None => true
    case Some(k) => SquareAttacked(b, k, Opponent(owner))
  }

  /** isInCheck as the source computes it: findKing, then isSquareAttacked. */
  method IsInCheck(b: Board, owner: Owner) returns (check: bool)
    ensures check == InCheck(b, owner)
  {
    var king := FindKing(b, owner);
    if king.None? {
      return true;
    }
    check := IsSquareAttacked(b, king.value, Opponent(owner));
  }

  /** With exactly one king on the board, being in check means that king's
      square is attacked, whatever the scanning order. */
  lemma InCheckSingleKing(b: Board, owner: Owner, s: Square)
    requires OnBoard(s) && KingAt(b, s, owner)
    requires forall r, c :: IsInside(r, c) && KingAt(b, Square(r, c), owner) ==> Square(r, c) == s
    ensures InCheck(b, owner) == SquareAttacked(b, s, Opponent(owner))
  {
    forall j | 0 <= j < Index(s) ensures !KingAt(b, SquareAt(j), owner) {
      var t := SquareAt(j);
      SquareAtRowCol(s.r, s.c);
    }
    KingSquareIs(b, owner, s);
  }

  /** The owner has no king on the board: always in check. */
  lemma NoKingInCheck(b: Board, owner: Owner)
    requires forall r, c :: IsInside(r, c) ==> !KingAt(b, Square(r, c), owner)
    ensures InCheck(b, owner)
  {
    KingSquareSpec(b, owner);
  }

  // ---------------------------------------------------------------------
  // Legality

  /** canApplyPromotionOption: the mover is not in check after playing the
      move with its promotion tag replaced by `promotion`. */
  predicate CanApplyPromotionOption(b: Board, h: Hands, owner: Owner, m: Move, promotion: Promotion)
    requires ValidMove(m) && promotion != PromoteOptional
  {
    !InCheck(Apply(b, h, m.(promotion := promotion), owner).board, owner)
  }

  method CanApplyPromotion(b: Board, h: Hands, owner: Owner, m: Move, promotion: Promotion) returns (ok: bool)
    requires ValidMove(m) && promotion != PromoteOptional
    ensures ok == CanApplyPromotionOption(b, h, owner, m, promotion)
  {
    var next := ApplyMove(b, h, m.(promotion := promotion), owner);
    var check := IsInCheck(next.board, owner);
    ok := !check;
  }

  /** isMoveLegal: an optional move is accepted when either the promoting or
      the non-promoting variant is safe; any other move when it is safe with
      its own tag. */
  predicate IsMoveLegal(b: Board, h: Hands, owner: Owner, m: Move): (legal: bool)
    requires ValidMove(m)
    ensures m.promotion != PromoteOptional ==> (legal <==> !InCheck(Apply(b, h, m, owner).board, owner))
  {
    if m.promotion == PromoteOptional then
      CanApplyPromotionOption(b, h, owner, m, PromoteMust) || CanApplyPromotionOption(b, h, owner, m, PromoteNone)
    else
      CanApplyPromotionOption(b, h, owner, m, m.promotion)
  }

  /** xs keeps a selection of the elements of ys, in their order. */
  predicate Subsequence(xs: seq<Move>, ys: seq<Move>)
    decreases |ys|
  {
    if xs == [] then true
    else if ys == [] then false
    else if xs[0] == ys[0] then Subsequence(xs[1..], ys[1..])
    else Subsequence(xs, ys[1..])
  }

  /** `filter(isMoveLegal)`: the legal moves of `ms`, in their order. */
  function FilterLegal(b: Board, h: Hands, owner: Owner, ms: seq<Move>): seq<Move>
    requires forall m :: m in ms ==> ValidMove(m)
    decreases |ms|
  {
    if ms == [] then []
    else if IsMoveLegal(b, h, owner, ms[0]) then [ms[0]] + FilterLegal(b, h, owner, ms[1..])
    else FilterLegal(b, h, owner, ms[1..])
  }

  /** The filter keeps the legal moves and only those, in their order. */
  lemma {:induction false} FilterLegalMembers(b: Board, h: Hands, owner: Owner, ms: seq<Move>)
    requires forall m :: m in ms ==> ValidMove(m)
    ensures Subsequence(FilterLegal(b, h, owner, ms), ms)
    ensures forall m :: m in FilterLegal(b, h, owner, ms) <==> m in ms && IsMoveLegal(b, h, owner, m)
    decreases |ms|
  {
    if ms != [] {
      var rest := FilterLegal(b, h, owner, ms[1..]);
      FilterLegalMembers(b, h, owner, ms[1..]);
      assert forall m :: m in ms <==> m == ms[0] || m in ms[1..];
      if IsMoveLegal(b, h, owner, ms[0]) {
        assert ([ms[0]] + rest)[1..] == rest;
      }
    }
  }

  lemma PseudoMovesValid(b: Board, r: int, c: int)
    requires IsInside(r, c)
    ensures forall m :: m in PseudoMoves(b, r, c) ==> ValidMove(m) && m.from == Some(Square(r, c)) && m.drop.None?
  {
    PseudoMovesShape(b, r, c);
  }

  lemma DropsValid(b: Board, h: Hands, owner: Owner, order: seq<PieceType>)
    ensures forall m :: m in Drops(b, h, owner, order) ==> ValidMove(m) && m.drop.Some? && m.promotion == PromoteNone
  {
    DropsShape(b, h, owner, order);
  }

  /** getLegalMovesForPiece. */
  function LegalMovesForPiece(b: Board, h: Hands, owner: Owner, r: int, c: int): seq<Move>
    requires IsInside(r, c)
  {
    PseudoMovesValid(b, r, c);
    FilterLegal(b, h, owner, PseudoMoves(b, r, c))
  }

  /** getLegalDropMoves. */
  function LegalDropMoves(b: Board, h: Hands, owner: Owner, order: seq<PieceType>): seq<Move> {
    DropsValid(b, h, owner, order);
    FilterLegal(b, h, owner, Drops(b, h, owner, order))
  }

  /** The owner's legal board moves from columns 0..c-1 of row r. */
  function RowLegal(b: Board, h: Hands, owner: Owner, r: int, c: int): seq<Move>
    requires 0 <= r < 9 && 0 <= c <= 9
  {
    if c == 0 then [] else RowLegal(b, h, owner, r, c - 1) + LegalMovesAt(b, h, owner, r, c - 1)
  }

  /** The owner's legal board moves from rows 0..r-1, row by row. */
  function BoardLegal(b: Board, h: Hands, owner: Owner, r: int): seq<Move>
    requires 0 <= r <= 9
  {
    if r == 0 then [] else BoardLegal(b, h, owner, r - 1) + RowLegal(b, h, owner, r - 1, 9)
  }

  /** buildLegalMoves: legal board moves square by square, then legal drops. */
  function LegalMoves(b: Board, h: Hands, owner: Owner, order: seq<PieceType>): seq<Move> {
    BoardLegal(b, h, owner, 9) + LegalDropMoves(b, h, owner, order)
  }

  /** The legal moves contributed by square (r, c): those of the owner's
      piece standing there, none otherwise. */
  function LegalMovesAt(b: Board, h: Hands, owner: Owner, r: int, c: int): seq<Move>
    requires IsInside(r, c)
  {
    if b[r][c].Some? && b[r][c].value.owner == owner then LegalMovesForPiece(b, h, owner, r, c) else []
  }

  method GetLegalMovesAt(b: Board, h: Hands, owner: Owner, r: int, c: int) returns (ms: seq<Move>)
    requires IsInside(r, c)
    ensures ms == LegalMovesAt(b, h, owner, r, c)
  {
    var cell := b[r][c];
    if cell.None? || cell.value.owner != owner {
      return [];
    }
    var pseudo := GetMovesForPiece(b, r, c);
    PseudoMovesValid(b, r, c);
    ms := FilterLegal(b, h, owner, pseudo);
  }

  /** One row of the buildLegalMoves scan. */
  method RowMoves(b: Board, h: Hands, owner: Owner, r: int) returns (moves: seq<Move>)
    requires 0 <= r < 9
    ensures moves == RowLegal(b, h, owner, r, 9)
  {
    moves := [];
    for c := 0 to 9
      invariant moves == RowLegal(b, h, owner, r, c)
    {
      var ms := GetLegalMovesAt(b, h, owner, r, c);
      moves := moves + ms;
    }
  }

  method BuildLegalMoves(b: Board, h: Hands, owner: Owner, order: seq<PieceType>) returns (moves: seq<Move>)
    ensures moves == LegalMoves(b, h, owner, order)
  {
    moves := [];
    for r := 0 to 9
      invariant moves == BoardLegal(b, h, owner, r)
    {
      var row := RowMoves(b, h, owner, r);
      moves := moves + row;
    }
    var drops := GetLegalDrops(b, h, owner, order);
    DropsValid(b, h, owner, order);
    moves := moves + FilterLegal(b, h, owner, drops);
  }

  // ---------------------------------------------------------------------
  // What the legal move list contains

  /** A move buildLegalMoves considers: a pseudo-move of one of the owner's
      pieces, or a generated drop. */
  predicate Candidate(b: Board, h: Hands, owner: Owner, order: seq<PieceType>, m: Move) {
    || (m.from.Some? && OnBoard(m.from.value) && OwnPieceAt(b, m.from.value, owner)
        && m in PseudoMoves(b, m.from.value.r, m.from.value.c))
    || m in Drops(b, h, owner, order)
  }

  lemma CandidateValid(b: Board, h: Hands, owner: Owner, order: seq<PieceType>, m: Move)
    requires Candidate(b, h, owner, order, m)
    ensures ValidMove(m)
  {
    DropsValid(b, h, owner, order);
    if m.from.Some? && OnBoard(m.from.value) && m in PseudoMoves(b, m.from.value.r, m.from.value.c) {
      PseudoMovesValid(b, m.from.value.r, m.from.value.c);
    }
  }

  /** A legal move of the owner's piece on `from`. */
  predicate LegalBoardMoveFrom(b: Board, h: Hands, owner: Owner, m: Move)
  {
    m.from.Some? && OnBoard(m.from.value) && OwnPieceAt(b, m.from.value, owner)
    && m in PseudoMoves(b, m.from.value.r, m.from.value.c) && ValidMove(m) && IsMoveLegal(b, h, owner, m)
  }

  lemma LegalMovesAtMembers(b: Board, h: Hands, owner: Owner, r: int, c: int, m: Move)
    requires IsInside(r, c)
    ensures m in LegalMovesAt(b, h, owner, r, c) <==> m.from == Some(Square(r, c)) && LegalBoardMoveFrom(b, h, owner, m)
  {
    PseudoMovesValid(b, r, c);
    FilterLegalMembers(b, h, owner, PseudoMoves(b, r, c));
  }

  lemma {:induction false} RowLegalMembers(b: Board, h: Hands, owner: Owner, r: int, c: int, m: Move)
    requires 0 <= r < 9 && 0 <= c <= 9
    ensures m in RowLegal(b, h, owner, r, c) <==>
      m.from.Some? && m.from.value.r == r && 0 <= m.from.value.c < c && LegalBoardMoveFrom(b, h, owner, m)
  {
    if c > 0 {
      RowLegalMembers(b, h, owner, r, c - 1, m);
      LegalMovesAtMembers(b, h, owner, r, c - 1, m);
      var prev, at := RowLegal(b, h, owner, r, c - 1), LegalMovesAt(b, h, owner, r, c - 1);
      assert RowLegal(b, h, owner, r, c) == prev + at;
      RowStep(m, r, c, m in prev, m in at, m in prev + at, LegalBoardMoveFrom(b, h, owner, m));
    }
  }

  /** The membership step of the row scan, as plain logic. */
  lemma RowStep(m: Move, r: int, c: int, inPrev: bool, inAt: bool, inRow: bool, legal: bool)
    requires c >= 1 && inRow == (inPrev || inAt)
    requires inPrev == (m.from.Some? && m.from.value.r == r && 0 <= m.from.value.c < c - 1 && legal)
    requires inAt == (m.from == Some(Square(r, c - 1)) && legal)
    ensures inRow == (m.from.Some? && m.from.value.r == r && 0 <= m.from.value.c < c && legal)
  {
  }

  lemma {:induction false} BoardLegalMembers(b: Board, h: Hands, owner: Owner, r: int, m: Move)
    requires 0 <= r <= 9
    ensures m in BoardLegal(b, h, owner, r) <==>
      m.from.Some? && 0 <= m.from.value.r < r && LegalBoardMoveFrom(b, h, owner, m)
  {
    if r > 0 {
      BoardLegalMembers(b, h, owner, r - 1, m);
      RowLegalMembers(b, h, owner, r - 1, 9, m);
    }
  }

  /** buildLegalMoves lists exactly the candidate moves that pass
      isMoveLegal. */
  lemma LegalMovesMembers(b: Board, h: Hands, owner: Owner, order: seq<PieceType>, m: Move)
    ensures m in LegalMoves(b, h, owner, order) <==>
      Candidate(b, h, owner, order, m) && ValidMove(m) && IsMoveLegal(b, h, owner, m)
  {
    BoardLegalMembers(b, h, owner, 9, m);
    DropsValid(b, h, owner, order);
    FilterLegalMembers(b, h, owner, Drops(b, h, owner, order));
    if Candidate(b, h, owner, order, m) {
      CandidateValid(b, h, owner, order, m);
    }
  }

  // ---------------------------------------------------------------------
  // Check does not depend on promotion flags

  /** b and b' hold pieces of the same owners on the same squares. */
  ghost predicate SameOccupancy(b: Board, b': Board) {
    forall r, c :: IsInside(r, c) ==>
      b[r][c].None? == b'[r][c].None? && (b[r][c].Some? ==> b[r][c].value.owner == b'[r][c].value.owner)
  }

  lemma {:induction false} StepsSame(b: Board, b': Board, p: Piece, from: Square, offs: seq<(int, int)>)
    requires SameOccupancy(b, b')
    ensures Steps(b, p, from, offs) == Steps(b', p, from, offs)
    decreases |offs|
  {
    if |offs| > 0 {
      StepsSame(b, b', p, from, offs[..|offs| - 1]);
    }
  }

  lemma {:induction false} SlideMovesSame(b: Board, b': Board, p: Piece, from: Square, nr: int, nc: int, dr: int, dc: int)
    requires SameOccupancy(b, b') && UnitDirection(dr, dc)
    ensures SlideMoves(b, p, from, nr, nc, dr, dc) == SlideMoves(b', p, from, nr, nc, dr, dc)
    decreases SlideFuel(nr, nc, dr, dc)
  {
    if IsInside(nr, nc) && At(b, Square(nr, nc)).None? {
      SlideMovesSame(b, b', p, from, nr + dr, nc + dc, dr, dc);
    }
  }

  /** A piece's pseudo-moves depend on where pieces stand and whose they
      are, not on what they are. */
  lemma PieceMovesSame(b: Board, b': Board, p: Piece, from: Square)
    requires SameOccupancy(b, b')
    ensures PieceMoves(b, p, from) == PieceMoves(b', p, from)
  {
    forall offs: seq<(int, int)> ensures Steps(b, p, from, offs) == Steps(b', p, from, offs) {
      StepsSame(b, b', p, from, offs);
    }
    forall dr, dc | UnitDirection(dr, dc) ensures Slide(b, p, from, dr, dc) == Slide(b', p, from, dr, dc) {
      SlideMovesSame(b, b', p, from, from.r + dr, from.c + dc, dr, dc);
    }
  }

  /** b' is b with at most the promotion flags of some of o's pieces changed. */
  ghost predicate SameExceptPromotion(b: Board, b': Board, o: Owner) {
    forall r, c :: IsInside(r, c) ==>
      || b'[r][c] == b[r][c]
      || (b[r][c].Some? && b'[r][c].Some? && b[r][c].value.owner == o
          && b'[r][c].value == b[r][c].value.(promoted := b'[r][c].value.promoted))
  }

  lemma {:induction false} KingFromSame(b: Board, b': Board, o: Owner, owner: Owner, k: int)
    requires SameExceptPromotion(b, b', o) && 0 <= k <= 81
    ensures KingFrom(b, owner, k) == KingFrom(b', owner, k)
    decreases 81 - k
  {
    if k < 81 {
      var s := SquareAt(k);
      assert KingAt(b, s, owner) == KingAt(b', s, owner);
      KingFromSame(b, b', o, owner, k + 1);
    }
  }

  /** Changing the promotion flags of the owner's own pieces changes
      neither where its king is found nor whether the opponent attacks it. */
  lemma InCheckIgnoresPromotion(b: Board, b': Board, owner: Owner)
    requires SameExceptPromotion(b, b', owner)
    ensures InCheck(b, owner) == InCheck(b', owner)
  {
    KingFromSame(b, b', owner, owner, 0);
    assert SameOccupancy(b, b');
    var a := Opponent(owner);
    forall t: Square, r, c | IsInside(r, c)
      ensures AttacksFrom(b, r, c, t, a) == AttacksFrom(b', r, c, t, a)
    {
      if b[r][c].Some? && b[r][c].value.owner == a {
        PieceMovesSame(b, b', b[r][c].value, Square(r, c));
      }
    }
  }

  /** applyMove treats an optional promotion as a promotion. */
  lemma ApplyOptionalPromotes(b: Board, h: Hands, m: Move, owner: Owner)
    requires ValidMove(m) && m.promotion == PromoteOptional
    ensures Apply(b, h, m, owner) == Apply(b, h, m.(promotion := PromoteMust), owner)
  {
  }

  /** When the mover moves one of its own pieces, promoting or not leaves it
      equally safe: the two variants isMoveLegal tries for an optional move
      always agree. */
  lemma PromotionVariantsAgree(b: Board, h: Hands, owner: Owner, m: Move)
    requires ValidMove(m)
    requires m.from.Some? && At(b, m.from.value).Some? ==> At(b, m.from.value).value.owner == owner
    ensures CanApplyPromotionOption(b, h, owner, m, PromoteMust) == CanApplyPromotionOption(b, h, owner, m, PromoteNone)
  {
    var b1 := Apply(b, h, m.(promotion := PromoteMust), owner).board;
    var b2 := Apply(b, h, m.(promotion := PromoteNone), owner).board;
    assert SameExceptPromotion(b2, b1, owner);
    InCheckIgnoresPromotion(b2, b1, owner);
  }

  /** Self-check safety: playing any move buildLegalMoves lists, with
      applyMove, never leaves the mover's king capturable (or missing). */
  lemma LegalMovesSafe(b: Board, h: Hands, owner: Owner, order: seq<PieceType>, m: Move)
    requires m in LegalMoves(b, h, owner, order)
    ensures ValidMove(m) && !InCheck(Apply(b, h, m, owner).board, owner)
  {
    LegalMovesMembers(b, h, owner, order, m);
    if m.promotion == PromoteOptional {
      if m.drop.None? && m.from.Some? && OnBoard(m.from.value) && OwnPieceAt(b, m.from.value, owner) {
        PromotionVariantsAgree(b, h, owner, m);
      } else {
        DropsValid(b, h, owner, order);
        PseudoMovesValid(b, m.from.value.r, m.from.value.c);
      }
      ApplyOptionalPromotes(b, h, m, owner);
    } else {
      assert m.(promotion := m.promotion) == m;
    }
  }

  lemma LegalMovesValid(b: Board, h: Hands, owner: Owner, order: seq<PieceType>)
    ensures forall m :: m in LegalMoves(b, h, owner, order) ==> ValidMove(m)
  {
    forall m | m in LegalMoves(b, h, owner, order) ensures ValidMove(m) {
      LegalMovesMembers(b, h, owner, order, m);
    }
  }
}
