/** chooseLocalAiMove (app/lib/ai.ts): iterative deepening at the root for
    White. The wall clock is the parameter `timeUp`: `timeUp(d, -1)` is the
    deadline test before depth d, `timeUp(d, i)` the one before the i-th
    ordered move at depth d. The random pick among equally good moves is a
    nondeterministic choice. */
module LocalAi {
  import opened ShogiTypes
  import opened Moves
  import opened Rules
  import opened MoveOrder
  import opened Search
  import opened Material

  /** The material threshold at or below which checks earn a bonus. */
  const EndgameMaterial: int := 24

  const CheckBonus: real := 0.5

  /** The root score of White playing m: the full-window minimax value of
      the reply position, plus the bonus for a check in the endgame. */
  function RootScore(g: Game, ev: (Board, Hands) -> real, b: Board, h: Hands,
                     depth: nat, endgame: bool, m: Move): real
    requires depth >= 1
  {
    ChildValue(g, ev, b, h, depth, true, m) +
      (if endgame && g.inCheck(g.apply(b, h, m, White).board, Black) then CheckBonus else 0.0)
  }

  /** RootScore at a fixed depth, as a function of the move. */
  ghost function RootScores(g: Game, ev: (Board, Hands) -> real, b: Board, h: Hands,
                            depth: nat, endgame: bool): Move -> real
  {
    m => if depth >= 1 then RootScore(g, ev, b, h, depth, endgame, m) else 0.0
  }

  /** m is a move of ms that scores at least as well as every move of ms. */
  ghost predicate IsBest(score: Move -> real, ms: seq<Move>, m: Move) {
    m in ms && forall x :: x in ms ==> score(x) <= score(m)
  }

  /** The score of one root move. */
  method ScoreRootMove(ghost g: Game, ev: (Board, Hands) -> real, values: PieceType -> int, b: Board, h: Hands,
                       order: seq<PieceType>, depth: nat, endgame: bool, m: Move) returns (scored: real)
    requires Plays(g, order) && depth >= 1 && ValidMove(m)
    ensures scored == RootScore(g, ev, b, h, depth, endgame, m)
  {
    var next := ApplyMove(b, h, m, White);
    var score := Minimax(g, ev, values, next.board, next.hands, order, depth - 1, NegInf, PosInf, false);
    ChildOf(g, ev, b, h, depth, true, m, next);
    var check := false;
    if endgame {
      check := IsMoveGivingCheck(b, h, White, m);
    }
    var bonus := if endgame && check then CheckBonus else 0.0;
    scored := score + bonus;
  }

  /** One depth of the deepening loop: scores the ordered moves until the
      deadline and collects the moves with the best score seen. Without a
      deadline the result is every best move and nothing else. */
  method SearchDepth(ghost g: Game, ev: (Board, Hands) -> real, values: PieceType -> int, b: Board, h: Hands,
                     order: seq<PieceType>, depth: nat, endgame: bool, ordered: seq<Move>, timeUp: (int, int) -> bool,
                     ghost score: Move -> real)
    returns (bestMoves: seq<Move>)
    requires Plays(g, order) && depth >= 1 && forall x :: x in ordered ==> ValidMove(x)
    requires score == RootScores(g, ev, b, h, depth, endgame)
    ensures forall x :: x in bestMoves ==> x in ordered
    ensures (forall i :: 0 <= i < |ordered| ==> !timeUp(depth, i)) ==>
      && (ordered != [] ==> bestMoves != [])
      && forall x :: x in ordered ==> (x in bestMoves <==> IsBest(score, ordered, x))
  {
    var localBestScore := NegInf;
    bestMoves := [];
    var i := 0;
    while i < |ordered|
      invariant 0 <= i <= |ordered|
      invariant forall x :: x in bestMoves ==> x in ordered[..i]
      invariant i == 0 ==> localBestScore == NegInf && bestMoves == []
      invariant i > 0 ==> localBestScore.Fin? && bestMoves != []
      invariant localBestScore != PosInf
      invariant i > 0 ==> forall j :: 0 <= j < i ==>
        score(ordered[j]) <= localBestScore.v && (ordered[j] in bestMoves <==> score(ordered[j]) == localBestScore.v)
      invariant forall j :: 0 <= j < i ==> !timeUp(depth, j)
    {
      if timeUp(depth, i) {
        break;
      }
      var move := ordered[i];
      var scored := ScoreRootMove(g, ev, values, b, h, order, depth, endgame, move);
      assert scored == score(move);
      if Lt(localBestScore, Fin(scored)) {
        localBestScore := Fin(scored);
        bestMoves := [move];
      } else if localBestScore == Fin(scored) {
        bestMoves := bestMoves + [move];
      }
      i := i + 1;
    }
    if forall j :: 0 <= j < |ordered| ==> !timeUp(depth, j) {
      assert i == |ordered|;
      assert ordered[..i] == ordered;
      forall x | x in ordered
        ensures x in bestMoves <==> IsBest(score, ordered, x)
      {
        var k :| 0 <= k < |ordered| && ordered[k] == x;
        assert bestMoves[0] in bestMoves;
        var kt :| 0 <= kt < |ordered| && ordered[kt] == bestMoves[0];
        if x in bestMoves {
          forall y | y in ordered
            ensures score(y) <= score(x)
          {
            var ky :| 0 <= ky < |ordered| && ordered[ky] == y;
          }
        }
      }
    }
  }

  /** Being best depends only on which moves are compared. */
  lemma IsBestSameMoves(score: Move -> real, xs: seq<Move>, ys: seq<Move>, m: Move)
    requires forall x :: x in xs <==> x in ys
    ensures IsBest(score, xs, m) <==> IsBest(score, ys, m)
  {
  }

  /** The ordered list holds the same moves as the list it orders. */
  lemma OrderedSameMoves(values: PieceType -> int, b: Board, h: Hands, ms: seq<Move>)
    ensures forall x :: x in OrderMoves(values, b, h, White, ms) <==> x in ms
  {
    OrderMovesSpec(values, b, h, White, ms);
  }

  /** A move kept at one depth is one of the base moves, and the best of
      them when the depth was searched to the end. */
  lemma DepthChoice(score: Move -> real, ordered: seq<Move>, baseMoves: seq<Move>, local: seq<Move>, x: Move,
                    complete: bool)
    requires forall y :: y in ordered <==> y in baseMoves
    requires x in local && forall y :: y in local ==> y in ordered
    requires complete ==> forall y :: y in ordered ==> (y in local <==> IsBest(score, ordered, y))
    ensures x in baseMoves
    ensures complete ==> IsBest(score, baseMoves, x)
  {
    IsBestSameMoves(score, ordered, baseMoves, x);
  }

  /** A depth searched to the end over a non-empty move list keeps a move. */
  lemma ChoiceExists(ordered: seq<Move>, baseMoves: seq<Move>, local: seq<Move>, complete: bool)
    requires forall y :: y in ordered <==> y in baseMoves
    requires complete && ordered != [] ==> local != []
    ensures complete && baseMoves != [] ==> local != []
  {
    if baseMoves != [] {
      assert baseMoves[0] in ordered;
    }
  }

  ghost predicate NeverTimesOut(timeUp: (int, int) -> bool) {
    forall d, i :: !timeUp(d, i)
  }

  /** One depth of the deepening loop: the moves are ordered, searched, and
      one of the best is kept; a depth searched to the end over a non-empty
      list always keeps a move, and it is a best one. */
  method DeepenStep(ghost g: Game, ev: (Board, Hands) -> real, values: PieceType -> int, b: Board, h: Hands,
                    order: seq<PieceType>, baseMoves: seq<Move>, endgame: bool, depth: nat, timeUp: (int, int) -> bool)
    returns (found: Option<Move>)
    requires Plays(g, order) && depth >= 1 && forall x :: x in baseMoves ==> ValidMove(x)
    ensures found.Some? ==> found.value in baseMoves
    ensures NeverTimesOut(timeUp) && baseMoves != [] ==>
      found.Some? && IsBest(RootScores(g, ev, b, h, depth, endgame), baseMoves, found.value)
  {
    var ordered := OrderMoves(values, b, h, White, baseMoves);
    OrderedSameMoves(values, b, h, baseMoves);
    ghost var score := RootScores(g, ev, b, h, depth, endgame);
    var localBestMoves := SearchDepth(g, ev, values, b, h, order, depth, endgame, ordered, timeUp, score);
    ghost var complete := forall i :: 0 <= i < |ordered| ==> !timeUp(depth, i);
    assert NeverTimesOut(timeUp) ==> complete;
    ChoiceExists(ordered, baseMoves, localBestMoves, complete);
    found := None;
    if |localBestMoves| > 0 {
      var k :| 0 <= k < |localBestMoves|;
      found := Some(localBestMoves[k]);
      DepthChoice(score, ordered, baseMoves, localBestMoves, localBestMoves[k], complete);
    }
  }

  /** The deepening loop of chooseLocalAiMove over the non-empty list of
      White's expanded moves. */
  method Deepen(ghost g: Game, ev: (Board, Hands) -> real, values: PieceType -> int, b: Board, h: Hands,
                order: seq<PieceType>, baseMoves: seq<Move>, endgame: bool, maxDepth: int, timeUp: (int, int) -> bool)
    returns (bestMove: Option<Move>)
    requires Plays(g, order) && forall x :: x in baseMoves ==> ValidMove(x)
    ensures bestMove.Some? ==> bestMove.value in baseMoves
    ensures NeverTimesOut(timeUp) && maxDepth >= 1 && baseMoves != [] ==>
      bestMove.Some? && IsBest(RootScores(g, ev, b, h, maxDepth, endgame), baseMoves, bestMove.value)
  {
    bestMove := None;
    var depth := 1;
    while depth <= maxDepth
      invariant 1 <= depth && (maxDepth >= 1 ==> depth <= maxDepth + 1)
      invariant bestMove.Some? ==> bestMove.value in baseMoves
      invariant NeverTimesOut(timeUp) && depth > 1 && baseMoves != [] ==>
        bestMove.Some? && IsBest(RootScores(g, ev, b, h, depth - 1, endgame), baseMoves, bestMove.value)
    {
      if timeUp(depth, -1) {
        break;
      }
      var found := DeepenStep(g, ev, values, b, h, order, baseMoves, endgame, depth, timeUp);
      if found.Some? {
        bestMove := found;
      }
      depth := depth + 1;
    }
  }

  /** chooseLocalAiMove: None exactly when White has no move; otherwise one
      of White's expanded legal moves, and, when the deadline never fires,
      one that scores best at the deepest search depth. */
  method ChooseLocalAiMove(ev: (Board, Hands) -> real, values: PieceType -> int, keys: seq<PieceType>,
                           b: Board, h: Hands, order: seq<PieceType>, maxDepth: int, timeUp: (int, int) -> bool)
    returns (best: Option<Move>)
    ensures best.None? <==> SearchMoves(b, h, White, order) == []
    ensures best.Some? ==> best.value in SearchMoves(b, h, White, order)
    ensures best.Some? && NeverTimesOut(timeUp) && maxDepth >= 1 ==>
      IsBest(RootScores(ShogiGame(order), ev, b, h, maxDepth, TotalMaterial(values, keys, b, h) <= EndgameMaterial),
             SearchMoves(b, h, White, order), best.value)
  {
    var legalMoves := BuildLegalMoves(b, h, White, order);
    LegalMovesValid(b, h, White, order);
    var baseMoves := ExpandMovesForSearch(b, h, White, legalMoves);
    assert baseMoves == SearchMoves(b, h, White, order);
    if |baseMoves| == 0 {
      return None;
    }
    SearchMovesValid(b, h, White, order);
    var material := SumMaterial(values, keys, b, h);
    var endgame := material <= EndgameMaterial;
    ShogiGamePlays(order);
    var bestMove := Deepen(ShogiGame(order), ev, values, b, h, order, baseMoves, endgame, maxDepth, timeUp);
    if bestMove.None? {
      var fallback := OrderMoves(values, b, h, White, baseMoves);
      OrderMovesSpec(values, b, h, White, baseMoves);
      assert fallback[0] in fallback;
      return Some(fallback[0]);
    }
    best := bestMove;
  }
}
