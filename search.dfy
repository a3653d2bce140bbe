/** Fail-soft alpha-beta minimax over the expanded legal moves
    (app/lib/ai.ts, `minimax`). White maximises, Black minimises. */
module Search {
  import opened ShogiTypes
  import opened Moves
  import opened Rules
  import opened MoveOrder

  // ---------------------------------------------------------------------
  // Scores with the two infinities the source starts its windows from

  datatype Ext = NegInf | Fin(v: real) | PosInf

  predicate Le(a: Ext, b: Ext) {
    a == NegInf || b == PosInf || (a.Fin? && b.Fin? && a.v <= b.v)
  }

  predicate Lt(a: Ext, b: Ext) {
    !Le(b, a)
  }

  /** Math.max */
  function ExtMax(a: Ext, b: Ext): (r: Ext)
    ensures Le(a, r) && Le(b, r) && (r == a || r == b)
  {
    if Le(a, b) then b else a
  }

  /** Math.min */
  function ExtMin(a: Ext, b: Ext): (r: Ext)
    ensures Le(r, a) && Le(r, b) && (r == a || r == b)
  {
    if Le(a, b) then a else b
  }

  /** Score of a side that has no move and is in check. */
  const MateScore: real := 10000.0

  function Mover(maximizing: bool): Owner {
    if maximizing then White else Black
  }

  /** What the search consults of the rules: the moves it explores from a
      position, whether a side is in check, and the position a move leads
      to. The reference below is stated over any such record; `Plays` says
      that a record is the shogi rules of this model. */
  datatype Game = Game(moves: (Board, Hands, Owner) -> seq<Move>, inCheck: (Board, Owner) -> bool,
                       apply: (Board, Hands, Move, Owner) -> Position)

  /** The shogi rules: the expanded legal moves, isInCheck, applyMove. */
  function ShogiGame(order: seq<PieceType>): Game {
    Game((b: Board, h: Hands, o: Owner) => SearchMoves(b, h, o, order),
         (b: Board, o: Owner) => InCheck(b, o),
         (b: Board, h: Hands, m: Move, o: Owner) => if ValidMove(m) then Apply(b, h, m, o) else Position(b, h))
  }

  ghost predicate Plays(g: Game, order: seq<PieceType>) {
    && (forall b, h, o {:trigger SearchMoves(b, h, o, order)} :: g.moves(b, h, o) == SearchMoves(b, h, o, order))
    && (forall b, o {:trigger InCheck(b, o)} :: g.inCheck(b, o) == InCheck(b, o))
    && (forall b, h, m, o {:trigger Apply(b, h, m, o)} :: ValidMove(m) ==> g.apply(b, h, m, o) == Apply(b, h, m, o))
  }

  lemma ShogiGamePlays(order: seq<PieceType>)
    ensures Plays(ShogiGame(order), order)
  {
  }

  lemma SearchMovesValid(b: Board, h: Hands, owner: Owner, order: seq<PieceType>)
    ensures forall m :: m in SearchMoves(b, h, owner, order) ==> ValidMove(m)
  {
    forall m | m in SearchMoves(b, h, owner, order) ensures ValidMove(m) {
      SearchMovesSafe(b, h, owner, order, m);
    }
  }

  // ---------------------------------------------------------------------
  // The reference: minimax without pruning

  /** The minimax value of a position searched `depth` plies deep with the
      static evaluation `ev` at the leaves: a side without moves scores a
      loss when in check and 0 otherwise. */
  function MinimaxValue(g: Game, ev: (Board, Hands) -> real, b: Board, h: Hands,
                        depth: nat, maximizing: bool): real
    decreases depth, 0
  {
    if depth == 0 then ev(b, h)
    else
      var owner := Mover(maximizing);
      var moves := g.moves(b, h, owner);
      if moves == [] then
        (if g.inCheck(b, owner) then (if owner == White then -MateScore else MateScore) else 0.0)
      else
        BestOf(g, ev, b, h, depth, maximizing, moves)
  }

  /** The value of the position after the mover plays m. */
  function ChildValue(g: Game, ev: (Board, Hands) -> real, b: Board, h: Hands,
                      depth: nat, maximizing: bool, m: Move): real
    requires depth >= 1
    decreases depth - 1, 1
  {
    var next := g.apply(b, h, m, Mover(maximizing));
    MinimaxValue(g, ev, next.board, next.hands, depth - 1, !maximizing)
  }

  function Combine(maximizing: bool, x: real, y: real): real {
    if maximizing then (if x >= y then x else y) else (if x <= y then x else y)
  }

  /** The best child value over `ms` for the side to move. */
  function BestOf(g: Game, ev: (Board, Hands) -> real, b: Board, h: Hands,
                  depth: nat, maximizing: bool, ms: seq<Move>): real
    requires depth >= 1 && ms != []
    decreases depth - 1, |ms| + 1
  {
    var n := |ms| - 1;
    var v := ChildValue(g, ev, b, h, depth, maximizing, ms[n]);
    if n == 0 then v else Combine(maximizing, BestOf(g, ev, b, h, depth, maximizing, ms[..n]), v)
  }

  /** BestOf is the maximum (for White) or minimum (for Black) of the child
      values: it bounds every child and some child attains it. */
  lemma {:induction false} BestOfIsExtreme(g: Game, ev: (Board, Hands) -> real, b: Board, h: Hands,
                                           depth: nat, maximizing: bool, ms: seq<Move>)
    requires depth >= 1 && ms != []
    ensures forall m :: m in ms ==>
      var c := ChildValue(g, ev, b, h, depth, maximizing, m);
      var v := BestOf(g, ev, b, h, depth, maximizing, ms);
      if maximizing then c <= v else v <= c
    ensures exists m :: m in ms && BestOf(g, ev, b, h, depth, maximizing, ms) == ChildValue(g, ev, b, h, depth, maximizing, m)
    decreases |ms|
  {
    var n := |ms| - 1;
    if n > 0 {
      BestOfIsExtreme(g, ev, b, h, depth, maximizing, ms[..n]);
      assert ms == ms[..n] + [ms[n]];
      var m' :| m' in ms[..n] && BestOf(g, ev, b, h, depth, maximizing, ms[..n]) == ChildValue(g, ev, b, h, depth, maximizing, m');
      assert m' in ms;
    } else {
      assert ms[n] in ms;
    }
  }

  /** The best value does not depend on the order the moves are tried in. */
  lemma BestOfPermutation(g: Game, ev: (Board, Hands) -> real, b: Board, h: Hands,
                          depth: nat, maximizing: bool, ms: seq<Move>, ms': seq<Move>)
    requires depth >= 1 && ms != []
    requires forall m :: m in ms' <==> m in ms
    ensures ms' != []
    ensures BestOf(g, ev, b, h, depth, maximizing, ms') == BestOf(g, ev, b, h, depth, maximizing, ms)
  {
    assert ms[0] in ms';
    BestOfIsExtreme(g, ev, b, h, depth, maximizing, ms);
    BestOfIsExtreme(g, ev, b, h, depth, maximizing, ms');
    var m :| m in ms && BestOf(g, ev, b, h, depth, maximizing, ms) == ChildValue(g, ev, b, h, depth, maximizing, m);
    var m' :| m' in ms' && BestOf(g, ev, b, h, depth, maximizing, ms') == ChildValue(g, ev, b, h, depth, maximizing, m');
  }

  // ---------------------------------------------------------------------
  // What a fail-soft alpha-beta result says about the true value

  /** Inside the window the result is exact; at or below alpha it bounds
      the true value from above; at or above beta, from below. */
  predicate FailSoft(v: real, alpha: Ext, beta: Ext, value: real) {
    && (Lt(alpha, Fin(v)) && Lt(Fin(v), beta) ==> v == value)
    && (Le(Fin(v), alpha) ==> value <= v)
    && (Le(beta, Fin(v)) ==> v <= value)
  }

  /** With the window (-Infinity, Infinity) a fail-soft result is exact. */
  lemma FullWindowExact(v: real, value: real)
    requires FailSoft(v, NegInf, PosInf, value)
    ensures v == value
  {
    assert Lt(NegInf, Fin(v)) && Lt(Fin(v), PosInf);
  }

  /** The state of the maximising loop after some children: `v` is the
      running maximum of the returned scores, `p` the true maximum of the
      children seen so far. */
  predicate MaxInvariant(alpha0: Ext, v: real, p: real) {
    && (Le(Fin(v), alpha0) ==> p <= v)
    && (Lt(alpha0, Fin(v)) ==> p == v)
  }

  predicate MinInvariant(beta0: Ext, v: real, p: real) {
    && (Le(beta0, Fin(v)) ==> v <= p)
    && (Lt(Fin(v), beta0) ==> p == v)
  }

  /** One iteration of the maximising loop keeps its invariant, or ends the
      loop on a child that proves the value at least beta. */
  lemma MaxStep(alpha0: Ext, beta: Ext, value: Ext, p: real, s: real, c: real)
    requires Lt(alpha0, beta) && value != PosInf
    requires value.Fin? ==> MaxInvariant(alpha0, value.v, p) && Lt(ExtMax(alpha0, value), beta)
    requires FailSoft(s, ExtMax(alpha0, value), beta, c)
    ensures var value' := ExtMax(value, Fin(s));
      var p' := if value.Fin? then Combine(true, p, c) else c;
      && value'.Fin?
      && (Lt(ExtMax(alpha0, value'), beta) ==> MaxInvariant(alpha0, value'.v, p'))
      && (Le(beta, ExtMax(alpha0, value')) ==> value'.v == s && s <= c)
  {
  }

  lemma MinStep(alpha: Ext, beta0: Ext, value: Ext, p: real, s: real, c: real)
    requires Lt(alpha, beta0) && value != NegInf
    requires value.Fin? ==> MinInvariant(beta0, value.v, p) && Lt(alpha, ExtMin(beta0, value))
    requires FailSoft(s, alpha, ExtMin(beta0, value), c)
    ensures var value' := ExtMin(value, Fin(s));
      var p' := if value.Fin? then Combine(false, p, c) else c;
      && value'.Fin?
      && (Lt(alpha, ExtMin(beta0, value')) ==> MinInvariant(beta0, value'.v, p'))
      && (Le(ExtMin(beta0, value'), alpha) ==> value'.v == s && c <= s)
  {
  }

  lemma BestOfPrefix(g: Game, ev: (Board, Hands) -> real, b: Board, h: Hands,
                     depth: nat, maximizing: bool, ms: seq<Move>, i: int)
    requires depth >= 1 && 0 <= i < |ms|
    ensures BestOf(g, ev, b, h, depth, maximizing, ms[..i + 1]) ==
      if i == 0 then ChildValue(g, ev, b, h, depth, maximizing, ms[i])
      else Combine(maximizing, BestOf(g, ev, b, h, depth, maximizing, ms[..i]),
                   ChildValue(g, ev, b, h, depth, maximizing, ms[i]))
  {
    assert ms[..i + 1][..i] == ms[..i];
    assert ms[..i + 1][i] == ms[i];
  }

  /** The value of a child is the minimax value of the position it leads to. */
  lemma ChildOf(g: Game, ev: (Board, Hands) -> real, b: Board, h: Hands,
                depth: nat, maximizing: bool, m: Move, next: Position)
    requires depth >= 1 && next == g.apply(b, h, m, Mover(maximizing))
    ensures ChildValue(g, ev, b, h, depth, maximizing, m) == MinimaxValue(g, ev, next.board, next.hands, depth - 1, !maximizing)
  {
  }

  /** A full iteration of the maximising loop over the child ms[i]. */
  lemma MaxAdvance(g: Game, ev: (Board, Hands) -> real, b: Board, h: Hands,
                   depth: nat, ms: seq<Move>, i: int, alpha0: Ext, beta: Ext, value: Ext, score: real)
    requires depth >= 1 && 0 <= i < |ms|
    requires value != PosInf && (i == 0 <==> value == NegInf)
    requires i > 0 ==> Lt(ExtMax(alpha0, value), beta)
    requires Lt(alpha0, beta) && i > 0 ==> MaxInvariant(alpha0, value.v, BestOf(g, ev, b, h, depth, true, ms[..i]))
    requires Lt(ExtMax(alpha0, value), beta) ==>
      FailSoft(score, ExtMax(alpha0, value), beta, ChildValue(g, ev, b, h, depth, true, ms[i]))
    ensures var value' := ExtMax(value, Fin(score));
      && value'.Fin?
      && (Lt(alpha0, beta) && Lt(ExtMax(alpha0, value'), beta) ==> MaxInvariant(alpha0, value'.v, BestOf(g, ev, b, h, depth, true, ms[..i + 1])))
      && (Lt(alpha0, beta) && Le(beta, ExtMax(alpha0, value')) ==> FailSoft(value'.v, alpha0, beta, BestOf(g, ev, b, h, depth, true, ms)))
  {
    if Lt(alpha0, beta) {
      var c := ChildValue(g, ev, b, h, depth, true, ms[i]);
      var p := if i > 0 then BestOf(g, ev, b, h, depth, true, ms[..i]) else 0.0;
      BestOfPrefix(g, ev, b, h, depth, true, ms, i);
      MaxStep(alpha0, beta, value, p, score, c);
      BestOfIsExtreme(g, ev, b, h, depth, true, ms);
      assert ms[i] in ms;
    }
  }

  /** A full iteration of the minimising loop over the child ms[i]. */
  lemma MinAdvance(g: Game, ev: (Board, Hands) -> real, b: Board, h: Hands,
                   depth: nat, ms: seq<Move>, i: int, alpha: Ext, beta0: Ext, value: Ext, score: real)
    requires depth >= 1 && 0 <= i < |ms|
    requires value != NegInf && (i == 0 <==> value == PosInf)
    requires i > 0 ==> Lt(alpha, ExtMin(beta0, value))
    requires Lt(alpha, beta0) && i > 0 ==> MinInvariant(beta0, value.v, BestOf(g, ev, b, h, depth, false, ms[..i]))
    requires Lt(alpha, ExtMin(beta0, value)) ==>
      FailSoft(score, alpha, ExtMin(beta0, value), ChildValue(g, ev, b, h, depth, false, ms[i]))
    ensures var value' := ExtMin(value, Fin(score));
      && value'.Fin?
      && (Lt(alpha, beta0) && Lt(alpha, ExtMin(beta0, value')) ==> MinInvariant(beta0, value'.v, BestOf(g, ev, b, h, depth, false, ms[..i + 1])))
      && (Lt(alpha, beta0) && Le(ExtMin(beta0, value'), alpha) ==> FailSoft(value'.v, alpha, beta0, BestOf(g, ev, b, h, depth, false, ms)))
  {
    if Lt(alpha, beta0) {
      var c := ChildValue(g, ev, b, h, depth, false, ms[i]);
      var p := if i > 0 then BestOf(g, ev, b, h, depth, false, ms[..i]) else 0.0;
      BestOfPrefix(g, ev, b, h, depth, false, ms, i);
      MinStep(alpha, beta0, value, p, score, c);
      BestOfIsExtreme(g, ev, b, h, depth, false, ms);
      assert ms[i] in ms;
    }
  }

  // ---------------------------------------------------------------------
  // minimax

  /** minimax: alpha-beta search; its result is the minimax value whenever
      it falls strictly inside the window, and a bound on it otherwise. */
  method Minimax(ghost g: Game, ev: (Board, Hands) -> real, values: PieceType -> int, b: Board, h: Hands, order: seq<PieceType>,
                 depth: nat, alpha: Ext, beta: Ext, maximizing: bool) returns (v: real)
    requires Plays(g, order)
    ensures Lt(alpha, beta) ==> FailSoft(v, alpha, beta, MinimaxValue(g, ev, b, h, depth, maximizing))
    ensures alpha == NegInf && beta == PosInf ==> v == MinimaxValue(g, ev, b, h, depth, maximizing)
    decreases depth, 2
  {
    if depth == 0 {
      v := ev(b, h);
      assert v == MinimaxValue(g, ev, b, h, depth, maximizing);
      return;
    }
    var owner := Mover(maximizing);
    var legal := BuildLegalMoves(b, h, owner, order);
    LegalMovesValid(b, h, owner, order);
    var moves := ExpandMovesForSearch(b, h, owner, legal);
    assert moves == SearchMoves(b, h, owner, order);
    if |moves| == 0 {
      var check := IsInCheck(b, owner);
      if check {
        v := if owner == White then -MateScore else MateScore;
      } else {
        v := 0.0;
      }
      return;
    }
    SearchMovesValid(b, h, owner, order);
    var ordered := OrderMoves(values, b, h, owner, moves);
    OrderMovesSpec(values, b, h, owner, moves);
    BestOfPermutation(g, ev, b, h, depth, maximizing, moves, ordered);
    if maximizing {
      v := MaxLoop(g, ev, values, b, h, order, depth, alpha, beta, ordered);
    } else {
      v := MinLoop(g, ev, values, b, h, order, depth, alpha, beta, ordered);
    }
    if alpha == NegInf && beta == PosInf {
      FullWindowExact(v, MinimaxValue(g, ev, b, h, depth, maximizing));
    }
  }

  /** The maximising branch of minimax: White tries the ordered moves,
      raising alpha, until beta <= alpha. */
  method MaxLoop(ghost g: Game, ev: (Board, Hands) -> real, values: PieceType -> int, b: Board, h: Hands, order: seq<PieceType>,
                 depth: nat, alpha0: Ext, beta: Ext, ms: seq<Move>) returns (result: real)
    requires Plays(g, order) && depth >= 1 && ms != [] && forall m :: m in ms ==> ValidMove(m)
    ensures Lt(alpha0, beta) ==> FailSoft(result, alpha0, beta, BestOf(g, ev, b, h, depth, true, ms))
    decreases depth, 1
  {
    var value := NegInf;
    var alpha := alpha0;
    var i := 0;
    while i < |ms|
      invariant 0 <= i <= |ms|
      invariant alpha == ExtMax(alpha0, value)
      invariant value != PosInf && (i == 0 <==> value == NegInf)
      invariant i > 0 ==> Lt(alpha, beta)
      invariant Lt(alpha0, beta) && i > 0 ==> MaxInvariant(alpha0, value.v, BestOf(g, ev, b, h, depth, true, ms[..i]))
    {
      var score := MaxVisit(g, ev, values, b, h, order, depth, ms, i, alpha0, beta, value);
      value := ExtMax(value, Fin(score));
      alpha := ExtMax(alpha, value);
      i := i + 1;
      if Le(beta, alpha) {
        break;
      }
    }
    assert ms[..|ms|] == ms;
    result := value.v;
  }

  /** The minimising branch of minimax: Black tries the ordered moves,
      lowering beta, until beta <= alpha. */
  method MinLoop(ghost g: Game, ev: (Board, Hands) -> real, values: PieceType -> int, b: Board, h: Hands, order: seq<PieceType>,
                 depth: nat, alpha: Ext, beta0: Ext, ms: seq<Move>) returns (result: real)
    requires Plays(g, order) && depth >= 1 && ms != [] && forall m :: m in ms ==> ValidMove(m)
    ensures Lt(alpha, beta0) ==> FailSoft(result, alpha, beta0, BestOf(g, ev, b, h, depth, false, ms))
    decreases depth, 1
  {
    var value := PosInf;
    var beta := beta0;
    var i := 0;
    while i < |ms|
      invariant 0 <= i <= |ms|
      invariant beta == ExtMin(beta0, value)
      invariant value != NegInf && (i == 0 <==> value == PosInf)
      invariant i > 0 ==> Lt(alpha, beta)
      invariant Lt(alpha, beta0) && i > 0 ==> MinInvariant(beta0, value.v, BestOf(g, ev, b, h, depth, false, ms[..i]))
    {
      var score := MinVisit(g, ev, values, b, h, order, depth, ms, i, alpha, beta0, value);
      value := ExtMin(value, Fin(score));
      beta := ExtMin(beta, value);
      i := i + 1;
      if Le(beta, alpha) {
        break;
      }
    }
    assert ms[..|ms|] == ms;
    result := value.v;
  }

  /** One child of the maximising loop: White plays ms[i] and Black replies
      with the window (alpha, beta), alpha being the running maximum. */
  method MaxVisit(ghost g: Game, ev: (Board, Hands) -> real, values: PieceType -> int, b: Board, h: Hands, order: seq<PieceType>,
                  depth: nat, ms: seq<Move>, i: int, alpha0: Ext, beta: Ext, value: Ext) returns (score: real)
    requires Plays(g, order) && depth >= 1 && 0 <= i < |ms| && forall m :: m in ms ==> ValidMove(m)
    requires value != PosInf && (i == 0 <==> value == NegInf)
    requires i > 0 ==> Lt(ExtMax(alpha0, value), beta)
    requires Lt(alpha0, beta) && i > 0 ==> MaxInvariant(alpha0, value.v, BestOf(g, ev, b, h, depth, true, ms[..i]))
    ensures var value' := ExtMax(value, Fin(score));
      && value'.Fin?
      && (Lt(alpha0, beta) && Lt(ExtMax(alpha0, value'), beta) ==> MaxInvariant(alpha0, value'.v, BestOf(g, ev, b, h, depth, true, ms[..i + 1])))
      && (Lt(alpha0, beta) && Le(beta, ExtMax(alpha0, value')) ==> FailSoft(value'.v, alpha0, beta, BestOf(g, ev, b, h, depth, true, ms)))
    decreases depth, 0
  {
    var next := ApplyMove(b, h, ms[i], White);
    score := Minimax(g, ev, values, next.board, next.hands, order, depth - 1, ExtMax(alpha0, value), beta, false);
    ChildOf(g, ev, b, h, depth, true, ms[i], next);
    MaxAdvance(g, ev, b, h, depth, ms, i, alpha0, beta, value, score);
  }

  /** One child of the minimising loop: Black plays ms[i] and White replies
      with the window (alpha, beta), beta being the running minimum. */
  method MinVisit(ghost g: Game, ev: (Board, Hands) -> real, values: PieceType -> int, b: Board, h: Hands, order: seq<PieceType>,
                  depth: nat, ms: seq<Move>, i: int, alpha: Ext, beta0: Ext, value: Ext) returns (score: real)
    requires Plays(g, order) && depth >= 1 && 0 <= i < |ms| && forall m :: m in ms ==> ValidMove(m)
    requires value != NegInf && (i == 0 <==> value == PosInf)
    requires i > 0 ==> Lt(alpha, ExtMin(beta0, value))
    requires Lt(alpha, beta0) && i > 0 ==> MinInvariant(beta0, value.v, BestOf(g, ev, b, h, depth, false, ms[..i]))
    ensures var value' := ExtMin(value, Fin(score));
      && value'.Fin?
      && (Lt(alpha, beta0) && Lt(alpha, ExtMin(beta0, value')) ==> MinInvariant(beta0, value'.v, BestOf(g, ev, b, h, depth, false, ms[..i + 1])))
      && (Lt(alpha, beta0) && Le(ExtMin(beta0, value'), alpha) ==> FailSoft(value'.v, alpha, beta0, BestOf(g, ev, b, h, depth, false, ms)))
    decreases depth, 0
  {
    var next := ApplyMove(b, h, ms[i], Black);
    score := Minimax(g, ev, values, next.board, next.hands, order, depth - 1, alpha, ExtMin(beta0, value), true);
    ChildOf(g, ev, b, h, depth, false, ms[i], next);
    MinAdvance(g, ev, b, h, depth, ms, i, alpha, beta0, value, score);
  }
}
