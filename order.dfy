/** Check detection for a move, move ordering and the expansion of optional
    promotions the search works on (app/lib/ai.ts). */
module MoveOrder {
  import opened ShogiTypes
  import opened Moves
  import opened Rules

  // ---------------------------------------------------------------------
  // Giving check

  /** isMoveGivingCheck: after the move the opponent is in check. */
  predicate GivesCheck(b: Board, h: Hands, owner: Owner, m: Move)
    requires ValidMove(m)
  {
    InCheck(Apply(b, h, m, owner).board, Opponent(owner))
  }

  method IsMoveGivingCheck(b: Board, h: Hands, owner: Owner, m: Move) returns (check: bool)
    requires ValidMove(m)
    ensures check == GivesCheck(b, h, owner, m)
  {
    var next := ApplyMove(b, h, m, owner);
    check := IsInCheck(next.board, Opponent(owner));
  }

  // ---------------------------------------------------------------------
  // orderMoves

  /** The comparator looks first at whether a move gives check, then at the
      value of the piece a board move captures. */
  type Key = (int, int)

  /** x may stand before y: the comparator gives x, y a result <= 0. */
  predicate KeyGe(x: Key, y: Key) {
    x.0 > y.0 || (x.0 == y.0 && x.1 >= y.1)
  }

  /** The value of the piece a board move captures, 0 for a drop or a move
      to an empty square. */
  function CaptureValue(values: PieceType -> int, b: Board, m: Move): int
    requires OnBoard(m.to)
  {
    if m.from.Some? && At(b, m.to).Some? then values(At(b, m.to).value.kind) else 0
  }

  /** The comparator's key of a move (1 for a checking move, then the
      capture value); moves naming squares off the board, which the
      generator never produces, get key (0, 0). */
  function MoveKey(values: PieceType -> int, b: Board, h: Hands, owner: Owner, m: Move): Key {
    if !ValidMove(m) then (0, 0)
    else ((if GivesCheck(b, h, owner, m) then 1 else 0), CaptureValue(values, b, m))
  }

  predicate SortedBy(key: Move -> Key, s: seq<Move>) {
    forall i, j :: 0 <= i < j < |s| ==> KeyGe(key(s[i]), key(s[j]))
  }

  /** Inserts x in front of the first element it may precede. */
  function Insert(key: Move -> Key, x: Move, s: seq<Move>): seq<Move> {
    if s == [] || KeyGe(key(x), key(s[0])) then [x] + s
    else [s[0]] + Insert(key, x, s[1..])
  }

  lemma {:induction false} InsertMultiset(key: Move -> Key, x: Move, s: seq<Move>)
    ensures multiset(Insert(key, x, s)) == multiset(s) + multiset{x}
  {
    if s != [] && !KeyGe(key(x), key(s[0])) {
      InsertMultiset(key, x, s[1..]);
      assert s == [s[0]] + s[1..];
    }
  }

  /** The first element of a sorted sequence may precede every element. */
  lemma SortedHead(key: Move -> Key, s: seq<Move>, y: Move)
    requires SortedBy(key, s) && s != [] && y in multiset(s[1..])
    ensures KeyGe(key(s[0]), key(y))
  {
    var k :| 0 <= k < |s[1..]| && s[1..][k] == y;
    assert s[k + 1] == y;
  }

  lemma {:induction false} InsertSorted(key: Move -> Key, x: Move, s: seq<Move>)
    requires SortedBy(key, s)
    ensures SortedBy(key, Insert(key, x, s))
  {
    if s != [] && !KeyGe(key(x), key(s[0])) {
      var rest := Insert(key, x, s[1..]);
      InsertSorted(key, x, s[1..]);
      InsertMultiset(key, x, s[1..]);
      forall j | 0 <= j < |rest| ensures KeyGe(key(s[0]), key(rest[j])) {
        assert rest[j] in multiset(rest);
        if rest[j] != x {
          SortedHead(key, s, rest[j]);
        }
      }
      SortedCons(key, s[0], rest);
    }
  }

  /** A sorted sequence stays sorted behind an element that may precede
      each of its elements. */
  lemma SortedCons(key: Move -> Key, y: Move, rest: seq<Move>)
    requires SortedBy(key, rest) && forall j :: 0 <= j < |rest| ==> KeyGe(key(y), key(rest[j]))
    ensures SortedBy(key, [y] + rest)
  {
    var r := [y] + rest;
    forall i, j | 0 <= i < j < |r| ensures KeyGe(key(r[i]), key(r[j])) {
      assert r[j] == rest[j - 1];
      if i > 0 { assert r[i] == rest[i - 1]; }
    }
  }

  /** A stable insertion sort on keys, descending. */
  function SortByKey(key: Move -> Key, s: seq<Move>): seq<Move> {
    if s == [] then [] else Insert(key, s[0], SortByKey(key, s[1..]))
  }

  lemma {:induction false} SortByKeySpec(key: Move -> Key, s: seq<Move>)
    ensures SortedBy(key, SortByKey(key, s))
    ensures multiset(SortByKey(key, s)) == multiset(s)
  {
    if s != [] {
      SortByKeySpec(key, s[1..]);
      InsertSorted(key, s[0], SortByKey(key, s[1..]));
      InsertMultiset(key, s[0], SortByKey(key, s[1..]));
      assert s == [s[0]] + s[1..];
    }
  }

  /** The elements of s whose key is k, in their order in s. */
  function WithKey(key: Move -> Key, k: Key, s: seq<Move>): seq<Move> {
    if s == [] then []
    else (if key(s[0]) == k then [s[0]] else []) + WithKey(key, k, s[1..])
  }

  lemma {:induction false} WithKeyMembers(key: Move -> Key, k: Key, s: seq<Move>, x: Move)
    ensures x in WithKey(key, k, s) <==> x in s && key(x) == k
  {
    if s != [] {
      WithKeyMembers(key, k, s[1..], x);
      assert x in s <==> x == s[0] || x in s[1..];
    }
  }

  /** Inserting x contributes x to its own key's elements, in front, and
      nothing to any other key's: x only passes elements whose key it
      cannot precede, so differs from. */
  lemma {:induction false} InsertWithKey(key: Move -> Key, k: Key, x: Move, s: seq<Move>)
    ensures WithKey(key, k, Insert(key, x, s)) == (if key(x) == k then [x] else []) + WithKey(key, k, s)
  {
    if s != [] && !KeyGe(key(x), key(s[0])) {
      InsertWithKey(key, k, x, s[1..]);
      assert key(s[0]) != key(x);
    }
  }

  /** The sort is stable: the elements with any one key keep their order. */
  lemma {:induction false} SortByKeyStable(key: Move -> Key, k: Key, s: seq<Move>)
    ensures WithKey(key, k, SortByKey(key, s)) == WithKey(key, k, s)
  {
    if s != [] {
      SortByKeyStable(key, k, s[1..]);
      InsertWithKey(key, k, s[0], SortByKey(key, s[1..]));
    }
  }

  lemma KeyGeAntisymmetric(x: Key, y: Key)
    requires KeyGe(x, y) && KeyGe(y, x)
    ensures x == y
  {
  }

  /** The elements of a key are the same in r1 and r2. */
  ghost predicate SameKeyOrders(key: Move -> Key, r1: seq<Move>, r2: seq<Move>) {
    forall k :: WithKey(key, k, r1) == WithKey(key, k, r2)
  }

  /** Two sorted sequences with the same key orders start with the same key. */
  lemma HeadKeysAgree(key: Move -> Key, r1: seq<Move>, r2: seq<Move>)
    requires SortedBy(key, r1) && SortedBy(key, r2) && SameKeyOrders(key, r1, r2)
    requires r1 != [] && r2 != []
    ensures key(r1[0]) == key(r2[0])
  {
    var a, b := r1[0], r2[0];
    assert WithKey(key, key(b), r1) == WithKey(key, key(b), r2);
    assert WithKey(key, key(a), r1) == WithKey(key, key(a), r2);
    WithKeyMembers(key, key(b), r2, b);
    WithKeyMembers(key, key(b), r1, b);
    WithKeyMembers(key, key(a), r1, a);
    WithKeyMembers(key, key(a), r2, a);
    var i :| 0 <= i < |r1| && r1[i] == b;
    var j :| 0 <= j < |r2| && r2[j] == a;
    assert KeyGe(key(a), key(r1[i]));
    assert KeyGe(key(b), key(r2[j]));
    KeyGeAntisymmetric(key(a), key(b));
  }

  /** With equal head keys, the heads agree and so do the tails' key orders. */
  lemma HeadsAgree(key: Move -> Key, r1: seq<Move>, r2: seq<Move>)
    requires SameKeyOrders(key, r1, r2) && r1 != [] && r2 != [] && key(r1[0]) == key(r2[0])
    ensures r1[0] == r2[0] && SameKeyOrders(key, r1[1..], r2[1..])
  {
    var a, b := r1[0], r2[0];
    var A := WithKey(key, key(a), r1);
    assert A == WithKey(key, key(a), r2);
    assert A[0] == a && A[0] == b;
    forall k
      ensures WithKey(key, k, r1[1..]) == WithKey(key, k, r2[1..])
    {
      var K := WithKey(key, k, r1);
      assert K == WithKey(key, k, r2);
      assert K == (if key(a) == k then [a] else []) + WithKey(key, k, r1[1..]);
      assert K == (if key(a) == k then [a] else []) + WithKey(key, k, r2[1..]);
      if key(a) == k {
        assert WithKey(key, k, r1[1..]) == K[1..] == WithKey(key, k, r2[1..]);
      } else {
        assert WithKey(key, k, r1[1..]) == K == WithKey(key, k, r2[1..]);
      }
    }
  }

  /** A sorted, stable arrangement is unique: two sorted sequences whose
      elements of each key come in the same order are equal. */
  lemma {:induction false} SortedStableUnique(key: Move -> Key, r1: seq<Move>, r2: seq<Move>)
    requires SortedBy(key, r1) && SortedBy(key, r2) && SameKeyOrders(key, r1, r2)
    ensures r1 == r2
    decreases |r1| + |r2|
  {
    if r1 == [] || r2 == [] {
      if r1 != [] || r2 != [] {
        var x := if r1 != [] then r1[0] else r2[0];
        assert WithKey(key, key(x), r1) == WithKey(key, key(x), r2);
        WithKeyMembers(key, key(x), r1, x);
        WithKeyMembers(key, key(x), r2, x);
      }
    } else {
      HeadKeysAgree(key, r1, r2);
      HeadsAgree(key, r1, r2);
      SortedStableUnique(key, r1[1..], r2[1..]);
      assert r1 == [r1[0]] + r1[1..] && r2 == [r2[0]] + r2[1..];
    }
  }

  /** orderMoves: checking moves first, then larger captures first. */
  function OrderMoves(values: PieceType -> int, b: Board, h: Hands, owner: Owner, ms: seq<Move>): (r: seq<Move>)
    ensures multiset(r) == multiset(ms)
  {
    SortByKeySpec(m => MoveKey(values, b, h, owner, m), ms);
    SortByKey(m => MoveKey(values, b, h, owner, m), ms)
  }

  /** orderMoves rearranges the moves without losing, adding or duplicating
      any, and no checking move comes after a quiet one, nor a smaller
      capture before a larger one among moves that agree on check. */
  lemma OrderMovesSpec(values: PieceType -> int, b: Board, h: Hands, owner: Owner, ms: seq<Move>)
    ensures var r := OrderMoves(values, b, h, owner, ms);
      && multiset(r) == multiset(ms)
      && |r| == |ms|
      && (forall m :: m in r <==> m in ms)
      && forall i, j :: 0 <= i < j < |r| ==> KeyGe(MoveKey(values, b, h, owner, r[i]), MoveKey(values, b, h, owner, r[j]))
  {
    var r := OrderMoves(values, b, h, owner, ms);
    SortByKeySpec(m => MoveKey(values, b, h, owner, m), ms);
    assert |r| == |multiset(r)| == |multiset(ms)| == |ms|;
    forall m ensures m in r <==> m in ms {
      assert m in r <==> m in multiset(r);
      assert m in ms <==> m in multiset(ms);
    }
  }

  /** orderMoves is a stable sort by the comparator's key: moves of equal
      key keep their input order, and it is the only ordered arrangement
      of the moves that does, so any stable sort by the comparator gives
      this list. */
  lemma OrderMovesStable(values: PieceType -> int, b: Board, h: Hands, owner: Owner, ms: seq<Move>, r: seq<Move>)
    ensures var key := m => MoveKey(values, b, h, owner, m);
      forall k :: WithKey(key, k, OrderMoves(values, b, h, owner, ms)) == WithKey(key, k, ms)
    ensures var key := m => MoveKey(values, b, h, owner, m);
      SortedBy(key, r) && SameKeyOrders(key, r, ms) ==> r == OrderMoves(values, b, h, owner, ms)
  {
    var key := m => MoveKey(values, b, h, owner, m);
    var o := OrderMoves(values, b, h, owner, ms);
    forall k
      ensures WithKey(key, k, o) == WithKey(key, k, ms)
    {
      SortByKeyStable(key, k, ms);
    }
    if SortedBy(key, r) && SameKeyOrders(key, r, ms) {
      SortByKeySpec(key, ms);
      SortedStableUnique(key, r, o);
    }
  }

  // ---------------------------------------------------------------------
  // expandMovesForSearch

  /** Whether the mover may play a move with a given non-optional tag
      (canApplyPromotionOption); false for squares off the board, which
      the generator never produces. */
  function Playable(b: Board, h: Hands, owner: Owner): (Move, Promotion) -> bool {
    (m: Move, pr: Promotion) => ValidMove(m) && pr != PromoteOptional && CanApplyPromotionOption(b, h, owner, m, pr)
  }

  /** The entries one move contributes: an optional promotion becomes its
      promoting variant and its non-promoting variant, each if `ok` accepts
      it; any other move stays as it is. */
  function ExpandOne(ok: (Move, Promotion) -> bool, m: Move): seq<Move> {
    if m.promotion == PromoteOptional then
      (if ok(m, PromoteMust) then [m.(promotion := PromoteMust)] else []) +
      (if ok(m, PromoteNone) then [m.(promotion := PromoteNone)] else [])
    else [m]
  }

  function Expand(ok: (Move, Promotion) -> bool, ms: seq<Move>): seq<Move>
    decreases |ms|
  {
    if ms == [] then []
    else Expand(ok, ms[..|ms| - 1]) + ExpandOne(ok, ms[|ms| - 1])
  }

  /** The loop body of expandMovesForSearch for one move. */
  method ExpandStep(b: Board, h: Hands, owner: Owner, move: Move, expanded: seq<Move>) returns (expanded': seq<Move>)
    requires ValidMove(move)
    ensures expanded' == expanded + ExpandOne(Playable(b, h, owner), move)
  {
    expanded' := expanded;
    if move.promotion == PromoteOptional {
      var promoting := CanApplyPromotion(b, h, owner, move, PromoteMust);
      var staying := CanApplyPromotion(b, h, owner, move, PromoteNone);
      if promoting {
        expanded' := expanded' + [move.(promotion := PromoteMust)];
      }
      if staying {
        expanded' := expanded' + [move.(promotion := PromoteNone)];
      }
    } else {
      expanded' := expanded' + [move];
    }
  }

  method ExpandMovesForSearch(b: Board, h: Hands, owner: Owner, moves: seq<Move>) returns (expanded: seq<Move>)
    requires forall m :: m in moves ==> ValidMove(m)
    ensures expanded == Expand(Playable(b, h, owner), moves)
  {
    expanded := [];
    for i := 0 to |moves|
      invariant expanded == Expand(Playable(b, h, owner), moves[..i])
    {
      assert moves[..i + 1][..i] == moves[..i];
      expanded := ExpandStep(b, h, owner, moves[i], expanded);
    }
    assert moves[..|moves|] == moves;
  }

  /** What the expansion contains: the moves without an optional tag, and
      the accepted must/none variants of the optional ones. */
  lemma {:induction false} ExpandMembers(ok: (Move, Promotion) -> bool, ms: seq<Move>, x: Move)
    ensures x in Expand(ok, ms) <==>
      || (x in ms && x.promotion != PromoteOptional)
      || (x.promotion != PromoteOptional && x.(promotion := PromoteOptional) in ms
          && ok(x.(promotion := PromoteOptional), x.promotion))
    decreases |ms|
  {
    if ms != [] {
      var n := |ms| - 1;
      var x' := x.(promotion := PromoteOptional);
      ExpandMembers(ok, ms[..n], x);
      ExpandOneMembers(ok, ms[n], x);
      assert ms == ms[..n] + [ms[n]];
      assert Expand(ok, ms) == Expand(ok, ms[..n]) + ExpandOne(ok, ms[n]);
      ExpandLogic(x in Expand(ok, ms), x in Expand(ok, ms[..n]), x in ExpandOne(ok, ms[n]),
                  x in ms, x' in ms, x in ms[..n], x == ms[n], x' in ms[..n], x' == ms[n],
                  x.promotion != PromoteOptional, ok(x', x.promotion));
    }
  }

  /** The entries of one move's expansion. */
  lemma ExpandOneMembers(ok: (Move, Promotion) -> bool, m: Move, x: Move)
    ensures x in ExpandOne(ok, m) <==>
      || (x == m && x.promotion != PromoteOptional)
      || (x.promotion != PromoteOptional && x.(promotion := PromoteOptional) == m && ok(m, x.promotion))
  {
    if m.promotion == PromoteOptional {
      assert m.(promotion := PromoteMust).(promotion := PromoteOptional) == m;
      assert m.(promotion := PromoteNone).(promotion := PromoteOptional) == m;
    }
  }

  /** The membership step of the expansion loop, as plain logic. */
  lemma ExpandLogic(inAll: bool, inPrev: bool, inOne: bool, inMs: bool, inMs': bool,
                    a: bool, e: bool, y: bool, z: bool, o: bool, k: bool)
    requires inAll == (inPrev || inOne)
    requires inPrev == ((a && o) || (o && y && k))
    requires inOne == ((e && o) || (o && z && k))
    requires inMs == (a || e) && inMs' == (y || z)
    ensures inAll == ((inMs && o) || (o && inMs' && k))
  {
  }

  /** Without optional promotions the expansion is the identity. */
  lemma {:induction false} ExpandNoOptional(ok: (Move, Promotion) -> bool, ms: seq<Move>)
    requires forall m :: m in ms ==> m.promotion != PromoteOptional
    ensures Expand(ok, ms) == ms
    decreases |ms|
  {
    if ms != [] {
      ExpandNoOptional(ok, ms[..|ms| - 1]);
      assert ms == ms[..|ms| - 1] + [ms[|ms| - 1]];
    }
  }

  /** The moves the search explores: the legal moves, expanded. */
  function SearchMoves(b: Board, h: Hands, owner: Owner, order: seq<PieceType>): seq<Move> {
    Expand(Playable(b, h, owner), LegalMoves(b, h, owner, order))
  }

  /** Every move the search explores names board squares, carries no
      optional tag, and leaves the mover's king safe once applied. */
  lemma SearchMovesSafe(b: Board, h: Hands, owner: Owner, order: seq<PieceType>, x: Move)
    requires x in SearchMoves(b, h, owner, order)
    ensures ValidMove(x) && x.promotion != PromoteOptional
    ensures !InCheck(Apply(b, h, x, owner).board, owner)
  {
    LegalMovesValid(b, h, owner, order);
    ExpandMembers(Playable(b, h, owner), LegalMoves(b, h, owner, order), x);
    if x in LegalMoves(b, h, owner, order) && x.promotion != PromoteOptional {
      LegalMovesSafe(b, h, owner, order, x);
    } else {
      var m := x.(promotion := PromoteOptional);
      assert m.(promotion := x.promotion) == x;
    }
  }

  /** An optional promotion among the legal moves comes out as both of its
      variants. */
  lemma SearchMovesBothVariants(b: Board, h: Hands, owner: Owner, order: seq<PieceType>, m: Move)
    requires m in LegalMoves(b, h, owner, order) && m.promotion == PromoteOptional
    ensures m.(promotion := PromoteMust) in SearchMoves(b, h, owner, order)
    ensures m.(promotion := PromoteNone) in SearchMoves(b, h, owner, order)
  {
    LegalMovesValid(b, h, owner, order);
    LegalMovesMembers(b, h, owner, order, m);
    DropsValid(b, h, owner, order);
    PromotionVariantsAgree(b, h, owner, m);
    var ms := LegalMoves(b, h, owner, order);
    ExpandMembers(Playable(b, h, owner), ms, m.(promotion := PromoteMust));
    ExpandMembers(Playable(b, h, owner), ms, m.(promotion := PromoteNone));
    assert m.(promotion := PromoteMust).(promotion := PromoteOptional) == m;
    assert m.(promotion := PromoteNone).(promotion := PromoteOptional) == m;
  }
}
