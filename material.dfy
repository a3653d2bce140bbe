/** sumMaterial (app/lib/ai.ts): the total piece value on the board and in
    both hands, which the root driver compares with its endgame threshold. */
module Material {
  import opened ShogiTypes
  import opened Moves

  /** A board cell's contribution: kings and empty cells count nothing. */
  function CellValue(values: PieceType -> int, x: Cell): int {
    if x.None? || x.value.kind == King then 0 else values(x.value.kind)
  }

  /** The cells row[0..c]. */
  function RowMaterial(values: PieceType -> int, row: seq<Cell>, c: int): int
    requires 0 <= c <= |row|
  {
    if c == 0 then 0 else RowMaterial(values, row, c - 1) + CellValue(values, row[c - 1])
  }

  /** Rows 0..r-1. */
  function BoardMaterial(values: PieceType -> int, b: Board, r: int): int
    requires 0 <= r <= 9
  {
    if r == 0 then 0 else BoardMaterial(values, b, r - 1) + RowMaterial(values, b[r - 1], 9)
  }

  /** Both hands' counts of each type in `keys` (the key list of the value
      table), times its value. */
  function HandMaterial(values: PieceType -> int, h: Hands, keys: seq<PieceType>): int {
    if keys == [] then 0
    else
      var t := keys[|keys| - 1];
      HandMaterial(values, h, keys[..|keys| - 1]) + KeyMaterial(values, h, t)
  }

  function TotalMaterial(values: PieceType -> int, keys: seq<PieceType>, b: Board, h: Hands): int {
    BoardMaterial(values, b, 9) + HandMaterial(values, h, keys)
  }

  /** sumMaterial: the board scan skipping empty cells and kings, then the
      hand counts in key order. */
  method SumMaterial(values: PieceType -> int, keys: seq<PieceType>, b: Board, h: Hands) returns (total: int)
    ensures total == TotalMaterial(values, keys, b, h)
  {
    total := 0;
    for r := 0 to 9
      invariant total == BoardMaterial(values, b, r)
    {
      for c := 0 to 9
        invariant total == BoardMaterial(values, b, r) + RowMaterial(values, b[r], c)
      {
        var cell := b[r][c];
        if cell.None? || cell.value.kind == King {
          continue;
        }
        total := total + values(cell.value.kind);
      }
    }
    for i := 0 to |keys|
      invariant total == BoardMaterial(values, b, 9) + HandMaterial(values, h, keys[..i])
    {
      var piece := keys[i];
      var count := h.Count(Black, piece) + h.Count(White, piece);
      assert keys[..i + 1][..i] == keys[..i];
      total := total + count * values(piece);
    }
    assert keys[..|keys|] == keys;
  }

  // ---------------------------------------------------------------------
  // Properties

  predicate NonNegativeValues(values: PieceType -> int) {
    forall t :: values(t) >= 0
  }

  predicate NonNegativeHands(h: Hands) {
    forall o, t :: h.Count(o, t) >= 0
  }

  lemma {:induction false} RowMaterialNonNegative(values: PieceType -> int, row: seq<Cell>, c: int)
    requires NonNegativeValues(values) && 0 <= c <= |row|
    ensures RowMaterial(values, row, c) >= 0
  {
    if c > 0 {
      RowMaterialNonNegative(values, row, c - 1);
    }
  }

  lemma {:induction false} BoardMaterialNonNegative(values: PieceType -> int, b: Board, r: int)
    requires NonNegativeValues(values) && 0 <= r <= 9
    ensures BoardMaterial(values, b, r) >= 0
  {
    if r > 0 {
      BoardMaterialNonNegative(values, b, r - 1);
      RowMaterialNonNegative(values, b[r - 1], 9);
    }
  }

  lemma {:induction false} HandMaterialNonNegative(values: PieceType -> int, h: Hands, keys: seq<PieceType>)
    requires NonNegativeValues(values) && NonNegativeHands(h)
    ensures HandMaterial(values, h, keys) >= 0
    decreases |keys|
  {
    if keys != [] {
      var t := keys[|keys| - 1];
      HandMaterialNonNegative(values, h, keys[..|keys| - 1]);
      var n := h.Count(Black, t) + h.Count(White, t);
      assert n >= 0 && values(t) >= 0;
      assert n * values(t) >= 0;
    }
  }

  /** With non-negative values and counts the material is non-negative. */
  lemma MaterialNonNegative(values: PieceType -> int, keys: seq<PieceType>, b: Board, h: Hands)
    requires NonNegativeValues(values) && NonNegativeHands(h)
    ensures TotalMaterial(values, keys, b, h) >= 0
  {
    BoardMaterialNonNegative(values, b, 9);
    HandMaterialNonNegative(values, h, keys);
  }

  /** Replacing cell j of a row changes its material by the difference of
      the two cells' values. */
  lemma {:induction false} RowMaterialSet(values: PieceType -> int, row: seq<Cell>, j: int, x: Cell, c: int)
    requires 0 <= j < |row| && 0 <= c <= |row|
    ensures RowMaterial(values, row[j := x], c) ==
      RowMaterial(values, row, c) + (if j < c then CellValue(values, x) - CellValue(values, row[j]) else 0)
  {
    if c > 0 {
      RowMaterialSet(values, row, j, x, c - 1);
    }
  }

  lemma {:induction false} BoardMaterialSet(values: PieceType -> int, b: Board, s: Square, x: Cell, r: int)
    requires OnBoard(s) && 0 <= r <= 9
    ensures BoardMaterial(values, SetCell(b, s, x), r) ==
      BoardMaterial(values, b, r) + (if s.r < r then CellValue(values, x) - CellValue(values, At(b, s)) else 0)
  {
    if r > 0 {
      BoardMaterialSet(values, b, s, x, r - 1);
      if r - 1 == s.r {
        RowMaterialSet(values, b[s.r], s.c, x, 9);
      }
    }
  }

  lemma AddMul(x: int, y: int, z: int)
    ensures (x + y) * z == x * z + y * z
  {
  }

  /** Both hands' count of u times its value. */
  function KeyMaterial(values: PieceType -> int, h: Hands, u: PieceType): int {
    (h.Count(Black, u) + h.Count(White, u)) * values(u)
  }

  lemma KeyMaterialWith(values: PieceType -> int, h: Hands, o: Owner, t: PieceType, n: int, u: PieceType)
    ensures KeyMaterial(values, h.WithCount(o, t, n), u) ==
      KeyMaterial(values, h, u) + (if u == t then (n - h.Count(o, t)) * values(t) else 0)
  {
    var h' := h.WithCount(o, t, n);
    if u == t {
      AddMul(h.Count(Black, u) + h.Count(White, u), n - h.Count(o, t), values(u));
      assert h'.Count(Black, u) + h'.Count(White, u) == h.Count(Black, u) + h.Count(White, u) + (n - h.Count(o, t));
    } else {
      assert h'.Count(Black, u) == h.Count(Black, u) && h'.Count(White, u) == h.Count(White, u);
    }
  }

  /** Changing one hand count to n changes the hand material by the change
      times the value, once per occurrence of the type among the keys. */
  lemma {:induction false} HandMaterialWith(values: PieceType -> int, h: Hands, keys: seq<PieceType>, o: Owner, t: PieceType, n: int)
    ensures HandMaterial(values, h.WithCount(o, t, n), keys) ==
      HandMaterial(values, h, keys) + multiset(keys)[t] * ((n - h.Count(o, t)) * values(t))
    decreases |keys|
  {
    if keys != [] {
      var init := keys[..|keys| - 1];
      var u := keys[|keys| - 1];
      assert keys == init + [u];
      HandMaterialWith(values, h, init, o, t, n);
      KeyMaterialWith(values, h, o, t, n, u);
      var d := (n - h.Count(o, t)) * values(t);
      if u == t {
        assert multiset(keys)[t] == multiset(init)[t] + 1;
        AddMul(multiset(init)[t], 1, d);
      } else {
        assert multiset(keys)[t] == multiset(init)[t];
      }
    }
  }

  /** The value table's keys list every type but the king exactly once. */
  predicate KeysCoverPieces(keys: seq<PieceType>) {
    forall t :: t != King ==> multiset(keys)[t] == 1
  }

  lemma DropConserves(values: PieceType -> int, keys: seq<PieceType>, b: Board, h: Hands, m: Move, owner: Owner)
    requires ValidMove(m) && KeysCoverPieces(keys)
    requires m.drop.Some? && m.drop.value != King && At(b, m.to).None?
    ensures var next := Apply(b, h, m, owner);
      TotalMaterial(values, keys, next.board, next.hands) == TotalMaterial(values, keys, b, h)
  {
    var t := m.drop.value;
    BoardMaterialSet(values, b, m.to, Some(Piece(t, owner, false)), 9);
    HandMaterialWith(values, h, keys, owner, t, h.Count(owner, t) - 1);
  }

  lemma BoardMoveConserves(values: PieceType -> int, keys: seq<PieceType>, b: Board, h: Hands, m: Move, owner: Owner)
    requires ValidMove(m) && KeysCoverPieces(keys)
    requires m.drop.None? && m.from.Some? && m.from.value != m.to && At(b, m.from.value).Some?
    ensures var next := Apply(b, h, m, owner);
      TotalMaterial(values, keys, next.board, next.hands) == TotalMaterial(values, keys, b, h)
  {
    var from := m.from.value;
    var piece := At(b, from).value;
    var target := At(b, m.to);
    var promote := m.promotion == PromoteMust || m.promotion == PromoteOptional;
    var moved := piece.(promoted := if promote then true else piece.promoted);
    var b1 := SetCell(b, from, None);
    BoardMaterialSet(values, b, from, None, 9);
    BoardMaterialSet(values, b1, m.to, Some(moved), 9);
    assert At(b1, m.to) == target;
    if target.Some? && Demote(target.value) != King {
      var k := Demote(target.value);
      HandMaterialWith(values, h, keys, owner, k, h.Count(owner, k) + 1);
    }
  }

  /** A move never changes the total material: a drop moves a piece from
      the hand to an empty square, a move carries its piece along, and a
      captured piece other than a king passes into the mover's hand (a
      captured king was never counted). */
  lemma MaterialConserved(values: PieceType -> int, keys: seq<PieceType>, b: Board, h: Hands, m: Move, owner: Owner)
    requires ValidMove(m) && KeysCoverPieces(keys)
    requires m.drop.Some? ==> m.drop.value != King && At(b, m.to).None?
    requires m.drop.None? && m.from.Some? ==> m.from.value != m.to
    ensures var next := Apply(b, h, m, owner);
      TotalMaterial(values, keys, next.board, next.hands) == TotalMaterial(values, keys, b, h)
  {
    if m.drop.Some? {
      DropConserves(values, keys, b, h, m, owner);
    } else if m.from.Some? && At(b, m.from.value).Some? {
      BoardMoveConserves(values, keys, b, h, m, owner);
    } else {
      ApplyNoPiece(b, h, m, owner);
    }
  }
}
