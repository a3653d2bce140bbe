/** SFEN position text for the USI engine (app/api/ai/route.ts): the board
    ranks, the pieces in hand and the whole position line, each with a
    decoder that reads it back. */
module Sfen {
  import opened ShogiTypes
  import opened Decimal

  // ---------------------------------------------------------------------
  // Letters

  function TypeLetter(t: PieceType): char {
    match t
    case Pawn => 'P'
    case Lance => 'L'
    case Knight => 'N'
    case Silver => 'S'
    case Gold => 'G'
    case Bishop => 'B'
    case Rook => 'R'
    case King => 'K'
  }

  /** ASCII toLowerCase. */
  function ToLower(ch: char): char {
    if 'A' <= ch <= 'Z' then ((ch as int) + 32) as char else ch
  }

  /** Black's pieces in upper case, White's in lower case. */
  function PieceChar(p: Piece): char {
    if p.owner == Black then TypeLetter(p.kind) else ToLower(TypeLetter(p.kind))
  }

  function PieceToken(p: Piece): string {
    if p.promoted then ['+', PieceChar(p)] else [PieceChar(p)]
  }

  /** The piece type and owner a board or hand letter stands for. */
  function LetterPiece(ch: char): Option<(PieceType, Owner)> {
    match ch
    case 'P' => Some((Pawn, Black))
    case 'L' => Some((Lance, Black))
    case 'N' => Some((Knight, Black))
    case 'S' => Some((Silver, Black))
    case 'G' => Some((Gold, Black))
    case 'B' => Some((Bishop, Black))
    case 'R' => Some((Rook, Black))
    case 'K' => Some((King, Black))
    case 'p' => Some((Pawn, White))
    case 'l' => Some((Lance, White))
    case 'n' => Some((Knight, White))
    case 's' => Some((Silver, White))
    case 'g' => Some((Gold, White))
    case 'b' => Some((Bishop, White))
    case 'r' => Some((Rook, White))
    case 'k' => Some((King, White))
    case _ => None
  }

  lemma LetterPieceChar(p: Piece)
    ensures LetterPiece(PieceChar(p)) == Some((p.kind, p.owner))
    ensures !IsDigit(PieceChar(p)) && PieceChar(p) != '+' && PieceChar(p) != '/' && PieceChar(p) != ' '
  {
  }

  lemma LetterOfType(t: PieceType, o: Owner)
    ensures var ch := if o == Black then TypeLetter(t) else ToLower(TypeLetter(t));
      && LetterPiece(ch) == Some((t, o))
      && !IsDigit(ch) && ch != '-' && ch != ' '
  {
  }

  // ---------------------------------------------------------------------
  // Board ranks

  /** The empty counter as the source prints it: nothing while it is 0. */
  function EmptyText(empty: nat): string {
    if empty > 0 then NatToString(empty) else ""
  }

  /** The text the rank loop appends for `cells` when `empty` empty cells
      are still pending. */
  function RunText(cells: seq<Cell>, empty: nat): string
    decreases |cells|
  {
    if cells == [] then EmptyText(empty)
    else if cells[0].None? then RunText(cells[1..], empty + 1)
    else EmptyText(empty) + PieceToken(cells[0].value) + RunText(cells[1..], 0)
  }

  /** One rank; the "9" fallback is for a line that came out empty. */
  function RankText(row: Row): string {
    var line := RunText(row, 0);
    if line == "" then "9" else line
  }

  /** The rank loop of toSfenBoard. */
  method ToSfenRank(row: Row) returns (line: string)
    ensures line == RankText(row)
  {
    var empty: nat := 0;
    line := "";
    for c := 0 to 9
      invariant line + RunText(row[c..], empty) == RunText(row, 0)
    {
      assert row[c..][1..] == row[c + 1..];
      var cell := row[c];
      if cell.None? {
        empty := empty + 1;
        continue;
      }
      if empty > 0 {
        line := line + NatToString(empty);
        empty := 0;
      }
      line := line + PieceToken(cell.value);
    }
    if empty > 0 {
      line := line + NatToString(empty);
    }
    if line == "" {
      line := "9";
    }
  }

  /** The strings joined with a separator (Array.join). */
  function Join(xs: seq<string>, sep: char): string
    requires xs != []
  {
    if |xs| == 1 then xs[0] else xs[0] + [sep] + Join(xs[1..], sep)
  }

  /** The pieces between separators (String.split). */
  function Split(s: string, sep: char): (parts: seq<string>)
    ensures parts != []
  {
    if s == [] then [[]]
    else if s[0] == sep then [[]] + Split(s[1..], sep)
    else
      var rest := Split(s[1..], sep);
      [[s[0]] + rest[0]] + rest[1..]
  }

  /** The rank texts of rows, in order. */
  function RankTexts(rows: seq<Row>): (parts: seq<string>)
    ensures |parts| == |rows|
  {
    if rows == [] then [] else RankTexts(rows[..|rows| - 1]) + [RankText(rows[|rows| - 1])]
  }

  function BoardText(b: Board): string {
    Join(RankTexts(b), '/')
  }

  /** toSfenBoard: the nine ranks, row 0 first, joined by "/". */
  method ToSfenBoard(b: Board) returns (s: string)
    ensures s == BoardText(b)
  {
    var ranks: seq<string> := [];
    for r := 0 to 9
      invariant ranks == RankTexts(b[..r])
    {
      var line := ToSfenRank(b[r]);
      assert b[..r + 1][..r] == b[..r];
      ranks := ranks + [line];
    }
    assert b[..9] == b;
    s := Join(ranks, '/');
  }

  // ---------------------------------------------------------------------
  // Reading a board back

  /** The cells one token stands for and the token's length: a digit is
      that many empty cells, a letter a piece, "+" and a letter a promoted
      piece. */
  function ReadCells(s: string): (r: Option<(seq<Cell>, nat)>)
    requires s != []
    ensures r.Some? ==> 1 <= r.value.1 <= |s|
  {
    if '1' <= s[0] <= '9' then Some((Blanks(DigitValue(s[0])), 1))
    else if s[0] == '+' then
      if |s| >= 2 && LetterPiece(s[1]).Some? then
        Some(([Some(Piece(LetterPiece(s[1]).value.0, LetterPiece(s[1]).value.1, true))], 2))
      else None
    else if LetterPiece(s[0]).Some? then
      Some(([Some(Piece(LetterPiece(s[0]).value.0, LetterPiece(s[0]).value.1, false))], 1))
    else None
  }

  /** n empty cells. */
  function Blanks(n: nat): seq<Cell> {
    seq(n, _ => None)
  }

  function PrependCells(cells: seq<Cell>, rest: Option<seq<Cell>>): Option<seq<Cell>> {
    match rest
    case None => None
    case Some(r) => Some(cells + r)
  }

  /** The cells a rank text stands for. */
  function ParseCells(s: string): Option<seq<Cell>>
    decreases |s|
  {
    if s == [] then Some([])
    else
      match ReadCells(s)
      case None => None
      case Some((cells, k)) => PrependCells(cells, ParseCells(s[k..]))
  }

  function ParseRank(s: string): Option<Row> {
    match ParseCells(s)
    case Some(cells) =>
      if |cells| == 9 then var row: Row := cells; Some(row) else None
    case None => None
  }

  function ParseRanks(parts: seq<string>): Option<seq<Row>> {
    if parts == [] then Some([])
    else
      match (ParseRanks(parts[..|parts| - 1]), ParseRank(parts[|parts| - 1]))
      case (Some(rows), Some(row)) => Some(rows + [row])
      case _ => None
  }

  /** Reads the board part of an SFEN string. */
  function ParseBoard(s: string): Option<Board> {
    var parts := Split(s, '/');
    if |parts| != 9 then None
    else
      match ParseRanks(parts)
      case None => None
      case Some(rows) =>
        if |rows| == 9 then var board: Board := rows; Some(board) else None
  }

  lemma SingleDigit(n: nat)
    requires 1 <= n <= 9
    ensures NatToString(n) == [DigitChar(n)] && '1' <= DigitChar(n) <= '9'
    ensures DigitValue(DigitChar(n)) == n
  {
  }

  lemma ParseCellsStep(s: string, cells: seq<Cell>, k: nat)
    requires s != [] && ReadCells(s) == Some((cells, k))
    ensures ParseCells(s) == PrependCells(cells, ParseCells(s[k..]))
  {
  }

  lemma ParseCellsToken(p: Piece, rest: string)
    ensures ParseCells(PieceToken(p) + rest) == PrependCells([Some(p)], ParseCells(rest))
  {
    LetterPieceChar(p);
    var s := PieceToken(p) + rest;
    if p.promoted {
      assert s[0] == '+' && s[1] == PieceChar(p) && s[2..] == rest;
      ParseCellsStep(s, [Some(p)], 2);
    } else {
      assert s[0] == PieceChar(p) && s[1..] == rest;
      ParseCellsStep(s, [Some(p)], 1);
    }
  }

  lemma ParseCellsDigit(n: nat, rest: string)
    requires 1 <= n <= 9
    ensures ParseCells(EmptyText(n) + rest) == PrependCells(Blanks(n), ParseCells(rest))
  {
    SingleDigit(n);
    var s := EmptyText(n) + rest;
    assert s[0] == DigitChar(n) && s[1..] == rest;
    ParseCellsStep(s, Blanks(n), 1);
  }

  /** Reading back a rank's text restores its cells, the pending empty
      cells first. */
  lemma {:induction false} RunTextRoundTrip(cells: seq<Cell>, empty: nat)
    requires empty + |cells| <= 9
    ensures ParseCells(RunText(cells, empty)) == Some(Blanks(empty) + cells)
    decreases |cells|
  {
    if cells == [] {
      RunTextEnd(empty);
      assert Blanks(empty) + cells == Blanks(empty);
    } else if cells[0].None? {
      RunTextRoundTrip(cells[1..], empty + 1);
      assert Blanks(empty + 1) + cells[1..] == Blanks(empty) + cells;
    } else {
      RunTextRoundTrip(cells[1..], 0);
      assert Blanks(0) + cells[1..] == cells[1..];
      RunTextPiece(cells, empty);
    }
  }

  /** The pending empty cells at the end of a rank read back. */
  lemma RunTextEnd(empty: nat)
    requires empty <= 9
    ensures ParseCells(RunText([], empty)) == Some(Blanks(empty))
  {
    if empty > 0 {
      ParseCellsDigit(empty, []);
      assert EmptyText(empty) + [] == RunText([], empty);
      assert Blanks(empty) + [] == Blanks(empty);
    } else {
      assert Blanks(empty) == [];
    }
  }

  /** A piece after the pending empty cells reads back, given that the
      rest of the rank does. */
  lemma RunTextPiece(cells: seq<Cell>, empty: nat)
    requires empty + |cells| <= 9 && cells != [] && cells[0].Some?
    requires ParseCells(RunText(cells[1..], 0)) == Some(cells[1..])
    ensures ParseCells(RunText(cells, empty)) == Some(Blanks(empty) + cells)
  {
    var rest := RunText(cells[1..], 0);
    var tail := PieceToken(cells[0].value) + rest;
    TokenThenRest(cells[0].value, rest, cells[1..]);
    assert [cells[0]] + cells[1..] == cells;
    RunTextUnfoldPiece(cells, empty);
    ParseAfterBlanks(empty, tail, cells);
  }

  lemma RunTextUnfoldPiece(cells: seq<Cell>, empty: nat)
    requires cells != [] && cells[0].Some?
    ensures RunText(cells, empty) == EmptyText(empty) + (PieceToken(cells[0].value) + RunText(cells[1..], 0))
  {
  }

  lemma TokenThenRest(p: Piece, rest: string, tailCells: seq<Cell>)
    requires ParseCells(rest) == Some(tailCells)
    ensures ParseCells(PieceToken(p) + rest) == Some([Some(p)] + tailCells)
  {
    ParseCellsToken(p, rest);
  }

  /** Text read as `cells`, after the counter of `empty` pending cells. */
  lemma ParseAfterBlanks(empty: nat, tail: string, cells: seq<Cell>)
    requires empty <= 9 && ParseCells(tail) == Some(cells)
    ensures ParseCells(EmptyText(empty) + tail) == Some(Blanks(empty) + cells)
  {
    if empty > 0 {
      ParseCellsDigit(empty, tail);
    } else {
      assert EmptyText(empty) + tail == tail;
      assert Blanks(empty) + cells == cells;
    }
  }

  /** Each rank reads back as the row it was written from; in particular
      its digits and pieces account for exactly nine cells. */
  lemma RankRoundTrip(row: Row)
    ensures ParseRank(RankText(row)) == Some(row)
  {
    RunTextRoundTrip(row, 0);
    assert Blanks(0) + row == row;
    assert RunText(row, 0) != "";
  }

  predicate NoAdjacentDigits(s: string) {
    forall i :: 0 <= i < |s| - 1 ==> !(IsDigit(s[i]) && IsDigit(s[i + 1]))
  }

  lemma ConcatNoAdjacent(a: string, b: string)
    requires NoAdjacentDigits(a) && NoAdjacentDigits(b)
    requires a == [] || b == [] || !IsDigit(a[|a| - 1]) || !IsDigit(b[0])
    ensures NoAdjacentDigits(a + b)
  {
    var s := a + b;
    forall i | 0 <= i < |s| - 1
      ensures !(IsDigit(s[i]) && IsDigit(s[i + 1]))
    {
      if i < |a| - 1 {
        assert s[i] == a[i] && s[i + 1] == a[i + 1];
      } else if i >= |a| {
        assert s[i] == b[i - |a|] && s[i + 1] == b[i + 1 - |a|];
      }
    }
  }

  /** A piece token holds no digit. */
  lemma TokenNoDigits(p: Piece)
    ensures var tok := PieceToken(p);
      |tok| >= 1 && !IsDigit(tok[0]) && !IsDigit(tok[|tok| - 1]) && NoAdjacentDigits(tok)
  {
    LetterPieceChar(p);
  }

  /** Every run of empty cells is written as one digit: no two digits of a
      rank stand side by side. */
  lemma {:induction false} RunTextNoAdjacentDigits(cells: seq<Cell>, empty: nat)
    requires empty + |cells| <= 9
    ensures NoAdjacentDigits(RunText(cells, empty))
    decreases |cells|
  {
    if cells == [] {
      if empty > 0 {
        SingleDigit(empty);
      }
    } else if cells[0].None? {
      RunTextNoAdjacentDigits(cells[1..], empty + 1);
    } else {
      var tok := PieceToken(cells[0].value);
      var rest := RunText(cells[1..], 0);
      RunTextNoAdjacentDigits(cells[1..], 0);
      TokenNoDigits(cells[0].value);
      ConcatNoAdjacent(tok, rest);
      var tail := tok + rest;
      assert tail[0] == tok[0];
      if empty > 0 {
        SingleDigit(empty);
        ConcatNoAdjacent(EmptyText(empty), tail);
      } else {
        assert EmptyText(empty) + tail == tail;
      }
    }
  }

  lemma RankNoAdjacentDigits(row: Row)
    ensures NoAdjacentDigits(RankText(row))
  {
    RunTextNoAdjacentDigits(row, 0);
  }

  /** Characters a rank or hand text is made of. */
  predicate SfenChar(ch: char) {
    IsDigit(ch) || ch == '+' || LetterPiece(ch).Some?
  }

  predicate SfenChars(s: string) {
    forall i :: 0 <= i < |s| ==> SfenChar(s[i])
  }

  lemma SfenCharsConcat(a: string, b: string)
    requires SfenChars(a) && SfenChars(b)
    ensures SfenChars(a + b)
  {
    var s := a + b;
    forall i | 0 <= i < |s|
      ensures SfenChar(s[i])
    {
      if i < |a| {
        assert s[i] == a[i];
      } else {
        assert s[i] == b[i - |a|];
      }
    }
  }

  lemma EmptyTextChars(empty: nat)
    ensures SfenChars(EmptyText(empty))
  {
    if empty > 0 {
      NatToStringShape(empty);
    }
  }

  lemma {:induction false} RunTextChars(cells: seq<Cell>, empty: nat)
    ensures SfenChars(RunText(cells, empty))
    decreases |cells|
  {
    EmptyTextChars(empty);
    if cells != [] {
      if cells[0].None? {
        RunTextChars(cells[1..], empty + 1);
      } else {
        RunTextChars(cells[1..], 0);
        LetterPieceChar(cells[0].value);
        var tok := PieceToken(cells[0].value);
        assert SfenChars(tok);
        SfenCharsConcat(tok, RunText(cells[1..], 0));
        SfenCharsConcat(EmptyText(empty), tok + RunText(cells[1..], 0));
        assert RunText(cells, empty) == EmptyText(empty) + (tok + RunText(cells[1..], 0));
      }
    }
  }

  /** Splitting text in front of which a separator-free piece stands. */
  lemma {:induction false} SplitPrefix(a: string, sep: char, rest: string)
    requires forall i :: 0 <= i < |a| ==> a[i] != sep
    ensures Split(a + [sep] + rest, sep) == [a] + Split(rest, sep)
    ensures Split(a, sep) == [a]
    decreases |a|
  {
    if a == [] {
      assert a + [sep] + rest == [sep] + rest;
      assert ([sep] + rest)[1..] == rest;
    } else {
      assert (a + [sep] + rest)[1..] == a[1..] + [sep] + rest;
      SplitPrefix(a[1..], sep, rest);
      assert [a[0]] + a[1..] == a;
    }
  }

  /** Split undoes Join when no piece holds the separator. */
  lemma {:induction false} SplitJoin(xs: seq<string>, sep: char)
    requires xs != [] && forall k, i :: 0 <= k < |xs| && 0 <= i < |xs[k]| ==> xs[k][i] != sep
    ensures Split(Join(xs, sep), sep) == xs
    decreases |xs|
  {
    if |xs| == 1 {
      SplitPrefix(xs[0], sep, []);
    } else {
      SplitJoin(xs[1..], sep);
      SplitPrefix(xs[0], sep, Join(xs[1..], sep));
    }
  }

  lemma RankChars(row: Row)
    ensures SfenChars(RankText(row))
  {
    RunTextChars(row, 0);
  }

  lemma {:induction false} RankTextsChars(rows: seq<Row>)
    ensures forall k :: 0 <= k < |rows| ==> SfenChars(RankTexts(rows)[k])
    decreases |rows|
  {
    if rows != [] {
      RankTextsChars(rows[..|rows| - 1]);
      RankChars(rows[|rows| - 1]);
    }
  }

  lemma {:induction false} ParseRanksRoundTrip(rows: seq<Row>)
    ensures ParseRanks(RankTexts(rows)) == Some(rows)
    decreases |rows|
  {
    if rows != [] {
      var n := |rows| - 1;
      var parts := RankTexts(rows);
      ParseRanksRoundTrip(rows[..n]);
      RankRoundTrip(rows[n]);
      assert parts == RankTexts(rows[..n]) + [RankText(rows[n])];
      assert parts[..n] == RankTexts(rows[..n]) && parts[n] == RankText(rows[n]);
      assert ParseRanks(parts) == Some(rows[..n] + [rows[n]]);
      assert rows[..n] + [rows[n]] == rows;
    }
  }

  /** The SFEN board text reads back as the board. */
  lemma BoardRoundTrip(b: Board)
    ensures ParseBoard(BoardText(b)) == Some(b)
  {
    var parts := RankTexts(b);
    RankTextsChars(b);
    forall k, i | 0 <= k < 9 && 0 <= i < |parts[k]|
      ensures parts[k][i] != '/'
    {
      assert SfenChar(parts[k][i]);
    }
    SplitJoin(parts, '/');
    ParseRanksRoundTrip(b);
  }

  // ---------------------------------------------------------------------
  // Pieces in hand

  /** The hand order of the SFEN text: rook first, pawn last. */
  const PieceOrder: seq<PieceType> := [Rook, Bishop, Gold, Silver, Knight, Lance, Pawn]

  function HandLetter(t: PieceType, o: Owner): char {
    if o == Black then TypeLetter(t) else ToLower(TypeLetter(t))
  }

  /** A count is printed only when positive, with its number only when
      above one. */
  function HandToken(count: int, ch: char): string {
    if count > 0 then (if count > 1 then NatToString(count) + [ch] else [ch]) else ""
  }

  function HandRun(hand: Hand, o: Owner, ts: seq<PieceType>): string
    decreases |ts|
  {
    if ts == [] then "" else HandToken(hand.Count(ts[0]), HandLetter(ts[0], o)) + HandRun(hand, o, ts[1..])
  }

  function HandsBody(h: Hands): string {
    HandRun(h.black, Black, PieceOrder) + HandRun(h.white, White, PieceOrder)
  }

  function HandsText(h: Hands): string {
    var body := HandsBody(h);
    if body == "" then "-" else body
  }

  lemma HandRunAt(hand: Hand, o: Owner, ts: seq<PieceType>, i: int)
    requires 0 <= i < |ts|
    ensures HandRun(hand, o, ts[i..]) == HandToken(hand.Count(ts[i]), HandLetter(ts[i], o)) + HandRun(hand, o, ts[i + 1..])
  {
    assert ts[i..][1..] == ts[i + 1..];
  }

  lemma Associative(a: string, b: string, c: string)
    ensures (a + b) + c == a + (b + c)
  {
  }

  /** One side's loop of toSfenHands: its letters in hand order. */
  method HandRunText(hand: Hand, o: Owner) returns (out: string)
    ensures out == HandRun(hand, o, PieceOrder)
  {
    out := "";
    for i := 0 to |PieceOrder|
      invariant out + HandRun(hand, o, PieceOrder[i..]) == HandRun(hand, o, PieceOrder)
    {
      var t := PieceOrder[i];
      var count := hand.Count(t);
      var token := HandToken(count, HandLetter(t, o));
      HandRunAt(hand, o, PieceOrder, i);
      Associative(out, token, HandRun(hand, o, PieceOrder[i + 1..]));
      out := out + token;
    }
    assert PieceOrder[|PieceOrder|..] == [];
  }

  /** toSfenHands: Black's pieces, then White's, in hand order; "-" when
      there are none. */
  method ToSfenHands(h: Hands) returns (out: string)
    ensures out == HandsText(h)
  {
    var black := HandRunText(h.black, Black);
    var white := HandRunText(h.white, White);
    out := black + white;
    out := if out == "" then "-" else out;
  }

  lemma {:induction false} HandRunEmpty(hand: Hand, o: Owner, ts: seq<PieceType>)
    ensures HandRun(hand, o, ts) == "" <==> forall t :: t in ts ==> hand.Count(t) <= 0
    decreases |ts|
  {
    if ts != [] {
      HandRunEmpty(hand, o, ts[1..]);
      assert forall t :: t in ts <==> t == ts[0] || t in ts[1..];
    }
  }

  /** The hand text is "-" exactly when no piece of the hand order has a
      positive count on either side. */
  lemma HandsTextDash(h: Hands)
    ensures HandsText(h) == "-" <==> forall t :: t in PieceOrder ==> h.black.Count(t) <= 0 && h.white.Count(t) <= 0
  {
    HandRunEmpty(h.black, Black, PieceOrder);
    HandRunEmpty(h.white, White, PieceOrder);
    HandsBodyChars(h);
    var body := HandsBody(h);
    if body != "" {
      NotDash(body);
    }
  }

  lemma NotDash(s: string)
    requires s != [] && SfenChars(s)
    ensures s != "-"
  {
    assert SfenChar(s[0]);
    assert !SfenChar('-');
  }

  lemma {:induction false} HandRunChars(hand: Hand, o: Owner, ts: seq<PieceType>)
    ensures SfenChars(HandRun(hand, o, ts))
    decreases |ts|
  {
    if ts != [] {
      HandRunChars(hand, o, ts[1..]);
      LetterOfType(ts[0], o);
      var n := hand.Count(ts[0]);
      if n > 1 {
        NatToStringShape(n);
      }
      var token := HandToken(n, HandLetter(ts[0], o));
      assert SfenChars(token) by {
        if n > 1 {
          SfenCharsConcat(NatToString(n), [HandLetter(ts[0], o)]);
        }
      }
      SfenCharsConcat(token, HandRun(hand, o, ts[1..]));
    }
  }

  lemma HandsBodyChars(h: Hands)
    ensures SfenChars(HandsBody(h))
  {
    HandRunChars(h.black, Black, PieceOrder);
    HandRunChars(h.white, White, PieceOrder);
    SfenCharsConcat(HandRun(h.black, Black, PieceOrder), HandRun(h.white, White, PieceOrder));
  }

  // ---------------------------------------------------------------------
  // Reading the hands back

  const NoHands: Hands := Hands(Hand(0, 0, 0, 0, 0, 0, 0, 0), Hand(0, 0, 0, 0, 0, 0, 0, 0))

  /** One hand token: an optional count (1 when absent) and a letter other
      than a king's; returns the piece, its owner, the count and the
      token's length. */
  function ReadHandToken(s: string): (r: Option<(PieceType, Owner, nat, nat)>)
    ensures r.Some? ==> 1 <= r.value.3 <= |s|
  {
    var k := LeadingDigits(s);
    if k < |s| && LetterPiece(s[k]).Some? && LetterPiece(s[k]).value.0 != King then
      Some((LetterPiece(s[k]).value.0, LetterPiece(s[k]).value.1, if k == 0 then 1 else DigitsValue(s[..k]), k + 1))
    else None
  }

  /** Reads one hand token off the front of s: its length and the hands
      with its count added. */
  function TokenStep(s: string, acc: Hands): (r: Option<(nat, Hands)>)
    ensures r.Some? ==> 1 <= r.value.0 <= |s|
  {
    match ReadHandToken(s)
    case None => None
    case Some(token) => Some((token.3, acc.WithCount(token.1, token.0, acc.Count(token.1, token.0) + token.2)))
  }

  /** Reads count-letter tokens, adding each count to the hands. */
  function ParseHandTokens(s: string, acc: Hands): Option<Hands>
    decreases |s|
  {
    if s == [] then Some(acc)
    else
      match TokenStep(s, acc)
      case None => None
      case Some(step) => ParseHandTokens(s[step.0..], step.1)
  }

  /** Reads the hand part of an SFEN string. */
  function ParseHands(s: string): Option<Hands> {
    if s == "-" then Some(NoHands) else ParseHandTokens(s, NoHands)
  }

  /** The hands with a run's counts added. */
  function AddRun(acc: Hands, hand: Hand, o: Owner, ts: seq<PieceType>): Hands
    decreases |ts|
  {
    if ts == [] then acc
    else
      var n := hand.Count(ts[0]);
      AddRun(AddToken(acc, o, ts[0], n), hand, o, ts[1..])
  }

  lemma ReadHandTokenOf(n: int, t: PieceType, o: Owner, rest: string)
    requires n > 0 && t != King
    ensures ReadHandToken(HandToken(n, HandLetter(t, o)) + rest) == Some((t, o, n, |HandToken(n, HandLetter(t, o))|))
  {
    var ch := HandLetter(t, o);
    LetterOfType(t, o);
    if n > 1 {
      assert HandToken(n, ch) + rest == NatToString(n) + ([ch] + rest);
      ReadHandTokenMany(n, ch, t, o, rest);
    } else {
      assert HandToken(n, ch) + rest == [ch] + rest;
      ReadHandTokenAt([ch] + rest, 0, t, o, 1);
    }
  }

  lemma ReadHandTokenMany(n: nat, ch: char, t: PieceType, o: Owner, rest: string)
    requires n > 1 && LetterPiece(ch) == Some((t, o)) && t != King && !IsDigit(ch)
    ensures ReadHandToken(NatToString(n) + ([ch] + rest)) == Some((t, o, n, |NatToString(n)| + 1))
  {
    var s := NatToString(n) + ([ch] + rest);
    LeadingNumber(n, [ch] + rest);
    NatToStringShape(n);
    assert s[|NatToString(n)|] == ch;
    ReadHandTokenAt(s, |NatToString(n)|, t, o, n);
  }

  /** A token whose digits end at k, before the letter of (t, o). */
  lemma ReadHandTokenAt(s: string, k: nat, t: PieceType, o: Owner, n: nat)
    requires LeadingDigits(s) == k && k < |s| && LetterPiece(s[k]) == Some((t, o)) && t != King
    requires k == 0 ==> n == 1
    requires k > 0 ==> DigitsValue(s[..k]) == n
    ensures ReadHandToken(s) == Some((t, o, n, k + 1))
  {
  }

  lemma ParseHandToken(n: int, t: PieceType, o: Owner, rest: string, acc: Hands)
    requires n > 0 && t != King
    ensures ParseHandTokens(HandToken(n, HandLetter(t, o)) + rest, acc) == ParseHandTokens(rest, AddToken(acc, o, t, n))
  {
    var token := HandToken(n, HandLetter(t, o));
    var s := token + rest;
    ReadHandTokenOf(n, t, o, rest);
    assert s != [] && s[|token|..] == rest;
    ParseHandTokensStep(s, acc, t, o, n, |token|);
  }

  /** One token read off the front of the hand text. */
  lemma ParseHandTokensStep(s: string, acc: Hands, t: PieceType, o: Owner, n: nat, k: nat)
    requires s != [] && ReadHandToken(s) == Some((t, o, n, k)) && n > 0
    ensures ParseHandTokens(s, acc) == ParseHandTokens(s[k..], AddToken(acc, o, t, n))
  {
    TokenStepOf(s, acc, t, o, n, k);
  }

  lemma TokenStepOf(s: string, acc: Hands, t: PieceType, o: Owner, n: nat, k: nat)
    requires ReadHandToken(s) == Some((t, o, n, k)) && n > 0
    ensures TokenStep(s, acc) == Some((k, AddToken(acc, o, t, n)))
  {
  }

  /** The counts one hand token adds: none when the count is not positive. */
  function AddToken(acc: Hands, o: Owner, t: PieceType, n: int): Hands {
    if n > 0 then acc.WithCount(o, t, acc.Count(o, t) + n) else acc
  }

  lemma ParseHandRunStep(hand: Hand, o: Owner, ts: seq<PieceType>, rest: string, acc: Hands)
    requires ts != [] && ts[0] != King
    ensures ParseHandTokens(HandRun(hand, o, ts) + rest, acc) ==
      ParseHandTokens(HandRun(hand, o, ts[1..]) + rest, AddToken(acc, o, ts[0], hand.Count(ts[0])))
  {
    HandRunFront(hand, o, ts, rest);
    ParseAnyToken(hand.Count(ts[0]), ts[0], o, HandRun(hand, o, ts[1..]) + rest, acc);
  }

  /** A hand token, printed or not, reads back as its count. */
  lemma ParseAnyToken(n: int, t: PieceType, o: Owner, tail: string, acc: Hands)
    requires t != King
    ensures ParseHandTokens(HandToken(n, HandLetter(t, o)) + tail, acc) == ParseHandTokens(tail, AddToken(acc, o, t, n))
  {
    if n > 0 {
      ParseHandToken(n, t, o, tail, acc);
    } else {
      ParseEmptyToken(n, t, o, tail, acc);
    }
  }

  lemma HandRunFront(hand: Hand, o: Owner, ts: seq<PieceType>, rest: string)
    requires ts != []
    ensures HandRun(hand, o, ts) + rest == HandToken(hand.Count(ts[0]), HandLetter(ts[0], o)) + (HandRun(hand, o, ts[1..]) + rest)
  {
    Associative(HandToken(hand.Count(ts[0]), HandLetter(ts[0], o)), HandRun(hand, o, ts[1..]), rest);
  }

  lemma ParseEmptyToken(n: int, t: PieceType, o: Owner, tail: string, acc: Hands)
    requires n <= 0
    ensures ParseHandTokens(HandToken(n, HandLetter(t, o)) + tail, acc) == ParseHandTokens(tail, AddToken(acc, o, t, n))
  {
    assert HandToken(n, HandLetter(t, o)) + tail == tail;
  }

  lemma {:induction false} ParseHandRun(hand: Hand, o: Owner, ts: seq<PieceType>, rest: string, acc: Hands)
    requires King !in ts
    ensures ParseHandTokens(HandRun(hand, o, ts) + rest, acc) == ParseHandTokens(rest, AddRun(acc, hand, o, ts))
    decreases |ts|
  {
    if ts != [] {
      var acc' := AddToken(acc, o, ts[0], hand.Count(ts[0]));
      ParseHandRunStep(hand, o, ts, rest, acc);
      ParseHandRun(hand, o, ts[1..], rest, acc');
    } else {
      assert HandRun(hand, o, ts) + rest == rest;
    }
  }

  lemma {:induction false} AddRunCounts(acc: Hands, hand: Hand, o: Owner, ts: seq<PieceType>, o': Owner, u: PieceType)
    requires forall i, j :: 0 <= i < j < |ts| ==> ts[i] != ts[j]
    ensures AddRun(acc, hand, o, ts).Count(o', u) ==
      acc.Count(o', u) + (if o' == o && u in ts && hand.Count(u) > 0 then hand.Count(u) else 0)
    decreases |ts|
  {
    if ts != [] {
      var t := ts[0];
      var n := hand.Count(t);
      var acc' := AddToken(acc, o, t, n);
      AddRunCounts(acc', hand, o, ts[1..], o', u);
      assert u in ts <==> u == t || u in ts[1..];
      if u == t {
        assert u !in ts[1..];
      }
    }
  }

  lemma HandEqual(g: Hand, h: Hand)
    requires forall t :: g.Count(t) == h.Count(t)
    ensures g == h
  {
    assert g.Count(Pawn) == h.Count(Pawn) && g.Count(Lance) == h.Count(Lance);
    assert g.Count(Knight) == h.Count(Knight) && g.Count(Silver) == h.Count(Silver);
    assert g.Count(Gold) == h.Count(Gold) && g.Count(Bishop) == h.Count(Bishop);
    assert g.Count(Rook) == h.Count(Rook) && g.Count(King) == h.Count(King);
  }

  lemma HandsEqual(g: Hands, h: Hands)
    requires forall o, t :: g.Count(o, t) == h.Count(o, t)
    ensures g == h
  {
    forall t
      ensures g.black.Count(t) == h.black.Count(t) && g.white.Count(t) == h.white.Count(t)
    {
      assert g.Count(Black, t) == h.Count(Black, t);
      assert g.Count(White, t) == h.Count(White, t);
    }
    HandEqual(g.black, h.black);
    HandEqual(g.white, h.white);
  }

  /** What the hand text can carry: no negative counts and no kings. */
  predicate SfenHandsOk(h: Hands) {
    (forall o, t :: h.Count(o, t) >= 0) && h.Count(Black, King) == 0 && h.Count(White, King) == 0
  }

  lemma PieceOrderFacts()
    ensures forall t :: t in PieceOrder <==> t != King
    ensures forall i, j :: 0 <= i < j < |PieceOrder| ==> PieceOrder[i] != PieceOrder[j]
  {
    forall t
      ensures t in PieceOrder <==> t != King
    {
      if t != King {
        assert t == Rook || t == Bishop || t == Gold || t == Silver || t == Knight || t == Lance || t == Pawn;
      }
    }
  }

  /** Reading the hand runs back adds each side's positive counts. */
  lemma HandsBodyParse(h: Hands)
    ensures ParseHandTokens(HandsBody(h), NoHands) ==
      Some(AddRun(AddRun(NoHands, h.black, Black, PieceOrder), h.white, White, PieceOrder))
  {
    PieceOrderFacts();
    var mid := AddRun(NoHands, h.black, Black, PieceOrder);
    ParseHandRun(h.black, Black, PieceOrder, HandRun(h.white, White, PieceOrder), NoHands);
    ParseHandRun(h.white, White, PieceOrder, "", mid);
    assert HandRun(h.white, White, PieceOrder) + "" == HandRun(h.white, White, PieceOrder);
  }

  lemma ReadBackCount(h: Hands, o: Owner, t: PieceType)
    requires SfenHandsOk(h)
    ensures AddRun(AddRun(NoHands, h.black, Black, PieceOrder), h.white, White, PieceOrder).Count(o, t) == h.Count(o, t)
  {
    PieceOrderFacts();
    var mid := AddRun(NoHands, h.black, Black, PieceOrder);
    AddRunCounts(NoHands, h.black, Black, PieceOrder, o, t);
    AddRunCounts(mid, h.white, White, PieceOrder, o, t);
    assert NoHands.Count(o, t) == 0;
    assert h.Count(o, t) >= 0;
    if t == King {
      assert t !in PieceOrder;
      assert h.Count(o, t) == 0;
    } else {
      assert t in PieceOrder;
    }
  }

  lemma ReadBackHands(h: Hands)
    requires SfenHandsOk(h)
    ensures AddRun(AddRun(NoHands, h.black, Black, PieceOrder), h.white, White, PieceOrder) == h
  {
    var fin := AddRun(AddRun(NoHands, h.black, Black, PieceOrder), h.white, White, PieceOrder);
    forall o, t
      ensures fin.Count(o, t) == h.Count(o, t)
    {
      ReadBackCount(h, o, t);
    }
    HandsEqual(fin, h);
  }

  /** Hands whose text is "-" hold nothing. */
  lemma EmptyHandsText(h: Hands)
    requires SfenHandsOk(h) && HandsBody(h) == ""
    ensures h == NoHands
  {
    HandsTextDash(h);
    PieceOrderFacts();
    forall t
      ensures h.black.Count(t) == 0 && h.white.Count(t) == 0
    {
      assert h.Count(Black, t) >= 0 && h.Count(White, t) >= 0;
      if t != King {
        assert t in PieceOrder;
      }
    }
    HandEqual(h.black, NoHands.black);
    HandEqual(h.white, NoHands.white);
  }

  /** The hand text reads back as the hands. */
  lemma HandsRoundTrip(h: Hands)
    requires SfenHandsOk(h)
    ensures ParseHands(HandsText(h)) == Some(h)
  {
    var body := HandsBody(h);
    if body == "" {
      EmptyHandsText(h);
    } else {
      HandsBodyChars(h);
      NotDash(body);
      HandsBodyParse(h);
      ReadBackHands(h);
    }
  }

  // ---------------------------------------------------------------------
  // The position line

  function TurnText(turn: Owner): string {
    if turn == Black then "b" else "w"
  }

  function SfenText(b: Board, h: Hands, turn: Owner): string {
    BoardText(b) + " " + TurnText(turn) + " " + HandsText(h) + " 1"
  }

  /** toSfen: board, side to move, hands and move number 1. */
  method ToSfen(b: Board, h: Hands, turn: Owner) returns (s: string)
    ensures s == SfenText(b, h, turn)
  {
    var board := ToSfenBoard(b);
    var hands := ToSfenHands(h);
    s := board + " " + TurnText(turn) + " " + hands + " 1";
  }

  function ParseTurn(s: string): Option<Owner> {
    if s == "b" then Some(Black) else if s == "w" then Some(White) else None
  }

  /** Reads a position line back. */
  function ParseSfen(s: string): Option<(Board, Hands, Owner)> {
    var fields := Split(s, ' ');
    if |fields| != 4 || fields[3] != "1" then None
    else
      match (ParseBoard(fields[0]), ParseHands(fields[2]), ParseTurn(fields[1]))
      case (Some(b), Some(h), Some(turn)) => Some((b, h, turn))
      case _ => None
  }

  lemma {:induction false} JoinChars(xs: seq<string>, sep: char, ch: char)
    requires xs != [] && ch != sep && forall k, i :: 0 <= k < |xs| && 0 <= i < |xs[k]| ==> xs[k][i] != ch
    ensures forall i :: 0 <= i < |Join(xs, sep)| ==> Join(xs, sep)[i] != ch
    decreases |xs|
  {
    if |xs| > 1 {
      JoinChars(xs[1..], sep, ch);
      var s := Join(xs, sep);
      assert s == xs[0] + [sep] + Join(xs[1..], sep);
      forall i | 0 <= i < |s|
        ensures s[i] != ch
      {
        if i < |xs[0]| {
          assert s[i] == xs[0][i];
        } else if i > |xs[0]| {
          assert s[i] == Join(xs[1..], sep)[i - |xs[0]| - 1];
        }
      }
    }
  }

  /** The four space-separated fields of the position line. */
  function SfenFields(b: Board, h: Hands, turn: Owner): (fields: seq<string>)
    ensures |fields| == 4
  {
    [BoardText(b), TurnText(turn), HandsText(h), "1"]
  }

  lemma SfenCharsNoSpace(s: string)
    requires SfenChars(s)
    ensures forall i :: 0 <= i < |s| ==> s[i] != ' '
  {
    forall i | 0 <= i < |s|
      ensures s[i] != ' '
    {
      assert SfenChar(s[i]);
    }
  }

  lemma BoardTextNoSpace(b: Board)
    ensures forall i :: 0 <= i < |BoardText(b)| ==> BoardText(b)[i] != ' '
  {
    var parts := RankTexts(b);
    RankTextsChars(b);
    forall k | 0 <= k < |parts|
      ensures forall i :: 0 <= i < |parts[k]| ==> parts[k][i] != ' '
    {
      SfenCharsNoSpace(parts[k]);
    }
    JoinChars(parts, '/', ' ');
  }

  lemma HandsTextNoSpace(h: Hands)
    ensures forall i :: 0 <= i < |HandsText(h)| ==> HandsText(h)[i] != ' '
  {
    if HandsBody(h) != "" {
      HandsBodyChars(h);
      SfenCharsNoSpace(HandsBody(h));
    }
  }

  lemma FieldsNoSpace(b: Board, h: Hands, turn: Owner)
    ensures var fields := SfenFields(b, h, turn);
      forall k, i :: 0 <= k < |fields| && 0 <= i < |fields[k]| ==> fields[k][i] != ' '
  {
    BoardTextNoSpace(b);
    HandsTextNoSpace(h);
  }

  lemma JoinFields(b: Board, h: Hands, turn: Owner)
    ensures Join(SfenFields(b, h, turn), ' ') == SfenText(b, h, turn)
  {
    JoinFour(BoardText(b), TurnText(turn), HandsText(h), "1");
  }

  /** Four fields joined by spaces. */
  lemma JoinFour(a: string, b: string, c: string, d: string)
    ensures Join([a, b, c, d], ' ') == a + " " + b + " " + c + " " + d
  {
    var fields := [a, b, c, d];
    assert fields[1..] == [b, c, d] && fields[1..][1..] == [c, d] && fields[1..][1..][1..] == [d];
    assert Join([c, d], ' ') == c + " " + d;
    assert Join([b, c, d], ' ') == b + " " + (c + " " + d);
  }

  /** The position line reads back as the board, hands and side to move. */
  lemma SfenRoundTrip(b: Board, h: Hands, turn: Owner)
    requires SfenHandsOk(h)
    ensures ParseSfen(SfenText(b, h, turn)) == Some((b, h, turn))
  {
    var fields := SfenFields(b, h, turn);
    FieldsNoSpace(b, h, turn);
    JoinFields(b, h, turn);
    SplitJoin(fields, ' ');
    BoardRoundTrip(b);
    HandsRoundTrip(h);
  }
}
