/** The move record's notation (app/components/KifuPanel.tsx): one line per
    move, "n. " then the mover's mark, the destination in full-width file
    digits and kanji ranks (or 同 for a recapture on the same square), the
    piece's label and the drop or promotion remark. */
module Kifu {
  import opened ShogiTypes
  import opened Decimal

  /** One entry of the move record. */
  datatype KifuEntry = KifuEntry(owner: Owner, pieceType: PieceType, promoted: bool, isDrop: bool,
                                 to: Square, promotion: Promotion, optionalPromotion: bool)

  /** The labels of a piece type, unpromoted and promoted (the label table
      is a parameter). */
  datatype Label = Label(base: string, promoted: string)

  const FileDigits: seq<char> := ['１', '２', '３', '４', '５', '６', '７', '８', '９']
  const RankKanji: seq<char> := ['一', '二', '三', '四', '五', '六', '七', '八', '九']

  const Unknown: char := '?'
  const BlackMark: char := '▲'
  const WhiteMark: char := '△'
  const SameMark: char := '同'

  /** fileDigits[8 - c], or "?" when there is no such element. */
  function FileText(c: int): char {
    if 0 <= 8 - c < 9 then FileDigits[8 - c] else Unknown
  }

  /** rankKanji[r], or "?" when there is no such element. */
  function RankText(r: int): char {
    if 0 <= r < 9 then RankKanji[r] else Unknown
  }

  /** toSquareText. */
  function ToSquareText(r: int, c: int): (t: string)
    ensures |t| == 2 && (IsInside(r, c) ==> t[0] != Unknown && t[1] != Unknown)
  {
    [FileText(c), RankText(r)]
  }

  function OwnerMark(o: Owner): char {
    if o == Black then BlackMark else WhiteMark
  }

  function LabelText(labels: PieceType -> Label, e: KifuEntry): string {
    if e.promoted then labels(e.pieceType).promoted else labels(e.pieceType).base
  }

  predicate SameSquare(e: KifuEntry, previous: Option<KifuEntry>) {
    previous.Some? && previous.value.to.r == e.to.r && previous.value.to.c == e.to.c
  }

  function SquarePart(e: KifuEntry, previous: Option<KifuEntry>): string {
    if SameSquare(e, previous) then [SameMark] else ToSquareText(e.to.r, e.to.c)
  }

  function SuffixText(e: KifuEntry): string {
    if e.isDrop then "打"
    else if e.promotion == PromoteMust then "成"
    else if e.optionalPromotion && e.promotion == PromoteNone then "不成"
    else ""
  }

  /** formatMove: entry `index` of the record, after `previous`. */
  function FormatMove(labels: PieceType -> Label, e: KifuEntry, index: nat, previous: Option<KifuEntry>): (line: string)
    ensures var number := NatToString(index + 1) + ". ";
      |line| > |number| && line[..|number|] == number && line[|number|] == OwnerMark(e.owner)
  {
    NatToString(index + 1) + ". " + [OwnerMark(e.owner)] + SquarePart(e, previous) + LabelText(labels, e) + SuffixText(e)
  }

  // ---------------------------------------------------------------------
  // Squares

  lemma FileDigitsDistinct()
    ensures forall i, j :: 0 <= i < j < 9 ==> FileDigits[i] != FileDigits[j]
    ensures forall i :: 0 <= i < 9 ==> FileDigits[i] != Unknown && FileDigits[i] != SameMark
  {
  }

  lemma RankKanjiDistinct()
    ensures forall i, j :: 0 <= i < j < 9 ==> RankKanji[i] != RankKanji[j]
    ensures forall i :: 0 <= i < 9 ==> RankKanji[i] != Unknown
  {
  }

  /** A position of ch in xs (the last one), or -1 when it is absent. */
  function Find(xs: seq<char>, ch: char): (i: int)
    ensures -1 <= i < |xs| && (i >= 0 ==> xs[i] == ch) && (i == -1 ==> ch !in xs)
  {
    if xs == [] then -1 else if xs[|xs| - 1] == ch then |xs| - 1 else Find(xs[..|xs| - 1], ch)
  }

  /** Reads a square text back: the square, when both characters are a
      file digit and a rank kanji. */
  function ReadSquareText(t: string): Option<Square> {
    if |t| == 2 && Find(FileDigits, t[0]) >= 0 && Find(RankKanji, t[1]) >= 0 then
      Some(Square(Find(RankKanji, t[1]), 8 - Find(FileDigits, t[0])))
    else None
  }

  /** A board square's text reads back as the square. */
  lemma SquareTextRoundTrip(s: Square)
    requires OnBoard(s)
    ensures ReadSquareText(ToSquareText(s.r, s.c)) == Some(s)
  {
    FileDigitsDistinct();
    RankKanjiDistinct();
    var t := ToSquareText(s.r, s.c);
    assert t[0] == FileDigits[8 - s.c] && t[1] == RankKanji[s.r];
    FindDistinct(FileDigits, 8 - s.c);
    FindDistinct(RankKanji, s.r);
  }

  lemma {:induction false} FindDistinct(xs: seq<char>, i: int)
    requires 0 <= i < |xs| && forall a, b :: 0 <= a < b < |xs| ==> xs[a] != xs[b]
    ensures Find(xs, xs[i]) == i
    decreases |xs|
  {
    if i != |xs| - 1 {
      FindDistinct(xs[..|xs| - 1], i);
    }
  }

  /** Distinct board squares have distinct texts. */
  lemma SquareTextInjective(s: Square, t: Square)
    requires OnBoard(s) && OnBoard(t) && ToSquareText(s.r, s.c) == ToSquareText(t.r, t.c)
    ensures s == t
  {
    SquareTextRoundTrip(s);
    SquareTextRoundTrip(t);
  }

  /** Off the board a coordinate is written "?". */
  lemma SquareTextUnknown(r: int, c: int)
    ensures (ToSquareText(r, c)[0] == Unknown) <==> !(0 <= c < 9)
    ensures (ToSquareText(r, c)[1] == Unknown) <==> !(0 <= r < 9)
  {
    FileDigitsDistinct();
    RankKanjiDistinct();
  }

  // ---------------------------------------------------------------------
  // Lines

  /** The destination is written 同 exactly when the previous entry went
      to the same square. */
  lemma SameMarkExactly(e: KifuEntry, previous: Option<KifuEntry>)
    ensures SquarePart(e, previous) == [SameMark] <==> previous.Some? && previous.value.to == e.to
  {
  }

  /** The remark: 打 for every drop; otherwise 成 for a forced-or-chosen
      promotion, 不成 for a declined optional one, and nothing else. */
  lemma SuffixCases(e: KifuEntry)
    ensures SuffixText(e) == "打" <==> e.isDrop
    ensures SuffixText(e) == "成" <==> !e.isDrop && e.promotion == PromoteMust
    ensures SuffixText(e) == "不成" <==> !e.isDrop && e.promotion == PromoteNone && e.optionalPromotion
    ensures SuffixText(e) == "" <==>
      !e.isDrop && e.promotion != PromoteMust && !(e.optionalPromotion && e.promotion == PromoteNone)
  {
    assert "打"[0] != "成"[0] && "打"[0] != "不成"[0] && "成"[0] != "不成"[0];
  }

  /** What the head of a record line says: the move's index, its owner, and
      its destination (None for 同). */
  datatype Head = Head(index: nat, owner: Owner, to: Option<Square>)

  function ReadMark(ch: char): Option<Owner> {
    if ch == BlackMark then Some(Black) else if ch == WhiteMark then Some(White) else None
  }

  /** Reads the number, ". ", the mover's mark and the destination of a
      record line. */
  function ReadHead(line: string): Option<Head> {
    var k := LeadingDigits(line);
    if k == 0 || DigitsValue(line[..k]) == 0 then None
    else
      var n := DigitsValue(line[..k]);
      var rest := line[k..];
      if |rest| < 4 || rest[0] != '.' || rest[1] != ' ' || ReadMark(rest[2]).None? then None
      else if rest[3] == SameMark then Some(Head(n - 1, ReadMark(rest[2]).value, None))
      else if |rest| >= 5 && ReadSquareText(rest[3..5]).Some? then Some(Head(n - 1, ReadMark(rest[2]).value, ReadSquareText(rest[3..5])))
      else None
  }

  lemma MarkRoundTrip(o: Owner)
    ensures ReadMark(OwnerMark(o)) == Some(o)
  {
  }

  lemma {:induction false} SquarePartRead(e: KifuEntry, previous: Option<KifuEntry>, tail: string)
    requires OnBoard(e.to)
    ensures var t := SquarePart(e, previous) + tail;
      && |t| >= 1
      && (SameSquare(e, previous) ==> t[0] == SameMark)
      && (!SameSquare(e, previous) ==> |t| >= 2 && t[0] != SameMark && ReadSquareText(t[..2]) == Some(e.to))
  {
    if !SameSquare(e, previous) {
      FileDigitsDistinct();
      SquareTextRoundTrip(e.to);
      var t := SquarePart(e, previous) + tail;
      assert t[..2] == ToSquareText(e.to.r, e.to.c);
    }
  }

  /** The text in front of the destination: the number, ". " and the mark. */
  lemma ReadHeadFront(n: nat, o: Owner, body: string)
    requires n >= 1 && |body| >= 1
    ensures var line := NatToString(n) + (". " + ([OwnerMark(o)] + body));
      var k := LeadingDigits(line);
      k > 0 && DigitsValue(line[..k]) == n && line[k..] == ". " + ([OwnerMark(o)] + body)
  {
    LeadingNumber(n, ". " + ([OwnerMark(o)] + body));
  }

  lemma ReadHeadSame(n: nat, o: Owner, body: string)
    requires n >= 1 && |body| >= 1 && body[0] == SameMark
    ensures ReadHead(NatToString(n) + (". " + ([OwnerMark(o)] + body))) == Some(Head(n - 1, o, None))
  {
    ReadHeadFront(n, o, body);
    MarkRoundTrip(o);
    var rest := ". " + ([OwnerMark(o)] + body);
    assert rest[2] == OwnerMark(o) && rest[3] == body[0];
  }

  lemma ReadHeadSquare(n: nat, o: Owner, body: string, s: Square)
    requires n >= 1 && |body| >= 2 && body[0] != SameMark && ReadSquareText(body[..2]) == Some(s)
    ensures ReadHead(NatToString(n) + (". " + ([OwnerMark(o)] + body))) == Some(Head(n - 1, o, Some(s)))
  {
    ReadHeadFront(n, o, body);
    MarkRoundTrip(o);
    var rest := ". " + ([OwnerMark(o)] + body);
    assert rest[2] == OwnerMark(o) && rest[3] == body[0];
    assert rest[3..5] == body[..2];
  }

  lemma Regroup(a: string, b: string, c: string, d: string, e: string, f: string)
    ensures a + b + c + d + e + f == a + (b + (c + (d + (e + f))))
  {
  }

  /** A record line reads back as its index, its mover and its destination,
      or 同 when the previous move went to the same square. */
  lemma FormatMoveHead(labels: PieceType -> Label, e: KifuEntry, index: nat, previous: Option<KifuEntry>)
    requires OnBoard(e.to)
    ensures ReadHead(FormatMove(labels, e, index, previous)) ==
      Some(Head(index, e.owner, if SameSquare(e, previous) then None else Some(e.to)))
  {
    var tail := LabelText(labels, e) + SuffixText(e);
    var body := SquarePart(e, previous) + tail;
    Regroup(NatToString(index + 1), ". ", [OwnerMark(e.owner)], SquarePart(e, previous), LabelText(labels, e), SuffixText(e));
    SquarePartRead(e, previous, tail);
    if SameSquare(e, previous) {
      ReadHeadSame(index + 1, e.owner, body);
    } else {
      ReadHeadSquare(index + 1, e.owner, body, e.to);
    }
  }

  /** The line ends with the piece's label, the promoted one exactly when
      the entry is promoted, and then the remark. */
  lemma FormatMoveTail(labels: PieceType -> Label, e: KifuEntry, index: nat, previous: Option<KifuEntry>)
    ensures var line := FormatMove(labels, e, index, previous);
      var name := if e.promoted then labels(e.pieceType).promoted else labels(e.pieceType).base;
      var tail := name + SuffixText(e);
      |line| >= |tail| && line[|line| - |tail|..] == tail
  {
    var tail := LabelText(labels, e) + SuffixText(e);
    var line := FormatMove(labels, e, index, previous);
    var head := NatToString(index + 1) + ". " + [OwnerMark(e.owner)] + SquarePart(e, previous);
    assert line == head + tail;
  }
}
