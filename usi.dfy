/** The engine side of the bridge (app/api/ai/route.ts): reading the USI
    engine's move and score lines, and the movetime arithmetic of the
    request handler. The engine's replies are JavaScript strings; the
    helpers follow JavaScript's Number(), indexOf, split and the regular
    expression the handler uses. */
module Usi {
  import opened ShogiTypes
  import opened Decimal
  import opened Sfen

  // ---------------------------------------------------------------------
  // JavaScript character classes

  /** The characters JavaScript's \s and Number()'s trimming treat as
      white space (WhiteSpace and LineTerminator of ECMAScript). */
  predicate JsSpace(ch: char) {
    var n := ch as int;
    (9 <= n <= 13) || n == 32 || n == 0xA0 || n == 0x1680 || (0x2000 <= n <= 0x200A)
    || n == 0x2028 || n == 0x2029 || n == 0x202F || n == 0x205F || n == 0x3000 || n == 0xFEFF
  }

  /** The characters of \w, on which \b turns. */
  predicate IsWordChar(ch: char) {
    ('a' <= ch <= 'z') || ('A' <= ch <= 'Z') || IsDigit(ch) || ch == '_'
  }

  /** The length of the run of white space that starts s. */
  function SpaceRun(s: string): (k: nat)
    ensures k <= |s| && (forall i :: 0 <= i < k ==> JsSpace(s[i])) && (k < |s| ==> !JsSpace(s[k]))
  {
    if s == [] || !JsSpace(s[0]) then 0
    else
      var k := 1 + SpaceRun(s[1..]);
      assert forall i :: 1 <= i < k ==> s[i] == s[1..][i - 1];
      k
  }

  /** The length of the run of non-space characters that starts s. */
  function WordRun(s: string): (k: nat)
    ensures k <= |s| && (forall i :: 0 <= i < k ==> !JsSpace(s[i])) && (k < |s| ==> JsSpace(s[k]))
  {
    if s == [] || JsSpace(s[0]) then 0
    else
      var k := 1 + WordRun(s[1..]);
      assert forall i :: 1 <= i < k ==> s[i] == s[1..][i - 1];
      k
  }

  /** String.prototype.indexOf for one character: the first position, or -1. */
  function IndexOf(s: string, ch: char): (i: int)
    ensures -1 <= i < |s|
    ensures i >= 0 ==> s[i] == ch && ch !in s[..i]
    ensures i == -1 <==> ch !in s
  {
    if s == [] then -1
    else if s[0] == ch then 0
    else
      var j := IndexOf(s[1..], ch);
      assert s == [s[0]] + s[1..];
      if j == -1 then -1
      else
        assert s[..j + 1] == [s[0]] + s[1..][..j];
        j + 1
  }

  /** ASCII toUpperCase. */
  function ToUpper(ch: char): char {
    if 'a' <= ch <= 'z' then ((ch as int) - 32) as char else ch
  }

  function ToUpperString(s: string): (u: string)
    ensures |u| == |s| && forall i :: 0 <= i < |s| ==> u[i] == ToUpper(s[i])
  {
    seq(|s|, i requires 0 <= i < |s| => ToUpper(s[i]))
  }

  /** A string holding the separator splits into at least two parts. */
  lemma {:induction false} SplitAtSeparator(s: string, sep: char)
    requires sep in s
    ensures |Split(s, sep)| >= 2
    decreases |s|
  {
    if s[0] != sep {
      assert sep in s[1..];
      SplitAtSeparator(s[1..], sep);
    }
  }

  // ---------------------------------------------------------------------
  // Squares

  /** A JavaScript number as the square reader produces it. */
  datatype JsNumber = Num(n: int) | NaN

  /** A square as parseSquare returns it: nothing checks that it is on the
      board. */
  datatype JsSquare = JsSquare(r: int, c: JsNumber)

  const RankLetters: string := "abcdefghi"

  lemma RankLettersRun()
    ensures forall k :: 0 <= k < |RankLetters| ==> RankLetters[k] as int == ('a' as int) + k
  {
  }

  /** Number() of a one-character string: a digit's value, 0 for white
      space, NaN for anything else. */
  function NumberOfChar(ch: char): JsNumber {
    if IsDigit(ch) then Num(DigitValue(ch)) else if JsSpace(ch) then Num(0) else NaN
  }

  /** 9 minus the file number, NaN when the file is not a number. */
  function FileColumn(fileChar: char): JsNumber {
    var file := NumberOfChar(fileChar);
    if file.Num? then Num(9 - file.n) else NaN
  }

  /** parseSquare: the rank letter's index in "abcdefghi" (-1 when absent)
      and 9 minus the file number. */
  function ParseSquare(fileChar: char, rankChar: char): (s: JsSquare)
    ensures -1 <= s.r < 9 && (s.r == -1 <==> rankChar !in RankLetters)
  {
    JsSquare(IndexOf(RankLetters, rankChar), FileColumn(fileChar))
  }

  /** The board square a parsed square stands for, if it is one. */
  predicate IsBoardSquare(s: JsSquare) {
    s.c.Num? && IsInside(s.r, s.c.n)
  }

  /** indexOf in a run of consecutive characters. */
  lemma {:induction false} IndexOfRun(s: string, base: int, ch: char)
    requires forall k :: 0 <= k < |s| ==> s[k] as int == base + k
    ensures IndexOf(s, ch) == if base <= ch as int < base + |s| then ch as int - base else -1
    decreases |s|
  {
    if s != [] && s[0] != ch {
      IndexOfRun(s[1..], base + 1, ch);
    }
  }

  lemma RankLetterIndex(ch: char)
    ensures IndexOf(RankLetters, ch) == if 'a' <= ch <= 'i' then (ch as int) - ('a' as int) else -1
  {
    RankLettersRun();
    IndexOfRun(RankLetters, 'a' as int, ch);
  }

  /** parseSquare lands on the board exactly for a file digit 1..9 and a
      rank letter a..i, and then at row (letter index) and column 9 - file. */
  lemma ParseSquareOnBoard(fileChar: char, rankChar: char)
    ensures IsBoardSquare(ParseSquare(fileChar, rankChar)) <==> '1' <= fileChar <= '9' && 'a' <= rankChar <= 'i'
    ensures '1' <= fileChar <= '9' && 'a' <= rankChar <= 'i' ==>
      ParseSquare(fileChar, rankChar) == JsSquare((rankChar as int) - ('a' as int), Num(9 - DigitValue(fileChar)))
  {
    RankLetterIndex(rankChar);
    FileNumber(fileChar);
    var rankOk := 'a' <= rankChar <= 'i';
    var fileOk := '1' <= fileChar <= '9';
    SquareLogic(IndexOf(RankLetters, rankChar), FileColumn(fileChar), rankOk, fileOk,
                (rankChar as int) - ('a' as int), if fileOk then 9 - DigitValue(fileChar) else 0);
  }

  /** The board test on a parsed square, as plain logic. */
  lemma SquareLogic(row: int, col: JsNumber, rankOk: bool, fileOk: bool, rowValue: int, colValue: int)
    requires rankOk ==> row == rowValue && 0 <= rowValue < 9
    requires !rankOk ==> row == -1
    requires (col.Num? && 0 <= col.n < 9) <==> fileOk
    requires fileOk ==> col == Num(colValue)
    ensures IsBoardSquare(JsSquare(row, col)) <==> fileOk && rankOk
    ensures fileOk && rankOk ==> JsSquare(row, col) == JsSquare(rowValue, Num(colValue))
  {
  }

  /** The column 9 - Number(ch) is a board column exactly for a digit 1..9. */
  lemma FileNumber(ch: char)
    ensures (FileColumn(ch).Num? && 0 <= FileColumn(ch).n < 9) <==> '1' <= ch <= '9'
    ensures '1' <= ch <= '9' ==> FileColumn(ch) == Num(9 - DigitValue(ch))
  {
    if !IsDigit(ch) {
      assert NumberOfChar(ch) == NaN || NumberOfChar(ch) == Num(0);
    }
  }

  /** The USI name of a board square: file digit 9 - c, rank letter r. */
  function SquareText(s: Square): (t: string)
    requires OnBoard(s)
    ensures |t| == 2
  {
    [DigitChar(9 - s.c), RankLetters[s.r]]
  }

  function JsOf(s: Square): JsSquare {
    JsSquare(s.r, Num(s.c))
  }

  /** Reading a square's name gives the square back. */
  lemma SquareTextRoundTrip(s: Square)
    requires OnBoard(s)
    ensures ParseSquare(SquareText(s)[0], SquareText(s)[1]) == JsOf(s)
  {
    var t := SquareText(s);
    DigitRoundTrip(9 - s.c);
    RankLetterIndex(t[1]);
    assert RankLetters[s.r] == ((s.r + ('a' as int)) as char);
  }

  // ---------------------------------------------------------------------
  // Moves

  /** A move as parseUsiMove returns it: a drop carries the upper-cased
      piece text as it was read. */
  datatype UsiMove = UsiMove(from: Option<JsSquare>, to: JsSquare, drop: Option<string>, promotion: Promotion)

  /** parseUsiMove. */
  function ParseUsiMove(move: string): (r: Option<UsiMove>)
    ensures r.Some? ==> r.value.promotion != PromoteOptional
    ensures r.Some? ==> (r.value.drop.Some? <==> '*' in move) && (r.value.from.Some? <==> r.value.drop.None?)
    ensures r.Some? && r.value.drop.Some? ==> r.value.promotion == PromoteNone
  {
    if move == "" || move == "resign" || move == "win" || move == "none" then None
    else if '*' in move then
      SplitAtSeparator(move, '*');
      var parts := Split(move, '*');
      var square := parts[1];
      if |square| < 2 then None
      else Some(UsiMove(None, ParseSquare(square[0], square[1]), Some(ToUpperString(parts[0])), PromoteNone))
    else
      var promoted := |move| > 0 && move[|move| - 1] == '+';
      var clean := if promoted then move[..|move| - 1] else move;
      if |clean| < 4 then None
      else
        Some(UsiMove(Some(ParseSquare(clean[0], clean[1])), ParseSquare(clean[2], clean[3]), None,
                     if promoted then PromoteMust else PromoteNone))
  }

  /** The engine's "no move" answers read as no move. */
  lemma NoMoveWords()
    ensures ParseUsiMove("") == None && ParseUsiMove("resign") == None
    ensures ParseUsiMove("win") == None && ParseUsiMove("none") == None
  {
  }

  /** A drop token reads as a drop when its square part has two
      characters, and as no move when it is shorter. */
  lemma DropToken(piece: string, square: string)
    requires '*' !in piece && '*' !in square
    ensures var r := ParseUsiMove(piece + ['*'] + square);
      && (r.None? <==> |square| < 2)
      && (r.Some? ==> r == Some(UsiMove(None, ParseSquare(square[0], square[1]), Some(ToUpperString(piece)), PromoteNone)))
  {
    var move := piece + ['*'] + square;
    assert move[|piece|] == '*';
    SplitPrefix(piece, '*', square);
    SplitPrefix(square, '*', []);
    assert move != "" && move != "resign" && move != "win" && move != "none" by {
      assert '*' !in "resign" && '*' !in "win" && '*' !in "none";
    }
  }

  /** A board-move token: a trailing "+" means a forced promotion, and fewer
      than four characters before it mean no move. */
  lemma BoardToken(clean: string, plus: bool)
    requires '*' !in clean && (|clean| > 0 ==> clean[|clean| - 1] != '+')
    requires clean != "resign" && clean != "none"
    ensures var move := if plus then clean + "+" else clean;
      var r := ParseUsiMove(move);
      && (r.None? <==> |clean| < 4)
      && (r.Some? ==> r == Some(UsiMove(Some(ParseSquare(clean[0], clean[1])), ParseSquare(clean[2], clean[3]), None,
                                        if plus then PromoteMust else PromoteNone)))
  {
    var move := if plus then clean + "+" else clean;
    if plus {
      assert move[..|move| - 1] == clean;
      assert '*' !in move by {
        assert forall i :: 0 <= i < |clean| ==> move[i] == clean[i];
      }
    }
  }

  /** The USI text of a board move or drop. */
  predicate Encodable(m: Move) {
    OnBoard(m.to) && (m.from.Some? ==> OnBoard(m.from.value)) && m.promotion != PromoteOptional
    && (m.drop.Some? ==> m.from.None? && m.promotion == PromoteNone)
    && (m.drop.None? ==> m.from.Some?)
  }

  function MoveText(m: Move): string
    requires Encodable(m)
  {
    if m.drop.Some? then [TypeLetter(m.drop.value), '*'] + SquareText(m.to)
    else SquareText(m.from.value) + SquareText(m.to) + (if m.promotion == PromoteMust then "+" else "")
  }

  /** What parseUsiMove should give back for a move of the engine. */
  function Bridge(m: Move): UsiMove {
    UsiMove(if m.from.Some? then Some(JsOf(m.from.value)) else None, JsOf(m.to),
            if m.drop.Some? then Some([TypeLetter(m.drop.value)]) else None, m.promotion)
  }

  lemma DropTextRoundTrip(m: Move)
    requires Encodable(m) && m.drop.Some?
    ensures ParseUsiMove(MoveText(m)) == Some(Bridge(m))
  {
    var to := SquareText(m.to);
    SquareTextRoundTrip(m.to);
    var piece := [TypeLetter(m.drop.value)];
    assert '*' !in to && '*' !in piece;
    DropToken(piece, to);
    assert ToUpperString(piece) == piece;
    assert MoveText(m) == piece + ['*'] + to;
  }

  lemma BoardTextRoundTrip(m: Move)
    requires Encodable(m) && m.drop.None?
    ensures ParseUsiMove(MoveText(m)) == Some(Bridge(m))
  {
    var to := SquareText(m.to);
    var from := SquareText(m.from.value);
    SquareTextRoundTrip(m.to);
    SquareTextRoundTrip(m.from.value);
    var clean := from + to;
    assert clean[0] == from[0] && clean[1] == from[1] && clean[2] == to[0] && clean[3] == to[1];
    assert '*' !in clean && clean[3] != '+';
    assert clean != "resign" && clean != "none" by {
      assert |clean| == 4;
    }
    BoardToken(clean, m.promotion == PromoteMust);
  }

  /** Reading the USI text of a move gives the move back. */
  lemma MoveTextRoundTrip(m: Move)
    requires Encodable(m)
    ensures ParseUsiMove(MoveText(m)) == Some(Bridge(m))
  {
    if m.drop.Some? {
      DropTextRoundTrip(m);
    } else {
      BoardTextRoundTrip(m);
    }
  }

  /** "7g7f" is a move from row 6, column 2 to row 5, column 2. */
  lemma SevenGSevenF()
    ensures ParseUsiMove("7g7f") == Some(UsiMove(Some(JsSquare(6, Num(2))), JsSquare(5, Num(2)), None, PromoteNone))
  {
    BoardToken("7g7f", false);
    ParseSquareOnBoard('7', 'g');
    ParseSquareOnBoard('7', 'f');
  }

  /** The move field of a "bestmove" line: the text after the first run of
      white space, up to the next one; "" when there is none. */
  function BestMoveToken(line: string): (t: string)
    ensures |t| <= |line| && forall i :: 0 <= i < |t| ==> !JsSpace(t[i])
  {
    var k := WordRun(line);
    if k == |line| then ""
    else
      var rest := line[k + SpaceRun(line[k..])..];
      rest[..WordRun(rest)]
  }

  /** The engine's "bestmove m ..." line gives m, whatever run of white
      space separates the fields. */
  lemma BestMoveOf(head: string, sp: string, m: string, tail: string)
    requires |head| > 0 && forall i :: 0 <= i < |head| ==> !JsSpace(head[i])
    requires |sp| > 0 && forall i :: 0 <= i < |sp| ==> JsSpace(sp[i])
    requires |m| > 0 && forall i :: 0 <= i < |m| ==> !JsSpace(m[i])
    requires tail == [] || JsSpace(tail[0])
    ensures BestMoveToken(head + (sp + (m + tail))) == m
  {
    var rest := m + tail;
    var line := head + (sp + rest);
    WordRunOf(head, sp + rest);
    assert line[|head|..] == sp + rest;
    SpaceRunOf(sp, rest);
    assert line[|head| + |sp|..] == rest;
    WordRunOf(m, tail);
    assert rest[..|m|] == m;
  }

  /** A run of white space followed by a non-space ends where the run does. */
  lemma SpaceRunOf(sp: string, rest: string)
    requires forall i :: 0 <= i < |sp| ==> JsSpace(sp[i])
    requires rest == [] || !JsSpace(rest[0])
    ensures SpaceRun(sp + rest) == |sp| && (sp + rest)[|sp|..] == rest
  {
    var s := sp + rest;
    var k := SpaceRun(s);
    assert s[|sp|..] == rest;
  }

  lemma {:induction false} WordRunOf(w: string, rest: string)
    requires forall i :: 0 <= i < |w| ==> !JsSpace(w[i])
    requires rest == [] || JsSpace(rest[0])
    ensures WordRun(w + rest) == |w|
    decreases |w|
  {
    if w == [] {
      assert w + rest == rest;
    } else {
      assert (w + rest)[1..] == w[1..] + rest;
      WordRunOf(w[1..], rest);
    }
  }

  lemma SpaceRunOne(rest: string)
    requires rest == [] || !JsSpace(rest[0])
    ensures SpaceRun(" " + rest) == 1 && (" " + rest)[1..] == rest
  {
    assert (" " + rest)[1..] == rest;
  }

  // ---------------------------------------------------------------------
  // Scores

  /** -?\d+ at the start of y: an optional minus sign and the longest run
      of digits, at least one. */
  function SignedNumber(y: string): Option<int> {
    if |y| >= 1 && y[0] == '-' && LeadingDigits(y[1..]) > 0 then
      Some(0 - DigitsValue(y[1..][..LeadingDigits(y[1..])]))
    else if LeadingDigits(y) > 0 then Some(DigitsValue(y[..LeadingDigits(y)]) as int)
    else None
  }

  function KindText(mate: bool): string {
    if mate then "mate" else "cp"
  }

  /** The score field's kind word at the start of v: (is mate, length). */
  function KindWord(v: string): Option<(bool, nat)> {
    if |v| >= 2 && v[..2] == "cp" then Some((false, 2))
    else if |v| >= 4 && v[..4] == "mate" then Some((true, 4))
    else None
  }

  /** \s+(-?\d+) at the start of x. */
  function NumberPart(x: string): Option<int> {
    var w := SpaceRun(x);
    if w == 0 then None else SignedNumber(x[w..])
  }

  /** (cp|mate)\s+(-?\d+) at the start of v. */
  function KindPart(v: string): Option<(bool, int)> {
    match KindWord(v)
    case None => None
    case Some((mate, len)) =>
      match NumberPart(v[len..])
      case None => None
      case Some(n) => Some((mate, n))
  }

  /** \s+(cp|mate)\s+(-?\d+) at the start of u. */
  function SpacedKindPart(u: string): Option<(bool, int)> {
    var w := SpaceRun(u);
    if w == 0 then None else KindPart(u[w..])
  }

  /** score\s+(cp|mate)\s+(-?\d+) at the start of t: whether the score is
      a mate count, and the number. */
  function ScoreField(t: string): Option<(bool, int)> {
    if |t| >= 5 && t[..5] == "score" then SpacedKindPart(t[5..]) else None
  }

  predicate WordAt(s: string, j: int) {
    0 <= j < |s| && IsWordChar(s[j])
  }

  /** \b at position i. */
  predicate Boundary(s: string, i: int) {
    WordAt(s, i - 1) != WordAt(s, i)
  }

  /** The whole pattern \bscore\s+(cp|mate)\s+(-?\d+) matched at position i. */
  function MatchAt(s: string, i: nat): Option<(bool, int)>
    requires i <= |s|
  {
    if Boundary(s, i) then ScoreField(s[i..]) else None
  }

  /** The first present entry of ms at or after i. */
  function FirstSome<T>(ms: seq<Option<T>>, i: nat): Option<T>
    requires i <= |ms|
    decreases |ms| - i
  {
    if i == |ms| then None else if ms[i].Some? then ms[i] else FirstSome(ms, i + 1)
  }

  /** FirstSome picks the entry at the first present position, and nothing
      when every entry is absent. */
  lemma {:induction false} FirstSomeLeftmost<T>(ms: seq<Option<T>>, i: nat)
    requires i <= |ms|
    ensures var r := FirstSome(ms, i);
      && (r.Some? ==> exists j :: i <= j < |ms| && ms[j] == r && forall k :: i <= k < j ==> ms[k].None?)
      && (r.None? ==> forall j :: i <= j < |ms| ==> ms[j].None?)
    decreases |ms| - i
  {
    if i < |ms| && ms[i].None? {
      FirstSomeLeftmost(ms, i + 1);
    }
  }

  lemma {:induction false} FirstSomeAt<T>(ms: seq<Option<T>>, i: nat, j: nat)
    requires i <= j < |ms| && ms[j].Some? && forall k :: i <= k < j ==> ms[k].None?
    ensures FirstSome(ms, i) == ms[j]
    decreases j - i
  {
    if i < j {
      FirstSomeAt(ms, i + 1, j);
    }
  }

  /** The pattern's outcome at every position of s. */
  function Matches(s: string): (ms: seq<Option<(bool, int)>>)
    ensures |ms| == |s| && forall j :: 0 <= j < |s| ==> ms[j] == MatchAt(s, j)
  {
    seq(|s|, j requires 0 <= j < |s| => MatchAt(s, j))
  }

  /** String.prototype.match without the g flag: the leftmost match. */
  function FindScore(s: string): Option<(bool, int)> {
    FirstSome(Matches(s), 0)
  }

  const MateValue: int := 100000

  /** A mate in m as sign(m) * (100000 - |m|), with mate 0 counted as positive. */
  function MateScore(value: int): (r: Option<int>)
    ensures r.Some? && (-MateValue < value <= MateValue ==> (r.value >= 0 <==> value >= 0))
  {
    var sign := if value >= 0 then 1 else -1;
    var abs := if value >= 0 then value else -value;
    Some(sign * (MateValue - abs))
  }

  /** parseScore: a centipawn score as it is; a mate in m as
      sign(m) * (100000 - |m|), with mate 0 counted as positive. */
  function ParseScore(line: string): (r: Option<int>)
    ensures r.None? <==> FindScore(line).None?
    ensures FindScore(line).Some? && !FindScore(line).value.0 ==> r == Some(FindScore(line).value.1)
    ensures FindScore(line).Some? && FindScore(line).value.0 && -MateValue < FindScore(line).value.1 <= MateValue ==>
      (r.value >= 0 <==> FindScore(line).value.1 >= 0)
  {
    var found := FindScore(line);
    if found.None? then None
    else if !found.value.0 then Some(found.value.1)
    else MateScore(found.value.1)
  }


  /** The score read is the pattern's match at the first position where it
      matches, and there is none when it matches nowhere. */
  lemma FindScoreLeftmost(s: string)
    ensures var r := FindScore(s);
      && (r.Some? ==> exists j :: 0 <= j < |s| && MatchAt(s, j) == r && forall k :: 0 <= k < j ==> MatchAt(s, k).None?)
      && (r.None? ==> forall j :: 0 <= j < |s| ==> MatchAt(s, j).None?)
  {
    FirstSomeLeftmost(Matches(s), 0);
  }

  predicate ScoreWordAt(line: string, i: nat) {
    i + 5 <= |line| && line[i..i + 5] == "score"
  }

  /** A score field needs the word "score": a line without it has no score. */
  lemma NoScoreWord(line: string)
    requires forall i :: 0 <= i < |line| ==> !ScoreWordAt(line, i)
    ensures ParseScore(line) == None
  {
    var ms := Matches(line);
    forall j | 0 <= j < |line|
      ensures ms[j].None?
    {
      var t := line[j..];
      assert !ScoreWordAt(line, j);
      if |t| >= 5 {
        assert t[..5] == line[j..j + 5];
      }
      assert ScoreField(t).None?;
    }
    FirstSomeLeftmost(ms, 0);
  }

  /** The decimal text of an integer, with a minus sign when negative. */
  function IntText(n: int): string {
    if n < 0 then "-" + NatToString(-n) else NatToString(n)
  }

  lemma NegativeNumberOf(n: nat, rest: string)
    requires n > 0 && (rest == [] || !IsDigit(rest[0]))
    ensures SignedNumber("-" + NatToString(n) + rest) == Some(0 - n)
  {
    var y := "-" + NatToString(n) + rest;
    assert y[1..] == NatToString(n) + rest;
    LeadingNumber(n, rest);
    NatToStringShape(n);
  }

  lemma NaturalNumberOf(n: nat, rest: string)
    requires rest == [] || !IsDigit(rest[0])
    ensures SignedNumber(NatToString(n) + rest) == Some(n)
  {
    var y := NatToString(n) + rest;
    LeadingNumber(n, rest);
    NatToStringShape(n);
    assert y[0] == NatToString(n)[0];
  }

  lemma SignedNumberOf(n: int, rest: string)
    requires rest == [] || !IsDigit(rest[0])
    ensures SignedNumber(IntText(n) + rest) == Some(n)
  {
    if n < 0 {
      NegativeNumberOf(-n, rest);
    } else {
      NaturalNumberOf(n, rest);
    }
  }

  lemma NumberNotSpace(n: int, rest: string)
    ensures |IntText(n) + rest| > 0 && !JsSpace((IntText(n) + rest)[0])
  {
    NatToStringShape(if n < 0 then -n else n);
    if n >= 0 {
      assert (IntText(n) + rest)[0] == NatToString(n)[0];
    }
  }

  lemma NumberPartOf(n: int, rest: string)
    requires rest == [] || !IsDigit(rest[0])
    ensures NumberPart(" " + (IntText(n) + rest)) == Some(n)
  {
    NumberNotSpace(n, rest);
    SpaceRunOne(IntText(n) + rest);
    SignedNumberOf(n, rest);
  }

  lemma KindWordOf(mate: bool, rest: string)
    ensures KindWord(KindText(mate) + rest) == Some((mate, |KindText(mate)|))
    ensures (KindText(mate) + rest)[|KindText(mate)|..] == rest
  {
    var v := KindText(mate) + rest;
    if mate {
      assert v[..4] == "mate";
      assert v[0] == 'm';
    } else {
      assert v[..2] == "cp";
    }
  }

  lemma KindPartOf(mate: bool, n: int, rest: string)
    requires rest == [] || !IsDigit(rest[0])
    ensures KindPart(KindText(mate) + (" " + (IntText(n) + rest))) == Some((mate, n))
  {
    KindWordOf(mate, " " + (IntText(n) + rest));
    NumberPartOf(n, rest);
  }

  /** The text of a score field and its number. */
  function ScoreText(mate: bool, n: int): string {
    "score" + (" " + (KindText(mate) + (" " + IntText(n))))
  }

  /** The score field "score <kind> <n>" reads as the kind and n. */
  lemma ScoreFieldOf(mate: bool, n: int, rest: string)
    requires rest == [] || !IsDigit(rest[0])
    ensures ScoreField(ScoreText(mate, n) + rest) == Some((mate, n))
  {
    var v := KindText(mate) + (" " + (IntText(n) + rest));
    var t := ScoreText(mate, n) + rest;
    assert t == "score" + (" " + v);
    assert t[..5] == "score" && t[5..] == " " + v;
    assert v[0] == KindText(mate)[0];
    SpaceRunOne(v);
    KindPartOf(mate, n, rest);
  }

  /** A "score" starting in p would end in what follows it, which a
      non-word character at the end of p rules out. */
  lemma NoScoreWordBefore(p: string, f: string, k: nat)
    requires k < |p| && !ScoreWordAt(p, k) && !IsWordChar(p[|p| - 1])
    ensures !ScoreWordAt(p + f, k)
  {
    var line := p + f;
    if k + 5 <= |p| {
      assert line[k..k + 5] == p[k..k + 5];
    } else if k + 5 <= |line| {
      assert line[|p| - 1] == p[|p| - 1];
      assert line[k..k + 5][|p| - 1 - k] == line[|p| - 1];
    }
  }

  /** The pattern matches at no position of p, which holds no "score" and
      ends in a non-word character. */
  lemma NoMatchBefore(p: string, f: string)
    requires forall k :: 0 <= k < |p| ==> !ScoreWordAt(p, k)
    requires p == [] || !IsWordChar(p[|p| - 1])
    ensures forall k :: 0 <= k < |p| ==> MatchAt(p + f, k).None?
  {
    var line := p + f;
    forall k | 0 <= k < |p|
      ensures MatchAt(line, k).None?
    {
      NoScoreWordBefore(p, f, k);
      if |line[k..]| >= 5 {
        assert line[k..][..5] == line[k..k + 5];
      }
    }
  }

  /** Text without a "c" holds no "score". */
  lemma NoScoreWordIn(p: string)
    requires 'c' !in p
    ensures forall k :: 0 <= k < |p| ==> !ScoreWordAt(p, k)
  {
    forall k | 0 <= k < |p|
      ensures !ScoreWordAt(p, k)
    {
      if k + 5 <= |p| {
        assert p[k + 1] in p && p[k..k + 5][1] == p[k + 1];
      }
    }
  }

  /** The pattern's first match in p + field is the one at the start of
      field, when p holds no "score" and ends in a non-word character. */
  lemma FindScoreAtField(p: string, field: string)
    requires forall k :: 0 <= k < |p| ==> !ScoreWordAt(p, k)
    requires p == [] || !IsWordChar(p[|p| - 1])
    requires |field| > 0 && field[0] == 's' && ScoreField(field).Some?
    ensures FindScore(p + field) == ScoreField(field)
  {
    var line := p + field;
    var ms := Matches(line);
    NoMatchBefore(p, field);
    assert line[|p|..] == field;
    assert Boundary(line, |p|) by {
      assert line[|p|] == 's';
      if p != [] {
        assert line[|p| - 1] == p[|p| - 1];
      }
    }
    FirstSomeAt(ms, 0, |p|);
  }

  /** A line whose text before the score field holds no "score" and ends
      in a non-word character reads as that field's score. */
  lemma ScoreAfter(p: string, mate: bool, n: int, rest: string)
    requires forall k :: 0 <= k < |p| ==> !ScoreWordAt(p, k)
    requires p == [] || !IsWordChar(p[|p| - 1])
    requires rest == [] || !IsDigit(rest[0])
    ensures FindScore(p + (ScoreText(mate, n) + rest)) == Some((mate, n))
  {
    var field := ScoreText(mate, n) + rest;
    ScoreFieldOf(mate, n, rest);
    assert field[0] == 's';
    FindScoreAtField(p, field);
  }

  /** "score cp n" reads as n. */
  lemma ScoreCp(p: string, n: int, rest: string)
    requires forall k :: 0 <= k < |p| ==> !ScoreWordAt(p, k)
    requires p == [] || !IsWordChar(p[|p| - 1])
    requires rest == [] || !IsDigit(rest[0])
    ensures ParseScore(p + (ScoreText(false, n) + rest)) == Some(n)
  {
    ScoreAfter(p, false, n, rest);
  }

  /** "score mate m" reads as sign(m) * (100000 - |m|), mate 0 positive. */
  lemma ScoreMate(p: string, m: int, rest: string)
    requires forall k :: 0 <= k < |p| ==> !ScoreWordAt(p, k)
    requires p == [] || !IsWordChar(p[|p| - 1])
    requires rest == [] || !IsDigit(rest[0])
    ensures ParseScore(p + (ScoreText(true, m) + rest)) == Some(if m >= 0 then MateValue - m else -(MateValue + m))
  {
    ScoreAfter(p, true, m, rest);
  }

  /** An engine info line with a centipawn score. */
  lemma InfoLineExample()
    ensures ParseScore("info depth 10 score cp -30 pv 7g7f") == Some(-30)
  {
    var p := "info depth 10 ";
    var rest := " pv 7g7f";
    NoScoreWordIn(p);
    assert IntText(-30) == "-30";
    assert "info depth 10 score cp -30 pv 7g7f" == p + (ScoreText(false, -30) + rest);
    ScoreCp(p, -30, rest);
  }

  /** The usual engine info line, with "seldepth" before the score:
      "info depth 1 seldepth 1 score cp 52 nodes 120 pv 7g7f" reads 52. */
  lemma InfoLineSeldepth(p: string, rest: string)
    requires p == "info depth 1 seldepth 1 " && rest == " nodes 120 pv 7g7f"
    ensures ParseScore(p + ("score cp 52" + rest)) == Some(52)
  {
    NoScoreWordIn(p);
    assert ScoreText(false, 52) == "score cp 52";
    ScoreCp(p, 52, rest);
  }

  /** The handler's score: each "info" line with a score replaces the last
      one, so the score of the last such line. */
  function InfoScore(line: string): (r: Option<int>)
    ensures r.Some? ==> |line| >= 4 && line[..4] == "info" && r == ParseScore(line)
  {
    if |line| >= 4 && line[..4] == "info" then ParseScore(line) else None
  }

  /** The value of the last line that has one under `score`. */
  function LastScoreBy(score: string -> Option<int>, lines: seq<string>): Option<int>
    decreases |lines|
  {
    if lines == [] then None
    else if score(lines[|lines| - 1]).Some? then score(lines[|lines| - 1])
    else LastScoreBy(score, lines[..|lines| - 1])
  }

  lemma {:induction false} LastScoreByIsLast(score: string -> Option<int>, lines: seq<string>)
    ensures var r := LastScoreBy(score, lines);
      && (r.Some? ==> exists i :: 0 <= i < |lines| && score(lines[i]) == r && forall j :: i < j < |lines| ==> score(lines[j]).None?)
      && (r.None? ==> forall i :: 0 <= i < |lines| ==> score(lines[i]).None?)
    decreases |lines|
  {
    if lines != [] {
      var n := |lines| - 1;
      if score(lines[n]).None? {
        var init := lines[..n];
        LastScoreByIsLast(score, init);
        assert forall i :: 0 <= i < n ==> init[i] == lines[i];
      }
    }
  }

  /** The handler's score after the engine's lines: each "info" line with
      a score replaces the one before. */
  function LastScore(lines: seq<string>): (r: Option<int>)
    ensures r.Some? ==> exists i :: 0 <= i < |lines| && InfoScore(lines[i]) == r
  {
    LastScoreByIsLast(InfoScore, lines);
    LastScoreBy(InfoScore, lines)
  }

  /** The handler's score is that of the last info line with one, and
      there is none when no info line carries one. */
  lemma LastScoreIsLast(lines: seq<string>)
    ensures var r := LastScore(lines);
      && (r.Some? ==> exists i :: 0 <= i < |lines| && InfoScore(lines[i]) == r && forall j :: i < j < |lines| ==> InfoScore(lines[j]).None?)
      && (r.None? ==> forall i :: 0 <= i < |lines| ==> InfoScore(lines[i]).None?)
  {
    LastScoreByIsLast(InfoScore, lines);
  }

  // ---------------------------------------------------------------------
  // Movetime

  function Max(x: real, y: real): (m: real)
    ensures m >= x && m >= y && (m == x || m == y)
  {
    if x >= y then x else y
  }

  function Min(x: real, y: real): (m: real)
    ensures m <= x && m <= y && (m == x || m == y)
  {
    if x <= y then x else y
  }

  /** The search settings of one request: depth (default 5, at least 1),
      time per move (default 1000 ms, at least 200), and the engine's
      movetime for the mode. */
  datatype Timing = Timing(depth: real, timeMs: real, moveTime: real)

  function RequestTiming(depth: Option<real>, timeMs: Option<real>, mode: Option<string>): (t: Timing)
    ensures t.depth >= 1.0 && t.timeMs >= 200.0
    ensures t.depth == (if depth.Some? && depth.value >= 1.0 then depth.value else if depth.Some? then 1.0 else 5.0)
    ensures t.timeMs == (if timeMs.Some? && timeMs.value >= 200.0 then timeMs.value else if timeMs.Some? then 200.0 else 1000.0)
  {
    var d := Max(1.0, if depth.Some? then depth.value else 5.0);
    var ms := Max(200.0, if timeMs.Some? then timeMs.value else 1000.0);
    var depthScale := Max(1.0, d - 4.0);
    var m := if mode.Some? then mode.value else "bestmove";
    var moveTime := if m == "evaluate" then Min(Max(ms * Max(2.0, depthScale), 2000.0), 5000.0)
                    else Min(ms * depthScale, 2000.0);
    Timing(d, ms, moveTime)
  }

  lemma ScaledAtLeast(ms: real, scale: real, floor: real)
    requires ms >= floor >= 0.0 && scale >= 1.0
    ensures ms * scale >= floor
  {
    assert ms * scale >= ms * 1.0;
  }

  /** An evaluation's movetime lies in [2000, 5000] ms. */
  lemma EvaluateMoveTime(depth: Option<real>, timeMs: Option<real>)
    ensures 2000.0 <= RequestTiming(depth, timeMs, Some("evaluate")).moveTime <= 5000.0
  {
  }

  /** A best-move search's movetime lies in [200, 2000] ms: the time per
      move is at least 200 and the depth scale at least 1. */
  lemma BestMoveTime(depth: Option<real>, timeMs: Option<real>, mode: Option<string>)
    requires mode != Some("evaluate")
    ensures 200.0 <= RequestTiming(depth, timeMs, mode).moveTime <= 2000.0
  {
    var t := RequestTiming(depth, timeMs, mode);
    ScaledAtLeast(t.timeMs, Max(1.0, t.depth - 4.0), 200.0);
  }

  /** Up to depth 5 a best-move search gets the time per move, capped at
      2 seconds; the defaults give 1000 ms. */
  lemma ShallowBestMoveTime(depth: Option<real>, timeMs: Option<real>)
    requires depth.None? || depth.value <= 5.0
    ensures var t := RequestTiming(depth, timeMs, None);
      t.moveTime == Min(t.timeMs, 2000.0)
    ensures RequestTiming(None, None, None).moveTime == 1000.0
  {
  }
}
