# A verified model of the shogi app's rules engine, search and codecs

This project models, in Dafny, the core of a browser shogi game (9×9 board,
captured pieces return to the capturer's hand):

- the position model (`app/lib/board.ts`);
- the move generator with its promotion and drop rules (`app/lib/moves.ts`);
- the self-check legality filter (`app/lib/rules.ts`);
- the computer player (`app/lib/ai.ts`): move ordering, optional-promotion
  expansion, fail-soft alpha-beta minimax, material count and the
  iterative-deepening root driver;
- the engine bridge's pure codecs (`app/api/ai/route.ts`): the SFEN position
  text sent to a USI engine, the USI move and score parsers, and the
  move-time clamps;
- the move-record (kifu) line formatter (`app/components/KifuPanel.tsx`).

Each source function that works by a loop or by pushing into an array is a
`method` proved equal to a specification function. The properties are proved
about those functions:

- the promotion tag;
- the shape and targets of every piece's moves;
- the drop rules;
- what `applyMove` changes;
- the first king found;
- the attack and check tests;
- the legal moves, as exactly the legal candidates;
- the move order, as a sorted permutation;
- the expansion's members;
- the pruned search, equal to plain minimax over the full window;
- the root move, as one of the best moves;
- the material count: non-negative, and unchanged by a move;
- the SFEN round trip, for the board, the hands and the whole text;
- the USI move round trip, and the behaviour of `parseScore`;
- the move-time bounds;
- the record head: index, mover and square read back from a kifu line.

Modules and files:

| file | module | models |
|---|---|---|
| types.dfy | ShogiTypes | owners, pieces, squares, moves, board, hands |
| board.dfy | BoardSetup | board.ts |
| moves.dfy | Moves | moves.ts |
| rules.dfy | Rules | rules.ts |
| order.dfy | MoveOrder | isMoveGivingCheck, orderMoves, expandMovesForSearch |
| search.dfy | Search | minimax |
| material.dfy | Material | sumMaterial |
| choose.dfy | LocalAi | chooseLocalAiMove |
| decimal.dfy | Decimal | `String(n)` for counters, and its inverse |
| sfen.dfy | Sfen | toSfenBoard, toSfenHands, toSfen, and an SFEN reader as their inverse |
| usi.dfy | Usi | parseSquare, parseUsiMove, parseScore, the info/bestmove line handling, the clamps |
| kifu.dfy | Kifu | toSquareText, formatMove |

## Modelling decisions

- **Owners.** Owner `b` is `Black` (moves toward row 0) and `w` is `White`.
  Rows and columns are those of the source, 0..8.
- **Constant tables are parameters:**
  - `pieceValues` is `values: PieceType -> int`;
  - `handOrder` is `order: seq<PieceType>`;
  - the key list of `pieceValues` is `keys`;
  - `pieceLabel` is `labels: PieceType -> Label`.
- **`evaluate` is a parameter,** `ev: (Board, Hands) -> real`.
- **Scores are `real`.** `-Infinity`/`Infinity` are `Ext.NegInf`/`Ext.PosInf`.
- **The search is generic over a game.** It is written over a `Game` record
  (move list, check test, move application). `Search.Plays` ties that record
  to the shogi functions. `Search.ShogiGamePlays` proves that the shogi record
  satisfies it.
- **The clock is a parameter.** `Date.now() - start > timeMs` becomes
  `timeUp(depth, i)`, with `i = -1` for the test before a depth.
- **The random pick is a nondeterministic choice** among the best moves.
- **A move is only played when valid.** The model's `applyMove` requires its
  squares to be on the board (`ValidMove`). Every generated move satisfies it
  (`Rules.LegalMovesValid`).
- **JavaScript values are modelled explicitly:**
  - `parseSquare` returns a `JsSquare` whose row may be `-1` and whose column
    may be `NaN`, as `indexOf` and `Number` give them;
  - `Number(ch)` of one character follows JavaScript: a digit gives its value,
    a white-space character gives 0, anything else gives NaN;
  - `\s` and the `\b` word boundary of the score pattern use JavaScript's
    white-space and word-character sets.
- **The search's move order matches the source's sort.** `orderMoves` is
  modelled as a stable insertion sort by the key `(check, capture value)`.
  `Array.prototype.sort` is stable, and the source comparator is a
  consistent order on those keys. `MoveOrder.OrderMovesStable` proves that
  the model's order is the only key-ordered arrangement that keeps
  equal-key moves in input order, so the two produce the same list.
- **Two behaviours of the code worth noting:**
  - `parseUsiMove("7g7f")` yields a move from (6,2) to (5,2) with promotion
    `none` (`Usi.SevenGSevenF`);
  - the best moves found in a depth that the deadline interrupts still
    replace the previous depth's choice (`LocalAi.Deepen`).

## Model

| member | source | states |
|---|---|---|
| `ShogiTypes.Opponent` | app/lib/rules.ts:35 | the attacker is the other side, never the owner itself |
| `ShogiTypes.SetCell` | app/lib/moves.ts:224-227 | an indexed board write changes that square to the new cell and no other square |
| `ShogiTypes.SquareAt` | app/lib/rules.ts:5-6 | the row-major index k names the board square with r·9+c = k |
| `ShogiTypes.Hand.With` | app/lib/moves.ts:223 | an indexed hand write sets that piece type's count and keeps every other count |
| `ShogiTypes.Hands.WithCount` | app/lib/moves.ts:237 | `hands[owner][type]` is updated for that owner and type only |
| `BoardSetup.EmptyHands` | app/lib/board.ts:3-6 | both owners hold 0 of every piece type, the king included |
| `BoardSetup.InitialBoard` | app/lib/board.ts:8-25 | the filled board holds the starting layout on every square |
| `BoardSetup.InitialKings` | app/lib/board.ts:11-22 | each side has exactly one king, Black's at (8,4) and White's at (0,4), and no piece starts promoted |
| `BoardSetup.InitialSymmetric` | app/lib/board.ts:11-22 | the layout is point-symmetric: the square (8-r, 8-c) holds the same piece for the other side |
| `BoardSetup.InitialEmptySquares` | app/lib/board.ts:9-22 | every square outside rows 0, 2, 6, 8 and the four rook/bishop squares starts empty |
| `BoardSetup.CloneRow` | app/lib/board.ts:28 | a row copy equals the row |
| `BoardSetup.CloneBoard` | app/lib/board.ts:27-28 | the copy has the same cell on every square, so it equals the board |
| `BoardSetup.CloneHand` | app/lib/board.ts:31-32 | a hand copy has every count of the hand |
| `BoardSetup.CloneHands` | app/lib/board.ts:30-33 | the copy has every count of both owners, so it equals the hands |
| `Moves.PromotionTag` | app/lib/moves.ts:5-32 | `none` iff the piece cannot promote or neither row is in its zone; `must` iff eligible and forced; a pawn or lance reaching the last rank, or a knight the last two, is always `must` |
| `Moves.StepMovesShape` | app/lib/moves.ts:51-58 | a step yields at most the one on-board target not held by the mover, tagged by the promotion rule |
| `Moves.StepsShape` | app/lib/moves.ts:51-58 | every move of a list of steps starts at the piece, lands on the board, not on an own piece |
| `Moves.StepsTargetSet` | app/lib/moves.ts:51-58 | the targets of a list of steps are exactly its on-board offsets not held by the mover |
| `Moves.SlideMovesShape` | app/lib/moves.ts:60-75 | every slide move is well formed and the ray starts at the first square in the direction |
| `Moves.SlideRay` | app/lib/moves.ts:60-75 | a slide visits consecutive squares in its direction, all empty but the last; it stops at the edge, before an own piece or on an enemy piece |
| `Moves.TryStep` | app/lib/moves.ts:51-58 | appends exactly the step's moves to the list |
| `Moves.TrySteps` | app/lib/moves.ts:77-87 | appends the moves of each offset in order |
| `Moves.TrySlide` | app/lib/moves.ts:60-75 | the loop appends exactly the slide's moves |
| `Moves.TryRookSlides` | app/lib/moves.ts:166-171 | appends the four orthogonal slides in the source's order |
| `Moves.TryBishopSlides` | app/lib/moves.ts:160-165 | appends the four diagonal slides in the source's order |
| `Moves.TryPromotedMoves` | app/lib/moves.ts:104-133 | a promoted rook slides and steps diagonally, a promoted bishop slides and steps orthogonally, any other promoted piece moves as a gold |
| `Moves.TryUnpromotedMoves` | app/lib/moves.ts:135-176 | each unpromoted piece kind gets its own steps and slides |
| `Moves.GetMovesForPiece` | app/lib/moves.ts:44-177 | the generated list is the pseudo-move list of the square |
| `Moves.PseudoMovesShape` | app/lib/moves.ts:44-58 | an empty square has no moves; every move starts at the square, lands on the board, not on an own piece, with the rule's promotion tag |
| `Moves.SlidesShape` | app/lib/moves.ts:160-171 | rook and bishop slide moves are well formed |
| `Moves.PieceMovesShape` | app/lib/moves.ts:89-176 | every move of a piece, of any kind, is well formed |
| `Moves.StepsTargets` | app/lib/moves.ts:51-58 | a list holding exactly a piece's step offsets reaches exactly its step targets |
| `Moves.StepListTargets` | app/lib/moves.ts:77-174 | the offsets used for each piece reach exactly the squares its step rule allows |
| `Moves.PieceTargets` | app/lib/moves.ts:77-174 | a piece's targets are its step targets (king: 8 neighbours; gold and promoted minors: 6 gold steps; knight: 2 jumps; ...) plus its slide targets |
| `Moves.HasUnpromotedPawnInFile` | app/lib/moves.ts:187-195 | true iff the owner has an unpromoted pawn somewhere in the file |
| `Moves.DropsInRowMembers` | app/lib/moves.ts:200-213 | a row's drops are exactly the drops of that type onto the allowed squares of the row |
| `Moves.DropsOfKindMembers` | app/lib/moves.ts:199-214 | a type's drops are exactly the drops onto the allowed board squares |
| `Moves.DropsShape` | app/lib/moves.ts:184-217 | every drop is onto an empty square, of a type with count > 0, tagged `none`, no pawn into a file with an own unpromoted pawn, no pawn or lance on the last rank, no knight on the last two |
| `Moves.DropsComplete` | app/lib/moves.ts:184-217 | every allowed drop of a held type is generated |
| `Moves.TryDrop` | app/lib/moves.ts:201-212 | appends the drop exactly when that square allows it |
| `Moves.DropsRow` | app/lib/moves.ts:200-213 | the column loop yields the row's drops |
| `Moves.DropsOfType` | app/lib/moves.ts:199-214 | the row loop yields the type's drops |
| `Moves.GetLegalDrops` | app/lib/moves.ts:184-217 | the loops yield the drops of each held type in hand order |
| `Moves.Demote` | app/lib/moves.ts:179-182 | the captured type is the piece's own kind |
| `Moves.Apply` | app/lib/moves.ts:219-247 | a move never changes the opponent's hand |
| `Moves.ApplyFrame` | app/lib/moves.ts:219-247 | a move changes no square other than its origin and its target |
| `Moves.ApplyMove` | app/lib/moves.ts:219-247 | the copy-then-update procedure computes the position after the move |
| `Moves.ApplyDrop` | app/lib/moves.ts:222-228 | a drop takes one from the mover's count, puts an unpromoted piece of its type on the target, and changes nothing else |
| `Moves.ApplyBoardMove` | app/lib/moves.ts:230-247 | the origin empties, the target gets the piece promoted iff `must`/`optional` or already promoted, a captured non-king adds one to the mover's hand, nothing else changes |
| `Moves.ApplyNoPiece` | app/lib/moves.ts:230-232 | a board move with no origin or an empty origin leaves the position unchanged |
| `Rules.KingFromSpec` | app/lib/rules.ts:4-12 | the scan from index k finds the first owner's king at or after k, and nothing iff there is none |
| `Rules.KingSquareSpec` | app/lib/rules.ts:4-12 | `findKing` is null iff the owner has no king; otherwise it is the first king square in row-major order |
| `Rules.KingSquareIs` | app/lib/rules.ts:4-12 | a king square with no earlier king of that owner is the one found |
| `Rules.FindKing` | app/lib/rules.ts:4-12 | the nested loop returns the first king in row-major order, or none |
| `Rules.PieceAttacks` | app/lib/rules.ts:20-24 | true iff the square holds an attacker piece with a pseudo-move to the target |
| `Rules.RowAttacks` | app/lib/rules.ts:20-28 | true iff some square of the row attacks the target |
| `Rules.IsSquareAttacked` | app/lib/rules.ts:14-30 | true iff some attacker piece has a pseudo-move landing on the target |
| `Rules.IsInCheck` | app/lib/rules.ts:32-37 | true iff the owner has no king, or the first king square is attacked by the opponent |
| `Rules.InCheck` | app/lib/rules.ts:32-37 | a side that is not in check has a king on the board |
| `Rules.InCheckSingleKing` | app/lib/rules.ts:32-37 | with a single king, check is exactly an attack on that king |
| `Rules.NoKingInCheck` | app/lib/rules.ts:34 | a side without a king counts as in check |
| `Rules.CanApplyPromotion` | app/lib/rules.ts:39-48 | true iff the mover is not in check after the move with its promotion replaced |
| `Rules.IsMoveLegal` | app/lib/rules.ts:50-58 | a move that is not `optional` is legal iff the mover is not in check after it |
| `Rules.FilterLegalMembers` | app/lib/rules.ts:60-69 | the filter keeps a subsequence, which holds exactly the legal moves of the input |
| `Rules.PseudoMovesValid` | app/lib/moves.ts:44-58 | pseudo-moves start on the generating square, stay on the board and are not drops |
| `Rules.DropsValid` | app/lib/moves.ts:212 | drops land on the board, carry a type and the tag `none` |
| `Rules.GetLegalMovesAt` | app/lib/rules.ts:60-66 | the legal moves of an own piece's square; nothing for other squares |
| `Rules.RowMoves` | app/lib/rules.ts:73-80 | the column loop concatenates the row's per-square legal moves |
| `Rules.BuildLegalMoves` | app/lib/rules.ts:71-82 | per-square legal moves in row-major order followed by the legal drops |
| `Rules.LegalMovesAtMembers` | app/lib/rules.ts:60-66 | a square's list holds exactly the legal pseudo-moves from it |
| `Rules.RowLegalMembers` | app/lib/rules.ts:73-80 | a row prefix holds exactly the legal board moves from its squares |
| `Rules.BoardLegalMembers` | app/lib/rules.ts:72-80 | the board part holds exactly the legal board moves from the owner's pieces |
| `Rules.LegalMovesMembers` | app/lib/rules.ts:71-82 | a move is listed iff it is a pseudo-move of an own piece or a drop, and it is legal |
| `Rules.StepsSame` | app/lib/moves.ts:51-58 | steps depend only on which squares are occupied and by whom |
| `Rules.SlideMovesSame` | app/lib/moves.ts:60-75 | slides depend only on which squares are occupied and by whom |
| `Rules.PieceMovesSame` | app/lib/moves.ts:44-177 | a piece's moves depend only on occupancy and owners, not on the other pieces' kinds |
| `Rules.KingFromSame` | app/lib/rules.ts:4-12 | the king search ignores a change of promotion flags |
| `Rules.InCheckIgnoresPromotion` | app/lib/rules.ts:32-37 | check does not depend on the promotion flags of the owner's own pieces |
| `Rules.ApplyOptionalPromotes` | app/lib/moves.ts:240 | applying an `optional` move is applying its `must` variant |
| `Rules.PromotionVariantsAgree` | app/lib/rules.ts:39-58 | for the mover's own piece, the `must` and `none` variants are equally safe, so the `optional` rule adds nothing |
| `Rules.LegalMovesSafe` | app/lib/rules.ts:50-82 | every listed move is on the board and leaves the mover out of check |
| `Rules.LegalMovesValid` | app/lib/rules.ts:71-82 | every listed move can be applied |
| `MoveOrder.IsMoveGivingCheck` | app/lib/ai.ts:7-16 | true iff the opponent is in check after the move |
| `MoveOrder.InsertMultiset` | app/lib/ai.ts:24-33 | insertion adds exactly the one move |
| `MoveOrder.InsertSorted` | app/lib/ai.ts:24-33 | insertion keeps the list ordered by key |
| `MoveOrder.SortByKeySpec` | app/lib/ai.ts:24-33 | the sort is ordered by key and a permutation of its input |
| `MoveOrder.SortByKeyStable` | app/lib/ai.ts:24-33 | moves with equal keys keep their input order |
| `MoveOrder.SortedStableUnique` | app/lib/ai.ts:24-33 | two key-ordered sequences that agree on the order of each key's moves are equal |
| `MoveOrder.OrderMoves` | app/lib/ai.ts:18-33 | the ordered list is a permutation of the moves |
| `MoveOrder.OrderMovesSpec` | app/lib/ai.ts:18-33 | the result is a permutation; checking moves come first; within a check status, capture value does not increase; drops score 0 |
| `MoveOrder.OrderMovesStable` | app/lib/ai.ts:18-33 | equal-key moves keep their input order, and any key-ordered list that does so is this one |
| `MoveOrder.ExpandStep` | app/lib/ai.ts:43-52 | one move adds its safe `must` then `none` variants if it is `optional`, or itself otherwise |
| `MoveOrder.ExpandMovesForSearch` | app/lib/ai.ts:35-55 | the loop produces the expansion of the list, in order |
| `MoveOrder.ExpandMembers` | app/lib/ai.ts:35-55 | listed iff a non-optional input move, or the safe `must`/`none` variant of an optional input move; never `optional` |
| `MoveOrder.ExpandOneMembers` | app/lib/ai.ts:43-52 | the move-by-move membership rule of the expansion |
| `MoveOrder.ExpandNoOptional` | app/lib/ai.ts:50-52 | without optional moves the expansion is the input unchanged, in order |
| `MoveOrder.SearchMovesSafe` | app/lib/ai.ts:35-55 | every searched move is applicable, not `optional`, and leaves the mover out of check |
| `MoveOrder.SearchMovesBothVariants` | app/lib/ai.ts:43-49 | both variants of a legal optional move are searched |
| `Search.ExtMax` | app/lib/ai.ts:81-82 | `Math.max` with infinities: an upper bound equal to one argument |
| `Search.ExtMin` | app/lib/ai.ts:92-93 | `Math.min` with infinities: a lower bound equal to one argument |
| `Search.ShogiGamePlays` | app/lib/ai.ts:67-68 | the search's game record is the shogi move list, check test and move application |
| `Search.SearchMovesValid` | app/lib/ai.ts:67-68 | every searched move can be applied |
| `Search.BestOfIsExtreme` | app/lib/ai.ts:76-96 | the minimax value of a node is the largest (or smallest) child value, reached by some child |
| `Search.BestOfPermutation` | app/lib/ai.ts:78 | reordering the moves does not change the minimax value |
| `Search.FullWindowExact` | app/lib/ai.ts:140-147 | with the window (−∞, +∞) a fail-soft result is the exact value |
| `Search.MaxStep` | app/lib/ai.ts:81-83 | one maximizing update keeps the fail-soft bounds, or cuts off with a lower bound |
| `Search.MinStep` | app/lib/ai.ts:92-94 | one minimizing update keeps the fail-soft bounds, or cuts off with an upper bound |
| `Search.ChildOf` | app/lib/ai.ts:79-80 | a child's value is the opposite side's minimax value of the position after the move |
| `Search.MaxAdvance` | app/lib/ai.ts:79-83 | a maximizing iteration advances the loop invariant, or its cut-off value bounds the node's value |
| `Search.MinAdvance` | app/lib/ai.ts:90-94 | a minimizing iteration advances the loop invariant, or its cut-off value bounds the node's value |
| `Search.Minimax` | app/lib/ai.ts:57-97 | the pruned search is fail-soft with respect to minimax over the same move lists (evaluation at depth 0, ∓10000 or 0 without moves), and exact for the full window |
| `Search.MaxLoop` | app/lib/ai.ts:76-86 | the maximizing loop with cut-offs is fail-soft for the best child value |
| `Search.MinLoop` | app/lib/ai.ts:88-96 | the minimizing loop with cut-offs is fail-soft for the least child value |
| `Search.MaxVisit` | app/lib/ai.ts:79-83 | scores one child by recursion and advances the maximizing invariant |
| `Search.MinVisit` | app/lib/ai.ts:90-94 | scores one child by recursion and advances the minimizing invariant |
| `Material.SumMaterial` | app/lib/ai.ts:99-114 | the loops sum the non-king board pieces' values and each key's hand count × value |
| `Material.RowMaterialNonNegative` | app/lib/ai.ts:102-106 | a row's material is non-negative when values are |
| `Material.BoardMaterialNonNegative` | app/lib/ai.ts:101-107 | the board's material is non-negative when values are |
| `Material.HandMaterialNonNegative` | app/lib/ai.ts:108-112 | hand material is non-negative when values and counts are |
| `Material.MaterialNonNegative` | app/lib/ai.ts:99-114 | with non-negative values and counts the total is non-negative |
| `Material.BoardMaterialSet` | app/lib/ai.ts:101-107 | writing one square changes the board material by the new cell's value minus the old one's |
| `Material.HandMaterialWith` | app/lib/ai.ts:108-112 | changing one count changes hand material by the difference times the value, once per occurrence of the key |
| `Material.DropConserves` | app/lib/moves.ts:222-228 | a drop of a non-king onto an empty square keeps the total material |
| `Material.BoardMoveConserves` | app/lib/moves.ts:230-247 | a board move between two distinct squares keeps the total material, a capture moving value from board to hand |
| `Material.MaterialConserved` | app/lib/moves.ts:219-247 | every such move keeps the total material when the keys list each non-king type once |
| `LocalAi.ScoreRootMove` | app/lib/ai.ts:139-149 | a root move's score is the reply's full-window minimax value plus the bonus for a check in the endgame |
| `LocalAi.SearchDepth` | app/lib/ai.ts:133-156 | only ordered moves are kept; without a deadline they are exactly the best-scoring moves, and some exist |
| `LocalAi.OrderedSameMoves` | app/lib/ai.ts:135 | ordering keeps the same set of moves |
| `LocalAi.DeepenStep` | app/lib/ai.ts:132-158 | one depth keeps a base move if any; without a deadline over a non-empty list it keeps one, and it is a best move at that depth |
| `LocalAi.Deepen` | app/lib/ai.ts:129-161 | the choice is a base move; without a deadline it is a best move at the last depth |
| `LocalAi.ChooseLocalAiMove` | app/lib/ai.ts:116-168 | null iff White has no expanded legal move; otherwise one of them, and without a deadline one that scores best at the maximum depth |
| `Decimal.NatToStringShape` | app/api/ai/route.ts:25 | `String(n)` is a non-empty run of digits, one digit exactly below 10, with no leading zero |
| `Decimal.NatToStringRoundTrip` | app/api/ai/route.ts:41 | reading the digits back gives the number |
| `Decimal.NatToStringInjective` | app/api/ai/route.ts:41 | different counts are written differently |
| `Decimal.LeadingNumber` | app/api/ai/route.ts:41 | a number before a non-digit is read back whole, with the rest after it |
| `Sfen.LetterPieceChar` | app/api/ai/route.ts:28 | a board letter names the piece's kind and owner (upper case for `b`) and is not a digit, `+`, `/` or space |
| `Sfen.LetterOfType` | app/api/ai/route.ts:41-47 | a hand letter names its type and owner and is not a digit, `-` or space |
| `Sfen.ToSfenRank` | app/api/ai/route.ts:16-32 | the column loop writes the rank text, `9` for an empty rank |
| `Sfen.ToSfenBoard` | app/api/ai/route.ts:13-35 | the nine rank texts, row 0 first, joined by `/` |
| `Sfen.RunTextRoundTrip` | app/api/ai/route.ts:18-31 | a rank's text reads back as its cells, each empty run as that many empty squares |
| `Sfen.RankRoundTrip` | app/api/ai/route.ts:16-32 | every rank text reads back as the rank, so digits plus pieces make 9 |
| `Sfen.RunTextNoAdjacentDigits` | app/api/ai/route.ts:20-27 | each maximal empty run is one digit: no two digits are adjacent |
| `Sfen.RankNoAdjacentDigits` | app/api/ai/route.ts:16-32 | a rank text has no two adjacent digits |
| `Sfen.SplitJoin` | app/api/ai/route.ts:34 | splitting a join of separator-free parts gives the parts back |
| `Sfen.ParseRanksRoundTrip` | app/api/ai/route.ts:14-33 | the list of rank texts reads back as the rows |
| `Sfen.BoardRoundTrip` | app/api/ai/route.ts:13-35 | the board text reads back as the board |
| `Sfen.HandRunText` | app/api/ai/route.ts:39-49 | one owner's loop writes the tokens in order R,B,G,S,N,L,P |
| `Sfen.ToSfenHands` | app/api/ai/route.ts:37-51 | Black's tokens then White's, or `-` when there are none |
| `Sfen.HandRunEmpty` | app/api/ai/route.ts:39-49 | an owner writes nothing iff none of its counts is positive |
| `Sfen.HandsTextDash` | app/api/ai/route.ts:50 | the hands text is `-` iff no count in the piece order is positive |
| `Sfen.ParseHandToken` | app/api/ai/route.ts:41 | a token (count omitted when 1) reads back as its type, owner and count |
| `Sfen.ParseHandRun` | app/api/ai/route.ts:39-49 | an owner's tokens read back as its positive counts |
| `Sfen.AddRunCounts` | app/api/ai/route.ts:39-49 | reading an owner's tokens adds exactly its positive counts |
| `Sfen.ReadBackHands` | app/api/ai/route.ts:37-49 | for hands with non-negative counts and no king, the counts read back are the hands |
| `Sfen.EmptyHandsText` | app/api/ai/route.ts:50 | nothing written means all counts are zero |
| `Sfen.HandsRoundTrip` | app/api/ai/route.ts:37-51 | the hands text reads back as the hands |
| `Sfen.ToSfen` | app/api/ai/route.ts:53-54 | board, turn, hands and `1`, separated by single spaces |
| `Sfen.FieldsNoSpace` | app/api/ai/route.ts:53-54 | no field contains a space, so the spaces delimit the four fields |
| `Sfen.JoinFields` | app/api/ai/route.ts:53-54 | the SFEN text is the space-join of its four fields |
| `Sfen.SfenRoundTrip` | app/api/ai/route.ts:13-54 | the SFEN text reads back as the board, the hands and the side to move |
| `Usi.SpaceRun` | app/api/ai/route.ts:213 | the leading run of white space, and a non-space after it |
| `Usi.WordRun` | app/api/ai/route.ts:213 | the leading run of non-space characters, and a space after it |
| `Usi.IndexOf` | app/api/ai/route.ts:58 | the first position of the character, or −1 iff it is absent |
| `Usi.ToUpperString` | app/api/ai/route.ts:69 | upper-cases each ASCII letter and keeps the length |
| `Usi.SplitAtSeparator` | app/api/ai/route.ts:66-67 | splitting at a present `*` gives at least two parts |
| `Usi.RankLetterIndex` | app/api/ai/route.ts:11 | `a`..`i` are rows 0..8 and any other character is −1 |
| `Usi.ParseSquare` | app/api/ai/route.ts:56-61 | the row is -1..8, and -1 exactly when the rank character is not one of `a`..`i` |
| `Usi.ParseSquareOnBoard` | app/api/ai/route.ts:56-61 | the square is on the board iff the file is `1`..`9` and the rank `a`..`i`, and then it is (rank index, 9 − file) |
| `Usi.FileNumber` | app/api/ai/route.ts:57-59 | the column is on the board iff the file character is `1`..`9` |
| `Usi.SquareTextRoundTrip` | app/api/ai/route.ts:56-61 | a board square's USI text parses back to it |
| `Usi.ParseUsiMove` | app/api/ai/route.ts:63-84 | a parsed move is never `optional`; it is a drop iff the text has `*`; a drop has no origin and tag `none` |
| `Usi.NoMoveWords` | app/api/ai/route.ts:64-65 | "", `resign`, `win` and `none` give no move |
| `Usi.DropToken` | app/api/ai/route.ts:66-72 | `P*sq` gives no move iff the square part is shorter than 2, else the upper-cased piece dropped on the parsed square with tag `none` |
| `Usi.BoardToken` | app/api/ai/route.ts:74-83 | a trailing `+` gives `must`, none gives `none`; no move iff fewer than 4 characters remain |
| `Usi.DropTextRoundTrip` | app/api/ai/route.ts:66-72 | a drop's USI text parses back to it |
| `Usi.BoardTextRoundTrip` | app/api/ai/route.ts:74-83 | a board move's USI text parses back to it |
| `Usi.MoveTextRoundTrip` | app/api/ai/route.ts:63-84 | every move the engine can name parses back to it |
| `Usi.SevenGSevenF` | app/api/ai/route.ts:74-83 | `7g7f` is the move (6,2) to (5,2) with tag `none` |
| `Usi.BestMoveToken` | app/api/ai/route.ts:213 | the token is part of the line and holds no white space |
| `Usi.BestMoveOf` | app/api/ai/route.ts:212-213 | in a line `bestmove`, a run of white space, the move, then white space or the end, the token read is the move |
| `Usi.FindScoreLeftmost` | app/api/ai/route.ts:87 | the score found is the leftmost match of the pattern, and none iff there is no match |
| `Usi.ParseScore` | app/api/ai/route.ts:86-96 | null iff the pattern matches nowhere; a centipawn field gives its number; a mate count m with −100000 < m ≤ 100000 gives a score of the same sign, mate 0 positive |
| `Usi.MateScore` | app/api/ai/route.ts:93-95 | for −100000 < m ≤ 100000, the score of a mate in m has the sign of m, with 0 positive |
| `Usi.NoScoreWord` | app/api/ai/route.ts:87-88 | a line without the word `score` has no score |
| `Usi.ScoreFieldOf` | app/api/ai/route.ts:87 | `score cp n` and `score mate n` match with their kind and number |
| `Usi.ScoreAfter` | app/api/ai/route.ts:87 | a score field after text that holds no `score` and ends in a non-word character is the match found |
| `Usi.ScoreCp` | app/api/ai/route.ts:92 | `score cp n` gives n, after any text holding no `score` and ending in a non-word character |
| `Usi.ScoreMate` | app/api/ai/route.ts:93-95 | `score mate m` gives sign(m)·(100000 − \|m\|), with sign(0) = +1, after the same kind of text |
| `Usi.InfoLineExample` | app/api/ai/route.ts:86-92 | a typical info line's centipawn score is read |
| `Usi.InfoLineSeldepth` | app/api/ai/route.ts:86-92 | the usual engine line `info depth 1 seldepth 1 score cp 52 nodes 120 pv 7g7f` reads 52 |
| `Usi.InfoScore` | app/api/ai/route.ts:186-188 | only a line starting with `info` gives a score, and it is `parseScore`'s |
| `Usi.LastScore` | app/api/ai/route.ts:185-189 | a kept score is the score of one of the info lines |
| `Usi.LastScoreIsLast` | app/api/ai/route.ts:185-189 | the kept score is the one of the last `info` line that had a score, or none iff none had |
| `Usi.RequestTiming` | app/api/ai/route.ts:159-166 | depth ≥ 1 and timeMs ≥ 200, each the request's value, clamped, or the default 5 and 1000 |
| `Usi.EvaluateMoveTime` | app/api/ai/route.ts:163-165 | in evaluate mode the move time lies in [2000, 5000] |
| `Usi.BestMoveTime` | app/api/ai/route.ts:166 | in bestmove mode the move time lies in [200, 2000], the floor holding because the depth scale is ≥ 1 |
| `Usi.ShallowBestMoveTime` | app/api/ai/route.ts:161-166 | at depth ≤ 5 the move time is min(timeMs, 2000); the defaults give 1000 |
| `Kifu.FileDigitsDistinct` | app/components/KifuPanel.tsx:22 | the nine file digits are distinct and none is `?` or 同 |
| `Kifu.RankKanjiDistinct` | app/components/KifuPanel.tsx:23 | the nine rank numerals are distinct and none is `?` |
| `Kifu.SquareTextRoundTrip` | app/components/KifuPanel.tsx:25-29 | a board square's text is `fileDigits[8−c]` then `rankKanji[r]`, and reads back as the square |
| `Kifu.SquareTextInjective` | app/components/KifuPanel.tsx:25-29 | different board squares have different texts |
| `Kifu.SquareTextUnknown` | app/components/KifuPanel.tsx:26-27 | each character is `?` exactly when its index is outside 0..8 |
| `Kifu.ToSquareText` | app/components/KifuPanel.tsx:25-29 | two characters, neither `?` for a board square |
| `Kifu.SameMarkExactly` | app/components/KifuPanel.tsx:40-44 | the square is written 同 exactly when the previous entry had the same destination |
| `Kifu.SuffixCases` | app/components/KifuPanel.tsx:45-51 | 打 iff a drop; else 成 iff `must`; else 不成 iff a declined optional promotion; else nothing |
| `Kifu.MarkRoundTrip` | app/components/KifuPanel.tsx:36 | ▲ and △ name Black and White |
| `Kifu.FormatMoveHead` | app/components/KifuPanel.tsx:31-52 | a line reads back as `index+1. `, the mover's mark (▲ for `b`, △ for `w`) and the destination, or 同 |
| `Kifu.FormatMoveTail` | app/components/KifuPanel.tsx:37-52 | the line ends with the promoted label iff the entry is promoted, then the remark |
| `Kifu.FormatMove` | app/components/KifuPanel.tsx:31-52 | the line starts with the move number, `. ` and the mover's mark |

## Left out

- `app/lib/eval.ts` (`evaluate`) and the tables of `constants.ts` (`pieceValues`, `handOrder`, `pieceLabel`, ...) are not part of this model; they are parameters, so no property depends on their values.
- Floating point: scores, the 0.5 endgame bonus, `Math.max`/`Math.min` and the clamps are exact reals; rounding and NaN in numeric inputs are not modelled.
- `POST` in `app/api/ai/route.ts`: process spawning, the readline stream, timers, environment variables, file checks and JSON responses are I/O. Only the pure helpers, the `info`/`bestmove` line handling and the clamp arithmetic are modelled.
- `chooseAiMove` (`app/lib/ai.ts:170-198`) is a network call with a fallback to `chooseLocalAiMove`; only the fallback is modelled.
- `Date.now()` and `Math.random()` are the `timeUp` parameter and a nondeterministic choice.
- Strings are sequences of Unicode scalar values, so input outside the Basic Multilingual Plane is not modelled: JavaScript counts such a character as two code units in the length tests of `parseUsiMove` (`app/api/ai/route.ts:68`, `:76`), and lone surrogates cannot be represented. `toUpperCase`/`toLowerCase` are modelled on ASCII letters, which are the only letters the codecs produce or accept as pieces.
- `Number(...)` of a digit string is an unbounded integer; 2^53 precision loss on very long numbers is not modelled.
- The `quality` field of a kifu entry and the panel's JSX are presentation only.
- Aliasing and mutation of the source's arrays: boards and hands are values, and `cloneBoard`/`cloneHands` become identity copies; that `applyMove` never mutates its inputs holds because values cannot be mutated.
- Usi.ParseUsiMove: the dropped piece is kept as the upper-cased text before `*`, because the source casts it to a piece type without checking it; whether that text names a piece is not stated. `Usi.Bridge` is the value a move of the engine reads back as.
- Material.BoardMoveConserves: a board move whose origin equals its destination is excluded, because then the source adds the moving piece to its own hand; the move generator never produces such a move.
- Material.DropConserves: only drops of a non-king onto an empty square are covered, because a drop onto an occupied square would overwrite that piece; every generated drop meets this.
- Material.MaterialConserved: covers the moves meeting the conditions of `Material.DropConserves` and `Material.BoardMoveConserves`. The key list standing for `Object.keys(pieceValues)` must name each non-king type exactly once; `constants.ts` is not part of this model.
- Moves.ApplyMove: requires both squares to be on the board, which the source does not check. With an off-board row, `nextBoard[r]` is undefined and the access throws a TypeError. With an on-board row and column 9, -1 or NaN, the square reads as empty. An origin like that leaves the position unchanged. A target like that is written as a stray property of the row array, so the origin is emptied and the piece leaves the board. Such moves reach `applyMove` only from malformed engine text (`parseSquare` yields row -1 or column NaN); this behaviour is not modelled. The move generator never produces such a move.
