# Anarchist-Chess rules engine in Dafny

This project models the rules engine of the `Board` class of Anarchist-Chess
(`Chess.py`), a two-player chess game with a tkinter GUI. The board is a dictionary from
square names (`"a1"` … `"h8"`) to buttons. Each button shows an image such as `"pyimage5"`,
and that image is the only record of which piece stands on the square. Players click
squares. The first click selects a piece of the side to move. The second click asks
`allowed_piece_move` whether the piece may go there and `friendly_fire` whether it would
capture its own side. It then moves the piece tentatively and asks `in_check` whether the
mover's king is now attacked. If it is, the move is undone; otherwise it is committed, the
turn counter goes up, and a pawn on the last rank opens the promotion menu.

The model keeps the program's behaviour as written, including its unusual rules:

- a king's adjacent step clears that side's castling flags, also when `in_check` is only
  probing whether an opposing king attacks;
- castling clears no flag, and undoing a move restores no flag;
- `castle()` looks at a single square (f1, b1 or f8) before moving the rook;
- a click on b1 or b8 castles long whatever the flag says;
- black's long castle does what black's short castle does;
- `castle()` checks neither the king's colour nor its square;
- the castling rook is not put back when the move is undone;
- the black pawn's two-square step does not look at the square it passes;
- a rook leaving a1, h1, a8 or h8 clears that square's flag, whatever its colour;
- a bishop or queen path can look up a square off the board (a `KeyError`);
- an `in_check` probe by the opposing king can castle: with the white king on g1, the
  short white flag set and f1 empty, a black king anywhere not next to g1 is "allowed" to
  go to g1, and `castle()` puts a white rook on f1 and empties h1 on the way; the
  rollback does not undo this;
- an illegal second click leaves the selection pending.

Layout:

- `pieces.dfy`:
  - `Wrappers`: `Option`.
  - `Pieces`: colours, kinds, pieces and squares, the image tokens that stand for pieces,
    the order in which the board dictionary lists its squares, and the promotion choices.
- `paths.dfy`, module `Paths`: `clear_path` as a walk over the squares between two
  squares, with its meaning proved. It is `Clear`, `Blocked`, or `OffBoard` when it looks
  up a key the board does not have.
- `rules.dfy`, module `Rules`: the reference semantics. A `State` value holds
  `squares`, `turns`, `buttons_pressed`, `sq1`, `sq2`, `piece_color` and the four castling
  flags. There is one function per routine of `Board`. A Python exception is the answer
  `Raises` (a click `Raised`), with the state as it stood when the exception was raised.
- `board.dfy`, module `Chess`: class `Board` with the same fields. Its methods update them
  in place, with the source's loops, and each method's postcondition ties its result and
  new state to the `Rules` function of the old state.
- `moves.dfy`, module `Moves`: what `allowed_piece_move` and `castle` accept, piece by
  piece.
- `game.dfy`, module `Game`: properties of whole clicks (turn order, commit, rollback,
  promotion) and of the starting position.

## Model

| member | source | states |
|---|---|---|
| Pieces.ColourLists | Chess.py:48-49 | a piece's image is in `white_pieces` iff the piece is white, and in `black_pieces` iff it is black |
| Pieces.TokenRoundTrip | Chess.py:245-246 | each piece has its own image name, and reading that name back gives the piece |
| Pieces.IndexOf | Chess.py:488-504 | every square has a position 0..63 in the dictionary's iteration order a1, b1, …, h1, a2, …, h8 |
| Pieces.PromotionChoices | Chess.py:140-161 | the menu offers four pieces of the pawn's colour, none of them a pawn or a king |
| Pieces.PromotionTokens | Chess.py:144-161 | the menu buttons pass knight, bishop, rook and queen images of the right colour |
| Paths.WalkOnBoard | Chess.py:183-235 | a path walk that stays on the board never fails, and is blocked iff one of its squares holds a piece |
| Paths.WalkOffBoard | Chess.py:203-235 | a walk that fails visits a square that is not on the board |
| Paths.StraightWalkMeaning | Chess.py:183-200 | along a file or rank the walk never fails, and is blocked iff a square strictly between holds a piece |
| Paths.DiagonalCorrespondence | Chess.py:203-235 | the squares each diagonal loop visits, from the first beyond sq1 on, are exactly the squares strictly between sq1 and sq2 |
| Paths.StraightWalk | Chess.py:183-200 | no contract of its own: the file-then-rank loops as a function; `Paths.StraightWalkMeaning` and `Paths.RookPathNeverFails` state what it answers |
| Paths.DiagonalWalk | Chess.py:203-235 | no contract of its own: the four direction loops as a function; `Paths.DiagonalWalkMeaning`, `Paths.PathFailsOnlyWhenTooWide` and `Paths.BishopWalkLeavesBoard` state what it answers |
| Paths.ClearPath | Chess.py:178-235 | no contract of its own: the straight part for a rook or queen, then the diagonal part for a bishop or queen; `Paths.PathObstruction` states what it answers |
| Paths.DiagonalWalkMeaning | Chess.py:203-235 | along a diagonal the four direction loops never fail, and are blocked iff a square strictly between holds a piece |
| Paths.PathObstruction | Chess.py:178-235 | for a rook or queen on a line, or a bishop or queen on a diagonal, `clear_path` is false exactly when the path is obstructed |
| Paths.RookPathNeverFails | Chess.py:183-200 | `clear_path("rook")` never looks up a missing key |
| Paths.PathFailsOnlyWhenTooWide | Chess.py:203-235 | a failing lookup happens only for a bishop or queen whose file distance exceeds its rank distance by two or more |
| Paths.BishopWalkLeavesBoard | Chess.py:209-215 | a bishop on a7 aiming at h8, with b8 empty, makes `clear_path` look up c9 |
| Chess.Board.DiagonalLoop | Chess.py:209-235 | one diagonal loop of `clear_path`, on the board's squares, returns the walk of that direction |
| Chess.Board.ClearPath | Chess.py:178-235 | the loops of `clear_path`, on the board's squares, compute `Paths.ClearPath` |
| Rules.DisallowCastle | Chess.py:344-363 | flags only go from true to false, and the other colour's are untouched; a king clears both of its colour, a rook only the named side |
| Chess.Board.DisallowCastle | Chess.py:344-363 | updates the four flag fields as `Rules.DisallowCastle` and nothing else |
| Rules.Castle | Chess.py:365-423 | a refused castle changes nothing; a successful one was aimed at b1, c1, g1, b8, c8 or g8; only a1, d1, f1, h1, f8 and h8 can change |
| Chess.Board.Castle | Chess.py:365-423 | updates the squares as `Rules.Castle` and changes no other field |
| Rules.AllowedPieceMove | Chess.py:237-342 | sq1, sq2, the turn and the selection stay; a refusal or an exception changes nothing; flags are only cleared |
| Chess.Board.AllowedPieceMove | Chess.py:237-342 | answers and updates the fields as `Rules.AllowedPieceMove` |
| Moves.KnightShape | Chess.py:262-268 | a knight is accepted iff it moves two ranks and one file, or one rank and two files; nothing changes |
| Moves.BishopOnDiagonal | Chess.py:253-259 | a bishop moving along a diagonal is accepted iff the squares between are empty |
| Moves.BishopOffDiagonal | Chess.py:253-259 | a bishop is never accepted off its diagonals, and fails with an exception only when the path walk leaves the board |
| Moves.RookMove | Chess.py:329-339 | a rook is accepted iff it moves along its file or rank over empty squares, and then clears the flag of its home square |
| Moves.RookHomeSquares | Chess.py:331-338 | leaving a1, h1, a8 or h8 clears long white, short white, long black or short black, whichever colour the rook is |
| Moves.QueenMove | Chess.py:320-326 | a queen is accepted along a file, rank or diagonal iff the squares between are empty, and never elsewhere |
| Moves.KingStep | Chess.py:273-280 | a king's step to an adjacent square is accepted whatever stands there, and clears both flags of its colour |
| Moves.KingCastles | Chess.py:281-282 | any other king move is accepted iff `castle()` succeeds, for a king of either colour on any square, and clears no flag |
| Moves.WhitePawnMoves | Chess.py:287-300 | a white pawn goes one square up onto an empty square, two from rank 2 over an empty square, or captures diagonally up |
| Moves.BlackPawnMoves | Chess.py:305-316 | a black pawn goes one square down onto an empty square, two from rank 7, or captures diagonally down |
| Moves.PawnTwoStepAsymmetry | Chess.py:288-309 | the black two-step jumps over a piece on rank 6; the white two-step is stopped by a piece on rank 3 |
| Moves.PawnsGoForward | Chess.py:287-316 | an accepted pawn move goes one or two ranks forward and at most one file aside |
| Moves.AllowedChangesOnlyByCastle | Chess.py:237-342 | the board changes only through an accepted king move that `castle()` made, aimed at a castling square |
| Moves.WhiteShortCastle | Chess.py:381-390 | with the flag set and sq2 = g1, castling succeeds iff f1 is empty, and moves the h1 rook to f1 |
| Moves.WhiteLongCastle | Chess.py:391-401 | sq2 = b1, or c1 with the flag, castles iff b1 is empty, and moves the a1 rook to d1 |
| Moves.BlackShortCastle | Chess.py:402-411 | with the flag set and sq2 = g8, castling succeeds iff f8 is empty, and moves the h8 rook to f8 |
| Moves.BlackLongCastle | Chess.py:412-421 | sq2 = b8, or c8 with the flag, tests f8 and moves the h8 rook to f8, as the short castle does |
| Moves.CastleNeedsFlag | Chess.py:381-423 | without its flag, sq2 = g1, c1, g8 or c8 never castles |
| Moves.KingOnD1CastlesIntoRook | Chess.py:391-401 | a king on d1 clicked to b1 castles, and `castle()` leaves a white rook on d1 and a1 empty |
| Rules.FriendlyFire | Chess.py:170-176 | true iff sq2 shows a piece whose colour is `piece_color` |
| Chess.Board.FriendlyFire | Chess.py:170-176 | true iff the board's square sq2 shows a piece whose colour is `piece_color` (as `Rules.FriendlyFire` of the fields) |
| Rules.FindKingFrom | Chess.py:472-481 | the result is the first square in iteration order that shows the king; None means no square does |
| Chess.Board.FindKing | Chess.py:472-481 | the loop over the squares returns what `Rules.FindKing` does |
| Rules.Scan | Chess.py:449-466 | the probes change only sq1, the board and the flags, and flags only go to false; a scan that finds nothing restores sq1 and sq2; a scan ended by a probe keeps sq2 on the king's square |
| Rules.InCheck | Chess.py:425-470 | the turn and selection stay and flags are only cleared; a false answer leaves every field as it was; a true answer or an exception leaves sq2 on the square `find_king` gives |
| Rules.FindKing | Chess.py:472-481 | the square found holds that king and no earlier square in iteration order does; None means no square holds it |
| Rules.RookRights | Chess.py:331-338 | a rook move only clears flags; which flag each home square clears is `Moves.RookHomeSquares` |
| Game.ScanMeaning | Chess.py:449-466 | the scan answers false exactly when `allowed_piece_move`, with sq1 on the square, refuses every piece of the other colour from that index on |
| Game.ScanFirstAttacker | Chess.py:449-466 | a scan that answers true or raises ends with the answer and the state of the first piece of the other colour, in iteration order, that is not refused |
| Game.InCheckMeaning | Chess.py:446-470 | `in_check` answers false exactly when, with sq2 on the mover's king, `allowed_piece_move` refuses every piece of the other colour |
| Game.InCheckFirstAttacker | Chess.py:446-466 | a true answer or an exception of `in_check` is that of the probe of the first piece of the other colour that is not refused |
| Chess.Board.InCheck | Chess.py:425-470 | the loop over the squares answers and updates the fields as `Rules.InCheck` |
| Chess.Board.ApplyMove | Chess.py:92-120 | the tentative move, the rollback and the commit update the fields as `Rules.ApplyMove` |
| Chess.Board.SelectPiece | Chess.py:68-124 | one click updates the fields as `Rules.SelectPiece` |
| Rules.GeneratePromoPiece | Chess.py:131-138 | the chosen piece replaces what sq2 shows, and nothing else changes |
| Chess.Board.GeneratePromoPiece | Chess.py:131-138 | updates the square of sq2 as `Rules.GeneratePromoPiece` |
| Rules.Initial | Chess.py:50-64 | well-formedness only (a valid state); `Game.StartingKings` and `Game.OpeningClick` state what the opening position does, `Rules.StartingPosition` what it holds |
| Rules.SelectPiece | Chess.py:68-124 | well-formedness only (a valid state); its meaning is in `Game.FirstClick`, `Game.SameSquareDeselects`, `Game.TurnsCountCommits`, `Game.CommittedMove`, `Game.RollbackRestores`, `Game.MoverNotLeftInCheck` and `Game.KingSafeAfterCommit` |
| Rules.SecondClick | Chess.py:84-120 | well-formedness only (a valid state); `Game.TentativeMove` states when it reaches the tentative move |
| Rules.ApplyMove | Chess.py:92-120 | well-formedness only (a valid state); `Game.CommittedApply`, `Game.RolledBackApply` and `Game.ApplyMoveDecision` state what it does |
| Rules.WhitePawnMove | Chess.py:287-300 | no contract of its own: the three white pawn conditions; `Moves.WhitePawnMoves` and `Moves.PawnsGoForward` state what they accept |
| Rules.BlackPawnMove | Chess.py:305-316 | no contract of its own: the three black pawn conditions; `Moves.BlackPawnMoves`, `Moves.PawnsGoForward` and `Moves.PawnTwoStepAsymmetry` state what they accept |
| Rules.StartingPosition | Chess.py:529-572 | the 64 squares show the starting layout: back ranks r n b q k b n r, pawns on ranks 2 and 7, ranks 3 to 6 empty |
| Chess.Board.constructor | Chess.py:27-66 | a new board is in the starting state: layout set, no click pending, turn 0, every flag true |
| Game.FirstClick | Chess.py:71-124 | a first click selects iff it is the turn of the clicked piece's colour, or of the colour left from before when the square is empty; otherwise it is ignored |
| Game.SameSquareDeselects | Chess.py:86-90 | clicking the selected square again drops the selection and changes nothing else |
| Game.TurnsCountCommits | Chess.py:68-124 | the turn counter goes up by one exactly when a click commits a move |
| Game.SelectionAfterSecondClick | Chess.py:92-124 | a commit or a rollback ends the selection; a refused move leaves it pending on the same square |
| Game.RightsOnlyCleared | Chess.py:68-124 | no click sets a castling flag back to true, whatever the probes of `in_check` do |
| Game.EmptySelectionIsStuck | Chess.py:249-250 | once an empty square is selected, every other square is refused and the board stays |
| Game.CastleKeepsTarget | Chess.py:365-423 | `castle()` never changes the square it aims at |
| Game.AllowedKeepsSquares | Chess.py:237-342 | `allowed_piece_move` changes no square outside a1, d1, f1, h1, f8 and h8, and never sq2 |
| Game.PendingClick | Chess.py:85-87 | with a selection pending, a click is handled as the second click |
| Game.TentativeMove | Chess.py:92-105 | the tentative move happens only after an accepted move that is not friendly fire |
| Game.CommittedApply | Chess.py:100-120 | a committed move puts the piece from sq1 on sq2, empties sq1, adds one turn, ends the selection, and opens promotion iff a pawn reached its last rank |
| Game.CommittedMove | Chess.py:68-124 | a committed click empties the selected square and never lands on a piece of the mover's colour; unless a king on a rook square had its own square rewritten by `castle()`, the selected piece is what arrives on the clicked square and promotion is due iff a pawn reached its last rank |
| Game.AllowedIgnoresCounters | Chess.py:237-342 | `allowed_piece_move` does not depend on the turn counter or the click count |
| Game.ScanIgnoresCounters | Chess.py:449-466 | nor does the scan of `in_check`; a step of `Game.MoverNotLeftInCheck` |
| Game.InCheckIgnoresCounters | Chess.py:425-470 | nor does `in_check`, so its answer survives the counter update after the commit; a step of `Game.MoverNotLeftInCheck` |
| Game.MoverNotLeftInCheck | Chess.py:106-120 | after a committed move, `in_check` for the side that moved answers false and changes nothing |
| Game.KingSafeAfterCommit | Chess.py:106-120 | after a committed move, `allowed_piece_move` refuses every piece of the other colour aimed at the mover's king |
| Game.ApplyMoveDecision | Chess.py:106-120 | the tentative move is kept exactly when no piece of the other colour may go to the mover's king; otherwise the first one that is not refused decides between rollback (allowed) and exception (raised) |
| Game.OpposingKingProbeCastles | Chess.py:381-390 | a black king's probe aimed at a white king on g1, with the short white flag set and f1 empty, is allowed and castles the white rook to f1 |
| Game.RolledBackApply | Chess.py:106-112 | a rollback follows an `in_check` that answered true, puts back what sq1 and sq2 showed, keeps the turn and ends the selection |
| Game.AllowedBoard | Chess.py:237-342 | `allowed_piece_move` leaves the board as it was, or as one `castle()` for sq2 leaves it |
| Game.ScanBoard | Chess.py:451-467 | the scan of `in_check` leaves the board as it was, or as one `castle()` for sq2 leaves it |
| Game.InCheckBoard | Chess.py:425-470 | `in_check` leaves the board as it was, or as one `castle()` aimed at the king's square leaves it |
| Game.InCheckKeepsSquares | Chess.py:425-470 | `in_check` changes no square outside a1, d1, f1, h1, f8 and h8 |
| Game.RollbackRestores | Chess.py:106-112 | an undone move restores the clicked square, and the selected square unless a king on a rook square had it rewritten by `castle()`; other non-rook squares never change, the turn stays, and the selection ends |
| Game.CastleKeepsF1 | Chess.py:365-423 | with f1 occupied, no `castle()` changes f1 or h1 |
| Game.RookStaysOnF1 | Chess.py:106-112 | a rook on f1 with h1 empty stays so through a rollback elsewhere |
| Game.CastleSurvivesRollback | Chess.py:106-112 | a white king not next to g1 (e1 included) that castles short and is then undone leaves the rook on f1 and h1 empty |
| Game.PromotionReplacesPawn | Chess.py:116-138 | a promotion leaves sq2 on the pawn's square; the chosen piece then replaces that pawn and nothing else |
| Game.BackRankKing | Chess.py:536-544 | on a back rank the king stands on file e only |
| Game.OnlyKing | Chess.py:472-481 | if exactly one square shows the king, `find_king` finds that square |
| Game.StartingKingSquares | Chess.py:536-544 | in the starting layout, a white king stands on e1 only and a black king on e8 only |
| Game.StartingKings | Chess.py:472-481 | in the starting layout `find_king` finds the white king on e1 and the black king on e8 |
| Game.OpeningClick | Chess.py:71-124 | the first click of a game selects exactly the squares of ranks 1 and 2 |

## Left out

- The GUI (frame, colours, tkinter buttons and windows), image loading (`import_pieces`), and the
  building of the 64 buttons (`set_squares`) are not modelled. Only the order in which
  `set_squares` inserts squares into the dictionary is kept; it is the order of `SquareAt`.
- The promotion window (`promotion_menu`, `display_promo_menu`, its nested `mainloop`) is not
  modelled. `Rules.GeneratePromoPiece` is called with the chosen piece, and
  `Pieces.PromotionChoices` lists what the menu offers.
- The resign, draw and new-game buttons are not modelled: they rebuild the buttons through GUI code.
- En passant, castling out of or through check, checkmate and stalemate are not modelled,
  because the program does not implement them.
- `sq1_button` and `sq2_button` are not separate fields. The model reads the image of
  `squares[sq1]` and `squares[sq2]`, which is what those buttons show. During the probes
  of `in_check`, `sq2_button` is still the clicked square's button. After the tentative
  move that square shows the moved piece, and the king's square is occupied too, so the
  pawn tests give the same answers.
- Exceptions (`KeyError` off the board, `TypeError` when `find_king` finds no king) are not
  raised. They become the answer `Raises` and the click `Raised`, and the state stays as it
  was at the moment of the exception. Tkinter's reporting of the exception is not modelled.
- Chess.Board.Castle: each of the loops in `castle()` returns in its first iteration, so
  the method tests the one square that loop looks at, without a loop.
- `piece_color` starts as `None`, the model's `None`. A first click on an empty square
  keeps the colour left over from before.
