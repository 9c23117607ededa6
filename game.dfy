/**
 * Properties of a whole click of select_piece: whose turn it is, when a move
 * is committed, undone or refused, what a rollback restores, and the
 * starting position.
 */
module Game {
  import opened Wrappers
  import opened Pieces
  import opened Rules
  import Moves

  /** A click that moved a piece for good. */
  predicate Committed(c: Click) {
    c == Moved || c == PromotionPending
  }

  /**
   * The first click selects the square iff it is the turn of the clicked
   * piece's colour, or of the colour left over from before when the square
   * is empty; nothing but the selection fields changes.
   */
  lemma FirstClick(st: State, b: Square)
    requires Valid(st) && OnBoard(b) && st.pressed == 0
    ensures var c := if st.squares[b].Piece? then Some(st.squares[b].color) else st.color;
            var res := SelectPiece(st, b);
            && (res.0 == Selected <==> TurnOf(c, st.turns))
            && (res.0 == Selected || res.0 == Ignored)
            && res.1 == st.(color := c, sq1 := if res.0 == Selected then Some(b) else st.sq1,
                            pressed := if res.0 == Selected then 1 else 0)
  {
  }

  /** Clicking the selected square again drops the selection and changes nothing else. */
  lemma SameSquareDeselects(st: State, b: Square)
    requires Valid(st) && OnBoard(b) && st.pressed == 1 && st.sq1 == Some(b)
    ensures SelectPiece(st, b) == (Deselected, st.(sq2 := Some(b), pressed := 0))
  {
  }

  /** The turn counter goes up by one exactly when a click commits a move. */
  lemma TurnsCountCommits(st: State, b: Square)
    requires Valid(st) && OnBoard(b)
    ensures var res := SelectPiece(st, b);
            res.1.turns == st.turns + (if Committed(res.0) then 1 else 0)
  {
  }

  /** A committed move or a rollback ends the selection; a refused one leaves it pending on the same square. */
  lemma SelectionAfterSecondClick(st: State, b: Square)
    requires Valid(st) && OnBoard(b)
    ensures var res := SelectPiece(st, b);
            && (Committed(res.0) || res.0 == RolledBack ==> res.1.pressed == 0)
            && (res.0 == Refused ==> res.1.pressed == 1 && res.1.sq1 == st.sq1 && res.1.sq2 == Some(b))
  {
  }

  /** Castling flags are only ever cleared, whatever a click does, probes of in_check included. */
  lemma RightsOnlyCleared(st: State, b: Square)
    requires Valid(st) && OnBoard(b)
    ensures RightsWithin(SelectPiece(st, b).1.rights, st.rights)
  {
  }

  /**
   * An empty square that got selected can never be moved: every other
   * square is refused, and the board stays as it was.
   */
  lemma EmptySelectionIsStuck(st: State, b: Square)
    requires Valid(st) && OnBoard(b) && st.pressed == 1 && st.squares[st.sq1.value] == Empty
    requires st.sq1 != Some(b)
    ensures SelectPiece(st, b) == (Refused, st.(sq2 := Some(b)))
  {
  }

  /** castle() never changes the square it aims at. */
  lemma CastleKeepsTarget(b: map<Square, Piece>, r: Rights, target: Square)
    requires ValidBoard(b) && OnBoard(target)
    ensures Castle(b, r, target).1[target] == b[target]
  {
  }

  /**
   * allowed_piece_move changes no square outside a1, d1, f1, h1, f8 and h8,
   * and never the square sq2 names.
   */
  lemma AllowedKeepsSquares(st: State)
    requires WellFormed(st) && st.sq1.Some?
    ensures forall s :: OnBoard(s) && s !in RookSquares ==> AllowedPieceMove(st).1.squares[s] == st.squares[s]
    ensures st.sq2.Some? ==> AllowedPieceMove(st).1.squares[st.sq2.value] == st.squares[st.sq2.value]
  {
    if st.sq2.Some? {
      CastleKeepsTarget(st.squares, st.rights, st.sq2.value);
    }
  }

  /** Once a selection is pending, a click is the second click of select_piece. */
  lemma PendingClick(st: State, b: Square)
    requires Valid(st) && OnBoard(b) && st.pressed == 1
    ensures SelectPiece(st, b) == SecondClick(st.(sq2 := Some(b)), b)
  {
  }

  /** A second click reaches the tentative move only through an accepted move that is not friendly fire. */
  lemma TentativeMove(st2: State, b: Square)
    requires WellFormed(st2) && OnBoard(b) && st2.sq1.Some? && st2.sq2 == Some(b) && st2.pressed == 1
    requires st2.color.Some?
    ensures var res := SecondClick(st2, b);
            var allowed := AllowedPieceMove(st2);
            Committed(res.0) || res.0 == RolledBack ==>
              && st2.sq1 != Some(b) && allowed.0 == Yes && !FriendlyFire(allowed.1)
              && res == ApplyMove(allowed.1, st2.sq1.value, b)
  {
  }

  /** What a committed tentative move leaves behind. */
  lemma CommittedApply(st3: State, from: Square, b: Square)
    requires WellFormed(st3) && OnBoard(from) && OnBoard(b) && st3.sq1 == Some(from) && st3.pressed == 1
    requires st3.color.Some? && st3.sq2 == Some(b) && from != b
    ensures var res := ApplyMove(st3, from, b);
            Committed(res.0) ==>
              && res.1.squares == st3.squares[b := st3.squares[from]][from := Empty]
              && (res.0 == PromotionPending <==> PromotionDue(st3.squares[from], b))
              && res.1 == st3.(squares := res.1.squares, turns := st3.turns + 1, pressed := 0)
  {
  }

  /**
   * A committed move takes the piece from sq1 to b, empties sq1, and never
   * lands on a piece of the mover's own colour; a promotion is due iff a
   * white pawn reached rank 8 or a black pawn rank 1. (A king on d1, a1 or
   * h8 may have its own square rewritten by castle(); the piece carried is
   * then what castle() left there.)
   */
  lemma CommittedMove(st: State, b: Square)
    requires Valid(st) && OnBoard(b) && st.pressed == 1
    ensures var res := SelectPiece(st, b);
            var from := st.sq1.value;
            Committed(res.0) ==>
              && from != b
              && (!(from in RookSquares && st.squares[from].Piece? && st.squares[from].kind == King) ==> res.1.squares[b] == st.squares[from])
              && res.1.squares[from] == Empty
              && !(st.squares[b].Piece? && st.color == Some(st.squares[b].color))
              && (!(from in RookSquares && st.squares[from].Piece? && st.squares[from].kind == King) ==> (res.0 == PromotionPending <==> PromotionDue(st.squares[from], b)))
              && res.1.sq1 == st.sq1 && res.1.sq2 == Some(b) && res.1.color == st.color
  {
    var res := SelectPiece(st, b);
    if Committed(res.0) {
      var from := st.sq1.value;
      var st2 := st.(sq2 := Some(b));
      PendingClick(st, b);
      TentativeMove(st2, b);
      var st3 := AllowedPieceMove(st2).1;
      AllowedKeepsSquares(st2);
      Moves.AllowedChangesOnlyByCastle(st2);
      CommittedApply(st3, from, b);
    }
  }

  /**
   * allowed_piece_move does not look at the turn counter or the click count.
   * With the two lemmas below it carries MoverNotLeftInCheck across the
   * counter update that select_piece makes after the in_check call.
   */
  lemma AllowedIgnoresCounters(st: State, t: nat, pr: nat)
    requires WellFormed(st) && st.sq1.Some?
    ensures var r := AllowedPieceMove(st);
            AllowedPieceMove(st.(turns := t, pressed := pr)) == (r.0, r.1.(turns := t, pressed := pr))
  {
    var p := st.squares[st.sq1.value];
    if p.Piece? && st.sq2.Some? {
      match p.kind
      case Bishop =>
      case Knight =>
      case King =>
      case Pawn =>
      case Queen =>
      case Rook =>
    }
  }

  /** Nor does the scan of in_check (a step of MoverNotLeftInCheck). */
  lemma {:induction false} ScanIgnoresCounters(st: State, mover: Color, i: nat, prev1: Option<Square>, prev2: Option<Square>,
                                               t: nat, pr: nat)
    requires WellFormed(st) && i <= 64
    requires (prev1.Some? ==> OnBoard(prev1.value)) && (prev2.Some? ==> OnBoard(prev2.value))
    ensures var r := Scan(st, mover, i, prev1, prev2);
            Scan(st.(turns := t, pressed := pr), mover, i, prev1, prev2) == (r.0, r.1.(turns := t, pressed := pr))
    decreases 64 - i
  {
    if i < 64 {
      var probe := st.(sq1 := Some(SquareAt(i)));
      var st' := st.(turns := t, pressed := pr);
      assert st'.(sq1 := Some(SquareAt(i))) == probe.(turns := t, pressed := pr);
      var p := st.squares[SquareAt(i)];
      if p.Piece? && p.color != mover {
        AllowedIgnoresCounters(probe, t, pr);
        if AllowedPieceMove(probe).0 == No {
          ScanIgnoresCounters(probe, mover, i + 1, prev1, prev2, t, pr);
        }
      } else {
        ScanIgnoresCounters(probe, mover, i + 1, prev1, prev2, t, pr);
      }
    }
  }

  /**
   * Nor does in_check: the answer it gave before select_piece bumped turns and
   * reset the click count is the answer it gives after (a step of MoverNotLeftInCheck).
   */
  lemma InCheckIgnoresCounters(st: State, t: nat, pr: nat)
    requires WellFormed(st)
    ensures var r := InCheck(st);
            InCheck(st.(turns := t, pressed := pr)) == (r.0, r.1.(turns := t, pressed := pr))
  {
    if st.color.Some? {
      var c := st.color.value;
      var probe := st.(sq2 := FindKing(st.squares, c));
      ScanIgnoresCounters(probe, c, 0, st.sq1, st.sq2, t, pr);
      assert st.(turns := t, pressed := pr).(sq2 := FindKing(st.squares, c)) == probe.(turns := t, pressed := pr);
    }
  }

  /** After a committed move, in_check for the side that moved finds nothing. */
  lemma MoverNotLeftInCheck(st: State, b: Square)
    requires Valid(st) && OnBoard(b)
    ensures var res := SelectPiece(st, b);
            Committed(res.0) ==> InCheck(res.1) == (No, res.1)
  {
    var res := SelectPiece(st, b);
    if Committed(res.0) {
      var st2 := st.(sq2 := Some(b));
      PendingClick(st, b);
      TentativeMove(st2, b);
      var st3 := AllowedPieceMove(st2).1;
      var from := st2.sq1.value;
      var st4 := st3.(squares := st3.squares[b := st3.squares[from]][from := Empty]);
      assert InCheck(st4) == (No, st4);
      InCheckIgnoresCounters(st4, st4.turns + 1, 0);
      assert res.1 == st4.(turns := st4.turns + 1, pressed := 0);
    }
  }

  /** The j-th square in iteration order holds a piece that is not of the mover's colour. */
  predicate Opponent(st: State, mover: Color, j: nat)
    requires WellFormed(st) && j < 64
  {
    st.squares[SquareAt(j)].Piece? && st.squares[SquareAt(j)].color != mover
  }

  /**
   * The opposing piece on the j-th square is the first one from index i on
   * that allowed_piece_move does not refuse.
   */
  predicate FirstAttacker(st: State, mover: Color, i: nat, j: nat)
    requires WellFormed(st) && i <= j < 64
  {
    && Opponent(st, mover, j)
    && AllowedPieceMove(st.(sq1 := Some(SquareAt(j)))).0 != No
    && forall k :: i <= k < j && Opponent(st, mover, k) ==> AllowedPieceMove(st.(sq1 := Some(SquareAt(k)))).0 == No
  }

  /**
   * What the scan of in_check answers: No exactly when every opposing piece
   * from index i on is refused by allowed_piece_move with sq1 on its square.
   */
  lemma {:induction false} ScanMeaning(st: State, mover: Color, i: nat, prev1: Option<Square>, prev2: Option<Square>)
    requires WellFormed(st) && i <= 64
    requires (prev1.Some? ==> OnBoard(prev1.value)) && (prev2.Some? ==> OnBoard(prev2.value))
    ensures Scan(st, mover, i, prev1, prev2).0 == No <==>
            forall j :: i <= j < 64 && Opponent(st, mover, j) ==> AllowedPieceMove(st.(sq1 := Some(SquareAt(j)))).0 == No
    decreases 64 - i
  {
    if i < 64 {
      var probe := st.(sq1 := Some(SquareAt(i)));
      ScanMeaning(probe, mover, i + 1, prev1, prev2);
      assert forall j | 0 <= j < 64 :: probe.(sq1 := Some(SquareAt(j))) == st.(sq1 := Some(SquareAt(j)));
    }
  }

  /** A piece refused at index i does not stop a later one being the first attacker. */
  lemma FirstAttackerEarlier(st: State, mover: Color, i: nat, j: nat)
    requires WellFormed(st) && i < j < 64
    requires FirstAttacker(st.(sq1 := Some(SquareAt(i))), mover, i + 1, j)
    requires Opponent(st, mover, i) ==> AllowedPieceMove(st.(sq1 := Some(SquareAt(i)))).0 == No
    ensures FirstAttacker(st, mover, i, j)
    ensures AllowedPieceMove(st.(sq1 := Some(SquareAt(i))).(sq1 := Some(SquareAt(j)))) == AllowedPieceMove(st.(sq1 := Some(SquareAt(j))))
  {
    var probe := st.(sq1 := Some(SquareAt(i)));
    assert forall k | 0 <= k < 64 :: probe.(sq1 := Some(SquareAt(k))) == st.(sq1 := Some(SquareAt(k)));
  }

  /**
   * A scan that answers Yes or raises ends with the answer and the state of
   * the first opposing piece in iteration order that is not refused; j is its index.
   */
  lemma {:induction false} ScanFirstAttacker(st: State, mover: Color, i: nat, prev1: Option<Square>, prev2: Option<Square>)
    returns (j: nat)
    requires WellFormed(st) && i <= 64
    requires (prev1.Some? ==> OnBoard(prev1.value)) && (prev2.Some? ==> OnBoard(prev2.value))
    ensures Scan(st, mover, i, prev1, prev2).0 != No ==>
            i <= j < 64 && FirstAttacker(st, mover, i, j) &&
            Scan(st, mover, i, prev1, prev2) == AllowedPieceMove(st.(sq1 := Some(SquareAt(j))))
    decreases 64 - i
  {
    j := i;
    if i < 64 {
      var probe := st.(sq1 := Some(SquareAt(i)));
      if !Opponent(st, mover, i) || AllowedPieceMove(probe).0 == No {
        j := ScanFirstAttacker(probe, mover, i + 1, prev1, prev2);
        if Scan(probe, mover, i + 1, prev1, prev2).0 != No {
          FirstAttackerEarlier(st, mover, i, j);
        }
      }
    }
  }

  /**
   * What in_check answers: with sq2 on the mover's king (or None when there is
   * none), No exactly when allowed_piece_move refuses every opposing piece.
   */
  lemma InCheckMeaning(st: State)
    requires WellFormed(st) && st.color.Some?
    ensures var c := st.color.value;
            var at := st.(sq2 := FindKing(st.squares, c));
            InCheck(st).0 == No <==>
            forall j :: 0 <= j < 64 && Opponent(st, c, j) ==> AllowedPieceMove(at.(sq1 := Some(SquareAt(j)))).0 == No
  {
    var c := st.color.value;
    var at := st.(sq2 := FindKing(st.squares, c));
    ScanMeaning(at, c, 0, st.sq1, st.sq2);
    assert forall j | 0 <= j < 64 :: Opponent(at, c, j) == Opponent(st, c, j);
  }

  /**
   * An in_check that answers Yes or raises does so with the answer and the
   * state of the probe of the first opposing piece that is not refused.
   */
  lemma InCheckFirstAttacker(st: State) returns (j: nat)
    requires WellFormed(st)
    ensures var res := InCheck(st);
            res.0 != No ==>
              && st.color.Some? && j < 64
              && FirstAttacker(st.(sq2 := FindKing(st.squares, st.color.value)), st.color.value, 0, j)
              && res == AllowedPieceMove(st.(sq2 := FindKing(st.squares, st.color.value), sq1 := Some(SquareAt(j))))
  {
    j := 0;
    if st.color.Some? {
      var c := st.color.value;
      j := ScanFirstAttacker(st.(sq2 := FindKing(st.squares, c)), c, 0, st.sq1, st.sq2);
    }
  }

  /**
   * The decision of the tentative move: it is kept exactly when no opposing
   * piece could reach the mover's king on the tentative board; otherwise the
   * first opposing piece that is not refused decides between the rollback
   * (it is allowed) and the exception (its probe raises).
   */
  lemma ApplyMoveDecision(st3: State, from: Square, b: Square) returns (j: nat)
    requires WellFormed(st3) && OnBoard(from) && OnBoard(b) && st3.sq1 == Some(from) && st3.pressed == 1
    requires st3.color.Some?
    ensures var st4 := st3.(squares := st3.squares[b := st3.squares[from]][from := Empty]);
            var c := st3.color.value;
            var at := st4.(sq2 := FindKing(st4.squares, c));
            var res := ApplyMove(st3, from, b);
            && (Committed(res.0) <==>
                forall k :: 0 <= k < 64 && Opponent(st4, c, k) ==> AllowedPieceMove(at.(sq1 := Some(SquareAt(k)))).0 == No)
            && (!Committed(res.0) ==>
                && j < 64 && FirstAttacker(at, c, 0, j)
                && (res.0 == RolledBack <==> AllowedPieceMove(at.(sq1 := Some(SquareAt(j)))).0 == Yes)
                && (res.0 == Raised <==> AllowedPieceMove(at.(sq1 := Some(SquareAt(j)))).0 == Raises))
  {
    var st4 := st3.(squares := st3.squares[b := st3.squares[from]][from := Empty]);
    InCheckMeaning(st4);
    j := InCheckFirstAttacker(st4);
  }

  /**
   * After a committed move no opposing piece may go to the mover's king:
   * allowed_piece_move refuses each of them with sq2 on that king.
   */
  lemma KingSafeAfterCommit(st: State, b: Square)
    requires Valid(st) && OnBoard(b)
    ensures var res := SelectPiece(st, b);
            Committed(res.0) ==>
              && res.1.color.Some?
              && var c := res.1.color.value;
                 forall j :: 0 <= j < 64 && Opponent(res.1, c, j) ==>
                   AllowedPieceMove(res.1.(sq2 := FindKing(res.1.squares, c), sq1 := Some(SquareAt(j)))).0 == No
  {
    var res := SelectPiece(st, b);
    if Committed(res.0) {
      MoverNotLeftInCheck(st, b);
      PendingClick(st, b);
      assert res.1.color.Some?;
      InCheckMeaning(res.1);
    }
  }

  /**
   * The probe of in_check for an opposing king castles: with the white king
   * on g1 as sq2, the short flag set and f1 empty, a black king that is not
   * next to g1 is accepted by allowed_piece_move, which puts a white rook on
   * f1 and empties h1.
   */
  lemma OpposingKingProbeCastles(st: State, k: Square)
    requires WellFormed(st) && OnBoard(k) && st.sq1 == Some(k) && st.sq2 == Some(G1)
    requires st.squares[k] == Piece(Black, King) && !(Abs(k.rank - 1) < 2 && Abs(k.file - 6) < 2)
    requires st.rights.shortWhite && st.squares[F1] == Empty
    ensures AllowedPieceMove(st) == (Yes, st.(squares := st.squares[H1 := Empty][F1 := Piece(White, Rook)]))
  {
    Moves.KingCastles(st);
    Moves.WhiteShortCastle(st.squares, st.rights);
  }

  /** What a tentative move that in_check rejects leaves behind. */
  lemma RolledBackApply(st3: State, from: Square, b: Square)
    requires WellFormed(st3) && OnBoard(from) && OnBoard(b) && st3.sq1 == Some(from) && st3.pressed == 1
    requires st3.color.Some? && from != b
    ensures var res := ApplyMove(st3, from, b);
            var st4 := st3.(squares := st3.squares[b := st3.squares[from]][from := Empty]);
            res.0 == RolledBack ==>
              && InCheck(st4).0 == Yes
              && res.1.squares == InCheck(st4).1.squares[b := st3.squares[b]][from := st3.squares[from]]
              && res.1.turns == st3.turns && res.1.pressed == 0
  {
  }


  /** allowed_piece_move leaves the board as it was or as castle() for sq2 leaves it. */
  lemma AllowedBoard(st: State)
    requires WellFormed(st) && st.sq1.Some?
    ensures var r := AllowedPieceMove(st).1;
            r.squares == st.squares || (st.sq2.Some? && r.squares == Castle(st.squares, st.rights, st.sq2.value).1)
  {
  }

  /**
   * The scan of in_check leaves the board as it was or as one castle() for
   * sq2 leaves it: the probe that ends the scan sees the board and the flags
   * the scan started with.
   */
  lemma {:induction false} ScanBoard(st: State, mover: Color, i: nat, prev1: Option<Square>, prev2: Option<Square>)
    requires WellFormed(st) && i <= 64
    requires (prev1.Some? ==> OnBoard(prev1.value)) && (prev2.Some? ==> OnBoard(prev2.value))
    ensures var r := Scan(st, mover, i, prev1, prev2).1;
            r.squares == st.squares || (st.sq2.Some? && r.squares == Castle(st.squares, st.rights, st.sq2.value).1)
    decreases 64 - i
  {
    if i < 64 {
      var probe := st.(sq1 := Some(SquareAt(i)));
      var p := st.squares[SquareAt(i)];
      if p.Piece? && p.color != mover && AllowedPieceMove(probe).0 != No {
        AllowedBoard(probe);
      } else {
        ScanBoard(probe, mover, i + 1, prev1, prev2);
      }
    }
  }

  /** in_check itself: the board stays, or the king's square is the target of one castle(). */
  lemma InCheckBoard(st: State)
    requires WellFormed(st)
    ensures var r := InCheck(st).1;
            || r.squares == st.squares
            || (&& st.color.Some? && FindKing(st.squares, st.color.value).Some?
                && r.squares == Castle(st.squares, st.rights, FindKing(st.squares, st.color.value).value).1)
  {
    if st.color.Some? {
      var c := st.color.value;
      ScanBoard(st.(sq2 := FindKing(st.squares, c)), c, 0, st.sq1, st.sq2);
    }
  }

  lemma InCheckKeepsSquares(st: State)
    requires WellFormed(st)
    ensures forall s :: OnBoard(s) && s !in RookSquares ==> InCheck(st).1.squares[s] == st.squares[s]
  {
    InCheckBoard(st);
  }

  /**
   * A move that would leave the mover's king attacked is undone: b and sq1
   * show again what they showed before the click (sq1 unless a king on a
   * rook square had it rewritten by castle()), the turn stays, and the
   * selection ends. Elsewhere, only the rook squares may differ, by a
   * castle() that is not undone.
   */
  lemma RollbackRestores(st: State, b: Square)
    requires Valid(st) && OnBoard(b) && st.pressed == 1
    ensures var res := SelectPiece(st, b);
            var from := st.sq1.value;
            res.0 == RolledBack ==>
              && res.1.squares[b] == st.squares[b]
              && (!(from in RookSquares && st.squares[from].Piece? && st.squares[from].kind == King) ==> res.1.squares[from] == st.squares[from])
              && (forall s :: OnBoard(s) && s !in RookSquares ==> res.1.squares[s] == st.squares[s])
              && res.1.turns == st.turns && res.1.pressed == 0
  {
    var res := SelectPiece(st, b);
    if res.0 == RolledBack {
      var from := st.sq1.value;
      var st2 := st.(sq2 := Some(b));
      PendingClick(st, b);
      TentativeMove(st2, b);
      var st3 := AllowedPieceMove(st2).1;
      AllowedKeepsSquares(st2);
      Moves.AllowedChangesOnlyByCastle(st2);
      RolledBackApply(st3, from, b);
      var st4 := st3.(squares := st3.squares[b := st3.squares[from]][from := Empty]);
      InCheckKeepsSquares(st4);
    }
  }

  /**
   * The rook that a castle() moved stays where it went when the move is
   * undone: a white king away from g1 (on e1, or anywhere else, since
   * castle() ignores the king's square) that castles short and is then
   * found in check leaves the rook on f1 and h1 empty.
   */
  lemma CastleSurvivesRollback(st: State)
    requires Valid(st) && st.pressed == 1
    requires st.squares[st.sq1.value] == Piece(White, King)
    requires !(Abs(st.sq1.value.rank - 1) < 2 && Abs(st.sq1.value.file - 6) < 2)
    requires st.rights.shortWhite && st.squares[F1] == Empty
    ensures var res := SelectPiece(st, G1);
            res.0 == RolledBack ==> res.1.squares[F1] == Piece(White, Rook) && res.1.squares[H1] == Empty
  {
    var res := SelectPiece(st, G1);
    if res.0 == RolledBack {
      var st2 := st.(sq2 := Some(G1));
      PendingClick(st, G1);
      TentativeMove(st2, G1);
      Moves.KingCastles(st2);
      Moves.WhiteShortCastle(st2.squares, st2.rights);
      RookStaysOnF1(AllowedPieceMove(st2).1, st.sq1.value, G1);
    }
  }

  /** Whatever in_check's probes do, a rook on f1 with h1 empty stays so through a rollback elsewhere. */
  lemma RookStaysOnF1(st3: State, from: Square, b: Square)
    requires WellFormed(st3) && OnBoard(from) && OnBoard(b) && st3.sq1 == Some(from) && st3.pressed == 1
    requires st3.color.Some? && from != b && from !in {F1, H1} && b !in {F1, H1}
    requires st3.squares[F1] == Piece(White, Rook) && st3.squares[H1] == Empty
    ensures var res := ApplyMove(st3, from, b);
            res.0 == RolledBack ==> res.1.squares[F1] == Piece(White, Rook) && res.1.squares[H1] == Empty
  {
    var res := ApplyMove(st3, from, b);
    if res.0 == RolledBack {
      RolledBackApply(st3, from, b);
      var st4 := st3.(squares := st3.squares[b := st3.squares[from]][from := Empty]);
      InCheckBoard(st4);
      if InCheck(st4).1.squares != st4.squares {
        CastleKeepsF1(st4.squares, st4.rights, FindKing(st4.squares, st4.color.value).value);
      }
    }
  }

  /** With f1 occupied, no castle() touches f1 or h1. */
  lemma CastleKeepsF1(b: map<Square, Piece>, r: Rights, target: Square)
    requires ValidBoard(b) && b[F1] != Empty
    ensures Castle(b, r, target).1[F1] == b[F1] && Castle(b, r, target).1[H1] == b[H1]
  {
  }

  /**
   * When a pawn reaches the last rank the move is committed with sq2 on it,
   * and the piece chosen in the menu then replaces the pawn on that square
   * and nothing else.
   */
  lemma PromotionReplacesPawn(st: State, b: Square, i: nat)
    requires Valid(st) && OnBoard(b) && st.pressed == 1 && i < 4
    ensures var res := SelectPiece(st, b);
            res.0 == PromotionPending ==>
              && res.1.sq2 == Some(b) && PromotionDue(res.1.squares[b], b)
              && var choice := PromotionChoices(res.1.squares[b].color)[i];
                 var after := GeneratePromoPiece(res.1, choice);
                 && after.squares[b] == choice && choice.kind != Pawn
                 && (forall s :: OnBoard(s) && s != b ==> after.squares[s] == res.1.squares[s])
  {
    var res := SelectPiece(st, b);
    if res.0 == PromotionPending {
      var st2 := st.(sq2 := Some(b));
      PendingClick(st, b);
      TentativeMove(st2, b);
      CommittedApply(AllowedPieceMove(st2).1, st.sq1.value, b);
    }
  }

  /** The back rank holds its king on file e only. */
  lemma BackRankKing(f: int)
    requires 0 <= f < 8
    ensures BackRank(f) == King <==> f == 4
  {
  }

  /** find_king finds the one square that shows the king of that colour. */
  lemma OnlyKing(b: map<Square, Piece>, c: Color, k: Square)
    requires ValidBoard(b) && OnBoard(k) && b[k] == Piece(c, King)
    requires forall s :: OnBoard(s) && b[s] == Piece(c, King) ==> s == k
    ensures FindKing(b, c) == Some(k)
  {
    assert b[SquareAt(IndexOf(k))] == Piece(c, King);
  }

  /** In the starting layout a king stands on e1 or e8 only. */
  lemma StartingKingSquares(s: Square)
    requires OnBoard(s)
    ensures StartPiece(s) == Piece(White, King) <==> s == E1
    ensures StartPiece(s) == Piece(Black, King) <==> s == E8
  {
    if s.rank == 1 || s.rank == 8 {
      BackRankKing(s.file);
    }
  }

  /** At the start, find_king finds the white king on e1 and the black king on e8. */
  lemma StartingKings(b: map<Square, Piece>, c: Color)
    requires ValidBoard(b) && forall s :: OnBoard(s) ==> b[s] == StartPiece(s)
    ensures FindKing(b, c) == Some(if c == White then E1 else E8)
  {
    var k := if c == White then E1 else E8;
    forall s | OnBoard(s) && b[s] == Piece(c, King)
      ensures s == k
    {
      StartingKingSquares(s);
    }
    OnlyKing(b, c, k);
  }

  /**
   * The first click of a game selects exactly the white pieces: black
   * pieces are not white's turn and an empty square has no colour yet.
   */
  lemma OpeningClick(b: Square)
    requires OnBoard(b)
    ensures SelectPiece(Initial(), b).0 == Selected <==> b.rank <= 2
  {
    FirstClick(Initial(), b);
  }
}
