/**
 * What allowed_piece_move accepts, piece by piece, and what it changes on the
 * way (castling flags, the castling rook).
 */
module Moves {
  import opened Wrappers
  import opened Pieces
  import opened Paths
  import opened Rules

  /** The piece on sq1 of a probe or a second click. */
  function Mover(st: State): Piece
    requires WellFormed(st) && st.sq1.Some?
  {
    st.squares[st.sq1.value]
  }

  /** A knight's move is accepted iff it is an L; nothing on the board is looked at and nothing changes. */
  lemma KnightShape(st: State)
    requires WellFormed(st) && st.sq1.Some? && st.sq2.Some?
    requires Mover(st).Piece? && Mover(st).kind == Knight
    ensures var dr, df := Abs(st.sq1.value.rank - st.sq2.value.rank), Abs(st.sq1.value.file - st.sq2.value.file);
            AllowedPieceMove(st) == (if (dr == 2 && df == 1) || (dr == 1 && df == 2) then Yes else No, st)
  {
  }

  /** A bishop moving along a diagonal is accepted iff no square strictly between is occupied. */
  lemma BishopOnDiagonal(st: State)
    requires WellFormed(st) && st.sq1.Some? && st.sq2.Some? && Diagonal(st.sq1.value, st.sq2.value)
    requires Mover(st).Piece? && Mover(st).kind == Bishop
    ensures AllowedPieceMove(st) == (if Obstructed(st.squares, st.sq1.value, st.sq2.value) then No else Yes, st)
  {
    PathObstruction(st.squares, Bishop, st.sq1.value, st.sq2.value);
  }

  /**
   * A bishop is never accepted off its diagonals; the lookup of an off-board
   * square happens only when the file distance exceeds the rank distance by
   * two or more.
   */
  lemma BishopOffDiagonal(st: State)
    requires WellFormed(st) && st.sq1.Some? && st.sq2.Some? && st.sq1 != st.sq2
    requires !Diagonal(st.sq1.value, st.sq2.value)
    requires Mover(st).Piece? && Mover(st).kind == Bishop
    ensures AllowedPieceMove(st).0 != Yes && AllowedPieceMove(st).1 == st
    ensures AllowedPieceMove(st).0 == Raises ==>
              Abs(st.sq1.value.file - st.sq2.value.file) > Abs(st.sq1.value.rank - st.sq2.value.rank) + 1
  {
    if AllowedPieceMove(st).0 == Raises {
      PathFailsOnlyWhenTooWide(st.squares, Bishop, st.sq1.value, st.sq2.value);
    }
  }

  /**
   * A rook is accepted iff it moves along its file or rank and no square
   * strictly between is occupied; leaving a1, h1, a8 or h8 clears the flag of
   * that square, whatever colour the rook is.
   */
  lemma RookMove(st: State)
    requires WellFormed(st) && st.sq1.Some? && st.sq2.Some? && st.sq1 != st.sq2
    requires Mover(st).Piece? && Mover(st).kind == Rook
    ensures var s1, s2 := st.sq1.value, st.sq2.value;
            AllowedPieceMove(st) ==
              if Straight(s1, s2) && !Obstructed(st.squares, s1, s2) then (Yes, st.(rights := RookRights(st.rights, s1)))
              else (No, st)
  {
    if Straight(st.sq1.value, st.sq2.value) {
      PathObstruction(st.squares, Rook, st.sq1.value, st.sq2.value);
    }
  }

  /** Which flag a rook move clears. */
  lemma RookHomeSquares(r: Rights, s1: Square)
    ensures s1 == A1 ==> RookRights(r, s1) == r.(longWhite := false)
    ensures s1 == H1 ==> RookRights(r, s1) == r.(shortWhite := false)
    ensures s1 == A8 ==> RookRights(r, s1) == r.(longBlack := false)
    ensures s1 == H8 ==> RookRights(r, s1) == r.(shortBlack := false)
    ensures s1 !in {A1, H1, A8, H8} ==> RookRights(r, s1) == r
  {
  }

  /** A queen is accepted along a file, rank or diagonal iff nothing stands between; never otherwise. */
  lemma QueenMove(st: State)
    requires WellFormed(st) && st.sq1.Some? && st.sq2.Some?
    requires Mover(st).Piece? && Mover(st).kind == Queen
    ensures var s1, s2 := st.sq1.value, st.sq2.value;
            Straight(s1, s2) || Diagonal(s1, s2) ==>
              AllowedPieceMove(st) == (if Obstructed(st.squares, s1, s2) then No else Yes, st)
    ensures var s1, s2 := st.sq1.value, st.sq2.value;
            s1 != s2 && !Straight(s1, s2) && !Diagonal(s1, s2) ==> AllowedPieceMove(st).0 != Yes
  {
    var s1, s2 := st.sq1.value, st.sq2.value;
    if Straight(s1, s2) {
      PathObstruction(st.squares, Queen, s1, s2);
    } else if Diagonal(s1, s2) {
      PathObstruction(st.squares, Queen, s1, s2);
    }
  }

  /**
   * A king's step to an adjacent square is accepted whatever stands there and
   * clears both flags of the king's colour, also when in_check is only probing.
   */
  lemma KingStep(st: State)
    requires WellFormed(st) && st.sq1.Some? && st.sq2.Some?
    requires Mover(st).Piece? && Mover(st).kind == King
    requires Abs(st.sq1.value.rank - st.sq2.value.rank) < 2 && Abs(st.sq1.value.file - st.sq2.value.file) < 2
    ensures AllowedPieceMove(st) == (Yes, st.(rights := DisallowCastle(st.rights, Mover(st).color, King, Short)))
  {
  }

  /**
   * Any other king move is accepted iff castle() succeeds for sq2, whatever
   * the king's colour or square; castling itself clears no flag.
   */
  lemma KingCastles(st: State)
    requires WellFormed(st) && st.sq1.Some? && st.sq2.Some?
    requires Mover(st).Piece? && Mover(st).kind == King
    requires !(Abs(st.sq1.value.rank - st.sq2.value.rank) < 2 && Abs(st.sq1.value.file - st.sq2.value.file) < 2)
    ensures var c := Castle(st.squares, st.rights, st.sq2.value);
            AllowedPieceMove(st) == (if c.0 then Yes else No, st.(squares := c.1))
  {
  }

  /** A white pawn moves one square up its file onto an empty square, two from rank 2 over an empty square, or captures one square diagonally up. */
  lemma WhitePawnMoves(st: State)
    requires WellFormed(st) && st.sq1.Some? && st.sq2.Some?
    requires Mover(st) == Piece(White, Pawn)
    ensures var s1, s2, b := st.sq1.value, st.sq2.value, st.squares;
            AllowedPieceMove(st) ==
              (if (s2 == Square(s1.file, s1.rank + 1) && b[s2] == Empty)
                  || (s1.rank == 2 && s2 == Square(s1.file, 4) && b[s2] == Empty && b[Square(s1.file, 3)] == Empty)
                  || (s2.rank == s1.rank + 1 && Abs(s1.file - s2.file) == 1 && b[s2] != Empty)
               then Yes else No, st)
  {
  }

  /** A black pawn moves one square down its file onto an empty square, two from rank 7 onto an empty square, or captures one square diagonally down. */
  lemma BlackPawnMoves(st: State)
    requires WellFormed(st) && st.sq1.Some? && st.sq2.Some?
    requires Mover(st) == Piece(Black, Pawn)
    ensures var s1, s2, b := st.sq1.value, st.sq2.value, st.squares;
            AllowedPieceMove(st) ==
              (if (s2 == Square(s1.file, s1.rank - 1) && b[s2] == Empty)
                  || (s1.rank == 7 && s2 == Square(s1.file, 5) && b[s2] == Empty)
                  || (s2.rank == s1.rank - 1 && Abs(s1.file - s2.file) == 1 && b[s2] != Empty)
               then Yes else No, st)
  {
  }

  /** The black two-step jumps over a piece on rank 6; the white two-step from the same shape of position does not. */
  lemma PawnTwoStepAsymmetry(st: State, f: int)
    requires WellFormed(st) && 0 <= f < 8
    ensures var black := st.(sq1 := Some(Square(f, 7)), sq2 := Some(Square(f, 5)));
            st.squares[Square(f, 7)] == Piece(Black, Pawn) && st.squares[Square(f, 5)] == Empty
            ==> AllowedPieceMove(black).0 == Yes
    ensures var white := st.(sq1 := Some(Square(f, 2)), sq2 := Some(Square(f, 4)));
            st.squares[Square(f, 2)] == Piece(White, Pawn) && st.squares[Square(f, 3)] != Empty
            ==> AllowedPieceMove(white).0 == No
  {
  }

  /** A pawn never moves backwards or sideways, nor more than one file. */
  lemma PawnsGoForward(st: State)
    requires WellFormed(st) && st.sq1.Some? && st.sq2.Some?
    requires Mover(st).Piece? && Mover(st).kind == Pawn && AllowedPieceMove(st).0 == Yes
    ensures var s1, s2 := st.sq1.value, st.sq2.value;
            Abs(s1.file - s2.file) <= 1
            && if Mover(st).color == White then s1.rank < s2.rank <= s1.rank + 2 else s2.rank < s1.rank <= s2.rank + 2
  {
  }

  /** Only a king's move can change the board, and only by castle()'s rook move. */
  lemma AllowedChangesOnlyByCastle(st: State)
    requires WellFormed(st) && st.sq1.Some?
    ensures var res := AllowedPieceMove(st);
            res.1.squares != st.squares ==>
              && res.0 == Yes && st.sq2.Some? && Mover(st).Piece? && Mover(st).kind == King
              && res.1 == st.(squares := Castle(st.squares, st.rights, st.sq2.value).1)
              && st.sq2.value in CastleTargets
  {
  }

  /** White short castle: with the flag set and sq2 = g1 it succeeds iff f1 is empty, moving the h1 rook to f1. */
  lemma WhiteShortCastle(b: map<Square, Piece>, r: Rights)
    requires ValidBoard(b) && r.shortWhite
    ensures Castle(b, r, G1) == if b[F1] == Empty then (true, b[H1 := Empty][F1 := Piece(White, Rook)]) else (false, b)
  {
  }

  /** The long castles look only at b1 and accept sq2 = b1 whatever the flag says. */
  lemma WhiteLongCastle(b: map<Square, Piece>, r: Rights, target: Square)
    requires ValidBoard(b)
    requires target == B1 || (target == C1 && r.longWhite)
    ensures Castle(b, r, target) == if b[B1] == Empty then (true, b[A1 := Empty][D1 := Piece(White, Rook)]) else (false, b)
  {
  }

  /** Black short castle: with the flag set and sq2 = g8 it succeeds iff f8 is empty, moving the h8 rook to f8. */
  lemma BlackShortCastle(b: map<Square, Piece>, r: Rights)
    requires ValidBoard(b) && r.shortBlack
    ensures Castle(b, r, G8) == if b[F8] == Empty then (true, b[H8 := Empty][F8 := Piece(Black, Rook)]) else (false, b)
  {
  }

  /** Black long castle does what black short castle does: it tests f8 and moves the h8 rook to f8. */
  lemma BlackLongCastle(b: map<Square, Piece>, r: Rights, target: Square)
    requires ValidBoard(b)
    requires target == B8 || (target == C8 && r.longBlack)
    ensures Castle(b, r, target) == if b[F8] == Empty then (true, b[H8 := Empty][F8 := Piece(Black, Rook)]) else (false, b)
  {
  }

  /** Without the flag, sq2 = c1, g1, c8 or g8 never castles. */
  lemma CastleNeedsFlag(b: map<Square, Piece>, r: Rights)
    requires ValidBoard(b)
    ensures !r.shortWhite ==> !Castle(b, r, G1).0
    ensures !r.longWhite ==> !Castle(b, r, C1).0
    ensures !r.shortBlack ==> !Castle(b, r, G8).0
    ensures !r.longBlack ==> !Castle(b, r, C8).0
  {
  }

  /**
   * A king on d1 clicked to b1 castles long, and castle() puts the rook on
   * d1: the piece that select_piece then carries to b1 is that rook.
   */
  lemma KingOnD1CastlesIntoRook(st: State)
    requires WellFormed(st) && st.sq1 == Some(D1) && st.sq2 == Some(B1)
    requires st.squares[D1].Piece? && st.squares[D1].kind == King && st.squares[B1] == Empty
    ensures AllowedPieceMove(st).0 == Yes
    ensures AllowedPieceMove(st).1.squares[D1] == Piece(White, Rook)
    ensures AllowedPieceMove(st).1.squares[A1] == Empty
  {
  }
}
