/**
 * Class Board without its widgets: the fields the rules engine reads and
 * writes, and the routines that update them in place. Each method's ensures
 * ties its answer and the new fields to the function of module Rules that
 * gives the routine's meaning.
 */
module Chess {
  import opened Wrappers
  import opened Pieces
  import Paths
  import Rules

  class Board {
    var squares: map<Square, Piece>
    var turns: nat
    var buttonsPressed: nat
    var sq1: Option<Square>
    var sq2: Option<Square>
    var pieceColor: Option<Color>
    var castleableLongWhite: bool
    var castleableShortWhite: bool
    var castleableLongBlack: bool
    var castleableShortBlack: bool

    function Rights(): Rules.Rights
      reads this
    {
      Rules.Rights(castleableShortWhite, castleableLongWhite, castleableShortBlack, castleableLongBlack)
    }

    /** The fields as one value of Rules.State. */
    function Snapshot(): Rules.State
      reads this
    {
      Rules.State(squares, turns, buttonsPressed, sq1, sq2, pieceColor, Rights())
    }

    ghost predicate WellFormed()
      reads this
    {
      Rules.WellFormed(Snapshot())
    }

    ghost predicate Valid()
      reads this
    {
      Rules.Valid(Snapshot())
    }

    /** __init__ followed by set_starting_position. */
    constructor ()
      ensures Snapshot() == Rules.Initial()
    {
      squares := Rules.StartingPosition();
      turns := 0;
      buttonsPressed := 0;
      sq1, sq2 := None, None;
      pieceColor := None;
      castleableLongWhite, castleableShortWhite := true, true;
      castleableLongBlack, castleableShortBlack := true, true;
    }

    method DisallowCastle(color: Color, piece: Kind, direction: Rules.Side)
      modifies this
      ensures Snapshot() == old(Snapshot()).(rights := Rules.DisallowCastle(old(Rights()), color, piece, direction))
    {
      if color == White {
        if piece == King {
          castleableShortWhite := false;
          castleableLongWhite := false;
          return;
        }
        if direction == Rules.Short {
          castleableShortWhite := false;
        } else {
          castleableLongWhite := false;
        }
      } else {
        if piece == King {
          castleableShortBlack := false;
          castleableLongBlack := false;
          return;
        }
        if direction == Rules.Short {
          castleableShortBlack := false;
        } else {
          castleableLongBlack := false;
        }
      }
    }

    /**
     * castle(). Each of the source's loops returns during its first
     * iteration, so each branch looks at exactly one square.
     */
    method Castle() returns (castled: bool)
      requires WellFormed() && sq2.Some?
      modifies this
      ensures (castled, squares) == Rules.Castle(old(squares), old(Rights()), old(sq2.value))
      ensures Snapshot() == old(Snapshot()).(squares := squares)
    {
      var target := sq2.value;
      if castleableShortWhite && target == G1 {
        if squares[F1] != Empty {
          return false;
        }
        squares := squares[H1 := Empty];
        squares := squares[F1 := Piece(White, Rook)];
        return true;
      }
      if (castleableLongWhite && target == C1) || target == B1 {
        if squares[B1] != Empty {
          return false;
        }
        squares := squares[A1 := Empty];
        squares := squares[D1 := Piece(White, Rook)];
        return true;
      }
      if castleableShortBlack && target == G8 {
        if squares[F8] != Empty {
          return false;
        }
        squares := squares[H8 := Empty];
        squares := squares[F8 := Piece(Black, Rook)];
        return true;
      }
      if (castleableLongBlack && target == C8) || target == B8 {
        if squares[F8] != Empty {
          return false;
        }
        squares := squares[H8 := Empty];
        squares := squares[F8 := Piece(Black, Rook)];
        return true;
      }
      return false;
    }

    /**
     * One of clear_path's diagonal loops: for x from x1 + dx up to (not
     * including) x2, step the rank y by dy and look at (x, y).
     */
    method DiagonalLoop(x1: int, x2: int, y1: int, dx: int, dy: int) returns (r: Paths.PathResult)
      requires (dx == 1 && x1 < x2) || (dx == -1 && x1 > x2)
      requires dy == 1 || dy == -1
      ensures r == Paths.Walk(squares, Square(x1 + dx, y1 + dy), dx, dy, Abs(x2 - x1) - 1)
    {
      var x, y := x1 + dx, y1;
      while x != x2
        invariant if dx == 1 then x1 < x <= x2 else x2 <= x < x1
        invariant y == y1 + (x - x1 - dx) * dx * dy
        invariant Paths.Walk(squares, Square(x, y + dy), dx, dy, Abs(x2 - x))
               == Paths.Walk(squares, Square(x1 + dx, y1 + dy), dx, dy, Abs(x2 - x1) - 1)
        decreases Abs(x2 - x)
      {
        y := y + dy;
        var square := Square(x, y);
        if square !in squares {
          return Paths.OffBoard;
        }
        if squares[square] != Empty {
          return Paths.Blocked;
        }
        x := x + dx;
      }
      return Paths.Clear;
    }

    /** clear_path(piece): are the squares between sq1 and sq2 empty? */
    method ClearPath(piece: Kind) returns (r: Paths.PathResult)
      requires WellFormed() && sq1.Some? && sq2.Some?
      ensures r == Paths.ClearPath(squares, piece, sq1.value, sq2.value)
    {
      var s1, s2 := sq1.value, sq2.value;
      if piece == Rook || piece == Queen {
        if s1.file == s2.file {
          var pos1, pos2 := Min(s1.rank, s2.rank), Min(s1.rank, s2.rank) + Abs(s1.rank - s2.rank);
          var i := pos1 + 1;
          while i < pos2
            invariant pos1 + 1 <= i && (i <= pos2 || pos1 == pos2)
            invariant Paths.Walk(squares, Square(s1.file, i), 0, 1, pos2 - i) == Paths.StraightWalk(squares, s1, s2)
          {
            if squares[Square(s1.file, i)] != Empty {
              return Paths.Blocked;
            }
            i := i + 1;
          }
        } else if s1.rank == s2.rank {
          var pos1, pos2 := Min(s1.file, s2.file), Min(s1.file, s2.file) + Abs(s1.file - s2.file);
          var i := pos1 + 1;
          while i < pos2
            invariant pos1 + 1 <= i && (i <= pos2 || pos1 == pos2)
            invariant Paths.Walk(squares, Square(i, s1.rank), 1, 0, pos2 - i) == Paths.StraightWalk(squares, s1, s2)
          {
            if squares[Square(i, s1.rank)] != Empty {
              return Paths.Blocked;
            }
            i := i + 1;
          }
        }
      }
      if piece == Bishop || piece == Queen {
        var x1, x2, y1, y2 := s1.file, s2.file, s1.rank, s2.rank;
        if y1 < y2 {
          if x1 < x2 {
            r := DiagonalLoop(x1, x2, y1, 1, 1);
            if r != Paths.Clear { return; }
          } else if x1 > x2 {
            r := DiagonalLoop(x1, x2, y1, -1, 1);
            if r != Paths.Clear { return; }
          }
        } else if y1 > y2 {
          if x1 < x2 {
            r := DiagonalLoop(x1, x2, y1, 1, -1);
            if r != Paths.Clear { return; }
          }
          if x1 > x2 {
            r := DiagonalLoop(x1, x2, y1, -1, -1);
            if r != Paths.Clear { return; }
          }
        }
      }
      return Paths.Clear;
    }

    /** friendly_fire(): sq2 shows a piece of the colour being moved. */
    predicate FriendlyFire()
      requires WellFormed() && sq2.Some?
      reads this
      ensures FriendlyFire() <==> squares[sq2.value].Piece? && pieceColor == Some(squares[sq2.value].color)
    {
      Rules.FriendlyFire(Snapshot())
    }

    /** allowed_piece_move(), in the source's order of tests. */
    method AllowedPieceMove() returns (a: Rules.Answer)
      requires WellFormed() && sq1.Some?
      modifies this
      ensures (a, Snapshot()) == Rules.AllowedPieceMove(old(Snapshot()))
    {
      var s1 := sq1.value;
      var p := squares[s1];
      if p == Empty {
        return Rules.No;
      }
      if sq2.None? {
        // every test below reads sq2
        return Rules.Raises;
      }
      var s2 := sq2.value;
      var dr, df := Abs(s1.rank - s2.rank), Abs(s1.file - s2.file);
      if p.kind == Bishop {
        var path := ClearPath(Bishop);
        if path == Paths.OffBoard {
          return Rules.Raises;
        }
        if path == Paths.Clear {
          return if dr == df then Rules.Yes else Rules.No;
        }
      }
      if p.kind == Knight {
        if dr == 2 && df == 1 {
          return Rules.Yes;
        }
        if dr == 1 && df == 2 {
          return Rules.Yes;
        }
      }
      if p.kind == King {
        if dr < 2 && df < 2 {
          DisallowCastle(p.color, King, Rules.Short);
          return Rules.Yes;
        }
        var castled := Castle();
        if castled {
          return Rules.Yes;
        }
      }
      if p == Piece(White, Pawn) {
        if s1.rank == 2 {
          if (s1.rank + 1 == s2.rank || s1.rank + 2 == s2.rank) && s1.file == s2.file && squares[s2] == Empty {
            var inFront := squares[Square(s1.file, s1.rank + 1)];
            if inFront == Empty {
              return Rules.Yes;
            }
          }
        }
        if s1.rank + 1 == s2.rank && s1.file == s2.file && squares[s2] == Empty {
          return Rules.Yes;
        }
        if s1.rank + 1 == s2.rank && df == 1 && squares[s2] != Empty {
          return Rules.Yes;
        }
      }
      if p == Piece(Black, Pawn) {
        if s1.rank == 7 {
          if (s1.rank == s2.rank + 1 || s1.rank == s2.rank + 2) && s1.file == s2.file && squares[s2] == Empty {
            return Rules.Yes;
          }
        }
        if s1.rank == s2.rank + 1 && s1.file == s2.file && squares[s2] == Empty {
          return Rules.Yes;
        }
        if s1.rank == s2.rank + 1 && df == 1 && squares[s2] != Empty {
          return Rules.Yes;
        }
      }
      if p.kind == Queen {
        var path := ClearPath(Queen);
        if path == Paths.OffBoard {
          return Rules.Raises;
        }
        if path == Paths.Clear {
          if s1.rank == s2.rank || s1.file == s2.file {
            return Rules.Yes;
          }
          if dr == df {
            return Rules.Yes;
          }
        }
      }
      if p.kind == Rook {
        if s1.rank == s2.rank || s1.file == s2.file {
          var path := ClearPath(Rook);
          if path == Paths.Clear {
            if s1 == A1 {
              DisallowCastle(White, Rook, Rules.Long);
            }
            if s1 == H1 {
              DisallowCastle(White, Rook, Rules.Short);
            }
            if s1 == A8 {
              DisallowCastle(Black, Rook, Rules.Long);
            }
            if s1 == H8 {
              DisallowCastle(Black, Rook, Rules.Short);
            }
            return Rules.Yes;
          }
        }
      }
      return Rules.No;
    }

    /** find_king(king): the first square, in iteration order, holding that king. */
    method FindKing(king: Color) returns (square: Option<Square>)
      requires ValidBoard(squares)
      ensures square == Rules.FindKing(squares, king)
    {
      var i := 0;
      while i < 64
        invariant 0 <= i <= 64
        invariant Rules.FindKingFrom(squares, king, i) == Rules.FindKing(squares, king)
      {
        if squares[SquareAt(i)] == Piece(king, King) {
          return Some(SquareAt(i));
        }
        i := i + 1;
      }
      return None;
    }

    /** in_check(): probe every piece of the other colour against piece_color's king. */
    method InCheck() returns (a: Rules.Answer)
      requires WellFormed()
      modifies this
      ensures (a, Snapshot()) == Rules.InCheck(old(Snapshot()))
    {
      var previousSq1, previousSq2 := sq1, sq2;
      if pieceColor.Some? {
        var mover := pieceColor.value;
        sq2 := FindKing(mover);
        var i := 0;
        while i < 64
          invariant 0 <= i <= 64
          invariant WellFormed() && pieceColor == Some(mover)
          invariant Rules.Scan(Snapshot(), mover, i, previousSq1, previousSq2) == Rules.InCheck(old(Snapshot()))
        {
          sq1 := Some(SquareAt(i));
          var p := squares[SquareAt(i)];
          if p.Piece? && p.color != mover {
            a := AllowedPieceMove();
            if a != Rules.No {
              return;
            }
          }
          i := i + 1;
        }
      }
      // neither king was found in check: restore the squares of the move
      sq1, sq2 := previousSq1, previousSq2;
      return Rules.No;
    }

    /**
     * The end of select_piece once the move passed allowed_piece_move and
     * friendly_fire: move the piece, ask in_check, then undo or commit.
     */
    method ApplyMove(prevSq1: Square, b: Square) returns (click: Rules.Click)
      requires WellFormed() && OnBoard(prevSq1) && OnBoard(b)
      requires sq1 == Some(prevSq1) && buttonsPressed == 1 && pieceColor.Some?
      modifies this
      ensures (click, Snapshot()) == Rules.ApplyMove(old(Snapshot()), prevSq1, b)
    {
      ghost var st3 := Snapshot();
      var prevSq1Piece := squares[prevSq1];
      var prevSq2 := b;
      var prevSq2Piece := squares[b];
      squares := squares[b := prevSq1Piece];
      squares := squares[prevSq1 := Empty];
      ghost var st4 := Snapshot();
      assert st4 == st3.(squares := st3.squares[b := prevSq1Piece][prevSq1 := Empty]);
      var check := InCheck();
      ghost var st5 := Snapshot();
      ApplyMoveOutcome(st3, prevSq1, b);
      if check == Rules.Raises {
        return Rules.Raised;
      }
      if check == Rules.Yes {
        squares := squares[prevSq2 := prevSq2Piece];
        squares := squares[prevSq1 := prevSq1Piece];
        buttonsPressed := 0;
        return Rules.RolledBack;
      }
      buttonsPressed := 0;
      turns := turns + 1;
      assert Snapshot() == st5.(pressed := 0, turns := st5.turns + 1);
      if Rules.PromotionDue(squares[b], prevSq2) {
        return Rules.PromotionPending;
      }
      return Rules.Moved;
    }

    /** select_piece(button) for the button of square b. */
    method SelectPiece(b: Square) returns (click: Rules.Click)
      requires Valid() && OnBoard(b)
      modifies this
      ensures (click, Snapshot()) == Rules.SelectPiece(old(Snapshot()), b)
    {
      var clicked := squares[b];
      if clicked.Piece? && clicked.color == White && buttonsPressed == 0 {
        pieceColor := Some(White);
      } else if clicked.Piece? && clicked.color == Black && buttonsPressed == 0 {
        pieceColor := Some(Black);
      }
      if (pieceColor == Some(White) && turns % 2 == 0) || (pieceColor == Some(Black) && turns % 2 == 1)
         || buttonsPressed == 1
      {
        if buttonsPressed == 0 {
          sq1 := Some(b);
          buttonsPressed := buttonsPressed + 1;
          return Rules.Selected;
        }
        sq2 := Some(b);
        if sq2 == sq1 {
          buttonsPressed := 0;
          return Rules.Deselected;
        }
        ghost var st2 := Snapshot();
        assert Rules.SelectPiece(old(Snapshot()), b) == Rules.SecondClick(st2, b);
        var allowed := AllowedPieceMove();
        if allowed == Rules.Raises {
          return Rules.Raised;
        }
        if allowed == Rules.Yes && !FriendlyFire() {
          click := ApplyMove(sq1.value, b);
          return;
        }
        return Rules.Refused;
      } else {
        buttonsPressed := 0;
        return Rules.Ignored;
      }
    }

    /** generate_promo_piece(piece): the chosen piece replaces the one on sq2. */
    method GeneratePromoPiece(piece: Piece)
      requires WellFormed() && sq2.Some?
      modifies this
      ensures Snapshot() == Rules.GeneratePromoPiece(old(Snapshot()), piece)
    {
      squares := squares[sq2.value := piece];
    }
  }

  /** The three outcomes of the tentative move, by in_check's answer on the moved board. */
  lemma ApplyMoveOutcome(st3: Rules.State, from: Square, b: Square)
    requires Rules.WellFormed(st3) && OnBoard(from) && OnBoard(b) && st3.sq1 == Some(from) && st3.pressed == 1
    requires st3.color.Some?
    ensures var st4 := st3.(squares := st3.squares[b := st3.squares[from]][from := Empty]);
            var check := Rules.InCheck(st4);
            var st5 := check.1;
            var res := Rules.ApplyMove(st3, from, b);
            && (check.0 == Rules.Raises ==> res == (Rules.Raised, st5))
            && (check.0 == Rules.Yes ==>
                  res == (Rules.RolledBack, st5.(squares := st5.squares[b := st3.squares[b]][from := st3.squares[from]], pressed := 0)))
            && (check.0 == Rules.No ==>
                  res.1 == st5.(pressed := 0, turns := st5.turns + 1)
                  && (res.0 == Rules.PromotionPending <==> Rules.PromotionDue(st5.squares[b], b))
                  && (res.0 == Rules.Moved <==> !Rules.PromotionDue(st5.squares[b], b)))
  {
  }
}
