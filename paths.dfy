/**
 * Board.clear_path as a pure function of the board and the two squares, with
 * the lemmas that say when it reports an obstruction and when its diagonal
 * walk leaves the board (a lookup of a key such as "c9", which raises in the
 * source).
 */
module Paths {
  import opened Pieces

  /** Clear and Blocked are clear_path's True and False; OffBoard is the failed lookup. */
  datatype PathResult = Clear | Blocked | OffBoard

  predicate Unit(d: int) {
    -1 <= d <= 1
  }

  function Offset(d: int, k: nat): int
    requires Unit(d)
  {
    if d == 1 then k else if d == -1 then -(k as int) else 0
  }

  /** The square k steps of (dx, dy) away from s. */
  function Step(s: Square, dx: int, dy: int, k: nat): Square
    requires Unit(dx) && Unit(dy)
  {
    Square(s.file + Offset(dx, k), s.rank + Offset(dy, k))
  }

  /**
   * Looks at n squares, starting at s and moving by (dx, dy) each time, in
   * that order; stops at the first square that is not a key of the board or
   * that is not empty.
   */
  function Walk(b: map<Square, Piece>, s: Square, dx: int, dy: int, n: int): PathResult
    decreases n
  {
    if n <= 0 then Clear
    else if s !in b then OffBoard
    else if b[s] != Empty then Blocked
    else Walk(b, Square(s.file + dx, s.rank + dy), dx, dy, n - 1)
  }

  /** The number of squares strictly between two coordinates on one line. */
  function Span(x: int, y: int): int {
    Abs(x - y) - 1
  }

  /**
   * The second half of clear_path: the rank counter moves one step per file
   * step in the direction of sq2, whatever the shape of the move.
   */
  function DiagonalWalk(b: map<Square, Piece>, s1: Square, s2: Square): PathResult {
    if s1.rank < s2.rank then
      if s1.file < s2.file then Walk(b, Square(s1.file + 1, s1.rank + 1), 1, 1, s2.file - s1.file - 1)
      else if s1.file > s2.file then Walk(b, Square(s1.file - 1, s1.rank + 1), -1, 1, s1.file - s2.file - 1)
      else Clear
    else if s1.rank > s2.rank then
      if s1.file < s2.file then Walk(b, Square(s1.file + 1, s1.rank - 1), 1, -1, s2.file - s1.file - 1)
      else if s1.file > s2.file then Walk(b, Square(s1.file - 1, s1.rank - 1), -1, -1, s1.file - s2.file - 1)
      else Clear
    else Clear
  }

  /** The first half of clear_path, for rooks and queens: along the file, else along the rank. */
  function StraightWalk(b: map<Square, Piece>, s1: Square, s2: Square): PathResult {
    if s1.file == s2.file then Walk(b, Square(s1.file, Min(s1.rank, s2.rank) + 1), 0, 1, Span(s1.rank, s2.rank))
    else if s1.rank == s2.rank then Walk(b, Square(Min(s1.file, s2.file) + 1, s1.rank), 1, 0, Span(s1.file, s2.file))
    else Clear
  }

  /** clear_path(piece) for the piece names "rook", "queen" and "bishop"; other kinds are always Clear. */
  function ClearPath(b: map<Square, Piece>, piece: Kind, s1: Square, s2: Square): PathResult {
    var straight := if piece == Rook || piece == Queen then StraightWalk(b, s1, s2) else Clear;
    if straight != Clear then straight
    else if piece == Bishop || piece == Queen then DiagonalWalk(b, s1, s2)
    else Clear
  }

  predicate StrictlyBetween(a: int, x: int, c: int) {
    (a < x < c) || (c < x < a)
  }

  /** The squares strictly between s1 and s2 on their common file, rank or diagonal. */
  predicate OnSegment(s1: Square, s2: Square, s: Square) {
    if s1.file == s2.file then s.file == s1.file && StrictlyBetween(s1.rank, s.rank, s2.rank)
    else if s1.rank == s2.rank then s.rank == s1.rank && StrictlyBetween(s1.file, s.file, s2.file)
    else StrictlyBetween(s1.file, s.file, s2.file) && StrictlyBetween(s1.rank, s.rank, s2.rank)
         && Abs(s.file - s1.file) == Abs(s.rank - s1.rank)
  }

  predicate Straight(s1: Square, s2: Square) {
    s1 != s2 && (s1.file == s2.file || s1.rank == s2.rank)
  }

  predicate Diagonal(s1: Square, s2: Square) {
    s1 != s2 && Abs(s1.file - s2.file) == Abs(s1.rank - s2.rank)
  }

  /** Some square strictly between s1 and s2 holds a piece. */
  ghost predicate Obstructed(b: map<Square, Piece>, s1: Square, s2: Square) {
    exists s :: OnSegment(s1, s2, s) && s in b && b[s] != Empty
  }

  lemma StepNext(s: Square, dx: int, dy: int, k: nat)
    requires Unit(dx) && Unit(dy)
    ensures Step(Square(s.file + dx, s.rank + dy), dx, dy, k) == Step(s, dx, dy, k + 1)
  {
  }

  /** A walk over squares that are all on the board never fails, and is Blocked iff one of them holds a piece. */
  lemma {:induction false} WalkOnBoard(b: map<Square, Piece>, s: Square, dx: int, dy: int, n: int)
    requires ValidBoard(b) && Unit(dx) && Unit(dy)
    requires forall k: nat :: k < n ==> OnBoard(Step(s, dx, dy, k))
    ensures Walk(b, s, dx, dy, n) != OffBoard
    ensures Walk(b, s, dx, dy, n) == Blocked <==> exists k: nat :: k < n && b[Step(s, dx, dy, k)] != Empty
    decreases n
  {
    if n > 0 {
      var s' := Square(s.file + dx, s.rank + dy);
      assert Step(s, dx, dy, 0) == s;
      forall k: nat | k < n - 1
        ensures OnBoard(Step(s', dx, dy, k)) && Step(s', dx, dy, k) == Step(s, dx, dy, k + 1)
      {
        StepNext(s, dx, dy, k);
      }
      WalkOnBoard(b, s', dx, dy, n - 1);
      if exists k: nat :: k < n && b[Step(s, dx, dy, k)] != Empty {
        var k: nat :| k < n && b[Step(s, dx, dy, k)] != Empty;
        if k > 0 {
          StepNext(s, dx, dy, k - 1);
        }
      }
    }
  }

  /** A walk fails only at a square that is not on the board. */
  lemma {:induction false} WalkOffBoard(b: map<Square, Piece>, s: Square, dx: int, dy: int, n: int)
    requires ValidBoard(b) && Unit(dx) && Unit(dy)
    requires Walk(b, s, dx, dy, n) == OffBoard
    ensures exists k: nat :: k < n && !OnBoard(Step(s, dx, dy, k))
    decreases n
  {
    var s' := Square(s.file + dx, s.rank + dy);
    assert Step(s, dx, dy, 0) == s;
    if s in b {
      WalkOffBoard(b, s', dx, dy, n - 1);
      var k: nat :| k < n - 1 && !OnBoard(Step(s', dx, dy, k));
      StepNext(s, dx, dy, k);
    }
  }

  /** The squares a walk visits are exactly those strictly between s1 and s2 (one direction of the correspondence). */
  lemma SegmentCovered(s1: Square, s2: Square, start: Square, dx: int, dy: int, n: int)
    requires Unit(dx) && Unit(dy)
    requires OnBoard(s1) && OnBoard(s2)
    requires forall k: nat :: k < n ==> OnSegment(s1, s2, Step(start, dx, dy, k))
    requires forall s :: OnSegment(s1, s2, s) ==> exists k: nat :: k < n && s == Step(start, dx, dy, k)
    ensures forall k: nat :: k < n ==> OnBoard(Step(start, dx, dy, k))
    ensures forall b: map<Square, Piece> :: ValidBoard(b) ==>
              ((exists k: nat :: k < n && b[Step(start, dx, dy, k)] != Empty) <==> Obstructed(b, s1, s2))
  {
    forall k: nat | k < n ensures OnBoard(Step(start, dx, dy, k)) {
      assert OnSegment(s1, s2, Step(start, dx, dy, k));
    }
    forall b: map<Square, Piece> | ValidBoard(b)
      ensures (exists k: nat :: k < n && b[Step(start, dx, dy, k)] != Empty) <==> Obstructed(b, s1, s2)
    {
      if exists k: nat :: k < n && b[Step(start, dx, dy, k)] != Empty {
        var k: nat :| k < n && b[Step(start, dx, dy, k)] != Empty;
        assert OnSegment(s1, s2, Step(start, dx, dy, k));
      }
      if Obstructed(b, s1, s2) {
        var s :| OnSegment(s1, s2, s) && s in b && b[s] != Empty;
        var k: nat :| k < n && s == Step(start, dx, dy, k);
      }
    }
  }

  /** The straight half of clear_path visits exactly the squares between s1 and s2. */
  lemma StraightWalkMeaning(b: map<Square, Piece>, s1: Square, s2: Square)
    requires ValidBoard(b) && OnBoard(s1) && OnBoard(s2) && Straight(s1, s2)
    ensures StraightWalk(b, s1, s2) != OffBoard
    ensures StraightWalk(b, s1, s2) == Blocked <==> Obstructed(b, s1, s2)
  {
    if s1.file == s2.file {
      var start := Square(s1.file, Min(s1.rank, s2.rank) + 1);
      var n := Span(s1.rank, s2.rank);
      forall s | OnSegment(s1, s2, s) ensures exists k: nat :: k < n && s == Step(start, 0, 1, k) {
        assert s == Step(start, 0, 1, s.rank - start.rank);
      }
      SegmentCovered(s1, s2, start, 0, 1, n);
      WalkOnBoard(b, start, 0, 1, n);
    } else {
      var start := Square(Min(s1.file, s2.file) + 1, s1.rank);
      var n := Span(s1.file, s2.file);
      forall s | OnSegment(s1, s2, s) ensures exists k: nat :: k < n && s == Step(start, 1, 0, k) {
        assert s == Step(start, 1, 0, s.file - start.file);
      }
      SegmentCovered(s1, s2, start, 1, 0, n);
      WalkOnBoard(b, start, 1, 0, n);
    }
  }

  /** The squares of the diagonal walk from s1 towards s2 are those strictly between them. */
  lemma DiagonalCorrespondence(s1: Square, s2: Square, start: Square, dx: int, dy: int, n: int)
    requires OnBoard(s1) && OnBoard(s2) && Diagonal(s1, s2)
    requires dx == (if s1.file < s2.file then 1 else -1) && dy == (if s1.rank < s2.rank then 1 else -1)
    requires start == Square(s1.file + dx, s1.rank + dy) && n == Abs(s1.file - s2.file) - 1
    ensures forall k: nat :: k < n ==> OnSegment(s1, s2, Step(start, dx, dy, k))
    ensures forall s :: OnSegment(s1, s2, s) ==> exists k: nat :: k < n && s == Step(start, dx, dy, k)
  {
    forall k: nat | k < n ensures OnSegment(s1, s2, Step(start, dx, dy, k)) {
      var t := Step(start, dx, dy, k);
      assert Abs(t.file - s1.file) == k + 1 == Abs(t.rank - s1.rank);
    }
    forall s | OnSegment(s1, s2, s) ensures exists k: nat :: k < n && s == Step(start, dx, dy, k) {
      var k := Abs(s.file - s1.file) - 1;
      assert s == Step(start, dx, dy, k);
    }
  }

  /** On a true diagonal the second half of clear_path visits exactly the squares between s1 and s2. */
  lemma DiagonalWalkMeaning(b: map<Square, Piece>, s1: Square, s2: Square)
    requires ValidBoard(b) && OnBoard(s1) && OnBoard(s2) && Diagonal(s1, s2)
    ensures DiagonalWalk(b, s1, s2) != OffBoard
    ensures DiagonalWalk(b, s1, s2) == Blocked <==> Obstructed(b, s1, s2)
  {
    var dx := if s1.file < s2.file then 1 else -1;
    var dy := if s1.rank < s2.rank then 1 else -1;
    var start := Square(s1.file + dx, s1.rank + dy);
    var n := Abs(s1.file - s2.file) - 1;
    assert DiagonalWalk(b, s1, s2) == Walk(b, start, dx, dy, n);
    DiagonalCorrespondence(s1, s2, start, dx, dy, n);
    SegmentCovered(s1, s2, start, dx, dy, n);
    WalkOnBoard(b, start, dx, dy, n);
  }

  /**
   * For a rook or queen moving along a file or rank, or a bishop or queen
   * moving along a diagonal, clear_path never fails and reports Blocked
   * exactly when some square strictly between sq1 and sq2 holds a piece.
   */
  lemma PathObstruction(b: map<Square, Piece>, piece: Kind, s1: Square, s2: Square)
    requires ValidBoard(b) && OnBoard(s1) && OnBoard(s2)
    requires ((piece == Rook || piece == Queen) && Straight(s1, s2))
          || ((piece == Bishop || piece == Queen) && Diagonal(s1, s2))
    ensures ClearPath(b, piece, s1, s2) != OffBoard
    ensures ClearPath(b, piece, s1, s2) == Blocked <==> Obstructed(b, s1, s2)
  {
    if (piece == Rook || piece == Queen) && Straight(s1, s2) {
      StraightWalkMeaning(b, s1, s2);
    } else {
      DiagonalWalkMeaning(b, s1, s2);
    }
  }

  /** A rook's clear_path never fails: it has no diagonal half. */
  lemma RookPathNeverFails(b: map<Square, Piece>, s1: Square, s2: Square)
    requires ValidBoard(b) && OnBoard(s1) && OnBoard(s2)
    ensures ClearPath(b, Rook, s1, s2) != OffBoard
  {
    if Straight(s1, s2) {
      StraightWalkMeaning(b, s1, s2);
    }
  }

  /**
   * clear_path fails only when the diagonal walk is longer than the rank
   * distance allows: the file distance exceeds the rank distance by two or more.
   */
  lemma PathFailsOnlyWhenTooWide(b: map<Square, Piece>, piece: Kind, s1: Square, s2: Square)
    requires ValidBoard(b) && OnBoard(s1) && OnBoard(s2)
    requires ClearPath(b, piece, s1, s2) == OffBoard
    ensures piece == Bishop || piece == Queen
    ensures Abs(s1.file - s2.file) > Abs(s1.rank - s2.rank) + 1
  {
    if (piece == Rook || piece == Queen) && Straight(s1, s2) {
      StraightWalkMeaning(b, s1, s2);
    }
    assert DiagonalWalk(b, s1, s2) == OffBoard;
    var dx := if s1.file < s2.file then 1 else -1;
    var dy := if s1.rank < s2.rank then 1 else -1;
    var start := Square(s1.file + dx, s1.rank + dy);
    var n := Abs(s1.file - s2.file) - 1;
    assert DiagonalWalk(b, s1, s2) == Walk(b, start, dx, dy, n);
    WalkOffBoard(b, start, dx, dy, n);
  }

  /** A bishop on a7 aiming at h8 with b8 empty makes clear_path look up c9. */
  lemma BishopWalkLeavesBoard(b: map<Square, Piece>)
    requires ValidBoard(b) && b[B8] == Empty
    ensures ClearPath(b, Bishop, Square(0, 7), Square(7, 8)) == OffBoard
  {
    assert Square(2, 9) !in b;
    assert Walk(b, Square(2, 9), 1, 1, 5) == OffBoard;
    assert Walk(b, Square(1, 8), 1, 1, 6) == OffBoard;
  }
}
