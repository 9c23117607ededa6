/** The Option type used for values the source may leave as None. */
module Wrappers {
  datatype Option<+T> = None | Some(value: T)
}

/**
 * Pieces, squares and the image tokens that stand for pieces in Board.
 * The source identifies a piece by the name of the image shown on its square;
 * here a piece is a (colour, kind) value and Token gives its image name back.
 */
module Pieces {
  import opened Wrappers

  datatype Color = White | Black
  datatype Kind = Pawn | Knight | Bishop | Rook | Queen | King

  /** What a square shows: nothing ("pyimage2") or one piece. */
  datatype Piece = Empty | Piece(color: Color, kind: Kind)

  /**
   * A square as a pair of integers: file 0..7 stands for the letters a..h
   * (the index in Board.ranks), rank 1..8 for the digit. Values outside that
   * range only arise as the keys clear_path looks up and does not find.
   */
  datatype Square = Square(file: int, rank: int)

  predicate OnBoard(s: Square) {
    0 <= s.file < 8 && 1 <= s.rank <= 8
  }

  /** The 64 keys of Board.squares. */
  const AllSquares: set<Square> := set f, r | 0 <= f < 8 && 1 <= r <= 8 :: Square(f, r)

  lemma AllSquaresAreOnBoard(s: Square)
    ensures s in AllSquares <==> OnBoard(s)
  {
    if OnBoard(s) {
      assert s == Square(s.file, s.rank);
    }
  }

  /** The board has exactly the 64 squares a1..h8 as keys. */
  ghost predicate ValidBoard(b: map<Square, Piece>) {
    forall s :: s in b <==> OnBoard(s)
  }

  /**
   * The i-th key of Board.squares in iteration order. set_squares inserts them
   * rank by rank from rank 1, and a to h within a rank: a1, b1, ..., h1, a2, ...
   */
  function SquareAt(i: nat): (s: Square)
    requires i < 64
    ensures OnBoard(s)
  {
    Square(i % 8, i / 8 + 1)
  }

  /** Where a square comes in the iteration order. */
  function IndexOf(s: Square): (i: nat)
    requires OnBoard(s)
    ensures i < 64 && SquareAt(i) == s
  {
    var i := (s.rank - 1) * 8 + s.file;
    assert i / 8 == s.rank - 1 && i % 8 == s.file;
    i
  }

  function Abs(x: int): nat {
    if x < 0 then -x else x
  }

  function Min(x: int, y: int): int {
    if x <= y then x else y
  }

  const A1 := Square(0, 1)
  const B1 := Square(1, 1)
  const C1 := Square(2, 1)
  const D1 := Square(3, 1)
  const E1 := Square(4, 1)
  const F1 := Square(5, 1)
  const G1 := Square(6, 1)
  const H1 := Square(7, 1)
  const A8 := Square(0, 8)
  const B8 := Square(1, 8)
  const C8 := Square(2, 8)
  const E8 := Square(4, 8)
  const F8 := Square(5, 8)
  const G8 := Square(6, 8)
  const H8 := Square(7, 8)

  /** The image name under which a piece is shown on a square. */
  function Token(p: Piece): string {
    match p
    case Empty => "pyimage2"
    case Piece(White, Bishop) => "pyimage1"
    case Piece(White, King) => "pyimage3"
    case Piece(White, Knight) => "pyimage4"
    case Piece(White, Pawn) => "pyimage5"
    case Piece(White, Queen) => "pyimage6"
    case Piece(White, Rook) => "pyimage7"
    case Piece(Black, Bishop) => "pyimage8"
    case Piece(Black, King) => "pyimage10"
    case Piece(Black, Knight) => "pyimage11"
    case Piece(Black, Pawn) => "pyimage12"
    case Piece(Black, Queen) => "pyimage13"
    case Piece(Black, Rook) => "pyimage14"
  }

  /** Reads an image name back as a piece; any other name is not a piece. */
  function PieceOf(t: string): Option<Piece> {
    if t == "pyimage2" then Some(Empty)
    else if t == "pyimage1" then Some(Piece(White, Bishop))
    else if t == "pyimage3" then Some(Piece(White, King))
    else if t == "pyimage4" then Some(Piece(White, Knight))
    else if t == "pyimage5" then Some(Piece(White, Pawn))
    else if t == "pyimage6" then Some(Piece(White, Queen))
    else if t == "pyimage7" then Some(Piece(White, Rook))
    else if t == "pyimage8" then Some(Piece(Black, Bishop))
    else if t == "pyimage10" then Some(Piece(Black, King))
    else if t == "pyimage11" then Some(Piece(Black, Knight))
    else if t == "pyimage12" then Some(Piece(Black, Pawn))
    else if t == "pyimage13" then Some(Piece(Black, Queen))
    else if t == "pyimage14" then Some(Piece(Black, Rook))
    else None
  }

  /** Board.white_pieces and Board.black_pieces. */
  const WhitePieces: seq<string> := ["pyimage1", "pyimage3", "pyimage4", "pyimage5", "pyimage6", "pyimage7"]
  const BlackPieces: seq<string> := ["pyimage8", "pyimage10", "pyimage11", "pyimage12", "pyimage13", "pyimage14"]

  /** Reading a token back gives the piece that was shown. */
  lemma TokenRoundTrip(p: Piece)
    ensures PieceOf(Token(p)) == Some(p)
  {
  }

  /** Every listed token reads back as a piece of the list's colour. */
  lemma {:induction false} ColourListsSound(i: nat)
    ensures i < |WhitePieces| ==> PieceOf(WhitePieces[i]).Some? && PieceOf(WhitePieces[i]).value.Piece?
                                  && PieceOf(WhitePieces[i]).value.color == White
    ensures i < |BlackPieces| ==> PieceOf(BlackPieces[i]).Some? && PieceOf(BlackPieces[i]).value.Piece?
                                  && PieceOf(BlackPieces[i]).value.color == Black
  {
  }

  /** A piece's token is in white_pieces iff it is white and in black_pieces iff it is black. */
  lemma ColourLists(p: Piece)
    ensures Token(p) in WhitePieces <==> p.Piece? && p.color == White
    ensures Token(p) in BlackPieces <==> p.Piece? && p.color == Black
  {
    if Token(p) in WhitePieces {
      var i :| 0 <= i < |WhitePieces| && WhitePieces[i] == Token(p);
      ColourListsSound(i);
      TokenRoundTrip(p);
    }
    if Token(p) in BlackPieces {
      var i :| 0 <= i < |BlackPieces| && BlackPieces[i] == Token(p);
      ColourListsSound(i);
      TokenRoundTrip(p);
    }
  }

  /** The pieces offered by the promotion menu of one colour: knight, bishop, rook, queen. */
  function PromotionChoices(c: Color): (r: seq<Piece>)
    ensures |r| == 4
    ensures forall i :: 0 <= i < |r| ==> r[i].Piece? && r[i].color == c && r[i].kind !in {Pawn, King}
  {
    [Piece(c, Knight), Piece(c, Bishop), Piece(c, Rook), Piece(c, Queen)]
  }

  /** The menu's buttons pass these tokens to generate_promo_piece. */
  lemma PromotionTokens()
    ensures seq(4, i requires 0 <= i < 4 => Token(PromotionChoices(White)[i]))
            == ["pyimage4", "pyimage1", "pyimage7", "pyimage6"]
    ensures seq(4, i requires 0 <= i < 4 => Token(PromotionChoices(Black)[i]))
            == ["pyimage11", "pyimage8", "pyimage14", "pyimage13"]
  {
  }
}
