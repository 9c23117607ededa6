/**
 * The rules engine of Board as functions of an explicit state value.
 * Each function gives the answer a routine of Board returns and the state it
 * leaves behind, including the fields it changes as a side effect; the class
 * in module Chess updates fields in place and is proved to agree with these.
 */
module Rules {
  import opened Wrappers
  import opened Pieces
  import Paths

  /** The four castleable_* flags. */
  datatype Rights = Rights(shortWhite: bool, longWhite: bool, shortBlack: bool, longBlack: bool)

  /**
   * The fields of Board that the rules read or write. sq1_button and
   * sq2_button are always the buttons of squares[sq1] and squares[sq2], so the
   * image they show is squares[sq1] and squares[sq2].
   */
  datatype State = State(
    squares: map<Square, Piece>,
    turns: nat,
    pressed: nat,  // buttons_pressed
    sq1: Option<Square>,
    sq2: Option<Square>,
    color: Option<Color>,  // piece_color
    rights: Rights)

  /** The answer of allowed_piece_move and in_check: True, False, or an exception (KeyError, TypeError). */
  datatype Answer = Yes | No | Raises

  /** What one call of select_piece did. */
  datatype Click =
    | Ignored           // not this colour's turn: buttons_pressed reset to 0
    | Selected          // first square stored
    | Deselected        // the first square clicked again
    | Refused           // the move is not allowed or is friendly fire: the selection stays pending
    | RolledBack        // the move left the mover's king in check and was undone
    | Moved             // the move was committed
    | PromotionPending  // the move was committed and the promotion menu opens
    | Raised            // an exception ended the call

  datatype Side = Short | Long

  ghost predicate WellFormed(st: State) {
    && ValidBoard(st.squares)
    && (st.sq1.Some? ==> OnBoard(st.sq1.value))
    && (st.sq2.Some? ==> OnBoard(st.sq2.value))
  }

  /** What holds between two clicks. */
  ghost predicate Valid(st: State) {
    && WellFormed(st)
    && st.pressed <= 1
    && (st.pressed == 1 ==> st.sq1.Some? && st.color.Some?)
  }

  /** No castling flag went from false to true. */
  predicate RightsWithin(after: Rights, before: Rights) {
    && (after.shortWhite ==> before.shortWhite)
    && (after.longWhite ==> before.longWhite)
    && (after.shortBlack ==> before.shortBlack)
    && (after.longBlack ==> before.longBlack)
  }

  /**
   * disallow_castle(color, piece, direction): a king clears both flags of its
   * colour, a rook only the flag of the named direction.
   */
  function DisallowCastle(r: Rights, color: Color, piece: Kind, direction: Side): (r': Rights)
    ensures RightsWithin(r', r)
    ensures color == White ==> r'.shortBlack == r.shortBlack && r'.longBlack == r.longBlack
    ensures color == Black ==> r'.shortWhite == r.shortWhite && r'.longWhite == r.longWhite
    ensures piece == King ==> if color == White then !r'.shortWhite && !r'.longWhite else !r'.shortBlack && !r'.longBlack
    ensures piece != King && direction == Short ==> if color == White then !r'.shortWhite && r'.longWhite == r.longWhite
                                                    else !r'.shortBlack && r'.longBlack == r.longBlack
    ensures piece != King && direction == Long ==> if color == White then !r'.longWhite && r'.shortWhite == r.shortWhite
                                                   else !r'.longBlack && r'.shortBlack == r.shortBlack
  {
    if color == White then
      if piece == King then r.(shortWhite := false, longWhite := false)
      else if direction == Short then r.(shortWhite := false)
      else r.(longWhite := false)
    else
      if piece == King then r.(shortBlack := false, longBlack := false)
      else if direction == Short then r.(shortBlack := false)
      else r.(longBlack := false)
  }

  /** The squares castle() may rewrite, and the sq2 values for which it may. */
  const RookSquares: set<Square> := {A1, D1, F1, H1, F8, H8}
  const CastleTargets: set<Square> := {B1, C1, G1, B8, C8, G8}

  /**
   * castle(): the flag and target tests in the source's order, each followed
   * by the one square its loop looks at before returning; on success the
   * rook is moved, the king is not.
   */
  function Castle(b: map<Square, Piece>, r: Rights, target: Square): (res: (bool, map<Square, Piece>))
    requires ValidBoard(b)
    ensures ValidBoard(res.1)
    ensures !res.0 ==> res.1 == b
    ensures res.0 ==> target in CastleTargets
    ensures forall s :: s in b && s !in RookSquares ==> res.1[s] == b[s]
  {
    if r.shortWhite && target == G1 then
      if b[F1] != Empty then (false, b) else (true, b[H1 := Empty][F1 := Piece(White, Rook)])
    else if (r.longWhite && target == C1) || target == B1 then
      if b[B1] != Empty then (false, b) else (true, b[A1 := Empty][D1 := Piece(White, Rook)])
    else if r.shortBlack && target == G8 then
      if b[F8] != Empty then (false, b) else (true, b[H8 := Empty][F8 := Piece(Black, Rook)])
    else if (r.longBlack && target == C8) || target == B8 then
      if b[F8] != Empty then (false, b) else (true, b[H8 := Empty][F8 := Piece(Black, Rook)])
    else (false, b)
  }

  /** The white pawn's three ways to move. */
  predicate WhitePawnMove(b: map<Square, Piece>, s1: Square, s2: Square)
    requires ValidBoard(b) && OnBoard(s1) && OnBoard(s2)
  {
    || (s1.rank == 2 && (s1.rank + 1 == s2.rank || s1.rank + 2 == s2.rank) && s1.file == s2.file
        && b[s2] == Empty && b[Square(s1.file, s1.rank + 1)] == Empty)
    || (s1.rank + 1 == s2.rank && s1.file == s2.file && b[s2] == Empty)
    || (s1.rank + 1 == s2.rank && Abs(s1.file - s2.file) == 1 && b[s2] != Empty)
  }

  /** The black pawn's three ways to move; the two-step does not look at the square it passes. */
  predicate BlackPawnMove(b: map<Square, Piece>, s1: Square, s2: Square)
    requires ValidBoard(b) && OnBoard(s1) && OnBoard(s2)
  {
    || (s1.rank == 7 && (s1.rank == s2.rank + 1 || s1.rank == s2.rank + 2) && s1.file == s2.file && b[s2] == Empty)
    || (s1.rank == s2.rank + 1 && s1.file == s2.file && b[s2] == Empty)
    || (s1.rank == s2.rank + 1 && Abs(s1.file - s2.file) == 1 && b[s2] != Empty)
  }

  /** The flags a rook move clears: by its home square only, whatever the rook's colour. */
  function RookRights(r: Rights, s1: Square): (r': Rights)
    ensures RightsWithin(r', r)
  {
    var r1 := if s1 == A1 then DisallowCastle(r, White, Rook, Long) else r;
    var r2 := if s1 == H1 then DisallowCastle(r1, White, Rook, Short) else r1;
    var r3 := if s1 == A8 then DisallowCastle(r2, Black, Rook, Long) else r2;
    if s1 == H8 then DisallowCastle(r3, Black, Rook, Short) else r3
  }

  /** Fields of a state that allowed_piece_move and in_check never change. */
  predicate SameSelection(after: State, before: State) {
    after.turns == before.turns && after.pressed == before.pressed && after.color == before.color
  }

  /**
   * allowed_piece_move(): may the piece on sq1 go to sq2? A king move also
   * clears its colour's castling flags, or castles (which moves a rook); a
   * rook move from a home square clears that square's flag.
   */
  function AllowedPieceMove(st: State): (res: (Answer, State))
    requires WellFormed(st) && st.sq1.Some?
    ensures WellFormed(res.1) && SameSelection(res.1, st)
    ensures res.1.sq1 == st.sq1 && res.1.sq2 == st.sq2
    ensures res.0 != Yes ==> res.1 == st
    ensures RightsWithin(res.1.rights, st.rights)
  {
    var s1 := st.sq1.value;
    var p := st.squares[s1];
    if p == Empty then (No, st)
    else if st.sq2.None? then (Raises, st)
    else
      var s2 := st.sq2.value;
      var b := st.squares;
      var dr, df := Abs(s1.rank - s2.rank), Abs(s1.file - s2.file);
      match p.kind
      case Bishop =>
        var path := Paths.ClearPath(b, Bishop, s1, s2);
        if path == Paths.OffBoard then (Raises, st)
        else if path == Paths.Clear && dr == df then (Yes, st)
        else (No, st)
      case Knight =>
        if (dr == 2 && df == 1) || (dr == 1 && df == 2) then (Yes, st) else (No, st)
      case King =>
        if dr < 2 && df < 2 then (Yes, st.(rights := DisallowCastle(st.rights, p.color, King, Short)))
        else
          var castled := Castle(b, st.rights, s2);
          if castled.0 then (Yes, st.(squares := castled.1)) else (No, st)
      case Pawn =>
        var ok := if p.color == White then WhitePawnMove(b, s1, s2) else BlackPawnMove(b, s1, s2);
        if ok then (Yes, st) else (No, st)
      case Queen =>
        var path := Paths.ClearPath(b, Queen, s1, s2);
        if path == Paths.OffBoard then (Raises, st)
        else if path == Paths.Clear && (s1.rank == s2.rank || s1.file == s2.file || dr == df) then (Yes, st)
        else (No, st)
      case Rook =>
        if (s1.rank == s2.rank || s1.file == s2.file) && Paths.ClearPath(b, Rook, s1, s2) == Paths.Clear
        then (Yes, st.(rights := RookRights(st.rights, s1)))
        else (No, st)
  }

  /** friendly_fire(): does sq2 show a token of piece_color's list? */
  predicate FriendlyFire(st: State)
    requires WellFormed(st) && st.sq2.Some?
    ensures FriendlyFire(st) <==> st.squares[st.sq2.value].Piece? && st.color == Some(st.squares[st.sq2.value].color)
  {
    var target := st.squares[st.sq2.value];
    ColourLists(target);
    var token := Token(target);
    (st.color == Some(White) && token in WhitePieces) || (st.color == Some(Black) && token in BlackPieces)
  }

  /** find_king(): the first square, in iteration order from index i, that holds the king of colour c. */
  function FindKingFrom(b: map<Square, Piece>, c: Color, i: nat): (r: Option<Square>)
    requires ValidBoard(b) && i <= 64
    ensures r.Some? ==> OnBoard(r.value) && b[r.value] == Piece(c, King) && i <= IndexOf(r.value)
    ensures r.Some? ==> forall j :: i <= j < IndexOf(r.value) ==> b[SquareAt(j)] != Piece(c, King)
    ensures r.None? ==> forall j :: i <= j < 64 ==> b[SquareAt(j)] != Piece(c, King)
    decreases 64 - i
  {
    if i == 64 then None
    else if b[SquareAt(i)] == Piece(c, King) then Some(SquareAt(i))
    else FindKingFrom(b, c, i + 1)
  }

  /** find_king(king): the first square in iteration order that shows that king, if any. */
  function FindKing(b: map<Square, Piece>, c: Color): (r: Option<Square>)
    requires ValidBoard(b)
    ensures r.Some? ==> OnBoard(r.value) && b[r.value] == Piece(c, King)
    ensures r.Some? ==> forall j :: 0 <= j < IndexOf(r.value) ==> b[SquareAt(j)] != Piece(c, King)
    ensures r.None? ==> forall j :: 0 <= j < 64 ==> b[SquareAt(j)] != Piece(c, King)
  {
    FindKingFrom(b, c, 0)
  }

  /**
   * The loop of in_check from index i on: sq1 is set to each square in turn and
   * allowed_piece_move is asked about every piece not of the mover's colour;
   * the first answer other than False ends the scan, with the fields as the
   * probe left them. A scan that finds nothing restores sq1 and sq2.
   */
  function Scan(st: State, mover: Color, i: nat, prev1: Option<Square>, prev2: Option<Square>): (res: (Answer, State))
    requires WellFormed(st) && i <= 64
    requires (prev1.Some? ==> OnBoard(prev1.value)) && (prev2.Some? ==> OnBoard(prev2.value))
    ensures WellFormed(res.1) && SameSelection(res.1, st)
    ensures prev1.Some? ==> res.1.sq1.Some?
    ensures res.0 == No ==> res.1 == st.(sq1 := prev1, sq2 := prev2)
    ensures res.0 != No ==> res.1.sq2 == st.sq2 && res.1.sq1.Some?
    ensures RightsWithin(res.1.rights, st.rights)
    decreases 64 - i
  {
    if i == 64 then (No, st.(sq1 := prev1, sq2 := prev2))
    else
      var key := SquareAt(i);
      var probe := st.(sq1 := Some(key));
      var p := st.squares[key];
      if p.Piece? && p.color != mover then
        var attack := AllowedPieceMove(probe);
        if attack.0 == No then Scan(probe, mover, i + 1, prev1, prev2) else attack
      else Scan(probe, mover, i + 1, prev1, prev2)
  }

  /** in_check(): is the king of piece_color attacked, with sq2 set to where find_king found it? */
  function InCheck(st: State): (res: (Answer, State))
    requires WellFormed(st)
    ensures WellFormed(res.1) && SameSelection(res.1, st)
    ensures st.sq1.Some? ==> res.1.sq1.Some?
    ensures res.0 == No ==> res.1 == st
    ensures res.0 != No ==> st.color.Some? && res.1.sq2 == FindKing(st.squares, st.color.value)
    ensures RightsWithin(res.1.rights, st.rights)
  {
    match st.color
    case None => (No, st)
    case Some(c) => Scan(st.(sq2 := FindKing(st.squares, c)), c, 0, st.sq1, st.sq2)
  }

  /** It is this colour's turn: white on even turns, black on odd ones. */
  predicate TurnOf(c: Option<Color>, turns: nat) {
    (c == Some(White) && turns % 2 == 0) || (c == Some(Black) && turns % 2 == 1)
  }

  /** The condition that opens the promotion menu. */
  predicate PromotionDue(p: Piece, s: Square) {
    (p == Piece(White, Pawn) && s.rank == 8) || (p == Piece(Black, Pawn) && s.rank == 1)
  }

  /**
   * The tentative move of a second click that passed allowed_piece_move and
   * friendly_fire: the piece on sq1 goes to b, then in_check decides whether
   * the move is undone or committed.
   */
  function ApplyMove(st3: State, from: Square, b: Square): (res: (Click, State))
    requires WellFormed(st3) && OnBoard(from) && OnBoard(b) && st3.sq1 == Some(from) && st3.pressed == 1
    requires st3.color.Some?
    ensures Valid(res.1)
  {
    var moving, captured := st3.squares[from], st3.squares[b];
    var st4 := st3.(squares := st3.squares[b := moving][from := Empty]);
    var check := InCheck(st4);
    var st5 := check.1;
    if check.0 == Raises then (Raised, st5)
    else if check.0 == Yes then
      (RolledBack, st5.(squares := st5.squares[b := captured][from := moving], pressed := 0))
    else
      var st6 := st5.(pressed := 0, turns := st5.turns + 1);
      if PromotionDue(st6.squares[b], b) then (PromotionPending, st6) else (Moved, st6)
  }

  /** The second click of select_piece, on square b, once sq2 has been set to b. */
  function SecondClick(st2: State, b: Square): (res: (Click, State))
    requires WellFormed(st2) && OnBoard(b) && st2.sq1.Some? && st2.sq2 == Some(b) && st2.pressed == 1
    requires st2.color.Some?
    ensures Valid(res.1)
  {
    if Some(b) == st2.sq1 then (Deselected, st2.(pressed := 0))
    else
      var allowed := AllowedPieceMove(st2);
      var st3 := allowed.1;
      if allowed.0 == Raises then (Raised, st3)
      else if allowed.0 == No || FriendlyFire(st3) then (Refused, st3)
      else ApplyMove(st3, st2.sq1.value, b)
  }

  /** select_piece(button) for the button of square b. */
  function SelectPiece(st: State, b: Square): (res: (Click, State))
    requires Valid(st) && OnBoard(b)
    ensures Valid(res.1)
  {
    var p := st.squares[b];
    var color := if st.pressed == 0 && p.Piece? then Some(p.color) else st.color;
    var st1 := st.(color := color);
    if !(TurnOf(color, st.turns) || st.pressed == 1) then (Ignored, st1.(pressed := 0))
    else if st.pressed == 0 then (Selected, st1.(sq1 := Some(b), pressed := 1))
    else SecondClick(st1.(sq2 := Some(b)), b)
  }

  /** generate_promo_piece(piece): the chosen piece replaces what sq2 shows. */
  function GeneratePromoPiece(st: State, piece: Piece): (st': State)
    requires WellFormed(st) && st.sq2.Some?
    ensures WellFormed(st')
    ensures st'.squares[st.sq2.value] == piece
    ensures forall s :: s in st.squares && s != st.sq2.value ==> st'.squares[s] == st.squares[s]
    ensures st' == st.(squares := st'.squares)
  {
    st.(squares := st.squares[st.sq2.value := piece])
  }

  /** The pieces of the back rank, from file a to file h. */
  function BackRank(file: int): Kind
    requires 0 <= file < 8
  {
    [Rook, Knight, Bishop, Queen, King, Bishop, Knight, Rook][file]
  }

  /** set_starting_position(): what each square shows at the start. */
  function StartPiece(s: Square): Piece
    requires OnBoard(s)
  {
    if s.rank == 1 then Piece(White, BackRank(s.file))
    else if s.rank == 2 then Piece(White, Pawn)
    else if s.rank == 7 then Piece(Black, Pawn)
    else if s.rank == 8 then Piece(Black, BackRank(s.file))
    else Empty
  }

  function StartingPosition(): (b: map<Square, Piece>)
    ensures ValidBoard(b)
    ensures forall s :: OnBoard(s) ==> b[s] == StartPiece(s)
  {
    var b := map s | s in AllSquares :: StartPiece(s);
    assert forall s :: s in b <==> OnBoard(s) by {
      forall s ensures s in b <==> OnBoard(s) {
        AllSquaresAreOnBoard(s);
      }
    }
    b
  }

  /** The state after __init__ and set_starting_position. */
  function Initial(): (st: State)
    ensures Valid(st)
  {
    State(StartingPosition(), 0, 0, None, None, None, Rights(true, true, true, true))
  }
}
