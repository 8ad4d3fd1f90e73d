/** Pieces, squares, moves and the coordinate notation of the rules engine. */
module ChessTypes {

  datatype Option<T> = None | Some(value: T)

  datatype Color = White | Black

  datatype Kind = Pawn | Knight | Bishop | Rook | Queen | King

  /** A piece is a value: kind and colour, nothing else. */
  datatype Piece = Piece(kind: Kind, color: Color)

  /** (row, col) with row 0 the eighth rank and col 0 the a-file. Generated moves are always
      on the board; a parsed square may not be (rank digits '0' and '9'). */
  datatype Square = Sq(row: int, col: int)

  /** A move as the generator produces it. `captured` and `piece` are descriptive metadata
      and are not part of a move's identity. */
  datatype Move = Move(
    src: Square,
    dst: Square,
    promotion: Option<Kind>,
    isEnPassant: bool,
    isCastleKing: bool,
    isCastleQueen: bool,
    captured: Option<Piece>,
    piece: Option<Piece>)

  /** The tuple on which legality membership is tested. */
  datatype MoveId = MoveId(src: Square, dst: Square, promotion: Option<Kind>,
                           isEnPassant: bool, isCastleKing: bool, isCastleQueen: bool)

  function Id(m: Move): (k: MoveId)
    ensures k.src == m.src && k.dst == m.dst && k.promotion == m.promotion
    ensures k.isEnPassant == m.isEnPassant && k.isCastleKing == m.isCastleKing
    ensures k.isCastleQueen == m.isCastleQueen
  {
    MoveId(m.src, m.dst, m.promotion, m.isEnPassant, m.isCastleKing, m.isCastleQueen)
  }

  /** A bare move as a caller would build it: no flags, no metadata. */
  function Plain(src: Square, dst: Square): Move {
    Move(src, dst, None, false, false, false, None, None)
  }

  function Opponent(c: Color): (o: Color)
    ensures o != c
  {
    if c == White then Black else White
  }

  predicate InBounds(r: int, c: int) {
    0 <= r < 8 && 0 <= c < 8
  }

  predicate OnBoard(s: Square) {
    InBounds(s.row, s.col)
  }

  const Files: string := "abcdefgh"

  /** The letter of a kind, as upper case. */
  function KindLetter(k: Kind): char {
    match k
    case Pawn => 'P'
    case Knight => 'N'
    case Bishop => 'B'
    case Rook => 'R'
    case Queen => 'Q'
    case King => 'K'
  }

  function Lower(ch: char): char {
    if 'A' <= ch <= 'Z' then (ch as int + 32) as char else ch
  }

  function Upper(ch: char): char {
    if 'a' <= ch <= 'z' then (ch as int - 32) as char else ch
  }

  /** Upper case for White, lower case for Black. */
  function Symbol(p: Piece): (ch: char)
    ensures p.color == White ==> ch == KindLetter(p.kind)
    ensures p.color == Black ==> Upper(ch) == KindLetter(p.kind) && ch != KindLetter(p.kind)
  {
    if p.color == White then KindLetter(p.kind) else Lower(KindLetter(p.kind))
  }

  /** The piece a symbol stands for, when it stands for one. */
  function PieceOfSymbol(ch: char): Option<Piece> {
    match ch
    case 'P' => Some(Piece(Pawn, White))
    case 'N' => Some(Piece(Knight, White))
    case 'B' => Some(Piece(Bishop, White))
    case 'R' => Some(Piece(Rook, White))
    case 'Q' => Some(Piece(Queen, White))
    case 'K' => Some(Piece(King, White))
    case 'p' => Some(Piece(Pawn, Black))
    case 'n' => Some(Piece(Knight, Black))
    case 'b' => Some(Piece(Bishop, Black))
    case 'r' => Some(Piece(Rook, Black))
    case 'q' => Some(Piece(Queen, Black))
    case 'k' => Some(Piece(King, Black))
    case _ => None
  }

  lemma SymbolRoundTrip(p: Piece)
    ensures PieceOfSymbol(Symbol(p)) == Some(p)
    ensures !('0' <= Symbol(p) <= '9')
  {
  }

  function Map<A, B>(s: seq<A>, f: A -> B): (r: seq<B>)
    ensures |r| == |s| && forall i :: 0 <= i < |s| ==> r[i] == f(s[i])
  {
    if s == [] then [] else [f(s[0])] + Map(s[1..], f)
  }

  function LowerString(s: string): (r: string)
    ensures r == Map(s, Lower)
  {
    if s == [] then [] else [Lower(s[0])] + LowerString(s[1..])
  }

  /** The characters Python's str.strip() removes: tab, line feed, vertical tab, form feed and
      carriage return (U+0009-U+000D), the information separators U+001C-U+001F, space, next
      line U+0085, no-break space U+00A0, ogham space U+1680, the spaces U+2000-U+200A, the line
      and paragraph separators U+2028-U+2029, narrow no-break space U+202F, medium mathematical
      space U+205F and ideographic space U+3000. */
  predicate IsSpace(ch: char) {
    (9 as char <= ch <= 13 as char) || (28 as char <= ch <= 32 as char) ||
    ch == 0x85 as char || ch == 0xA0 as char || ch == 0x1680 as char ||
    (0x2000 as char <= ch <= 0x200A as char) || ch == 0x2028 as char || ch == 0x2029 as char ||
    ch == 0x202F as char || ch == 0x205F as char || ch == 0x3000 as char
  }

  function StripLeft(s: string): (r: string)
    ensures |r| <= |s| && r == s[|s| - |r|..]
    ensures r == [] || !IsSpace(r[0])
    ensures forall i :: 0 <= i < |s| - |r| ==> IsSpace(s[i])
  {
    if s != [] && IsSpace(s[0]) then StripLeft(s[1..]) else s
  }

  function StripRight(s: string): (r: string)
    ensures |r| <= |s| && r == s[..|r|]
    ensures r == [] || !IsSpace(r[|r| - 1])
    ensures forall i :: |r| <= i < |s| ==> IsSpace(s[i])
  {
    if s != [] && IsSpace(s[|s| - 1]) then StripRight(s[..|s| - 1]) else s
  }

  function Strip(s: string): string {
    StripRight(StripLeft(s))
  }

  function FileIndex(ch: char): (r: Option<int>)
    ensures r.Some? ==> 0 <= r.value < 8 && Files[r.value] == ch
    ensures r.None? ==> ch !in Files
  {
    if 'a' <= ch <= 'h' then Some(ch as int - 'a' as int) else None
  }

  /** 'e2' -> (6, 4). Where the source raises (no such file letter, fewer than two characters
      left after stripping, a second character that is not a digit) the result is None. The rank
      digit is not range-checked: '9' gives row -1 and '0' gives row 8. */
  function AlgebraicToCoords(text: string): (r: Option<Square>)
    ensures r.Some? ==> |LowerString(Strip(text))| >= 2
    ensures r.Some? ==> -1 <= r.value.row <= 8 && 0 <= r.value.col < 8
  {
    var sq := LowerString(Strip(text));
    if |sq| < 2 then None
    else match FileIndex(sq[0])
      case None => None
      case Some(file) =>
        if '0' <= sq[1] <= '9' then Some(Sq(8 - (sq[1] as int - '0' as int), file)) else None
  }

  function CoordsToAlgebraic(s: Square): (text: string)
    requires OnBoard(s)
    ensures |text| == 2 && 'a' <= text[0] <= 'h' && '1' <= text[1] <= '8'
  {
    [Files[s.col], (('0' as int) + 8 - s.row) as char]
  }

  /** A square name is unchanged by stripping and lower-casing. */
  lemma SquareNamePlain(t: string)
    requires |t| == 2 && 'a' <= t[0] <= 'h' && '1' <= t[1] <= '8'
    ensures LowerString(Strip(t)) == t
  {
    assert !IsSpace(t[0]) && !IsSpace(t[1]);
    assert StripLeft(t) == t;
    assert StripRight(t) == t;
    assert Lower(t[0]) == t[0] && Lower(t[1]) == t[1];
    assert LowerString(t) == t;
  }

  lemma CoordsRoundTrip(s: Square)
    requires OnBoard(s)
    ensures AlgebraicToCoords(CoordsToAlgebraic(s)) == Some(s)
  {
    SquareNamePlain(CoordsToAlgebraic(s));
  }

  /** Every square name "a1" .. "h8" survives the trip through coordinates. */
  lemma AlgebraicRoundTrip(text: string)
    requires |text| == 2 && 'a' <= text[0] <= 'h' && '1' <= text[1] <= '8'
    ensures AlgebraicToCoords(text).Some?
    ensures OnBoard(AlgebraicToCoords(text).value)
    ensures CoordsToAlgebraic(AlgebraicToCoords(text).value) == text
  {
    SquareNamePlain(text);
    var sq := Sq(8 - (text[1] as int - '0' as int), text[0] as int - 'a' as int);
    assert AlgebraicToCoords(text) == Some(sq);
    assert CoordsToAlgebraic(sq)[0] == text[0];
    assert CoordsToAlgebraic(sq)[1] == text[1];
  }
}
