/** Reading a move typed as text: castling tokens, then coordinates "e2e4" with an optional
    promotion letter, matched against the legal moves in their order. */
module MoveText {
  import opened ChessTypes

  const KingsideTokens: seq<string> := ["0-0", "o-o", "e1g1", "e8g8"]
  const QueensideTokens: seq<string> := ["0-0-0", "o-o-o", "e1c1", "e8c8"]

  /** The first castling move of the requested side in `legal`. */
  function FirstCastle(legal: seq<Move>, kingside: bool): (r: Option<Move>)
    ensures r.Some? ==> r.value in legal && (if kingside then r.value.isCastleKing else r.value.isCastleQueen)
    ensures r.None? <==> forall m :: m in legal ==> !(if kingside then m.isCastleKing else m.isCastleQueen)
  {
    if legal == [] then None
    else if (if kingside then legal[0].isCastleKing else legal[0].isCastleQueen) then Some(legal[0])
    else FirstCastle(legal[1..], kingside)
  }

  /** The promotion suffix agrees with the move's promotion: both absent, or the
      upper-cased letter names the promoted kind. */
  predicate PromoMatches(promo: Option<char>, k: Option<Kind>) {
    match (promo, k)
    case (None, None) => true
    case (Some(ch), Some(kind)) => ch == KindLetter(kind)
    case (_, _) => false
  }

  predicate Matches(m: Move, src: Square, dst: Square, promo: Option<char>) {
    m.src == src && m.dst == dst && PromoMatches(promo, m.promotion)
  }

  /** The first move of `legal` with the given squares and promotion. */
  function FirstMatch(legal: seq<Move>, src: Square, dst: Square, promo: Option<char>): (r: Option<Move>)
    ensures r.Some? ==> r.value in legal && Matches(r.value, src, dst, promo)
    ensures r.None? <==> forall m :: m in legal ==> !Matches(m, src, dst, promo)
    ensures r.Some? ==> exists i :: 0 <= i < |legal| && legal[i] == r.value &&
                          forall j :: 0 <= j < i ==> !Matches(legal[j], src, dst, promo)
  {
    if legal == [] then None
    else if Matches(legal[0], src, dst, promo) then Some(legal[0])
    else
      var r := FirstMatch(legal[1..], src, dst, promo);
      if r.Some? then
        var i :| 0 <= i < |legal[1..]| && legal[1..][i] == r.value &&
                 forall j :: 0 <= j < i ==> !Matches(legal[1..][j], src, dst, promo);
        assert legal[i + 1] == r.value;
        r
      else r
  }

  /** The text after stripping surrounding whitespace and lower-casing. */
  function Normal(text: string): string {
    LowerString(Strip(text))
  }

  /** The move `text` denotes among `legal`, or None. */
  function ParseMove(legal: seq<Move>, text: string): (r: Option<Move>)
    ensures r.Some? ==> r.value in legal
  {
    var s := Normal(text);
    if s in KingsideTokens then FirstCastle(legal, true)
    else if s in QueensideTokens then FirstCastle(legal, false)
    else if |s| != 4 && |s| != 5 then None
    else
      var src := AlgebraicToCoords(s[..2]);
      var dst := AlgebraicToCoords(s[2..4]);
      if src.None? || dst.None? then None
      else FirstMatch(legal, src.value, dst.value, if |s| == 5 then Some(Upper(s[4])) else None)
  }

  // --- What parsing promises ----------------------------------------------------

  /** A castling token yields a castling move of that side exactly when one is legal. */
  lemma CastlingTokens(legal: seq<Move>, text: string)
    ensures Normal(text) in KingsideTokens ==>
              (ParseMove(legal, text).Some? <==> exists m :: m in legal && m.isCastleKing) &&
              (ParseMove(legal, text).Some? ==> ParseMove(legal, text).value.isCastleKing)
    ensures Normal(text) in QueensideTokens ==>
              (ParseMove(legal, text).Some? <==> exists m :: m in legal && m.isCastleQueen) &&
              (ParseMove(legal, text).Some? ==> ParseMove(legal, text).value.isCastleQueen)
  {
    assert forall t :: t in KingsideTokens ==> t !in QueensideTokens;
  }

  /** "e1g1" and "e8c8" never denote anything but castling: a rook or queen moving between
      those squares cannot be entered as coordinates. */
  lemma CoordinatesShadowedByCastling(legal: seq<Move>)
    ensures ParseMove(legal, "e1g1") == FirstCastle(legal, true)
    ensures ParseMove(legal, "e8c8") == FirstCastle(legal, false)
  {
    var k, q := "e1g1", "e8c8";
    NormalPlain(k);
    NormalPlain(q);
    assert k == KingsideTokens[2];
    assert q == QueensideTokens[3];
    assert |KingsideTokens[0]| == 3 && |KingsideTokens[1]| == 3;
    assert q[1] != KingsideTokens[2][1];
    assert q[2] != KingsideTokens[3][2];
    assert q !in KingsideTokens;
  }

  /** Everything else of the wrong length is refused. */
  lemma WrongLengthRefused(legal: seq<Move>, text: string)
    requires Normal(text) !in KingsideTokens && Normal(text) !in QueensideTokens
    requires |Normal(text)| != 4 && |Normal(text)| != 5
    ensures ParseMove(legal, text).None?
  {
  }

  /** A coordinate parse: when either half names no square nothing is found; otherwise a move
      is found exactly when some legal move leaves the first square for the second with the
      requested promotion (none for four characters, the kind the fifth letter names for
      five), and the move found is the earliest such one in `legal`. */
  lemma CoordinateParse(legal: seq<Move>, text: string)
    requires Normal(text) !in KingsideTokens && Normal(text) !in QueensideTokens
    requires |Normal(text)| == 4 || |Normal(text)| == 5
    ensures var s := Normal(text);
            var src := AlgebraicToCoords(s[..2]);
            var dst := AlgebraicToCoords(s[2..4]);
            src.None? || dst.None? ==> ParseMove(legal, text).None?
    ensures var s := Normal(text);
            var src := AlgebraicToCoords(s[..2]);
            var dst := AlgebraicToCoords(s[2..4]);
            src.Some? && dst.Some? ==>
              (ParseMove(legal, text).Some? <==>
                 exists i :: 0 <= i < |legal| && legal[i].src == src.value && legal[i].dst == dst.value &&
                   (if |s| == 5 then legal[i].promotion.Some? && KindLetter(legal[i].promotion.value) == Upper(s[4])
                    else legal[i].promotion.None?))
    ensures var s := Normal(text);
            var src := AlgebraicToCoords(s[..2]);
            var dst := AlgebraicToCoords(s[2..4]);
            src.Some? && dst.Some? && ParseMove(legal, text).Some? ==>
              exists i :: 0 <= i < |legal| && legal[i] == ParseMove(legal, text).value &&
                legal[i].src == src.value && legal[i].dst == dst.value &&
                (if |s| == 5 then legal[i].promotion.Some? && KindLetter(legal[i].promotion.value) == Upper(s[4])
                 else legal[i].promotion.None?) &&
                forall j :: 0 <= j < i ==>
                  !(legal[j].src == src.value && legal[j].dst == dst.value &&
                    (if |s| == 5 then legal[j].promotion.Some? && KindLetter(legal[j].promotion.value) == Upper(s[4])
                     else legal[j].promotion.None?))
  {
    var s := Normal(text);
    var src := AlgebraicToCoords(s[..2]);
    var dst := AlgebraicToCoords(s[2..4]);
    if src.Some? && dst.Some? {
      var promo := if |s| == 5 then Some(Upper(s[4])) else None;
      assert ParseMove(legal, text) == FirstMatch(legal, src.value, dst.value, promo);
      forall m | m in legal
        ensures Matches(m, src.value, dst.value, promo) <==>
                  m.src == src.value && m.dst == dst.value &&
                  (if |s| == 5 then m.promotion.Some? && KindLetter(m.promotion.value) == Upper(s[4])
                   else m.promotion.None?)
      {
      }
    }
  }

  /** How a move is written: both squares, then the promotion letter in lower case. */
  function MoveString(m: Move): (t: string)
    requires OnBoard(m.src) && OnBoard(m.dst)
    ensures |t| == 4 || |t| == 5
  {
    CoordsToAlgebraic(m.src) + CoordsToAlgebraic(m.dst) +
    (if m.promotion.Some? then [Lower(KindLetter(m.promotion.value))] else [])
  }

  /** Text without whitespace or capitals is its own normal form. */
  lemma NormalPlain(t: string)
    requires forall i :: 0 <= i < |t| ==> !IsSpace(t[i]) && !('A' <= t[i] <= 'Z')
    ensures Normal(t) == t
  {
    if t != [] {
      assert StripLeft(t) == t;
      assert StripRight(t) == t;
    }
    var r := LowerString(t);
    assert forall i :: 0 <= i < |t| ==> r[i] == Lower(t[i]) == t[i];
  }

  lemma MoveStringShape(m: Move)
    requires OnBoard(m.src) && OnBoard(m.dst)
    ensures var t := MoveString(m);
            t[..2] == CoordsToAlgebraic(m.src) && t[2..4] == CoordsToAlgebraic(m.dst) &&
            (|t| == 5 <==> m.promotion.Some?) &&
            (|t| == 5 ==> Upper(t[4]) == KindLetter(m.promotion.value)) &&
            forall i :: 0 <= i < |t| ==> !IsSpace(t[i]) && !('A' <= t[i] <= 'Z')
  {
    var t := MoveString(m);
    var a, b := CoordsToAlgebraic(m.src), CoordsToAlgebraic(m.dst);
    assert t[..2] == a && t[2..4] == b;
    forall i | 0 <= i < |t| ensures !IsSpace(t[i]) && !('A' <= t[i] <= 'Z') {
      if i < 2 { assert t[i] == a[i]; } else if i < 4 { assert t[i] == b[i - 2]; }
    }
  }

  /** Writing a legal non-castling move and reading it back finds a legal move with the same
      squares and promotion (the first such), unless its text is one of the castling tokens. */
  lemma MoveStringRoundTrip(legal: seq<Move>, m: Move)
    requires m in legal && OnBoard(m.src) && OnBoard(m.dst)
    requires MoveString(m) !in KingsideTokens && MoveString(m) !in QueensideTokens
    ensures ParseMove(legal, MoveString(m)).Some?
    ensures var r := ParseMove(legal, MoveString(m)).value;
            r.src == m.src && r.dst == m.dst && r.promotion == m.promotion
  {
    var t := MoveString(m);
    MoveStringShape(m);
    NormalPlain(t);
    CoordsRoundTrip(m.src);
    CoordsRoundTrip(m.dst);
    var promo := if |t| == 5 then Some(Upper(t[4])) else None;
    assert PromoMatches(promo, m.promotion);
    var r := FirstMatch(legal, m.src, m.dst, promo);
    assert ParseMove(legal, t) == r;
    assert r.Some?;
    assert r.value.promotion == m.promotion by {
      match r.value.promotion {
        case None =>
        case Some(k) =>
          assert KindLetter(k) == KindLetter(m.promotion.value);
      }
    }
  }
}
