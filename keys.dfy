/** The FEN-like repetition key: placement rank by rank with runs of empty squares as digits,
    side to move, castling rights and en-passant target; no clocks. */
module Keys {
  import opened ChessTypes
  import opened Positions

  /** The decimal digit of a run length 0 .. 9. */
  function Digit(n: int): (ch: char)
    requires 0 <= n <= 9
    ensures '0' <= ch <= '9' && ch as int - '0' as int == n
  {
    ('0' as int + n) as char
  }

  /** The pending run of `empty` squares, written out if there is one. */
  function Flush(empty: int): (s: string)
    requires 0 <= empty <= 9
  {
    if empty > 0 then [Digit(empty)] else []
  }

  /** Encoding of row[i..] when `empty` empty squares precede it. */
  function EncodeFrom(row: seq<Option<Piece>>, i: int, empty: int): string
    requires 0 <= i <= |row| && 0 <= empty && empty + |row| - i <= 9
    decreases |row| - i
  {
    if i == |row| then Flush(empty)
    else match row[i]
      case None => EncodeFrom(row, i + 1, empty + 1)
      case Some(p) => Flush(empty) + [Symbol(p)] + EncodeFrom(row, i + 1, 0)
  }

  function RankKey(row: seq<Option<Piece>>): string
    requires |row| <= 9
  {
    EncodeFrom(row, 0, 0)
  }

  /** The ranks from row r on, joined with '/'. */
  function RanksFrom(g: Grid, r: int): string
    requires GridShape(g) && 0 <= r < 8
    decreases 8 - r
  {
    if r == 7 then RankKey(g[7]) else RankKey(g[r]) + "/" + RanksFrom(g, r + 1)
  }

  function TurnKey(c: Color): string {
    if c == White then "w" else "b"
  }

  /** The held rights as letters in sorted order K, Q, k, q. */
  function RightsLetters(rights: set<Right>): (s: string)
    ensures forall i :: 0 <= i < |s| ==> s[i] in "KQkq"
  {
    (if WhiteKingside in rights then "K" else "") + (if WhiteQueenside in rights then "Q" else "") +
    (if BlackKingside in rights then "k" else "") + (if BlackQueenside in rights then "q" else "")
  }

  lemma RightsLettersEmpty(rights: set<Right>)
    ensures RightsLetters(rights) == "" <==> rights == {}
  {
    if rights != {} {
      var x :| x in rights;
      match x
      case WhiteKingside =>
      case WhiteQueenside =>
      case BlackKingside =>
      case BlackQueenside =>
    }
  }

  /** The held rights, or "-" when none is held. */
  function RightsKey(rights: set<Right>): string {
    var s := RightsLetters(rights);
    if s == "" then "-" else s
  }

  function EpKey(ep: Option<Square>): string
    requires ep.Some? ==> OnBoard(ep.value)
  {
    if ep.Some? then CoordsToAlgebraic(ep.value) else "-"
  }

  function PositionKey(p: Position): string
    requires WellFormed(p)
  {
    RanksFrom(p.grid, 0) + " " + TurnKey(p.turn) + " " + RightsKey(p.rights) + " " + EpKey(p.ep)
  }

  // --- What the key says ----------------------------------------------------------

  function Empties(n: nat): (s: seq<Option<Piece>>)
    ensures |s| == n && forall i :: 0 <= i < n ==> s[i].None?
  {
    if n == 0 then [] else [None] + Empties(n - 1)
  }

  /** Reading a rank back: a digit stands for that many empty squares, a symbol for its piece. */
  function DecodeRank(s: string): seq<Option<Piece>> {
    if s == [] then []
    else if '0' <= s[0] <= '9' then Empties(s[0] as int - '0' as int) + DecodeRank(s[1..])
    else [PieceOfSymbol(s[0])] + DecodeRank(s[1..])
  }

  lemma {:induction false} DecodeAppend(a: string, b: string)
    ensures DecodeRank(a + b) == DecodeRank(a) + DecodeRank(b)
  {
    if a == [] {
      assert a + b == b;
    } else {
      var ab := a + b;
      assert ab[0] == a[0];
      assert ab[1..] == a[1..] + b;
      DecodeAppend(a[1..], b);
      if '0' <= a[0] <= '9' {
        assert DecodeRank(ab) == Empties(a[0] as int - '0' as int) + DecodeRank(ab[1..]);
        assert DecodeRank(a) == Empties(a[0] as int - '0' as int) + DecodeRank(a[1..]);
      } else {
        assert DecodeRank(ab) == [PieceOfSymbol(a[0])] + DecodeRank(ab[1..]);
        assert DecodeRank(a) == [PieceOfSymbol(a[0])] + DecodeRank(a[1..]);
      }
    }
  }

  /** A run length and a piece symbol read back as the empty squares and the piece. */
  lemma DecodePiece(empty: int, p: Piece, rest: string)
    requires 0 <= empty <= 9
    ensures DecodeRank(Flush(empty) + [Symbol(p)] + rest) == Empties(empty) + [Some(p)] + DecodeRank(rest)
  {
    DecodeAppend(Flush(empty) + [Symbol(p)], rest);
    DecodeAppend(Flush(empty), [Symbol(p)]);
    SymbolRoundTrip(p);
    assert DecodeRank([Symbol(p)]) == [Some(p)] + DecodeRank([]);
    if empty > 0 {
      assert DecodeRank([Digit(empty)]) == Empties(empty) + DecodeRank([]);
    }
  }

  lemma {:induction false} EncodeFromDecodes(row: seq<Option<Piece>>, i: int, empty: int)
    requires 0 <= i <= |row| && 0 <= empty && empty + |row| - i <= 9
    ensures DecodeRank(EncodeFrom(row, i, empty)) == Empties(empty) + row[i..]
    decreases |row| - i
  {
    if i == |row| {
      if empty > 0 {
        assert DecodeRank([Digit(empty)]) == Empties(empty) + DecodeRank([]);
      }
    } else {
      match row[i]
      case None =>
        EncodeFromDecodes(row, i + 1, empty + 1);
        assert Empties(empty + 1) + row[i + 1..] == Empties(empty) + row[i..];
      case Some(p) =>
        EncodeFromDecodes(row, i + 1, 0);
        DecodePiece(empty, p, EncodeFrom(row, i + 1, 0));
        assert [row[i]] + row[i + 1..] == row[i..];
    }
  }

  /** A rank's key reads back as that rank, so each rank of the key accounts for exactly its
      eight squares (digit runs plus symbols). */
  lemma RankKeyRoundTrip(row: seq<Option<Piece>>)
    requires |row| <= 9
    ensures DecodeRank(RankKey(row)) == row
    ensures |row| == 8 ==> |DecodeRank(RankKey(row))| == 8
  {
    EncodeFromDecodes(row, 0, 0);
    assert row[0..] == row;
  }

  /** The key depends on placement, side to move, rights and en-passant target only. */
  lemma KeyIgnoresClocks(p: Position, halfmove: int, fullmove: int, counts: map<string, int>)
    requires WellFormed(p)
    ensures PositionKey(p) == PositionKey(p.(halfmove := halfmove, fullmove := fullmove, counts := counts))
  {
  }

  /** No rights and no en-passant target are both written "-"; otherwise the field is not "-". */
  lemma DashFields(rights: set<Right>, ep: Option<Square>)
    requires ep.Some? ==> OnBoard(ep.value)
    ensures RightsKey(rights) == "-" <==> rights == {}
    ensures EpKey(ep) == "-" <==> ep.None?
  {
    RightsLettersEmpty(rights);
    var s := RightsLetters(rights);
    if s != "" {
      assert s[0] != '-';
    }
  }
}
