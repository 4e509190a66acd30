/** Pieces are single characters: upper case is White, lower case is Black and
    '.' is an empty square (chessprojectcode.py, START_BOARD and the helpers
    _piece_color and _piece_symbol). Letter tests are over ASCII letters. */
module Pieces {
  import opened Options

  datatype Color = White | Black

  /** The marker of an empty square. */
  const Empty: char := '.'

  /** The side that is not `c`; the turn flips to it after every move. */
  function Opponent(c: Color): (o: Color)
    ensures o != c
  {
    if c == White then Black else White
  }

  predicate IsUpper(ch: char) { 'A' <= ch <= 'Z' }

  predicate IsLower(ch: char) { 'a' <= ch <= 'z' }

  predicate IsAlpha(ch: char) { IsUpper(ch) || IsLower(ch) }

  /** The upper-case form of an ASCII letter; anything else is returned as is. */
  function Upper(ch: char): (u: char)
    ensures IsLower(ch) ==> IsUpper(u) && u as int == ch as int - 32
    ensures !IsLower(ch) ==> u == ch
  {
    if IsLower(ch) then (ch as int - 32) as char else ch
  }

  /** The lower-case form of an ASCII letter; the piece kind of a piece letter. */
  function Lower(ch: char): (l: char)
    ensures IsUpper(ch) ==> IsLower(l) && l as int == ch as int + 32
    ensures !IsUpper(ch) ==> l == ch
  {
    if IsUpper(ch) then (ch as int + 32) as char else ch
  }

  /** The colour of the piece on a square: none for an empty square, White for
      an upper-case letter and Black for every other character. */
  function PieceColor(piece: char): (r: Option<Color>)
    ensures r.None? <==> piece == Empty
    ensures r == Some(White) <==> IsUpper(piece)
  {
    if piece == Empty then None
    else if IsUpper(piece) then Some(White)
    else Some(Black)
  }

  /** The letter written in the move history: the upper-case piece letter,
      whichever side owns the piece, or '?' for a character that is not a letter. */
  function PieceSymbol(piece: char): (s: char)
    ensures IsAlpha(piece) ==> IsUpper(s) && Lower(s) == Lower(piece)
    ensures IsAlpha(piece) ==> PieceColor(s) == Some(White)
    ensures !IsAlpha(piece) ==> s == '?' && !IsUpper(s)
  {
    if IsAlpha(piece) then Upper(piece) else '?'
  }

  /** A White piece and its Black counterpart are written alike in the history. */
  lemma SymbolIgnoresColor(piece: char)
    requires IsUpper(piece)
    ensures PieceSymbol(Lower(piece)) == PieceSymbol(piece) == piece
    ensures PieceColor(Lower(piece)) == Some(Black)
  {
  }
}
