/** Applying a move to the game state (chessprojectcode.py, ChessGame._make_move
    and reset_board), stated on values: the board, the side to move, the move
    history and the two capture counters. */
module Transition {
  import opened Options
  import opened Pieces
  import opened MoveGen

  datatype GameState = GameState(
    board: Board,
    turn: Color,
    history: seq<string>,
    whiteCaptures: nat,
    blackCaptures: nat)

  /** The state the game starts in and reset_board returns to. */
  function Initial(): (s: GameState)
    ensures s.turn == White && s.history == [] && s.whiteCaptures == s.blackCaptures == 0
    ensures s.board == StartBoard
  {
    GameState(StartBoard, White, [], 0, 0)
  }

  /** What a pawn turns into on arrival: 'P' on row 0 becomes 'Q', 'p' on row 7
      becomes 'q'; every other piece arrives as it left. */
  function Promoted(piece: char, tr: int): (q: char)
    ensures piece == 'P' && tr == 0 ==> q == 'Q'
    ensures piece == 'p' && tr == 7 ==> q == 'q'
    ensures q != piece ==> (piece == 'P' && tr == 0) || (piece == 'p' && tr == 7)
    ensures PieceColor(q) == PieceColor(piece)
  {
    if piece == 'P' && tr == 0 then 'Q'
    else if piece == 'p' && tr == 7 then 'q'
    else piece
  }

  /** The board after the piece on (fr, fc) goes to (tr, tc): the destination
      is written first, then the origin is emptied, then a pawn on the last
      row is replaced by a queen. */
  function Relocate(b: Board, fr: int, fc: int, tr: int, tc: int): (b': Board)
    requires OnBoard(fr, fc) && OnBoard(tr, tc)
    ensures (fr, fc) != (tr, tc) ==> b'[fr][fc] == Empty && b'[tr][tc] == Promoted(b[fr][fc], tr)
    ensures (fr, fc) == (tr, tc) ==>
      b'[tr][tc] == if Promoted(b[fr][fc], tr) != b[fr][fc] then Promoted(b[fr][fc], tr) else Empty
    ensures forall i, j :: OnBoard(i, j) && (i, j) != (fr, fc) && (i, j) != (tr, tc) ==> b'[i][j] == b[i][j]
  {
    var piece := b[fr][fc];
    var placed := b[tr := b[tr][tc := piece]];
    var emptied := placed[fr := placed[fr][fc := Empty]];
    if piece == 'P' && tr == 0 then emptied[tr := emptied[tr][tc := 'Q']]
    else if piece == 'p' && tr == 7 then emptied[tr := emptied[tr][tc := 'q']]
    else emptied
  }

  // ---------------------------------------------------------------------
  // The history record

  /** The file letter of a column: 'a' for column 0 up to 'h' for column 7. */
  function File(col: int): (f: char)
    requires 0 <= col < 8
    ensures 'a' <= f <= 'h' && f as int - 'a' as int == col
  {
    (col + 97) as char
  }

  /** The rank digit of a row: '8' for row 0 down to '1' for row 7. */
  function Rank(row: int): (d: char)
    requires 0 <= row < 8
    ensures '1' <= d <= '8' && 8 - (d as int - '0' as int) == row
  {
    ((8 - row) + 48) as char
  }

  /** The history entry of a move: "<symbol> <file><rank>-><file><rank>". */
  function Notation(piece: char, fr: int, fc: int, tr: int, tc: int): (s: string)
    requires OnBoard(fr, fc) && OnBoard(tr, tc)
    ensures |s| == 8 && s[0] == PieceSymbol(piece) && s[1] == ' ' && s[4..6] == "->"
  {
    [PieceSymbol(piece), ' ', File(fc), Rank(fr), '-', '>', File(tc), Rank(tr)]
  }

  /** Reads a history entry back: the symbol, the origin and the destination. */
  function ParseNotation(s: string): (m: Option<(char, Square, Square)>)
    ensures m.Some? ==> OnBoard(m.value.1.0, m.value.1.1) && OnBoard(m.value.2.0, m.value.2.1)
  {
    if |s| == 8 && s[1] == ' ' && s[4] == '-' && s[5] == '>'
       && 'a' <= s[2] <= 'h' && '1' <= s[3] <= '8'
       && 'a' <= s[6] <= 'h' && '1' <= s[7] <= '8'
    then
      var fc, fr := s[2] as int - 'a' as int, 8 - (s[3] as int - '0' as int);
      var tc, tr := s[6] as int - 'a' as int, 8 - (s[7] as int - '0' as int);
      Some((s[0], (fr, fc), (tr, tc)))
    else None
  }

  /** A history entry names its move unambiguously. */
  lemma NotationRoundTrip(piece: char, fr: int, fc: int, tr: int, tc: int)
    requires OnBoard(fr, fc) && OnBoard(tr, tc)
    ensures ParseNotation(Notation(piece, fr, fc, tr, tc)) == Some((PieceSymbol(piece), (fr, fc), (tr, tc)))
  {
  }

  /** Every parsed entry whose symbol is one Notation can write (an upper-case
      letter or '?') is written back character for character. */
  lemma ParseNotationInverse(s: string)
    requires ParseNotation(s).Some? && (IsUpper(s[0]) || s[0] == '?')
    ensures var m := ParseNotation(s).value;
      Notation(m.0, m.1.0, m.1.1, m.2.0, m.2.1) == s
  {
    var m := ParseNotation(s).value;
    var t := Notation(m.0, m.1.0, m.1.1, m.2.0, m.2.1);
    assert forall i :: 0 <= i < 8 ==> t[i] == s[i];
  }

  // ---------------------------------------------------------------------
  // The move

  /** The capture counter of a side. */
  function Captures(s: GameState, side: Color): nat {
    if side == White then s.whiteCaptures else s.blackCaptures
  }

  /** _make_move: credit a capture to the side to move, move the piece, record
      the move under the moving piece's letter before promotion, flip the turn. */
  function Apply(s: GameState, fr: int, fc: int, tr: int, tc: int): GameState
    requires OnBoard(fr, fc) && OnBoard(tr, tc)
  {
    var piece := s.board[fr][fc];
    var captured := s.board[tr][tc];
    var white := if captured != Empty && s.turn == White then s.whiteCaptures + 1 else s.whiteCaptures;
    var black := if captured != Empty && s.turn != White then s.blackCaptures + 1 else s.blackCaptures;
    GameState(
      Relocate(s.board, fr, fc, tr, tc),
      Opponent(s.turn),
      s.history + [Notation(piece, fr, fc, tr, tc)],
      white, black)
  }

  /** A state with the fields Apply computes is the state Apply returns. */
  lemma ApplyResult(s: GameState, fr: int, fc: int, tr: int, tc: int, t: GameState)
    requires OnBoard(fr, fc) && OnBoard(tr, tc)
    requires t.board == Relocate(s.board, fr, fc, tr, tc)
    requires t.turn == Opponent(s.turn)
    requires t.history == s.history + [Notation(s.board[fr][fc], fr, fc, tr, tc)]
    requires Captures(t, s.turn) == Captures(s, s.turn) + (if s.board[tr][tc] != Empty then 1 else 0)
    requires Captures(t, Opponent(s.turn)) == Captures(s, Opponent(s.turn))
    ensures t == Apply(s, fr, fc, tr, tc)
  {
  }

  /** The bookkeeping of one move: the turn passes to the other side, exactly
      one entry is appended and it names the move, and only the mover's
      counter changes, by one exactly when the destination was occupied. */
  lemma ApplyBookkeeping(s: GameState, fr: int, fc: int, tr: int, tc: int)
    requires OnBoard(fr, fc) && OnBoard(tr, tc)
    ensures var t := Apply(s, fr, fc, tr, tc);
      t.turn == Opponent(s.turn)
      && |t.history| == |s.history| + 1 && t.history[..|s.history|] == s.history
      && ParseNotation(t.history[|s.history|]) == Some((PieceSymbol(s.board[fr][fc]), (fr, fc), (tr, tc)))
      && Captures(t, s.turn) == Captures(s, s.turn) + (if s.board[tr][tc] != Empty then 1 else 0)
      && Captures(t, Opponent(s.turn)) == Captures(s, Opponent(s.turn))
  {
    var t := Apply(s, fr, fc, tr, tc);
    assert t.history[|s.history|] == Notation(s.board[fr][fc], fr, fc, tr, tc);
    NotationRoundTrip(s.board[fr][fc], fr, fc, tr, tc);
  }

  /** A White pawn arriving on row 0 becomes a White queen, a Black pawn
      arriving on row 7 a Black queen, and the history records the move under
      the pawn's letter 'P' either way. */
  lemma ApplyPromotes(s: GameState, fr: int, fc: int, tr: int, tc: int)
    requires OnBoard(fr, fc) && OnBoard(tr, tc)
    requires (s.board[fr][fc] == 'P' && tr == 0) || (s.board[fr][fc] == 'p' && tr == 7)
    ensures var t := Apply(s, fr, fc, tr, tc);
      t.board[tr][tc] == (if s.board[fr][fc] == 'P' then 'Q' else 'q')
      && ParseNotation(t.history[|t.history| - 1]) == Some(('P', (fr, fc), (tr, tc)))
  {
    ApplyBookkeeping(s, fr, fc, tr, tc);
  }

  /** The invariant the game keeps: White is to move exactly after an even
      number of moves, and no side has captured more often than it has moved. */
  predicate Consistent(s: GameState) {
    (s.turn == White <==> |s.history| % 2 == 0)
    && s.whiteCaptures <= (|s.history| + 1) / 2
    && s.blackCaptures <= |s.history| / 2
  }

  lemma InitialConsistent()
    ensures Consistent(Initial())
  {
  }

  lemma ApplyConsistent(s: GameState, fr: int, fc: int, tr: int, tc: int)
    requires OnBoard(fr, fc) && OnBoard(tr, tc) && Consistent(s)
    ensures Consistent(Apply(s, fr, fc, tr, tc))
  {
  }

  // ---------------------------------------------------------------------
  // Sequences of moves

  predicate AllOnBoard(moves: seq<(Square, Square)>) {
    forall i :: 0 <= i < |moves| ==>
      OnBoard(moves[i].0.0, moves[i].0.1) && OnBoard(moves[i].1.0, moves[i].1.1)
  }

  /** The state after applying `moves` one after the other. */
  function Play(s: GameState, moves: seq<(Square, Square)>): GameState
    requires AllOnBoard(moves)
  {
    if moves == [] then s
    else
      var m := moves[|moves| - 1];
      Apply(Play(s, moves[..|moves| - 1]), m.0.0, m.0.1, m.1.0, m.1.1)
  }

  /** One more flip of a turn that has flipped n times from `start`. */
  lemma FlipParity(start: Color, now: Color, n: nat)
    requires now == if n % 2 == 0 then start else Opponent(start)
    ensures Opponent(now) == if (n + 1) % 2 == 0 then start else Opponent(start)
  {
  }

  /** After N moves the history has grown by N entries and the turn has flipped
      N times. */
  lemma {:induction false} PlayAlternates(s: GameState, moves: seq<(Square, Square)>)
    requires AllOnBoard(moves)
    ensures |Play(s, moves).history| == |s.history| + |moves|
    ensures Play(s, moves).turn == if |moves| % 2 == 0 then s.turn else Opponent(s.turn)
  {
    if moves != [] {
      var front, m := moves[..|moves| - 1], moves[|moves| - 1];
      assert AllOnBoard(front);
      PlayAlternates(s, front);
      var p := Play(s, front);
      var t := Apply(p, m.0.0, m.0.1, m.1.0, m.1.1);
      assert Play(s, moves) == t;
      assert t.turn == Opponent(p.turn);
      FlipParity(s.turn, p.turn, |front|);
    }
  }

  /** From the initial state White is to move exactly after an even number of moves. */
  lemma WhiteMovesOnEven(moves: seq<(Square, Square)>)
    requires AllOnBoard(moves)
    ensures Play(Initial(), moves).turn == White <==> |moves| % 2 == 0
  {
    PlayAlternates(Initial(), moves);
  }

  /** Every reachable state keeps the invariant. */
  lemma {:induction false} PlayConsistent(s: GameState, moves: seq<(Square, Square)>)
    requires AllOnBoard(moves) && Consistent(s)
    ensures Consistent(Play(s, moves))
  {
    if moves != [] {
      var m := moves[|moves| - 1];
      PlayConsistent(s, moves[..|moves| - 1]);
      ApplyConsistent(Play(s, moves[..|moves| - 1]), m.0.0, m.0.1, m.1.0, m.1.1);
    }
  }
}
