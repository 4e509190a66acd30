/** The game object (chessprojectcode.py, class ChessGame) without its window:
    the board is an 8x8 array updated in place, and the side to move, the
    selected square, the move history and the capture counters are fields.
    Every method is proved against the functions of MoveGen and Transition. */
module Game {
  import opened Options
  import opened Pieces
  import opened MoveGen
  import opened Transition

  class ChessGame {
    var board: array2<char>
    var turn: Color
    var selected: Option<Square>
    var moveHistory: seq<string>
    var whiteCaptures: nat
    var blackCaptures: nat

    ghost predicate Shaped()
      reads this`board
    {
      board.Length0 == 8 && board.Length1 == 8
    }

    /** The contents of an 8x8 array as a board value. */
    static ghost function GridOf(a: array2<char>): (g: Board)
      reads a
      requires a.Length0 == 8 && a.Length1 == 8
      ensures forall i, j :: OnBoard(i, j) ==> g[i][j] == a[i, j]
    {
      seq(8, i requires 0 <= i < 8 reads a =>
        seq(8, j requires 0 <= j < 8 reads a => a[i, j]))
    }

    /** An array that agrees with a board value on every square holds that board. */
    static lemma GridOfMatches(a: array2<char>, g: Board)
      requires a.Length0 == 8 && a.Length1 == 8
      requires forall i, j :: OnBoard(i, j) ==> a[i, j] == g[i][j]
      ensures GridOf(a) == g
    {
      BoardsEqual(GridOf(a), g);
    }

    /** The board as a value. */
    ghost function Grid(): (g: Board)
      reads this`board, board
      requires Shaped()
      ensures forall i, j :: OnBoard(i, j) ==> g[i][j] == board[i, j]
    {
      GridOf(board)
    }

    /** The whole game state as a value. */
    ghost function State(): GameState
      reads this`board, board, this`turn, this`moveHistory, this`whiteCaptures, this`blackCaptures
      requires Shaped()
    {
      GameState(Grid(), turn, moveHistory, whiteCaptures, blackCaptures)
    }

    /** The object invariant: an 8x8 board and a consistent game state. */
    ghost predicate Valid()
      reads this, board
    {
      Shaped() && Consistent(State())
    }

    /** A selected square holds a piece of the side to move (the test on_click
        makes before it selects a square). */
    ghost predicate SelectionOk()
      reads this, board
      requires Shaped()
    {
      selected.Some? ==>
        OnBoard(selected.value.0, selected.value.1)
        && PieceColor(board[selected.value.0, selected.value.1]) == Some(turn)
    }

    /** Fills a fresh board with the starting position and clears the rest. */
    constructor ()
      ensures Valid() && SelectionOk() && fresh(board)
      ensures State() == Initial() && selected == None
    {
      board := new char[8, 8]((i, j) requires 0 <= i < 8 && 0 <= j < 8 => StartBoard[i][j]);
      turn := White;
      selected := None;
      moveHistory := [];
      whiteCaptures := 0;
      blackCaptures := 0;
      new;
      BoardsEqual(Grid(), StartBoard);
    }

    /** reset_board: a fresh starting board, White to move, nothing selected,
        an empty history and both counters at zero, whatever came before. */
    method ResetBoard()
      modifies this
      ensures Valid() && SelectionOk() && fresh(board)
      ensures State() == Initial() && selected == None
    {
      board := new char[8, 8]((i, j) requires 0 <= i < 8 && 0 <= j < 8 => StartBoard[i][j]);
      turn := White;
      selected := None;
      moveHistory := [];
      whiteCaptures := 0;
      blackCaptures := 0;
      BoardsEqual(Grid(), StartBoard);
    }

    /** _make_move: credits a capture to the side to move, moves the piece,
        promotes a pawn on the last row, records the move and flips the turn. */
    method MakeMove(fr: int, fc: int, tr: int, tc: int)
      requires Shaped() && OnBoard(fr, fc) && OnBoard(tr, tc)
      modifies this, board
      ensures Shaped() && board == old(board) && selected == old(selected)
      ensures State() == Apply(old(State()), fr, fc, tr, tc)
      ensures Consistent(old(State())) ==> Consistent(State())
    {
      ghost var before := State();
      var piece := board[fr, fc];
      var captured := board[tr, tc];
      if captured != Empty {
        if turn == White {
          whiteCaptures := whiteCaptures + 1;
        } else {
          blackCaptures := blackCaptures + 1;
        }
      }
      MovePiece(fr, fc, tr, tc);
      ghost var g := Grid();
      var moveStr := Notation(piece, fr, fc, tr, tc);
      moveHistory := moveHistory + [moveStr];
      turn := Opponent(turn);
      assert Grid() == g;
      ghost var now := GameState(g, turn, moveHistory, whiteCaptures, blackCaptures);
      assert State() == now;
      ApplyResult(before, fr, fc, tr, tc, now);
      if Consistent(before) {
        ApplyConsistent(before, fr, fc, tr, tc);
      }
    }

    /** The board part of _make_move: the piece is written to the destination,
        the origin is emptied and a pawn on the last row becomes a queen. */
    method MovePiece(fr: int, fc: int, tr: int, tc: int)
      requires Shaped() && OnBoard(fr, fc) && OnBoard(tr, tc)
      modifies board
      ensures Grid() == Relocate(old(Grid()), fr, fc, tr, tc)
    {
      ghost var after := Relocate(Grid(), fr, fc, tr, tc);
      var piece := board[fr, fc];
      board[tr, tc] := piece;
      board[fr, fc] := Empty;
      if piece == 'P' && tr == 0 {
        board[tr, tc] := 'Q';
      } else if piece == 'p' && tr == 7 {
        board[tr, tc] := 'q';
      }
      forall i, j | OnBoard(i, j)
        ensures board[i, j] == after[i][j]
      {
        if (i, j) != (fr, fc) && (i, j) != (tr, tc) {
          assert board[i, j] == old(board[i, j]);
        }
      }
      GridOfMatches(board, after);
    }

    /** The add_move helper of legal_moves: appends (rr, cc) when it is on the
        board and not occupied by the mover's colour. */
    method AddMove(moves: seq<Square>, rr: int, cc: int, color: Color) returns (moves': seq<Square>)
      requires Shaped()
      ensures moves' == moves + Candidate(Grid(), color, rr, cc)
    {
      moves' := moves;
      if !OnBoard(rr, cc) {
        return;
      }
      var target := board[rr, cc];
      if target == Empty || PieceColor(target) != Some(color) {
        moves' := moves + [(rr, cc)];
      }
    }

    /** A pawn's forward steps and diagonal captures. */
    method PawnTargets(r: int, c: int, color: Color) returns (moves: seq<Square>)
      requires Shaped() && OnBoard(r, c)
      ensures moves == PawnMoves(Grid(), color, r, c)
    {
      ghost var b := Grid();
      var dir := if color == White then -1 else 1;
      moves := [];
      if OnBoard(r + dir, c) && board[r + dir, c] == Empty {
        moves := moves + [(r + dir, c)];
        var start := if color == White then 6 else 1;
        if r == start && board[r + 2 * dir, c] == Empty {
          moves := moves + [(r + 2 * dir, c)];
        }
      }
      ghost var pushes := PawnPushes(b, color, r, c);
      assert moves == pushes;
      for i := 0 to |PawnSides|
        invariant moves == pushes + PawnCaptures(b, color, r, c, PawnSides[..i])
      {
        var dc := PawnSides[i];
        var rr, cc := r + dir, c + dc;
        ghost var before := moves;
        if OnBoard(rr, cc) && board[rr, cc] != Empty && PieceColor(board[rr, cc]) != Some(color) {
          moves := moves + [(rr, cc)];
        }
        assert rr == r + Forward(color) && cc == c + PawnSides[i];
        assert moves == before + Capture(b, color, rr, cc);
        PawnCapturesSnoc(b, color, r, c, PawnSides, i);
        AppendAssoc(pushes, PawnCaptures(b, color, r, c, PawnSides[..i]), Capture(b, color, rr, cc));
      }
      assert PawnSides[..|PawnSides|] == PawnSides;
    }

    /** The rook, bishop and queen loops: one walk per direction of the table. */
    method SlideTargets(r: int, c: int, color: Color, dirs: seq<Square>) returns (moves: seq<Square>)
      requires Shaped() && OnBoard(r, c) && AllDirs(dirs)
      ensures moves == Rays(Grid(), color, r, c, dirs)
    {
      moves := [];
      for i := 0 to |dirs|
        invariant moves == Rays(Grid(), color, r, c, dirs[..i])
      {
        moves := WalkRay(moves, r, c, color, dirs[i].0, dirs[i].1);
        RaysSnoc(Grid(), color, r, c, dirs, i);
      }
      assert dirs[..|dirs|] == dirs;
    }

    /** The inner while loop of a sliding piece: from (r + dr, c + dc) outward
        while on the board, collect empty squares, collect the first occupied
        square when it is not the mover's colour, and stop there. */
    method WalkRay(moves0: seq<Square>, r: int, c: int, color: Color, dr: int, dc: int)
      returns (moves: seq<Square>)
      requires Shaped() && OnBoard(r, c) && IsDir((dr, dc))
      ensures moves == moves0 + Ray(Grid(), color, r, c, (dr, dc), 1)
    {
      ghost var b := Grid();
      moves := moves0;
      var rr, cc := r + dr, c + dc;
      ghost var k: nat := 1;
      while OnBoard(rr, cc)
        invariant 1 <= k && (rr, cc) == Along(r, c, (dr, dc), k)
        invariant moves + Ray(b, color, r, c, (dr, dc), k) == moves0 + Ray(b, color, r, c, (dr, dc), 1)
        decreases 8 - k
      {
        RayStep(b, color, r, c, (dr, dc), k);
        if board[rr, cc] == Empty {
          moves := moves + [(rr, cc)];
        } else {
          if PieceColor(board[rr, cc]) != Some(color) {
            moves := moves + [(rr, cc)];
          }
          break;
        }
        rr, cc := rr + dr, cc + dc;
        k := k + 1;
      }
    }

    /** The knight loop: add_move for each offset of the table in turn. */
    method StepTargets(r: int, c: int, color: Color, offsets: seq<Square>) returns (moves: seq<Square>)
      requires Shaped()
      ensures moves == Steps(Grid(), color, r, c, offsets)
    {
      moves := [];
      for i := 0 to |offsets|
        invariant moves == Steps(Grid(), color, r, c, offsets[..i])
      {
        moves := AddMove(moves, r + offsets[i].0, c + offsets[i].1, color);
        StepsSnoc(Grid(), color, r, c, offsets, i);
      }
      assert offsets[..|offsets|] == offsets;
    }

    /** The king loops: dr and dc each over -1, 0, 1, skipping (0, 0). */
    method KingTargets(r: int, c: int, color: Color) returns (moves: seq<Square>)
      requires Shaped()
      ensures moves == Steps(Grid(), color, r, c, KingSteps)
    {
      moves := [];
      for dr := -1 to 2
        invariant moves == Steps(Grid(), color, r, c, KingSteps[..KingDone(dr, -1)])
      {
        for dc := -1 to 2
          invariant moves == Steps(Grid(), color, r, c, KingSteps[..KingDone(dr, dc)])
        {
          KingOrder(dr, dc);
          if dr == 0 && dc == 0 {
            continue;
          }
          moves := AddMove(moves, r + dr, c + dc, color);
          StepsSnoc(Grid(), color, r, c, KingSteps, KingDone(dr, dc));
        }
        KingOrder(dr, 1);
      }
      assert KingSteps[..8] == KingSteps;
    }

    /** legal_moves: the destinations of the piece on (r, c). */
    method LegalMoves(r: int, c: int) returns (moves: seq<Square>)
      requires Shaped() && OnBoard(r, c)
      ensures moves == Moves(Grid(), r, c)
    {
      var piece := board[r, c];
      if piece == Empty {
        return [];
      }
      var color := PieceColor(piece).value;
      var p := Lower(piece);
      if p == 'p' {
        moves := PawnTargets(r, c, color);
      } else if p == 'r' {
        moves := SlideTargets(r, c, color, RookDirs);
      } else if p == 'n' {
        moves := StepTargets(r, c, color, KnightJumps);
      } else if p == 'b' {
        moves := SlideTargets(r, c, color, BishopDirs);
      } else if p == 'q' {
        moves := SlideTargets(r, c, color, QueenDirs);
      } else if p == 'k' {
        moves := KingTargets(r, c, color);
      } else {
        moves := [];
      }
    }

    /** The select-then-move step of on_click. With nothing selected, a click
        selects a square holding a piece of the side to move and is otherwise
        ignored. With a square selected, a click on it deselects; a click on one
        of its destinations makes that move; any other click deselects. */
    method OnClick(r: int, c: int)
      requires Valid() && SelectionOk() && OnBoard(r, c)
      modifies this, board
      ensures Valid() && SelectionOk() && board == old(board)
      ensures old(selected).None? ==>
        State() == old(State())
        && selected == if old(board[r, c]) != Empty && PieceColor(old(board[r, c])) == Some(old(turn))
                       then Some((r, c)) else None
      ensures old(selected).Some? ==> selected == None
      ensures old(selected).Some? ==>
        var from := old(selected).value;
        State() == if from != (r, c) && (r, c) in Moves(old(Grid()), from.0, from.1)
                   then Apply(old(State()), from.0, from.1, r, c)
                   else old(State())
      ensures moveHistory != old(moveHistory) ==>
        old(selected).Some?
        && PieceColor(old(Grid())[old(selected).value.0][old(selected).value.1]) == Some(old(turn))
    {
      var piece := board[r, c];
      if selected.None? {
        if piece == Empty || PieceColor(piece) != Some(turn) {
          return;
        }
        selected := Some((r, c));
      } else {
        var from := selected.value;
        if (r, c) == from {
          selected := None;
          return;
        }
        var moves := LegalMoves(from.0, from.1);
        if (r, c) in moves {
          MakeMove(from.0, from.1, r, c);
          selected := None;
        } else {
          selected := None;
        }
      }
    }
  }
}
