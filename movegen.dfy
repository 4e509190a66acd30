/** Pseudo-legal move generation (chessprojectcode.py, ChessGame.legal_moves),
    stated as functions on an 8x8 board value. Each function lists the
    destinations in the order the source appends them; the lemmas below say
    which squares these lists hold. */
module MoveGen {
  import opened Options
  import opened Pieces

  /** (row, column); row 0 is Black's back rank, row 7 White's. */
  type Square = (int, int)

  predicate IsBoard(b: seq<seq<char>>) {
    |b| == 8 && forall i :: 0 <= i < 8 ==> |b[i]| == 8
  }

  type Board = b: seq<seq<char>> | IsBoard(b)
    witness ["........", "........", "........", "........",
             "........", "........", "........", "........"]

  /** The starting position, START_BOARD. */
  const StartBoard: Board :=
    ["rnbqkbnr", "pppppppp", "........", "........",
     "........", "........", "PPPPPPPP", "RNBQKBNR"]

  /** Two boards that agree on every square are the same board. */
  lemma BoardsEqual(g: Board, h: Board)
    requires forall i, j :: OnBoard(i, j) ==> g[i][j] == h[i][j]
    ensures g == h
  {
    forall i | 0 <= i < 8
      ensures g[i] == h[i]
    {
      assert forall j :: 0 <= j < 8 ==> g[i][j] == h[i][j];
    }
  }

  /** The source's on_board test. */
  predicate OnBoard(r: int, c: int) { 0 <= r < 8 && 0 <= c < 8 }

  /** The test of add_move: the target is empty or not of the mover's colour. */
  predicate Enterable(b: Board, color: Color, r: int, c: int)
    requires OnBoard(r, c)
  {
    b[r][c] == Empty || PieceColor(b[r][c]) != Some(color)
  }

  /** The target holds a piece and it is not of the mover's colour. */
  predicate Opposing(b: Board, color: Color, r: int, c: int)
    requires OnBoard(r, c)
  {
    b[r][c] != Empty && PieceColor(b[r][c]) != Some(color)
  }

  // ---------------------------------------------------------------------
  // Direction and offset tables

  /** A ray direction: one step to one of the eight neighbouring squares. */
  predicate IsDir(d: Square) {
    -1 <= d.0 <= 1 && -1 <= d.1 <= 1 && d != (0, 0)
  }

  predicate AllDirs(dirs: seq<Square>) {
    forall i :: 0 <= i < |dirs| ==> IsDir(dirs[i])
  }

  const RookDirs: seq<Square> := [(1, 0), (-1, 0), (0, 1), (0, -1)]
  const BishopDirs: seq<Square> := [(1, 1), (1, -1), (-1, 1), (-1, -1)]
  const QueenDirs: seq<Square> :=
    [(1, 0), (-1, 0), (0, 1), (0, -1), (1, 1), (1, -1), (-1, 1), (-1, -1)]
  const KnightJumps: seq<Square> :=
    [(2, 1), (2, -1), (-2, 1), (-2, -1), (1, 2), (1, -2), (-1, 2), (-1, -2)]
  /** The king's offsets in the order of the source's nested loops over
      dr, dc in (-1, 0, 1), with (0, 0) skipped. */
  const KingSteps: seq<Square> :=
    [(-1, -1), (-1, 0), (-1, 1), (0, -1), (0, 1), (1, -1), (1, 0), (1, 1)]

  /** How many king offsets the nested loops have visited before (dr, dc). */
  ghost function KingDone(dr: int, dc: int): (n: nat)
    requires -1 <= dr <= 2 && -1 <= dc <= 2
    ensures n <= 8
  {
    if dr == 2 then 8
    else 3 * (dr + 1) + (dc + 1) - (if dr > 0 || (dr == 0 && dc > 0) then 1 else 0)
  }

  /** The nested loops visit KingSteps in order: (dr, dc) is the next offset,
      the skipped (0, 0) advances nothing, and a finished row continues the next. */
  lemma KingOrder(dr: int, dc: int)
    requires -1 <= dr <= 1 && -1 <= dc <= 1
    ensures (dr, dc) != (0, 0) ==>
      KingDone(dr, dc) < 8 && KingSteps[KingDone(dr, dc)] == (dr, dc)
      && KingDone(dr, dc + 1) == KingDone(dr, dc) + 1
    ensures (dr, dc) == (0, 0) ==> KingDone(dr, dc + 1) == KingDone(dr, dc)
    ensures KingDone(dr, 2) == KingDone(dr + 1, -1)
  {
  }

  /** One coordinate moved k unit steps in direction dx. */
  function Shift(x: int, dx: int, k: int): int {
    if dx > 0 then x + k else if dx < 0 then x - k else x
  }

  /** The square k steps from (r, c) in direction d. */
  function Along(r: int, c: int, d: Square, k: int): Square {
    (Shift(r, d.0, k), Shift(c, d.1, k))
  }

  // ---------------------------------------------------------------------
  // The move lists

  /** How many squares the walk of a sliding piece at (r, c) along d collects
      from step k outward: an empty square is collected and the walk goes on;
      the first occupied square is collected when it is not the mover's
      colour, and the walk stops there; the edge of the board stops it too. */
  function RayLength(b: Board, color: Color, r: int, c: int, d: Square, k: nat): nat
    requires OnBoard(r, c) && IsDir(d)
    decreases 8 - k
  {
    var sq := Along(r, c, d, k);
    if !OnBoard(sq.0, sq.1) then 0
    else if b[sq.0][sq.1] == Empty then 1 + RayLength(b, color, r, c, d, k + 1)
    else if PieceColor(b[sq.0][sq.1]) != Some(color) then 1
    else 0
  }

  /** The squares of that walk: steps k, k + 1, ..., as many as it collects. */
  function Ray(b: Board, color: Color, r: int, c: int, d: Square, k: nat): seq<Square>
    requires OnBoard(r, c) && IsDir(d)
  {
    seq(RayLength(b, color, r, c, d, k), i => Along(r, c, d, k + i))
  }

  /** One step of the walk: off the board it ends, an empty square is taken
      and the walk goes on, a piece of the other side is taken and ends it,
      a piece of the mover's colour ends it. */
  lemma RayStep(b: Board, color: Color, r: int, c: int, d: Square, k: nat)
    requires OnBoard(r, c) && IsDir(d)
    ensures var sq := Along(r, c, d, k);
      Ray(b, color, r, c, d, k) ==
        if !OnBoard(sq.0, sq.1) then []
        else if b[sq.0][sq.1] == Empty then [sq] + Ray(b, color, r, c, d, k + 1)
        else if PieceColor(b[sq.0][sq.1]) != Some(color) then [sq]
        else []
  {
    var sq := Along(r, c, d, k);
    if OnBoard(sq.0, sq.1) && b[sq.0][sq.1] == Empty {
      var w, rest := Ray(b, color, r, c, d, k), Ray(b, color, r, c, d, k + 1);
      assert |w| == 1 + |rest|;
      forall i | 1 <= i < |w| ensures w[i] == ([sq] + rest)[i] {
        assert k + i == (k + 1) + (i - 1);
      }
    }
  }

  /** One more direction adds its walk. */
  lemma RaysSnoc(b: Board, color: Color, r: int, c: int, dirs: seq<Square>, n: nat)
    requires OnBoard(r, c) && AllDirs(dirs) && n < |dirs|
    ensures Rays(b, color, r, c, dirs[..n + 1])
         == Rays(b, color, r, c, dirs[..n]) + Ray(b, color, r, c, dirs[n], 1)
  {
    assert dirs[..n + 1][..n] == dirs[..n];
  }

  /** The walks along each of `dirs`, one after the other. */
  function Rays(b: Board, color: Color, r: int, c: int, dirs: seq<Square>): seq<Square>
    requires OnBoard(r, c) && AllDirs(dirs)
  {
    if dirs == [] then []
    else Rays(b, color, r, c, dirs[..|dirs| - 1]) + Ray(b, color, r, c, dirs[|dirs| - 1], 1)
  }

  /** add_move applied to (r + o.0, c + o.1) for each offset o in turn. */
  function Steps(b: Board, color: Color, r: int, c: int, offsets: seq<Square>): seq<Square>
  {
    if offsets == [] then []
    else
      var o := offsets[|offsets| - 1];
      Steps(b, color, r, c, offsets[..|offsets| - 1]) + Candidate(b, color, r + o.0, c + o.1)
  }

  /** One more offset of a table adds what add_move adds for it. */
  lemma StepsSnoc(b: Board, color: Color, r: int, c: int, offsets: seq<Square>, n: nat)
    requires n < |offsets|
    ensures Steps(b, color, r, c, offsets[..n + 1])
         == Steps(b, color, r, c, offsets[..n]) + Candidate(b, color, r + offsets[n].0, c + offsets[n].1)
  {
    assert offsets[..n + 1][..n] == offsets[..n];
  }

  /** What add_move appends for a candidate square. */
  function Candidate(b: Board, color: Color, rr: int, cc: int): seq<Square>
  {
    if OnBoard(rr, cc) && Enterable(b, color, rr, cc) then [(rr, cc)] else []
  }

  /** Forward is towards row 0 for White and towards row 7 for Black. */
  function Forward(color: Color): int { if color == White then -1 else 1 }

  /** The row a pawn may advance two squares from. */
  function HomeRow(color: Color): int { if color == White then 6 else 1 }

  /** The single and double forward steps of a pawn. */
  function PawnPushes(b: Board, color: Color, r: int, c: int): seq<Square>
    requires OnBoard(r, c)
  {
    var dir := Forward(color);
    if OnBoard(r + dir, c) && b[r + dir][c] == Empty then
      [(r + dir, c)]
      + (if r == HomeRow(color) && b[r + 2 * dir][c] == Empty then [(r + 2 * dir, c)] else [])
    else []
  }

  /** The column offsets of the pawn's two diagonal captures, in source order. */
  const PawnSides: seq<int> := [-1, 1]

  /** The diagonal captures of a pawn towards each of `sides`. */
  function PawnCaptures(b: Board, color: Color, r: int, c: int, sides: seq<int>): seq<Square>
  {
    if sides == [] then []
    else
      PawnCaptures(b, color, r, c, sides[..|sides| - 1])
      + Capture(b, color, r + Forward(color), c + sides[|sides| - 1])
  }

  /** What the capture test of a pawn appends for a diagonal square. */
  function Capture(b: Board, color: Color, rr: int, cc: int): seq<Square>
  {
    if OnBoard(rr, cc) && Opposing(b, color, rr, cc) then [(rr, cc)] else []
  }

  lemma AppendAssoc(x: seq<Square>, y: seq<Square>, z: seq<Square>)
    ensures (x + y) + z == x + (y + z)
  {
  }

  /** One more side adds its capture. */
  lemma PawnCapturesSnoc(b: Board, color: Color, r: int, c: int, sides: seq<int>, n: nat)
    requires n < |sides|
    ensures PawnCaptures(b, color, r, c, sides[..n + 1])
         == PawnCaptures(b, color, r, c, sides[..n]) + Capture(b, color, r + Forward(color), c + sides[n])
  {
    assert sides[..n + 1][..n] == sides[..n];
  }

  function PawnMoves(b: Board, color: Color, r: int, c: int): seq<Square>
    requires OnBoard(r, c)
  {
    PawnPushes(b, color, r, c) + PawnCaptures(b, color, r, c, PawnSides)
  }

  /** The colour of the piece on a non-empty square. */
  function ColorAt(b: Board, r: int, c: int): Color
    requires OnBoard(r, c) && b[r][c] != Empty
  {
    PieceColor(b[r][c]).value
  }

  /** legal_moves: the destinations of the piece on (r, c), chosen by its
      lower-cased letter; an empty square and an unknown letter give none. */
  function Moves(b: Board, r: int, c: int): seq<Square>
    requires OnBoard(r, c)
  {
    var piece := b[r][c];
    if piece == Empty then []
    else
      var color := ColorAt(b, r, c);
      var p := Lower(piece);
      if p == 'p' then PawnMoves(b, color, r, c)
      else if p == 'r' then Rays(b, color, r, c, RookDirs)
      else if p == 'n' then Steps(b, color, r, c, KnightJumps)
      else if p == 'b' then Rays(b, color, r, c, BishopDirs)
      else if p == 'q' then Rays(b, color, r, c, QueenDirs)
      else if p == 'k' then Steps(b, color, r, c, KingSteps)
      else []
  }

  // ---------------------------------------------------------------------
  // Independent descriptions of the reachable squares

  function Abs(x: int): nat { if x < 0 then -x else x }

  predicate IsKnightJump(dr: int, dc: int) {
    (Abs(dr) == 1 && Abs(dc) == 2) || (Abs(dr) == 2 && Abs(dc) == 1)
  }

  predicate IsKingStep(dr: int, dc: int) {
    Abs(dr) <= 1 && Abs(dc) <= 1 && (dr, dc) != (0, 0)
  }

  /** Every square strictly between step 0 and step k along d is on the board and empty. */
  predicate Clear(b: Board, r: int, c: int, d: Square, k: int) {
    forall j :: 1 <= j < k ==>
      var sq := Along(r, c, d, j);
      OnBoard(sq.0, sq.1) && b[sq.0][sq.1] == Empty
  }

  /** A sliding piece on (r, c) may reach `sq` along d: some step k >= 1 lands on
      it, every square before it is empty, and it is empty or held by the other side. */
  ghost predicate SlideReach(b: Board, color: Color, r: int, c: int, d: Square, sq: Square) {
    exists k :: 1 <= k && sq == Along(r, c, d, k) && Clear(b, r, c, d, k)
      && OnBoard(sq.0, sq.1) && Enterable(b, color, sq.0, sq.1)
  }

  /** The pawn rules: one step forward onto an empty square, two steps from the
      home row across two empty squares, one step diagonally forward onto a
      piece of the other side. */
  predicate PawnReach(b: Board, color: Color, r: int, c: int, sq: Square)
    requires OnBoard(r, c)
  {
    var dir := Forward(color);
    OnBoard(sq.0, sq.1) &&
    ((sq == (r + dir, c) && b[r + dir][c] == Empty)
     || (sq == (r + 2 * dir, c) && r == HomeRow(color)
         && b[r + dir][c] == Empty && b[r + 2 * dir][c] == Empty)
     || (sq.0 == r + dir && (sq.1 == c - 1 || sq.1 == c + 1) && Opposing(b, color, sq.0, sq.1)))
  }

  // ---------------------------------------------------------------------
  // Lemmas: sliding pieces

  /** The square is on the board and empty. */
  predicate EmptyAt(b: Board, sq: Square) {
    OnBoard(sq.0, sq.1) && b[sq.0][sq.1] == Empty
  }

  /** The square is on the board and add_move would accept it. */
  predicate EnterableAt(b: Board, color: Color, sq: Square) {
    OnBoard(sq.0, sq.1) && Enterable(b, color, sq.0, sq.1)
  }

  /** The i-th square of the walk from step k is enterable, and every square
      the walk passed before it is empty. */
  lemma {:induction false} RayEntry(b: Board, color: Color, r: int, c: int, d: Square, k: nat, i: nat)
    requires OnBoard(r, c) && IsDir(d) && i < RayLength(b, color, r, c, d, k)
    ensures EnterableAt(b, color, Along(r, c, d, k + i))
    ensures forall j :: k <= j < k + i ==> EmptyAt(b, Along(r, c, d, j))
    decreases i
  {
    if i > 0 {
      RayEntry(b, color, r, c, d, k + 1, i - 1);
    }
  }

  /** Two different step counts along a direction give two different squares. */
  lemma AlongInjective(r: int, c: int, d: Square, i: int, j: int)
    requires IsDir(d) && i != j
    ensures Along(r, c, d, i) != Along(r, c, d, j)
  {
  }

  /** With every square before step k empty and step k enterable, the walk
      from step j (1 <= j <= k) goes on at least as far as step k. */
  lemma {:induction false} RayPasses(b: Board, color: Color, r: int, c: int, d: Square, j: nat, k: nat)
    requires OnBoard(r, c) && IsDir(d) && 1 <= j <= k
    requires Clear(b, r, c, d, k) && EnterableAt(b, color, Along(r, c, d, k))
    ensures RayLength(b, color, r, c, d, j) >= k - j + 1
    decreases k - j
  {
    if j < k {
      assert EmptyAt(b, Along(r, c, d, j));
      RayPasses(b, color, r, c, d, j + 1, k);
    }
  }

  /** Every square SlideReach admits along d at step k is in the walk, at index k - 1. */
  lemma RayFinds(b: Board, color: Color, r: int, c: int, d: Square, k: nat)
    requires OnBoard(r, c) && IsDir(d) && 1 <= k
    requires Clear(b, r, c, d, k) && EnterableAt(b, color, Along(r, c, d, k))
    ensures k - 1 < |Ray(b, color, r, c, d, 1)|
    ensures Ray(b, color, r, c, d, 1)[k - 1] == Along(r, c, d, k)
  {
    RayPasses(b, color, r, c, d, 1, k);
  }

  /** The walk along d from step 1 holds exactly the squares SlideReach admits. */
  lemma RayReach(b: Board, color: Color, r: int, c: int, d: Square, sq: Square)
    requires OnBoard(r, c) && IsDir(d)
    ensures sq in Ray(b, color, r, c, d, 1) <==> SlideReach(b, color, r, c, d, sq)
  {
    var w := Ray(b, color, r, c, d, 1);
    if sq in w {
      var i :| 0 <= i < |w| && w[i] == sq;
      RayEntry(b, color, r, c, d, 1, i);
      assert 1 <= i + 1 && sq == Along(r, c, d, i + 1) && Clear(b, r, c, d, i + 1);
    }
    if SlideReach(b, color, r, c, d, sq) {
      var k :| 1 <= k && sq == Along(r, c, d, k) && Clear(b, r, c, d, k)
        && OnBoard(sq.0, sq.1) && Enterable(b, color, sq.0, sq.1);
      RayFinds(b, color, r, c, d, k);
    }
  }

  /** Some walk of `dirs` holds `sq`. */
  ghost predicate InSomeRay(b: Board, color: Color, r: int, c: int, dirs: seq<Square>, sq: Square)
    requires OnBoard(r, c) && AllDirs(dirs)
  {
    exists i :: 0 <= i < |dirs| && sq in Ray(b, color, r, c, dirs[i], 1)
  }

  /** A direction list's walks hold exactly the squares one of its walks holds. */
  lemma {:induction false} RaysMember(b: Board, color: Color, r: int, c: int, dirs: seq<Square>, sq: Square)
    requires OnBoard(r, c) && AllDirs(dirs)
    ensures sq in Rays(b, color, r, c, dirs) <==> InSomeRay(b, color, r, c, dirs, sq)
  {
    if dirs != [] {
      var n := |dirs| - 1;
      var front := dirs[..n];
      var last := Ray(b, color, r, c, dirs[n], 1);
      RaysMember(b, color, r, c, front, sq);
      assert Rays(b, color, r, c, dirs) == Rays(b, color, r, c, front) + last;
      if sq in last {
        assert InSomeRay(b, color, r, c, dirs, sq);
      }
      if InSomeRay(b, color, r, c, front, sq) {
        var i :| 0 <= i < |front| && sq in Ray(b, color, r, c, front[i], 1);
        assert front[i] == dirs[i];
      }
      if InSomeRay(b, color, r, c, dirs, sq) && sq !in last {
        var i :| 0 <= i < |dirs| && sq in Ray(b, color, r, c, dirs[i], 1);
        assert i != n;
        assert front[i] == dirs[i];
        assert InSomeRay(b, color, r, c, front, sq);
      }
    }
  }

  /** A rook, bishop or queen on (r, c) reaches exactly the squares that some
      direction of its table reaches under SlideReach. */
  lemma SlideMoves(b: Board, color: Color, r: int, c: int, dirs: seq<Square>, sq: Square)
    requires OnBoard(r, c) && AllDirs(dirs)
    ensures sq in Rays(b, color, r, c, dirs) <==>
      exists i :: 0 <= i < |dirs| && SlideReach(b, color, r, c, dirs[i], sq)
  {
    RaysMember(b, color, r, c, dirs, sq);
    forall i | 0 <= i < |dirs|
      ensures sq in Ray(b, color, r, c, dirs[i], 1) <==> SlideReach(b, color, r, c, dirs[i], sq)
    {
      RayReach(b, color, r, c, dirs[i], sq);
    }
  }

  /** The walks of two direction lists put together hold what the walks of either hold. */
  lemma InSomeRayAppend(b: Board, color: Color, r: int, c: int, xs: seq<Square>, ys: seq<Square>, sq: Square)
    requires OnBoard(r, c) && AllDirs(xs) && AllDirs(ys)
    ensures AllDirs(xs + ys)
    ensures InSomeRay(b, color, r, c, xs + ys, sq) <==>
      InSomeRay(b, color, r, c, xs, sq) || InSomeRay(b, color, r, c, ys, sq)
  {
    var zs := xs + ys;
    assert AllDirs(zs) by {
      forall i | 0 <= i < |zs| ensures IsDir(zs[i]) {
        if i < |xs| { assert zs[i] == xs[i]; } else { assert zs[i] == ys[i - |xs|]; }
      }
    }
    if InSomeRay(b, color, r, c, zs, sq) {
      var i :| 0 <= i < |zs| && sq in Ray(b, color, r, c, zs[i], 1);
      if i < |xs| {
        assert zs[i] == xs[i];
      } else {
        assert zs[i] == ys[i - |xs|];
      }
    }
    if InSomeRay(b, color, r, c, xs, sq) {
      var i :| 0 <= i < |xs| && sq in Ray(b, color, r, c, xs[i], 1);
      assert zs[i] == xs[i];
    }
    if InSomeRay(b, color, r, c, ys, sq) {
      var i :| 0 <= i < |ys| && sq in Ray(b, color, r, c, ys[i], 1);
      assert zs[|xs| + i] == ys[i];
    }
  }

  /** The walks of two direction lists put together hold what the walks of either hold. */
  lemma RaysAppendMember(b: Board, color: Color, r: int, c: int, xs: seq<Square>, ys: seq<Square>, sq: Square)
    requires OnBoard(r, c) && AllDirs(xs) && AllDirs(ys)
    ensures AllDirs(xs + ys)
    ensures sq in Rays(b, color, r, c, xs + ys) <==>
      sq in Rays(b, color, r, c, xs) || sq in Rays(b, color, r, c, ys)
  {
    InSomeRayAppend(b, color, r, c, xs, ys, sq);
    RaysMember(b, color, r, c, xs + ys, sq);
    RaysMember(b, color, r, c, xs, sq);
    RaysMember(b, color, r, c, ys, sq);
  }

  /** A queen reaches exactly the squares a rook or a bishop on its square reaches. */
  lemma QueenIsRookAndBishop(b: Board, color: Color, r: int, c: int, sq: Square)
    requires OnBoard(r, c)
    ensures sq in Rays(b, color, r, c, QueenDirs) <==>
      sq in Rays(b, color, r, c, RookDirs) || sq in Rays(b, color, r, c, BishopDirs)
  {
    assert QueenDirs == RookDirs + BishopDirs;
    RaysAppendMember(b, color, r, c, RookDirs, BishopDirs, sq);
  }

  // ---------------------------------------------------------------------
  // Lemmas: knight and king

  /** Some offset of the table lands on `sq` from (r, c). */
  ghost predicate Lands(r: int, c: int, offsets: seq<Square>, sq: Square) {
    exists i :: 0 <= i < |offsets| && sq == (r + offsets[i].0, c + offsets[i].1)
  }

  /** A table lands on what its front part lands on and on what its last offset lands on. */
  lemma LandsSnoc(r: int, c: int, offsets: seq<Square>, sq: Square)
    requires offsets != []
    ensures var n := |offsets| - 1;
      Lands(r, c, offsets, sq) <==>
        Lands(r, c, offsets[..n], sq) || sq == (r + offsets[n].0, c + offsets[n].1)
  {
    var n := |offsets| - 1;
    var front := offsets[..n];
    if Lands(r, c, offsets, sq) {
      var i :| 0 <= i < |offsets| && sq == (r + offsets[i].0, c + offsets[i].1);
      if i < n {
        assert front[i] == offsets[i];
      }
    }
    if Lands(r, c, front, sq) {
      var i :| 0 <= i < |front| && sq == (r + front[i].0, c + front[i].1);
      assert front[i] == offsets[i];
    }
  }

  /** An offset table's destinations are exactly the on-board squares one of
      its offsets lands on that add_move accepts. */
  lemma {:induction false} StepsMember(b: Board, color: Color, r: int, c: int, offsets: seq<Square>, sq: Square)
    ensures sq in Steps(b, color, r, c, offsets) <==> Lands(r, c, offsets, sq) && EnterableAt(b, color, sq)
  {
    if offsets != [] {
      var n := |offsets| - 1;
      var o := offsets[n];
      StepsMember(b, color, r, c, offsets[..n], sq);
      LandsSnoc(r, c, offsets, sq);
      assert Steps(b, color, r, c, offsets)
          == Steps(b, color, r, c, offsets[..n]) + Candidate(b, color, r + o.0, c + o.1);
    }
  }

  /** The knight's table lists exactly the (+-1, +-2) and (+-2, +-1) jumps. */
  lemma KnightTable(dr: int, dc: int)
    ensures (exists i :: 0 <= i < |KnightJumps| && KnightJumps[i] == (dr, dc)) <==> IsKnightJump(dr, dc)
  {
    if IsKnightJump(dr, dc) {
      var i := if dr == 2 then (if dc == 1 then 0 else 1)
               else if dr == -2 then (if dc == 1 then 2 else 3)
               else if dr == 1 then (if dc == 2 then 4 else 5)
               else (if dc == 2 then 6 else 7);
      assert KnightJumps[i] == (dr, dc);
    }
  }

  /** The king's table lists exactly the eight neighbouring offsets. */
  lemma KingTable(dr: int, dc: int)
    ensures (exists i :: 0 <= i < |KingSteps| && KingSteps[i] == (dr, dc)) <==> IsKingStep(dr, dc)
  {
    if IsKingStep(dr, dc) {
      var i := if dr == -1 then dc + 1
               else if dr == 0 then (if dc == -1 then 3 else 4)
               else dc + 6;
      assert KingSteps[i] == (dr, dc);
    }
  }

  /** Offsets table membership, restated for a destination square. */
  lemma OffsetHit(r: int, c: int, offsets: seq<Square>, sq: Square)
    ensures Lands(r, c, offsets, sq) <==> exists i :: 0 <= i < |offsets| && offsets[i] == (sq.0 - r, sq.1 - c)
  {
  }

  // ---------------------------------------------------------------------
  // Lemmas: pawn

  /** Some column offset of `sides` leads from (r, c) one row forward to `sq`. */
  ghost predicate Flanks(color: Color, r: int, c: int, sides: seq<int>, sq: Square) {
    exists i :: 0 <= i < |sides| && sq == (r + Forward(color), c + sides[i])
  }

  lemma FlanksSnoc(color: Color, r: int, c: int, sides: seq<int>, sq: Square)
    requires sides != []
    ensures var n := |sides| - 1;
      Flanks(color, r, c, sides, sq) <==>
        Flanks(color, r, c, sides[..n], sq) || sq == (r + Forward(color), c + sides[n])
  {
    var n := |sides| - 1;
    var front := sides[..n];
    if Flanks(color, r, c, sides, sq) {
      var i :| 0 <= i < |sides| && sq == (r + Forward(color), c + sides[i]);
      if i < n {
        assert front[i] == sides[i];
      }
    }
    if Flanks(color, r, c, front, sq) {
      var i :| 0 <= i < |front| && sq == (r + Forward(color), c + front[i]);
      assert front[i] == sides[i];
    }
  }

  /** The diagonal captures are exactly the on-board squares one row forward
      and one of `sides` across that hold a piece of the other side. */
  lemma {:induction false} PawnCapturesMember(b: Board, color: Color, r: int, c: int, sides: seq<int>, sq: Square)
    ensures sq in PawnCaptures(b, color, r, c, sides) <==>
      Flanks(color, r, c, sides, sq) && OnBoard(sq.0, sq.1) && Opposing(b, color, sq.0, sq.1)
  {
    if sides != [] {
      var n := |sides| - 1;
      PawnCapturesMember(b, color, r, c, sides[..n], sq);
      FlanksSnoc(color, r, c, sides, sq);
      assert PawnCaptures(b, color, r, c, sides)
          == PawnCaptures(b, color, r, c, sides[..n]) + Capture(b, color, r + Forward(color), c + sides[n]);
    }
  }

  /** A pawn's destinations are exactly the squares the pawn rules admit. */
  lemma PawnRules(b: Board, color: Color, r: int, c: int, sq: Square)
    requires OnBoard(r, c)
    ensures sq in PawnMoves(b, color, r, c) <==> PawnReach(b, color, r, c, sq)
  {
    PawnCapturesMember(b, color, r, c, PawnSides, sq);
    if sq.0 == r + Forward(color) && sq.1 == c - 1 {
      assert sq == (r + Forward(color), c + PawnSides[0]);
    }
    if sq.0 == r + Forward(color) && sq.1 == c + 1 {
      assert sq == (r + Forward(color), c + PawnSides[1]);
    }
  }

  // ---------------------------------------------------------------------
  // Lemmas: the whole generator

  /** A destination of an offset table without (0, 0) is enterable and is not the origin. */
  lemma StepsSound(b: Board, color: Color, r: int, c: int, offsets: seq<Square>, sq: Square)
    requires forall i :: 0 <= i < |offsets| ==> offsets[i] != (0, 0)
    requires sq in Steps(b, color, r, c, offsets)
    ensures EnterableAt(b, color, sq) && sq != (r, c)
  {
    StepsMember(b, color, r, c, offsets, sq);
    var i :| 0 <= i < |offsets| && sq == (r + offsets[i].0, c + offsets[i].1);
  }

  /** A destination of a sliding piece is enterable and is not the origin. */
  lemma SlideSound(b: Board, color: Color, r: int, c: int, dirs: seq<Square>, sq: Square)
    requires OnBoard(r, c) && AllDirs(dirs)
    requires sq in Rays(b, color, r, c, dirs)
    ensures EnterableAt(b, color, sq) && sq != (r, c)
  {
    SlideMoves(b, color, r, c, dirs, sq);
    var i :| 0 <= i < |dirs| && SlideReach(b, color, r, c, dirs[i], sq);
    var k :| 1 <= k && sq == Along(r, c, dirs[i], k) && Clear(b, r, c, dirs[i], k)
      && OnBoard(sq.0, sq.1) && Enterable(b, color, sq.0, sq.1);
    AlongInjective(r, c, dirs[i], 0, k);
  }

  /** One destination of the piece on (r, c) is enterable for its colour and is not the origin. */
  lemma DestinationSound(b: Board, r: int, c: int, sq: Square)
    requires OnBoard(r, c) && sq in Moves(b, r, c)
    ensures b[r][c] != Empty && EnterableAt(b, ColorAt(b, r, c), sq) && sq != (r, c)
  {
    var color := ColorAt(b, r, c);
    var p := Lower(b[r][c]);
    if p == 'p' {
      PawnRules(b, color, r, c, sq);
    } else if p == 'n' {
      StepsSound(b, color, r, c, KnightJumps, sq);
    } else if p == 'k' {
      StepsSound(b, color, r, c, KingSteps, sq);
    } else if p == 'r' {
      SlideSound(b, color, r, c, RookDirs, sq);
    } else if p == 'b' {
      SlideSound(b, color, r, c, BishopDirs, sq);
    } else {
      SlideSound(b, color, r, c, QueenDirs, sq);
    }
  }

  /** Every destination is on the board, is not the origin, and does not hold
      a piece of the mover's colour; an empty origin has no destinations. */
  lemma MovesSound(b: Board, r: int, c: int)
    requires OnBoard(r, c)
    ensures b[r][c] == Empty ==> Moves(b, r, c) == []
    ensures forall sq :: sq in Moves(b, r, c) ==>
      OnBoard(sq.0, sq.1) && sq != (r, c)
      && b[r][c] != Empty && PieceColor(b[sq.0][sq.1]) != PieceColor(b[r][c])
  {
    forall sq | sq in Moves(b, r, c)
      ensures OnBoard(sq.0, sq.1) && sq != (r, c)
      ensures b[r][c] != Empty && PieceColor(b[sq.0][sq.1]) != PieceColor(b[r][c])
    {
      DestinationSound(b, r, c, sq);
    }
  }

  /** A knight's destinations are exactly the on-board knight jumps away from
      its origin that do not hold a piece of its own colour. */
  lemma KnightMoves(b: Board, r: int, c: int, sq: Square)
    requires OnBoard(r, c) && Lower(b[r][c]) == 'n'
    ensures sq in Moves(b, r, c) <==>
      OnBoard(sq.0, sq.1) && IsKnightJump(sq.0 - r, sq.1 - c)
      && PieceColor(b[sq.0][sq.1]) != PieceColor(b[r][c])
  {
    StepsMember(b, ColorAt(b, r, c), r, c, KnightJumps, sq);
    OffsetHit(r, c, KnightJumps, sq);
    KnightTable(sq.0 - r, sq.1 - c);
  }

  /** A king's destinations are exactly the on-board neighbouring squares that
      do not hold a piece of its own colour. */
  lemma KingMoves(b: Board, r: int, c: int, sq: Square)
    requires OnBoard(r, c) && Lower(b[r][c]) == 'k'
    ensures sq in Moves(b, r, c) <==>
      OnBoard(sq.0, sq.1) && IsKingStep(sq.0 - r, sq.1 - c)
      && PieceColor(b[sq.0][sq.1]) != PieceColor(b[r][c])
  {
    StepsMember(b, ColorAt(b, r, c), r, c, KingSteps, sq);
    OffsetHit(r, c, KingSteps, sq);
    KingTable(sq.0 - r, sq.1 - c);
  }

  /** A pawn's destinations, for the piece actually on the square. */
  lemma PawnMovesAt(b: Board, r: int, c: int, sq: Square)
    requires OnBoard(r, c) && Lower(b[r][c]) == 'p'
    ensures sq in Moves(b, r, c) <==> PawnReach(b, ColorAt(b, r, c), r, c, sq)
  {
    PawnRules(b, ColorAt(b, r, c), r, c, sq);
  }

  /** A rook, bishop or queen reaches exactly what one of its directions reaches. */
  lemma SliderMovesAt(b: Board, r: int, c: int, sq: Square)
    requires OnBoard(r, c)
    requires Lower(b[r][c]) == 'r' || Lower(b[r][c]) == 'b' || Lower(b[r][c]) == 'q'
    ensures var dirs := if Lower(b[r][c]) == 'r' then RookDirs
                        else if Lower(b[r][c]) == 'b' then BishopDirs else QueenDirs;
      sq in Moves(b, r, c) <==>
        exists i :: 0 <= i < |dirs| && SlideReach(b, ColorAt(b, r, c), r, c, dirs[i], sq)
  {
    var dirs := if Lower(b[r][c]) == 'r' then RookDirs
                else if Lower(b[r][c]) == 'b' then BishopDirs else QueenDirs;
    SlideMoves(b, ColorAt(b, r, c), r, c, dirs, sq);
  }
}
