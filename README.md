# Chess rules engine of `ChessGame`, modelled in Dafny

This project models the rules engine inside the `ChessGame` class of
`chessprojectcode.py`, a small Tkinter chess program. The window is not
modelled. The engine works on an 8x8 board of one-character codes:

- an upper-case letter is a White piece;
- any other character except `'.'` is a Black piece;
- `'.'` is an empty square.

Row 0 is Black's back rank and row 7 is White's. Columns are printed as the
files `a`..`h`, and row `r` is printed as the rank `8 - r`.

The project has five modules, one file each:

- `options.dfy` (`Options`) is the optional value: no colour for an empty
  square, no selected square.
- `pieces.dfy` (`Pieces`) holds the colours and the piece helpers
  `_piece_color` and `_piece_symbol`.
- `movegen.dfy` (`MoveGen`) holds `START_BOARD` and pseudo-legal move
  generation as pure functions on a board value.
  - `Moves` dispatches on the lower-cased piece letter, as `legal_moves` does.
  - `Ray`, `Rays`, `Steps` and `PawnMoves` produce the destination lists in
    the order the source appends them.
  - Independent descriptions of the reachable squares are stated beside
    them: `SlideReach`, `IsKnightJump`, `IsKingStep` and `PawnReach`.
  - The lemmas prove that the lists hold exactly those squares.
- `transition.dfy` (`Transition`) applies a move to the whole game state as
  a value. The state is a `GameState`: the board, the side to move, the
  history and the two capture counters.
  - `Apply` is `_make_move`.
  - `Play` applies a sequence of moves one after the other.
  - `Consistent` is the invariant every reachable state keeps.
- `game.dfy` (`Game`) holds the `ChessGame` class itself. The board is an
  `array2<char>` written in place, and the side to move, the selection, the
  history and the counters are fields.
  - Each loop of `legal_moves` is a method with loop invariants.
  - `_make_move`, `reset_board` and the selection logic of `on_click` are
    methods that change the object.
  - Every method is proved against the functions of `MoveGen` and
    `Transition`: `Grid()` and `State()` read the object as values, and the
    postconditions relate those values to the functions.

The geometry is that of Article 3 of the FIDE Laws of Chess, restricted to
what the code does. There is no castling, no en passant, no choice of
promotion piece, and no check or pin detection, and the model adds none of
them.

## Model

| member | source | states |
|---|---|---|
| Pieces.Opponent | chessprojectcode.py:132 | the turn always flips to the other colour |
| Pieces.Upper | chessprojectcode.py:171 | upper-cases a lower-case letter (code minus 32) and leaves every other character alone |
| Pieces.Lower | chessprojectcode.py:188 | lower-cases an upper-case letter (code plus 32) and leaves every other character alone |
| Pieces.PieceColor | chessprojectcode.py:165-168 | no colour exactly for `'.'`; White exactly for an upper-case letter; Black for every other character |
| Pieces.PieceSymbol | chessprojectcode.py:170-171 | a letter gives the upper-case letter of the same kind, which reads as White; anything else gives `'?'` |
| Pieces.SymbolIgnoresColor | chessprojectcode.py:170-171 | a White piece and its Black counterpart are recorded under the same letter |
| MoveGen.StartBoard | chessprojectcode.py:15-24 | the starting position; Transition.Initial and the constructor are stated against it |
| MoveGen.OnBoard | chessprojectcode.py:179 | the on_board test; MovesSound shows every destination passes it |
| MoveGen.Moves | chessprojectcode.py:173-248 | legal_moves as a function; characterised by MovesSound, KnightMoves, KingMoves, PawnMovesAt and SliderMovesAt |
| MoveGen.RayLength | chessprojectcode.py:204-211 | how many squares the walk of one direction collects; characterised by RayEntry and RayPasses |
| MoveGen.Ray | chessprojectcode.py:203-211 | the walk of one direction; characterised by RayStep and RayReach |
| MoveGen.Rays | chessprojectcode.py:201-239 | the walks of a direction table one after the other; characterised by RaysSnoc, RaysMember and SlideMoves |
| MoveGen.Candidate | chessprojectcode.py:181-186 | what add_move appends; characterised by StepsMember |
| MoveGen.Steps | chessprojectcode.py:213-215 | add_move over an offset table (knight, and the king's loops); characterised by StepsMember, KnightMoves and KingMoves |
| MoveGen.PawnPushes | chessprojectcode.py:190-195 | the single and double steps; characterised by PawnRules |
| MoveGen.PawnCaptures | chessprojectcode.py:196-199 | the diagonal captures; characterised by PawnCapturesMember |
| MoveGen.PawnMoves | chessprojectcode.py:189-199 | the pawn's destinations; characterised by PawnRules |
| MoveGen.KingOrder | chessprojectcode.py:242-246 | the nested `dr`/`dc` loops visit the king's offsets in table order, skipping (0, 0) |
| MoveGen.RayStep | chessprojectcode.py:204-211 | one step of the ray walk: the edge stops it; an empty square is added and the walk goes on; a piece of the other side is added and stops it; an own piece stops it |
| MoveGen.RaysSnoc | chessprojectcode.py:202-211 | each further direction appends its own walk to the list |
| MoveGen.RayEntry | chessprojectcode.py:204-211 | every square of a walk is enterable, and every square the walk passed before it is empty |
| MoveGen.AlongInjective | chessprojectcode.py:211 | two different step counts along a direction give two different squares |
| MoveGen.RayPasses | chessprojectcode.py:204-211 | if every square before step k is empty and step k is enterable, the walk reaches step k |
| MoveGen.RayFinds | chessprojectcode.py:204-211 | such a square k is the (k-1)-th entry of the walk |
| MoveGen.RayReach | chessprojectcode.py:202-211 | a walk holds exactly the squares SlideReach admits: some step along the direction, every square before it empty, and itself empty or opposing; nothing beyond a blocker |
| MoveGen.RaysMember | chessprojectcode.py:202-211 | the walks of a direction table hold exactly what one of the individual walks holds |
| MoveGen.SlideMoves | chessprojectcode.py:201-239 | a rook, bishop or queen list holds exactly the squares SlideReach admits along some direction of its table |
| MoveGen.InSomeRayAppend | chessprojectcode.py:230 | joining two direction tables joins the squares their walks hold |
| MoveGen.RaysAppendMember | chessprojectcode.py:230 | the same fact for the destination lists |
| MoveGen.QueenIsRookAndBishop | chessprojectcode.py:229-239 | the queen reaches exactly what a rook or a bishop on its square reaches |
| MoveGen.StepsSnoc | chessprojectcode.py:214-215 | each further offset appends what add_move adds for it |
| MoveGen.LandsSnoc | chessprojectcode.py:214-215 | an offset table lands on what its front part lands on, plus the square of its last offset |
| MoveGen.StepsMember | chessprojectcode.py:181-186 | an offset table's list holds exactly the on-board squares one offset lands on whose contents add_move accepts |
| MoveGen.KnightTable | chessprojectcode.py:214 | the knight table is exactly the (+-1, +-2) and (+-2, +-1) offsets |
| MoveGen.KingTable | chessprojectcode.py:242-245 | the king table is exactly the eight neighbouring offsets |
| MoveGen.OffsetHit | chessprojectcode.py:215 | landing on a square from (r, c) is the same as the table holding its offset from (r, c) |
| MoveGen.PawnCapturesSnoc | chessprojectcode.py:196-199 | each further side appends its capture test |
| MoveGen.FlanksSnoc | chessprojectcode.py:196-197 | the sides -1, 1 lead to what the front part leads to, plus the last side |
| MoveGen.PawnCapturesMember | chessprojectcode.py:196-199 | the diagonal part holds exactly the on-board squares one row forward and one column across that hold an opposing piece |
| MoveGen.PawnRules | chessprojectcode.py:189-199 | a pawn reaches exactly: one square forward if empty; two from row 6 (White) or row 1 (Black) if both squares are empty; one diagonal forward onto an opposing piece, never onto an empty square |
| MoveGen.StepsSound | chessprojectcode.py:181-186 | a knight or king destination is enterable and is not the origin |
| MoveGen.SlideSound | chessprojectcode.py:201-239 | a rook, bishop or queen destination is enterable and is not the origin |
| MoveGen.DestinationSound | chessprojectcode.py:173-248 | every destination is enterable for the mover's colour and is not the origin |
| MoveGen.MovesSound | chessprojectcode.py:174-186 | an empty origin has no moves; every destination is on the board, is not the origin, and does not hold a piece of the mover's colour |
| MoveGen.KnightMoves | chessprojectcode.py:213-215 | a knight reaches exactly the on-board knight jumps whose square does not hold its own colour |
| MoveGen.KingMoves | chessprojectcode.py:241-246 | a king reaches exactly the on-board neighbouring squares that do not hold its own colour |
| MoveGen.PawnMovesAt | chessprojectcode.py:189-199 | the pawn rules for the pawn actually on the square |
| MoveGen.SliderMovesAt | chessprojectcode.py:201-239 | the ray characterization for the rook, bishop or queen actually on the square |
| Transition.Initial | chessprojectcode.py:30-35 | the initial state: START_BOARD, White to move, an empty history, both counters 0 |
| Transition.Promoted | chessprojectcode.py:122-125 | 'P' arriving on row 0 becomes 'Q' and 'p' arriving on row 7 becomes 'q'; no other piece changes; the colour never changes |
| Transition.Relocate | chessprojectcode.py:118-125 | after a move the origin is '.', the destination holds the promoted piece, and every other square is unchanged; also states the case where origin and destination coincide |
| Transition.File | chessprojectcode.py:127 | `chr(fc+97)`: the letters 'a'..'h' for the columns 0..7 |
| Transition.Rank | chessprojectcode.py:127 | `8-fr`: the digits '8'..'1' for the rows 0..7 |
| Transition.Notation | chessprojectcode.py:127 | a history entry is eight characters: the piece symbol, a space, two coordinate characters, "->" and two coordinate characters; NotationRoundTrip shows that the coordinates name the origin and the destination |
| Transition.ParseNotation | chessprojectcode.py:127 | reading an entry back yields on-board squares |
| Transition.NotationRoundTrip | chessprojectcode.py:127 | reading an entry back gives the symbol, the origin and the destination of the move |
| Transition.ParseNotationInverse | chessprojectcode.py:127 | every well-formed entry whose symbol is one the history can hold (an upper-case letter or '?') is written back character for character |
| Transition.Apply | chessprojectcode.py:105-132 | _make_move on the state value; characterised by Relocate, ApplyBookkeeping, ApplyPromotes and ApplyConsistent |
| Transition.ApplyResult | chessprojectcode.py:105-132 | a state with the board, turn, history and counters the move produces is the state Apply returns |
| Transition.ApplyPromotes | chessprojectcode.py:122-128 | a 'P' moved to row 0 arrives as 'Q', a 'p' moved to row 7 arrives as 'q', and the history entry reads back under the letter 'P' |
| Transition.ApplyBookkeeping | chessprojectcode.py:109-132 | the turn flips; exactly one entry is appended and it reads back as the move under the pre-promotion letter; only the mover's counter changes, by one exactly when the destination was occupied |
| Transition.InitialConsistent | chessprojectcode.py:30-35 | the initial state satisfies the invariant |
| Transition.ApplyConsistent | chessprojectcode.py:109-132 | every move keeps the invariant: White moves after an even number of moves, and no side has more captures than moves |
| Transition.Play | chessprojectcode.py:105-132 | a sequence of _make_move calls one after the other; characterised by PlayAlternates and PlayConsistent |
| Transition.PlayAlternates | chessprojectcode.py:127-132 | after N moves the history has N more entries and the turn has flipped N times |
| Transition.WhiteMovesOnEven | chessprojectcode.py:132 | from the initial state White is to move exactly after an even number of moves |
| Transition.PlayConsistent | chessprojectcode.py:105-132 | every state reachable from a consistent one is consistent |
| Game.ChessGame.constructor | chessprojectcode.py:30-35 | a new game holds a fresh copy of START_BOARD, White to move, nothing selected, an empty history and both counters 0 |
| Game.ChessGame.ResetBoard | chessprojectcode.py:147-153 | a fresh START_BOARD, White to move, nothing selected, an empty history, both counters 0, whatever the state before |
| Game.ChessGame.MakeMove | chessprojectcode.py:105-132 | the new state is Apply of the old one; the invariant is kept; the selection is untouched |
| Game.ChessGame.MovePiece | chessprojectcode.py:118-125 | the board is written in place, and afterwards it reads as Relocate of the board before |
| Game.ChessGame.AddMove | chessprojectcode.py:181-186 | appends the square exactly when it is on the board and not held by the mover's colour |
| Game.ChessGame.PawnTargets | chessprojectcode.py:189-199 | computes PawnMoves; the unguarded double-step read on row r+2*dir is proved in range, because r is 6 or 1 there |
| Game.ChessGame.SlideTargets | chessprojectcode.py:201-239 | computes Rays for the direction table |
| Game.ChessGame.WalkRay | chessprojectcode.py:203-211 | the `while on_board` loop appends exactly the walk Ray of one direction |
| Game.ChessGame.StepTargets | chessprojectcode.py:214-215 | computes Steps for the knight table |
| Game.ChessGame.KingTargets | chessprojectcode.py:242-246 | computes Steps for the king table |
| Game.ChessGame.LegalMoves | chessprojectcode.py:173-248 | returns exactly Moves of the current board, and changes nothing |
| Game.ChessGame.OnClick | chessprojectcode.py:76-96 | with nothing selected, selects a square holding a piece of the side to move and otherwise changes nothing; with a square selected, always ends with nothing selected, and makes the move exactly when the square clicked is another square among its legal destinations; only a piece of the side to move is ever moved |

## Left out

- The Tkinter window is not modelled: `_build_ui`, `_draw_board`, `_highlight_moves`, `_append_history`, the `UNICODE` table, the redraw calls in `on_click`, the `history_box` updates in `reset_board`, and the `root`/`buttons` fields set in `__init__`. These are presentation and calls into a GUI library.
- `show_statistics` (chessprojectcode.py:134-145) is not modelled, because it only plots with matplotlib. Its count of White moves tests `m[0].isupper()`. By `Pieces.PieceSymbol` every letter is recorded upper-case, so that test holds for every entry, Black's moves included.
- NumPy is not modelled. `START_BOARD.copy()` is a fresh `array2<char>` filled from the board value `StartBoard`.
- Pieces.PieceColor, Pieces.PieceSymbol, Pieces.Upper and Pieces.Lower test ASCII letters only. Python's `isupper`, `isalpha`, `upper` and `lower` also handle non-ASCII letters. The board only ever holds ASCII piece letters and `'.'`, so this makes no difference there.
- Game.ChessGame.LegalMoves and Game.ChessGame.MakeMove require on-board coordinates. In the source they are only reached through clicks on the 8x8 grid of buttons, so Python's negative indexing never comes into play.
- Game.ChessGame.OnClick requires the object invariant `Valid() && SelectionOk()`. The constructor, `ResetBoard` and `OnClick` itself all establish it.
- Check, checkmate, stalemate, castling, en passant and the choice of promotion piece are not modelled, because the source does not implement them.
