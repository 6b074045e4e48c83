# Four-player chess rules engine — a Dafny model

This project models the rules engine of a four-player chess variant played
on a 14×14 board (`src/chess.js`). It covers the coordinate helpers, move
generation for the six piece types, and what the drop handler does to the
game state when it accepts a move. The turn passes red → blue → yellow →
green → red.

The JavaScript keeps its state in the page: pieces are elements inside
square elements, and the flags are CSS classes. The model replaces that
with an explicit state:

- `Engine.Game` is a class. Its `board` field is an array of 196 cells, and
  cell `Index(c)` (that is, y·14 + x) holds the optional piece on square `c`.
- A `Pieces.Piece` is its type, its colour and its `first-move` flag.
- `inactive` is the set of squares that the page marks `inactive`. The
  markup is not part of this model, so the set is a constructor parameter.
  It is any set: the model does not fix it to the four 3×3 corners.
- The fields `validMoves`, `lastMove`, `currentTurnIndex` and `currentTurn`
  are the script's globals. `lastMove` is an `Option` and starts as `None`.
- The starting layout is also a constructor parameter.

Modules:

- `Squares`: coordinates, cell indices, square names ("a1" … "n14") and
  their parsing.
- `Pieces`: colours, kinds, pieces, the board value, the valid-square test,
  the last-move record and the turn order.
- `Moves`: move generation as functions of a board value, plus their lemmas.
- `Execution`: the board after an accepted move.
- `Engine`: the `Game` class. Its methods loop over the board and append
  to `validMoves` the way the script does. Each method's postcondition
  equates the list with the corresponding `Moves` function.

The proofs cover:

- **Square names.** Names and coordinates round-trip in both directions,
  and off-grid coordinates have no name.
- **Rays.** A ray is the maximal run of valid empty squares, in order,
  followed by the first occupied square only when it holds another colour.
  The queen's list is the rook's list followed by the bishop's.
- **Knight and king.** Their moves are exactly the reachable squares at
  their offsets, in offset order.
- **Pawns.** The forward, capture and en-passant rules hold as the code
  writes them.
- **Safety.** No generated destination is off the grid, inactive, or
  holding the mover's colour.
- **Execution.** A move relocates the mover, clears a pawn's flag, keeps
  every other square, and passes the turn to the next colour.

Behaviour the code has that a reader might not expect:

- **No extras.** The code has no move counter, no promotion, no resignation
  and no turn skipping.
- **Wrong-colour drops.** A drop of a piece of the wrong colour is simply
  ignored. No error is raised.
- **En-passant square.** The en-passant square is `lastMove.from` plus the
  mover's forward direction (line 150), not the square the passed pawn
  skipped. `Moves.PassingSquareFromStart` shows an example: a red pawn on
  (7,4) is offered (4,5), three files away.
- **Passed pawn.** An en-passant move captures nothing: the executor only
  removes a piece that stands on the destination.

More behaviour the model keeps:

- **Drop onto its own square.** This can only happen if `validMoves` is
  stale. The script first removes the mover as the "captured" piece, then
  the second `removeChild` throws. The model leaves the square empty and
  changes nothing else. `Engine.Game.Drop` proves the branch cannot be
  reached when `validMoves` was computed for the piece on `from`.
- **First move of the game.** The script reads the undeclared global
  `lastMove` at line 139 and throws. By then the forward and capture moves
  are already in `validMoves`, so the list the drop later checks is the
  list the model computes with `lastMove == None`. The throw only skips
  the highlighting.
- **Draggable pieces.** The `draggable` attribute is set for exactly the
  pieces of `currentTurn` (line 249). The model reads it as "the piece's
  colour is `currentTurn`" (`Engine.Game.Draggable`).

## Model

| member | source | states |
|---|---|---|
| `Squares.SquareName` | src/chess.js:39-43 | A coordinate has a name exactly when it lies in the 14×14 grid. The name has at least two characters and starts with a letter from 'a' to 'n'. `Squares.NameRoundTrip` fixes the rest: the letter gives x and the numeral after it gives y+1. |
| `Squares.NameRoundTrip` | src/chess.js:31-43 | For every in-grid coordinate, parsing its square name gives the coordinate back. |
| `Squares.NamesDistinct` | src/chess.js:39-43 | Distinct in-grid squares have distinct names, so a square name identifies one square. |
| `Squares.PositionRoundTrip` | src/chess.js:31-37 | A name made of a letter a–n and a numeral without a leading zero, naming an in-grid square, is that square's name. |
| `Squares.ParseInt` | src/chess.js:35 | `parseInt` gives a number exactly when the string starts with a digit, and on a string made only of digits it gives their decimal value. |
| `Squares.Position` | src/chess.js:31-37 | A position has a coordinate exactly when it has a character followed by a digit. Then x is the first character's offset from 'a', and y is at least -1 (the number after the letter, less one). |
| `Squares.ParseDecimal` | src/chess.js:35 | `parseInt` of the decimal numeral of n returns n. |
| `Pieces.IsValidSquare` | src/chess.js:45-47 | Definition: a square is valid when it lies on the grid (so `getSquareAt` finds it) and is not marked inactive. |
| `Pieces.Occupant` | src/chess.js:166 | Definition: the piece standing on an in-grid square, if any, read from the board's cell for that square. |
| `Pieces.NextTurnIndex` | src/chess.js:351-354 | The next turn index stays in [0,4), and its colour is the successor of the current colour (red→blue→yellow→green→red). |
| `Pieces.TurnsCycle` | src/chess.js:21-23 | Four turn advances return to the same index, and the four colours visited are all four colours. |
| `Moves.Ray` | src/chess.js:161-176 | Definition of one ray walk: collect empty valid squares, collect the first occupied square only if it holds another colour, and stop at an invalid or occupied square. `Moves.RaySafe` and `Moves.RayShape` state its properties. |
| `Moves.RaySafe` | src/chess.js:160-177 | Every square a ray collects is valid, and either empty or holding another colour. |
| `Moves.RayShape` | src/chess.js:159-178 | The ray's i-th square is the start plus i steps. Every square before the last is valid and empty. The last is reachable. When the ray ends empty, the next square is invalid or holds the mover's colour, so nothing beyond the stop is included. |
| `Moves.Slide` | src/chess.js:159-178 | Definition: the rays of the listed directions, one after another in list order. `Moves.SlideSafe`, `Moves.SlideAppend` and `Moves.SlideSnoc` state its properties. |
| `Moves.SlideSafe` | src/chess.js:159-178 | Every destination of a sliding piece is valid, and either empty or holding another colour. |
| `Moves.SlideAppend` | src/chess.js:159-178 | Walking a concatenation of direction lists gives the concatenation of their destination lists. |
| `Moves.SlideSnoc` | src/chess.js:159-178 | Walking one more direction appends that direction's ray to the destinations so far. |
| `Moves.QueenIsRookThenBishop` | src/chess.js:200-203 | The queen's list is the rook's list followed by the bishop's list. |
| `Moves.Jumps` | src/chess.js:213-222 | Every knight or king destination is reachable, and there are at most as many as offsets. |
| `Moves.JumpsMembership` | src/chess.js:205-241 | A square is a knight/king destination exactly when it is the piece's square plus a listed offset, and it is valid and empty or holds another colour. |
| `Moves.JumpsInOrder` | src/chess.js:205-241 | Knight/king destinations come in offset order: of two destinations, the earlier one comes from an earlier offset. |
| `Moves.PawnDir` | src/chess.js:86-92 | Each colour's pawn direction is a single orthogonal unit step. |
| `Moves.Forward` | src/chess.js:94-108 | The one-step square is included iff it is valid and empty, and it comes first. The two-step square is included iff the one-step square is valid and empty, the pawn has `first-move`, and the two-step square is valid and empty. Nothing else is included. |
| `Moves.Captures` | src/chess.js:127-136 | Every pawn capture square holds a piece of another colour. |
| `Moves.CapturesMembership` | src/chess.js:110-136 | A square is a pawn capture exactly when it is the pawn's square plus one of the colour's diagonal offsets and holds a piece of another colour. |
| `Moves.PassingScan` | src/chess.js:147-155 | The en-passant scan yields only the square `lastMove.from` plus the mover's direction, and only when that square is valid and empty. |
| `Moves.EnPassant` | src/chess.js:138-156 | At most one en-passant square exists. It exists iff the last move was a pawn's two-square move, its `to` is the pawn's square plus one of its two sideways offsets, and `lastMove.from` plus the mover's direction is valid and empty. That square is then the one returned. |
| `Moves.PassingSquareFromStart` | src/chess.js:150 | After yellow's pawn moves from (5,5) to (7,5), red's pawn on (7,4) is offered (4,5), three files away, because the square is taken from `lastMove.from`. |
| `Moves.PawnMoves` | src/chess.js:85-157 | Every pawn destination is valid, and either empty or holding another colour. |
| `Moves.PawnMoveKinds` | src/chess.js:94-136 | An empty destination of a pawn is a forward or en-passant move. An occupied one is a capture at a diagonal offset onto another colour. |
| `Moves.ValidMoves` | src/chess.js:54-83 | No destination of any piece is off the grid, inactive, or holding a piece of the mover's colour, so the mover's own square is never a destination. |
| `Execution.Moved` | src/chess.js:329-332 | The moved piece keeps its kind and colour. It has `first-move` afterwards iff it had it and is not a pawn. |
| `Execution.Relocate` | src/chess.js:319-334 | After a move, the destination holds the mover (with its pawn flag cleared) and no longer its previous occupant. The source is empty. Every other square is unchanged. |
| `Execution.RelocateCounts` | src/chess.js:319-334 | A move only removes the captured occupant and replaces the mover by its moved form; no piece is created or duplicated. |
| `Execution.TwoSquareFlag` | src/chess.js:337-340 | A pawn's two-step square is flagged as a two-square move. Its one-step square and its capture squares are not. So a forward move is flagged exactly when it is the two-step one. |
| `Execution.IsTwoSquare` | src/chess.js:337-340 | Only a pawn's move that changes square is ever recorded as a two-square move. |
| `Engine.Game.constructor` | src/chess.js:21-23 | A new game holds the given layout, has no last move and no valid moves, and starts with red, at index 0. |
| `Engine.Game.CalculateValidMoves` | src/chess.js:54-83 | The list is reset, and then holds exactly the generated destinations of the piece on the square. The list is returned. |
| `Engine.Game.CalculatePawnMoves` | src/chess.js:85-157 | Appends the pawn's forward moves, then its captures, then its en-passant move. |
| `Engine.Game.PushForward` | src/chess.js:94-108 | Appends the pawn's one-step square when it is valid and empty, then its two-step square on the first move, exactly `Forward`. |
| `Engine.Game.PushCaptures` | src/chess.js:127-136 | Appends the capture squares at the listed offsets, in order. |
| `Engine.Game.PushPassing` | src/chess.js:147-155 | Appends the en-passant scan over the sideways offsets. |
| `Engine.Game.CalculateStraightLine` | src/chess.js:159-178 | Appends the rays of the given directions, direction by direction. |
| `Engine.Game.WalkRay` | src/chess.js:160-177 | The `while (true)` walk appends exactly the ray from the piece's square plus the direction. |
| `Engine.Game.CalculateRookMoves` | src/chess.js:180-188 | Appends the rays along the four orthogonal directions. |
| `Engine.Game.CalculateBishopMoves` | src/chess.js:190-198 | Appends the rays along the four diagonal directions. |
| `Engine.Game.CalculateQueenMoves` | src/chess.js:200-203 | Appends the rook's list and then the bishop's, which equals the rays along all eight directions. |
| `Engine.Game.PushJumps` | src/chess.js:213-222 | Appends the reachable squares at the listed offsets, in order. |
| `Engine.Game.CalculateKnightMoves` | src/chess.js:205-223 | Appends the reachable squares at the eight knight offsets. |
| `Engine.Game.CalculateKingMoves` | src/chess.js:225-241 | Appends the reachable squares at the eight king offsets. |
| `Engine.Game.Draggable` | src/chess.js:245-252 | Definition: a piece may be dragged exactly when there is one on the square and its colour is `currentTurn`. |
| `Engine.Game.Accepts` | src/chess.js:312-318 | Definition: a drop is carried out exactly when the destination is in `validMoves` and the piece on `from` is draggable. |
| `Engine.Game.PickUp` | src/chess.js:257-289 | A piece of the current colour gets its valid moves computed. Any other piece leaves `validMoves` alone. |
| `Engine.Game.DragEnd` | src/chess.js:366-371 | A cancelled drag empties `validMoves`. |
| `Engine.Game.Drop` | src/chess.js:312-354 | A drop outside `validMoves`, or of a piece not of the current colour, changes nothing. An accepted move has four effects. (1) The board becomes its relocation. (2) `lastMove` records the kind, colour, squares and two-square flag. (3) `validMoves` is cleared. (4) The turn index becomes (old+1) mod 4 and the colour its successor. When `validMoves` was computed for the piece on `from`, an accepted destination is a different square that is empty or holds another colour. |

## Left out

- Everything the page does for display is left out: DOM lookups and
  element creation, highlighting of valid moves, `dragover` feedback,
  `rotateBoardForNextPlayer`, `updateTurnIndicator` and `initGame`.
  `setDraggablePieces` is modelled only as the colour test in
  `Engine.Game.Draggable`.
- The starting layout and the inactive squares come from markup that is
  not part of this model. Both are constructor parameters.
- `getSquareAt` is modelled as computing the square's name. The model
  assumes the page has one square for every name in the grid, so the
  lookup never fails for an in-grid coordinate.
- `getPieceType` and the colour lookup are the `kind` and `colour` of a
  `Piece`. A piece element with no type or colour class, or with several,
  cannot be represented.
- `Squares.ParseInt` reads the leading decimal digits only. JavaScript's
  `parseInt` also skips blanks and accepts a sign or a `0x` prefix; square
  names never contain these.
- Square elements are identified with their coordinates. `validMoves`
  holds coordinates, and membership is coordinate equality.
- The reference error at line 139 before the first move is not modelled
  as an exception. Its only effect is on highlighting.
- The drop handler's `from` square is passed in directly as a coordinate.
  In the page it comes from the drag data as a name; `NameRoundTrip`
  relates the two forms.
- Promotion, move counters, resignation, turn skipping and a game-over
  state are absent from the code, so they are not modelled.
