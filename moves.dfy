/**
 * Move generation as functions of the board: the ordered list of
 * destination squares that `calculateValidMoves` leaves in `validMoves`
 * for the piece on a square, piece type by piece type.
 */
module Moves {
  import opened Wrappers
  import opened Squares
  import opened Pieces

  /** A direction vector of a sliding piece: one step in each axis at most. */
  predicate UnitDir(d: Coord) {
    -1 <= d.x <= 1 && -1 <= d.y <= 1 && d != Coord(0, 0)
  }

  type Dir = d: Coord | UnitDir(d) witness Coord(1, 0)

  const RookDirs: seq<Dir> := [Coord(0, 1), Coord(0, -1), Coord(1, 0), Coord(-1, 0)]
  const BishopDirs: seq<Dir> := [Coord(1, 1), Coord(1, -1), Coord(-1, 1), Coord(-1, -1)]
  /** The queen walks the rook's rays and then the bishop's. */
  const QueenDirs: seq<Dir> := RookDirs + BishopDirs

  const KnightOffsets: seq<Coord> :=
    [Coord(2, 1), Coord(2, -1), Coord(-2, 1), Coord(-2, -1),
     Coord(1, 2), Coord(1, -2), Coord(-1, 2), Coord(-1, -2)]
  const KingOffsets: seq<Coord> :=
    [Coord(1, 0), Coord(-1, 0), Coord(0, 1), Coord(0, -1),
     Coord(1, 1), Coord(1, -1), Coord(-1, 1), Coord(-1, -1)]

  /** The square `k` steps from `start` along `dir`. */
  function Step(start: Coord, dir: Coord, k: int): Coord {
    Coord(start.x + k * dir.x, start.y + k * dir.y)
  }

  lemma StepShift(start: Coord, dir: Coord, k: int)
    ensures Step(start.Plus(dir), dir, k) == Step(start, dir, k + 1)
    ensures Step(start, dir, 0) == start
  {
    assert (k + 1) * dir.x == k * dir.x + dir.x;
    assert (k + 1) * dir.y == k * dir.y + dir.y;
  }

  /** How many more steps along `dir` stay on the grid; bounds the walk. */
  function Budget(c: Coord, d: Dir): nat {
    if !InGrid(c) then 0
    else if d.x == 1 then Width - c.x
    else if d.x == -1 then c.x + 1
    else if d.y == 1 then Height - c.y
    else c.y + 1
  }

  /**
   * One ray of a sliding piece, walked from `cur`: empty valid squares are
   * collected, the first occupied square ends the walk and is collected
   * when it holds another colour, and an invalid square ends it.
   */
  function Ray(b: Board, cur: Coord, dir: Dir, colour: Colour): seq<Coord>
    decreases Budget(cur, dir)
  {
    if !IsValidSquare(b, cur) then []
    else match Occupant(b, cur)
      case Some(p) => if p.colour != colour then [cur] else []
      case None => [cur] + Ray(b, cur.Plus(dir), dir, colour)
  }

  /** Every square a ray collects is valid, and empty or another colour's. */
  lemma {:induction false} RaySafe(b: Board, cur: Coord, dir: Dir, colour: Colour)
    ensures forall c :: c in Ray(b, cur, dir, colour) ==> Reachable(b, c, colour)
    decreases Budget(cur, dir)
  {
    if IsValidSquare(b, cur) && Occupant(b, cur).None? {
      RaySafe(b, cur.Plus(dir), dir, colour);
    }
  }

  /** The rays of a sliding piece on `pos`, direction after direction. */
  function Slide(b: Board, pos: Coord, colour: Colour, dirs: seq<Dir>): seq<Coord> {
    if dirs == [] then []
    else Ray(b, pos.Plus(dirs[0]), dirs[0], colour) + Slide(b, pos, colour, dirs[1..])
  }

  /** Every destination of a sliding piece is reachable: valid, and empty or another colour's. */
  lemma {:induction false} SlideSafe(b: Board, pos: Coord, colour: Colour, dirs: seq<Dir>)
    ensures forall c :: c in Slide(b, pos, colour, dirs) ==> Reachable(b, c, colour)
    decreases |dirs|
  {
    if dirs != [] {
      RaySafe(b, pos.Plus(dirs[0]), dirs[0], colour);
      SlideSafe(b, pos, colour, dirs[1..]);
    }
  }

  /** The knight's and the king's moves: each listed offset whose square is reachable. */
  function Jumps(b: Board, pos: Coord, colour: Colour, offsets: seq<Coord>): (r: seq<Coord>)
    ensures forall c :: c in r ==> Reachable(b, c, colour)
    ensures |r| <= |offsets|
  {
    if offsets == [] then []
    else
      var c := pos.Plus(offsets[|offsets| - 1]);
      Jumps(b, pos, colour, offsets[..|offsets| - 1]) + (if Reachable(b, c, colour) then [c] else [])
  }

  // ---- pawns --------------------------------------------------------------

  /** The fixed forward direction of each colour's pawns. */
  function PawnDir(colour: Colour): (d: Coord)
    ensures UnitDir(d) && (d.x == 0 || d.y == 0)
  {
    match colour
    case Red => Coord(-1, 0)
    case Blue => Coord(0, -1)
    case Yellow => Coord(1, 0)
    case Green => Coord(0, 1)
  }

  /** The two diagonal capture offsets of each colour. */
  function CaptureOffsets(colour: Colour): seq<Coord> {
    match colour
    case Red => [Coord(-1, -1), Coord(-1, 1)]
    case Blue => [Coord(-1, -1), Coord(1, -1)]
    case Yellow => [Coord(1, -1), Coord(1, 1)]
    case Green => [Coord(-1, 1), Coord(1, 1)]
  }

  /** The two sideways offsets at which a passing pawn is looked for. */
  function AdjacentOffsets(colour: Colour): seq<Coord> {
    match colour
    case Red => [Coord(0, -1), Coord(0, 1)]
    case Blue => [Coord(-1, 0), Coord(1, 0)]
    case Yellow => [Coord(0, -1), Coord(0, 1)]
    case Green => [Coord(-1, 0), Coord(1, 0)]
  }

  /**
   * The pawn's forward moves: one step onto an empty valid square and,
   * only then and only for a pawn still marked `first-move`, a second step
   * onto an empty valid square.
   */
  function Forward(b: Board, pos: Coord, colour: Colour, firstMove: bool): (r: seq<Coord>)
    ensures var one := pos.Plus(PawnDir(colour));
      (one in r <==> ValidEmpty(b, one)) && (r != [] ==> r[0] == one)
    ensures var one := pos.Plus(PawnDir(colour)); var two := Step(pos, PawnDir(colour), 2);
      two in r <==> ValidEmpty(b, one) && firstMove && ValidEmpty(b, two)
    ensures forall c :: c in r ==>
      c == pos.Plus(PawnDir(colour)) || c == Step(pos, PawnDir(colour), 2)
    ensures forall c :: c in r ==> ValidEmpty(b, c)
  {
    var one := pos.Plus(PawnDir(colour));
    var two := Step(pos, PawnDir(colour), 2);
    if ValidEmpty(b, one) then
      [one] + (if firstMove && ValidEmpty(b, two) then [two] else [])
    else []
  }

  /** The pawn's captures: each listed offset whose square holds another colour. */
  function Captures(b: Board, pos: Coord, colour: Colour, offsets: seq<Coord>): (r: seq<Coord>)
    ensures forall c :: c in r ==> Enemy(b, c, colour)
  {
    if offsets == [] then []
    else
      var c := pos.Plus(offsets[|offsets| - 1]);
      Captures(b, pos, colour, offsets[..|offsets| - 1]) + (if Enemy(b, c, colour) then [c] else [])
  }

  /**
   * The en-passant scan over the sideways offsets `adjs`: when `pos` plus an
   * offset is where the last move ended, the square one step from where it
   * started, in the mover's own forward direction, if valid and empty.
   */
  function PassingScan(b: Board, pos: Coord, colour: Colour, last: LastMove, adjs: seq<Coord>): (r: seq<Coord>)
    ensures forall c :: c in r ==> c == last.from.Plus(PawnDir(colour)) && ValidEmpty(b, c)
  {
    if adjs == [] then []
    else
      var ep := last.from.Plus(PawnDir(colour));
      PassingScan(b, pos, colour, last, adjs[..|adjs| - 1])
        + (if pos.Plus(adjs[|adjs| - 1]) == last.to && ValidEmpty(b, ep) then [ep] else [])
  }

  /** The en-passant move of a pawn, searched only after a pawn's two-square move. */
  function EnPassant(b: Board, pos: Coord, colour: Colour, lastMove: Option<LastMove>): (r: seq<Coord>)
    ensures |r| <= 1
    ensures r != [] <==>
      && lastMove.Some? && lastMove.value.kind == Pawn && lastMove.value.twoSquare
      && (exists a :: a in AdjacentOffsets(colour) && pos.Plus(a) == lastMove.value.to)
      && ValidEmpty(b, lastMove.value.from.Plus(PawnDir(colour)))
    ensures r != [] ==> r[0] == lastMove.value.from.Plus(PawnDir(colour))
  {
    if lastMove.Some? && lastMove.value.kind == Pawn && lastMove.value.twoSquare then
      var last := lastMove.value;
      var adjs := AdjacentOffsets(colour);
      var ep := last.from.Plus(PawnDir(colour));
      var hit0 := pos.Plus(adjs[0]) == last.to && ValidEmpty(b, ep);
      var hit1 := pos.Plus(adjs[1]) == last.to && ValidEmpty(b, ep);
      assert adjs[..1][..0] == [] && adjs[..1 + 1][..1] == adjs[..1] && adjs[..1 + 1] == adjs;
      assert PassingScan(b, pos, colour, last, adjs[..1]) == if hit0 then [ep] else [];
      assert PassingScan(b, pos, colour, last, adjs) == PassingScan(b, pos, colour, last, adjs[..1]) + if hit1 then [ep] else [];
      assert !(hit0 && hit1);
      PassingScan(b, pos, colour, last, adjs)
    else []
  }

  /** All moves of a pawn: forward, then captures, then en passant. */
  function PawnMoves(b: Board, pos: Coord, colour: Colour, firstMove: bool, lastMove: Option<LastMove>): (r: seq<Coord>)
    ensures forall c :: c in r ==> Reachable(b, c, colour)
  {
    Forward(b, pos, colour, firstMove) + Captures(b, pos, colour, CaptureOffsets(colour))
      + EnPassant(b, pos, colour, lastMove)
  }

  /**
   * `calculateValidMoves` for the piece on `pos`: the destinations its type
   * generates. None lies off the grid, on an inactive square or on a piece
   * of the mover's colour, so the mover's own square is never among them.
   */
  function ValidMoves(b: Board, pos: Coord, lastMove: Option<LastMove>): (r: seq<Coord>)
    requires InGrid(pos) && Occupant(b, pos).Some?
    ensures forall c :: c in r ==> IsValidSquare(b, c) && Reachable(b, c, Occupant(b, pos).value.colour)
    ensures pos !in r
  {
    var p := Occupant(b, pos).value;
    match p.kind
    case Pawn => PawnMoves(b, pos, p.colour, p.firstMove, lastMove)
    case Rook => SlideSafe(b, pos, p.colour, RookDirs); Slide(b, pos, p.colour, RookDirs)
    case Knight => Jumps(b, pos, p.colour, KnightOffsets)
    case Bishop => SlideSafe(b, pos, p.colour, BishopDirs); Slide(b, pos, p.colour, BishopDirs)
    case Queen => SlideSafe(b, pos, p.colour, QueenDirs); Slide(b, pos, p.colour, QueenDirs)
    case King => Jumps(b, pos, p.colour, KingOffsets)
  }

  // ---- properties -------------------------------------------------------

  /** The square that stops a ray without being collected: invalid, or holding the mover's colour. */
  predicate Blocked(b: Board, c: Coord, colour: Colour) {
    !IsValidSquare(b, c) || (Occupant(b, c).Some? && Occupant(b, c).value.colour == colour)
  }

  /**
   * A ray is the maximal run of valid empty squares from its start, in
   * order, followed by the first occupied square only when that holds
   * another colour; when it ends on an empty square (or is empty), the next
   * square is invalid or holds the mover's colour.
   */
  lemma {:induction false} RayShape(b: Board, start: Coord, dir: Dir, colour: Colour)
    ensures var r := Ray(b, start, dir, colour);
      && (forall i :: 0 <= i < |r| ==> r[i] == Step(start, dir, i))
      && (forall i :: 0 <= i < |r| - 1 ==> ValidEmpty(b, r[i]))
      && (|r| > 0 ==> Reachable(b, r[|r| - 1], colour))
      && ((|r| == 0 || ValidEmpty(b, r[|r| - 1])) ==> Blocked(b, Step(start, dir, |r|), colour))
    decreases Budget(start, dir)
  {
    StepShift(start, dir, 0);
    if IsValidSquare(b, start) && Occupant(b, start).None? {
      var next := start.Plus(dir);
      RayShape(b, next, dir, colour);
      var rest := Ray(b, next, dir, colour);
      var r := Ray(b, start, dir, colour);
      assert r == [start] + rest;
      forall i | 0 <= i < |r|
        ensures r[i] == Step(start, dir, i)
      {
        if i > 0 {
          StepShift(start, dir, i - 1);
        }
      }
      StepShift(start, dir, |rest|);
    }
  }

  /** Walking a list of directions that is a concatenation walks the parts in turn. */
  lemma {:induction false} SlideAppend(b: Board, pos: Coord, colour: Colour, front: seq<Dir>, back: seq<Dir>)
    ensures Slide(b, pos, colour, front + back) == Slide(b, pos, colour, front) + Slide(b, pos, colour, back)
    decreases |front|
  {
    if front == [] {
      assert front + back == back;
    } else {
      var all := front + back;
      assert all[0] == front[0] && all[1..] == front[1..] + back;
      SlideAppend(b, pos, colour, front[1..], back);
      var ray := Ray(b, pos.Plus(front[0]), front[0], colour);
      assert Slide(b, pos, colour, all) == ray + Slide(b, pos, colour, front[1..] + back);
      assert Slide(b, pos, colour, front) == ray + Slide(b, pos, colour, front[1..]);
      AppendAssoc(ray, Slide(b, pos, colour, front[1..]), Slide(b, pos, colour, back));
    }
  }

  lemma AppendAssoc(a: seq<Coord>, b: seq<Coord>, c: seq<Coord>)
    ensures a + (b + c) == a + b + c
  {
  }

  /** Four lists concatenated left to right equal the first followed by the rest. */
  lemma AppendAssoc4<T>(a: seq<T>, b: seq<T>, c: seq<T>, d: seq<T>)
    ensures a + b + c + d == a + (b + c + d)
  {
  }

  /** One more direction appends its ray. */
  lemma SlideSnoc(b: Board, pos: Coord, colour: Colour, dirs: seq<Dir>, d: Dir)
    ensures Slide(b, pos, colour, dirs + [d]) == Slide(b, pos, colour, dirs) + Ray(b, pos.Plus(d), d, colour)
  {
    SlideAppend(b, pos, colour, dirs, [d]);
    assert [d][1..] == [];
  }

  /** The queen's list is the rook's list followed by the bishop's. */
  lemma QueenIsRookThenBishop(b: Board, pos: Coord, colour: Colour)
    ensures Slide(b, pos, colour, QueenDirs)
         == Slide(b, pos, colour, RookDirs) + Slide(b, pos, colour, BishopDirs)
  {
    SlideAppend(b, pos, colour, RookDirs, BishopDirs);
  }

  /** A fixed-offset piece lands exactly on the reachable squares at its offsets. */
  lemma {:induction false} JumpsMembership(b: Board, pos: Coord, colour: Colour, offsets: seq<Coord>, c: Coord)
    ensures c in Jumps(b, pos, colour, offsets) <==>
      (exists i :: 0 <= i < |offsets| && c == pos.Plus(offsets[i])) && Reachable(b, c, colour)
    decreases |offsets|
  {
    if offsets != [] {
      var init := offsets[..|offsets| - 1];
      JumpsMembership(b, pos, colour, init, c);
      if exists i :: 0 <= i < |offsets| && c == pos.Plus(offsets[i]) {
        var i :| 0 <= i < |offsets| && c == pos.Plus(offsets[i]);
        if i < |init| {
          assert init[i] == offsets[i];
        }
      }
      if exists i :: 0 <= i < |init| && c == pos.Plus(init[i]) {
        var i :| 0 <= i < |init| && c == pos.Plus(init[i]);
        assert offsets[i] == init[i];
      }
    }
  }

  /**
   * The fixed-offset moves come in the order of the offsets: of two
   * destinations, the earlier one is at an earlier offset.
   */
  lemma {:induction false} JumpsInOrder(b: Board, pos: Coord, colour: Colour, offsets: seq<Coord>, i: int, j: int)
    requires 0 <= i < j < |Jumps(b, pos, colour, offsets)|
    ensures exists p, q ::
      && 0 <= p < q < |offsets|
      && Jumps(b, pos, colour, offsets)[i] == pos.Plus(offsets[p])
      && Jumps(b, pos, colour, offsets)[j] == pos.Plus(offsets[q])
    decreases |offsets|
  {
    var n := |offsets|;
    var init := offsets[..n - 1];
    var rest := Jumps(b, pos, colour, init);
    var r := Jumps(b, pos, colour, offsets);
    assert r[i] == rest[i];
    if j < |rest| {
      JumpsInOrder(b, pos, colour, init, i, j);
      var p, q :| 0 <= p < q < |init| && rest[i] == pos.Plus(init[p]) && rest[j] == pos.Plus(init[q]);
      assert init[p] == offsets[p] && init[q] == offsets[q];
      assert r[j] == rest[j];
    } else {
      assert r[j] == pos.Plus(offsets[n - 1]);
      assert rest[i] in rest;
      JumpsMembership(b, pos, colour, init, rest[i]);
      var p :| 0 <= p < |init| && rest[i] == pos.Plus(init[p]);
      assert init[p] == offsets[p];
    }
  }

  /** A pawn captures exactly onto the squares at its offsets that hold another colour. */
  lemma {:induction false} CapturesMembership(b: Board, pos: Coord, colour: Colour, offsets: seq<Coord>, c: Coord)
    ensures c in Captures(b, pos, colour, offsets) <==>
      (exists i :: 0 <= i < |offsets| && c == pos.Plus(offsets[i])) && Enemy(b, c, colour)
    decreases |offsets|
  {
    if offsets != [] {
      var init := offsets[..|offsets| - 1];
      CapturesMembership(b, pos, colour, init, c);
      if exists i :: 0 <= i < |offsets| && c == pos.Plus(offsets[i]) {
        var i :| 0 <= i < |offsets| && c == pos.Plus(offsets[i]);
        if i < |init| {
          assert init[i] == offsets[i];
        }
      }
      if exists i :: 0 <= i < |init| && c == pos.Plus(init[i]) {
        var i :| 0 <= i < |init| && c == pos.Plus(init[i]);
        assert offsets[i] == init[i];
      }
    }
  }

  /**
   * In a pawn's list, an empty square is a forward or en-passant move and
   * an occupied one a capture at a diagonal offset: a pawn never moves
   * forward onto a piece and never captures onto an empty square except by
   * en passant.
   */
  lemma PawnMoveKinds(b: Board, pos: Coord, colour: Colour, firstMove: bool, lastMove: Option<LastMove>, c: Coord)
    requires c in PawnMoves(b, pos, colour, firstMove, lastMove)
    ensures ValidEmpty(b, c) ==> c in Forward(b, pos, colour, firstMove) || c in EnPassant(b, pos, colour, lastMove)
    ensures !ValidEmpty(b, c) ==>
      Enemy(b, c, colour) && exists i :: 0 <= i < 2 && c == pos.Plus(CaptureOffsets(colour)[i])
  {
    if c in Captures(b, pos, colour, CaptureOffsets(colour)) {
      CapturesMembership(b, pos, colour, CaptureOffsets(colour), c);
    }
  }

  /**
   * The en-passant square is taken from where the passing pawn started,
   * so it need not be next to the mover: after yellow's pawn moves from
   * (5,5) to (7,5), red's pawn on (7,4) is offered (4,5), three files away.
   */
  lemma PassingSquareFromStart()
    ensures var b := Board(NoPieces, {});
      var last := LastMove(Pawn, Yellow, Coord(5, 5), Coord(7, 5), true);
      EnPassant(b, Coord(7, 4), Red, Some(last)) == [Coord(4, 5)]
  {
    var b := Board(NoPieces, {});
    var last := LastMove(Pawn, Yellow, Coord(5, 5), Coord(7, 5), true);
    assert Coord(0, 1) in AdjacentOffsets(Red) && Coord(7, 4).Plus(Coord(0, 1)) == last.to;
    assert ValidEmpty(b, Coord(4, 5)) by {
      assert Index(Coord(4, 5)) == 74;
    }
  }
}
