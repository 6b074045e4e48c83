/**
 * Move execution as a function of the board: what the drop handler does
 * to the squares when it accepts a move.
 */
module Execution {
  import opened Wrappers
  import opened Squares
  import opened Pieces
  import opened Moves

  /** The mover after the move: a pawn loses its `first-move` mark; other pieces keep theirs. */
  function Moved(p: Piece): (q: Piece)
    ensures q.kind == p.kind && q.colour == p.colour
    ensures q.firstMove <==> p.firstMove && p.kind != Pawn
  {
    if p.kind == Pawn then p.(firstMove := false) else p
  }

  /**
   * The board after the piece on `from` moves to `to`: whatever stood on
   * `to` is gone, `to` holds the mover, `from` is empty, and every other
   * square is as it was.
   */
  function Relocate(cells: Grid, from: Coord, to: Coord): (r: Grid)
    requires InGrid(from) && InGrid(to) && from != to
    requires cells[Index(from)].Some?
    ensures r[Index(to)] == Some(Moved(cells[Index(from)].value))
    ensures r[Index(from)].None?
    ensures forall c :: InGrid(c) && c != from && c != to ==> r[Index(c)] == cells[Index(c)]
  {
    var mover := cells[Index(from)].value;
    IndexInjective(from, to);
    var r := cells[Index(from) := None][Index(to) := Some(Moved(mover))];
    assert forall c :: InGrid(c) && c != from && c != to ==> Index(c) != Index(from) && Index(c) != Index(to) by {
      forall c | InGrid(c) && c != from && c != to
        ensures Index(c) != Index(from) && Index(c) != Index(to)
      {
        IndexInjective(c, from);
        IndexInjective(c, to);
      }
    }
    r
  }

  /** `|Δx| == 2 || |Δy| == 2` for a pawn: the move recorded as a two-square move. */
  function IsTwoSquare(kind: Kind, from: Coord, to: Coord): (t: bool)
    ensures t ==> kind == Pawn && from != to
  {
    kind == Pawn && (Abs(to.x - from.x) == 2 || Abs(to.y - from.y) == 2)
  }

  /**
   * The two-square flag against the pawn's generated moves: its two-step
   * square is flagged, its one-step square and its capture squares are not,
   * so a forward move is flagged exactly when it is the two-step one.
   */
  lemma TwoSquareFlag(b: Board, pos: Coord, colour: Colour, firstMove: bool)
    ensures IsTwoSquare(Pawn, pos, Step(pos, PawnDir(colour), 2))
    ensures !IsTwoSquare(Pawn, pos, pos.Plus(PawnDir(colour)))
    ensures forall o :: o in CaptureOffsets(colour) ==> !IsTwoSquare(Pawn, pos, pos.Plus(o))
    ensures forall to :: to in Forward(b, pos, colour, firstMove) ==>
      (IsTwoSquare(Pawn, pos, to) <==> to == Step(pos, PawnDir(colour), 2))
  {
    var d := PawnDir(colour);
    assert pos.Plus(d) != Step(pos, d, 2);
  }

  function Abs(n: int): (m: nat)
    ensures m == n || m == -n
  {
    if n < 0 then -n else n
  }

  /** Relocation neither creates nor destroys pieces other than the captured one. */
  lemma RelocateCounts(cells: Grid, from: Coord, to: Coord)
    requires InGrid(from) && InGrid(to) && from != to
    requires cells[Index(from)].Some?
    ensures var r := Relocate(cells, from, to);
      multiset(r) + multiset{cells[Index(to)], Some(cells[Index(from)].value)}
        == multiset(cells) + multiset{None, Some(Moved(cells[Index(from)].value))}
  {
    var f, t := Index(from), Index(to);
    IndexInjective(from, to);
    var mid := cells[f := None];
    var r := mid[t := Some(Moved(cells[f].value))];
    UpdateMultiset(cells, f, None);
    UpdateMultiset(mid, t, Some(Moved(cells[f].value)));
    assert mid[t] == cells[t];
    assert Relocate(cells, from, to) == r;
  }

  lemma UpdateMultiset<T>(s: seq<T>, i: nat, v: T)
    requires i < |s|
    ensures multiset(s[i := v]) + multiset{s[i]} == multiset(s) + multiset{v}
  {
  }
}
