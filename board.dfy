/**
 * Points, checkers and boards, and the initial layout built by the
 * older `NewBoard` constructor (pkg/board/board.go).
 *
 * Boards are values: `CopyBoard` is a plain copy of a `Board` and
 * `IsEqual` is structural equality.
 */
module Boards {
  import opened BoardConsts

  datatype Checker = Checker(color: Color)

  datatype Point = Point(checkerCount: int, pointIndex: int, checker: Checker)

  datatype Board = Board(points: seq<Point>, gameState: GameState, colorToMove: Color)

  /** A board with all 26 slots: 24 points and the two bars. */
  predicate FullBoard(b: Board) {
    |b.points| == NumPoints
  }

  function NewChecker(color: Color): (c: Checker)
    ensures c.color == color
  {
    Checker(color)
  }

  function NewPoint(count: int, index: int, checker: Checker): (p: Point)
    ensures p.checkerCount == count && p.pointIndex == index && p.checker == checker
  {
    Point(count, index, checker)
  }

  /** Sum of the checker counts of the points of `ps` whose colour is `c`. */
  function ColorSum(ps: seq<Point>, c: Color): int
  {
    if ps == [] then 0
    else ColorSum(ps[..|ps| - 1], c)
         + (if ps[|ps| - 1].checker.color == c then ps[|ps| - 1].checkerCount else 0)
  }

  /* ---------------------------------------------------------------------
     The older NewBoard (pkg/board/board.go:47-65).  It belongs to a
     snapshot of the package with its own colour values, which differ from
     the ones in board_consts.go: white 1, black 2, and 3 for "no colour".
     --------------------------------------------------------------------- */

  const LegacyWhite: Color := 1
  const LegacyBlack: Color := 2
  const NoColor: Color := 3

  const LegacyNumPoints := 24

  /** White's starting stacks, keyed by point. */
  const CheckersMap: map<int, int> := map[5 := 5, 7 := 3, 12 := 5, 23 := 2]

  /** The zero value of a Go `Point`: what `make` puts in every slot. */
  const ZeroPoint := Point(0, 0, Checker(0))

  /** What the loop writes at `q` on its own iteration `idx == q`. */
  function OwnWrite(q: int): Point {
    if q in CheckersMap then Point(CheckersMap[q], q, Checker(LegacyWhite))
    else Point(0, q, Checker(NoColor))
  }

  /** What the loop writes at `q` on iteration `idx == 23 - q`, when that
      iteration finds an entry: a black stack tagged with index `23 - q`. */
  function MirrorWrite(q: int): Point
    requires 23 - q in CheckersMap
  {
    Point(CheckersMap[23 - q], 23 - q, Checker(LegacyBlack))
  }

  /** The final content of point `q`: the last write to it wins.  A black
      stack survives only where its iteration comes after `q`'s own one. */
  function InitialPoint(q: int): (p: Point)
    requires 0 <= q < LegacyNumPoints
  {
    if 23 - q in CheckersMap && 23 - q > q then MirrorWrite(q) else OwnWrite(q)
  }

  function InitialPoints(): (ps: seq<Point>)
    ensures |ps| == LegacyNumPoints
  {
    seq(LegacyNumPoints, q requires 0 <= q < LegacyNumPoints => InitialPoint(q))
  }

  /** Point `q` after the first `k` iterations of the loop. */
  ghost function PartialPoint(q: int, k: int): Point
    requires 0 <= q < LegacyNumPoints
  {
    var mirrored := 23 - q in CheckersMap && 23 - q < k;
    if q < k then
      (if mirrored && 23 - q > q then MirrorWrite(q) else OwnWrite(q))
    else if mirrored then MirrorWrite(q)
    else ZeroPoint
  }

  /** The initial layout loop.  It fills a fresh 24-point array; for every
      map entry it writes a white stack at `idx` and a black stack at
      `23 - idx`, and it clears `idx` otherwise, so a later iteration can
      overwrite a black stack written earlier. */
  method NewBoard() returns (b: Board)
    ensures |b.points| == LegacyNumPoints
    ensures forall q :: 0 <= q < LegacyNumPoints ==> b.points[q] == InitialPoint(q)
    ensures b.gameState == NormalPlay && b.colorToMove == NoColor
  {
    var points := new Point[LegacyNumPoints](_ => ZeroPoint);
    for idx := 0 to LegacyNumPoints
      invariant forall q :: 0 <= q < LegacyNumPoints ==> points[q] == PartialPoint(q, idx)
    {
      if idx in CheckersMap {
        var count := CheckersMap[idx];
        points[idx] := NewPoint(count, idx, NewChecker(LegacyWhite));
        points[23 - idx] := NewPoint(count, idx, NewChecker(LegacyBlack));
      } else {
        points[idx] := NewPoint(0, idx, NewChecker(NoColor));
      }
    }
    b := Board(points[..], NormalPlay, NoColor);
  }

  /** White's stacks: 5, 3, 5 and 2 checkers on points 5, 7, 12 and 23,
      fifteen in all. */
  lemma InitialWhiteStacks()
    ensures InitialPoint(5) == Point(5, 5, Checker(LegacyWhite))
    ensures InitialPoint(7) == Point(3, 7, Checker(LegacyWhite))
    ensures InitialPoint(12) == Point(5, 12, Checker(LegacyWhite))
    ensures InitialPoint(23) == Point(2, 23, Checker(LegacyWhite))
    ensures ColorSum(InitialPoints(), LegacyWhite) == InitNumCheckers
  {
    ColorSumOfInitial();
  }

  /** Black survives only on points 11 and 0, tagged with the index of the
      white point it mirrors (12 and 23), seven checkers in all: the stacks
      written at 18 and 16 are cleared by the later iterations 18 and 16. */
  lemma InitialBlackStacks()
    ensures InitialPoint(11) == Point(5, 12, Checker(LegacyBlack))
    ensures InitialPoint(0) == Point(2, 23, Checker(LegacyBlack))
    ensures InitialPoint(16) == Point(0, 16, Checker(NoColor))
    ensures InitialPoint(18) == Point(0, 18, Checker(NoColor))
    ensures ColorSum(InitialPoints(), LegacyBlack) == 7
  {
    ColorSumOfInitial();
  }

  /** Every point that is neither a white stack nor one of the two
      surviving black stacks is empty and has no colour. */
  lemma InitialEmptyPoints(q: int)
    requires 0 <= q < LegacyNumPoints
    requires q !in CheckersMap && q != 0 && q != 11
    ensures InitialPoint(q) == Point(0, q, Checker(NoColor))
  {
  }

  /** The layout is not symmetric under the mirror `q -> 23 - q`:
      white holds 7 but black does not hold 16. */
  lemma InitialLayoutNotMirrored()
    ensures InitialPoint(7).checkerCount != InitialPoint(23 - 7).checkerCount
  {
  }

  /** The white and black totals of the initial points, walked point by
      point: the running sums grow only at the surviving stacks. */
  lemma ColorSumOfInitial()
    ensures ColorSum(InitialPoints(), LegacyWhite) == 15
    ensures ColorSum(InitialPoints(), LegacyBlack) == 7
  {
    var ps := InitialPoints();
    var k := 0;
    while k < LegacyNumPoints
      invariant 0 <= k <= LegacyNumPoints
      invariant ColorSum(ps[..k], LegacyWhite)
                == (if k > 5 then 5 else 0) + (if k > 7 then 3 else 0)
                   + (if k > 12 then 5 else 0) + (if k > 23 then 2 else 0)
      invariant ColorSum(ps[..k], LegacyBlack)
                == (if k > 0 then 2 else 0) + (if k > 11 then 5 else 0)
    {
      assert ps[..k + 1][..k] == ps[..k];
      k := k + 1;
    }
    assert ps[..k] == ps;
  }
}
