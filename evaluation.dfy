/**
 * The static evaluator of the search (pkg/ai/evaluation.go): counting
 * loops over the 24 playable points that score distance to home, made
 * points, and blots exposed to a hit, for the side to move.
 *
 * The source computes in float32.  Here every score is exact: counts are
 * `int`, and the fractional parts (coverage bonuses, the bar penalty and
 * the weighted combination) are `real`.
 *
 * Much of the evaluator is symmetric under the mirror that maps point `i`
 * to point `23 - i`, swaps the two bars and swaps the colours.  The lemmas
 * below prove that symmetry for each part.  The hit check is the exception:
 * for a Black blot it looks five points ahead instead of six.  The hit window
 * is therefore a parameter.  `SourceReach` is what the code does;
 * `IntendedReach` restores the symmetry, and with it the whole evaluation
 * becomes antisymmetric under the mirror.
 */
module Evaluation {
  import opened BoardConsts
  import opened Boards

  /* ---------------------------------------------------------------------
     min and max (pkg/ai/evaluation.go:192-218)
     --------------------------------------------------------------------- */

  function Min(a: int, b: int): (m: int)
    ensures m <= a && m <= b
    ensures m == a || m == b
  {
    if a <= b then a else b
  }

  function Max(a: int, b: int): (m: int)
    ensures m >= a && m >= b
    ensures m == a || m == b
  {
    if a >= b then a else b
  }

  function MinReal(a: real, b: real): (m: real)
    ensures m <= a && m <= b
    ensures m == a || m == b
  {
    if a <= b then a else b
  }

  function MaxReal(a: real, b: real): (m: real)
    ensures m >= a && m >= b
    ensures m == a || m == b
  {
    if a >= b then a else b
  }

  /** Min never exceeds Max. */
  lemma MinLeMax(a: int, b: int)
    ensures Min(a, b) <= Max(a, b)
    ensures Min(a, b) + Max(a, b) == a + b
  {
  }

  /* ---------------------------------------------------------------------
     Counting and summing over a range of points
     --------------------------------------------------------------------- */

  /** The number of `i` in `lo .. hi - 1` that satisfy `p`. */
  function CountIn(lo: int, hi: int, p: int -> bool): (n: int)
    ensures 0 <= n
    ensures n <= if hi < lo then 0 else hi - lo
    decreases hi - lo
  {
    if hi <= lo then 0 else CountIn(lo, hi - 1, p) + (if p(hi - 1) then 1 else 0)
  }

  /** The sum of `f(i)` over `i` in `lo .. hi - 1`. */
  function SumIn(lo: int, hi: int, f: int -> int): int
    decreases hi - lo
  {
    if hi <= lo then 0 else SumIn(lo, hi - 1, f) + f(hi - 1)
  }

  /** A range can also be peeled from its low end. */
  lemma {:induction false} CountInDropLow(lo: int, hi: int, p: int -> bool)
    requires lo < hi
    ensures CountIn(lo, hi, p) == (if p(lo) then 1 else 0) + CountIn(lo + 1, hi, p)
    decreases hi - lo
  {
    if lo + 1 < hi {
      CountInDropLow(lo, hi - 1, p);
    }
  }

  lemma {:induction false} SumInDropLow(lo: int, hi: int, f: int -> int)
    requires lo < hi
    ensures SumIn(lo, hi, f) == f(lo) + SumIn(lo + 1, hi, f)
    decreases hi - lo
  {
    if lo + 1 < hi {
      SumInDropLow(lo, hi - 1, f);
    }
  }

  /** Counting `p` over a range is counting `q` over the range reflected
      about `s / 2`, when `p(i)` and `q(s - i)` agree. */
  lemma {:induction false} CountInReflect(lo: int, hi: int, s: int, p: int -> bool, q: int -> bool)
    requires forall i :: lo <= i < hi ==> p(i) == q(s - i)
    ensures CountIn(lo, hi, p) == CountIn(s - hi + 1, s - lo + 1, q)
    decreases hi - lo
  {
    if lo < hi {
      CountInReflect(lo, hi - 1, s, p, q);
      CountInDropLow(s - hi + 1, s - lo + 1, q);
    }
  }

  lemma {:induction false} SumInReflect(lo: int, hi: int, s: int, f: int -> int, g: int -> int)
    requires forall i :: lo <= i < hi ==> f(i) == g(s - i)
    ensures SumIn(lo, hi, f) == SumIn(s - hi + 1, s - lo + 1, g)
    decreases hi - lo
  {
    if lo < hi {
      SumInReflect(lo, hi - 1, s, f, g);
      SumInDropLow(s - hi + 1, s - lo + 1, g);
    }
  }

  /** Counting over a stretch of the playable points in mirror order. */
  lemma CountInPlayableReflect(lo: int, hi: int, p: int -> bool, q: int -> bool)
    requires 0 <= lo <= hi <= NumPlayablePoints
    requires forall i :: lo <= i < hi ==> p(i) == q(23 - i)
    ensures CountIn(lo, hi, p) == CountIn(NumPlayablePoints - hi, NumPlayablePoints - lo, q)
  {
    CountInReflect(lo, hi, 23, p, q);
  }

  /** Summing over the playable points in mirror order. */
  lemma SumInPlayableReflect(f: int -> int, g: int -> int)
    requires forall i :: 0 <= i < NumPlayablePoints ==> f(i) == g(23 - i)
    ensures SumIn(0, NumPlayablePoints, f) == SumIn(0, NumPlayablePoints, g)
  {
    SumInReflect(0, NumPlayablePoints, 23, f, g);
  }

  /** A sum of terms in `0 .. 5`, each zero unless `p` holds, lies between
      0 and five times the count of `p`. */
  lemma {:induction false} SumInBoundedByCount(lo: int, hi: int, f: int -> int, p: int -> bool)
    requires forall i :: lo <= i < hi ==> 0 <= f(i) <= (if p(i) then 5 else 0)
    ensures 0 <= SumIn(lo, hi, f) <= 5 * CountIn(lo, hi, p)
    decreases hi - lo
  {
    if lo < hi {
      SumInBoundedByCount(lo, hi - 1, f, p);
    }
  }

  /* ---------------------------------------------------------------------
     Points and the mirror
     --------------------------------------------------------------------- */

  /** Point `i` holds at least one checker of colour `c`. */
  predicate Occupied(b: Board, i: int, c: Color)
    requires 0 <= i < |b.points|
  {
    b.points[i].checkerCount > 0 && b.points[i].checker.color == c
  }

  /** Point `i` is made by `c`: two or more of its checkers stand there. */
  predicate Held(b: Board, i: int, c: Color)
    requires 0 <= i < |b.points|
  {
    b.points[i].checker.color == c && b.points[i].checkerCount > 1
  }

  /** The slot that slot `i` exchanges places with under the mirror. */
  function MirrorSlot(i: int): (j: int)
    requires 0 <= i < NumPoints
    ensures 0 <= j < NumPoints
    ensures IsPlayable(i) ==> j == 23 - i
    ensures i == BlackPiecesBarPointIndex <==> j == WhitePiecesBarPointIndex
    ensures i == WhitePiecesBarPointIndex <==> j == BlackPiecesBarPointIndex
  {
    if i < NumPlayablePoints then NumPlayablePoints - 1 - i
    else if i == BlackPiecesBarPointIndex then WhitePiecesBarPointIndex
    else BlackPiecesBarPointIndex
  }

  function FlipPoint(p: Point): Point {
    p.(checker := Checker(Opponent(p.checker.color)))
  }

  /** The board seen from the other side: point `i` takes the checkers of
      point `23 - i` in the other colour, the bars swap, and so does the
      side to move. */
  function Mirror(b: Board): (m: Board)
    requires FullBoard(b)
    ensures FullBoard(m) && m.gameState == b.gameState
    ensures m.colorToMove == Opponent(b.colorToMove)
    ensures forall i :: 0 <= i < NumPoints ==> m.points[i] == FlipPoint(b.points[MirrorSlot(i)])
  {
    Board(seq(NumPoints, i requires 0 <= i < NumPoints => FlipPoint(b.points[MirrorSlot(i)])),
          b.gameState, Opponent(b.colorToMove))
  }

  /** Mirroring twice gives back the board. */
  lemma MirrorInvolution(b: Board)
    requires FullBoard(b)
    ensures Mirror(Mirror(b)) == b
  {
    var mm := Mirror(Mirror(b));
    forall i | 0 <= i < NumPoints
      ensures mm.points[i] == b.points[i]
    {
      OpponentInvolution(b.points[i].checker.color);
    }
    OpponentInvolution(b.colorToMove);
  }

  /** A point of the mirror, in terms of the original board. */
  lemma MirrorPointFacts(b: Board, i: int, c: Color)
    requires FullBoard(b) && IsPlayable(i)
    ensures Mirror(b).points[23 - i].checkerCount == b.points[i].checkerCount
    ensures Occupied(Mirror(b), 23 - i, c) <==> Occupied(b, i, Opponent(c))
    ensures Held(Mirror(b), 23 - i, c) <==> Held(b, i, Opponent(c))
    ensures (Mirror(b).points[23 - i].checker.color == Mirror(b).colorToMove)
            <==> (b.points[i].checker.color == b.colorToMove)
  {
    assert MirrorSlot(23 - i) == i;
  }

  /** Changing only the side to move commutes with the mirror, which
      changes it to the opponent. */
  lemma MirrorWithMover(b: Board, c: Color)
    requires FullBoard(b)
    ensures Mirror(b.(colorToMove := c)) == Mirror(b).(colorToMove := Opponent(c))
  {
  }

  /* ---------------------------------------------------------------------
     isSafe (pkg/ai/evaluation.go:188-190)
     --------------------------------------------------------------------- */

  /** A safe point: made by the side to move. */
  predicate IsSafe(b: Board, idx: int): (r: bool)
    requires 0 <= idx < |b.points|
    ensures r <==> b.points[idx].checker.color == b.colorToMove && b.points[idx].checkerCount > 1
  {
    Held(b, idx, b.colorToMove)
  }

  /** A point is safe for the mover exactly when its mirror point is safe
      for the mover of the mirrored board. */
  lemma IsSafeMirror(b: Board, i: int)
    requires FullBoard(b) && IsPlayable(i)
    ensures IsSafe(Mirror(b), 23 - i) <==> IsSafe(b, i)
  {
    MirrorPointFacts(b, i, Mirror(b).colorToMove);
  }

  /* ---------------------------------------------------------------------
     freeSpots (pkg/ai/evaluation.go:158-176)
     --------------------------------------------------------------------- */

  /** Is point `i` open to a checker entering against `c`'s home board? */
  function OpenAgainst(b: Board, c: Color): int -> bool {
    i => !(0 <= i < |b.points| && Held(b, i, c))
  }

  /** The number of points of the scanned home board, 18..23 for Black and
      0..5 for every other colour, that are not made by Black or by White
      respectively. */
  function FreeSpotsOf(b: Board, forColor: Color): (n: int)
    requires FullBoard(b)
    ensures 0 <= n <= 6
  {
    if forColor == ColorBlack then CountIn(18, NumPlayablePoints, OpenAgainst(b, ColorBlack))
    else CountIn(0, 6, OpenAgainst(b, ColorWhite))
  }

  method FreeSpots(b: Board, forColor: Color) returns (cnt: int)
    requires FullBoard(b)
    ensures cnt == FreeSpotsOf(b, forColor)
    ensures 0 <= cnt <= 6
  {
    cnt := 0;
    if forColor == ColorBlack {
      for idx := 18 to NumPlayablePoints
        invariant cnt == CountIn(18, idx, OpenAgainst(b, ColorBlack))
      {
        if b.points[idx].checker.color == ColorBlack && b.points[idx].checkerCount > 1 {
          continue;
        }
        cnt := cnt + 1;
      }
    } else {
      for idx := 0 to 6
        invariant cnt == CountIn(0, idx, OpenAgainst(b, ColorWhite))
      {
        if b.points[idx].checker.color == ColorWhite && b.points[idx].checkerCount > 1 {
          continue;
        }
        cnt := cnt + 1;
      }
    }
  }

  /** Black's open home points on a board are White's on its mirror. */
  lemma OpenHomeMirror(b: Board)
    requires FullBoard(b)
    ensures CountIn(18, NumPlayablePoints, OpenAgainst(b, ColorBlack))
            == CountIn(0, 6, OpenAgainst(Mirror(b), ColorWhite))
  {
    var m := Mirror(b);
    forall i | 18 <= i < NumPlayablePoints
      ensures OpenAgainst(b, ColorBlack)(i) == OpenAgainst(m, ColorWhite)(23 - i)
    {
      MirrorPointFacts(b, i, ColorWhite);
    }
    CountInPlayableReflect(18, NumPlayablePoints, OpenAgainst(b, ColorBlack), OpenAgainst(m, ColorWhite));
  }

  /** The free home points of either colour on a board are those of the
      other colour on its mirror. */
  lemma FreeSpotsMirror(b: Board, c: Color)
    requires FullBoard(b)
    requires c == ColorWhite || c == ColorBlack
    ensures FreeSpotsOf(Mirror(b), Opponent(c)) == FreeSpotsOf(b, c)
  {
    if c == ColorBlack {
      OpenHomeMirror(b);
    } else {
      OpenHomeMirror(Mirror(b));
      MirrorInvolution(b);
    }
  }

  /* ---------------------------------------------------------------------
     canBeBarredNextMove (pkg/ai/evaluation.go:141-156)
     --------------------------------------------------------------------- */

  /** How far ahead of a Black blot the code looks for White checkers. */
  const SourceReach := 5
  /** How far a checker can travel with one die, as White's branch uses. */
  const IntendedReach := 6

  /** Can an opposing checker within reach hit the mover's checker at
      `idx`?  White's blots are threatened by Black checkers on the six
      points below them; Black's by White checkers on the `reach` points
      above them. */
  predicate HitThreat(b: Board, idx: int, reach: int)
    requires FullBoard(b) && IsPlayable(idx)
  {
    if b.colorToMove == ColorWhite then
      exists j :: Max(idx - 6, 0) <= j < idx && Occupied(b, j, ColorBlack)
    else
      exists j :: idx + 1 <= j < Min(idx + 1 + reach, NumPlayablePoints) && Occupied(b, j, ColorWhite)
  }

  /** Scans the window next to `idx` and stops at the first opposing
      checker. */
  method CanBeBarredNextMove(b: Board, idx: int) returns (r: bool)
    requires FullBoard(b) && IsPlayable(idx)
    ensures r == HitThreat(b, idx, SourceReach)
  {
    if b.colorToMove == ColorWhite {
      var jdx := idx - 1;
      while jdx >= Max(idx - 6, 0)
        invariant Max(idx - 6, 0) - 1 <= jdx <= idx - 1
        invariant forall j :: jdx < j < idx ==> !Occupied(b, j, ColorBlack)
        decreases jdx
      {
        if Occupied(b, jdx, ColorBlack) {
          return true;
        }
        jdx := jdx - 1;
      }
    } else {
      var jdx := idx + 1;
      while jdx < Min(idx + 6, NumPlayablePoints)
        invariant idx + 1 <= jdx <= Min(idx + 6, NumPlayablePoints)
        invariant forall j :: idx + 1 <= j < jdx ==> !Occupied(b, j, ColorWhite)
        decreases NumPlayablePoints - jdx
      {
        if Occupied(b, jdx, ColorWhite) {
          return true;
        }
        jdx := jdx + 1;
      }
    }
    return false;
  }

  /** A Black blot on point 10 with a single White checker on point 16. */
  function SixAwayBoard(): (b: Board)
    ensures FullBoard(b) && b.colorToMove == ColorBlack
  {
    Board(seq(NumPoints, i =>
            if i == 10 then Point(1, 10, Checker(ColorBlack))
            else if i == 16 then Point(1, 16, Checker(ColorWhite))
            else Point(0, i, Checker(ColorWhite))),
          NormalPlay, ColorBlack)
  }

  /** The source's window misses a White checker six points ahead of a
      Black blot, which a roll of six brings onto it; on the mirrored
      board the same threat against White is seen. */
  lemma SourceReachMissesSix()
    ensures !HitThreat(SixAwayBoard(), 10, SourceReach)
    ensures HitThreat(SixAwayBoard(), 10, IntendedReach)
    ensures HitThreat(Mirror(SixAwayBoard()), 13, SourceReach)
  {
    var b := SixAwayBoard();
    assert Occupied(b, 16, ColorWhite);
    var m := Mirror(b);
    assert MirrorSlot(7) == 16;
    assert Occupied(m, 7, ColorBlack);
  }

  /** With the six-point window both colours see the same threats: a blot
      is exposed exactly when its mirror image is. */
  lemma HitThreatIntendedMirror(b: Board, idx: int)
    requires FullBoard(b) && IsPlayable(idx)
    requires b.colorToMove == ColorWhite || b.colorToMove == ColorBlack
    ensures HitThreat(Mirror(b), 23 - idx, IntendedReach) == HitThreat(b, idx, IntendedReach)
  {
    if b.colorToMove == ColorWhite {
      HitThreatMirrorWhite(b, idx);
    } else {
      HitThreatMirrorWhite(Mirror(b), 23 - idx);
      MirrorInvolution(b);
    }
  }

  /** The White case: White's six points below `idx` are Black's six
      points above `23 - idx` on the mirror. */
  lemma HitThreatMirrorWhite(b: Board, idx: int)
    requires FullBoard(b) && IsPlayable(idx) && b.colorToMove == ColorWhite
    ensures HitThreat(Mirror(b), 23 - idx, IntendedReach) == HitThreat(b, idx, IntendedReach)
  {
    var m := Mirror(b);
    if HitThreat(b, idx, IntendedReach) {
      var j :| Max(idx - 6, 0) <= j < idx && Occupied(b, j, ColorBlack);
      MirrorPointFacts(b, j, ColorWhite);
      assert Occupied(m, 23 - j, ColorWhite);
    }
    if HitThreat(m, 23 - idx, IntendedReach) {
      var j :| 24 - idx <= j < Min(30 - idx, NumPlayablePoints) && Occupied(m, j, ColorWhite);
      MirrorPointFacts(b, 23 - j, ColorWhite);
      assert Occupied(b, 23 - j, ColorBlack);
    }
  }

  /* ---------------------------------------------------------------------
     unsafeCheckersScore (pkg/ai/evaluation.go:57-76)
     --------------------------------------------------------------------- */

  /** A single checker of the side to move. */
  predicate IsBlot(b: Board, idx: int)
    requires 0 <= idx < |b.points|
  {
    b.points[idx].checkerCount == 1 && b.points[idx].checker.color == b.colorToMove
  }

  /** What point `idx` adds to the unsafe score: a blot counts 1 in the
      zone (White from 18 up, Black up to 5), otherwise 5 when it can be
      hit; anything else counts nothing. */
  function UnsafeWeight(b: Board, idx: int, reach: int): (w: int)
    requires FullBoard(b) && IsPlayable(idx)
    ensures 0 <= w <= 5
    ensures w != 0 ==> IsBlot(b, idx)
  {
    var p := b.points[idx];
    if p.checkerCount == 0 || p.checker.color != b.colorToMove then 0
    else if p.checkerCount == 1 then
      if b.colorToMove == ColorWhite && idx >= 18 then 1
      else if b.colorToMove == ColorBlack && idx <= 5 then 1
      else if HitThreat(b, idx, reach) then 5
      else 0
    else 0
  }

  function UnsafeTerm(b: Board, reach: int): int -> int
    requires FullBoard(b)
  {
    i => if IsPlayable(i) then UnsafeWeight(b, i, reach) else 0
  }

  function BlotAt(b: Board): int -> bool {
    i => 0 <= i < |b.points| && IsBlot(b, i)
  }

  /** The unsafe score of the side to move, for a given hit window. */
  function UnsafeScore(b: Board, reach: int): int
    requires FullBoard(b)
  {
    SumIn(0, NumPlayablePoints, UnsafeTerm(b, reach))
  }

  method UnsafeCheckersScore(b: Board) returns (unsafeCheckers: int)
    requires FullBoard(b)
    ensures unsafeCheckers == UnsafeScore(b, SourceReach)
  {
    unsafeCheckers := 0;
    for idx := 0 to NumPlayablePoints
      invariant unsafeCheckers == SumIn(0, idx, UnsafeTerm(b, SourceReach))
    {
      assert SumIn(0, idx + 1, UnsafeTerm(b, SourceReach))
             == SumIn(0, idx, UnsafeTerm(b, SourceReach)) + UnsafeWeight(b, idx, SourceReach);
      if b.points[idx].checkerCount == 0 || b.points[idx].checker.color != b.colorToMove {
        continue;
      }
      if b.points[idx].checkerCount == 1 {
        if b.colorToMove == ColorWhite && idx >= 18 {
          unsafeCheckers := unsafeCheckers + 1;
        } else if b.colorToMove == ColorBlack && idx <= 5 {
          unsafeCheckers := unsafeCheckers + 1;
        } else {
          var barred := CanBeBarredNextMove(b, idx);
          if barred {
            unsafeCheckers := unsafeCheckers + 5;
          }
        }
      }
    }
  }

  /** Only blots score, at most 5 each, so the score lies between 0 and
      five times the number of the mover's blots. */
  lemma UnsafeScoreBounds(b: Board, reach: int)
    requires FullBoard(b)
    ensures 0 <= UnsafeScore(b, reach) <= 5 * CountIn(0, NumPlayablePoints, BlotAt(b))
  {
    var f := UnsafeTerm(b, reach);
    forall i | 0 <= i < NumPlayablePoints
      ensures 0 <= f(i) <= (if BlotAt(b)(i) then 5 else 0)
    {
    }
    SumInBoundedByCount(0, NumPlayablePoints, f, BlotAt(b));
  }

  /** A point's weight on a board and on its mirror agree, with the
      six-point window. */
  lemma UnsafeWeightMirror(b: Board, i: int)
    requires FullBoard(b) && IsPlayable(i)
    requires b.colorToMove == ColorWhite || b.colorToMove == ColorBlack
    ensures UnsafeWeight(Mirror(b), 23 - i, IntendedReach) == UnsafeWeight(b, i, IntendedReach)
  {
    MirrorPointFacts(b, i, ColorWhite);
    HitThreatIntendedMirror(b, i);
  }

  lemma UnsafeTermMirror(b: Board, i: int)
    requires FullBoard(b) && IsPlayable(i)
    requires b.colorToMove == ColorWhite || b.colorToMove == ColorBlack
    ensures UnsafeTerm(b, IntendedReach)(i) == UnsafeTerm(Mirror(b), IntendedReach)(23 - i)
  {
    UnsafeWeightMirror(b, i);
  }

  /** With the six-point window the unsafe score is mirror-invariant. */
  lemma UnsafeScoreIntendedMirror(b: Board)
    requires FullBoard(b)
    requires b.colorToMove == ColorWhite || b.colorToMove == ColorBlack
    ensures UnsafeScore(Mirror(b), IntendedReach) == UnsafeScore(b, IntendedReach)
  {
    var f := UnsafeTerm(b, IntendedReach);
    var g := UnsafeTerm(Mirror(b), IntendedReach);
    forall i | 0 <= i < NumPlayablePoints
      ensures f(i) == g(23 - i)
    {
      UnsafeTermMirror(b, i);
    }
    SumInPlayableReflect(f, g);
  }

  /* ---------------------------------------------------------------------
     goodCoverageCheckerScore (pkg/ai/evaluation.go:78-139)
     --------------------------------------------------------------------- */

  function SafeAt(b: Board): int -> bool {
    i => 0 <= i < |b.points| && IsSafe(b, i)
  }

  /** What `if isSafe(b, i) { score += w }` adds: `w` when point `i` is
      safe, else nothing. */
  function Bonus(b: Board, i: int, w: real): (r: real)
    requires FullBoard(b) && IsPlayable(i) && w >= 0.0
    ensures 0.0 <= r <= w
  {
    if IsSafe(b, i) then w else 0.0
  }

  /** One point per safe point outside the mover's home board, plus a
      bonus per safe point on it and on the point just outside it, the
      bonus growing from 1 at the deepest point to 5 at the sixth. */
  function CoverageScore(b: Board): (s: real)
    requires FullBoard(b)
    ensures 0.0 <= s <= 38.0
  {
    if b.colorToMove == ColorWhite then
      CountIn(6, NumPlayablePoints, SafeAt(b)) as real
      + Bonus(b, 6, 3.5) + Bonus(b, 5, 5.0) + Bonus(b, 4, 4.0) + Bonus(b, 3, 3.0)
      + Bonus(b, 2, 2.0) + Bonus(b, 1, 1.5) + Bonus(b, 0, 1.0)
    else
      CountIn(0, 18, SafeAt(b)) as real
      + Bonus(b, 17, 3.5) + Bonus(b, 18, 5.0) + Bonus(b, 19, 4.0) + Bonus(b, 20, 3.0)
      + Bonus(b, 21, 2.0) + Bonus(b, 22, 1.5) + Bonus(b, 23, 1.0)
  }

  method GoodCoverageCheckerScore(b: Board) returns (score: real)
    requires FullBoard(b)
    ensures score == CoverageScore(b)
  {
    score := 0.0;
    if b.colorToMove == ColorWhite {
      var idx := NumPlayablePoints - 1;
      while idx >= 6
        invariant 5 <= idx <= NumPlayablePoints - 1
        invariant score == CountIn(idx + 1, NumPlayablePoints, SafeAt(b)) as real
        decreases idx
      {
        CountInDropLow(idx, NumPlayablePoints, SafeAt(b));
        if IsSafe(b, idx) {
          score := score + 1.0;
        }
        idx := idx - 1;
      }
      score := score + Bonus(b, 6, 3.5);
      score := score + Bonus(b, 5, 5.0);
      score := score + Bonus(b, 4, 4.0);
      score := score + Bonus(b, 3, 3.0);
      score := score + Bonus(b, 2, 2.0);
      score := score + Bonus(b, 1, 1.5);
      score := score + Bonus(b, 0, 1.0);
    } else {
      for idx := 0 to 18
        invariant score == CountIn(0, idx, SafeAt(b)) as real
      {
        if IsSafe(b, idx) {
          score := score + 1.0;
        }
      }
      score := score + Bonus(b, 17, 3.5);
      score := score + Bonus(b, 18, 5.0);
      score := score + Bonus(b, 19, 4.0);
      score := score + Bonus(b, 20, 3.0);
      score := score + Bonus(b, 21, 2.0);
      score := score + Bonus(b, 22, 1.5);
      score := score + Bonus(b, 23, 1.0);
    }
  }

  /** Safe points of a stretch are the safe points of the mirrored
      stretch on the mirror. */
  lemma SafeCountMirror(b: Board, lo: int, hi: int)
    requires FullBoard(b) && 0 <= lo <= hi <= NumPlayablePoints
    ensures CountIn(lo, hi, SafeAt(b)) == CountIn(NumPlayablePoints - hi, NumPlayablePoints - lo, SafeAt(Mirror(b)))
  {
    var m := Mirror(b);
    forall i | lo <= i < hi
      ensures SafeAt(b)(i) == SafeAt(m)(23 - i)
    {
      IsSafeMirror(b, i);
    }
    CountInPlayableReflect(lo, hi, SafeAt(b), SafeAt(m));
  }

  lemma BonusMirror(b: Board, i: int, w: real)
    requires FullBoard(b) && IsPlayable(i) && w >= 0.0
    ensures Bonus(Mirror(b), 23 - i, w) == Bonus(b, i, w)
  {
    IsSafeMirror(b, i);
  }

  /** White's coverage of a board is Black's coverage of its mirror. */
  lemma CoverageMirrorWhite(b: Board)
    requires FullBoard(b) && b.colorToMove == ColorWhite
    ensures CoverageScore(Mirror(b)) == CoverageScore(b)
  {
    SafeCountMirror(b, 6, NumPlayablePoints);
    BonusMirror(b, 6, 3.5);
    BonusMirror(b, 5, 5.0);
    BonusMirror(b, 4, 4.0);
    BonusMirror(b, 3, 3.0);
    BonusMirror(b, 2, 2.0);
    BonusMirror(b, 1, 1.5);
    BonusMirror(b, 0, 1.0);
  }

  /** The coverage of either side is the other side's on the mirror. */
  lemma CoverageMirror(b: Board)
    requires FullBoard(b)
    requires b.colorToMove == ColorWhite || b.colorToMove == ColorBlack
    ensures CoverageScore(Mirror(b)) == CoverageScore(b)
  {
    if b.colorToMove == ColorWhite {
      CoverageMirrorWhite(b);
    } else {
      CoverageMirrorWhite(Mirror(b));
      MirrorInvolution(b);
    }
  }

  /* ---------------------------------------------------------------------
     checkerDistanceScore and expectedDelay (pkg/ai/evaluation.go:29-55,
     178-186)
     --------------------------------------------------------------------- */

  /** Point `i`'s share of the pip count: each of the mover's checkers
      counts its distance from bearing off, `24 - i` for Black and `i + 1`
      for any other colour. */
  function PipTerm(b: Board): int -> int
    requires FullBoard(b)
  {
    i => if IsPlayable(i) && b.points[i].checker.color == b.colorToMove then
           b.points[i].checkerCount
           * (if b.colorToMove == ColorBlack then NumPlayablePoints - i else i + 1)
         else 0
  }

  function PipCount(b: Board): int
    requires FullBoard(b)
  {
    SumIn(0, NumPlayablePoints, PipTerm(b))
  }

  /** The expected number of turns a checker on the bar waits before it
      enters, when `spots` of the six entry points are open; 10 when none
      is. */
  function ExpectedDelay(spots: real): (d: real)
    requires 0.0 <= spots <= 6.0
    ensures d >= 1.0
  {
    if spots == 0.0 then 10.0
    else
      var x := (6.0 - spots) / 6.0;
      SquareBelow(x);
      var enter := 1.0 - x * x;
      ReciprocalAtLeastOne(enter);
      1.0 / enter
  }

  lemma SquareBelow(x: real)
    requires 0.0 <= x < 1.0
    ensures 0.0 <= x * x <= x
  {
  }

  lemma ReciprocalAtLeastOne(y: real)
    requires 0.0 < y <= 1.0
    ensures 1.0 / y >= 1.0
  {
  }

  /** The delay on whole numbers of open points: it falls from 10 to 1 as
      more of the home board opens. */
  lemma ExpectedDelayTable()
    ensures ExpectedDelay(0.0) == 10.0
    ensures ExpectedDelay(1.0) == 36.0 / 11.0
    ensures ExpectedDelay(2.0) == 9.0 / 5.0
    ensures ExpectedDelay(3.0) == 4.0 / 3.0
    ensures ExpectedDelay(4.0) == 9.0 / 8.0
    ensures ExpectedDelay(5.0) == 36.0 / 35.0
    ensures ExpectedDelay(6.0) == 1.0
    ensures forall n: int, k: int {:trigger ExpectedDelay(n as real), ExpectedDelay(k as real)} ::
              0 <= n <= k <= 6 ==> ExpectedDelay(k as real) <= ExpectedDelay(n as real)
  {
  }

  /** The mover's bar slot. */
  function MoverBarCount(b: Board): int
    requires FullBoard(b)
  {
    if b.colorToMove == ColorBlack then b.points[BlackPiecesBarPointIndex].checkerCount
    else b.points[WhitePiecesBarPointIndex].checkerCount
  }

  /** What `barred` checkers on the bar cost when `spots` entry points are
      open: each a full trip of 24 pips plus 7 per expected turn of waiting
      beyond the first, so never less than the full trip. */
  function BarCharge(spots: int, barred: int): (p: real)
    requires 0 <= spots <= 6 && barred > 0
    ensures p >= 24.0 * barred as real
  {
    var perChecker := (ExpectedDelay(spots as real) - 1.0) * 7.0 + 24.0;
    ScaleAtLeast(perChecker, barred as real);
    perChecker * barred as real
  }

  lemma ScaleAtLeast(x: real, n: real)
    requires x >= 24.0 && n >= 0.0
    ensures x * n >= 24.0 * n
  {
  }

  /** The extra distance charged for the mover's checkers on the bar.
      Only White and Black have a bar. */
  function BarPenalty(b: Board): (p: real)
    requires FullBoard(b)
    ensures p >= 0.0
    ensures p != 0.0 ==>
            (b.colorToMove == ColorWhite || b.colorToMove == ColorBlack) && MoverBarCount(b) > 0
  {
    if (b.colorToMove == ColorWhite && b.points[WhitePiecesBarPointIndex].checkerCount > 0)
       || (b.colorToMove == ColorBlack && b.points[BlackPiecesBarPointIndex].checkerCount > 0)
    then BarCharge(FreeSpotsOf(b, Opponent(b.colorToMove)), MoverBarCount(b))
    else 0.0
  }

  function DistanceScore(b: Board): real
    requires FullBoard(b)
  {
    PipCount(b) as real + BarPenalty(b)
  }

  method CheckerDistanceScore(b: Board) returns (sum: real)
    requires FullBoard(b)
    ensures sum == DistanceScore(b)
  {
    sum := 0.0;
    for idx := 0 to NumPlayablePoints
      invariant sum == SumIn(0, idx, PipTerm(b)) as real
    {
      ghost var before := SumIn(0, idx, PipTerm(b));
      assert SumIn(0, idx + 1, PipTerm(b)) == before + PipTerm(b)(idx);
      if b.colorToMove == ColorBlack {
        if b.points[idx].checker.color == b.colorToMove {
          sum := sum + (b.points[idx].checkerCount * (NumPlayablePoints - idx)) as real;
        }
      } else {
        if b.points[idx].checker.color == b.colorToMove {
          sum := sum + (b.points[idx].checkerCount * (idx + 1)) as real;
        }
      }
    }
    if (b.colorToMove == ColorWhite && b.points[WhitePiecesBarPointIndex].checkerCount > 0)
       || (b.colorToMove == ColorBlack && b.points[BlackPiecesBarPointIndex].checkerCount > 0)
    {
      var spots := FreeSpots(b, Opponent(b.colorToMove));
      var cntBarred := b.points[WhitePiecesBarPointIndex].checkerCount;
      if b.colorToMove == ColorBlack {
        cntBarred := b.points[BlackPiecesBarPointIndex].checkerCount;
      }
      assert cntBarred == MoverBarCount(b);
      sum := sum + BarCharge(spots, cntBarred);
    }
  }

  /** With no checker of the mover on the bar the distance score is the
      mover's pip count. */
  lemma DistanceWithoutBar(b: Board)
    requires FullBoard(b) && MoverBarCount(b) == 0
    ensures DistanceScore(b) == PipCount(b) as real
  {
  }

  /** A point's share of the pip count agrees with its mirror point's. */
  lemma PipTermMirror(b: Board, i: int)
    requires FullBoard(b) && IsPlayable(i)
    requires b.colorToMove == ColorWhite || b.colorToMove == ColorBlack
    ensures PipTerm(b)(i) == PipTerm(Mirror(b))(23 - i)
  {
    MirrorPointFacts(b, i, ColorWhite);
    if b.colorToMove == ColorBlack {
      assert (23 - i) + 1 == NumPlayablePoints - i;
    } else {
      assert NumPlayablePoints - (23 - i) == i + 1;
    }
  }

  /** White's pip count on a board is Black's on its mirror. */
  lemma PipCountMirror(b: Board)
    requires FullBoard(b)
    requires b.colorToMove == ColorWhite || b.colorToMove == ColorBlack
    ensures PipCount(Mirror(b)) == PipCount(b)
  {
    var m := Mirror(b);
    forall i | 0 <= i < NumPlayablePoints
      ensures PipTerm(b)(i) == PipTerm(m)(23 - i)
    {
      PipTermMirror(b, i);
    }
    SumInPlayableReflect(PipTerm(b), PipTerm(m));
  }

  /** The bar penalty depends on the mover's bar and the opponent's home
      board, which the mirror exchanges together. */
  lemma BarPenaltyMirror(b: Board)
    requires FullBoard(b)
    requires b.colorToMove == ColorWhite || b.colorToMove == ColorBlack
    ensures BarPenalty(Mirror(b)) == BarPenalty(b)
  {
    var m := Mirror(b);
    assert m.points[BlackPiecesBarPointIndex] == FlipPoint(b.points[WhitePiecesBarPointIndex]);
    assert m.points[WhitePiecesBarPointIndex] == FlipPoint(b.points[BlackPiecesBarPointIndex]);
    assert MoverBarCount(m) == MoverBarCount(b);
    FreeSpotsMirror(b, Opponent(b.colorToMove));
    OpponentInvolution(b.colorToMove);
    assert FreeSpotsOf(m, Opponent(m.colorToMove)) == FreeSpotsOf(b, Opponent(b.colorToMove));
  }

  /** White's distance on a board is Black's on its mirror: pips and bar
      penalty alike. */
  lemma DistanceMirror(b: Board)
    requires FullBoard(b)
    requires b.colorToMove == ColorWhite || b.colorToMove == ColorBlack
    ensures DistanceScore(Mirror(b)) == DistanceScore(b)
  {
    PipCountMirror(b);
    BarPenaltyMirror(b);
  }

  /* ---------------------------------------------------------------------
     EvaluateBoard and evaluateBoard (pkg/ai/evaluation.go:9-27)
     --------------------------------------------------------------------- */

  /** Black's scores minus White's on the same points, whoever is to move:
      distance weighted 100, coverage and exposure 50 each. */
  function BoardScore(b: Board, reach: int): real
    requires FullBoard(b)
  {
    var blackBoard := b.(colorToMove := ColorBlack);
    var whiteBoard := b.(colorToMove := ColorWhite);
    100.0 * (DistanceScore(blackBoard) - DistanceScore(whiteBoard))
    + 50.0 * (CoverageScore(blackBoard) - CoverageScore(whiteBoard))
    + (50 * (UnsafeScore(blackBoard, reach) - UnsafeScore(whiteBoard, reach))) as real
  }

  /** The score from the side to move's point of view. */
  function MoverScore(b: Board): real
    requires FullBoard(b)
  {
    if b.colorToMove == ColorWhite then BoardScore(b, SourceReach) else -BoardScore(b, SourceReach)
  }

  method ScoreDifference(b: Board) returns (score: real)
    requires FullBoard(b)
    ensures score == BoardScore(b, SourceReach)
  {
    var blackBoard := b.(colorToMove := ColorBlack);
    var whiteBoard := b.(colorToMove := ColorWhite);
    var blackDistance := CheckerDistanceScore(blackBoard);
    var whiteDistance := CheckerDistanceScore(whiteBoard);
    var blackCoverage := GoodCoverageCheckerScore(blackBoard);
    var whiteCoverage := GoodCoverageCheckerScore(whiteBoard);
    var blackUnsafe := UnsafeCheckersScore(blackBoard);
    var whiteUnsafe := UnsafeCheckersScore(whiteBoard);
    score := 100.0 * (blackDistance - whiteDistance)
             + 50.0 * (blackCoverage - whiteCoverage)
             + (50 * (blackUnsafe - whiteUnsafe)) as real;
  }

  method EvaluateBoard(b: Board) returns (score: real)
    requires FullBoard(b)
    ensures score == MoverScore(b)
  {
    score := ScoreDifference(b);
    if b.colorToMove != ColorWhite {
      score := -score;
    }
  }

  /** The difference only reads the points: the side to move is
      overwritten on both copies. */
  lemma BoardScoreIgnoresMover(b: Board, c: Color, reach: int)
    requires FullBoard(b)
    ensures BoardScore(b.(colorToMove := c), reach) == BoardScore(b, reach)
  {
    assert b.(colorToMove := c).(colorToMove := ColorBlack) == b.(colorToMove := ColorBlack);
    assert b.(colorToMove := c).(colorToMove := ColorWhite) == b.(colorToMove := ColorWhite);
  }

  /** Two boards that differ only in whose turn it is get opposite
      scores from White's and Black's points of view. */
  lemma MoverScoreNegates(b: Board)
    requires FullBoard(b)
    ensures MoverScore(b.(colorToMove := ColorWhite)) == -MoverScore(b.(colorToMove := ColorBlack))
  {
    BoardScoreIgnoresMover(b, ColorWhite, SourceReach);
    BoardScoreIgnoresMover(b, ColorBlack, SourceReach);
  }

  /** With the six-point hit window, mirroring a board negates its score:
      each side is judged by the same rules. */
  lemma BoardScoreIntendedAntisymmetric(b: Board)
    requires FullBoard(b)
    ensures BoardScore(Mirror(b), IntendedReach) == -BoardScore(b, IntendedReach)
  {
    var blackBoard := b.(colorToMove := ColorBlack);
    var whiteBoard := b.(colorToMove := ColorWhite);
    MirrorWithMover(b, ColorBlack);
    MirrorWithMover(b, ColorWhite);
    assert Mirror(b).(colorToMove := ColorBlack) == Mirror(whiteBoard);
    assert Mirror(b).(colorToMove := ColorWhite) == Mirror(blackBoard);
    DistanceMirror(blackBoard);
    DistanceMirror(whiteBoard);
    CoverageMirror(blackBoard);
    CoverageMirror(whiteBoard);
    UnsafeScoreIntendedMirror(blackBoard);
    UnsafeScoreIntendedMirror(whiteBoard);
  }
}
