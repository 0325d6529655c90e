/**
 * Applying moves and move rolls to a board (pkg/board/move.go:1-61).
 *
 * `MakeMove` copies the board and updates the copy in place; the source's
 * panics (its own two, and the run-time panic of an index outside the
 * point slice) become `Panicked` results.
 */
module Moves {
  import opened BoardConsts
  import opened Boards

  type MoveType = int

  const NormalMove: MoveType := 0
  const CheckerOnBarMove: MoveType := 1
  const BearingOffMove: MoveType := 2

  /** The destination a bear-off move must name.  It is declared outside
      the modelled files, so its value is left unspecified here. */
  const ToIndexForBearingOff: int

  datatype Move = Move(from: int, to: int, moveType: MoveType)

  /** Why applying a move stopped the program. */
  datatype Panic = IndexOutOfRange | ColorMismatch | InvalidBearOffTarget

  datatype Result<T> = Ok(value: T) | Panicked(reason: Panic)

  /** Moves that carry a checker to a point: ordinary moves and bar entries. */
  predicate Travels(m: Move) {
    m.moveType == NormalMove || m.moveType == CheckerOnBarMove
  }

  /** Does point `p` hold exactly one checker of a colour other than `mover`? */
  predicate IsLoneOpponent(p: Point, mover: Color) {
    p.checkerCount == 1 && p.checker.color != mover
  }

  function AddCheckers(p: Point, k: int): Point {
    p.(checkerCount := p.checkerCount + k)
  }

  /** The effect of one move on a board, step by step as the source
      performs it on its copy. */
  function ApplyMove(m: Move, b: Board): Result<Board> {
    var ps := b.points;
    if !(0 <= m.from < |ps|) then Panicked(IndexOutOfRange)
    else if b.colorToMove != ps[m.from].checker.color then Panicked(ColorMismatch)
    else if Travels(m) then
      var checker := ps[m.from].checker;
      var ps1 := ps[m.from := AddCheckers(ps[m.from], -1)];
      if !(0 <= m.to < |ps1|) then Panicked(IndexOutOfRange)
      else if IsLoneOpponent(ps1[m.to], b.colorToMove) then
        var bar := BarIndex(ps1[m.to].checker.color);
        if !(bar < |ps1|) then Panicked(IndexOutOfRange)
        else
          var ps2 := ps1[bar := AddCheckers(ps1[bar], 1)];
          Ok(b.(points := ps2[m.to := ps2[m.to].(checkerCount := 1, checker := checker)]))
      else
        Ok(b.(points := ps1[m.to := ps1[m.to].(checkerCount := ps1[m.to].checkerCount + 1, checker := checker)]))
    else if m.moveType == BearingOffMove then
      if m.to != ToIndexForBearingOff then Panicked(InvalidBearOffTarget)
      else Ok(b.(points := ps[m.from := AddCheckers(ps[m.from], -1)]))
    else Ok(b)
  }

  /** Move.MakeMove: checks the mover's colour, copies the board and
      updates the copy's points in place. */
  method MakeMove(m: Move, b: Board) returns (r: Result<Board>)
    ensures r == ApplyMove(m, b)
  {
    if !(0 <= m.from < |b.points|) {
      return Panicked(IndexOutOfRange);
    }
    if b.colorToMove != b.points[m.from].checker.color {
      return Panicked(ColorMismatch);
    }
    var n := |b.points|;
    var points := new Point[n](i requires 0 <= i < n => b.points[i]);
    assert points[..] == b.points;
    if m.moveType == NormalMove || m.moveType == CheckerOnBarMove {
      var checker := points[m.from].checker;
      points[m.from] := AddCheckers(points[m.from], -1);
      ghost var ps1 := points[..];
      if !(0 <= m.to < n) {
        return Panicked(IndexOutOfRange);
      }
      if points[m.to].checkerCount == 1 && points[m.to].checker.color != b.colorToMove {
        var bar := if points[m.to].checker.color == ColorBlack
                   then BlackPiecesBarPointIndex else WhitePiecesBarPointIndex;
        if !(bar < n) {
          return Panicked(IndexOutOfRange);
        }
        points[bar] := AddCheckers(points[bar], 1);
        ghost var ps2 := points[..];
        assert ps2 == ps1[bar := AddCheckers(ps1[bar], 1)];
        points[m.to] := points[m.to].(checkerCount := 1, checker := checker);
        assert points[..] == ps2[m.to := ps2[m.to].(checkerCount := 1, checker := checker)];
      } else {
        points[m.to] := points[m.to].(checkerCount := points[m.to].checkerCount + 1, checker := checker);
        assert points[..] == ps1[m.to := ps1[m.to].(checkerCount := ps1[m.to].checkerCount + 1, checker := checker)];
      }
    } else if m.moveType == BearingOffMove {
      if m.to != ToIndexForBearingOff {
        return Panicked(InvalidBearOffTarget);
      }
      points[m.from] := AddCheckers(points[m.from], -1);
    }
    r := Ok(b.(points := points[..]));
  }

  /** The board is left alone except where stated: every slot outside `changed`
      keeps its point, and neither the turn nor the game state moves. */
  predicate SameExcept(b: Board, b': Board, changed: set<int>) {
    |b'.points| == |b.points| && b'.colorToMove == b.colorToMove && b'.gameState == b.gameState
    && forall i :: 0 <= i < |b.points| && i !in changed ==> b'.points[i] == b.points[i]
  }

  /** On a full board MakeMove panics exactly when the source does: a
      `From` outside the slots, a `From` that is not the mover's colour, a
      travelling move to a slot outside the board, or a bear-off whose
      destination is not the bear-off index. */
  lemma MakeMovePanics(m: Move, b: Board)
    requires FullBoard(b)
    ensures ApplyMove(m, b).Panicked? <==>
              !(0 <= m.from < NumPoints)
              || b.points[m.from].checker.color != b.colorToMove
              || (Travels(m) && !(0 <= m.to < NumPoints))
              || (m.moveType == BearingOffMove && m.to != ToIndexForBearingOff)
    ensures ApplyMove(m, b) == Panicked(ColorMismatch) <==>
              0 <= m.from < NumPoints && b.points[m.from].checker.color != b.colorToMove
  {
  }

  /** An ordinary move or bar entry that does not hit: `From` loses a
      checker, `To` gains one and takes the mover's colour, nothing else
      changes. */
  lemma PlainMoveEffect(m: Move, b: Board)
    requires FullBoard(b) && Travels(m)
    requires 0 <= m.from < NumPoints && 0 <= m.to < NumPoints && m.from != m.to
    requires b.points[m.from].checker.color == b.colorToMove
    requires !IsLoneOpponent(b.points[m.to], b.colorToMove)
    ensures ApplyMove(m, b).Ok?
    ensures var b' := ApplyMove(m, b).value;
            SameExcept(b, b', {m.from, m.to})
            && b'.points[m.from] == AddCheckers(b.points[m.from], -1)
            && b'.points[m.to].checkerCount == b.points[m.to].checkerCount + 1
            && b'.points[m.to].checker.color == b.colorToMove
            && b'.points[m.to].pointIndex == b.points[m.to].pointIndex
  {
  }

  /** A move onto a lone opposing checker hits it: `To` ends with one
      checker of the mover's colour and the hit colour's bar (24 for black,
      25 for any other colour) gains one. */
  lemma HitEffect(m: Move, b: Board)
    requires FullBoard(b) && Travels(m)
    requires 0 <= m.from < NumPoints && IsPlayable(m.to) && m.from != m.to
    requires b.points[m.from].checker.color == b.colorToMove
    requires IsLoneOpponent(b.points[m.to], b.colorToMove)
    requires m.from != BarIndex(b.points[m.to].checker.color)
    ensures ApplyMove(m, b).Ok?
    ensures var b' := ApplyMove(m, b).value;
            var bar := BarIndex(b.points[m.to].checker.color);
            SameExcept(b, b', {m.from, m.to, bar})
            && b'.points[m.from] == AddCheckers(b.points[m.from], -1)
            && b'.points[m.to].checkerCount == 1
            && b'.points[m.to].checker.color == b.colorToMove
            && b'.points[m.to].pointIndex == b.points[m.to].pointIndex
            && b'.points[bar] == AddCheckers(b.points[bar], 1)
  {
  }

  /** A bear-off to the bear-off index only takes one checker off `From`. */
  lemma BearOffEffect(m: Move, b: Board)
    requires FullBoard(b) && m.moveType == BearingOffMove && m.to == ToIndexForBearingOff
    requires 0 <= m.from < NumPoints && b.points[m.from].checker.color == b.colorToMove
    ensures ApplyMove(m, b).Ok?
    ensures var b' := ApplyMove(m, b).value;
            SameExcept(b, b', {m.from}) && b'.points[m.from] == AddCheckers(b.points[m.from], -1)
  {
  }

  /** A move of any other type returns the copy unchanged. */
  lemma OtherMoveTypeEffect(m: Move, b: Board)
    requires !Travels(m) && m.moveType != BearingOffMove
    requires 0 <= m.from < |b.points| && b.points[m.from].checker.color == b.colorToMove
    ensures ApplyMove(m, b) == Ok(b)
  {
  }

  /* ---------------------------------------------------------------------
     Checker conservation.  A colour's checkers are those on playable
     points of that colour plus the count on its bar slot (the bar slot
     is counted by its index, whatever colour it carries).
     --------------------------------------------------------------------- */

  function Total(b: Board, c: Color): int
    requires FullBoard(b)
  {
    ColorSum(b.points[..NumPlayablePoints], c) + b.points[BarIndex(c)].checkerCount
  }

  /** The source's legality assumption about a travelling move of a
      two-colour board: it starts on a playable point or the mover's own
      bar, lands on a playable point that is empty, the mover's, or a lone
      opposing checker. */
  predicate LegalTravel(m: Move, b: Board)
    requires FullBoard(b)
  {
    var mover := b.colorToMove;
    (mover == ColorWhite || mover == ColorBlack)
    && Travels(m)
    && (IsPlayable(m.from) || m.from == BarIndex(mover))
    && IsPlayable(m.to) && m.from != m.to
    && b.points[m.from].checker.color == mover
    && (b.points[m.to].checkerCount == 0
        || b.points[m.to].checker.color == mover
        || (b.points[m.to].checkerCount == 1 && b.points[m.to].checker.color == Opponent(mover)))
  }

  /** A legal ordinary move or bar entry keeps both colours' totals. */
  lemma {:induction false} TravelConserves(m: Move, b: Board)
    requires FullBoard(b) && LegalTravel(m, b)
    ensures ApplyMove(m, b).Ok? && FullBoard(ApplyMove(m, b).value)
    ensures Total(ApplyMove(m, b).value, ColorWhite) == Total(b, ColorWhite)
    ensures Total(ApplyMove(m, b).value, ColorBlack) == Total(b, ColorBlack)
  {
    TravelConservesColor(m, b, ColorWhite);
    TravelConservesColor(m, b, ColorBlack);
  }

  lemma TravelConservesColor(m: Move, b: Board, c: Color)
    requires FullBoard(b) && LegalTravel(m, b)
    requires c == ColorWhite || c == ColorBlack
    ensures ApplyMove(m, b).Ok? && FullBoard(ApplyMove(m, b).value)
    ensures Total(ApplyMove(m, b).value, c) == Total(b, c)
  {
    var mover := b.colorToMove;
    var ps := b.points;
    var ps1 := ps[m.from := AddCheckers(ps[m.from], -1)];
    var b' := ApplyMove(m, b).value;
    var to := m.to;
    // Taking the checker off `From`.
    var prefix1 := ps1[..NumPlayablePoints];
    if IsPlayable(m.from) {
      assert prefix1 == ps[..NumPlayablePoints][m.from := AddCheckers(ps[m.from], -1)];
      ColorSumUpdate(ps[..NumPlayablePoints], m.from, AddCheckers(ps[m.from], -1), c);
    } else {
      assert prefix1 == ps[..NumPlayablePoints];
    }
    if IsLoneOpponent(ps1[to], mover) {
      var bar := BarIndex(ps1[to].checker.color);
      var ps2 := ps1[bar := AddCheckers(ps1[bar], 1)];
      assert ps2[..NumPlayablePoints] == prefix1;
      var p' := ps2[to].(checkerCount := 1, checker := ps[m.from].checker);
      assert b'.points[..NumPlayablePoints] == prefix1[to := p'];
      ColorSumUpdate(prefix1, to, p', c);
    } else {
      var p' := ps1[to].(checkerCount := ps1[to].checkerCount + 1, checker := ps[m.from].checker);
      assert b'.points[..NumPlayablePoints] == prefix1[to := p'];
      ColorSumUpdate(prefix1, to, p', c);
    }
  }

  /** A bear-off from a playable point lowers the mover's total by one and
      leaves the other colour's total alone. */
  lemma {:induction false} BearOffRemovesOne(m: Move, b: Board)
    requires FullBoard(b) && m.moveType == BearingOffMove && m.to == ToIndexForBearingOff
    requires IsPlayable(m.from) && b.points[m.from].checker.color == b.colorToMove
    requires b.colorToMove == ColorWhite || b.colorToMove == ColorBlack
    ensures ApplyMove(m, b).Ok? && FullBoard(ApplyMove(m, b).value)
    ensures Total(ApplyMove(m, b).value, b.colorToMove) == Total(b, b.colorToMove) - 1
    ensures Total(ApplyMove(m, b).value, Opponent(b.colorToMove)) == Total(b, Opponent(b.colorToMove))
  {
    var ps := b.points;
    var p' := AddCheckers(ps[m.from], -1);
    assert ApplyMove(m, b).value.points[..NumPlayablePoints] == ps[..NumPlayablePoints][m.from := p'];
    ColorSumUpdate(ps[..NumPlayablePoints], m.from, p', b.colorToMove);
    ColorSumUpdate(ps[..NumPlayablePoints], m.from, p', Opponent(b.colorToMove));
  }

  /** A point's share of ColorSum. */
  function Share(p: Point, c: Color): int {
    if p.checker.color == c then p.checkerCount else 0
  }

  /** Replacing one point changes ColorSum by the difference of the shares. */
  lemma {:induction false} ColorSumUpdate(ps: seq<Point>, i: int, p: Point, c: Color)
    requires 0 <= i < |ps|
    ensures ColorSum(ps[i := p], c) == ColorSum(ps, c) - Share(ps[i], c) + Share(p, c)
    decreases |ps|
  {
    var n := |ps| - 1;
    if i < n {
      assert ps[i := p][..n] == ps[..n][i := p];
      ColorSumUpdate(ps[..n], i, p, c);
    } else {
      assert ps[i := p][..n] == ps[..n];
    }
  }

  /* ---------------------------------------------------------------------
     Move rolls (MoveRoll.MakeMoveRoll, pkg/board/move.go:53-61).
     --------------------------------------------------------------------- */

  /** Left fold of ApplyMove over a roll; the first panic stops it. */
  function ApplyRoll(roll: seq<Move>, b: Board): Result<Board>
    decreases |roll|
  {
    if roll == [] then Ok(b)
    else match ApplyMove(roll[0], b)
      case Panicked(e) => Panicked(e)
      case Ok(b1) => ApplyRoll(roll[1..], b1)
  }

  /** Applies `roll` to `r` unless `r` already panicked. */
  function ThenRoll(r: Result<Board>, roll: seq<Move>): Result<Board> {
    match r
    case Panicked(e) => Panicked(e)
    case Ok(b) => ApplyRoll(roll, b)
  }

  /** MoveRoll.MakeMoveRoll: applies the moves one after the other to a
      running copy of the board. */
  method MakeMoveRoll(roll: seq<Move>, b: Board) returns (r: Result<Board>)
    ensures r == ApplyRoll(roll, b)
  {
    var boardForRoll := b;
    for idx := 0 to |roll|
      invariant ApplyRoll(roll[idx..], boardForRoll) == ApplyRoll(roll, b)
    {
      assert roll[idx..][1..] == roll[idx + 1..];
      var next := MakeMove(roll[idx], boardForRoll);
      if next.Panicked? {
        return next;
      }
      boardForRoll := next.value;
    }
    r := Ok(boardForRoll);
  }

  /** The empty roll gives back the board. */
  lemma EmptyRoll(b: Board)
    ensures ApplyRoll([], b) == Ok(b)
  {
  }

  /** A roll applies in order: its first part, then the rest. */
  lemma {:induction false} ApplyRollAppend(r1: seq<Move>, r2: seq<Move>, b: Board)
    ensures ApplyRoll(r1 + r2, b) == ThenRoll(ApplyRoll(r1, b), r2)
    decreases |r1|
  {
    if r1 == [] {
      assert r1 + r2 == r2;
    } else {
      assert (r1 + r2)[0] == r1[0];
      assert (r1 + r2)[1..] == r1[1..] + r2;
      if ApplyMove(r1[0], b).Ok? {
        ApplyRollAppend(r1[1..], r2, ApplyMove(r1[0], b).value);
      }
    }
  }

  /** Appending a move to a roll applies that move to the roll's result,
      so a roll is the sequential application of its moves. */
  lemma ApplyRollSnoc(roll: seq<Move>, m: Move, b: Board)
    ensures ApplyRoll(roll + [m], b)
            == match ApplyRoll(roll, b)
               case Panicked(e) => Panicked(e)
               case Ok(b1) => ApplyMove(m, b1)
  {
    ApplyRollAppend(roll, [m], b);
    if ApplyRoll(roll, b).Ok? {
      var b1 := ApplyRoll(roll, b).value;
      assert [m][1..] == [];
      assert ApplyRoll([m], b1) == (match ApplyMove(m, b1) case Panicked(e) => Panicked(e) case Ok(b2) => ApplyRoll([], b2));
    }
  }

  /** A move never changes the turn, the game state or the number of slots. */
  lemma ApplyMoveKeepsShape(m: Move, b: Board)
    requires ApplyMove(m, b).Ok?
    ensures var b' := ApplyMove(m, b).value;
            b'.colorToMove == b.colorToMove && b'.gameState == b.gameState
            && |b'.points| == |b.points|
  {
  }

  /** Nor does a roll: the turn passes only outside MakeMoveRoll. */
  lemma {:induction false} ApplyRollKeepsShape(roll: seq<Move>, b: Board)
    requires ApplyRoll(roll, b).Ok?
    ensures var b' := ApplyRoll(roll, b).value;
            b'.colorToMove == b.colorToMove && b'.gameState == b.gameState
            && |b'.points| == |b.points|
    decreases |roll|
  {
    if roll != [] {
      ApplyMoveKeepsShape(roll[0], b);
      ApplyRollKeepsShape(roll[1..], ApplyMove(roll[0], b).value);
    }
  }
}
