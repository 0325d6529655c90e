/**
 * Colours, game states and slot layout of the backgammon board
 * (pkg/board/board_consts.go).
 *
 * A board has 26 slots: 0..23 are the playable points, 24 holds the
 * black checkers that have been hit and 25 the white ones.
 */
module BoardConsts {

  /** A checker colour.  The source uses an 8-bit integer; only its
      values 0 and 1 are colours, every other value is "no colour". */
  type Color = int

  const ColorWhite: Color := 0
  const ColorBlack: Color := 1

  /** The other side, written `1 - c` by the callers of the board package. */
  function Opponent(c: Color): (o: Color)
    ensures c == ColorWhite <==> o == ColorBlack
    ensures c == ColorBlack <==> o == ColorWhite
  {
    1 - c
  }

  /** `1 - c` is an involution, so flipping the turn twice changes nothing. */
  lemma OpponentInvolution(c: Color)
    ensures Opponent(Opponent(c)) == c
    ensures Opponent(c) != c
  {
  }

  datatype GameState = BearingOff | CheckersOnBar | NormalPlay | GameOver

  /** The string each game state carries in the source. */
  function GameStateName(g: GameState): (s: string)
    ensures |s| > 0
  {
    match g
    case BearingOff => "BEARING-OFF"
    case CheckersOnBar => "CHECKERS-ON-BAR"
    case NormalPlay => "NORMAL-PLAY"
    case GameOver => "GAME-OVER"
  }

  /** The four game-state strings are pairwise distinct. */
  lemma GameStateNamesDistinct(g: GameState, h: GameState)
    ensures GameStateName(g) == GameStateName(h) <==> g == h
  {
  }

  const NumPoints := 26
  const NumPlayablePoints := 24
  const BlackPiecesBarPointIndex := 24
  const WhitePiecesBarPointIndex := 25

  const InitNumCheckers := 15

  /** Is `i` one of the playable points 0..23? */
  predicate IsPlayable(i: int) {
    0 <= i < NumPlayablePoints
  }

  /** The bar slot where checkers of colour `c` wait after being hit.
      Black goes to 24; every other colour goes to 25. */
  function BarIndex(c: Color): (i: int)
    ensures i == BlackPiecesBarPointIndex || i == WhitePiecesBarPointIndex
    ensures i == BlackPiecesBarPointIndex <==> c == ColorBlack
    ensures !IsPlayable(i) && i < NumPoints
  {
    if c == ColorBlack then BlackPiecesBarPointIndex else WhitePiecesBarPointIndex
  }

  /** The slot layout: two bars after the playable points, distinct and
      outside the playable range. */
  lemma SlotLayout()
    ensures NumPoints == NumPlayablePoints + 2
    ensures BlackPiecesBarPointIndex != WhitePiecesBarPointIndex
    ensures !IsPlayable(BlackPiecesBarPointIndex) && !IsPlayable(WhitePiecesBarPointIndex)
    ensures BlackPiecesBarPointIndex < NumPoints && WhitePiecesBarPointIndex < NumPoints
    ensures InitNumCheckers == 15
  {
  }
}
