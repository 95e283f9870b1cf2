/**
 The game state the rules engine hands to the environment.  The engine itself
 (scoring, legal moves, layout parsing) is not modelled: a state is the record of
 what the environment reads from it through the engine's accessors.
 */
module Game {

  /** A grid cell; positions are already truncated to integers. */
  datatype Pos = Pos(x: int, y: int)

  /** What the environment reads from one ghost: its position and its scared timer. */
  datatype GhostState = GhostState(pos: Pos, scaredTimer: int)

  /**
   A snapshot of the engine's state: `getScore()`, `isWin()`, the layout's size,
   `getPacmanPosition()`, `getGhostStates()`, the wall and food grids (indexed
   `[x][y]`, like the engine's `Grid.data`), `getCapsules()` and what the rules
   engine's `getLegalActions` returns for pacman in this state.
   */
  datatype GameState = GameState(
    score: int,
    isWin: bool,
    width: nat,
    height: nat,
    pacman: Pos,
    ghosts: seq<GhostState>,
    walls: seq<seq<bool>>,
    food: seq<seq<bool>>,
    capsules: seq<Pos>,
    legal: seq<string>)

  predicate InGrid(p: Pos, width: nat, height: nat)
  {
    0 <= p.x < width && 0 <= p.y < height
  }

  /** A grid with `width` columns of `height` cells each. */
  predicate IsGrid(g: seq<seq<bool>>, width: nat, height: nat)
  {
    |g| == width && forall x :: 0 <= x < width ==> |g[x]| == height
  }

  /**
   The consistency the engine guarantees of its states: every entity lies on the
   board and the wall and food grids have the layout's size.
   */
  predicate WellFormed(s: GameState)
  {
    && InGrid(s.pacman, s.width, s.height)
    && (forall i :: 0 <= i < |s.ghosts| ==> InGrid(s.ghosts[i].pos, s.width, s.height))
    && (forall i :: 0 <= i < |s.capsules| ==> InGrid(s.capsules[i], s.width, s.height))
    && IsGrid(s.walls, s.width, s.height)
    && IsGrid(s.food, s.width, s.height)
  }
}
