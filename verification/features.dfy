/**
 `StateMatExtractor`: the width x height x 6 indicator tensor built from a game
 state.  Entries are booleans; the source stores them as 1.0 and 0.0 in a float
 array.
 */
module Features {
  import opened Game

  const PacmanPlane: nat := 0
  const GhostPlane: nat := 1
  const WallPlane: nat := 2
  const FoodPlane: nat := 3
  const CapsulePlane: nat := 4
  const ScaredGhostPlane: nat := 5
  /** `num_feature_dims` */
  const NumPlanes: nat := 6

  /** The plane a ghost is drawn in: scared ghosts under 5, the others under 1. */
  function PlaneOf(g: GhostState): nat
  {
    if g.scaredTimer > 0 then ScaredGhostPlane else GhostPlane
  }

  /** The cells marked in plane `k` by the ghosts of `gs`, in order. */
  function GhostCells(gs: seq<GhostState>, k: nat): seq<Pos>
    decreases |gs|
  {
    if gs == [] then []
    else
      var g := gs[|gs| - 1];
      GhostCells(gs[..|gs| - 1], k) + (if PlaneOf(g) == k then [g.pos] else [])
  }

  /** A cell is in a ghost plane exactly when some ghost of that kind stands on it. */
  lemma {:induction false} GhostCellsSpec(gs: seq<GhostState>, k: nat, p: Pos)
    ensures p in GhostCells(gs, k) <==> exists i :: 0 <= i < |gs| && gs[i].pos == p && PlaneOf(gs[i]) == k
    decreases |gs|
  {
    if gs != [] {
      var front := gs[..|gs| - 1];
      GhostCellsSpec(front, k, p);
      if p in GhostCells(gs, k) && p !in GhostCells(front, k) {
        assert gs[|gs| - 1].pos == p && PlaneOf(gs[|gs| - 1]) == k;
      }
      if exists i :: 0 <= i < |gs| && gs[i].pos == p && PlaneOf(gs[i]) == k {
        var i :| 0 <= i < |gs| && gs[i].pos == p && PlaneOf(gs[i]) == k;
        if i < |gs| - 1 {
          assert front[i] == gs[i];
        }
      }
    }
  }

  /** Ghosts mark nothing outside the two ghost planes. */
  lemma {:induction false} GhostCellsOnlyGhostPlanes(gs: seq<GhostState>, k: nat)
    requires k != GhostPlane && k != ScaredGhostPlane
    ensures GhostCells(gs, k) == []
    decreases |gs|
  {
    if gs != [] {
      GhostCellsOnlyGhostPlanes(gs[..|gs| - 1], k);
    }
  }

  /**
   The value the extractor gives entry `[x, y, k]`: the pacman cell in plane 0,
   ghost cells in plane 1 or 5, the wall and food grids in planes 2 and 3, the
   capsule cells in plane 4.
   */
  ghost predicate Feature(s: GameState, x: int, y: int, k: nat)
    requires WellFormed(s) && 0 <= x < s.width && 0 <= y < s.height
  {
    if k == PacmanPlane then s.pacman == Pos(x, y)
    else if k == GhostPlane || k == ScaredGhostPlane then Pos(x, y) in GhostCells(s.ghosts, k)
    else if k == WallPlane then s.walls[x][y]
    else if k == FoodPlane then s.food[x][y]
    else if k == CapsulePlane then Pos(x, y) in s.capsules
    else false
  }

  /** `m` has shape (width, height, 6) and holds the features of `s`. */
  ghost predicate IsFeatureTensor(m: array3<bool>, s: GameState)
    requires WellFormed(s)
    reads m
  {
    && m.Length0 == s.width && m.Length1 == s.height && m.Length2 == NumPlanes
    && forall x, y, k :: 0 <= x < s.width && 0 <= y < s.height && 0 <= k < NumPlanes ==>
         m[x, y, k] == Feature(s, x, y, k)
  }

  /**
   A cell set in both ghost planes holds two different ghosts, one scared and one
   not: no single ghost marks both planes.
   */
  lemma BothGhostPlanesNeedTwoGhosts(s: GameState, x: int, y: int)
    requires WellFormed(s) && 0 <= x < s.width && 0 <= y < s.height
    requires Feature(s, x, y, GhostPlane) && Feature(s, x, y, ScaredGhostPlane)
    ensures exists i, j :: 0 <= i < |s.ghosts| && 0 <= j < |s.ghosts| && i != j
              && s.ghosts[i].pos == Pos(x, y) && s.ghosts[i].scaredTimer <= 0
              && s.ghosts[j].pos == Pos(x, y) && s.ghosts[j].scaredTimer > 0
  {
    GhostCellsSpec(s.ghosts, GhostPlane, Pos(x, y));
    GhostCellsSpec(s.ghosts, ScaredGhostPlane, Pos(x, y));
    var i :| 0 <= i < |s.ghosts| && s.ghosts[i].pos == Pos(x, y) && PlaneOf(s.ghosts[i]) == GhostPlane;
    var j :| 0 <= j < |s.ghosts| && s.ghosts[j].pos == Pos(x, y) && PlaneOf(s.ghosts[j]) == ScaredGhostPlane;
  }

  /** Every ghost shows up at its own cell, in the plane its scared timer selects. */
  lemma GhostShown(s: GameState, i: int)
    requires WellFormed(s) && 0 <= i < |s.ghosts|
    ensures var g := s.ghosts[i];
            0 <= g.pos.x < s.width && 0 <= g.pos.y < s.height &&
            Feature(s, g.pos.x, g.pos.y, if g.scaredTimer > 0 then ScaredGhostPlane else GhostPlane)
  {
    GhostCellsSpec(s.ghosts, PlaneOf(s.ghosts[i]), s.ghosts[i].pos);
  }

  /** The ghost loop: each ghost sets its cell in the plane `PlaneOf` chooses. */
  method MarkGhosts(m: array3<bool>, gs: seq<GhostState>)
    requires m.Length2 == NumPlanes
    requires forall i :: 0 <= i < |gs| ==> InGrid(gs[i].pos, m.Length0, m.Length1)
    modifies m
    ensures forall x, y, k :: 0 <= x < m.Length0 && 0 <= y < m.Length1 && 0 <= k < NumPlanes ==>
              m[x, y, k] == (old(m[x, y, k]) || Pos(x, y) in GhostCells(gs, k))
  {
    var i := 0;
    while i < |gs|
      invariant 0 <= i <= |gs|
      invariant forall x, y, k :: 0 <= x < m.Length0 && 0 <= y < m.Length1 && 0 <= k < NumPlanes ==>
                  m[x, y, k] == (old(m[x, y, k]) || Pos(x, y) in GhostCells(gs[..i], k))
    {
      var g := gs[i];
      assert gs[..i + 1][..i] == gs[..i];
      if g.scaredTimer > 0 {
        m[g.pos.x, g.pos.y, ScaredGhostPlane] := true;
      } else {
        m[g.pos.x, g.pos.y, GhostPlane] := true;
      }
      i := i + 1;
    }
    assert gs[..|gs|] == gs;
  }

  /** `statemat[:, :, k] = grid`: plane `k` becomes the grid, the others are untouched. */
  method CopyPlane(m: array3<bool>, grid: seq<seq<bool>>, k: nat)
    requires k < m.Length2 && IsGrid(grid, m.Length0, m.Length1)
    modifies m
    ensures forall x, y, j :: 0 <= x < m.Length0 && 0 <= y < m.Length1 && 0 <= j < m.Length2 ==>
              m[x, y, j] == if j == k then grid[x][y] else old(m[x, y, j])
  {
    var x := 0;
    while x < m.Length0
      invariant 0 <= x <= m.Length0
      invariant forall x', y, j :: 0 <= x' < m.Length0 && 0 <= y < m.Length1 && 0 <= j < m.Length2 ==>
                  m[x', y, j] == if j == k && x' < x then grid[x'][y] else old(m[x', y, j])
    {
      var y := 0;
      while y < m.Length1
        invariant 0 <= y <= m.Length1
        invariant forall x', y', j :: 0 <= x' < m.Length0 && 0 <= y' < m.Length1 && 0 <= j < m.Length2 ==>
                    m[x', y', j] == if j == k && (x' < x || (x' == x && y' < y)) then grid[x'][y'] else old(m[x', y', j])
      {
        m[x, y, k] := grid[x][y];
        y := y + 1;
      }
      x := x + 1;
    }
  }

  /** The capsule loop: each capsule sets its cell in plane 4. */
  method MarkCapsules(m: array3<bool>, caps: seq<Pos>)
    requires m.Length2 == NumPlanes
    requires forall i :: 0 <= i < |caps| ==> InGrid(caps[i], m.Length0, m.Length1)
    modifies m
    ensures forall x, y, k :: 0 <= x < m.Length0 && 0 <= y < m.Length1 && 0 <= k < NumPlanes ==>
              m[x, y, k] == (old(m[x, y, k]) || (k == CapsulePlane && Pos(x, y) in caps))
  {
    var i := 0;
    while i < |caps|
      invariant 0 <= i <= |caps|
      invariant forall x, y, k :: 0 <= x < m.Length0 && 0 <= y < m.Length1 && 0 <= k < NumPlanes ==>
                  m[x, y, k] == (old(m[x, y, k]) || (k == CapsulePlane && Pos(x, y) in caps[..i]))
    {
      assert caps[..i + 1] == caps[..i] + [caps[i]];
      m[caps[i].x, caps[i].y, CapsulePlane] := true;
      i := i + 1;
    }
    assert caps[..|caps|] == caps;
  }

  /**
   `StateMatExtractor.__call__`: a fresh all-false tensor of the layout's shape,
   whatever the number of ghosts or capsules, holding exactly the features of `s`.
   */
  method Extract(s: GameState) returns (m: array3<bool>)
    requires WellFormed(s)
    ensures fresh(m) && IsFeatureTensor(m, s)
  {
    m := new bool[s.width, s.height, NumPlanes]((_, _, _) => false);
    m[s.pacman.x, s.pacman.y, PacmanPlane] := true;
    assert forall x, y, k :: 0 <= x < s.width && 0 <= y < s.height && 0 <= k < NumPlanes ==>
             m[x, y, k] == (k == PacmanPlane && s.pacman == Pos(x, y));
    MarkGhosts(m, s.ghosts);
    forall k | 0 <= k < NumPlanes && k != GhostPlane && k != ScaredGhostPlane
      ensures GhostCells(s.ghosts, k) == []
    {
      GhostCellsOnlyGhostPlanes(s.ghosts, k);
    }
    CopyPlane(m, s.walls, WallPlane);
    CopyPlane(m, s.food, FoodPlane);
    assert forall x, y, k :: 0 <= x < s.width && 0 <= y < s.height && 0 <= k < NumPlanes ==>
             m[x, y, k] == (Feature(s, x, y, k) && k != CapsulePlane);
    MarkCapsules(m, s.capsules);
  }
}
