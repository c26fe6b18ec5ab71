/**
 * The 4x4 view of a state that both heuristics build: the grid of tiles read
 * through `getTile`, its row-major flattening, the number of empty cells and
 * the largest tile.
 */
module Board {
  import opened Game

  predicate IsGrid(b: seq<seq<nat>>) {
    |b| == 4 && |b[0]| == 4 && |b[1]| == 4 && |b[2]| == 4 && |b[3]| == 4
  }

  /** The rows of tiles, `getTile(r, c)` for every row `r` and column `c`. */
  function Grid<S>(g: Game<S>, s: S): (b: seq<seq<nat>>)
    ensures IsGrid(b)
  {
    [[g.getTile(s, 0, 0), g.getTile(s, 0, 1), g.getTile(s, 0, 2), g.getTile(s, 0, 3)],
     [g.getTile(s, 1, 0), g.getTile(s, 1, 1), g.getTile(s, 1, 2), g.getTile(s, 1, 3)],
     [g.getTile(s, 2, 0), g.getTile(s, 2, 1), g.getTile(s, 2, 2), g.getTile(s, 2, 3)],
     [g.getTile(s, 3, 0), g.getTile(s, 3, 1), g.getTile(s, 3, 2), g.getTile(s, 3, 3)]]
  }

  /** Every entry of the grid is the tile at its row and column. */
  lemma GridAt<S>(g: Game<S>, s: S, r: nat, c: nat)
    requires r < 4 && c < 4
    ensures Grid(g, s)[r][c] == g.getTile(s, r, c)
  {
  }

  /** The tiles of the grid, row by row. */
  function Flatten(b: seq<seq<nat>>): seq<nat>
    requires IsGrid(b)
  {
    b[0] + b[1] + b[2] + b[3]
  }

  lemma FlattenAt(b: seq<seq<nat>>, r: nat, c: nat)
    requires IsGrid(b) && r < 4 && c < 4
    ensures |Flatten(b)| == 16
    ensures Flatten(b)[4 * r + c] == b[r][c]
  {
  }

  /** The number of zero entries, `tiles.count(0)`. */
  function CountZeros(t: seq<nat>): (n: nat)
    ensures n <= |t|
  {
    if t == [] then 0 else (if t[0] == 0 then 1 else 0) + CountZeros(t[1..])
  }

  /** No zero is counted exactly when there is none, all are exactly when all are zero. */
  lemma {:induction false} CountZerosSpec(t: seq<nat>)
    ensures CountZeros(t) == 0 <==> forall i :: 0 <= i < |t| ==> t[i] != 0
    ensures CountZeros(t) == |t| <==> forall i :: 0 <= i < |t| ==> t[i] == 0
  {
    if t != [] {
      CountZerosSpec(t[1..]);
      assert forall i :: 1 <= i < |t| ==> t[i] == t[1..][i - 1];
    }
  }

  /** `max(tiles)` */
  function MaxTile(t: seq<nat>): nat
    requires |t| > 0
  {
    if |t| == 1 then t[0]
    else
      var rest := MaxTile(t[1..]);
      if t[0] >= rest then t[0] else rest
  }

  /** The maximum is at least every tile and is one of them. */
  lemma {:induction false} MaxTileSpec(t: seq<nat>)
    requires |t| > 0
    ensures forall i :: 0 <= i < |t| ==> t[i] <= MaxTile(t)
    ensures exists i :: 0 <= i < |t| && t[i] == MaxTile(t)
  {
    if |t| > 1 {
      MaxTileSpec(t[1..]);
      assert forall i :: 1 <= i < |t| ==> t[i] == t[1..][i - 1];
      var k :| 0 <= k < |t| - 1 && t[1..][k] == MaxTile(t[1..]);
      if t[0] < MaxTile(t[1..]) {
        assert t[k + 1] == MaxTile(t);
      } else {
        assert t[0] == MaxTile(t);
      }
    } else {
      assert t[0] == MaxTile(t);
    }
  }

  /** The tile at row `r`, column `c` is at least every tile of the grid. */
  predicate Dominates(b: seq<seq<nat>>, r: nat, c: nat)
    requires IsGrid(b) && r < 4 && c < 4
  {
    forall r', c' :: 0 <= r' < 4 && 0 <= c' < 4 ==> b[r'][c'] <= b[r][c]
  }

  /** A cell holds the maximum tile exactly when it dominates the grid. */
  lemma IsMaxTile(b: seq<seq<nat>>, r: nat, c: nat)
    requires IsGrid(b) && r < 4 && c < 4
    ensures b[r][c] == MaxTile(Flatten(b)) <==> Dominates(b, r, c)
  {
    var t := Flatten(b);
    FlattenAt(b, r, c);
    MaxTileSpec(t);
    forall r', c' | 0 <= r' < 4 && 0 <= c' < 4 ensures b[r'][c'] == t[4 * r' + c'] {
      FlattenAt(b, r', c');
    }
    if Dominates(b, r, c) {
      var i :| 0 <= i < 16 && t[i] == MaxTile(t);
      assert i == 4 * (i / 4) + i % 4;
      assert t[i] == b[i / 4][i % 4];
    }
  }
}
