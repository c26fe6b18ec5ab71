/**
 * The minimax agent of myagent.py: an iterative-deepening search that
 * alternates a max layer over the legal moves, in the order the state lists
 * them, with a min layer that assumes the worst tile placement, cut off by a
 * static heuristic that rewards score, empty cells and a maximum tile in a
 * corner.
 *
 * The layers are those of the expectimax agent: the heuristic as pure
 * functions; `MaxValue`/`MinValue`, the values of a search with unlimited
 * time, next to the `...Run`/`...Loop` functions that follow the source's
 * steps with the clock and the counters; and the class `Player`, whose
 * methods are proved to produce exactly what the run functions say.
 *
 * This agent commits `None` as a decision when no move scores above the
 * initial best of -10000, so one decision here is an `Option<Move>`.
 */
module MinimaxAgent {
  import opened Game
  import opened Board
  import opened Clock
  import opened Extrema
  import opened SearchState

  /* ----------------------------------------------------------------------
   * Move ordering and heuristic
   * ---------------------------------------------------------------------- */

  /** `moveOrder`: the legal moves, in the order the state lists them. */
  function MoveOrder<S>(g: Game<S>, s: S): seq<Move> {
    g.actions(s)
  }

  /** The tiles in the four corners. */
  function Corners(b: seq<seq<nat>>): seq<nat>
    requires IsGrid(b)
  {
    [b[0][0], b[0][3], b[3][0], b[3][3]]
  }

  /** Some corner holds a tile that no tile of the grid exceeds. */
  predicate CornerDominates(b: seq<seq<nat>>)
    requires IsGrid(b)
  {
    Dominates(b, 0, 0) || Dominates(b, 0, 3) || Dominates(b, 3, 0) || Dominates(b, 3, 3)
  }

  /** `heuristic` on the score and the grid of a state. */
  function HeuristicGrid(score: nat, b: seq<seq<nat>>): int
    requires IsGrid(b)
  {
    var t := Flatten(b);
    var empty := CountZeros(t);
    var maximumTile := MaxTile(t);
    var withEmpty := score + empty * 5000;
    if maximumTile in Corners(b) then withEmpty + 100000 else withEmpty
  }

  function Heuristic<S>(g: Game<S>, s: S): int {
    HeuristicGrid(g.getScore(s), Grid(g, s))
  }

  /**
   * The heuristic is the score, plus 5000 per empty cell, plus 100000
   * exactly when a corner tile is at least every tile; it therefore lies
   * between the score and the score plus 180000.
   */
  lemma HeuristicSpec(score: nat, b: seq<seq<nat>>)
    requires IsGrid(b)
    ensures HeuristicGrid(score, b)
         == score + 5000 * CountZeros(Flatten(b)) + (if CornerDominates(b) then 100000 else 0)
    ensures score <= HeuristicGrid(score, b) <= score + 180000
  {
    IsMaxTile(b, 0, 0);
    IsMaxTile(b, 0, 3);
    IsMaxTile(b, 3, 0);
    IsMaxTile(b, 3, 3);
    assert |Flatten(b)| == 16;
  }

  /* ----------------------------------------------------------------------
   * The values of a search with unlimited time
   * ---------------------------------------------------------------------- */

  /**
   * The value `maxPlayer` computes when never cut off: the score of a
   * finished game, the heuristic at depth 0, and otherwise the largest of
   * -10000 and the min values of the successors.
   */
  function MaxValue<S>(g: Game<S>, h: S -> int, s: S, depth: nat): real
    decreases depth, 0
  {
    if g.gameOver(s) then g.getScore(s) as real
    else if depth == 0 then h(s) as real
    else MaxWith(-10000.0, ReplyValues(g, h, s, MoveOrder(g, s), depth - 1))
  }

  /** The min values, to depth `d`, of the successors of `s` under `ms`. */
  function ReplyValues<S>(g: Game<S>, h: S -> int, s: S, ms: seq<Move>, d: nat): (vs: seq<real>)
    ensures |vs| == |ms|
    decreases d, 1
  {
    seq(|ms|, i requires 0 <= i < |ms| => MinValue(g, h, g.move(s, ms[i]), d))
  }

  /**
   * The value `minPlayer` computes when never cut off: the score of a
   * finished game, the heuristic at depth 0, and otherwise the smallest of
   * 1000000 and the max values of the placements.
   */
  function MinValue<S>(g: Game<S>, h: S -> int, s: S, depth: nat): real
    decreases depth, 0
  {
    if g.gameOver(s) then g.getScore(s) as real
    else if depth == 0 then h(s) as real
    else MinWith(1000000.0, SpawnValues(g, h, s, g.possibleTiles(s), depth - 1))
  }

  /** The max values, to depth `d`, of `s` after each placement of `ps`. */
  function SpawnValues<S>(g: Game<S>, h: S -> int, s: S, ps: seq<Placement>, d: nat): (vs: seq<real>)
    ensures |vs| == |ps|
    decreases d, 1
  {
    seq(|ps|, i requires 0 <= i < |ps| => MaxValue(g, h, g.addTile(s, ps[i].position, ps[i].value), d))
  }

  /**
   * At an expanded max node the value is at least -10000 and the min value of
   * every legal move, and is -10000 or the min value of one of them.
   */
  lemma MaxValueSpec<S>(g: Game<S>, h: S -> int, s: S, d: nat)
    requires !g.gameOver(s)
    ensures var vs := ReplyValues(g, h, s, MoveOrder(g, s), d); var v := MaxValue(g, h, s, d + 1);
      && -10000.0 <= v
      && (forall i :: 0 <= i < |vs| ==> vs[i] <= v)
      && (v == -10000.0 || Attains(vs, v))
  {
    var vs := ReplyValues(g, h, s, MoveOrder(g, s), d);
    assert MaxValue(g, h, s, d + 1) == MaxWith(-10000.0, vs);
    MaxWithSpec(-10000.0, vs);
    assert MaxWith(-10000.0, vs) == -10000.0 || Attains(vs, MaxWith(-10000.0, vs));
  }

  /**
   * At an expanded min node the value is at most 1000000 and the max value of
   * every placement, and is 1000000 or the max value of one of them; with no
   * placement it is 1000000.
   */
  lemma MinValueSpec<S>(g: Game<S>, h: S -> int, s: S, d: nat)
    requires !g.gameOver(s)
    ensures var vs := SpawnValues(g, h, s, g.possibleTiles(s), d); var v := MinValue(g, h, s, d + 1);
      && v <= 1000000.0
      && (forall i :: 0 <= i < |vs| ==> v <= vs[i])
      && (v == 1000000.0 || Attains(vs, v))
      && (g.possibleTiles(s) == [] ==> v == 1000000.0)
  {
    var vs := SpawnValues(g, h, s, g.possibleTiles(s), d);
    assert MinValue(g, h, s, d + 1) == MinWith(1000000.0, vs);
    MinWithSpec(1000000.0, vs);
    assert MinWith(1000000.0, vs) == 1000000.0 || Attains(vs, MinWith(1000000.0, vs));
  }

  /**
   * The decision a scan of `ms` with values `vs` ends with when it starts
   * from -10000 and no move and replaces both only on a strictly greater
   * value: the first move of greatest value if that value is above -10000,
   * and none otherwise.
   */
  function Pick(ms: seq<Move>, vs: seq<real>): Option<Move>
    requires |ms| == |vs|
  {
    if vs == [] || Max(vs) <= -10000.0 then None else Some(ms[ArgMax(vs)])
  }

  /**
   * No move is picked exactly when no value is above -10000; a picked move
   * is the one at the first maximum, and that maximum is above -10000.
   */
  lemma PickSpec(ms: seq<Move>, vs: seq<real>)
    requires |ms| == |vs|
    ensures Pick(ms, vs).None? <==> forall i :: 0 <= i < |vs| ==> vs[i] <= -10000.0
    ensures Pick(ms, vs).Some? ==>
      exists k: nat :: IsFirstMax(vs, k) && -10000.0 < vs[k] && Pick(ms, vs).value == ms[k]
  {
    if vs != [] {
      MaxSpec(vs);
      ArgMaxSpec(vs);
    }
  }

  /**
   * One step of the scan: a value above the best so far becomes the new
   * best and picks its move; any other value leaves both as they are.
   */
  lemma ScanPick(ms: seq<Move>, vs: seq<real>, i: nat, best: real, choice: Option<Move>)
    requires |ms| == |vs| && i < |vs|
    requires best == MaxWith(-10000.0, vs[..i]) && choice == Pick(ms[..i], vs[..i])
    ensures vs[i] > best ==>
      MaxWith(-10000.0, vs[..i + 1]) == vs[i] && Pick(ms[..i + 1], vs[..i + 1]) == Some(ms[i])
    ensures vs[i] <= best ==>
      MaxWith(-10000.0, vs[..i + 1]) == best && Pick(ms[..i + 1], vs[..i + 1]) == choice
  {
    var p := vs[..i];
    var x := vs[i];
    assert vs[..i + 1] == p + [x];
    MaxWithSnoc(-10000.0, p, x);
    if i == 0 {
      assert Max([x]) == x && ArgMax([x]) == 0;
    } else {
      MaxWithMax(-10000.0, p);
      MaxSnoc(p, x);
      ArgMaxSnoc(p, x);
      ArgMaxSpec(p);
      assert ms[..i + 1][ArgMax(p)] == ms[..i][ArgMax(p)];
    }
  }

  /* ----------------------------------------------------------------------
   * The search as the source runs it
   * ---------------------------------------------------------------------- */

  /** `maxPlayer(s, depth)` run from agent state `a`. */
  function MaxPlayerRun<S>(g: Game<S>, h: S -> int, s: S, depth: nat, a: Agent<Option<Move>>): (o: Outcome<Option<Move>>)
    decreases depth, 0, 0
    ensures o.after.clock <= a.clock
  {
    var a1 := Visit(a);
    if g.gameOver(s) then Outcome(Some(g.getScore(s) as real), a1)
    else if depth == 0 then Outcome(Some(h(s) as real), a1)
    else MaxPlayerLoop(g, h, s, MoveOrder(g, s), 0, depth - 1, -10000.0, Expand(a1))
  }

  /** The loop of `maxPlayer` from the move at index `i` on, with `best` so far. */
  function MaxPlayerLoop<S>(g: Game<S>, h: S -> int, s: S, ms: seq<Move>, i: nat, d: nat, best: real, a: Agent<Option<Move>>): (o: Outcome<Option<Move>>)
    requires i <= |ms|
    decreases d, 1, |ms| - i
    ensures o.after.clock <= a.clock
  {
    if i == |ms| then Outcome(Some(best), a)
    else if !Answer(a.clock) then Outcome(None, Polled(a))
    else
      var c := MinPlayerRun(g, h, g.move(s, ms[i]), d, Polled(a));
      if c.value.None? then c
      else MaxPlayerLoop(g, h, s, ms, i + 1, d, if c.value.value > best then c.value.value else best, c.after)
  }

  /** `minPlayer(s, depth)` run from agent state `a`. */
  function MinPlayerRun<S>(g: Game<S>, h: S -> int, s: S, depth: nat, a: Agent<Option<Move>>): (o: Outcome<Option<Move>>)
    decreases depth, 0, 0
    ensures o.after.clock <= a.clock
  {
    var a1 := Visit(a);
    if g.gameOver(s) then Outcome(Some(g.getScore(s) as real), a1)
    else if depth == 0 then Outcome(Some(h(s) as real), a1)
    else MinPlayerLoop(g, h, s, g.possibleTiles(s), 0, depth - 1, 1000000.0, Expand(a1))
  }

  /** The loop of `minPlayer` from the placement at index `i` on, with `best` so far. */
  function MinPlayerLoop<S>(g: Game<S>, h: S -> int, s: S, ps: seq<Placement>, i: nat, d: nat, best: real, a: Agent<Option<Move>>): (o: Outcome<Option<Move>>)
    requires i <= |ps|
    decreases d, 1, |ps| - i
    ensures o.after.clock <= a.clock
  {
    if i == |ps| then Outcome(Some(best), a)
    else if !Answer(a.clock) then Outcome(None, Polled(a))
    else
      var c := MaxPlayerRun(g, h, g.addTile(s, ps[i].position, ps[i].value), d, Polled(a));
      if c.value.None? then c
      else MinPlayerLoop(g, h, s, ps, i + 1, d, if c.value.value < best then c.value.value else best, c.after)
  }

  /**
   * How one depth iteration of `findMove` ends. This mirrors the expectimax
   * agent's `Round`, as the source files duplicate the search, except that
   * the choice is optional.
   */
  datatype Round = Completed(choice: Option<Move>, after: Agent<Option<Move>>) | Aborted(after: Agent<Option<Move>>)

  /** The move loop of one depth iteration of `findMove`, from index `i` on. */
  function DepthLoop<S>(g: Game<S>, h: S -> int, s: S, ms: seq<Move>, i: nat, depth: nat, best: real, bestMove: Option<Move>, a: Agent<Option<Move>>): (r: Round)
    requires 0 < depth && i <= |ms|
    decreases |ms| - i
    ensures r.after.clock <= a.clock
  {
    if i == |ms| then Completed(bestMove, a)
    else if !Answer(a.clock) then Aborted(Polled(a))
    else
      var c := MinPlayerRun(g, h, g.move(s, ms[i]), depth - 1, Polled(a));
      if c.value.None? then Aborted(c.after)
      else if c.value.value > best then
        DepthLoop(g, h, s, ms, i + 1, depth, c.value.value, Some(ms[i]), c.after)
      else DepthLoop(g, h, s, ms, i + 1, depth, best, bestMove, c.after)
  }

  /** The counter updates at the start of every depth iteration of `findMove`. */
  function StartDepth(a: Agent<Option<Move>>): Agent<Option<Move>> {
    a.(depthCount := a.depthCount + 1, parentCount := a.parentCount + 1, nodeCount := a.nodeCount + 1)
  }

  /** The deepening loop of `findMove`, about to poll before depth `depth`. */
  function DeepeningLoop<S>(g: Game<S>, h: S -> int, s: S, ms: seq<Move>, depth: nat, a: Agent<Option<Move>>): Agent<Option<Move>>
    requires 0 < depth
    decreases a.clock
  {
    if !Answer(a.clock) then Polled(a)
    else
      var r := DepthLoop(g, h, s, ms, 0, depth, -10000.0, None, StartDepth(Polled(a)));
      if r.Aborted? then r.after
      else DeepeningLoop(g, h, s, ms, depth + 1, r.after.(committed := r.after.committed + [r.choice]))
  }

  /** `findMove(s)` run from agent state `a`. */
  function FindMoveRun<S>(g: Game<S>, h: S -> int, s: S, a: Agent<Option<Move>>): Agent<Option<Move>> {
    DeepeningLoop(g, h, s, MoveOrder(g, s), 1, a.(count := a.count + 1))
  }

  /* ----------------------------------------------------------------------
   * What a search changes, and when it is cut off
   * ---------------------------------------------------------------------- */

  lemma {:induction false} MaxPlayerRunSettles<S>(g: Game<S>, h: S -> int, s: S, depth: nat, a: Agent<Option<Move>>)
    ensures Settles(a, MaxPlayerRun(g, h, s, depth, a))
    decreases depth, 0, 0
  {
    if !g.gameOver(s) && depth != 0 {
      MaxPlayerLoopSettles(g, h, s, MoveOrder(g, s), 0, depth - 1, -10000.0, Expand(Visit(a)));
    }
  }

  lemma {:induction false} MaxPlayerLoopSettles<S>(g: Game<S>, h: S -> int, s: S, ms: seq<Move>, i: nat, d: nat, best: real, a: Agent<Option<Move>>)
    requires i <= |ms|
    ensures Settles(a, MaxPlayerLoop(g, h, s, ms, i, d, best, a))
    decreases d, 1, |ms| - i
  {
    if i < |ms| && Answer(a.clock) {
      var c := MinPlayerRun(g, h, g.move(s, ms[i]), d, Polled(a));
      MinPlayerRunSettles(g, h, g.move(s, ms[i]), d, Polled(a));
      if c.value.Some? {
        MaxPlayerLoopSettles(g, h, s, ms, i + 1, d, if c.value.value > best then c.value.value else best, c.after);
      }
    }
  }

  lemma {:induction false} MinPlayerRunSettles<S>(g: Game<S>, h: S -> int, s: S, depth: nat, a: Agent<Option<Move>>)
    ensures Settles(a, MinPlayerRun(g, h, s, depth, a))
    decreases depth, 0, 0
  {
    if !g.gameOver(s) && depth != 0 {
      MinPlayerLoopSettles(g, h, s, g.possibleTiles(s), 0, depth - 1, 1000000.0, Expand(Visit(a)));
    }
  }

  lemma {:induction false} MinPlayerLoopSettles<S>(g: Game<S>, h: S -> int, s: S, ps: seq<Placement>, i: nat, d: nat, best: real, a: Agent<Option<Move>>)
    requires i <= |ps|
    ensures Settles(a, MinPlayerLoop(g, h, s, ps, i, d, best, a))
    decreases d, 1, |ps| - i
  {
    if i < |ps| && Answer(a.clock) {
      var c := MaxPlayerRun(g, h, g.addTile(s, ps[i].position, ps[i].value), d, Polled(a));
      MaxPlayerRunSettles(g, h, g.addTile(s, ps[i].position, ps[i].value), d, Polled(a));
      if c.value.Some? {
        MinPlayerLoopSettles(g, h, s, ps, i + 1, d, if c.value.value < best then c.value.value else best, c.after);
      }
    }
  }

  /** One depth iteration changes only the clock and the node counters, and is aborted only once time is up. */
  lemma {:induction false} DepthLoopSettles<S>(g: Game<S>, h: S -> int, s: S, ms: seq<Move>, i: nat, depth: nat, best: real, bestMove: Option<Move>, a: Agent<Option<Move>>)
    requires 0 < depth && i <= |ms|
    ensures var r := DepthLoop(g, h, s, ms, i, depth, best, bestMove, a);
      Keeps(a, r.after) && (r.Aborted? ==> r.after.clock == 0)
    decreases |ms| - i
  {
    if i < |ms| && Answer(a.clock) {
      var c := MinPlayerRun(g, h, g.move(s, ms[i]), depth - 1, Polled(a));
      MinPlayerRunSettles(g, h, g.move(s, ms[i]), depth - 1, Polled(a));
      if c.value.Some? {
        if c.value.value > best {
          DepthLoopSettles(g, h, s, ms, i + 1, depth, c.value.value, Some(ms[i]), c.after);
        } else {
          DepthLoopSettles(g, h, s, ms, i + 1, depth, best, bestMove, c.after);
        }
      }
    }
  }

  /**
   * The deepening loop stops only once time is up; it keeps the decision
   * counter and the decisions committed before; every depth iteration it
   * starts counts one node and one parent besides those of its searches;
   * and it starts at most one depth iteration more than it completes.
   */
  lemma {:induction false} DeepeningLoopSettles<S>(g: Game<S>, h: S -> int, s: S, ms: seq<Move>, depth: nat, a: Agent<Option<Move>>)
    requires 0 < depth
    ensures var b := DeepeningLoop(g, h, s, ms, depth, a);
      && b.clock == 0
      && b.count == a.count
      && a.depthCount <= b.depthCount
      && b.nodeCount - b.childCount - b.depthCount == a.nodeCount - a.childCount - a.depthCount
      && a.parentCount + (b.depthCount - a.depthCount) <= b.parentCount
      && |a.committed| <= |b.committed| && b.committed[..|a.committed|] == a.committed
      && var k := |b.committed| - |a.committed|;
         (b.depthCount == a.depthCount + k || b.depthCount == a.depthCount + k + 1)
    decreases a.clock
  {
    if Answer(a.clock) {
      var a1 := StartDepth(Polled(a));
      var r := DepthLoop(g, h, s, ms, 0, depth, -10000.0, None, a1);
      assert Keeps(a1, r.after) && (r.Aborted? ==> r.after.clock == 0) by {
        DepthLoopSettles(g, h, s, ms, 0, depth, -10000.0, None, a1);
      }
      if r.Aborted? {
        assert DeepeningLoop(g, h, s, ms, depth, a) == r.after;
      } else {
        var a3 := r.after.(committed := r.after.committed + [r.choice]);
        var b := DeepeningLoop(g, h, s, ms, depth + 1, a3);
        assert DeepeningLoop(g, h, s, ms, depth, a) == b;
        DeepeningLoopSettles(g, h, s, ms, depth + 1, a3);
        assert b.committed[..|a.committed|] == b.committed[..|a3.committed|][..|a.committed|];
      }
    }
  }

  /**
   * `findMove` counts the decision and returns only once time is up, also
   * when there is no legal move; it keeps the decisions committed before.
   */
  lemma FindMoveSettles<S>(g: Game<S>, h: S -> int, s: S, a: Agent<Option<Move>>)
    ensures var b := FindMoveRun(g, h, s, a);
      && b.count == a.count + 1
      && b.clock == 0
      && |a.committed| <= |b.committed| && b.committed[..|a.committed|] == a.committed
  {
    DeepeningLoopSettles(g, h, s, MoveOrder(g, s), 1, a.(count := a.count + 1));
  }

  /* ----------------------------------------------------------------------
   * A search that is not cut off computes the values
   * ---------------------------------------------------------------------- */

  lemma {:induction false} MaxPlayerRunSound<S>(g: Game<S>, h: S -> int, s: S, depth: nat, a: Agent<Option<Move>>)
    ensures var o := MaxPlayerRun(g, h, s, depth, a);
      o.value.Some? ==> o.value.value == MaxValue(g, h, s, depth)
    decreases depth, 0, 0
  {
    if !g.gameOver(s) && depth != 0 {
      var ms := MoveOrder(g, s);
      assert ReplyValues(g, h, s, ms, depth - 1)[..0] == [];
      MaxPlayerLoopSound(g, h, s, ms, 0, depth - 1, -10000.0, Expand(Visit(a)));
    }
  }

  lemma {:induction false} MaxPlayerLoopSound<S>(g: Game<S>, h: S -> int, s: S, ms: seq<Move>, i: nat, d: nat, best: real, a: Agent<Option<Move>>)
    requires i <= |ms|
    requires best == MaxWith(-10000.0, ReplyValues(g, h, s, ms, d)[..i])
    ensures var o := MaxPlayerLoop(g, h, s, ms, i, d, best, a);
      o.value.Some? ==> o.value.value == MaxWith(-10000.0, ReplyValues(g, h, s, ms, d))
    decreases d, 1, |ms| - i
  {
    var vs := ReplyValues(g, h, s, ms, d);
    if i == |ms| {
      assert vs[..i] == vs;
    } else if Answer(a.clock) {
      var c := MinPlayerRun(g, h, g.move(s, ms[i]), d, Polled(a));
      if c.value.Some? {
        assert c.value.value == vs[i] by {
          MinPlayerRunSound(g, h, g.move(s, ms[i]), d, Polled(a));
        }
        assert vs[..i + 1] == vs[..i] + [vs[i]];
        MaxWithSnoc(-10000.0, vs[..i], vs[i]);
        MaxPlayerLoopSound(g, h, s, ms, i + 1, d, if vs[i] > best then vs[i] else best, c.after);
      }
    }
  }

  lemma {:induction false} MinPlayerRunSound<S>(g: Game<S>, h: S -> int, s: S, depth: nat, a: Agent<Option<Move>>)
    ensures var o := MinPlayerRun(g, h, s, depth, a);
      o.value.Some? ==> o.value.value == MinValue(g, h, s, depth)
    decreases depth, 0, 0
  {
    if !g.gameOver(s) && depth != 0 {
      var ps := g.possibleTiles(s);
      assert SpawnValues(g, h, s, ps, depth - 1)[..0] == [];
      MinPlayerLoopSound(g, h, s, ps, 0, depth - 1, 1000000.0, Expand(Visit(a)));
    }
  }

  lemma {:induction false} MinPlayerLoopSound<S>(g: Game<S>, h: S -> int, s: S, ps: seq<Placement>, i: nat, d: nat, best: real, a: Agent<Option<Move>>)
    requires i <= |ps|
    requires best == MinWith(1000000.0, SpawnValues(g, h, s, ps, d)[..i])
    ensures var o := MinPlayerLoop(g, h, s, ps, i, d, best, a);
      o.value.Some? ==> o.value.value == MinWith(1000000.0, SpawnValues(g, h, s, ps, d))
    decreases d, 1, |ps| - i
  {
    var vs := SpawnValues(g, h, s, ps, d);
    if i == |ps| {
      assert vs[..i] == vs;
    } else if Answer(a.clock) {
      var c := MaxPlayerRun(g, h, g.addTile(s, ps[i].position, ps[i].value), d, Polled(a));
      if c.value.Some? {
        assert c.value.value == vs[i] by {
          MaxPlayerRunSound(g, h, g.addTile(s, ps[i].position, ps[i].value), d, Polled(a));
        }
        assert vs[..i + 1] == vs[..i] + [vs[i]];
        MinWithSnoc(1000000.0, vs[..i], vs[i]);
        MinPlayerLoopSound(g, h, s, ps, i + 1, d, if vs[i] < best then vs[i] else best, c.after);
      }
    }
  }

  /* ----------------------------------------------------------------------
   * What the deepening loop commits
   * ---------------------------------------------------------------------- */

  /**
   * A completed depth iteration picks the first move, in the order of `ms`,
   * whose min value reaches the maximum over all moves, provided that
   * maximum is above -10000, and no move otherwise.
   */
  lemma {:induction false} DepthLoopChoice<S>(g: Game<S>, h: S -> int, s: S, ms: seq<Move>, i: nat, depth: nat, best: real, bestMove: Option<Move>, a: Agent<Option<Move>>)
    requires 0 < depth && i <= |ms|
    requires var vs := ReplyValues(g, h, s, ms, depth - 1);
      best == MaxWith(-10000.0, vs[..i]) && bestMove == Pick(ms[..i], vs[..i])
    ensures var r := DepthLoop(g, h, s, ms, i, depth, best, bestMove, a);
      r.Completed? ==> r.choice == Pick(ms, ReplyValues(g, h, s, ms, depth - 1))
    decreases |ms| - i
  {
    var vs := ReplyValues(g, h, s, ms, depth - 1);
    if i == |ms| {
      assert vs[..i] == vs && ms[..i] == ms;
    } else if Answer(a.clock) {
      var c := MinPlayerRun(g, h, g.move(s, ms[i]), depth - 1, Polled(a));
      if c.value.Some? {
        assert c.value.value == vs[i] by {
          MinPlayerRunSound(g, h, g.move(s, ms[i]), depth - 1, Polled(a));
        }
        ScanPick(ms, vs, i, best, bestMove);
        if vs[i] > best {
          assert DepthLoop(g, h, s, ms, i, depth, best, bestMove, a)
              == DepthLoop(g, h, s, ms, i + 1, depth, vs[i], Some(ms[i]), c.after);
          DepthLoopChoice(g, h, s, ms, i + 1, depth, vs[i], Some(ms[i]), c.after);
        } else {
          assert DepthLoop(g, h, s, ms, i, depth, best, bestMove, a)
              == DepthLoop(g, h, s, ms, i + 1, depth, best, bestMove, c.after);
          DepthLoopChoice(g, h, s, ms, i + 1, depth, best, bestMove, c.after);
        }
      }
    }
  }

  /**
   * The decisions a deepening loop commits when `k` depth iterations
   * complete, starting at `depth`: for each depth, the pick among the min
   * values searched one level less deep.
   */
  function Choices<S>(g: Game<S>, h: S -> int, s: S, ms: seq<Move>, depth: nat, k: nat): (cs: seq<Option<Move>>)
    requires 0 < depth
    ensures |cs| == k
    decreases k
  {
    if k == 0 then []
    else [Decision(g, h, s, ms, depth - 1)] + Choices(g, h, s, ms, depth + 1, k - 1)
  }

  /** The pick among the min values of the moves `ms`, searched to depth `d`. */
  function Decision<S>(g: Game<S>, h: S -> int, s: S, ms: seq<Move>, d: nat): Option<Move> {
    Pick(ms, ReplyValues(g, h, s, ms, d))
  }

  /** Entry `i` of `Choices` is the decision of depth iteration `depth + i`. */
  lemma {:induction false} ChoicesAt<S>(g: Game<S>, h: S -> int, s: S, ms: seq<Move>, depth: nat, k: nat, i: nat)
    requires 0 < depth && i < k
    ensures Choices(g, h, s, ms, depth, k)[i] == Decision(g, h, s, ms, depth - 1 + i)
    decreases k
  {
    if 0 < i {
      ChoicesAt(g, h, s, ms, depth + 1, k - 1, i - 1);
    }
  }

  /**
   * The deepening loop appends to the decisions committed before exactly the
   * decisions of the depth iterations it completes, `depth`, `depth + 1`, ...
   */
  lemma {:induction false} DeepeningLoopCommits<S>(g: Game<S>, h: S -> int, s: S, ms: seq<Move>, depth: nat, a: Agent<Option<Move>>)
    requires 0 < depth
    ensures var b := DeepeningLoop(g, h, s, ms, depth, a);
      && |a.committed| <= |b.committed|
      && b.committed == a.committed + Choices(g, h, s, ms, depth, |b.committed| - |a.committed|)
    decreases a.clock
  {
    if Answer(a.clock) {
      var a1 := StartDepth(Polled(a));
      var r := DepthLoop(g, h, s, ms, 0, depth, -10000.0, None, a1);
      assert r.after.committed == a.committed by {
        DepthLoopSettles(g, h, s, ms, 0, depth, -10000.0, None, a1);
      }
      if r.Completed? {
        var a3 := r.after.(committed := r.after.committed + [r.choice]);
        var b := DeepeningLoop(g, h, s, ms, depth + 1, a3);
        assert DeepeningLoop(g, h, s, ms, depth, a) == b;
        assert r.choice == Decision(g, h, s, ms, depth - 1) by {
          var vs := ReplyValues(g, h, s, ms, depth - 1);
          assert vs[..0] == [] && ms[..0] == [];
          DepthLoopChoice(g, h, s, ms, 0, depth, -10000.0, None, a1);
        }
        DeepeningLoopCommits(g, h, s, ms, depth + 1, a3);
        var k := |b.committed| - |a3.committed|;
        var rest := Choices(g, h, s, ms, depth + 1, k);
        assert Choices(g, h, s, ms, depth, k + 1) == [r.choice] + rest;
        assert b.committed == a3.committed + rest;
        assert a3.committed == a.committed + [r.choice];
        assert (a.committed + [r.choice]) + rest == a.committed + ([r.choice] + rest);
      } else {
        assert DeepeningLoop(g, h, s, ms, depth, a) == r.after;
        assert Choices(g, h, s, ms, depth, 0) == [];
        assert a.committed + [] == a.committed;
      }
    } else {
      assert DeepeningLoop(g, h, s, ms, depth, a) == Polled(a);
      assert Choices(g, h, s, ms, depth, 0) == [];
      assert a.committed + [] == a.committed;
    }
  }

  /**
   * The decisions `findMove` commits are, in order, the picks of depth 1, 2,
   * ... among the legal moves; with no legal move every one of them is
   * `None`.
   */
  lemma FindMoveCommits<S>(g: Game<S>, h: S -> int, s: S, a: Agent<Option<Move>>)
    ensures var b := FindMoveRun(g, h, s, a); var ms := MoveOrder(g, s);
      && |a.committed| <= |b.committed|
      && (forall i :: 0 <= i < |b.committed| - |a.committed| ==>
            b.committed[|a.committed| + i] == Decision(g, h, s, ms, i))
      && (ms == [] ==> forall i :: 0 <= i < |b.committed| - |a.committed| ==> Decision(g, h, s, ms, i) == None)
  {
    var ms := MoveOrder(g, s);
    var a1 := a.(count := a.count + 1);
    var b := DeepeningLoop(g, h, s, ms, 1, a1);
    assert FindMoveRun(g, h, s, a) == b;
    DeepeningLoopCommits(g, h, s, ms, 1, a1);
    var k := |b.committed| - |a.committed|;
    forall i | 0 <= i < k
      ensures b.committed[|a.committed| + i] == Decision(g, h, s, ms, i)
      ensures ms == [] ==> Decision(g, h, s, ms, i) == None
    {
      ChoicesAt(g, h, s, ms, 1, k, i);
    }
  }

  /* ----------------------------------------------------------------------
   * The agent
   * ---------------------------------------------------------------------- */

  /**
   * The agent object. Its heuristic is fixed at construction to `Heuristic`;
   * the methods refer to it only through `heuristic`, so their contracts
   * hold for whichever evaluation the search is given.
   */
  class Player<S> {
    /** The queries the agent makes of game states. */
    const game: Game<S>
    /** The static evaluation at the leaves of the search. */
    const heuristic: S -> int
    /** How many more calls of `timeRemaining()` will answer yes. */
    var clock: nat
    var nodeCount: nat
    var parentCount: nat
    var childCount: nat
    var depthCount: nat
    var count: nat
    /** The decisions passed to `setMove`, oldest first. */
    var committed: seq<Option<Move>>

    function State(): Agent<Option<Move>>
      reads this
    {
      Agent(clock, nodeCount, parentCount, childCount, depthCount, count, committed)
    }

    /**
     * `__init__`: every counter starts at zero and nothing is committed;
     * `clock` is the time budget of the first decision only.
     */
    constructor (game: Game<S>, clock: nat)
      ensures this.game == game
      ensures forall s :: heuristic(s) == Heuristic(game, s)
      ensures State() == Agent(clock, 0, 0, 0, 0, 0, [])
    {
      this.game := game;
      heuristic := s => Heuristic(game, s);
      this.clock := clock;
      nodeCount, parentCount, childCount, depthCount, count := 0, 0, 0, 0, 0;
      committed := [];
    }

    method TimeRemaining() returns (more: bool)
      modifies this
      ensures more == Answer(old(clock))
      ensures State() == Polled(old(State()))
    {
      more := clock > 0;
      if more {
        clock := clock - 1;
      }
    }

    /** The three counter updates at the start of a depth iteration of `findMove`. */
    method CountDepth()
      modifies this
      ensures State() == StartDepth(old(State()))
    {
      depthCount := depthCount + 1;
      parentCount := parentCount + 1;
      nodeCount := nodeCount + 1;
    }

    method SetMove(m: Option<Move>)
      modifies this
      ensures State() == old(State()).(committed := old(committed) + [m])
    {
      committed := committed + [m];
    }

    /**
     * The deadline the turn loop sets before each decision: the next `polls`
     * calls of `timeRemaining()` answer yes. The counters and the committed
     * moves carry over from the decisions before.
     */
    method StartDecision(polls: nat)
      modifies this
      ensures State() == old(State()).(clock := polls)
    {
      clock := polls;
    }

    method FindMove(s: S)
      modifies this
      ensures State() == FindMoveRun(game, heuristic, s, old(State()))
    {
      count := count + 1;
      var actions := MoveOrder(game, s);
      var depth: nat := 1;
      while true
        invariant 0 < depth
        invariant FindMoveRun(game, heuristic, s, old(State()))
               == DeepeningLoop(game, heuristic, s, actions, depth, State())
        decreases clock
      {
        ghost var before := State();
        var more := TimeRemaining();
        if !more {
          return;
        }
        CountDepth();
        ghost var round := DepthLoop(game, heuristic, s, actions, 0, depth, -10000.0, None, StartDepth(Polled(before)));
        var completed, bestMove := SearchDepth(s, actions, depth);
        if !completed {
          assert DeepeningLoop(game, heuristic, s, actions, depth, before) == round.after;
          return;
        }
        SetMove(bestMove);
        assert State() == round.after.(committed := round.after.committed + [round.choice]);
        depth := depth + 1;
      }
    }

    /**
     * One depth iteration of `findMove`: the scan of `actions` that keeps the
     * first move with the highest min value above -10000. It reports whether
     * the scan completed, that is, was not cut off by the clock, and the
     * decision it kept.
     */
    method SearchDepth(s: S, actions: seq<Move>, depth: nat) returns (completed: bool, bestMove: Option<Move>)
      requires 0 < depth
      modifies this
      ensures var r := DepthLoop(game, heuristic, s, actions, 0, depth, -10000.0, None, old(State()));
        completed == r.Completed? && (completed ==> bestMove == r.choice) && State() == r.after
    {
      ghost var round := DepthLoop(game, heuristic, s, actions, 0, depth, -10000.0, None, State());
      var best := -10000.0;
      bestMove := None;
      for i := 0 to |actions|
        invariant DepthLoop(game, heuristic, s, actions, i, depth, best, bestMove, State()) == round
      {
        var result := game.move(s, actions[i]);
        var onTime := TimeRemaining();
        if !onTime {
          return false, bestMove;
        }
        var v := MinPlayer(result, depth - 1);
        if v.None? {
          return false, bestMove;
        }
        if v.value > best {
          best := v.value;
          bestMove := Some(actions[i]);
        }
      }
      return true, bestMove;
    }

    method MaxPlayer(s: S, depth: nat) returns (r: Option<real>)
      modifies this
      decreases depth, 0
      ensures Outcome(r, State()) == MaxPlayerRun(game, heuristic, s, depth, old(State()))
    {
      nodeCount := nodeCount + 1;
      childCount := childCount + 1;
      if game.gameOver(s) {
        return Some(game.getScore(s) as real);
      }
      if depth == 0 {
        return Some(heuristic(s) as real);
      }
      var actions := MoveOrder(game, s);
      parentCount := parentCount + 1;
      r := ScanMoves(s, actions, depth - 1);
    }

    /**
     * The loop of `maxPlayer` over `actions`: the largest of -10000 and the
     * min values of the successors, each searched to depth `d`, or `None`
     * once the clock cuts the scan off.
     */
    method ScanMoves(s: S, actions: seq<Move>, d: nat) returns (r: Option<real>)
      modifies this
      decreases d, 1
      ensures Outcome(r, State()) == MaxPlayerLoop(game, heuristic, s, actions, 0, d, -10000.0, old(State()))
    {
      ghost var goal := MaxPlayerLoop(game, heuristic, s, actions, 0, d, -10000.0, State());
      var best := -10000.0;
      for i := 0 to |actions|
        invariant MaxPlayerLoop(game, heuristic, s, actions, i, d, best, State()) == goal
      {
        ghost var before := State();
        var onTime := TimeRemaining();
        if !onTime {
          return None;
        }
        var result := game.move(s, actions[i]);
        var v := MinPlayer(result, d);
        assert Outcome(v, State()) == MinPlayerRun(game, heuristic, result, d, Polled(before));
        if v.None? {
          return None;
        }
        if v.value > best {
          best := v.value;
        }
      }
      return Some(best);
    }

    method MinPlayer(s: S, depth: nat) returns (r: Option<real>)
      modifies this
      decreases depth, 0
      ensures Outcome(r, State()) == MinPlayerRun(game, heuristic, s, depth, old(State()))
    {
      nodeCount := nodeCount + 1;
      childCount := childCount + 1;
      if game.gameOver(s) {
        return Some(game.getScore(s) as real);
      }
      if depth == 0 {
        return Some(heuristic(s) as real);
      }
      parentCount := parentCount + 1;
      r := ScanSpawns(s, game.possibleTiles(s), depth - 1);
    }

    /**
     * The loop of `minPlayer` over `possibilities`: the smallest of 1000000
     * and the max values of the placements, each searched to depth `d`, or
     * `None` once the clock cuts the scan off.
     */
    method ScanSpawns(s: S, possibilities: seq<Placement>, d: nat) returns (r: Option<real>)
      modifies this
      decreases d, 1
      ensures Outcome(r, State()) == MinPlayerLoop(game, heuristic, s, possibilities, 0, d, 1000000.0, old(State()))
    {
      ghost var goal := MinPlayerLoop(game, heuristic, s, possibilities, 0, d, 1000000.0, State());
      var best := 1000000.0;
      for i := 0 to |possibilities|
        invariant MinPlayerLoop(game, heuristic, s, possibilities, i, d, best, State()) == goal
      {
        ghost var before := State();
        var onTime := TimeRemaining();
        if !onTime {
          return None;
        }
        var p := possibilities[i];
        var result := game.addTile(s, p.position, p.value);
        var val := MaxPlayer(result, d);
        assert Outcome(val, State()) == MaxPlayerRun(game, heuristic, result, d, Polled(before));
        if val.None? {
          return None;
        }
        if val.value < best {
          best := val.value;
        }
      }
      return Some(best);
    }
  }
}
