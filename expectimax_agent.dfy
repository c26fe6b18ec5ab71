/**
 * The expectimax agent of MyAgent.py: an iterative-deepening search that
 * alternates a max layer over the legal moves (in the fixed priority order
 * L, U, R, D) with a chance layer that averages over every possible tile
 * placement, cut off by a static board evaluation.
 *
 * Three layers:
 *   - the evaluation and the move ordering, as pure functions;
 *   - two specifications of the search: `MaxValue`/`ChanceValue`, the values
 *     a search with unlimited time computes, and the `...Run`/`...Loop`
 *     functions, which also thread the clock's answers and the agent's
 *     counters through the very steps the source takes;
 *   - the class `Player`, whose methods are the source's methods and are
 *     proved to produce exactly the outcome and new state of the run
 *     functions.
 * The lemmas connect the runs with the values: a search that is not cut off
 * returns the value, and a deepening loop commits, depth after depth, the
 * first move in priority order that reaches that depth's maximum.
 */
module ExpectimaxAgent {
  import opened Game
  import opened Board
  import opened Clock
  import opened Extrema
  import opened SearchState

  /* ----------------------------------------------------------------------
   * Move ordering
   * ---------------------------------------------------------------------- */

  const PreferredOrder: seq<Move> := [L, U, R, D]

  /** Position of a move in `PreferredOrder`. */
  function Rank(m: Move): nat {
    match m
    case L => 0
    case U => 1
    case R => 2
    case D => 3
  }

  lemma EveryMovePreferred(m: Move)
    ensures m in PreferredOrder
  {
    assert PreferredOrder[Rank(m)] == m;
  }

  predicate InPriorityOrder(ms: seq<Move>) {
    forall i, j :: 0 <= i < j < |ms| ==> Rank(ms[i]) < Rank(ms[j])
  }

  /** The moves of `order` that occur in `legal`, in the order of `order`. */
  function Keep(order: seq<Move>, legal: seq<Move>): seq<Move> {
    if order == [] then []
    else if order[0] in legal then [order[0]] + Keep(order[1..], legal)
    else Keep(order[1..], legal)
  }

  /** Filtering keeps exactly the moves of `order` that are legal. */
  lemma {:induction false} KeepMembers(order: seq<Move>, legal: seq<Move>)
    ensures forall m :: m in Keep(order, legal) <==> m in order && m in legal
  {
    if order != [] {
      KeepMembers(order[1..], legal);
      assert order == [order[0]] + order[1..];
    }
  }

  /** Filtering a sequence in priority order leaves it in priority order. */
  lemma {:induction false} KeepOrdered(order: seq<Move>, legal: seq<Move>)
    requires InPriorityOrder(order)
    ensures InPriorityOrder(Keep(order, legal))
  {
    if order != [] {
      var tail := order[1..];
      assert InPriorityOrder(tail) by {
        forall i, j | 0 <= i < j < |tail| ensures Rank(tail[i]) < Rank(tail[j]) {
          assert tail[i] == order[i + 1] && tail[j] == order[j + 1];
        }
      }
      KeepOrdered(tail, legal);
      var rest := Keep(tail, legal);
      if order[0] in legal {
        KeepMembers(tail, legal);
        var k := [order[0]] + rest;
        forall i, j | 0 <= i < j < |k| ensures Rank(k[i]) < Rank(k[j]) {
          assert k[j] == rest[j - 1];
          if i == 0 {
            assert rest[j - 1] in tail;
            var t :| 0 <= t < |tail| && tail[t] == rest[j - 1];
            assert tail[t] == order[t + 1];
          } else {
            assert k[i] == rest[i - 1];
          }
        }
      }
    }
  }

  /** `prioritizedMoves`: the legal moves in the order L, U, R, D. */
  function PrioritizedMoves<S>(g: Game<S>, s: S): seq<Move> {
    Keep(PreferredOrder, g.actions(s))
  }

  /**
   * The prioritized moves are exactly the legal moves, each once, in the
   * fixed priority order.
   */
  lemma PrioritizedMovesSpec<S>(g: Game<S>, s: S)
    ensures forall m :: m in PrioritizedMoves(g, s) <==> m in g.actions(s)
    ensures InPriorityOrder(PrioritizedMoves(g, s))
    ensures forall i, j :: 0 <= i < j < |PrioritizedMoves(g, s)| ==> PrioritizedMoves(g, s)[i] != PrioritizedMoves(g, s)[j]
  {
    forall m: Move ensures m in PreferredOrder {
      EveryMovePreferred(m);
    }
    KeepMembers(PreferredOrder, g.actions(s));
    KeepOrdered(PreferredOrder, g.actions(s));
  }

  /* ----------------------------------------------------------------------
   * Evaluation
   * ---------------------------------------------------------------------- */

  /** Positional weights, largest in the top-left corner, along a snake. */
  const Weights: seq<seq<nat>> := [
    [65536, 32768, 16384, 8192],
    [512, 1024, 2048, 4096],
    [256, 128, 64, 32],
    [1, 2, 4, 8]
  ]

  /** The weighted sum of the cells `k, k+1, ..., 15` in row-major order. */
  function WeightedFrom(b: seq<seq<nat>>, k: nat): nat
    requires IsGrid(b) && k <= 16
    decreases 16 - k
  {
    if k == 16 then 0 else b[k / 4][k % 4] * Weights[k / 4][k % 4] + WeightedFrom(b, k + 1)
  }

  /** `cornerScore`: the dot product of the grid with `Weights`. */
  function CornerScore(b: seq<seq<nat>>): nat
    requires IsGrid(b)
  {
    WeightedFrom(b, 0)
  }

  /** Column `c` of the grid, top to bottom. */
  function Column(b: seq<seq<nat>>, c: nat): seq<nat>
    requires IsGrid(b) && c < 4
  {
    [b[0][c], b[1][c], b[2][c], b[3][c]]
  }

  /** Every adjacent pair is in non-increasing order (`all(x >= y ...)`). */
  predicate NonIncreasing(line: seq<nat>) {
    forall i :: 0 <= i < |line| - 1 ==> line[i] >= line[i + 1]
  }

  /** Every adjacent pair is in non-decreasing order (`all(x <= y ...)`). */
  predicate NonDecreasing(line: seq<nat>) {
    forall i :: 0 <= i < |line| - 1 ==> line[i] <= line[i + 1]
  }

  /** `is_monotonic`, over the adjacent pairs of `zip(line, line[1:])`. */
  predicate IsMonotonic(line: seq<nat>) {
    NonIncreasing(line) || NonDecreasing(line)
  }

  /** Every element is at least every later one. */
  predicate SortedDown(line: seq<nat>) {
    forall i, j :: 0 <= i <= j < |line| ==> line[i] >= line[j]
  }

  /** Every element is at most every later one. */
  predicate SortedUp(line: seq<nat>) {
    forall i, j :: 0 <= i <= j < |line| ==> line[i] <= line[j]
  }

  /** Checking adjacent pairs decides sortedness of the whole line. */
  lemma {:induction false} NonIncreasingSorted(line: seq<nat>)
    ensures NonIncreasing(line) <==> SortedDown(line)
  {
    if |line| > 1 && NonIncreasing(line) {
      var tail := line[1..];
      assert NonIncreasing(tail) by {
        forall i | 0 <= i < |tail| - 1 ensures tail[i] >= tail[i + 1] {
          assert tail[i] == line[i + 1] && tail[i + 1] == line[i + 2];
        }
      }
      NonIncreasingSorted(tail);
      forall i, j | 0 <= i <= j < |line| ensures line[i] >= line[j] {
        if 0 < i {
          assert line[i] == tail[i - 1] && line[j] == tail[j - 1];
        } else if 0 < j {
          assert line[1] == tail[0] && line[j] == tail[j - 1];
        }
      }
    }
  }

  lemma {:induction false} NonDecreasingSorted(line: seq<nat>)
    ensures NonDecreasing(line) <==> SortedUp(line)
  {
    if |line| > 1 && NonDecreasing(line) {
      var tail := line[1..];
      assert NonDecreasing(tail) by {
        forall i | 0 <= i < |tail| - 1 ensures tail[i] <= tail[i + 1] {
          assert tail[i] == line[i + 1] && tail[i + 1] == line[i + 2];
        }
      }
      NonDecreasingSorted(tail);
      forall i, j | 0 <= i <= j < |line| ensures line[i] <= line[j] {
        if 0 < i {
          assert line[i] == tail[i - 1] && line[j] == tail[j - 1];
        } else if 0 < j {
          assert line[1] == tail[0] && line[j] == tail[j - 1];
        }
      }
    }
  }

  /** A line passes `is_monotonic` exactly when it is sorted one way or the other. */
  lemma MonotonicIsSorted(line: seq<nat>)
    ensures IsMonotonic(line) <==> Sorted(line)
  {
    NonIncreasingSorted(line);
    NonDecreasingSorted(line);
  }

  /** The number of `true` entries, Python's `sum` over booleans. */
  function CountTrue(bs: seq<bool>): (n: nat)
    ensures n <= |bs|
  {
    if bs == [] then 0 else (if bs[0] then 1 else 0) + CountTrue(bs[1..])
  }

  function RowsMonotonic(b: seq<seq<nat>>): seq<bool>
    requires IsGrid(b)
  {
    [IsMonotonic(b[0]), IsMonotonic(b[1]), IsMonotonic(b[2]), IsMonotonic(b[3])]
  }

  function ColumnsMonotonic(b: seq<seq<nat>>): seq<bool>
    requires IsGrid(b)
  {
    [IsMonotonic(Column(b, 0)), IsMonotonic(Column(b, 1)), IsMonotonic(Column(b, 2)), IsMonotonic(Column(b, 3))]
  }

  /** `monoCount`: how many of the four rows and four columns are monotonic. */
  function MonoCount(b: seq<seq<nat>>): (n: nat)
    requires IsGrid(b)
    ensures n <= 8
  {
    CountTrue(RowsMonotonic(b)) + CountTrue(ColumnsMonotonic(b))
  }

  /** Sorted one way or the other. */
  predicate Sorted(line: seq<nat>) {
    SortedDown(line) || SortedUp(line)
  }

  /** The lines `MonoCount` counts are exactly the sorted rows and columns. */
  lemma MonoCountSorted(b: seq<seq<nat>>)
    requires IsGrid(b)
    ensures MonoCount(b)
         == CountTrue([Sorted(b[0]), Sorted(b[1]), Sorted(b[2]), Sorted(b[3])])
          + CountTrue([Sorted(Column(b, 0)), Sorted(Column(b, 1)), Sorted(Column(b, 2)), Sorted(Column(b, 3))])
  {
    MonotonicIsSorted(b[0]);
    MonotonicIsSorted(b[1]);
    MonotonicIsSorted(b[2]);
    MonotonicIsSorted(b[3]);
    MonotonicIsSorted(Column(b, 0));
    MonotonicIsSorted(Column(b, 1));
    MonotonicIsSorted(Column(b, 2));
    MonotonicIsSorted(Column(b, 3));
  }

  /** `evaluate`, on the grid the state's tiles form. */
  function EvaluateGrid(b: seq<seq<nat>>): int
    requires IsGrid(b)
  {
    var tiles := Flatten(b);
    var emptyCount := CountZeros(tiles);
    var maxTile := MaxTile(tiles);
    var cornerScore := CornerScore(b);
    var emptyBonus := emptyCount * 5000;
    var monotonicityReward := MonoCount(b) * 20000;
    var cornerBonus := if b[0][0] == maxTile then 15000 else 0;
    cornerScore + emptyBonus + monotonicityReward + cornerBonus
  }

  function Evaluate<S>(g: Game<S>, s: S): int {
    EvaluateGrid(Grid(g, s))
  }

  /**
   * The evaluation is the weighted sum, 5000 per empty cell, 20000 per
   * monotonic line (at most eight of them) and 15000 exactly when the top-left
   * tile is at least every tile; it is never negative.
   */
  lemma EvaluateParts(b: seq<seq<nat>>)
    requires IsGrid(b)
    ensures EvaluateGrid(b)
         == CornerScore(b) + 5000 * CountZeros(Flatten(b)) + 20000 * MonoCount(b)
          + (if Dominates(b, 0, 0) then 15000 else 0)
    ensures 0 <= MonoCount(b) <= 8
    ensures EvaluateGrid(b) >= 0
  {
    IsMaxTile(b, 0, 0);
  }

  /* ----------------------------------------------------------------------
   * The values of an unlimited search
   * ---------------------------------------------------------------------- */

  /** The value of `maxPlayer(s, depth)` when no time check fails. */
  function MaxValue<S>(g: Game<S>, h: S -> int, s: S, depth: nat): real
    decreases depth, 0
  {
    if g.gameOver(s) || depth == 0 then h(s) as real
    else
      var ms := PrioritizedMoves(g, s);
      if ms == [] then h(s) as real
      else Max(MoveValues(g, h, s, ms, depth - 1))
  }

  /** The chance values of the successors of `s` under the moves `ms`. */
  function MoveValues<S>(g: Game<S>, h: S -> int, s: S, ms: seq<Move>, d: nat): (vs: seq<real>)
    decreases d, 1
    ensures |vs| == |ms|
  {
    seq(|ms|, i requires 0 <= i < |ms| => ChanceValue(g, h, g.move(s, ms[i]), d))
  }

  /** The value of `expectimax(s, depth)` when no time check fails. */
  function ChanceValue<S>(g: Game<S>, h: S -> int, s: S, depth: nat): real
    decreases depth, 0
  {
    if g.gameOver(s) || depth == 0 then h(s) as real
    else
      var ps := g.possibleTiles(s);
      if ps == [] then h(s) as real
      else Mean(SpawnValues(g, h, s, ps, depth - 1))
  }

  /** The max values of the successors of `s` under the placements `ps`. */
  function SpawnValues<S>(g: Game<S>, h: S -> int, s: S, ps: seq<Placement>, d: nat): (vs: seq<real>)
    decreases d, 1
    ensures |vs| == |ps|
  {
    seq(|ps|, i requires 0 <= i < |ps| => MaxValue(g, h, g.addTile(s, ps[i].position, ps[i].value), d))
  }

  /**
   * At an expanded max node the value is at least the chance value of every
   * legal move and is the chance value of one of them.
   */
  lemma MaxValueSpec<S>(g: Game<S>, h: S -> int, s: S, d: nat)
    requires !g.gameOver(s) && PrioritizedMoves(g, s) != []
    ensures var vs := MoveValues(g, h, s, PrioritizedMoves(g, s), d);
      && (forall i :: 0 <= i < |vs| ==> vs[i] <= MaxValue(g, h, s, d + 1))
      && Attains(vs, MaxValue(g, h, s, d + 1))
  {
    var vs := MoveValues(g, h, s, PrioritizedMoves(g, s), d);
    assert MaxValue(g, h, s, d + 1) == Max(vs);
    MaxSpec(vs);
    assert Attains(vs, Max(vs));
  }

  /**
   * At an expanded chance node the value, a mean, lies between any lower and
   * upper bound of the values of the placements.
   */
  lemma ChanceValueBetween<S>(g: Game<S>, h: S -> int, s: S, d: nat, lo: real, hi: real)
    requires !g.gameOver(s) && g.possibleTiles(s) != []
    requires forall i :: 0 <= i < |g.possibleTiles(s)| ==> lo <= SpawnValues(g, h, s, g.possibleTiles(s), d)[i] <= hi
    ensures lo <= ChanceValue(g, h, s, d + 1) <= hi
  {
    var vs := SpawnValues(g, h, s, g.possibleTiles(s), d);
    assert ChanceValue(g, h, s, d + 1) == Mean(vs);
    MeanBetween(vs, lo, hi);
  }

  /* ----------------------------------------------------------------------
   * The search step by step, with the clock and the counters
   * ---------------------------------------------------------------------- */

  /**
   * `-inf` or a number: the running best of a max layer. The minimax agent
   * starts its running bests from finite sentinels and has no such type.
   */
  datatype Bound = NegInf | Finite(r: real)

  /** `max(best, value)` */
  function Join(b: Bound, v: real): real {
    match b
    case NegInf => v
    case Finite(x) => if x >= v then x else v
  }

  /** `score > bestScore` */
  predicate Exceeds(v: real, b: Bound) {
    b.NegInf? || v > b.r
  }

  /** `maxPlayer(s, depth)` run from agent state `a`. */
  function MaxPlayerRun<S>(g: Game<S>, h: S -> int, s: S, depth: nat, a: Agent<Move>): (o: Outcome<Move>)
    decreases depth, 0, 0
    ensures o.after.clock <= a.clock
  {
    var a1 := Visit(a);
    if g.gameOver(s) || depth == 0 then Outcome(Some(h(s) as real), a1)
    else
      var ms := PrioritizedMoves(g, s);
      if ms == [] then Outcome(Some(h(s) as real), a1)
      else MaxPlayerLoop(g, h, s, ms, 0, depth - 1, NegInf, Expand(a1))
  }

  /** The loop of `maxPlayer` from the move at index `i` on, with `best` so far. */
  function MaxPlayerLoop<S>(g: Game<S>, h: S -> int, s: S, ms: seq<Move>, i: nat, d: nat, best: Bound, a: Agent<Move>): (o: Outcome<Move>)
    requires 0 < |ms| && i <= |ms|
    requires best.NegInf? <==> i == 0
    decreases d, 1, |ms| - i
    ensures o.after.clock <= a.clock
  {
    if i == |ms| then Outcome(Some(best.r), a)
    else if !Answer(a.clock) then Outcome(None, Polled(a))
    else
      var c := ExpectimaxRun(g, h, g.move(s, ms[i]), d, Polled(a));
      if c.value.None? then c
      else MaxPlayerLoop(g, h, s, ms, i + 1, d, Finite(Join(best, c.value.value)), c.after)
  }

  /** `expectimax(s, depth)` run from agent state `a`. */
  function ExpectimaxRun<S>(g: Game<S>, h: S -> int, s: S, depth: nat, a: Agent<Move>): (o: Outcome<Move>)
    decreases depth, 0, 0
    ensures o.after.clock <= a.clock
  {
    var a1 := Visit(a);
    if g.gameOver(s) || depth == 0 then Outcome(Some(h(s) as real), a1)
    else
      var a2 := Expand(a1);
      var ps := g.possibleTiles(s);
      if ps == [] then Outcome(Some(h(s) as real), a2)
      else ExpectimaxLoop(g, h, s, ps, 0, depth - 1, 0.0, a2)
  }

  /** The loop of `expectimax` from the placement at index `i` on, with `total` so far. */
  function ExpectimaxLoop<S>(g: Game<S>, h: S -> int, s: S, ps: seq<Placement>, i: nat, d: nat, total: real, a: Agent<Move>): (o: Outcome<Move>)
    requires 0 < |ps| && i <= |ps|
    decreases d, 1, |ps| - i
    ensures o.after.clock <= a.clock
  {
    if i == |ps| then Outcome(Some(total / (|ps| as real)), a)
    else if !Answer(a.clock) then Outcome(None, Polled(a))
    else
      var c := MaxPlayerRun(g, h, g.addTile(s, ps[i].position, ps[i].value), d, Polled(a));
      if c.value.None? then c
      else ExpectimaxLoop(g, h, s, ps, i + 1, d, total + c.value.value, c.after)
  }

  /**
   * How one depth iteration of `findMove` ends. The minimax agent declares
   * its own, since its source file duplicates this search; there the choice
   * may be `None`.
   */
  datatype Round = Completed(choice: Move, after: Agent<Move>) | Aborted(after: Agent<Move>)

  /** The move loop of one depth iteration of `findMove`, from index `i` on. */
  function DepthLoop<S>(g: Game<S>, h: S -> int, s: S, ms: seq<Move>, i: nat, depth: nat, bestScore: Bound, bestMove: Move, a: Agent<Move>): (r: Round)
    requires 0 < depth && i <= |ms|
    decreases |ms| - i
    ensures r.after.clock <= a.clock
  {
    if i == |ms| then Completed(bestMove, a)
    else if !Answer(a.clock) then Aborted(Polled(a))
    else
      var c := ExpectimaxRun(g, h, g.move(s, ms[i]), depth - 1, Polled(a));
      if c.value.None? then Aborted(c.after)
      else if Exceeds(c.value.value, bestScore) then
        DepthLoop(g, h, s, ms, i + 1, depth, Finite(c.value.value), ms[i], c.after)
      else DepthLoop(g, h, s, ms, i + 1, depth, bestScore, bestMove, c.after)
  }

  /** The deepening loop of `findMove`, about to poll before depth `depth`. */
  function DeepeningLoop<S>(g: Game<S>, h: S -> int, s: S, ms: seq<Move>, depth: nat, bestMove: Move, a: Agent<Move>): Agent<Move>
    requires 0 < depth
    decreases a.clock
  {
    if !Answer(a.clock) then Polled(a)
    else
      var r := DepthLoop(g, h, s, ms, 0, depth, NegInf, bestMove, Polled(a).(depthCount := a.depthCount + 1));
      if r.Aborted? then r.after
      else DeepeningLoop(g, h, s, ms, depth + 1, r.choice, r.after.(committed := r.after.committed + [r.choice]))
  }

  /** `findMove(s)` run from agent state `a`. */
  function FindMoveRun<S>(g: Game<S>, h: S -> int, s: S, a: Agent<Move>): Agent<Move> {
    var a1 := a.(count := a.count + 1);
    var ms := PrioritizedMoves(g, s);
    if ms == [] then a1 else DeepeningLoop(g, h, s, ms, 1, ms[0], a1)
  }

  /* ----------------------------------------------------------------------
   * What a search changes, and when it is cut off
   * ---------------------------------------------------------------------- */

  lemma {:induction false} MaxPlayerRunSettles<S>(g: Game<S>, h: S -> int, s: S, depth: nat, a: Agent<Move>)
    ensures Settles(a, MaxPlayerRun(g, h, s, depth, a))
    decreases depth, 0, 0
  {
    if !g.gameOver(s) && depth != 0 {
      var ms := PrioritizedMoves(g, s);
      if ms != [] {
        MaxPlayerLoopSettles(g, h, s, ms, 0, depth - 1, NegInf, Expand(Visit(a)));
      }
    }
  }

  lemma {:induction false} MaxPlayerLoopSettles<S>(g: Game<S>, h: S -> int, s: S, ms: seq<Move>, i: nat, d: nat, best: Bound, a: Agent<Move>)
    requires 0 < |ms| && i <= |ms|
    requires best.NegInf? <==> i == 0
    ensures Settles(a, MaxPlayerLoop(g, h, s, ms, i, d, best, a))
    decreases d, 1, |ms| - i
  {
    if i < |ms| && Answer(a.clock) {
      var c := ExpectimaxRun(g, h, g.move(s, ms[i]), d, Polled(a));
      ExpectimaxRunSettles(g, h, g.move(s, ms[i]), d, Polled(a));
      if c.value.Some? {
        MaxPlayerLoopSettles(g, h, s, ms, i + 1, d, Finite(Join(best, c.value.value)), c.after);
      }
    }
  }

  lemma {:induction false} ExpectimaxRunSettles<S>(g: Game<S>, h: S -> int, s: S, depth: nat, a: Agent<Move>)
    ensures Settles(a, ExpectimaxRun(g, h, s, depth, a))
    decreases depth, 0, 0
  {
    if !g.gameOver(s) && depth != 0 {
      var ps := g.possibleTiles(s);
      if ps != [] {
        ExpectimaxLoopSettles(g, h, s, ps, 0, depth - 1, 0.0, Expand(Visit(a)));
      }
    }
  }

  lemma {:induction false} ExpectimaxLoopSettles<S>(g: Game<S>, h: S -> int, s: S, ps: seq<Placement>, i: nat, d: nat, total: real, a: Agent<Move>)
    requires 0 < |ps| && i <= |ps|
    ensures Settles(a, ExpectimaxLoop(g, h, s, ps, i, d, total, a))
    decreases d, 1, |ps| - i
  {
    if i < |ps| && Answer(a.clock) {
      var c := MaxPlayerRun(g, h, g.addTile(s, ps[i].position, ps[i].value), d, Polled(a));
      MaxPlayerRunSettles(g, h, g.addTile(s, ps[i].position, ps[i].value), d, Polled(a));
      if c.value.Some? {
        ExpectimaxLoopSettles(g, h, s, ps, i + 1, d, total + c.value.value, c.after);
      }
    }
  }

  /**
   * One depth iteration changes only the clock and the node counters; it is
   * aborted only once time is up, and completes with a move of `ms`.
   */
  lemma {:induction false} DepthLoopSettles<S>(g: Game<S>, h: S -> int, s: S, ms: seq<Move>, i: nat, depth: nat, bestScore: Bound, bestMove: Move, a: Agent<Move>)
    requires 0 < depth && i <= |ms| && bestMove in ms
    ensures var r := DepthLoop(g, h, s, ms, i, depth, bestScore, bestMove, a);
      && Keeps(a, r.after)
      && (r.Completed? ==> r.choice in ms)
      && (r.Aborted? ==> r.after.clock == 0)
    decreases |ms| - i
  {
    if i < |ms| && Answer(a.clock) {
      var c := ExpectimaxRun(g, h, g.move(s, ms[i]), depth - 1, Polled(a));
      ExpectimaxRunSettles(g, h, g.move(s, ms[i]), depth - 1, Polled(a));
      if c.value.Some? {
        if Exceeds(c.value.value, bestScore) {
          DepthLoopSettles(g, h, s, ms, i + 1, depth, Finite(c.value.value), ms[i], c.after);
        } else {
          DepthLoopSettles(g, h, s, ms, i + 1, depth, bestScore, bestMove, c.after);
        }
      }
    }
  }

  /**
   * The deepening loop stops only once time is up; it keeps the decision
   * counter, counts children in step with nodes, keeps the moves committed
   * before, adds only moves of `ms`, and starts at most one depth iteration
   * more than it completes.
   */
  lemma {:induction false} DeepeningLoopSettles<S>(g: Game<S>, h: S -> int, s: S, ms: seq<Move>, depth: nat, bestMove: Move, a: Agent<Move>)
    requires 0 < depth && bestMove in ms
    ensures var b := DeepeningLoop(g, h, s, ms, depth, bestMove, a);
      && b.clock == 0
      && b.count == a.count
      && a.nodeCount <= b.nodeCount && b.nodeCount - a.nodeCount == b.childCount - a.childCount
      && |a.committed| <= |b.committed| && b.committed[..|a.committed|] == a.committed
      && (forall j :: |a.committed| <= j < |b.committed| ==> b.committed[j] in ms)
      && var k := |b.committed| - |a.committed|;
         (b.depthCount == a.depthCount + k || b.depthCount == a.depthCount + k + 1)
    decreases a.clock
  {
    if Answer(a.clock) {
      var a1 := Polled(a).(depthCount := a.depthCount + 1);
      var r := DepthLoop(g, h, s, ms, 0, depth, NegInf, bestMove, a1);
      DepthLoopSettles(g, h, s, ms, 0, depth, NegInf, bestMove, a1);
      if r.Aborted? {
        assert DeepeningLoop(g, h, s, ms, depth, bestMove, a) == r.after;
      } else {
        var a3 := r.after.(committed := r.after.committed + [r.choice]);
        var b := DeepeningLoop(g, h, s, ms, depth + 1, r.choice, a3);
        assert DeepeningLoop(g, h, s, ms, depth, bestMove, a) == b;
        DeepeningLoopSettles(g, h, s, ms, depth + 1, r.choice, a3);
        assert b.committed[..|a.committed|] == b.committed[..|a3.committed|][..|a.committed|];
        forall j | |a.committed| <= j < |b.committed| ensures b.committed[j] in ms {
          if j < |a3.committed| {
            assert b.committed[j] == b.committed[..|a3.committed|][j];
          }
        }
      }
    }
  }

  /**
   * `findMove` counts the decision; with no legal move it changes nothing
   * else. Otherwise it returns only once time is up, keeps earlier commits
   * and commits only legal moves.
   */
  lemma FindMoveSettles<S>(g: Game<S>, h: S -> int, s: S, a: Agent<Move>)
    ensures var b := FindMoveRun(g, h, s, a);
      && b.count == a.count + 1
      && (PrioritizedMoves(g, s) == [] ==> b == a.(count := a.count + 1))
      && (PrioritizedMoves(g, s) != [] ==> b.clock == 0)
      && |a.committed| <= |b.committed| && b.committed[..|a.committed|] == a.committed
      && (forall j :: |a.committed| <= j < |b.committed| ==> b.committed[j] in g.actions(s))
  {
    var ms := PrioritizedMoves(g, s);
    PrioritizedMovesSpec(g, s);
    if ms != [] {
      DeepeningLoopSettles(g, h, s, ms, 1, ms[0], a.(count := a.count + 1));
    }
  }

  /* ----------------------------------------------------------------------
   * A search that is not cut off computes the values
   * ---------------------------------------------------------------------- */

  lemma {:induction false} MaxPlayerRunSound<S>(g: Game<S>, h: S -> int, s: S, depth: nat, a: Agent<Move>)
    ensures var o := MaxPlayerRun(g, h, s, depth, a);
      o.value.Some? ==> o.value.value == MaxValue(g, h, s, depth)
    decreases depth, 0, 0
  {
    if !g.gameOver(s) && depth != 0 {
      var ms := PrioritizedMoves(g, s);
      if ms != [] {
        MaxPlayerLoopSound(g, h, s, ms, 0, depth - 1, NegInf, Expand(Visit(a)));
      }
    }
  }

  lemma {:induction false} MaxPlayerLoopSound<S>(g: Game<S>, h: S -> int, s: S, ms: seq<Move>, i: nat, d: nat, best: Bound, a: Agent<Move>)
    requires 0 < |ms| && i <= |ms|
    requires best.NegInf? <==> i == 0
    requires 0 < i ==> best.r == Max(MoveValues(g, h, s, ms, d)[..i])
    ensures var o := MaxPlayerLoop(g, h, s, ms, i, d, best, a);
      o.value.Some? ==> o.value.value == Max(MoveValues(g, h, s, ms, d))
    decreases d, 1, |ms| - i
  {
    var vs := MoveValues(g, h, s, ms, d);
    if i == |ms| {
      assert vs[..i] == vs;
    } else if Answer(a.clock) {
      var c := ExpectimaxRun(g, h, g.move(s, ms[i]), d, Polled(a));
      ExpectimaxRunSound(g, h, g.move(s, ms[i]), d, Polled(a));
      if c.value.Some? {
        assert vs[..i + 1] == vs[..i] + [vs[i]];
        if 0 < i {
          MaxSnoc(vs[..i], vs[i]);
        }
        MaxPlayerLoopSound(g, h, s, ms, i + 1, d, Finite(Join(best, c.value.value)), c.after);
      }
    }
  }

  lemma {:induction false} ExpectimaxRunSound<S>(g: Game<S>, h: S -> int, s: S, depth: nat, a: Agent<Move>)
    ensures var o := ExpectimaxRun(g, h, s, depth, a);
      o.value.Some? ==> o.value.value == ChanceValue(g, h, s, depth)
    decreases depth, 0, 0
  {
    if !g.gameOver(s) && depth != 0 {
      var ps := g.possibleTiles(s);
      if ps != [] {
        assert SpawnValues(g, h, s, ps, depth - 1)[..0] == [];
        ExpectimaxLoopSound(g, h, s, ps, 0, depth - 1, 0.0, Expand(Visit(a)));
      }
    }
  }

  lemma {:induction false} ExpectimaxLoopSound<S>(g: Game<S>, h: S -> int, s: S, ps: seq<Placement>, i: nat, d: nat, total: real, a: Agent<Move>)
    requires 0 < |ps| && i <= |ps|
    requires total == Sum(SpawnValues(g, h, s, ps, d)[..i])
    ensures var o := ExpectimaxLoop(g, h, s, ps, i, d, total, a);
      o.value.Some? ==> o.value.value == Mean(SpawnValues(g, h, s, ps, d))
    decreases d, 1, |ps| - i
  {
    var vs := SpawnValues(g, h, s, ps, d);
    if i == |ps| {
      assert vs[..i] == vs;
    } else if Answer(a.clock) {
      var c := MaxPlayerRun(g, h, g.addTile(s, ps[i].position, ps[i].value), d, Polled(a));
      MaxPlayerRunSound(g, h, g.addTile(s, ps[i].position, ps[i].value), d, Polled(a));
      if c.value.Some? {
        assert vs[..i + 1] == vs[..i] + [vs[i]];
        SumSnoc(vs[..i], vs[i]);
        ExpectimaxLoopSound(g, h, s, ps, i + 1, d, total + c.value.value, c.after);
      }
    }
  }

  /* ----------------------------------------------------------------------
   * What the deepening loop commits
   * ---------------------------------------------------------------------- */

  /**
   * One step of the scan of `findMove`: a score that exceeds the best so far
   * becomes the first maximum of the longer prefix, and one that does not
   * leaves maximum and first maximiser as they are.
   */
  lemma ScanStep(vs: seq<real>, i: nat, best: Bound)
    requires i < |vs|
    requires i == 0 ==> best.NegInf?
    requires 0 < i ==> best == Finite(Max(vs[..i]))
    ensures Exceeds(vs[i], best) ==> Max(vs[..i + 1]) == vs[i] && ArgMax(vs[..i + 1]) == i
    ensures !Exceeds(vs[i], best) ==>
      0 < i && Max(vs[..i + 1]) == Max(vs[..i]) && ArgMax(vs[..i + 1]) == ArgMax(vs[..i])
  {
    assert vs[..i + 1] == vs[..i] + [vs[i]];
    if 0 < i {
      ArgMaxSpec(vs[..i]);
      MaxSnoc(vs[..i], vs[i]);
      ArgMaxSnoc(vs[..i], vs[i]);
    }
  }

  /** The first maximum so far and its position, before index `i` of `vs`. */
  ghost predicate ScanInvariant(ms: seq<Move>, vs: seq<real>, i: nat, bestScore: Bound, bestMove: Move)
    requires 0 < |ms| && |vs| == |ms| && i <= |ms|
  {
    && (i == 0 ==> bestScore.NegInf?)
    && (0 < i ==> bestScore == Finite(Max(vs[..i])) && bestMove == ms[ArgMax(vs[..i])])
  }

  /**
   * One completed step of the move loop: it moves on to index `i + 1` with a
   * best score and move that again form the first maximum so far.
   */
  lemma DepthLoopStep<S>(g: Game<S>, h: S -> int, s: S, ms: seq<Move>, i: nat, depth: nat, bestScore: Bound, bestMove: Move, a: Agent<Move>)
    returns (nextScore: Bound, nextMove: Move, next: Agent<Move>)
    requires 0 < depth && 0 < |ms| && i < |ms| && Answer(a.clock)
    requires ScanInvariant(ms, MoveValues(g, h, s, ms, depth - 1), i, bestScore, bestMove)
    requires ExpectimaxRun(g, h, g.move(s, ms[i]), depth - 1, Polled(a)).value.Some?
    ensures ScanInvariant(ms, MoveValues(g, h, s, ms, depth - 1), i + 1, nextScore, nextMove)
    ensures DepthLoop(g, h, s, ms, i, depth, bestScore, bestMove, a)
         == DepthLoop(g, h, s, ms, i + 1, depth, nextScore, nextMove, next)
  {
    var vs := MoveValues(g, h, s, ms, depth - 1);
    var c := ExpectimaxRun(g, h, g.move(s, ms[i]), depth - 1, Polled(a));
    assert c.value.value == vs[i] by {
      ExpectimaxRunSound(g, h, g.move(s, ms[i]), depth - 1, Polled(a));
    }
    ScanStep(vs, i, bestScore);
    next := c.after;
    if Exceeds(vs[i], bestScore) {
      nextScore, nextMove := Finite(vs[i]), ms[i];
    } else {
      nextScore, nextMove := bestScore, bestMove;
    }
  }

  /**
   * A completed depth iteration chooses the first move, in the order of `ms`,
   * whose chance value reaches the maximum over all moves.
   */
  lemma {:induction false} DepthLoopChoice<S>(g: Game<S>, h: S -> int, s: S, ms: seq<Move>, i: nat, depth: nat, bestScore: Bound, bestMove: Move, a: Agent<Move>)
    requires 0 < depth && 0 < |ms| && i <= |ms|
    requires ScanInvariant(ms, MoveValues(g, h, s, ms, depth - 1), i, bestScore, bestMove)
    ensures var r := DepthLoop(g, h, s, ms, i, depth, bestScore, bestMove, a);
      r.Completed? ==> r.choice == ms[ArgMax(MoveValues(g, h, s, ms, depth - 1))]
    decreases |ms| - i
  {
    if i == |ms| {
      var vs := MoveValues(g, h, s, ms, depth - 1);
      assert vs[..i] == vs;
    } else if Answer(a.clock) && ExpectimaxRun(g, h, g.move(s, ms[i]), depth - 1, Polled(a)).value.Some? {
      var nextScore, nextMove, next := DepthLoopStep(g, h, s, ms, i, depth, bestScore, bestMove, a);
      DepthLoopChoice(g, h, s, ms, i + 1, depth, nextScore, nextMove, next);
    }
  }

  /**
   * The moves a deepening loop commits when `k` depth iterations complete,
   * starting at `depth`: for each depth, the first move of `ms` whose chance
   * value, searched one level less deep, is the largest.
   */
  function Choices<S>(g: Game<S>, h: S -> int, s: S, ms: seq<Move>, depth: nat, k: nat): (cs: seq<Move>)
    requires 0 < depth && 0 < |ms|
    ensures |cs| == k
    decreases k
  {
    if k == 0 then []
    else [Choice(g, h, s, ms, depth - 1)] + Choices(g, h, s, ms, depth + 1, k - 1)
  }

  /** The first move of `ms` whose chance value, searched to depth `d`, is the largest. */
  function Choice<S>(g: Game<S>, h: S -> int, s: S, ms: seq<Move>, d: nat): Move
    requires 0 < |ms|
  {
    ms[ArgMax(MoveValues(g, h, s, ms, d))]
  }

  /** Entry `i` of `Choices` is the choice of depth iteration `depth + i`. */
  lemma {:induction false} ChoicesAt<S>(g: Game<S>, h: S -> int, s: S, ms: seq<Move>, depth: nat, k: nat, i: nat)
    requires 0 < depth && 0 < |ms| && i < k
    ensures Choices(g, h, s, ms, depth, k)[i] == Choice(g, h, s, ms, depth - 1 + i)
    decreases k
  {
    if 0 < i {
      ChoicesAt(g, h, s, ms, depth + 1, k - 1, i - 1);
    }
  }

  /**
   * The deepening loop appends to the moves committed before exactly the
   * choices of the depth iterations it completes, `depth`, `depth + 1`, ...:
   * only completed iterations commit, and each raises the depth by one.
   */
  lemma {:induction false} DeepeningLoopCommits<S>(g: Game<S>, h: S -> int, s: S, ms: seq<Move>, depth: nat, bestMove: Move, a: Agent<Move>)
    requires 0 < depth && 0 < |ms| && bestMove in ms
    ensures var b := DeepeningLoop(g, h, s, ms, depth, bestMove, a);
      && |a.committed| <= |b.committed|
      && b.committed == a.committed + Choices(g, h, s, ms, depth, |b.committed| - |a.committed|)
    decreases a.clock
  {
    if Answer(a.clock) {
      var a1 := Polled(a).(depthCount := a.depthCount + 1);
      var r := DepthLoop(g, h, s, ms, 0, depth, NegInf, bestMove, a1);
      assert r.after.committed == a.committed && (r.Completed? ==> r.choice in ms) by {
        DepthLoopSettles(g, h, s, ms, 0, depth, NegInf, bestMove, a1);
      }
      if r.Completed? {
        var a3 := r.after.(committed := r.after.committed + [r.choice]);
        var b := DeepeningLoop(g, h, s, ms, depth + 1, r.choice, a3);
        assert DeepeningLoop(g, h, s, ms, depth, bestMove, a) == b;
        assert r.choice == Choice(g, h, s, ms, depth - 1) by {
          DepthLoopChoice(g, h, s, ms, 0, depth, NegInf, bestMove, a1);
        }
        DeepeningLoopCommits(g, h, s, ms, depth + 1, r.choice, a3);
        var k := |b.committed| - |a3.committed|;
        var rest := Choices(g, h, s, ms, depth + 1, k);
        assert Choices(g, h, s, ms, depth, k + 1) == [r.choice] + rest;
        assert b.committed == a3.committed + rest;
        assert a3.committed == a.committed + [r.choice];
        assert (a.committed + [r.choice]) + rest == a.committed + ([r.choice] + rest);
      } else {
        assert DeepeningLoop(g, h, s, ms, depth, bestMove, a) == r.after;
        assert Choices(g, h, s, ms, depth, 0) == [];
        assert a.committed + [] == a.committed;
      }
    } else {
      assert DeepeningLoop(g, h, s, ms, depth, bestMove, a) == Polled(a);
      assert Choices(g, h, s, ms, depth, 0) == [];
      assert a.committed + [] == a.committed;
    }
  }

  /**
   * `findMove` commits nothing when there is no legal move; otherwise the
   * moves it commits are, in order, the first maximisers of depth 1, 2, ...
   * in priority order.
   */
  lemma FindMoveCommits<S>(g: Game<S>, h: S -> int, s: S, a: Agent<Move>)
    ensures var b := FindMoveRun(g, h, s, a); var ms := PrioritizedMoves(g, s);
      && |a.committed| <= |b.committed|
      && (ms == [] ==> b.committed == a.committed)
      && (ms != [] ==>
           forall i :: 0 <= i < |b.committed| - |a.committed| ==>
             b.committed[|a.committed| + i] == Choice(g, h, s, ms, i))
  {
    var ms := PrioritizedMoves(g, s);
    if ms != [] {
      var a1 := a.(count := a.count + 1);
      var b := DeepeningLoop(g, h, s, ms, 1, ms[0], a1);
      assert FindMoveRun(g, h, s, a) == b;
      DeepeningLoopCommits(g, h, s, ms, 1, ms[0], a1);
      var k := |b.committed| - |a.committed|;
      forall i | 0 <= i < k
        ensures b.committed[|a.committed| + i] == Choice(g, h, s, ms, i)
      {
        ChoicesAt(g, h, s, ms, 1, k, i);
      }
    }
  }

  /* ----------------------------------------------------------------------
   * The agent
   * ---------------------------------------------------------------------- */

  /**
   * The agent object. Its static evaluation is fixed at construction to
   * `Evaluate`; the methods refer to it only through `evaluate`, so their
   * contracts hold for whichever evaluation the search is given.
   */
  class Player<S> {
    /** The queries the agent makes of game states. */
    const game: Game<S>
    /** The static evaluation at the leaves of the search. */
    const evaluate: S -> int
    /** How many more calls of `timeRemaining()` will answer yes. */
    var clock: nat
    var nodeCount: nat
    var parentCount: nat
    var childCount: nat
    var depthCount: nat
    var count: nat
    /** The moves passed to `setMove`, oldest first. */
    var committed: seq<Move>

    function State(): Agent<Move>
      reads this
    {
      Agent(clock, nodeCount, parentCount, childCount, depthCount, count, committed)
    }

    /**
     * `__init__`: every counter starts at zero and nothing is committed;
     * `clock` is the time budget of the first decision only.
     */
    constructor (game: Game<S>, clock: nat)
      ensures this.game == game
      ensures forall s :: evaluate(s) == Evaluate(game, s)
      ensures State() == Agent(clock, 0, 0, 0, 0, 0, [])
    {
      this.game := game;
      evaluate := s => Evaluate(game, s);
      this.clock := clock;
      nodeCount, parentCount, childCount, depthCount, count := 0, 0, 0, 0, 0;
      committed := [];
    }

    method TimeRemaining() returns (more: bool)
      modifies this
      ensures more == Answer(old(clock))
      ensures State() == Polled(old(State()))
    {
      more := clock > 0;
      if more {
        clock := clock - 1;
      }
    }

    method SetMove(m: Move)
      modifies this
      ensures State() == old(State()).(committed := old(committed) + [m])
    {
      committed := committed + [m];
    }

    /**
     * The deadline the turn loop sets before each decision: the next `polls`
     * calls of `timeRemaining()` answer yes. The counters and the committed
     * moves carry over from the decisions before.
     */
    method StartDecision(polls: nat)
      modifies this
      ensures State() == old(State()).(clock := polls)
    {
      clock := polls;
    }

    method FindMove(s: S)
      modifies this
      ensures State() == FindMoveRun(game, evaluate, s, old(State()))
    {
      count := count + 1;
      var actions := PrioritizedMoves(game, s);
      if actions == [] {
        return;
      }
      var bestMove := actions[0];
      var depth: nat := 1;
      while true
        invariant 0 < depth
        invariant FindMoveRun(game, evaluate, s, old(State()))
               == DeepeningLoop(game, evaluate, s, actions, depth, bestMove, State())
        decreases clock
      {
        var more := TimeRemaining();
        if !more {
          return;
        }
        depthCount := depthCount + 1;
        var completed;
        completed, bestMove := SearchDepth(s, actions, depth, bestMove);
        if !completed {
          return;
        }
        SetMove(bestMove);
        depth := depth + 1;
      }
    }

    /**
     * One depth iteration of `findMove`: the scan of `actions` that keeps the
     * first move with the highest chance value. It reports whether the scan
     * completed, that is, was not cut off by the clock, and the move it kept.
     */
    method SearchDepth(s: S, actions: seq<Move>, depth: nat, bestMove: Move) returns (completed: bool, choice: Move)
      requires 0 < depth
      modifies this
      ensures var r := DepthLoop(game, evaluate, s, actions, 0, depth, NegInf, bestMove, old(State()));
        completed == r.Completed? && (completed ==> choice == r.choice) && State() == r.after
    {
      ghost var round := DepthLoop(game, evaluate, s, actions, 0, depth, NegInf, bestMove, State());
      var bestScore := NegInf;
      choice := bestMove;
      for i := 0 to |actions|
        invariant DepthLoop(game, evaluate, s, actions, i, depth, bestScore, choice, State()) == round
      {
        var nextState := game.move(s, actions[i]);
        var onTime := TimeRemaining();
        if !onTime {
          return false, choice;
        }
        var score := Expectimax(nextState, depth - 1);
        if score.None? {
          return false, choice;
        }
        if Exceeds(score.value, bestScore) {
          bestScore := Finite(score.value);
          choice := actions[i];
        }
      }
      return true, choice;
    }

    method MaxPlayer(s: S, depth: nat) returns (r: Option<real>)
      modifies this
      decreases depth, 0
      ensures Outcome(r, State()) == MaxPlayerRun(game, evaluate, s, depth, old(State()))
    {
      nodeCount := nodeCount + 1;
      childCount := childCount + 1;
      if game.gameOver(s) || depth == 0 {
        return Some(evaluate(s) as real);
      }
      var actions := PrioritizedMoves(game, s);
      if actions == [] {
        return Some(evaluate(s) as real);
      }
      parentCount := parentCount + 1;
      r := ScanMoves(s, actions, depth - 1);
    }

    /**
     * The loop of `maxPlayer` over `actions`: the largest chance value of the
     * successors, each searched to depth `d`, or `None` once the clock cuts
     * the scan off.
     */
    method ScanMoves(s: S, actions: seq<Move>, d: nat) returns (r: Option<real>)
      requires 0 < |actions|
      modifies this
      decreases d, 1
      ensures Outcome(r, State()) == MaxPlayerLoop(game, evaluate, s, actions, 0, d, NegInf, old(State()))
    {
      ghost var goal := MaxPlayerLoop(game, evaluate, s, actions, 0, d, NegInf, State());
      var best := NegInf;
      for i := 0 to |actions|
        invariant best.NegInf? <==> i == 0
        invariant MaxPlayerLoop(game, evaluate, s, actions, i, d, best, State()) == goal
      {
        ghost var before := State();
        var onTime := TimeRemaining();
        if !onTime {
          return None;
        }
        var result := game.move(s, actions[i]);
        var value := Expectimax(result, d);
        assert Outcome(value, State()) == ExpectimaxRun(game, evaluate, result, d, Polled(before));
        if value.None? {
          return None;
        }
        best := Finite(Join(best, value.value));
      }
      return Some(best.r);
    }

    method Expectimax(s: S, depth: nat) returns (r: Option<real>)
      modifies this
      decreases depth, 0
      ensures Outcome(r, State()) == ExpectimaxRun(game, evaluate, s, depth, old(State()))
    {
      nodeCount := nodeCount + 1;
      childCount := childCount + 1;
      if game.gameOver(s) || depth == 0 {
        return Some(evaluate(s) as real);
      }
      parentCount := parentCount + 1;
      var possibilities := game.possibleTiles(s);
      if possibilities == [] {
        return Some(evaluate(s) as real);
      }
      r := ScanSpawns(s, possibilities, depth - 1);
    }

    /**
     * The loop of `expectimax` over `possibilities`: the mean of the max
     * values of the successors, each searched to depth `d`, or `None` once
     * the clock cuts the scan off.
     */
    method ScanSpawns(s: S, possibilities: seq<Placement>, d: nat) returns (r: Option<real>)
      requires 0 < |possibilities|
      modifies this
      decreases d, 1
      ensures Outcome(r, State()) == ExpectimaxLoop(game, evaluate, s, possibilities, 0, d, 0.0, old(State()))
    {
      ghost var goal := ExpectimaxLoop(game, evaluate, s, possibilities, 0, d, 0.0, State());
      var total := 0.0;
      for i := 0 to |possibilities|
        invariant ExpectimaxLoop(game, evaluate, s, possibilities, i, d, total, State()) == goal
      {
        ghost var before := State();
        var onTime := TimeRemaining();
        if !onTime {
          return None;
        }
        var p := possibilities[i];
        var nextState := game.addTile(s, p.position, p.value);
        var result := MaxPlayer(nextState, d);
        assert Outcome(result, State()) == MaxPlayerRun(game, evaluate, nextState, d, Polled(before));
        if result.None? {
          return None;
        }
        total := total + result.value;
      }
      return Some(total / (|possibilities| as real));
    }
  }
}
