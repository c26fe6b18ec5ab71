/**
 * What both agents keep between the steps of a search: the clock, the five
 * counters their constructors set to zero and the decisions passed to
 * `setMove`, together with the counter updates the two searches share.
 */
module SearchState {
  import opened Game
  import opened Clock

  /**
   * The agent's state: the polls of the clock that will still answer yes,
   * the five counters and the decisions committed so far, oldest first; `M`
   * is what one decision is.
   */
  datatype Agent<M> = Agent(
    clock: nat,
    nodeCount: nat,
    parentCount: nat,
    childCount: nat,
    depthCount: nat,
    count: nat,
    committed: seq<M>)

  /** What a call of one search layer returns, and the state after it. */
  datatype Outcome<M> = Outcome(value: Option<real>, after: Agent<M>)

  /** The counter updates at the entry of every node. */
  function Visit<M>(a: Agent<M>): Agent<M> {
    a.(nodeCount := a.nodeCount + 1, childCount := a.childCount + 1)
  }

  /** The counter update when a node is expanded. */
  function Expand<M>(a: Agent<M>): Agent<M> {
    a.(parentCount := a.parentCount + 1)
  }

  /** The state after one call of `timeRemaining()`. */
  function Polled<M>(a: Agent<M>): Agent<M> {
    a.(clock := Tick(a.clock))
  }

  /**
   * What a search may change from `a` to `b`: it uses up clock time and
   * counts nodes, children in step with nodes, and parents; the depth
   * counter, the decision counter and the committed decisions stay as they
   * are.
   */
  ghost predicate Keeps<M>(a: Agent<M>, b: Agent<M>) {
    && b.clock <= a.clock
    && a.nodeCount <= b.nodeCount
    && b.nodeCount - a.nodeCount == b.childCount - a.childCount
    && a.parentCount <= b.parentCount
    && b.depthCount == a.depthCount && b.count == a.count && b.committed == a.committed
  }

  /** A search changes only what `Keeps` allows, and is cut off only once time is up. */
  ghost predicate Settles<M>(a: Agent<M>, o: Outcome<M>) {
    Keeps(a, o.after) && (o.value.None? ==> o.after.clock == 0)
  }
}
