/**
 * The game-state collaborator that both agents query. Its implementation
 * (sliding, merging, spawning, scoring) is not part of this model: a state of
 * type `S` is only ever inspected through the functions of a `Game<S>`, which
 * are left uninterpreted, so every result below holds for any game that
 * answers these queries.
 */
module Game {

  datatype Option<+T> = None | Some(value: T)

  /** The four sliding directions, named by the letters the agents use. */
  datatype Move = L | U | R | D

  /** A board cell, the position part of a spawn. */
  datatype Cell = Cell(row: nat, col: nat)

  /** One entry of `possibleTiles()`: a tile value that may spawn at a cell. */
  datatype Placement = Placement(position: Cell, value: nat)

  /**
   * The queries the agents make of a state: its legal moves (in the order the
   * state lists them), the successor after a slide, the possible spawns, the
   * successor after a spawn, the game-over test, the running score and the
   * tile at a row and column (0 for an empty cell).
   */
  datatype Game<!S> = Game(
    actions: S -> seq<Move>,
    move: (S, Move) -> S,
    possibleTiles: S -> seq<Placement>,
    addTile: (S, Cell, nat) -> S,
    gameOver: S -> bool,
    getScore: S -> nat,
    getTile: (S, nat, nat) -> nat
  )
}
