/** The game positions both agents search. The position type and its move
  * generator are collaborators of the agents: a position is modelled as the
  * finite tree of everything `findPossibleMoves` would produce from it. */
module Game {
  import opened Marks

  /** A board, the player to move (`getNextPlayer()`), and the successor
    * positions in the order `findPossibleMoves` lists them. */
  datatype GameState<B> = GameState(board: B, nextPlayer: Mark, successors: seq<GameState<B>>)

  /** What `play` hands back to the game driver: the no-move state
    * `GameState(pState, Move())`, one of the successors, or a
    * default-constructed `GameState`. */
  datatype Reply<B> = NoMove(prior: GameState<B>) | Moved(next: GameState<B>) | Blank
}
