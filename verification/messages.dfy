/**
 * Localised messages. The i18n lookup is foreign code, so a message is a token
 * keyed by its message id with its arguments, and the lookup is an injected
 * function from tokens to text.
 */
module Messages {
  import opened Wrappers
  import opened Game

  datatype Message =
    | Title(player1: string, player2: string)   // game.title
    | WaitingAi                                 // game.waiting-ai
    | Load                                      // game.load
    | Action(player: Entity)                    // game.action
    | Win(player: Entity)                       // game.win
    | End                                       // game.end
    | Expire                                    // game.expire

  /** The translation table of the running locale. */
  type Localizer = Message -> string

  /** The state message shown while `entity` is to play: one of three, chosen by the entity's kind. */
  function PlayingMessage(entity: Option<Entity>): (m: Message)
    ensures m.WaitingAi? <==> entity.Some? && entity.value.AI?
    ensures m.Load? <==> entity.Nothing?
    ensures m.Action? <==> entity.Some? && entity.value.Human?
    ensures m.Action? ==> m.player == entity.value
    ensures m.WaitingAi? || m.Load? || m.Action?
  {
    match entity
    case Some(AI(_)) => WaitingAi
    case Nothing => Load
    case Some(e) => Action(e)
  }

  /** The state message shown once the game is over: a win when there is a winner, otherwise a tie. */
  function EndingMessage(winner: Option<Entity>): (m: Message)
    ensures m.Win? <==> winner.Some?
    ensures m.End? <==> winner.Nothing?
    ensures m.Win? ==> m.player == winner.value
  {
    if winner.Some? then Win(winner.value) else End
  }
}
