/** Who is in the game after a message, and who is answered (the handlers of Host/game.cpp). */
module Handlers {
  import opened Geometry
  import opened World

  /** The commands that look their sender up with `players[id]`, and so insert it if it is absent. */
  predicate LooksUp(command: Command) {
    match command
    case Spawn => true
    case Shoot => true
    case ChangeOrientation(_) => true
    case ChangeMovement(v) => Square(v.x) + Square(v.y) <= 1.0 + EPSILON_ONE
    case Ping(_) => false
    case Unknown => false
  }

  /** Who is in the game: a connection enters, a lost one leaves, and a command that looks its sender up lets it in. */
  lemma WhoIsThere(m: Libm, s: State, message: Message, at: Point, id: nat)
    ensures id in Handled(m, s, message, at).players
       <==> match message
            case Empty => id in s.players
            case NewConnection(c) => id == c || id in s.players
            case LostConnection(c) => id != c && id in s.players
            case FromClient(c, command) => id in s.players || (id == c && LooksUp(command))
  {
    hide NewPlayer;
    if message.FromClient? {
      match message.command
      case Spawn =>
      case Shoot =>
      case ChangeOrientation(_) =>
      case ChangeMovement(_) =>
      case Ping(_) =>
      case Unknown =>
    }
  }

  /** The host answers a connection with the welcome message and then the map, a ping with its number, and nothing else;
      each reply goes to the sender, once. */
  lemma RepliesGoToTheSender(message: Message, reply: Reply)
    ensures reply in Replies(message)
       <==> !message.Empty? && reply.client == message.client
            && (if message.NewConnection? then reply.Welcome? || reply.MapData?
                else message.FromClient? && message.command.Ping? && reply.Pong?
                     && reply.number == message.command.number)
    ensures multiset(Replies(message))[reply] <= 1
    ensures message.NewConnection? ==> Replies(message)[0].Welcome?
  {}
}
