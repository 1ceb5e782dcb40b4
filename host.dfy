/**
 * The parts of the host application that the HUD reads: actors, their items,
 * the controlled tokens and the `fromUuid` item lookup.
 */
module Host {
  import opened Wrappers

  /** An item or ability owned by an actor; `uuid` is the locator that re-resolves it later. */
  datatype Item = Item(id: string, uuid: string, name: string, img: string, itemType: string, level: int)

  /** An actor as the HUD sees it: identity, ownership by the current user, items in their natural order. */
  datatype Actor = Actor(id: string, name: string, isOwner: bool, items: seq<Item>)

  /** A token on the canvas; it may or may not stand for an actor. */
  datatype Token = Token(actor: Option<Actor>)

  /** The HUD's actor: the actor of the first controlled token, or none. */
  function CurrentActor(controlled: seq<Token>): Option<Actor>
  {
    if |controlled| == 0 then None else controlled[0].actor
  }

  /**
   * What an asynchronous `fromUuid` lookup comes to: the item, `null` for a
   * locator that names nothing, or a thrown error.
   */
  datatype Resolution = Found(item: Item) | NotFound | Throws

  type Resolver = string -> Resolution
}
