/**
 * The game types the board builders consume. The engine that produces them
 * (players, AI, win detection, sessions) is not part of this model; only the
 * shapes the builders read are declared here.
 */
module Game {

  /** A cell of the board; the enum values None = 0, First = 1, Second = 2 index three-slot tables. */
  datatype Player = None | First | Second

  /** A three-slot table indexed by a cell value, like the source's `[idle, first, second]` arrays. */
  datatype Triple<T> = Triple(none: T, first: T, second: T) {

    function At(p: Player): T {
      match p
      case None => none
      case First => first
      case Second => second
    }
  }

  /**
   * A participant: the `instanceof AI` test of the source becomes the variant tag.
   * Display names are opaque strings; the textual form used in mentions is left
   * to the localiser.
   */
  datatype Entity = Human(id: string, displayName: string) | AI(displayName: string)
}
