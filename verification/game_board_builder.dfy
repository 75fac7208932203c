/**
 * The text board builder: an immutable record of what the message will show,
 * `With*` updates that each overwrite one part of it, and the serialiser that
 * turns it into message options.
 */
module GameBoardBuilder {
  import opened Wrappers
  import opened Game
  import opened Messages
  import opened Discord
  import opened BoardText

  /** Default table: a white square for an idle cell, the regional letter X and the O button. */
  const DefaultEmojies: Triple<string> := Triple("\U{2B1C}", "\U{1F1FD}", "\U{1F17E}\U{FE0F}")

  datatype BoardBuilder = BoardBuilder(
    title: string,
    state: string,
    boardSize: nat,
    boardData: seq<Player>,
    emojies: Triple<string>,
    embedColor: Option<Color>)

  /** A freshly constructed builder: empty title and state, an empty board of size 0, no embed. */
  const Initial := BoardBuilder("", "", 0, [], DefaultEmojies, Nothing)

  function WithTitle(b: BoardBuilder, loc: Localizer, player1: Entity, player2: Entity): (r: BoardBuilder)
    ensures r.title == loc(Title(player1.displayName, player2.displayName)) + "\n\n"
    ensures r.(title := b.title) == b
  {
    b.(title := loc(Title(player1.displayName, player2.displayName)) + "\n\n")
  }

  /** Replaces the table; the idle emoji is kept unless a new one is given. */
  function WithEmojies(b: BoardBuilder, first: string, second: string, none: Option<string>): (r: BoardBuilder)
    ensures r.emojies.At(First) == first && r.emojies.At(Second) == second
    ensures none.Some? ==> r.emojies.At(Player.None) == none.value
    ensures none.Nothing? ==> r.emojies.At(Player.None) == b.emojies.At(Player.None)
    ensures r.(emojies := b.emojies) == b
  {
    b.(emojies := Triple(none.GetOr(b.emojies.none), first, second))
  }

  function WithBoard(b: BoardBuilder, boardSize: nat, board: seq<Player>): (r: BoardBuilder)
    ensures r.boardSize == boardSize && r.boardData == board
    ensures r.(boardSize := b.boardSize, boardData := b.boardData) == b
  {
    b.(boardSize := boardSize, boardData := board)
  }

  function WithEntityPlaying(b: BoardBuilder, loc: Localizer, entity: Option<Entity>): (r: BoardBuilder)
    ensures r.state == loc(PlayingMessage(entity))
    ensures r.(state := b.state) == b
  {
    b.(state := loc(PlayingMessage(entity)))
  }

  function WithEndingMessage(b: BoardBuilder, loc: Localizer, winner: Option<Entity>): (r: BoardBuilder)
    ensures r.state == loc(EndingMessage(winner))
    ensures r.(state := b.state) == b
  {
    b.(state := loc(EndingMessage(winner)))
  }

  function WithExpireMessage(b: BoardBuilder, loc: Localizer): (r: BoardBuilder)
    ensures r.state == loc(Expire)
    ensures r.(state := b.state) == b
  {
    b.(state := loc(Expire))
  }

  function WithEmbed(b: BoardBuilder, color: Color): (r: BoardBuilder)
    ensures r.embedColor == Some(color)
    ensures r.(embedColor := b.embedColor) == b
  {
    b.(embedColor := Some(color))
  }

  /** The embed is used when a colour is stored and the colour is truthy. */
  predicate EmbedEnabled(b: BoardBuilder)
  {
    b.embedColor.Some? && Truthy(b.embedColor.value)
  }

  /** The board part of the message. */
  function BoardOf(b: BoardBuilder): string
  {
    Board(b.emojies, b.boardData, b.boardSize)
  }

  /** The state text, separated from a non-empty board by a line break. */
  function JoinState(state: string, board: string): (r: string)
    ensures state != "" && board != "" <==> r == "\n" + state
    ensures r == state || r == "\n" + state
  {
    if state != "" && board != "" then "\n" + state else state
  }

  /** What the message shows below the title: the board, then the state. */
  function Body(b: BoardBuilder): string
  {
    BoardOf(b) + JoinState(b.state, BoardOf(b))
  }

  /**
   * The message: either one embed holding the body under the title, or plain
   * content made of the title and the body, never both.
   */
  function ToMessageOptions(b: BoardBuilder): (r: MessageOptions)
    ensures r.allowedMentions == Some(["users"]) && r.components == Some([])
    ensures |r.embeds| == (if EmbedEnabled(b) then 1 else 0)
    ensures r.content.Some? <==> !EmbedEnabled(b)
    ensures EmbedEnabled(b) ==> r.embeds[0] == Embed(b.title, Body(b), b.embedColor.value)
    ensures !EmbedEnabled(b) ==> r.content.value == b.title + Body(b)
  {
    MessageOptions(
      Some(["users"]),
      if EmbedEnabled(b) then [Embed(b.title, Body(b), b.embedColor.value)] else [],
      if !EmbedEnabled(b) then Some(b.title + Body(b)) else Nothing,
      Some([]))
  }

  /** The serialising loop as written: one pass over the cells, appending as it goes. */
  method RenderBoard(b: BoardBuilder) returns (board: string)
    ensures board == Rows(CellRenderer(b.emojies, b.boardData), b.boardSize, b.boardSize)
    ensures board == BoardOf(b)
  {
    var size := b.boardSize;
    board := "";
    var i: nat := 0;
    while i < size * size
      invariant i <= size * size
      invariant board == Serialise(CellRenderer(b.emojies, b.boardData), size, i)
    {
      var cell := if i < |b.boardData| then b.emojies.At(b.boardData[i]) else Undefined;
      board := board + (cell + " ");
      if (i + 1) % size == 0 {
        board := board + "\n";
      }
      i := i + 1;
    }
    BoardRows(b.emojies, b.boardData, size);
  }

  // ---------------------------------------------------------------------------
  // Properties of the assembled message.

  /** Both modes carry the same text: the plain content is the title followed by the embed description. */
  lemma ModesCarrySameText(b: BoardBuilder, color: Color)
    requires Truthy(color)
    ensures ToMessageOptions(b.(embedColor := Nothing)).content
         == Some(b.title + ToMessageOptions(WithEmbed(b, color)).embeds[0].description)
  {
  }

  /** With the default size 0 the board is empty and the state follows the title unchanged. */
  lemma EmptyBoardShowsState(b: BoardBuilder)
    requires b.boardSize == 0
    ensures Body(b) == b.state
  {
  }

  /** A new builder renders an empty message. */
  lemma InitialIsEmpty()
    ensures ToMessageOptions(Initial).content == Some("")
    ensures ToMessageOptions(Initial).embeds == []
  {
  }

  /**
   * The line breaks of the plain message: those of the title and the state,
   * one per board row, and one more separating a state from a non-empty board.
   */
  lemma MessageLineBreaks(b: BoardBuilder)
    requires NoLineBreak(b.emojies) && !EmbedEnabled(b)
    ensures Count(ToMessageOptions(b).content.value, '\n')
         == Count(b.title, '\n') + b.boardSize + Count(b.state, '\n')
            + (if b.state != "" && b.boardSize > 0 then 1 else 0)
  {
    var board := BoardOf(b);
    BoardShape(b.emojies, b.boardData, b.boardSize);
    CountConcat(b.title, board + JoinState(b.state, board), '\n');
    CountConcat(board, JoinState(b.state, board), '\n');
    if b.state != "" && b.boardSize > 0 {
      assert Count("\n", '\n') == 1 by {
        assert "\n"[..0] == "";
      }
      CountConcat("\n", b.state, '\n');
    }
  }

  /** The state setters overwrite each other: only the last one called is shown. */
  lemma LastStateWins(b: BoardBuilder, loc: Localizer, entity: Option<Entity>, winner: Option<Entity>)
    ensures WithEndingMessage(WithEntityPlaying(b, loc, entity), loc, winner) == WithEndingMessage(b, loc, winner)
    ensures WithExpireMessage(WithEndingMessage(b, loc, winner), loc) == WithExpireMessage(b, loc)
    ensures WithEntityPlaying(WithExpireMessage(b, loc), loc, entity) == WithEntityPlaying(b, loc, entity)
    ensures WithEntityPlaying(WithEndingMessage(b, loc, winner), loc, entity) == WithEntityPlaying(b, loc, entity)
    ensures WithEndingMessage(WithExpireMessage(b, loc), loc, winner) == WithEndingMessage(b, loc, winner)
    ensures WithExpireMessage(WithEntityPlaying(b, loc, entity), loc) == WithExpireMessage(b, loc)
  {
  }

  /** An idle emoji set once is kept by a later update that omits it. */
  lemma IdleEmojiSurvivesUpdates(b: BoardBuilder, f1: string, s1: string, none: string, f2: string, s2: string)
    ensures WithEmojies(WithEmojies(b, f1, s1, Some(none)), f2, s2, Nothing).emojies == Triple(none, f2, s2)
  {
  }
}
