/**
 * The button board builder: the text builder's state plus four flags, a
 * message that carries only the title and the state, and the per-cell button
 * decision.
 */
module GameBoardButtonBuilder {
  import opened Wrappers
  import opened Game
  import opened Messages
  import opened Discord
  import opened Decimal
  import opened Arithmetic
  import Base = GameBoardBuilder

  /** Labels shown when a cell has no emoji. */
  const Labels: Triple<string> := Triple("-", "X", "O")

  /** Button colours: grey for idle cells, blue for the first player, red for the second. */
  const Styles: Triple<Style> := Triple(Secondary, Primary, Danger)

  datatype ButtonBuilder = ButtonBuilder(
    base: Base.BoardBuilder,
    customEmojies: bool,
    customIdleEmoji: bool,
    disableButtonsAfterUsed: bool,
    gameEnded: bool)

  /** A freshly constructed builder: the text builder's defaults and every flag off. */
  const Initial := ButtonBuilder(Base.Initial, false, false, false, false)

  function WithButtonsDisabledAfterUse(bb: ButtonBuilder): (r: ButtonBuilder)
    ensures r.disableButtonsAfterUsed
    ensures r.(disableButtonsAfterUsed := bb.disableButtonsAfterUsed) == bb
  {
    bb.(disableButtonsAfterUsed := true)
  }

  /** Like the text builder's, except that with no entity (the game is loading) nothing changes. */
  function WithEntityPlaying(bb: ButtonBuilder, loc: Localizer, entity: Option<Entity>): (r: ButtonBuilder)
    ensures entity.Nothing? ==> r == bb
    ensures entity.Some? ==> r.base.state == loc(PlayingMessage(entity)) && !PlayingMessage(entity).Load?
    ensures r.(base := r.base.(state := bb.base.state)) == bb
  {
    if entity.Some? then bb.(base := Base.WithEntityPlaying(bb.base, loc, entity)) else bb
  }

  /** Marks the game as ended, then writes the ending message. */
  function WithEndingMessage(bb: ButtonBuilder, loc: Localizer, winner: Option<Entity>): (r: ButtonBuilder)
    ensures r.gameEnded
    ensures r.base == Base.WithEndingMessage(bb.base, loc, winner)
    ensures r.(gameEnded := bb.gameEnded, base := bb.base) == bb
  {
    bb.(gameEnded := true, base := Base.WithEndingMessage(bb.base, loc, winner))
  }

  /** Records that emojis were customised, and whether the idle one was too, then updates the table. */
  function WithEmojies(bb: ButtonBuilder, first: string, second: string, none: Option<string>): (r: ButtonBuilder)
    ensures r.customEmojies
    ensures r.customIdleEmoji <==> none.Some?
    ensures r.base == Base.WithEmojies(bb.base, first, second, none)
    ensures r.(customEmojies := bb.customEmojies, customIdleEmoji := bb.customIdleEmoji, base := bb.base) == bb
  {
    bb.(customEmojies := true, customIdleEmoji := none.Some?, base := Base.WithEmojies(bb.base, first, second, none))
  }

  /** The message as written: title and state only, in an embed or as plain content; no board, no buttons. */
  function ToMessageOptions(bb: ButtonBuilder): (r: MessageOptions)
    ensures r.allowedMentions.Nothing? && r.components.Nothing?
    ensures |r.embeds| == (if Base.EmbedEnabled(bb.base) then 1 else 0)
    ensures r.content.Some? <==> !Base.EmbedEnabled(bb.base)
    ensures Base.EmbedEnabled(bb.base) ==> r.embeds[0] == Embed(bb.base.title, bb.base.state, bb.base.embedColor.value)
    ensures !Base.EmbedEnabled(bb.base) ==> r.content.value == bb.base.title + bb.base.state
  {
    var b := bb.base;
    MessageOptions(
      Nothing,
      if Base.EmbedEnabled(b) then [Embed(b.title, b.state, b.embedColor.value)] else [],
      if !Base.EmbedEnabled(b) then Some(b.title + b.state) else Nothing,
      Nothing)
  }

  /** The board cell a button at `row`, `col` stands for, counting in row-major order. */
  function ButtonIndex(bb: ButtonBuilder, row: nat, col: nat): nat
  {
    row * bb.base.boardSize + col
  }

  /**
   * The button for the cell at `row`, `col`: its id names the cell, it shows
   * the cell's emoji when emojis of that kind were customised and the label
   * otherwise, it is coloured by the cell's owner, and it is disabled only
   * when that option is on and the cell is taken or the game is over.
   */
  function CreateButton(bb: ButtonBuilder, row: nat, col: nat): (r: Button)
    requires ButtonIndex(bb, row, col) < |bb.base.boardData|
    ensures r.customId == NatToString(ButtonIndex(bb, row, col))
    ensures IsDigits(r.customId) && ParseDigits(r.customId) == ButtonIndex(bb, row, col)
    ensures var cell := bb.base.boardData[ButtonIndex(bb, row, col)];
      && r.style == Styles.At(cell)
      && (r.face.Emoji? <==> (cell != Player.None && bb.customEmojies) || (cell == Player.None && bb.customIdleEmoji))
      && (r.face.Emoji? ==> r.face.emoji == bb.base.emojies.At(cell))
      && (r.face.Label? ==> r.face.text == Labels.At(cell))
      && (r.disabled <==> bb.disableButtonsAfterUsed && (cell != Player.None || bb.gameEnded))
  {
    var index := ButtonIndex(bb, row, col);
    var cell := bb.base.boardData[index];
    var owned := cell != Player.None;
    var face := if (owned && bb.customEmojies) || (!owned && bb.customIdleEmoji)
                then Emoji(bb.base.emojies.At(cell)) else Label(Labels.At(cell));
    ParseNatToString(index);
    Button(NatToString(index), face, Styles.At(cell), (owned || bb.gameEnded) && bb.disableButtonsAfterUsed)
  }

  // ---------------------------------------------------------------------------
  // Properties.

  /** For columns inside the board width, distinct positions, in any rows, get distinct button ids. */
  lemma ButtonIdsDistinct(bb: ButtonBuilder, row1: nat, col1: nat, row2: nat, col2: nat)
    requires col1 < bb.base.boardSize && col2 < bb.base.boardSize
    requires ButtonIndex(bb, row1, col1) < |bb.base.boardData| && ButtonIndex(bb, row2, col2) < |bb.base.boardData|
    ensures CreateButton(bb, row1, col1).customId == CreateButton(bb, row2, col2).customId
        <==> row1 == row2 && col1 == col2
  {
    var i1, i2 := ButtonIndex(bb, row1, col1), ButtonIndex(bb, row2, col2);
    NatToStringInjective(i1, i2);
    if i1 == i2 {
      DivModUnique(i1, bb.base.boardSize, row1, col1);
      DivModUnique(i2, bb.base.boardSize, row2, col2);
    }
  }

  /** Once the game has ended with the option on, every button is disabled. */
  lemma EndedGameDisablesAll(bb: ButtonBuilder, loc: Localizer, winner: Option<Entity>, row: nat, col: nat)
    requires ButtonIndex(bb, row, col) < |bb.base.boardData|
    ensures CreateButton(WithEndingMessage(WithButtonsDisabledAfterUse(bb), loc, winner), row, col).disabled
  {
  }

  /** Without the option no button is ever disabled, whatever the board and the game state. */
  lemma NeverDisabledWithoutOption(bb: ButtonBuilder, row: nat, col: nat)
    requires !bb.disableButtonsAfterUsed && ButtonIndex(bb, row, col) < |bb.base.boardData|
    ensures !CreateButton(bb, row, col).disabled
  {
  }

  /**
   * A fresh builder given only a board: every button shows its cell's label
   * from `- X O`, is coloured by the cell's owner and is never disabled.
   */
  lemma InitialButtonsShowLabels(size: nat, data: seq<Player>, row: nat, col: nat)
    requires row * size + col < |data|
    ensures var bb := Initial.(base := Base.WithBoard(Initial.base, size, data));
            var b := CreateButton(bb, row, col);
            && b.face == Label(Labels.At(data[row * size + col]))
            && b.style == Styles.At(data[row * size + col])
            && !b.disabled
  {
  }

  /** Custom player emojis without an idle one: taken cells show emojis, idle cells keep the label "-". */
  lemma IdleCellsKeepLabel(bb: ButtonBuilder, first: string, second: string, row: nat, col: nat)
    requires ButtonIndex(bb, row, col) < |bb.base.boardData|
    ensures var b := CreateButton(WithEmojies(bb, first, second, Nothing), row, col);
            var cell := bb.base.boardData[ButtonIndex(bb, row, col)];
            && (cell == Player.None ==> b.face == Label("-"))
            && (cell == First ==> b.face == Emoji(first))
            && (cell == Second ==> b.face == Emoji(second))
  {
  }

  /** The button message is the text builder's message for an empty board, without mentions or components. */
  lemma ButtonMessageOmitsBoard(bb: ButtonBuilder)
    ensures var plain := Base.ToMessageOptions(bb.base.(boardSize := 0));
            var r := ToMessageOptions(bb);
            r.embeds == plain.embeds && r.content == plain.content
  {
    Base.EmptyBoardShowsState(bb.base.(boardSize := 0));
  }

  // ---------------------------------------------------------------------------
  // The message with its grid of buttons, one row of `boardSize` buttons per
  // board row, as the otherwise unused `createButton` is there to build.

  /** The precondition of a full grid: the data covers every cell of the board. */
  predicate CoversBoard(bb: ButtonBuilder)
  {
    |bb.base.boardData| >= bb.base.boardSize * bb.base.boardSize
  }

  lemma IndexInBoard(size: nat, row: nat, col: nat)
    requires row < size && col < size
    ensures row * size + col < size * size
  {
    assert row * size + col < row * size + size;
    assert (row + 1) * size <= size * size;
  }

  lemma RowInBoard(bb: ButtonBuilder, row: nat)
    requires CoversBoard(bb) && row < bb.base.boardSize
    ensures forall col: nat :: col < bb.base.boardSize ==> ButtonIndex(bb, row, col) < |bb.base.boardData|
  {
    forall col: nat | col < bb.base.boardSize
      ensures ButtonIndex(bb, row, col) < |bb.base.boardData|
    {
      IndexInBoard(bb.base.boardSize, row, col);
    }
  }

  function ButtonRow(bb: ButtonBuilder, row: nat): (r: seq<Button>)
    requires CoversBoard(bb) && row < bb.base.boardSize
    ensures |r| == bb.base.boardSize
    ensures forall col: nat :: col < |r| ==> ButtonIndex(bb, row, col) < |bb.base.boardData|
    ensures forall col: nat :: col < |r| ==> r[col] == CreateButton(bb, row, col)
  {
    RowInBoard(bb, row);
    seq(bb.base.boardSize, (col: int) requires 0 <= col < bb.base.boardSize => CreateButton(bb, row, col))
  }

  function ButtonGrid(bb: ButtonBuilder): (r: seq<seq<Button>>)
    requires CoversBoard(bb)
    ensures |r| == bb.base.boardSize
    ensures forall row :: 0 <= row < |r| ==> r[row] == ButtonRow(bb, row)
  {
    seq(bb.base.boardSize, (row: int) requires 0 <= row < bb.base.boardSize => ButtonRow(bb, row))
  }

  /** The message with the title and state as before, and the grid of buttons as its components. */
  function ToMessageOptionsWithButtons(bb: ButtonBuilder): (r: MessageOptions)
    requires CoversBoard(bb)
    ensures r.embeds == ToMessageOptions(bb).embeds && r.content == ToMessageOptions(bb).content
    ensures r.components == Some(ButtonGrid(bb))
    ensures |r.components.value| == bb.base.boardSize
    ensures forall row :: 0 <= row < |r.components.value| ==> |r.components.value[row]| == bb.base.boardSize
  {
    ToMessageOptions(bb).(components := Some(ButtonGrid(bb)))
  }

  /** Cell `i` of a `size` by `size` board sits at row `i / size`, column `i % size`. */
  lemma CellPosition(size: nat, i: nat)
    requires i < size * size
    ensures size > 0 && i / size < size && i % size < size && i == (i / size) * size + i % size
  {
  }

  lemma GridButtonAt(bb: ButtonBuilder, row: nat, col: nat)
    requires CoversBoard(bb) && row < bb.base.boardSize && col < bb.base.boardSize
    ensures ButtonIndex(bb, row, col) < |bb.base.boardData|
    ensures ButtonGrid(bb)[row][col] == CreateButton(bb, row, col)
  {
    IndexInBoard(bb.base.boardSize, row, col);
  }

  /**
   * Every board cell `i` has exactly one button in the grid, found at row
   * `i / boardSize`, column `i % boardSize`, whose id reads back as `i`.
   */
  lemma GridCoversEveryCell(bb: ButtonBuilder, i: nat)
    requires CoversBoard(bb) && i < bb.base.boardSize * bb.base.boardSize
    ensures var size := bb.base.boardSize;
            var grid := ButtonGrid(bb);
            && 0 < size
            && ParseDigits(grid[i / size][i % size].customId) == i
            && forall row, col :: 0 <= row < size && 0 <= col < size && ParseDigits(grid[row][col].customId) == i
                 ==> row == i / size && col == i % size
  {
    var size := bb.base.boardSize;
    var grid: seq<seq<Button>> := ButtonGrid(bb);
    CellPosition(size, i);
    GridButtonAt(bb, i / size, i % size);
    forall row: int, col: int | 0 <= row < size && 0 <= col < size && ParseDigits(grid[row][col].customId) == i
      ensures row == i / size && col == i % size
    {
      GridButtonAt(bb, row, col);
      DivModUnique(i, size, row, col);
    }
  }

  /**
   * As written, every game is sent without a single button to press, while
   * the corrected message of any non-empty board has a row of buttons per board row.
   */
  lemma AsWrittenSendsNoButtons(bb: ButtonBuilder)
    ensures ToMessageOptions(bb).components.Nothing?
    ensures CoversBoard(bb) && bb.base.boardSize > 0
            ==> |ToMessageOptionsWithButtons(bb).components.value| == bb.base.boardSize > 0
  {
  }
}
