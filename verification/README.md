# Board rendering of a tic-tac-toe chat bot, in Dafny

This project models the two message builders of the discord-tictactoe bot.
`GameBoardBuilder` turns a game board into message text. `GameBoardButtonBuilder`
is meant to render the same game as a grid of buttons; as written its message
carries only the title and the state (see ## Findings). A builder is an immutable record.
Each `with*` method is a pure function that returns the updated record, and
`toMessageOptions` is a function from the record to a message record.

Modules:

- `Game`: the cell values `None | First | Second` (indices 0, 1 and 2 of every
  three-slot table, modelled by `Triple`) and the entity kinds `Human | AI`.
- `Messages`: localised messages as tokens (`Title`, `WaitingAi`, `Load`,
  `Action`, `Win`, `End`, `Expire`). The lookup is an injected `Localizer`.
- `Discord`: the library's message, embed and button records, reduced to the
  fields the builders set.
- `Decimal`: the decimal notation that `toString()` gives a button index, and
  its parse. This matches JavaScript for indices below 2^53.
- `Arithmetic`: uniqueness of Euclidean quotient and remainder.
- `BoardText`: the serialising loop over any cell renderer, described a second
  way as rows, with its line-break and cell-order properties.
- `GameBoardBuilder` and `GameBoardButtonBuilder`: the two builders.

## Model

| member | source | states |
|---|---|---|
| `Messages.PlayingMessage` | src/bot/builder/GameBoardBuilder.ts:109-118 | exactly one of three messages: waiting-ai iff the entity is an AI, load iff there is no entity, action (naming the entity) iff it is a human |
| `Messages.EndingMessage` | src/bot/builder/GameBoardBuilder.ts:126-133 | the win message (naming the winner) iff a winner is given, the end message otherwise |
| `GameBoardBuilder.WithTitle` | src/bot/builder/GameBoardBuilder.ts:68-75 | the title becomes the localised title of the two display names followed by two line breaks; nothing else changes |
| `GameBoardBuilder.WithEmojies` | src/bot/builder/GameBoardBuilder.ts:85-88 | slots 1 and 2 take the given emojis; slot 0 takes the idle emoji if given and keeps the previous one otherwise; nothing else changes |
| `GameBoardBuilder.IdleEmojiSurvivesUpdates` | src/bot/builder/GameBoardBuilder.ts:85-88 | an idle emoji set once survives a later update that omits it |
| `GameBoardBuilder.WithBoard` | src/bot/builder/GameBoardBuilder.ts:97-101 | size and cells are stored as given; nothing else changes |
| `GameBoardBuilder.WithEntityPlaying` | src/bot/builder/GameBoardBuilder.ts:109-118 | the state becomes the localised playing message for the entity; nothing else changes |
| `GameBoardBuilder.WithEndingMessage` | src/bot/builder/GameBoardBuilder.ts:126-133 | the state becomes the localised ending message; nothing else changes |
| `GameBoardBuilder.WithExpireMessage` | src/bot/builder/GameBoardBuilder.ts:140-143 | the state becomes the localised expire message; nothing else changes |
| `GameBoardBuilder.LastStateWins` | src/bot/builder/GameBoardBuilder.ts:109-143 | the state setters overwrite one another in all six orderings of two of them: only the last one called is visible |
| `GameBoardBuilder.WithEmbed` | src/bot/builder/GameBoardBuilder.ts:151-154 | the embed colour is stored; nothing else changes |
| `GameBoardBuilder.JoinState` | src/bot/builder/GameBoardBuilder.ts:173 | the state gets a leading line break iff both the state and the board text are non-empty, and is otherwise used unchanged |
| `GameBoardBuilder.ToMessageOptions` | src/bot/builder/GameBoardBuilder.ts:161-181 | embed and plain modes are exclusive: with a truthy colour one embed (title, board plus state, colour) and no content; otherwise no embed and content = title + board + state; mentions of users allowed, no components |
| `GameBoardBuilder.RenderBoard` | src/bot/builder/GameBoardBuilder.ts:163-170 | the loop as written produces the board text, which is `boardSize` lines, line r listing cells r·size … r·size+size−1 each followed by a space |
| `GameBoardBuilder.ModesCarrySameText` | src/bot/builder/GameBoardBuilder.ts:176-179 | the plain content equals the title followed by the embed description the same builder would produce with a colour |
| `GameBoardBuilder.EmptyBoardShowsState` | src/bot/builder/GameBoardBuilder.ts:163-173 | with board size 0 the board text is empty and the state follows unchanged |
| `GameBoardBuilder.InitialIsEmpty` | src/bot/builder/GameBoardBuilder.ts:54-59 | a new builder renders empty plain content and no embed |
| `GameBoardBuilder.MessageLineBreaks` | src/bot/builder/GameBoardBuilder.ts:163-179 | the plain content has the line breaks of title and state, one per board row, and one more when both state and board are non-empty |
| `BoardText.SerialiseRows` | src/bot/builder/GameBoardBuilder.ts:165-169 | after r·size steps the loop has written exactly the first r rows, each ending in one line break |
| `BoardText.BoardRows` | src/bot/builder/GameBoardBuilder.ts:163-170 | the board text equals its row-by-row description: `boardSize` lines of `boardSize` cells |
| `BoardText.BoardShape` | src/bot/builder/GameBoardBuilder.ts:165-169 | with emojis free of line breaks the board holds exactly `boardSize` line breaks, ends with one when the size is positive, and is empty iff the size is 0 |
| `BoardText.BoardCellsInOrder` | src/bot/builder/GameBoardBuilder.ts:165-166 | with at least size² cells, removing line breaks leaves `emojies[boardData[i]] + ' '` for i = 0 … size²−1 in index order |
| `Decimal.NatToString` | src/bot/builder/GameBoardButtonBuilder.ts:128 | the id is a non-empty string of digits, with a leading zero only for 0 |
| `Decimal.ParseNatToString` | src/bot/builder/GameBoardButtonBuilder.ts:128 | reading the id back as a decimal gives the index |
| `Decimal.NatToStringInjective` | src/bot/builder/GameBoardButtonBuilder.ts:128 | two indices have the same id iff they are equal |
| `GameBoardButtonBuilder.WithButtonsDisabledAfterUse` | src/bot/builder/GameBoardButtonBuilder.ts:55-58 | the option is switched on; nothing else changes |
| `GameBoardButtonBuilder.WithEntityPlaying` | src/bot/builder/GameBoardButtonBuilder.ts:64-71 | with no entity the builder is unchanged; with one the state becomes its playing message (never the load message); only the state can change |
| `GameBoardButtonBuilder.WithEndingMessage` | src/bot/builder/GameBoardButtonBuilder.ts:77-80 | the game is marked ended and the text builder's ending update is applied; nothing else changes |
| `GameBoardButtonBuilder.WithEmojies` | src/bot/builder/GameBoardButtonBuilder.ts:86-90 | custom emojis switch on, the custom idle flag holds iff an idle emoji is given, and the table update of the text builder is applied |
| `GameBoardButtonBuilder.ToMessageOptions` | src/bot/builder/GameBoardButtonBuilder.ts:96-103 | title and state only: one embed whose description is the state, or content = title + state; no mentions, no components |
| `GameBoardButtonBuilder.ButtonMessageOmitsBoard` | src/bot/builder/GameBoardButtonBuilder.ts:96-103 | the button message carries the same embeds and content as the text builder's message for an empty board |
| `GameBoardButtonBuilder.CreateButton` | src/bot/builder/GameBoardButtonBuilder.ts:112-129 | the id is the leading-zero-free decimal notation of row·size+col, reads back as that index, and that cell is rendered; emoji iff (owned and custom emojis) or (idle and custom idle emoji), label from `- X O` otherwise; style from secondary/primary/danger by cell; disabled iff the option is on and (the cell is owned or the game ended) |
| `GameBoardButtonBuilder.ButtonIdsDistinct` | src/bot/builder/GameBoardButtonBuilder.ts:114-128 | for columns inside the board, two buttons have the same id iff they have the same row and column |
| `GameBoardButtonBuilder.EndedGameDisablesAll` | src/bot/builder/GameBoardButtonBuilder.ts:124-126 | after the ending message with the option on, every button is disabled |
| `GameBoardButtonBuilder.NeverDisabledWithoutOption` | src/bot/builder/GameBoardButtonBuilder.ts:124-126 | without the option no button is disabled |
| `GameBoardButtonBuilder.InitialButtonsShowLabels` | src/bot/builder/GameBoardButtonBuilder.ts:33-48 | a new builder given only a board: every button shows its cell's label from `- X O`, takes its owner's colour and is never disabled, because all four flags start false |
| `GameBoardButtonBuilder.IdleCellsKeepLabel` | src/bot/builder/GameBoardButtonBuilder.ts:116-122 | after custom player emojis without an idle one, idle cells show the label `-` and owned cells their player's emoji |
| `GameBoardButtonBuilder.AsWrittenSendsNoButtons` | src/bot/builder/GameBoardButtonBuilder.ts:96-103 | as written, no builder's message has components, while the corrected message of any non-empty board whose data covers the board has `boardSize` rows of buttons |
| `GameBoardButtonBuilder.ToMessageOptionsWithButtons` | src/bot/builder/GameBoardButtonBuilder.ts:96-129 | corrected message, for a board whose data covers the board: same embeds and content, plus `boardSize` rows of `boardSize` buttons made by `createButton` |
| `GameBoardButtonBuilder.GridCoversEveryCell` | src/bot/builder/GameBoardButtonBuilder.ts:112-129 | in the corrected grid, every cell i has its button at row i / size, column i % size, whose id reads back as i, and no other button has that id |

## Left out

- The game engine is not part of this model: players, the AI, win detection, the session manager and timers. The builders only read a board, its size and the entities.
- Localisation is foreign code. Each message is a token carrying its arguments, and `Localizer` stands for the lookup. `Entity.toString()` is resolved by the localiser too.
- `MOVE_REACTIONS` (src/bot/builder/GameBoardBuilder.ts:19) is a constant table. No builder logic reads it.
- The button builder inherits `withTitle`, `withBoard`, `withExpireMessage` and `withEmbed` unchanged. In the model they are the text builder's functions applied to the `base` field, and they are not restated.
- `withBoard` keeps the caller's array by reference; the model stores the cells as a value, so it matches the program only when the array is not changed between `withBoard` and `toMessageOptions`.
- `return this` chaining and in-place mutation are modelled as functions that return the updated record.
- The embed colour is modelled as a number, where 0 is falsy. String colours are not modelled.
- Numbers are modelled as unbounded naturals. JavaScript numbers are doubles, so `row * boardSize + col`, `boardSize * boardSize` and `toString()` agree with the model only below 2^53, where arithmetic is exact and no exponent form (`1e+21`) is written. Real boards are far below that.
- The board size is modelled as a natural number. Negative or fractional sizes are not modelled.
- Cell values are modelled as the three members of the player enum. Other numbers in the board data are not modelled.
- GameBoardButtonBuilder.CreateButton: requires the button index to lie inside the board data. Past its end the source would read `undefined` and pass it to the library's setters, and that behaviour belongs to the library. The text board does model this case: a missing cell prints as `undefined`.
- src/index.ts (client construction, environment defaults, login) and src/bot/TicTacToeBot.ts (event wiring) are I/O with no logic of their own.

## Findings

| source | as written | input that shows it | evidently intended | confidence | as-written member | corrected member |
|---|---|---|---|---|---|---|
| src/bot/builder/GameBoardButtonBuilder.ts:96-103 | `toMessageOptions` returns only `embeds` and `content`. The private `createButton` (lines 112-129) is never called, and the imported `MessageActionRow` is never used | a builder of size 3 with 9 cells: the message has no components, so there is no button to press | `components` holds `boardSize` action rows, row r holding `createButton(r, c)` for each column c | medium, not executed | `GameBoardButtonBuilder.AsWrittenSendsNoButtons` | `GameBoardButtonBuilder.ToMessageOptionsWithButtons` |
