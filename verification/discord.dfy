/**
 * The chat library's message records, reduced to the fields the builders set.
 */
module Discord {
  import opened Wrappers

  /** A colour as the configuration gives it; JavaScript treats the colour 0 as absent. */
  type Color = int

  predicate Truthy(c: Color) { c != 0 }

  datatype Style = Secondary | Primary | Danger

  /** A button shows either an emoji or a text label. */
  datatype Face = Emoji(emoji: string) | Label(text: string)

  datatype Button = Button(customId: string, face: Face, style: Style, disabled: bool)

  datatype Embed = Embed(title: string, description: string, color: Color)

  /** `Nothing` fields are absent from the object literal; `components` is a list of rows of buttons. */
  datatype MessageOptions = MessageOptions(
    allowedMentions: Option<seq<string>>,
    embeds: seq<Embed>,
    content: Option<string>,
    components: Option<seq<seq<Button>>>)
}
