/**
  The messages the bot posts to a Discord channel: plain text or an embed with
  a title, a description, a list of fields and an image URL.  Colours,
  thumbnails and author blocks are presentation and are not kept.
*/
module Chat {

  datatype Field = Field(name: string, value: string, inline: bool)

  datatype Embed = Embed(title: string, description: string, fields: seq<Field>, image: string)

  datatype Message = EmbedMessage(embed: Embed) | TextMessage(text: string)

  /** An embed made of fields only, the shape NewEmbedInfer(...).AddField(...) builds. */
  function FieldsEmbed(fields: seq<Field>): Embed
  {
    Embed("", "", fields, "")
  }

  /** The one-field embed the commands send on an error: a heading and a detail line. */
  function ErrorMessage(heading: string, detail: string): (m: Message)
    ensures m.EmbedMessage? && m.embed.fields == [Field(heading, detail, false)]
  {
    EmbedMessage(FieldsEmbed([Field(heading, detail, false)]))
  }

  /** A markdown link "[name](url)", as fmt.Sprintf("[%s](%s)", name, url) writes it. */
  function Link(name: string, url: string): string
  {
    "[" + name + "](" + url + ")"
  }
}
