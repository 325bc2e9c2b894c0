/**
 * The shape of an inbound WhatsApp message as the core reads it. A text field the source reads
 * through `?.` is a `string`, with `""` for both an absent field and an empty one: every read
 * of such a field only tests it for truthiness, where the two coincide.
 */
module Messages {
  import opened Wrappers

  /** `extendedTextMessage.contextInfo`: who is quoted and what. */
  datatype ContextInfo = ContextInfo(participant: string, remoteJid: string, quotedMessage: Option<Content>)

  datatype ExtendedText = ExtendedText(text: string, contextInfo: Option<ContextInfo>)

  /** A message body (`msg.message`). */
  datatype Content = Content(
    conversation: string,
    extendedText: Option<ExtendedText>,
    imageCaption: string,             // imageMessage?.caption
    videoCaption: string,             // videoMessage?.caption
    selectedButtonId: string,         // buttonsResponseMessage?.selectedButtonId
    selectedDisplayText: string,      // buttonsResponseMessage?.selectedDisplayText
    listTitle: string,                // listResponseMessage?.title
    selectedRowId: string,            // listResponseMessage?.singleSelectReply?.selectedRowId
    hasProductMessage: bool,          // productMessage is present
    ephemeral: Option<Content>,       // ephemeralMessage?.message
    viewOnce: Option<Content>,        // viewOnceMessage?.message
    viewOnceV2: Option<Content>)      // viewOnceMessageV2?.message

  /** `msg.key`. */
  datatype MessageKey = MessageKey(remoteJid: string, participant: string, fromMe: bool)

  /** One entry of a `messages.upsert` batch. */
  datatype WAMessage = WAMessage(key: MessageKey, message: Option<Content>)

  /** A message with no fields set. */
  const Blank := Content("", None, "", "", "", "", "", "", false, None, None, None)
}
