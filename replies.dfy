/** What a handler's promise comes to. */
module Replies {
  /**
   * `true`, `false`, `"cooldown"`, the JID a successful exclude returns, or a rejection: the
   * await of a send the transport refused, or a failed file write, which the handler does not catch.
   */
  datatype Reply = Yes | No | Cooldown | Jid(jid: string) | Threw
}
