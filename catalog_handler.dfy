/** The menu command (src/handlers/catalogHandler.js): one catalog text per chat per cooldown. */
module CatalogHandler {
  import opened Strings
  import opened Replies
  import Config
  import Cooldown
  import SendQueue
  import HandlerSteps
  import C = Constants

  const Placeholder := "CATALOG_TEXT belum di-set di .env"

  /** getCatalogText: the trimmed CATALOG_TEXT, or the placeholder when it is unset or blank. */
  function GetCatalogText(env: Config.Env): (text: string)
    ensures text != ""
    ensures "CATALOG_TEXT" !in env ==> text == Placeholder
    ensures "CATALOG_TEXT" in env && Trim(env["CATALOG_TEXT"]) == "" ==> text == Placeholder
    ensures "CATALOG_TEXT" in env && Trim(env["CATALOG_TEXT"]) != "" ==> text == Trim(env["CATALOG_TEXT"])
  {
    var raw := Trim(Config.EnvOr(env, "CATALOG_TEXT", ""));
    if raw != "" then raw else Placeholder
  }

  /** Spaces and line breaks around the configured text never reach the chat. */
  lemma CatalogTextIgnoresPadding(env: Config.Env, pre: string, t: string, post: string)
    requires "CATALOG_TEXT" in env && env["CATALOG_TEXT"] == pre + t + post
    requires AllSpace(pre) && AllSpace(post) && t != "" && IsTrimmed(t)
    ensures GetCatalogText(env) == t
  {
    TrimPadded(pre, t, post);
  }

  /**
   * handleCatalog at clock readings `now` (the check) and `sentAt` (after the send). On cooldown
   * nothing is sent and nothing is marked; otherwise exactly the catalog text is sent, and the
   * chat's `cmd:catalog` stamp is set only once the send has resolved.
   */
  method HandleCatalog(store: Cooldown.Store, q: SendQueue.Queue, env: Config.Env, menuCooldownMs: int,
                       jid: string, net: SendQueue.Job -> bool, now: int, sentAt: int) returns (r: Reply)
    requires store.Valid() && q.Valid() && q.AtRest()
    modifies store, q
    ensures store.Valid() && q.Valid() && q.AtRest() && store.written == old(store.written)
    ensures var job := SendQueue.Job(jid, SendQueue.Text(GetCatalogText(env)));
      if !old(store.CanSendCommand(jid, C.CatalogKey, menuCooldownMs, now)) then
        r == No && q.executed == old(q.executed) && store.data == old(store.data)
      else
        && q.executed == old(q.executed) + [job]
        && r == (if net(job) then Yes else Threw)
        && store.data == if net(job) then Cooldown.Stamp(old(store.data), jid, Cooldown.CommandKey(C.CatalogKey), sentAt)
                         else old(store.data)
  {
    if !store.CanSendCommand(jid, C.CatalogKey, menuCooldownMs, now) {
      return No;
    }
    r := HandlerSteps.SendThenMark(store, q, SendQueue.Job(jid, SendQueue.Text(GetCatalogText(env))), net, C.CatalogKey, sentAt);
  }
}
