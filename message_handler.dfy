/**
 * The dispatcher (src/handlers/messageHandler.js): one `messages.upsert` batch is routed by a fixed
 * chain of early-return rules to at most one handler, and at most one line is logged. `RouteOf`
 * is the chain before any handler runs; `HandleMessage` runs the chosen handler.
 */
module MessageHandler {
  import opened Strings
  import opened Wrappers
  import opened Replies
  import opened Messages
  import C = Constants
  import Utils
  import Config
  import Cooldown
  import SendQueue
  import Cache
  import Products
  import CatalogHandler
  import QrisHandler
  import ProductHandler
  import SaveQrisHandler
  import ExcludeHandler
  import ThanksHandler

  /** The status column of a private-chat log line. */
  datatype Status = Sent | OnCooldown | Excluded | NoMatch | OwnerCmd

  /** One private-chat log line, without its timestamp and padding. */
  datatype LogLine = LogLine(number: string, text: string, status: Status, detail: string)

  /** Which rule of the chain a batch stops at. */
  datatype Route =
    | Drop
    | SaveQrisCommand | ExcludeCommand | UnexcludeCommand | ListExcludeCommand
    | ExcludedSender
    | CatalogRequest | QrisRequest
    | Chat

  /** What the outside world does during one batch: configuration, account, transport, clock, files. */
  datatype World = World(
    env: Config.Env,                  // process.env (for CATALOG_TEXT)
    sockUserId: string,               // sock.user.id
    net: SendQueue.Job -> bool,       // whether the transport accepts a job
    now: int,                         // the clock when a handler checks its cooldown
    sentAt: int,                      // the clock when a send resolves
    imageFile: Option<Cache.Bytes>,   // qris.png, when readable
    writeOk: bool)                    // whether a write of a state file succeeds

  predicate IsOwnerRoute(r: Route) {
    r.SaveQrisCommand? || r.ExcludeCommand? || r.UnexcludeCommand? || r.ListExcludeCommand?
  }

  predicate IsOwnerCommandText(t: string) {
    t == C.SaveQrisKey || t == C.ExcludeCommand || t == C.UnexcludeCommand || t == C.ListExcludeCommand
  }

  /** The batch is taken at all: a first message, an upsert type absent or `notify`, and a body. */
  predicate Accepted(batch: seq<WAMessage>, upsertType: string) {
    |batch| > 0 && (upsertType == "" || upsertType == "notify") && batch[0].message.Some?
  }

  /** The chat JID handlers answer to: the remote JID, normalised. */
  function ChatJid(m: WAMessage): string {
    Utils.NormalizeJidForCompare(m.key.remoteJid)
  }

  predicate IsStatusChat(jid: string) {
    jid == C.StatusJid || EndsWith(jid, C.BroadcastSuffix)
  }

  predicate IsGroupChat(jid: string) {
    EndsWith(jid, C.GroupSuffix)
  }

  predicate IsIndividualChat(jid: string) {
    EndsWith(jid, C.PersonalSuffix) || EndsWith(jid, C.LidSuffix) || EndsWith(jid, C.LegacySuffix)
  }

  /** The chat survives the filters: not a status or broadcast, not a group, individual if so configured. */
  predicate PrivateChat(s: Config.Settings, jid: string) {
    !IsStatusChat(jid) && !IsGroupChat(jid) && !(s.privateChatOnly && !IsIndividualChat(jid))
  }

  /** The text the rules read: extracted, lowercased, then trimmed. */
  function LowerText(m: WAMessage): string {
    Trim(Lower(Utils.ExtractTextFromMessage(m.message)))
  }

  /** The number column of the log: the JID's digits, else the raw JID. */
  function LogNumber(m: WAMessage): string {
    var digits := Utils.DigitsFromJid(m.key.remoteJid);
    if digits != "" then digits else m.key.remoteJid
  }

  /**
   * isExcludedMessage: the raw chat JID, the normalised chat JID, or the normalised participant
   * (when there is one) is on the runtime list.
   */
  predicate IsExcludedMessage(excluded: seq<string>, key: MessageKey): (r: bool)
    ensures key.remoteJid in excluded || Utils.NormalizeJidForCompare(key.remoteJid) in excluded ==> r
    ensures excluded == [] ==> !r
    ensures Utils.NormalizeJidForCompare(key.participant) == "" ==>
      (r <==> key.remoteJid in excluded || Utils.NormalizeJidForCompare(key.remoteJid) in excluded)
  {
    var participant := Utils.NormalizeJidForCompare(key.participant);
    || key.remoteJid in excluded
    || Utils.NormalizeJidForCompare(key.remoteJid) in excluded
    || (participant != "" && participant in excluded)
  }

  /** A number excluded in its `@s.whatsapp.net` form is excluded when it writes as `@c.us` too. */
  lemma ExcludedAcrossLegacySuffix(excluded: seq<string>, key: MessageKey, user: string, legacy: string)
    requires Lower(legacy) == C.LegacySuffix && key.remoteJid == user + legacy
    requires TrimStart(user) + C.PersonalSuffix in excluded
    ensures IsExcludedMessage(excluded, key)
  {
    Utils.NormalizeLegacy(user, legacy);
  }

  /** An excluded participant stays excluded whatever chat the message comes from. */
  lemma ExcludedParticipantAnywhere(excluded: seq<string>, key: MessageKey, remote: string)
    requires IsExcludedMessage(excluded, key)
    requires Utils.NormalizeJidForCompare(key.participant) != ""
    requires key.remoteJid !in excluded && Utils.NormalizeJidForCompare(key.remoteJid) !in excluded
    ensures IsExcludedMessage(excluded, key.(remoteJid := remote))
  {
  }

  /** The text column of the log: at most 20 characters, a longer text cut to 17 and `...`. */
  function ShortText(text: string): (r: string)
    ensures |r| <= 20
    ensures |text| <= 20 ==> r == text
    ensures |text| > 20 ==> |r| == 20 && StartsWith(r, text[..17]) && EndsWith(r, "...")
  {
    if |text| > 20 then text[..17] + "..." else text
  }

  /** What the rule chain reads of a batch. */
  datatype Facts = Facts(accepted: bool, privateChat: bool, text: string, fromMe: bool, excluded: bool)

  function FactsOf(s: Config.Settings, excluded: seq<string>, batch: seq<WAMessage>, upsertType: string): (f: Facts)
    ensures f.accepted == Accepted(batch, upsertType)
    ensures f.accepted ==> && f.privateChat == PrivateChat(s, ChatJid(batch[0])) && f.text == LowerText(batch[0])
                           && f.fromMe == batch[0].key.fromMe && f.excluded == IsExcludedMessage(excluded, batch[0].key)
  {
    if !Accepted(batch, upsertType) then Facts(false, false, "", false, false)
    else
      var m := batch[0];
      Facts(true, PrivateChat(s, ChatJid(m)), LowerText(m), m.key.fromMe, IsExcludedMessage(excluded, m.key))
  }

  /** The rule chain, tried in order; the first rule that applies decides. */
  function RouteFor(s: Config.Settings, f: Facts): (r: Route)
    ensures r != Drop ==> f.accepted && f.privateChat
    ensures IsOwnerRoute(r) <==> f.accepted && f.privateChat && IsOwnerCommandText(f.text)
    ensures r == ExcludedSender <==> f.accepted && f.privateChat && !IsOwnerCommandText(f.text) && !f.fromMe && f.excluded
  {
    if !f.accepted || !f.privateChat then Drop
    else if f.text == C.SaveQrisKey then SaveQrisCommand
    else if f.text == C.ExcludeCommand then ExcludeCommand
    else if f.text == C.UnexcludeCommand then UnexcludeCommand
    else if f.text == C.ListExcludeCommand then ListExcludeCommand
    else if f.fromMe then Drop
    else if f.excluded then ExcludedSender
    else if f.text == "" then Drop
    else if f.text in s.catalogTriggers then CatalogRequest
    else if f.text in s.qrisTriggers then QrisRequest
    else Chat
  }

  function RouteOf(s: Config.Settings, excluded: seq<string>, batch: seq<WAMessage>, upsertType: string): (r: Route)
    ensures r != Drop ==> Accepted(batch, upsertType) && PrivateChat(s, ChatJid(batch[0]))
    ensures IsOwnerRoute(r) <==> Accepted(batch, upsertType) && PrivateChat(s, ChatJid(batch[0])) && IsOwnerCommandText(LowerText(batch[0]))
  {
    RouteFor(s, FactsOf(s, excluded, batch, upsertType))
  }

  /** Every rule but the drops needs an accepted batch from a chat that passes the filters. */
  lemma RoutedOnlyPrivateChats(s: Config.Settings, f: Facts)
    requires RouteFor(s, f) != Drop
    ensures f.accepted && f.privateChat
  {
  }

  /** Owner commands come before the `fromMe` filter: the bot's own messages can run them. */
  lemma OwnerCommandsBeforeFromMe(s: Config.Settings, f: Facts, fromMe: bool)
    requires f.accepted && f.privateChat && IsOwnerCommandText(f.text)
    ensures IsOwnerRoute(RouteFor(s, f)) && RouteFor(s, f.(fromMe := fromMe)) == RouteFor(s, f)
  {
  }

  /** Flipping `fromMe` on a message flips only that fact. */
  lemma FromMeOnlyFlipsFromMe(s: Config.Settings, excluded: seq<string>, batch: seq<WAMessage>, upsertType: string, fromMe: bool)
    requires |batch| > 0
    ensures var other := [batch[0].(key := batch[0].key.(fromMe := fromMe))] + batch[1..];
      FactsOf(s, excluded, other, upsertType) == if Accepted(batch, upsertType) then FactsOf(s, excluded, batch, upsertType).(fromMe := fromMe)
                                               else FactsOf(s, excluded, batch, upsertType)
  {
    var other := [batch[0].(key := batch[0].key.(fromMe := fromMe))] + batch[1..];
    assert other[0] == batch[0].(key := batch[0].key.(fromMe := fromMe));
  }

  /** The bot's own messages reach nothing but the owner commands. */
  lemma FromMeOnlyOwnerCommands(s: Config.Settings, f: Facts)
    requires f.fromMe
    ensures RouteFor(s, f) == Drop || IsOwnerRoute(RouteFor(s, f))
  {
  }

  /** An excluded sender gets no handler but the owner commands, and the exclusion is logged. */
  lemma ExcludedSenderNotAnswered(s: Config.Settings, f: Facts)
    requires f.excluded
    ensures RouteFor(s, f) == Drop || RouteFor(s, f) == ExcludedSender || IsOwnerRoute(RouteFor(s, f))
    ensures f.accepted && f.privateChat && !f.fromMe && !IsOwnerCommandText(f.text) ==> RouteFor(s, f) == ExcludedSender
  {
  }

  /**
   * A text that is a trigger of both lists is a catalog request; a QRIS request's text is a QRIS
   * trigger and not a catalog one; a chat's text is neither, nor empty, nor an owner command; none
   * of the three comes from the bot itself or an excluded sender.
   */
  lemma TriggerPrecedence(s: Config.Settings, f: Facts)
    ensures var r := RouteFor(s, f);
      && (r == CatalogRequest <==> (&& f.accepted && f.privateChat && !IsOwnerCommandText(f.text) && !f.fromMe
                                    && !f.excluded && f.text != "" && f.text in s.catalogTriggers))
      && (r == QrisRequest ==> f.text in s.qrisTriggers && f.text !in s.catalogTriggers)
      && (r == Chat ==> f.text != "" && !IsOwnerCommandText(f.text) && f.text !in s.catalogTriggers && f.text !in s.qrisTriggers)
      && (r == CatalogRequest || r == QrisRequest || r == Chat ==> !f.fromMe && !f.excluded)
  {
    if IsOwnerCommandText(f.text) {
      assert f.text != "";
    }
  }

  /**
   * The log a routed batch leaves, given the results of the handlers it awaited in order; a
   * handler that threw leaves only what was logged before it was called.
   */
  function LogFor(route: Route, replies: seq<Reply>, number: string, t: string): (r: seq<LogLine>)
    ensures |r| <= 1
    ensures route == Drop ==> r == []
    ensures forall i :: 0 <= i < |r| ==> r[i].number == number && r[i].text == ShortText(t)
  {
    var line := (st: Status, detail: string) => [LogLine(number, ShortText(t), st, detail)];
    match route
    case Drop => []
    case SaveQrisCommand => line(OwnerCmd, "saveqris command")
    case ExcludeCommand =>
      if |replies| != 1 || replies[0] == Threw then []
      else if replies[0].Jid? then line(OwnerCmd, "excluded: " + replies[0].jid)
      else line(OwnerCmd, "exclude gagal")
    case UnexcludeCommand => line(OwnerCmd, "unexclude command")
    case ListExcludeCommand => line(OwnerCmd, "listexclude command")
    case ExcludedSender => line(Excluded, "excluded")
    case CatalogRequest =>
      if |replies| != 1 || replies[0] == Threw then []
      else if replies[0] == Yes then line(Sent, "catalog terkirim")
      else line(OnCooldown, "cooldown aktif (catalog)")
    case QrisRequest =>
      if |replies| != 1 || replies[0] == Threw then []
      else if replies[0] == Yes then line(Sent, "qris terkirim")
      else line(OnCooldown, "cooldown aktif (qris)")
    case Chat =>
      if |replies| == 0 || replies[0] == Threw then []
      else if replies[0] == Yes then line(Sent, "produk terkirim: " + t)
      else if replies[0] == Cooldown then line(OnCooldown, "cooldown aktif (" + t + ")")
      else if |replies| != 2 || replies[1] == Threw then []
      else if replies[1] == Yes then line(Sent, "thanks reply")
      else if replies[1] == Cooldown then line(OnCooldown, "cooldown aktif (thanks)")
      else line(NoMatch, "tidak dikenali")
  }

  /** The handler results a route can produce: which handlers run, and what each can return. */
  predicate RepliesFit(route: Route, replies: seq<Reply>) {
    match route
    case Drop => replies == []
    case ExcludedSender => replies == []
    case SaveQrisCommand => |replies| == 1 && replies[0] in {Yes, No, Threw}
    case ExcludeCommand => |replies| == 1 && (replies[0].Jid? || replies[0] in {No, Threw})
    case UnexcludeCommand => |replies| == 1 && replies[0] in {Yes, No, Threw}
    case ListExcludeCommand => |replies| == 1 && replies[0] in {Yes, No, Threw}
    case CatalogRequest => |replies| == 1 && replies[0] in {Yes, No, Threw}
    case QrisRequest => |replies| == 1 && replies[0] in {Yes, No, Threw}
    case Chat =>
      && 1 <= |replies| <= 2 && replies[0] in {Yes, No, Cooldown, Threw}
      && (|replies| == 2 <==> replies[0] == No)
      && (|replies| == 2 ==> replies[1] in {Yes, No, Cooldown, Threw})
  }

  /**
   * A routed batch whose handlers did not throw is logged exactly once, under the status its rule
   * gives: owner commands as owner_cmd, an excluded sender as excluded, a QRIS `false` (the
   * apology included) as cooldown; a dropped batch is not logged.
   */
  lemma ExactlyOneStatus(route: Route, replies: seq<Reply>, number: string, t: string)
    requires RepliesFit(route, replies) && Threw !in replies
    ensures route == Drop <==> LogFor(route, replies, number, t) == []
    ensures route != Drop ==> |LogFor(route, replies, number, t)| == 1
    ensures var log := LogFor(route, replies, number, t);
      && (IsOwnerRoute(route) ==> log[0].status == OwnerCmd)
      && (route == ExcludedSender ==> log[0].status == Excluded)
      && (route == QrisRequest ==> (log[0].status == Sent <==> replies[0] == Yes)
                                   && (log[0].status == OnCooldown <==> replies[0] == No))
      && (route == CatalogRequest ==> log[0].status in {Sent, OnCooldown})
      && (route == Chat ==> log[0].status in {Sent, OnCooldown, NoMatch})
      && (route == Chat ==> (log[0].status == NoMatch <==> replies == [No, No]))
  {
    if route == Chat && replies[0] == No {
      assert replies[1] in {Yes, No, Cooldown};
    }
  }

  /** A handler that throws ends the batch unlogged, except where the line was written before the call. */
  lemma ThrowLeavesOnlyEarlyLog(route: Route, replies: seq<Reply>, number: string, t: string)
    requires RepliesFit(route, replies) && Threw in replies
    ensures var log := LogFor(route, replies, number, t);
      (route.SaveQrisCommand? || route.UnexcludeCommand? || route.ListExcludeCommand?) <==> log != []
  {
    if route == Chat {
      assert replies[0] == Threw || (|replies| == 2 && replies[1] == Threw);
    }
  }

  /**
   * What a catalog request sends and stamps: nothing on cooldown; otherwise the catalog text to the
   * chat, and the `cmd:catalog` stamp at `sentAt` only when that send went through.
   */
  predicate CatalogSends(executed: seq<SendQueue.Job>, executed': seq<SendQueue.Job>,
                         data: Cooldown.Stamps, data': Cooldown.Stamps, jid: string, w: World, reply: Reply) {
    var job := SendQueue.Job(jid, SendQueue.Text(CatalogHandler.GetCatalogText(w.env)));
    if reply == No then executed' == executed && data' == data
    else
      && executed' == executed + [job]
      && data' == if reply == Yes then Cooldown.Stamp(data, jid, Cooldown.CommandKey(C.CatalogKey), w.sentAt) else data
  }

  /** The state one batch can touch. */
  class Bot {
    const store: Cooldown.Store
    const q: SendQueue.Queue
    const cache: Cache.QrisCache
    const gate: QrisHandler.MediaGate
    const catalog: Products.Catalog
    const excludes: ExcludeHandler.RuntimeExcludes
    const settings: Config.Settings

    ghost predicate Valid()
      reads this, store, q, excludes
    {
      store.Valid() && q.Valid() && q.AtRest() && excludes.Valid()
    }

    constructor (store: Cooldown.Store, q: SendQueue.Queue, cache: Cache.QrisCache, gate: QrisHandler.MediaGate,
                 catalog: Products.Catalog, excludes: ExcludeHandler.RuntimeExcludes, settings: Config.Settings)
      ensures this.store == store && this.q == q && this.cache == cache && this.gate == gate
      ensures this.catalog == catalog && this.excludes == excludes && this.settings == settings
    {
      this.store := store;
      this.q := q;
      this.cache := cache;
      this.gate := gate;
      this.catalog := catalog;
      this.excludes := excludes;
      this.settings := settings;
    }

    /**
     * The product rule, then the thanks rule when no product was chosen; `replies` holds what
     * each returned.
     */
    method RunChat(jid: string, t: string, w: World) returns (replies: seq<Reply>)
      requires Valid()
      modifies store, q
      ensures Valid() && RepliesFit(Chat, replies)
      ensures var choice := ProductHandler.ChooseProduct(catalog.products, catalog.pattern, t);
        && (replies[0] == No <==> choice.None?)
        && (replies[0] == Cooldown <==> choice.Some? && !old(store.CanSendProduct(jid, choice.value.mainKey, w.now)))
        && (|replies| == 2 ==> (replies[1] == No <==> !ThanksHandler.ContainsThanksTrigger(settings.thanksTriggers, t)))
      ensures (|replies| == 2 && replies[1] == No) || replies[0] == Cooldown ==>
        q.executed == old(q.executed) && store.data == old(store.data)
    {
      var r := ProductHandler.HandleProduct(store, q, catalog, jid, t, w.net, w.now, w.sentAt);
      if r != No {
        return [r];
      }
      var r2 := ThanksHandler.HandleThanks(store, q, settings.thanksTriggers, settings.thanksReply,
                                           settings.thanksCooldownMs, jid, t, w.net, w.now, w.sentAt);
      return [r, r2];
    }

    /** The four owner commands, answered in the chat whatever the sender. */
    method RunOwnerCommand(route: Route, m: WAMessage, jid: string, w: World) returns (reply: Reply)
      requires Valid() && IsOwnerRoute(route)
      modifies q, cache`template, cache`written, excludes
      ensures Valid() && RepliesFit(route, [reply])
      ensures !route.SaveQrisCommand? ==> cache.template == old(cache.template) && cache.written == old(cache.written)
      ensures route.SaveQrisCommand? || route.ListExcludeCommand? ==>
        excludes.jids == old(excludes.jids) && excludes.written == old(excludes.written)
      ensures !SaveQrisHandler.IsOwnerMessage(settings, m.key, w.sockUserId) ==>
        reply in {No, Threw} && excludes.jids == old(excludes.jids) && cache.template == old(cache.template)
      ensures route.ExcludeCommand? && reply.Jid? ==>
        excludes.IsRuntimeExcluded(reply.jid) && Some(reply.jid) == ExcludeHandler.QuotedSenderJid(m.message)
    {
      match route {
        case SaveQrisCommand =>
          reply := SaveQrisHandler.HandleSaveQris(cache, q, settings, m, w.sockUserId, jid, w.net, w.writeOk);
        case ExcludeCommand =>
          reply := RunExclude(m, jid, w);
        case UnexcludeCommand =>
          reply := RunUnexclude(m, jid, w);
        case ListExcludeCommand =>
          reply := ExcludeHandler.HandleListExclude(excludes, q, settings, m, w.sockUserId, jid, w.net);
      }
    }

    /** The exclude command, seen from the dispatcher. */
    method RunExclude(m: WAMessage, jid: string, w: World) returns (reply: Reply)
      requires Valid()
      modifies q, excludes
      ensures Valid() && (reply.Jid? || reply == No || reply == Threw)
      ensures reply.Jid? ==> excludes.IsRuntimeExcluded(reply.jid) && Some(reply.jid) == ExcludeHandler.QuotedSenderJid(m.message)
      ensures !SaveQrisHandler.IsOwnerMessage(settings, m.key, w.sockUserId) ==> (reply == No || reply == Threw) && excludes.jids == old(excludes.jids)
    {
      reply := ExcludeHandler.HandleExclude(excludes, q, settings, m, w.sockUserId, jid, w.net, w.writeOk);
    }

    /** The unexclude command, seen from the dispatcher. */
    method RunUnexclude(m: WAMessage, jid: string, w: World) returns (reply: Reply)
      requires Valid()
      modifies q, excludes
      ensures Valid() && (reply == Yes || reply == No || reply == Threw)
      ensures !SaveQrisHandler.IsOwnerMessage(settings, m.key, w.sockUserId) ==> (reply == No || reply == Threw) && excludes.jids == old(excludes.jids)
    {
      reply := ExcludeHandler.HandleUnexclude(excludes, q, settings, m, w.sockUserId, jid, w.net, w.writeOk);
    }

    /**
     * The handler a routed batch reaches, answering in chat `jid` to text `t`; `replies` holds what
     * it returned (the product rule and then the thanks rule for a chat).
     */
    method RunRoute(route: Route, m: WAMessage, jid: string, t: string, w: World) returns (replies: seq<Reply>)
      requires Valid() && route != Drop && route != ExcludedSender
      modifies store, q, cache, gate, excludes
      ensures Valid() && RepliesFit(route, replies)
      ensures !IsOwnerRoute(route) ==>
        excludes.jids == old(excludes.jids) && cache.template == old(cache.template) && cache.written == old(cache.written)
      ensures !route.QrisRequest? ==> gate.lastMediaAt == old(gate.lastMediaAt) && cache.imageBuffer == old(cache.imageBuffer)
      ensures IsOwnerRoute(route) ==> store.data == old(store.data)
      ensures route == CatalogRequest ==>
        (replies[0] == No <==> !old(store.CanSendCommand(jid, C.CatalogKey, settings.menuCooldownMs, w.now)))
      ensures route == CatalogRequest ==> CatalogSends(old(q.executed), q.executed, old(store.data), store.data, jid, w, replies[0])
      ensures route == QrisRequest ==>
        if !old(store.CanSendCommand(jid, C.QrisKey, settings.qrisCooldownMs, w.now)) then replies == [No]
        else replies == [QrisHandler.Outcome(QrisHandler.RelayJob(old(cache.template), jid),
                                             QrisHandler.ImageJob(QrisHandler.BufferAfter(old(cache.imageBuffer), w.imageFile),
                                                                  jid, settings.qrisImageCaption),
                                             jid, w.net)]
    {
      if IsOwnerRoute(route) {
        var r := RunOwnerCommand(route, m, jid, w);
        replies := [r];
      } else if route == CatalogRequest {
        var r := CatalogHandler.HandleCatalog(store, q, w.env, settings.menuCooldownMs, jid, w.net, w.now, w.sentAt);
        replies := [r];
      } else if route == QrisRequest {
        var r, _ := QrisHandler.HandleQris(store, q, cache, gate, settings.qrisCooldownMs, settings.globalQrisMediaGapMs,
                                           settings.qrisImageCaption, jid, w.imageFile, w.net, w.now, w.sentAt);
        replies := [r];
      } else {
        replies := RunChat(jid, t, w);
      }
    }

    /**
     * handleMessage on one batch. The route is the rule chain's; the handler results are
     * `replies`, the log is what `LogFor` says of them, and `errored` (the catch) is whether a
     * handler threw. A dropped batch or an excluded sender changes nothing; only the owner
     * commands touch the exclusion list and the saved template, only QRIS the media gap, and
     * the cooldown stamps move only for the catalog, QRIS and chat rules.
     */
    method HandleMessage(batch: seq<WAMessage>, upsertType: string, w: World)
      returns (route: Route, replies: seq<Reply>, log: seq<LogLine>, errored: bool)
      requires Valid()
      modifies store, q, cache, gate, excludes
      ensures Valid()
      ensures route == RouteOf(settings, old(excludes.jids), batch, upsertType)
      ensures RepliesFit(route, replies) && (errored <==> Threw in replies)
      ensures route != Drop ==> log == LogFor(route, replies, LogNumber(batch[0]), LowerText(batch[0]))
      ensures route == Drop ==> log == []
      ensures route == Drop || route == ExcludedSender ==>
        && q.executed == old(q.executed) && store.data == old(store.data)
        && excludes.jids == old(excludes.jids) && cache.template == old(cache.template)
        && gate.lastMediaAt == old(gate.lastMediaAt) && cache.imageBuffer == old(cache.imageBuffer)
      ensures !IsOwnerRoute(route) ==>
        excludes.jids == old(excludes.jids) && cache.template == old(cache.template) && cache.written == old(cache.written)
      ensures !route.QrisRequest? ==> gate.lastMediaAt == old(gate.lastMediaAt) && cache.imageBuffer == old(cache.imageBuffer)
      ensures IsOwnerRoute(route) ==> store.data == old(store.data)
      ensures route == CatalogRequest ==>
        (replies[0] == No <==> !old(store.CanSendCommand(ChatJid(batch[0]), C.CatalogKey, settings.menuCooldownMs, w.now)))
      ensures route == CatalogRequest ==>
        CatalogSends(old(q.executed), q.executed, old(store.data), store.data, ChatJid(batch[0]), w, replies[0])
      ensures route == QrisRequest ==> var jid := ChatJid(batch[0]);
        if !old(store.CanSendCommand(jid, C.QrisKey, settings.qrisCooldownMs, w.now)) then replies == [No]
        else replies == [QrisHandler.Outcome(QrisHandler.RelayJob(old(cache.template), jid),
                                             QrisHandler.ImageJob(QrisHandler.BufferAfter(old(cache.imageBuffer), w.imageFile),
                                                                  jid, settings.qrisImageCaption),
                                             jid, w.net)]
    {
      route := RouteOf(settings, excludes.jids, batch, upsertType);
      replies, log, errored := [], [], false;
      if route == Drop {
        return;
      }
      var m := batch[0];
      if route == ExcludedSender {
        log := LogFor(route, replies, LogNumber(m), LowerText(m));
        return;
      }
      var t := LowerText(m);
      replies := RunRoute(route, m, ChatJid(m), t, w);
      log := LogFor(route, replies, LogNumber(m), t);
      errored := Threw in replies;
    }
  }
}
