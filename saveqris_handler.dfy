/**
 * The owner check and the `saveqris` command (src/handlers/saveqrisHandler.js): an owner replies
 * to a QRIS catalog message and the bot keeps that message as the template it relays later.
 */
module SaveQrisHandler {
  import opened Wrappers
  import opened Replies
  import opened Messages
  import Config
  import Utils
  import Cache
  import SendQueue

  const NotOwnerText := "\U{274C} Kamu bukan OWNER.\n\nSolusi cepat:\n1) Isi OWNER_NUMBERS dan OWNER_JIDS di .env\n2) OWNER_JIDS ambil dari log myPN & myLID\n"
  const NoCatalogText := "\U{274C} Tidak ketemu pesan katalog.\n\nCara benar:\n1) Reply pesan katalog QRIS yang bisa diklik\n2) ketik: *saveqris*"
  const SavedText := "\U{2705} Berhasil! Template katalog QRIS tersimpan."

  /** The sender's chat or participant, normalised, is a configured owner JID. */
  predicate ByOwnerJid(s: Config.Settings, remote: string, participant: string) {
    s.ownerJidsRaw != [] && (remote in s.ownerJidsNormalized || participant in s.ownerJidsNormalized)
  }

  /** The sender's chat or participant is the bot's own account. */
  predicate BySelf(myId: string, remote: string, participant: string) {
    myId != "" && (remote == myId || participant == myId)
  }

  /** The normalised number of a JID, as compared with OWNER_NUMBERS. */
  function NumberOf(jid: string): string {
    Utils.NormalizeIndoNumberDigits(Utils.DigitsFromJid(jid))
  }

  /**
   * isOwnerMessage as written: the last test compares the senders' numbers with the owner numbers
   * even when a side has no digits at all, and an owner entry without digits normalises to "".
   */
  function IsOwnerMessageAsWritten(s: Config.Settings, key: MessageKey, sockUserId: string): (r: bool)
    ensures key.fromMe || s.ownerNumbersRaw == [] ==> r
  {
    var remote := Utils.NormalizeJidForCompare(key.remoteJid);
    var participant := Utils.NormalizeJidForCompare(key.participant);
    var myId := Utils.NormalizeJidForCompare(sockUserId);
    || key.fromMe || ByOwnerJid(s, remote, participant) || BySelf(myId, remote, participant)
    || s.ownerNumbersRaw == []
    || NumberOf(remote) in s.ownerNumbersNormalized || NumberOf(participant) in s.ownerNumbersNormalized
  }

  /**
   * The discrepancy: one OWNER_NUMBERS entry without digits (such as a stray "+" or a word) makes
   * every message without a participant, that is every private chat, an owner's message.
   */
  lemma NoDigitEntryAdmitsEveryone(s: Config.Settings, key: MessageKey, sockUserId: string)
    requires s.ownerNumbersRaw != [] && "" in s.ownerNumbersNormalized && key.participant == ""
    ensures IsOwnerMessageAsWritten(s, key, sockUserId)
  {
    assert Utils.DigitsFromJid("") == "" by {
      assert Utils.NormalizeJidForCompare("") == "";
    }
  }

  /**
   * isOwnerMessage, with a number matching only when it has digits: `fromMe`, an owner JID, the
   * bot's own account, or (with owner numbers configured) a sender whose number is one of them;
   * with no owner numbers configured, everyone.
   */
  function IsOwnerMessage(s: Config.Settings, key: MessageKey, sockUserId: string): (r: bool)
    ensures key.fromMe || s.ownerNumbersRaw == [] ==> r
  {
    var remote := Utils.NormalizeJidForCompare(key.remoteJid);
    var participant := Utils.NormalizeJidForCompare(key.participant);
    var myId := Utils.NormalizeJidForCompare(sockUserId);
    var rd, pd := NumberOf(remote), NumberOf(participant);
    || key.fromMe || ByOwnerJid(s, remote, participant) || BySelf(myId, remote, participant)
    || s.ownerNumbersRaw == []
    || (rd != "" && rd in s.ownerNumbersNormalized) || (pd != "" && pd in s.ownerNumbersNormalized)
  }

  /** The cases of the corrected owner check, in the order the source tries them. */
  lemma OwnerMessageCases(s: Config.Settings, key: MessageKey, sockUserId: string)
    ensures var r := IsOwnerMessage(s, key, sockUserId);
      var remote, participant := Utils.NormalizeJidForCompare(key.remoteJid), Utils.NormalizeJidForCompare(key.participant);
      && (key.fromMe ==> r)
      && (ByOwnerJid(s, remote, participant) ==> r)
      && (BySelf(Utils.NormalizeJidForCompare(sockUserId), remote, participant) ==> r)
      && (s.ownerNumbersRaw == [] ==> r)
      && (!key.fromMe && !ByOwnerJid(s, remote, participant) && !BySelf(Utils.NormalizeJidForCompare(sockUserId), remote, participant)
          && s.ownerNumbersRaw != [] ==>
            (r <==> exists n :: n in s.ownerNumbersNormalized && n != "" && (n == NumberOf(remote) || n == NumberOf(participant))))
  {
  }

  /** The corrected check admits nobody the written one rejects. */
  lemma CorrectedCheckStricter(s: Config.Settings, key: MessageKey, sockUserId: string)
    ensures IsOwnerMessage(s, key, sockUserId) ==> IsOwnerMessageAsWritten(s, key, sockUserId)
  {
  }

  /** The corrected check differs from the written one only where a number without digits matched. */
  lemma OwnerChecksAgreeOnDigits(s: Config.Settings, key: MessageKey, sockUserId: string)
    requires "" !in s.ownerNumbersNormalized
    ensures IsOwnerMessage(s, key, sockUserId) == IsOwnerMessageAsWritten(s, key, sockUserId)
  {
  }

  /** Owner numbers with no digits in them admit nobody by number in the corrected check. */
  lemma NoDigitEntryAdmitsNobody(s: Config.Settings, key: MessageKey, sockUserId: string)
    requires forall i :: 0 <= i < |s.ownerNumbersNormalized| ==> s.ownerNumbersNormalized[i] == ""
    requires !key.fromMe && s.ownerNumbersRaw != []
    requires !ByOwnerJid(s, Utils.NormalizeJidForCompare(key.remoteJid), Utils.NormalizeJidForCompare(key.participant))
    requires !BySelf(Utils.NormalizeJidForCompare(sockUserId), Utils.NormalizeJidForCompare(key.remoteJid), Utils.NormalizeJidForCompare(key.participant))
    ensures !IsOwnerMessage(s, key, sockUserId)
  {
  }

  /**
   * handleSaveQris. A non-owner gets the rejection and nothing is saved; an owner whose message
   * neither is nor quotes a product message gets the hint and nothing is saved; otherwise the
   * found message is written to the template file and then becomes the cached template, and the
   * confirmation is sent. A failed write throws before anything is sent or cached.
   */
  method HandleSaveQris(cache: Cache.QrisCache, q: SendQueue.Queue, s: Config.Settings, msg: WAMessage,
                        sockUserId: string, jid: string, net: SendQueue.Job -> bool, writeOk: bool) returns (r: Reply)
    requires q.Valid() && q.AtRest()
    modifies cache`template, cache`written, q
    ensures q.Valid() && q.AtRest()
    ensures r == Yes || r == No || r == Threw
    ensures !IsOwnerMessage(s, msg.key, sockUserId) ==> (r == No || r == Threw) && cache.template == old(cache.template)
    ensures var found := Cache.FindProductMessageAny(msg.message);
      if !IsOwnerMessage(s, msg.key, sockUserId) || found.None? then
        var job := SendQueue.Job(jid, SendQueue.Text(if !IsOwnerMessage(s, msg.key, sockUserId) then NotOwnerText else NoCatalogText));
        && q.executed == old(q.executed) + [job]
        && r == (if net(job) then No else Threw)
        && cache.template == old(cache.template) && cache.written == old(cache.written)
      else if !writeOk then
        r == Threw && q.executed == old(q.executed)
        && cache.template == old(cache.template) && cache.written == old(cache.written)
      else
        var job := SendQueue.Job(jid, SendQueue.Text(SavedText));
        && cache.template == found && cache.written == old(cache.written) + [found.value]
        && q.executed == old(q.executed) + [job]
        && r == (if net(job) then Yes else Threw)
  {
    if !IsOwnerMessage(s, msg.key, sockUserId) {
      var ok := q.Await(SendQueue.Job(jid, SendQueue.Text(NotOwnerText)), net);
      return if ok then No else Threw;
    }
    var found := Cache.FindProductMessageAny(msg.message);
    if found.None? {
      var ok := q.Await(SendQueue.Job(jid, SendQueue.Text(NoCatalogText)), net);
      return if ok then No else Threw;
    }
    var saved := cache.SaveQrisTemplate(found.value, writeOk);
    if !saved {
      return Threw;
    }
    var ok := q.Await(SendQueue.Job(jid, SendQueue.Text(SavedText)), net);
    return if ok then Yes else Threw;
  }
}
