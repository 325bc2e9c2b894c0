/**
 * The runtime exclusion list (src/handlers/excludeHandler.js): the owner replies to a message and
 * types `exclude`, `unexclude` or `listexclude`. The list is a JavaScript `Set`, kept here as a
 * sequence without repetitions in insertion order, the order the list command shows.
 */
module ExcludeHandler {
  import opened Strings
  import opened Wrappers
  import opened Replies
  import opened Messages
  import Config
  import SendQueue
  import Products
  import SaveQrisHandler

  // The source file's replies carry emoji mis-decoded once (UTF-8 read as Windows-1252); the
  // characters below are the ones it holds.
  const Cross := "\U{00E2}\U{0152}"
  const Check := "\U{00E2}\U{0153}\U{2026}"
  const Clipboard := "\U{00F0}\U{0178}\U{201C}\U{2039}"

  const NotOwnerExcludeText := Cross + " Kamu bukan OWNER. Hanya owner yang bisa exclude nomor."
  const NoReplyExcludeText := Cross + " Tidak ada pesan yang di-reply.\n\n*Cara pakai:*\n1) Reply pesan dari nomor yang mau di-exclude\n2) Ketik: *exclude*"
  const NotOwnerText := Cross + " Kamu bukan OWNER."
  const NoReplyUnexcludeText := Cross + " Reply pesan dari nomor yang mau di-unexclude."
  const EmptyListText := Clipboard + " *Daftar Exclude (Runtime)*\n\n_Belum ada nomor yang di-exclude._\n\nReply pesan + ketik *exclude* untuk menambah."
  const ListHeader := Clipboard + " *Daftar Exclude (Runtime)*\n\n"

  const ExcludedHead := Check + " Berhasil exclude!\n\n*JID:* "
  const ExcludedTail := "\n\nNomor ini tidak akan dibalas bot lagi.\nKetik *listexclude* untuk lihat daftar."

  function ExcludedText(quoted: string): string {
    ExcludedHead + quoted + ExcludedTail
  }

  function NotListedText(quoted: string): string {
    Cross + " JID tidak ada di daftar exclude:\n" + quoted
  }

  function UnexcludedText(quoted: string): string {
    Check + " Berhasil unexclude!\n\n*JID:* " + quoted
  }

  /** `runtime_exclude.json` as loadRuntimeExcludes finds it. */
  datatype ExcludeFile = Missing | Corrupt | Parsed(excludedJids: seq<string>)

  /** `Set.prototype.delete` on the list: `x` goes, everything else stays in its order. */
  function Without(s: seq<string>, x: string): (r: seq<string>)
    ensures forall y :: y in r <==> y in s && y != x
    ensures Products.NoDup(s) ==> Products.NoDup(r)
    ensures x !in s ==> r == s
    ensures |r| <= |s|
    decreases |s|
  {
    if s == [] then []
    else
      var rest := Without(s[1..], x);
      assert forall y :: y in s <==> y == s[0] || y in s[1..];
      assert Products.NoDup(s) ==> Products.NoDup(s[1..]) && s[0] !in s[1..] by {
        if Products.NoDup(s) {
          forall j | 0 <= j < |s[1..]|
            ensures s[1..][j] != s[0]
          {
            assert s[1..][j] == s[j + 1];
          }
        }
      }
      if s[0] == x then rest else [s[0]] + rest
  }

  /** `contextInfo` of the replied-to message. */
  function ContextOf(message: Option<Content>): Option<ContextInfo> {
    if message.Some? && message.value.extendedText.Some? then message.value.extendedText.value.contextInfo else None
  }

  /** getQuotedSenderJid: the quoted participant, else the quoted chat, else nothing. */
  function QuotedSenderJid(message: Option<Content>): (r: Option<string>)
    ensures r.Some? ==> r.value != ""
    ensures r.None? <==> ContextOf(message).None? || (ContextOf(message).value.participant == "" && ContextOf(message).value.remoteJid == "")
    ensures r.Some? ==> r.value == ContextOf(message).value.participant || r.value == ContextOf(message).value.remoteJid
    ensures ContextOf(message).Some? && ContextOf(message).value.participant != "" ==> r == Some(ContextOf(message).value.participant)
  {
    var ctx := ContextOf(message);
    if ctx.Some? && ctx.value.participant != "" then Some(ctx.value.participant)
    else if ctx.Some? && ctx.value.remoteJid != "" then Some(ctx.value.remoteJid)
    else None
  }

  /** `list.map((j, i) => `${i + 1}. ${j}`)`. */
  function NumberedLines(jids: seq<string>): (lines: seq<string>)
    ensures |lines| == |jids|
  {
    seq(|jids|, i requires 0 <= i < |jids| => Decimal(i + 1) + ". " + jids[i])
  }

  /** The numbered lines, one per line. */
  function ListBlock(jids: seq<string>): string {
    Join(NumberedLines(jids), '\n')
  }

  /** The listexclude reply: the placeholder for an empty list, else the numbered lines and the total. */
  function ListText(jids: seq<string>): (r: string)
    ensures jids != [] ==> StartsWith(r, ListHeader) && EndsWith(r, " nomor_")
  {
    if |jids| == 0 then EmptyListText
    else ListHeader + ListBlock(jids) + "\n\n_Total: " + Decimal(|jids|) + " nomor_"
  }

  /**
   * The block of the list reply reads back as one line per member, in the list's order, numbered
   * from 1; JIDs hold no line breaks.
   */
  lemma ListBlockReadsBack(jids: seq<string>)
    requires |jids| > 0 && forall i :: 0 <= i < |jids| ==> '\n' !in jids[i]
    ensures |Split(ListBlock(jids), '\n')| == |jids|
    ensures forall i :: 0 <= i < |jids| ==> Split(ListBlock(jids), '\n')[i] == Decimal(i + 1) + ". " + jids[i]
  {
    var lines := NumberedLines(jids);
    forall i | 0 <= i < |lines|
      ensures '\n' !in lines[i]
    {
      var d := Decimal(i + 1);
      assert lines[i] == d + ". " + jids[i];
      assert '\n' !in d;
    }
    SplitJoin(lines, '\n');
  }

  /** The module's `runtimeExcludedJids`; `written` lists the snapshots saved to the file, in order. */
  class RuntimeExcludes {
    var jids: seq<string>
    ghost var written: seq<seq<string>>

    /** A set: no member twice. */
    predicate Valid()
      reads this
    {
      Products.NoDup(jids)
    }

    constructor ()
      ensures Valid() && jids == [] && written == []
    {
      jids := [];
      written := [];
    }

    /** isRuntimeExcluded: `Set.prototype.has`, exact string comparison. */
    predicate IsRuntimeExcluded(jid: string): (r: bool)
      reads this
      ensures r <==> jid in jids
    {
      jid in jids
    }

    /** loadRuntimeExcludes: a missing file keeps the list, a bad one empties it, a parsed one replaces it. */
    method Load(file: ExcludeFile)
      requires Valid()
      modifies `jids
      ensures Valid()
      ensures file.Missing? ==> jids == old(jids)
      ensures file.Corrupt? ==> jids == []
      ensures file.Parsed? ==> jids == Products.Dedupe(file.excludedJids)
    {
      match file {
        case Missing =>
        case Corrupt => jids := [];
        case Parsed(xs) => jids := Products.Dedupe(xs);
      }
    }

    /** saveRuntimeExcludes: a failed write is dropped. */
    method Save(writeOk: bool)
      modifies `written
      ensures written == old(written) + (if writeOk then [jids] else [])
    {
      if writeOk {
        written := written + [jids];
      }
    }

    /** `Set.prototype.add`: a new member goes last, an old one stays where it is. */
    method Add(jid: string)
      requires Valid()
      modifies `jids
      ensures Valid() && IsRuntimeExcluded(jid)
      ensures jids == if jid in old(jids) then old(jids) else old(jids) + [jid]
    {
      if jid !in jids {
        jids := jids + [jid];
      }
    }

    /** `Set.prototype.delete`. */
    method Delete(jid: string)
      requires Valid()
      modifies `jids
      ensures Valid() && !IsRuntimeExcluded(jid)
      ensures jids == Without(old(jids), jid)
    {
      jids := Without(jids, jid);
    }
  }

  /**
   * handleExcludeCommand. A non-owner, or an owner who replied to nothing, gets the matching
   * reply, the list unchanged, and `false`. Otherwise the raw quoted sender joins the list, the
   * list is saved, the confirmation is sent, and the JID is returned.
   */
  method HandleExclude(ex: RuntimeExcludes, q: SendQueue.Queue, s: Config.Settings, msg: WAMessage, sockUserId: string,
                       jid: string, net: SendQueue.Job -> bool, writeOk: bool) returns (r: Reply)
    requires ex.Valid() && q.Valid() && q.AtRest()
    modifies ex, q
    ensures ex.Valid() && q.Valid() && q.AtRest()
    ensures r.Jid? || r == No || r == Threw
    ensures r.Jid? ==> ex.IsRuntimeExcluded(r.jid) && Some(r.jid) == QuotedSenderJid(msg.message)
    ensures !SaveQrisHandler.IsOwnerMessage(s, msg.key, sockUserId) ==> (r == No || r == Threw) && ex.jids == old(ex.jids)
    ensures var owner, quoted := SaveQrisHandler.IsOwnerMessage(s, msg.key, sockUserId), QuotedSenderJid(msg.message);
      if !owner || quoted.None? then
        var job := SendQueue.Job(jid, SendQueue.Text(if !owner then NotOwnerExcludeText else NoReplyExcludeText));
        && q.executed == old(q.executed) + [job] && r == (if net(job) then No else Threw)
        && ex.jids == old(ex.jids) && ex.written == old(ex.written)
      else
        var job := SendQueue.Job(jid, SendQueue.Text(ExcludedText(quoted.value)));
        && ex.jids == (if quoted.value in old(ex.jids) then old(ex.jids) else old(ex.jids) + [quoted.value])
        && ex.IsRuntimeExcluded(quoted.value)
        && ex.written == old(ex.written) + (if writeOk then [ex.jids] else [])
        && q.executed == old(q.executed) + [job] && r == (if net(job) then Jid(quoted.value) else Threw)
  {
    var owner := SaveQrisHandler.IsOwnerMessage(s, msg.key, sockUserId);
    if !owner {
      var ok := q.Await(SendQueue.Job(jid, SendQueue.Text(NotOwnerExcludeText)), net);
      return if ok then No else Threw;
    }
    var quoted := QuotedSenderJid(msg.message);
    if quoted.None? {
      var ok := q.Await(SendQueue.Job(jid, SendQueue.Text(NoReplyExcludeText)), net);
      return if ok then No else Threw;
    }
    ex.Add(quoted.value);
    ex.Save(writeOk);
    var ok := q.Await(SendQueue.Job(jid, SendQueue.Text(ExcludedText(quoted.value))), net);
    return if ok then Jid(quoted.value) else Threw;
  }

  /**
   * handleUnexcludeCommand. A non-owner, a reply to nothing, or a sender not on the list gets the
   * matching reply, the list unchanged, and `false`. Otherwise exactly that JID leaves the list,
   * the list is saved and the confirmation sent.
   */
  method HandleUnexclude(ex: RuntimeExcludes, q: SendQueue.Queue, s: Config.Settings, msg: WAMessage, sockUserId: string,
                         jid: string, net: SendQueue.Job -> bool, writeOk: bool) returns (r: Reply)
    requires ex.Valid() && q.Valid() && q.AtRest()
    modifies ex, q
    ensures ex.Valid() && q.Valid() && q.AtRest()
    ensures r == Yes || r == No || r == Threw
    ensures !SaveQrisHandler.IsOwnerMessage(s, msg.key, sockUserId) ==> (r == No || r == Threw) && ex.jids == old(ex.jids)
    ensures var owner, quoted := SaveQrisHandler.IsOwnerMessage(s, msg.key, sockUserId), QuotedSenderJid(msg.message);
      if !owner || quoted.None? || quoted.value !in old(ex.jids) then
        var text := if !owner then NotOwnerText else if quoted.None? then NoReplyUnexcludeText else NotListedText(quoted.value);
        var job := SendQueue.Job(jid, SendQueue.Text(text));
        && q.executed == old(q.executed) + [job] && r == (if net(job) then No else Threw)
        && ex.jids == old(ex.jids) && ex.written == old(ex.written)
      else
        var job := SendQueue.Job(jid, SendQueue.Text(UnexcludedText(quoted.value)));
        && ex.jids == Without(old(ex.jids), quoted.value) && !ex.IsRuntimeExcluded(quoted.value)
        && |ex.jids| == |old(ex.jids)| - 1
        && ex.written == old(ex.written) + (if writeOk then [ex.jids] else [])
        && q.executed == old(q.executed) + [job] && r == (if net(job) then Yes else Threw)
  {
    var owner := SaveQrisHandler.IsOwnerMessage(s, msg.key, sockUserId);
    if !owner {
      var ok := q.Await(SendQueue.Job(jid, SendQueue.Text(NotOwnerText)), net);
      return if ok then No else Threw;
    }
    var quoted := QuotedSenderJid(msg.message);
    if quoted.None? {
      var ok := q.Await(SendQueue.Job(jid, SendQueue.Text(NoReplyUnexcludeText)), net);
      return if ok then No else Threw;
    }
    if !ex.IsRuntimeExcluded(quoted.value) {
      var ok := q.Await(SendQueue.Job(jid, SendQueue.Text(NotListedText(quoted.value))), net);
      return if ok then No else Threw;
    }
    WithoutMember(ex.jids, quoted.value);
    ex.Delete(quoted.value);
    ex.Save(writeOk);
    var ok := q.Await(SendQueue.Job(jid, SendQueue.Text(UnexcludedText(quoted.value))), net);
    return if ok then Yes else Threw;
  }

  /** Deleting a member of a list without repetitions shortens it by one. */
  lemma {:induction false} WithoutMember(s: seq<string>, x: string)
    requires Products.NoDup(s) && x in s
    ensures |Without(s, x)| == |s| - 1
    decreases |s|
  {
    if s[0] != x {
      assert x in s[1..];
      WithoutMember(s[1..], x);
    } else {
      assert x !in s[1..];
    }
  }

  /**
   * handleListExcludeCommand: a non-owner gets the rejection and `false`; an owner gets the list
   * as it stands (the placeholder when it is empty) and `true`. The list is never changed.
   */
  method HandleListExclude(ex: RuntimeExcludes, q: SendQueue.Queue, s: Config.Settings, msg: WAMessage, sockUserId: string,
                           jid: string, net: SendQueue.Job -> bool) returns (r: Reply)
    requires q.Valid() && q.AtRest()
    modifies q
    ensures q.Valid() && q.AtRest()
    ensures r == Yes || r == No || r == Threw
    ensures !SaveQrisHandler.IsOwnerMessage(s, msg.key, sockUserId) ==> r == No || r == Threw
    ensures var owner := SaveQrisHandler.IsOwnerMessage(s, msg.key, sockUserId);
      var job := SendQueue.Job(jid, SendQueue.Text(if owner then ListText(ex.jids) else NotOwnerText));
      && q.executed == old(q.executed) + [job]
      && r == (if !net(job) then Threw else if owner then Yes else No)
  {
    var owner := SaveQrisHandler.IsOwnerMessage(s, msg.key, sockUserId);
    var ok := q.Await(SendQueue.Job(jid, SendQueue.Text(if owner then ListText(ex.jids) else NotOwnerText)), net);
    return if !ok then Threw else if owner then Yes else No;
  }
}
