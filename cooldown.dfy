/**
 * The per-chat cooldown store (src/cooldown.js): for every JID, the time of the last send of each
 * command (`cmd:<name>`) and each product (`prod:<mainKey>`), persisted by a debounced write.
 * Clock readings (`Date.now()`) are parameters; the debounce timer firing is an explicit step.
 */
module Cooldown {

  /** `cooldownData`: JID to prefixed key to the millisecond timestamp of the last send. */
  type Stamps = map<string, map<string, int>>

  /** `(cooldownData[jid] || {})[key] || 0`: the last send time, `0` when there is none. */
  function Last(data: Stamps, jid: string, key: string): int {
    if jid in data && key in data[jid] then data[jid][key] else 0
  }

  /** The decision of canSendCommand/canSendProduct: no record, or the cooldown has run out. */
  predicate CanSend(data: Stamps, jid: string, key: string, cooldownMs: int, now: int): (ok: bool)
    ensures ok <==> jid !in data || key !in data[jid] || data[jid][key] == 0 || now >= data[jid][key] + cooldownMs
  {
    var last := Last(data, jid, key);
    last == 0 || now - last >= cooldownMs
  }

  /** markCommandSent/markProductSent on the data: the JID's map, created when missing, gets `key := now`. */
  function Stamp(data: Stamps, jid: string, key: string, now: int): (r: Stamps)
    ensures r.Keys == data.Keys + {jid}
    ensures r[jid].Keys == (if jid in data then data[jid].Keys else {}) + {key}
    ensures Last(r, jid, key) == now
  {
    var byJid := if jid in data then data[jid] else map[];
    data[jid := byJid[key := now]]
  }

  /** `cmd:${cmdKey}`. */
  function CommandKey(cmdKey: string): string {
    "cmd:" + cmdKey
  }

  /** `prod:${productMainKey}`. */
  function ProductKey(mainKey: string): string {
    "prod:" + mainKey
  }

  /** With no record, or a record of time 0 (`!last`), a send is always allowed. */
  lemma NoRecordAllows(data: Stamps, jid: string, key: string, cooldownMs: int, now: int)
    requires jid !in data || key !in data[jid] || data[jid][key] == 0
    ensures CanSend(data, jid, key, cooldownMs, now)
  {
  }

  /** A recorded send at time `last != 0` allows the next one exactly when `cooldownMs` has passed. */
  lemma RecordDecides(data: Stamps, jid: string, key: string, cooldownMs: int, now: int)
    requires jid in data && key in data[jid] && data[jid][key] != 0
    ensures CanSend(data, jid, key, cooldownMs, now) <==> now - data[jid][key] >= cooldownMs
  {
  }

  /** After a send stamped at `t != 0`, a positive cooldown blocks every check until `t + cooldownMs`. */
  lemma StampBlocks(data: Stamps, jid: string, key: string, t: int, cooldownMs: int, now: int)
    requires t != 0 && cooldownMs > 0 && t <= now < t + cooldownMs
    ensures !CanSend(Stamp(data, jid, key, t), jid, key, cooldownMs, now)
  {
  }

  /** From `t + cooldownMs` on, the same check passes again. */
  lemma StampExpires(data: Stamps, jid: string, key: string, t: int, cooldownMs: int, now: int)
    requires now >= t + cooldownMs
    ensures CanSend(Stamp(data, jid, key, t), jid, key, cooldownMs, now)
  {
  }

  /** A stamp changes only its own entry: every other (JID, key) pair reads as before. */
  lemma StampIsolated(data: Stamps, jid: string, key: string, t: int, jid': string, key': string)
    requires jid' != jid || key' != key
    ensures Last(Stamp(data, jid, key, t), jid', key') == Last(data, jid', key')
  {
  }

  /** No command key is a product key, whatever the names. */
  lemma NamespacesDisjoint(cmdKey: string, mainKey: string)
    ensures CommandKey(cmdKey) != ProductKey(mainKey)
  {
    assert CommandKey(cmdKey)[0] == 'c' && ProductKey(mainKey)[0] == 'p';
  }

  /** Marking a product never changes a command cooldown, even one of the same name. */
  lemma ProductMarkKeepsCommands(data: Stamps, jid: string, mainKey: string, t: int,
                                 jid': string, cmdKey: string, cooldownMs: int, now: int)
    ensures CanSend(Stamp(data, jid, ProductKey(mainKey), t), jid', CommandKey(cmdKey), cooldownMs, now)
      == CanSend(data, jid', CommandKey(cmdKey), cooldownMs, now)
  {
    NamespacesDisjoint(cmdKey, mainKey);
    StampIsolated(data, jid, ProductKey(mainKey), t, jid', CommandKey(cmdKey));
  }

  /** What `fs.existsSync` and `JSON.parse` make of the cooldown file at load time. */
  datatype StoredFile = Missing | Corrupt | Parsed(contents: Stamps)

  /** A send to record: JID, prefixed key, clock reading. */
  datatype Mark = Mark(jid: string, key: string, at: int)

  /** The data after a series of marks, in order. */
  function StampAll(data: Stamps, marks: seq<Mark>): Stamps
    decreases |marks|
  {
    if marks == [] then data
    else StampAll(Stamp(data, marks[0].jid, marks[0].key, marks[0].at), marks[1..])
  }

  /** The last of a series of marks on one entry is the one that counts. */
  lemma {:induction false} StampAllLast(data: Stamps, marks: seq<Mark>, jid: string, key: string)
    requires exists i :: 0 <= i < |marks| && marks[i].jid == jid && marks[i].key == key
    ensures exists i :: (0 <= i < |marks| && marks[i].jid == jid && marks[i].key == key
                         && Last(StampAll(data, marks), jid, key) == marks[i].at
                         && forall j :: i < j < |marks| ==> marks[j].jid != jid || marks[j].key != key)
    decreases |marks|
  {
    var rest := marks[1..];
    var next := Stamp(data, marks[0].jid, marks[0].key, marks[0].at);
    if exists i :: 0 <= i < |rest| && rest[i].jid == jid && rest[i].key == key {
      StampAllLast(next, rest, jid, key);
      var i :| 0 <= i < |rest| && rest[i].jid == jid && rest[i].key == key
        && Last(StampAll(next, rest), jid, key) == rest[i].at
        && forall j :: i < j < |rest| ==> rest[j].jid != jid || rest[j].key != key;
      assert marks[i + 1] == rest[i];
      assert forall j :: i + 1 < j < |marks| ==> marks[j] == rest[j - 1];
    } else {
      assert forall j :: 0 < j < |marks| ==> marks[j] == rest[j - 1];
      assert marks[0].jid == jid && marks[0].key == key;
      StampAllUntouched(next, rest, jid, key);
    }
  }

  /** Marks on other entries leave an entry as it was. */
  lemma {:induction false} StampAllUntouched(data: Stamps, marks: seq<Mark>, jid: string, key: string)
    requires forall i :: 0 <= i < |marks| ==> marks[i].jid != jid || marks[i].key != key
    ensures Last(StampAll(data, marks), jid, key) == Last(data, jid, key)
    decreases |marks|
  {
    if marks != [] {
      StampIsolated(data, marks[0].jid, marks[0].key, marks[0].at, jid, key);
      StampAllUntouched(Stamp(data, marks[0].jid, marks[0].key, marks[0].at), marks[1..], jid, key);
    }
  }

  /**
   * The module state of src/cooldown.js. `timers` counts the debounce timers scheduled and not yet
   * fired; `written` lists, in order, the snapshots written to the cooldown file.
   */
  class Store {
    const productCooldownMs: int
    var data: Stamps
    var pendingSave: bool
    var timers: nat
    var written: seq<Stamps>

    /** The debounce invariant: a timer is pending exactly while `pendingSave` is set, and never two. */
    predicate Valid()
      reads this
    {
      timers == (if pendingSave then 1 else 0)
    }

    constructor (productCooldownMs: int)
      ensures Valid() && this.productCooldownMs == productCooldownMs
      ensures data == map[] && !pendingSave && written == []
    {
      this.productCooldownMs := productCooldownMs;
      data := map[];
      pendingSave := false;
      timers := 0;
      written := [];
    }

    /** loadCooldowns: a parsed file replaces the data, a corrupt one empties it, a missing one changes nothing. */
    method Load(file: StoredFile)
      modifies this
      ensures data == match file
        case Missing => old(data)
        case Corrupt => map[]
        case Parsed(contents) => contents
      ensures pendingSave == old(pendingSave) && timers == old(timers) && written == old(written)
    {
      match file {
        case Missing =>
        case Corrupt => data := map[];
        case Parsed(contents) => data := contents;
      }
    }

    /** saveCooldown: schedules one flush, unless one is already pending. */
    method SaveCooldown()
      requires Valid()
      modifies this
      ensures Valid() && pendingSave
      ensures timers == 1 && written == old(written) && data == old(data)
      ensures old(pendingSave) ==> timers == old(timers)
    {
      if pendingSave {
        return;
      }
      pendingSave := true;
      timers := timers + 1;
    }

    /** The debounce timer fires: the data as it is now is written (a failed write is dropped), the flag clears. */
    method FireFlushTimer(writeOk: bool)
      requires Valid() && timers > 0
      modifies this
      ensures Valid() && !pendingSave && timers == 0 && data == old(data)
      ensures written == old(written) + (if writeOk then [data] else [])
    {
      if writeOk {
        written := written + [data];
      }
      pendingSave := false;
      timers := timers - 1;
    }

    /** forceSaveCooldowns: writes immediately; the debounce state is untouched. */
    method ForceSave(writeOk: bool)
      modifies this
      ensures written == old(written) + (if writeOk then [data] else [])
      ensures data == old(data) && pendingSave == old(pendingSave) && timers == old(timers)
    {
      if writeOk {
        written := written + [data];
      }
    }

    /** canSendCommand at clock reading `now`. */
    predicate CanSendCommand(jid: string, cmdKey: string, cooldownMs: int, now: int): (ok: bool)
      reads this
      ensures var last := Last(data, jid, "cmd:" + cmdKey); ok <==> last == 0 || now >= last + cooldownMs
    {
      CanSend(data, jid, CommandKey(cmdKey), cooldownMs, now)
    }

    /** canSendProduct at clock reading `now`: always the configured product cooldown. */
    predicate CanSendProduct(jid: string, mainKey: string, now: int): (ok: bool)
      reads this
      ensures var last := Last(data, jid, "prod:" + mainKey); ok <==> last == 0 || now >= last + productCooldownMs
    {
      CanSend(data, jid, ProductKey(mainKey), productCooldownMs, now)
    }

    /** markCommandSent at clock reading `now`. */
    method MarkCommandSent(jid: string, cmdKey: string, now: int)
      requires Valid()
      modifies this
      ensures Valid() && pendingSave && written == old(written)
      ensures data == Stamp(old(data), jid, CommandKey(cmdKey), now)
      ensures old(pendingSave) ==> timers == old(timers)
    {
      data := Stamp(data, jid, CommandKey(cmdKey), now);
      SaveCooldown();
    }

    /** markProductSent at clock reading `now`. */
    method MarkProductSent(jid: string, mainKey: string, now: int)
      requires Valid()
      modifies this
      ensures Valid() && pendingSave && written == old(written)
      ensures data == Stamp(old(data), jid, ProductKey(mainKey), now)
      ensures old(pendingSave) ==> timers == old(timers)
    {
      data := Stamp(data, jid, ProductKey(mainKey), now);
      SaveCooldown();
    }

    /**
     * A burst of marks before the timer fires: all of them land in the data, yet at most one
     * flush is pending and nothing is written until it fires.
     */
    method MarkBurst(marks: seq<Mark>)
      requires Valid()
      modifies this
      ensures Valid() && timers <= 1 && written == old(written)
      ensures data == StampAll(old(data), marks)
      ensures marks != [] ==> pendingSave
    {
      var i := 0;
      while i < |marks|
        invariant 0 <= i <= |marks|
        invariant Valid() && written == old(written)
        invariant StampAll(data, marks[i..]) == StampAll(old(data), marks)
        invariant i > 0 ==> pendingSave
      {
        assert marks[i..][1..] == marks[i + 1..];
        data := Stamp(data, marks[i].jid, marks[i].key, marks[i].at);
        SaveCooldown();
        i := i + 1;
      }
    }
  }
}
