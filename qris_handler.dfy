/**
 * The QRIS command (src/handlers/qrisHandler.js): a cooldown gate, a global gap between QRIS media
 * sends, then the saved catalog template, else the cached image, else an apology text.
 */
module QrisHandler {
  import opened Wrappers
  import opened Replies
  import Messages
  import Cache
  import Cooldown
  import SendQueue
  import C = Constants

  const Apology := "QRIS tidak bisa dikirim. Pastikan *qris.png* ada di folder bot."

  /** `lastGlobalQrisMediaAt`: when the last QRIS media send (to any chat) resolved. */
  class MediaGate {
    var lastMediaAt: int

    constructor ()
      ensures lastMediaAt == 0
    {
      lastMediaAt := 0;
    }
  }

  /** How long the handler sleeps before sending: until the gap since the last media send is over. */
  function GapWait(gapMs: int, lastMediaAt: int, now: int): (wait: int)
    ensures wait >= 0
    ensures now - lastMediaAt >= gapMs ==> wait == 0
    ensures now - lastMediaAt < gapMs ==> now + wait == lastMediaAt + gapMs
  {
    var diff := now - lastMediaAt;
    if diff < gapMs then gapMs - diff else 0
  }

  /** Layer 1's job: a relay of the saved template, when it holds a product message. */
  function RelayJob(template: Option<Messages.Content>, jid: string): Option<SendQueue.Job> {
    if template.Some? && template.value.hasProductMessage then Some(SendQueue.Job(jid, SendQueue.Relay(template.value)))
    else None
  }

  /** Layer 2's job: the image with its caption, when there is an image. */
  function ImageJob(buffer: Option<Cache.Bytes>, jid: string, caption: string): Option<SendQueue.Job> {
    if buffer.Some? then Some(SendQueue.Job(jid, SendQueue.Image(caption))) else None
  }

  function Tried(job: Option<SendQueue.Job>): seq<SendQueue.Job> {
    if job.Some? then [job.value] else []
  }

  predicate Succeeds(job: Option<SendQueue.Job>, net: SendQueue.Job -> bool) {
    job.Some? && net(job.value)
  }

  function ApologyJob(jid: string): SendQueue.Job {
    SendQueue.Job(jid, SendQueue.Text(Apology))
  }

  /** The jobs the layers send, in order: stop at the first media send that resolves, else apologise. */
  function Attempts(relay: Option<SendQueue.Job>, image: Option<SendQueue.Job>, jid: string,
                    net: SendQueue.Job -> bool): (jobs: seq<SendQueue.Job>)
  {
    if Succeeds(relay, net) then Tried(relay)
    else if Succeeds(image, net) then Tried(relay) + Tried(image)
    else Tried(relay) + Tried(image) + [ApologyJob(jid)]
  }

  /** What the handler returns after the layers: `true` for media, `false` after an apology that went out. */
  function Outcome(relay: Option<SendQueue.Job>, image: Option<SendQueue.Job>, jid: string,
                   net: SendQueue.Job -> bool): (r: Reply)
    ensures r == Yes || r == No || r == Threw
    ensures r == Yes <==> Succeeds(relay, net) || Succeeds(image, net)
    ensures r == Threw ==> !net(ApologyJob(jid))
  {
    if Succeeds(relay, net) || Succeeds(image, net) then Yes
    else if net(ApologyJob(jid)) then No
    else Threw
  }

  /**
   * The fallback chain: one to three jobs, every job before the last refused; the template is
   * tried before the image; the apology goes out exactly when no media send resolves, is the last
   * job and is never sent twice; the result is `true` exactly when a media send resolved.
   */
  lemma AttemptsShape(relay: Option<SendQueue.Job>, image: Option<SendQueue.Job>, jid: string, net: SendQueue.Job -> bool)
    requires relay.Some? ==> relay.value.payload.Relay?
    requires image.Some? ==> image.value.payload.Image?
    ensures var jobs := Attempts(relay, image, jid, net);
      && 1 <= |jobs| <= 3
      && (forall i :: 0 <= i < |jobs| - 1 ==> !net(jobs[i]))
      && (relay.Some? ==> jobs[0] == relay.value)
      && (ApologyJob(jid) in jobs <==> !Succeeds(relay, net) && !Succeeds(image, net))
      && (forall i :: 0 <= i < |jobs| - 1 ==> jobs[i] != ApologyJob(jid))
      && (Outcome(relay, image, jid, net) == Yes <==> ApologyJob(jid) !in jobs)
      && (Outcome(relay, image, jid, net) == Threw <==> ApologyJob(jid) in jobs && !net(ApologyJob(jid)))
  {
    var jobs := Attempts(relay, image, jid, net);
    if Succeeds(relay, net) || Succeeds(image, net) {
      assert forall i :: 0 <= i < |jobs| ==> jobs[i] != ApologyJob(jid);
    }
  }

  /** The image the cache yields: the cached one, else the file when it can be read. */
  function BufferAfter(cached: Option<Cache.Bytes>, imageFile: Option<Cache.Bytes>): Option<Cache.Bytes> {
    if cached.Some? then cached else imageFile
  }

  /**
   * handleQris at clock readings `now` (the check and the gap) and `sentAt` (after each send);
   * `wait` is the sleep before the first layer. On cooldown: `false`, nothing sent, the gap and the
   * image cache untouched. Otherwise the layers run as `Attempts` says; the gap is reset only by a
   * media send that resolved, `cmd:qris` is stamped whenever a job resolved (the apology
   * included), and the image is loaded only when the template did not go out.
   */
  method HandleQris(store: Cooldown.Store, q: SendQueue.Queue, cache: Cache.QrisCache, gate: MediaGate,
                    cooldownMs: int, gapMs: int, caption: string, jid: string, imageFile: Option<Cache.Bytes>,
                    net: SendQueue.Job -> bool, now: int, sentAt: int) returns (r: Reply, wait: int)
    requires store.Valid() && q.Valid() && q.AtRest()
    modifies store, q, cache`imageBuffer, gate
    ensures store.Valid() && q.Valid() && q.AtRest() && store.written == old(store.written)
    ensures !old(store.CanSendCommand(jid, C.QrisKey, cooldownMs, now)) ==>
      && r == No && wait == 0 && q.executed == old(q.executed) && store.data == old(store.data)
      && gate.lastMediaAt == old(gate.lastMediaAt) && cache.imageBuffer == old(cache.imageBuffer)
    ensures old(store.CanSendCommand(jid, C.QrisKey, cooldownMs, now)) ==>
      var relay := RelayJob(old(cache.template), jid);
      var image := ImageJob(BufferAfter(old(cache.imageBuffer), imageFile), jid, caption);
      && wait == GapWait(gapMs, old(gate.lastMediaAt), now)
      && q.executed == old(q.executed) + Attempts(relay, image, jid, net)
      && r == Outcome(relay, image, jid, net)
      && gate.lastMediaAt == (if r == Yes then sentAt else old(gate.lastMediaAt))
      && store.data == (if r != Threw then Cooldown.Stamp(old(store.data), jid, Cooldown.CommandKey(C.QrisKey), sentAt)
                        else old(store.data))
      && cache.imageBuffer == (if Succeeds(relay, net) then old(cache.imageBuffer)
                               else BufferAfter(old(cache.imageBuffer), imageFile))
  {
    wait := 0;
    if !store.CanSendCommand(jid, C.QrisKey, cooldownMs, now) {
      return No, wait;
    }
    wait := GapWait(gapMs, gate.lastMediaAt, now);
    r := SendLayers(store, q, cache, gate, caption, jid, imageFile, net, sentAt);
  }

  /** The three layers after the gate: the template, then the image, then the apology. */
  method SendLayers(store: Cooldown.Store, q: SendQueue.Queue, cache: Cache.QrisCache, gate: MediaGate,
                    caption: string, jid: string, imageFile: Option<Cache.Bytes>,
                    net: SendQueue.Job -> bool, sentAt: int) returns (r: Reply)
    requires store.Valid() && q.Valid() && q.AtRest()
    modifies store, q, cache`imageBuffer, gate
    ensures store.Valid() && q.Valid() && q.AtRest() && store.written == old(store.written)
    ensures var relay := RelayJob(old(cache.template), jid);
      var image := ImageJob(BufferAfter(old(cache.imageBuffer), imageFile), jid, caption);
      && q.executed == old(q.executed) + Attempts(relay, image, jid, net)
      && r == Outcome(relay, image, jid, net)
      && gate.lastMediaAt == (if r == Yes then sentAt else old(gate.lastMediaAt))
      && store.data == (if r != Threw then Cooldown.Stamp(old(store.data), jid, Cooldown.CommandKey(C.QrisKey), sentAt)
                        else old(store.data))
      && cache.imageBuffer == (if Succeeds(relay, net) then old(cache.imageBuffer)
                               else BufferAfter(old(cache.imageBuffer), imageFile))
  {
    // Layer 1: the saved catalog template.
    var relay := RelayJob(cache.GetQrisTemplate(), jid);
    if relay.Some? {
      var ok := q.Await(relay.value, net);
      if ok {
        gate.lastMediaAt := sentAt;
        store.MarkCommandSent(jid, C.QrisKey, sentAt);
        return Yes;
      }
    }
    r := ImageOrApology(store, q, cache, gate, caption, jid, imageFile, net, sentAt);
  }

  /** Layers 2 and 3: the cached image, else the apology. */
  method ImageOrApology(store: Cooldown.Store, q: SendQueue.Queue, cache: Cache.QrisCache, gate: MediaGate,
                        caption: string, jid: string, imageFile: Option<Cache.Bytes>,
                        net: SendQueue.Job -> bool, sentAt: int) returns (r: Reply)
    requires store.Valid() && q.Valid() && q.AtRest()
    modifies store, q, cache`imageBuffer, gate
    ensures store.Valid() && q.Valid() && q.AtRest() && store.written == old(store.written)
    ensures var image := ImageJob(BufferAfter(old(cache.imageBuffer), imageFile), jid, caption);
      && q.executed == old(q.executed) + Attempts(None, image, jid, net)
      && r == Outcome(None, image, jid, net)
      && gate.lastMediaAt == (if r == Yes then sentAt else old(gate.lastMediaAt))
      && store.data == (if r != Threw then Cooldown.Stamp(old(store.data), jid, Cooldown.CommandKey(C.QrisKey), sentAt)
                        else old(store.data))
      && cache.imageBuffer == BufferAfter(old(cache.imageBuffer), imageFile)
  {
    // Layer 2: the cached image.
    var buffer := cache.GetQrisImageBuffer(imageFile);
    var image := ImageJob(buffer, jid, caption);
    if image.Some? {
      var ok := q.Await(image.value, net);
      if ok {
        gate.lastMediaAt := sentAt;
        store.MarkCommandSent(jid, C.QrisKey, sentAt);
        return Yes;
      }
    }

    // Both layers failed: the apology.
    var ok := q.Await(ApologyJob(jid), net);
    if !ok {
      return Threw;
    }
    store.MarkCommandSent(jid, C.QrisKey, sentAt);
    return No;
  }
}
