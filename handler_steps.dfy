/** The step the cooldown-gated handlers share: await one send, then stamp the command once it resolved. */
module HandlerSteps {
  import opened Replies
  import Cooldown
  import SendQueue

  /**
   * `await enqueue(() => sock.sendMessage(...))` followed by `markCommandSent(jid, cmdKey)`:
   * `true` and the stamp at `sentAt` when the transport accepts the job, a rejection and no
   * stamp when it refuses.
   */
  method SendThenMark(store: Cooldown.Store, q: SendQueue.Queue, job: SendQueue.Job, net: SendQueue.Job -> bool,
                      cmdKey: string, sentAt: int) returns (r: Reply)
    requires store.Valid() && q.Valid() && q.AtRest()
    modifies store, q
    ensures store.Valid() && q.Valid() && q.AtRest() && store.written == old(store.written)
    ensures q.executed == old(q.executed) + [job]
    ensures r == (if net(job) then Yes else Threw)
    ensures store.data == if net(job) then Cooldown.Stamp(old(store.data), job.to, Cooldown.CommandKey(cmdKey), sentAt)
                          else old(store.data)
  {
    var ok := q.Await(job, net);
    if !ok {
      return Threw;
    }
    store.MarkCommandSent(job.to, cmdKey, sentAt);
    return Yes;
  }
}
