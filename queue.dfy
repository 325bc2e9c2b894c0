/**
 * The outbound send queue (src/queue.js): a FIFO of jobs drained by at most one loop at a time,
 * optionally pacing every send with a random delay. A job's transport outcome is an input
 * (`net`), and the draw of `Math.random()` is an arbitrary value in [0, 1).
 */
module SendQueue {
  import opened Wrappers
  import Messages
  import Utils

  /** What a job sends: a text, the cached QRIS image with a caption, or a relayed template message. */
  datatype Payload = Text(text: string) | Image(caption: string) | Relay(template: Messages.Content)

  /** One `sock.sendMessage` / `sock.relayMessage` call, addressed to a chat. */
  datatype Job = Job(to: string, payload: Payload)

  /** How a job's promise is settled. */
  datatype Settlement = Resolved | Rejected

  function Settle(job: Job, net: Job -> bool): Settlement {
    if net(job) then Resolved else Rejected
  }

  /** The settlements of a series of jobs, in order. */
  function Outcomes(jobs: seq<Job>, net: Job -> bool): (r: seq<Settlement>)
    ensures |r| == |jobs|
    ensures forall i :: 0 <= i < |jobs| ==> (r[i] == Resolved <==> net(jobs[i]))
    decreases |jobs|
  {
    if jobs == [] then [] else Outcomes(jobs[..|jobs| - 1], net) + [Settle(jobs[|jobs| - 1], net)]
  }

  function Total<T>(batches: seq<seq<T>>): nat {
    if batches == [] then 0 else |batches[0]| + Total(batches[1..])
  }

  function Concat<T>(batches: seq<seq<T>>): (r: seq<T>)
    ensures |r| == Total(batches)
  {
    if batches == [] then [] else batches[0] + Concat(batches[1..])
  }

  /**
   * The order in which a drain runs jobs: the waiting jobs first to last, where `arriving[i]` are
   * the jobs enqueued while the drain's i-th job is in flight. Arrivals after the queue has run
   * dry start no job in this drain.
   */
  function Serve<T>(pending: seq<T>, arriving: seq<seq<T>>): seq<T>
    decreases |pending| + Total(arriving), |pending|
  {
    if pending == [] then [] else [pending[0]] + Serve(pending[1..] + First(arriving), Later(arriving))
  }

  /** The jobs that arrive during the next job in flight. */
  function First<T>(arriving: seq<seq<T>>): seq<T> {
    if arriving == [] then [] else arriving[0]
  }

  /** The arrivals during the jobs after that one. */
  function Later<T>(arriving: seq<seq<T>>): (r: seq<seq<T>>)
    ensures Total(arriving) == |First(arriving)| + Total(r)
  {
    if arriving == [] then [] else arriving[1..]
  }

  /** With nothing arriving, the drain runs exactly the waiting jobs, in order. */
  lemma {:induction false} ServeNoArrivals<T>(pending: seq<T>)
    ensures Serve(pending, []) == pending
    decreases |pending|
  {
    if pending != [] {
      ServeNoArrivals(pending[1..]);
      assert pending[1..] + [] == pending[1..];
    }
  }

  /** The arrivals a drain does not run: those enqueued after its last job had already started. */
  function Dropped<T>(pending: seq<T>, arriving: seq<seq<T>>): seq<T>
    decreases |pending| + Total(arriving), |pending|
  {
    if pending == [] then Concat(arriving) else Dropped(pending[1..] + First(arriving), Later(arriving))
  }

  lemma Regroup<T>(a: seq<T>, b: seq<T>, c: seq<T>, d: seq<T>)
    ensures a + ((b + c) + d) == (a + b) + (c + d)
  {
  }

  lemma ConcatFirst<T>(arriving: seq<seq<T>>)
    ensures Concat(arriving) == First(arriving) + Concat(Later(arriving))
  {
  }

  /**
   * FIFO: the drain runs every waiting job and then the arrivals, in enqueue order; followed by
   * the arrivals it does not run, that is everything enqueued, in order. Nothing runs twice.
   */
  lemma {:induction false} ServeIsFifo<T>(pending: seq<T>, arriving: seq<seq<T>>)
    ensures Serve(pending, arriving) + Dropped(pending, arriving) == pending + Concat(arriving)
    ensures |pending| <= |Serve(pending, arriving)|
    decreases |pending| + Total(arriving), |pending|
  {
    if pending != [] {
      var next := pending[1..] + First(arriving);
      assert |next| == |pending| - 1 + |First(arriving)|;
      assert Total(arriving) == |First(arriving)| + Total(Later(arriving));
      ServeIsFifo(next, Later(arriving));
      ConcatFirst(arriving);
      var s', d := Serve(next, Later(arriving)), Dropped(next, Later(arriving));
      assert s' + d == next + Concat(Later(arriving));
      assert Serve(pending, arriving) == [pending[0]] + s';
      assert Dropped(pending, arriving) == d;
      assert ([pending[0]] + s') + d == [pending[0]] + (s' + d);
      assert pending == [pending[0]] + pending[1..];
      Regroup([pending[0]], pending[1..], First(arriving), Concat(Later(arriving)));
    }
  }

  /** One turn of the drain loop: the head runs, and what arrived meanwhile joins the tail. */
  lemma ServeStep<T>(done: seq<T>, pending: seq<T>, rest: seq<seq<T>>)
    requires pending != []
    ensures done + Serve(pending, rest) == (done + [pending[0]]) + Serve(pending[1..] + First(rest), Later(rest))
    ensures |pending[1..] + First(rest)| + Total(Later(rest)) < |pending| + Total(rest)
  {
    var s' := Serve(pending[1..] + First(rest), Later(rest));
    assert done + ([pending[0]] + s') == (done + [pending[0]]) + s';
  }

  /** When every arrival happens while some job is still waiting, the drain runs all of them. */
  lemma {:induction false} ServeRunsAll<T>(pending: seq<T>, arriving: seq<seq<T>>)
    requires |arriving| <= |pending|
    ensures Dropped(pending, arriving) == []
    ensures Serve(pending, arriving) == pending + Concat(arriving)
    decreases |pending| + Total(arriving), |pending|
  {
    if pending == [] {
      assert arriving == [];
    } else {
      ServeRunsAll(pending[1..] + First(arriving), Later(arriving));
    }
    ServeIsFifo(pending, arriving);
  }

  lemma OutcomesSnoc(jobs: seq<Job>, job: Job, net: Job -> bool)
    ensures Outcomes(jobs + [job], net) == Outcomes(jobs, net) + [Settle(job, net)]
  {
    assert (jobs + [job])[..|jobs|] == jobs;
  }

  class Queue {
    const rateEnabled: bool
    const rateMinMs: int
    const rateMaxMs: int
    /** The module-level `queue` array: jobs waiting to run. */
    var pending: seq<Job>
    /** The `sending` guard: a drain loop is running. */
    var sending: bool
    /** The jobs whose action has run, in order. */
    ghost var executed: seq<Job>
    /** How each executed job's promise was settled, in the same order. */
    ghost var settled: seq<Settlement>
    /** Every delay slept before a job, in order. */
    ghost var sleeps: seq<int>

    /** A delay the queue may sleep: `randomDelay(RATE_MIN_MS, RATE_MAX_MS)`. */
    predicate DelayAllowed(d: int) {
      if rateMaxMs <= rateMinMs then d == rateMinMs else rateMinMs <= d < rateMaxMs
    }

    /**
     * Every run job was settled once, and was preceded by one allowed delay when rate limiting
     * is on and by none when it is off.
     */
    ghost predicate Valid()
      reads this
    {
      && |settled| == |executed|
      && |sleeps| == (if rateEnabled then |executed| else 0)
      && forall i :: 0 <= i < |sleeps| ==> DelayAllowed(sleeps[i])
    }

    /** Nothing waiting and no drain running. */
    predicate AtRest()
      reads this
    {
      pending == [] && !sending
    }

    constructor (rateEnabled: bool, rateMinMs: int, rateMaxMs: int)
      ensures Valid() && AtRest()
      ensures this.rateEnabled == rateEnabled && this.rateMinMs == rateMinMs && this.rateMaxMs == rateMaxMs
      ensures executed == [] && settled == [] && sleeps == []
    {
      this.rateEnabled := rateEnabled;
      this.rateMinMs := rateMinMs;
      this.rateMaxMs := rateMaxMs;
      pending := [];
      sending := false;
      executed := [];
      settled := [];
      sleeps := [];
    }

    /** Line 33: the job joins the tail. */
    method Push(job: Job)
      modifies this
      ensures pending == old(pending) + [job]
      ensures sending == old(sending) && executed == old(executed) && settled == old(settled) && sleeps == old(sleeps)
    {
      pending := pending + [job];
    }

    /**
     * processQueue. A call while a drain runs returns at once. Otherwise the loop takes jobs from
     * the head until none is left, jobs that arrive meanwhile included; every job runs once and is
     * then resolved or rejected, and a failure neither stops the loop nor is retried.
     */
    method ProcessQueue(net: Job -> bool, arriving: seq<seq<Job>>)
      requires Valid()
      modifies this
      ensures Valid()
      ensures old(sending) ==> pending == old(pending) && sending && executed == old(executed)
                               && settled == old(settled) && sleeps == old(sleeps)
      ensures !old(sending) ==> && AtRest()
                                && executed == old(executed) + Serve(old(pending), arriving)
                                && settled == old(settled) + Outcomes(Serve(old(pending), arriving), net)
    {
      if sending {
        return;
      }
      sending := true;
      ghost var done, delays := Drain(arriving);
      sending := false;
      executed := executed + done;
      settled := settled + Outcomes(done, net);
      sleeps := sleeps + delays;
    }

    /**
     * The `while (queue.length)` loop: it returns the jobs it ran, in order, and the delays it
     * slept before them.
     */
    method Drain(arriving: seq<seq<Job>>) returns (ghost done: seq<Job>, ghost delays: seq<int>)
      modifies `pending
      ensures pending == [] && done == Serve(old(pending), arriving)
      ensures |delays| == (if rateEnabled then |done| else 0)
      ensures forall i :: 0 <= i < |delays| ==> DelayAllowed(delays[i])
    {
      var rest := arriving;
      done, delays := [], [];
      while |pending| > 0
        invariant done + Serve(pending, rest) == Serve(old(pending), arriving)
        invariant |delays| == (if rateEnabled then |done| else 0)
        invariant forall i :: 0 <= i < |delays| ==> DelayAllowed(delays[i])
        decreases |pending| + Total(rest), |pending|
      {
        var job := pending[0];
        ServeStep(done, pending, rest);
        if rateEnabled {
          var random: real :| 0.0 <= random < 1.0;
          var d := Utils.RandomDelay(rateMinMs, rateMaxMs, random);
          delays := delays + [d];
        }
        pending := pending[1..] + First(rest);
        rest := Later(rest);
        done := done + [job];
      }
      assert done + [] == done;
    }

    /**
     * enqueue on a queue with no drain running: the job joins the tail and the drain it starts
     * runs every waiting job and then this one; the promise the caller awaits settles as the
     * transport answers for this job.
     */
    method Enqueue(job: Job, net: Job -> bool) returns (s: Option<Settlement>)
      requires Valid()
      modifies this
      ensures Valid()
      ensures old(sending) ==> s.None? && pending == old(pending) + [job] && sending
                               && executed == old(executed) && settled == old(settled)
      ensures !old(sending) ==> && AtRest() && s == Some(Settle(job, net))
                                && executed == old(executed) + old(pending) + [job]
                                && settled == old(settled) + Outcomes(old(pending) + [job], net)
    {
      var wasSending := sending;
      Push(job);
      ghost var waiting := pending;
      ProcessQueue(net, []);
      ServeNoArrivals(waiting);
      s := if wasSending then None else Some(Settle(job, net));
    }

    /**
     * `await enqueue(fn)` in a handler, with no drain in progress: the job runs at once and the
     * await returns when the transport accepts it, and throws when it does not.
     */
    method Await(job: Job, net: Job -> bool) returns (ok: bool)
      requires Valid() && AtRest()
      modifies this
      ensures Valid() && AtRest()
      ensures ok == net(job)
      ensures executed == old(executed) + [job] && settled == old(settled) + [Settle(job, net)]
    {
      var s := Enqueue(job, net);
      ok := s == Some(Resolved);
      assert [job][..0] == [];
    }
  }
}
