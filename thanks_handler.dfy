/** The thank-you auto-reply (src/handlers/thanksHandler.js). */
module ThanksHandler {
  import opened Strings
  import opened Replies
  import Cooldown
  import SendQueue
  import HandlerSteps
  import C = Constants

  /** containsThanksTrigger: some trigger occurs anywhere in the text, with no word boundaries. */
  function ContainsThanksTrigger(triggers: seq<string>, lowerText: string): (r: bool)
    ensures r <==> exists i :: 0 <= i < |triggers| && Contains(lowerText, triggers[i])
  {
    if triggers == [] then false
    else
      var rest := ContainsThanksTrigger(triggers[1..], lowerText);
      assert forall i :: 1 <= i < |triggers| ==> triggers[i] == triggers[1..][i - 1];
      Contains(lowerText, triggers[0]) || rest
  }

  /** A text with a trigger in it still has one with anything around it. */
  lemma ThanksInLongerText(triggers: seq<string>, before: string, text: string, after: string)
    requires ContainsThanksTrigger(triggers, text)
    ensures ContainsThanksTrigger(triggers, before + text + after)
  {
    var i :| 0 <= i < |triggers| && Contains(text, triggers[i]);
    var k := triggers[i];
    var p :| 0 <= p <= |text| - |k| && OccursAt(text, k, p);
    var s := before + text + after;
    assert s[|before| + p..|before| + p + |k|] == text[p..p + |k|];
    assert OccursAt(s, k, |before| + p);
  }

  /**
   * handleThanks at clock readings `now` and `sentAt`: no trigger means `false` with the cooldown
   * not consulted; a running cooldown means `"cooldown"`; otherwise the configured reply is sent
   * once and `cmd:thanks` is stamped after it resolves.
   */
  method HandleThanks(store: Cooldown.Store, q: SendQueue.Queue, triggers: seq<string>, reply: string,
                      thanksCooldownMs: int, jid: string, lowerText: string,
                      net: SendQueue.Job -> bool, now: int, sentAt: int) returns (r: Reply)
    requires store.Valid() && q.Valid() && q.AtRest()
    modifies store, q
    ensures store.Valid() && q.Valid() && q.AtRest() && store.written == old(store.written)
    ensures !ContainsThanksTrigger(triggers, lowerText) ==>
      r == No && q.executed == old(q.executed) && store.data == old(store.data)
    ensures ContainsThanksTrigger(triggers, lowerText) && !old(store.CanSendCommand(jid, C.ThanksKey, thanksCooldownMs, now)) ==>
      r == Cooldown && q.executed == old(q.executed) && store.data == old(store.data)
    ensures ContainsThanksTrigger(triggers, lowerText) && old(store.CanSendCommand(jid, C.ThanksKey, thanksCooldownMs, now)) ==>
      var job := SendQueue.Job(jid, SendQueue.Text(reply));
      && q.executed == old(q.executed) + [job]
      && r == (if net(job) then Yes else Threw)
      && store.data == if net(job) then Cooldown.Stamp(old(store.data), jid, Cooldown.CommandKey(C.ThanksKey), sentAt)
                       else old(store.data)
  {
    if !ContainsThanksTrigger(triggers, lowerText) {
      return No;
    }
    if !store.CanSendCommand(jid, C.ThanksKey, thanksCooldownMs, now) {
      return Cooldown;
    }
    r := HandlerSteps.SendThenMark(store, q, SendQueue.Job(jid, SendQueue.Text(reply)), net, C.ThanksKey, sentAt);
  }
}
