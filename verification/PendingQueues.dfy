/** The steering and follow-up queues of an agent. */
module PendingQueues {
  import opened AgentEvents

  datatype QueueMode = All | OneAtATime

  /** The messages that satisfy `p`, and those that do not, in order. */
  function Select(ms: seq<Message>, p: Message -> bool, keep: bool): seq<Message>
  {
    if ms == [] then []
    else (if p(ms[0]) == keep then [ms[0]] else []) + Select(ms[1..], p, keep)
  }

  lemma {:induction false} SelectSnoc(ms: seq<Message>, m: Message, p: Message -> bool, keep: bool)
    ensures Select(ms + [m], p, keep) == Select(ms, p, keep) + (if p(m) == keep then [m] else [])
  {
    if ms == [] {
      assert [] + [m] == [m];
    } else {
      assert (ms + [m])[1..] == ms[1..] + [m];
      SelectSnoc(ms[1..], m, p, keep);
    }
  }

  /** Nothing is lost or made up by splitting a queue. */
  lemma {:induction false} SelectSplits(ms: seq<Message>, p: Message -> bool)
    ensures multiset(ms) == multiset(Select(ms, p, true)) + multiset(Select(ms, p, false))
  {
    if ms != [] {
      SelectSplits(ms[1..], p);
      assert ms == [ms[0]] + ms[1..];
    }
  }

  class PendingMessageQueue {
    var messages: seq<Message>
    var mode: QueueMode
    ghost var enqueued: seq<Message>   // every message put in
    ghost var delivered: seq<Message>  // every message drained

    /** First in, first out, and nothing lost: holds from the constructor on as
        long as nobody clears the queue or removes from it. */
    ghost predicate Conserving()
      reads this
    {
      enqueued == delivered + messages
    }

    constructor (mode: QueueMode)
      ensures Conserving() && messages == [] && enqueued == [] && this.mode == mode
    {
      this.messages, this.mode, this.enqueued, this.delivered := [], mode, [], [];
    }

    method Enqueue(message: Message)
      modifies this
      ensures messages == old(messages) + [message] && enqueued == old(enqueued) + [message]
      ensures delivered == old(delivered) && mode == old(mode)
      ensures old(Conserving()) ==> Conserving()
    {
      messages := messages + [message];
      enqueued := enqueued + [message];
    }

    /** What other threads may do to the queue at any moment: enqueue some messages. */
    method OthersEnqueue()
      modifies this
      ensures old(messages) <= messages && delivered == old(delivered) && mode == old(mode)
      ensures old(Conserving()) ==> Conserving()
    {
      var more: seq<Message> := *;
      for k := 0 to |more|
        invariant old(messages) <= messages && delivered == old(delivered) && mode == old(mode)
        invariant old(Conserving()) ==> Conserving()
      {
        Enqueue(more[k]);
      }
    }

    method HasItems() returns (b: bool)
      ensures b <==> messages != []
    {
      b := |messages| > 0;
    }

    /** A drain hands over the front of the queue: all of it, or one message. */
    method Drain() returns (drained: seq<Message>)
      modifies this
      ensures drained + messages == old(messages)
      ensures |drained| == if mode == All || old(messages) == [] then |old(messages)| else 1
      ensures delivered == old(delivered) + drained && enqueued == old(enqueued) && mode == old(mode)
      ensures old(Conserving()) ==> Conserving()
    {
      if mode == All {
        drained := messages;
        messages := [];
      } else if messages == [] {
        drained := [];
      } else {
        drained := [messages[0]];
        messages := messages[1..];
      }
      delivered := delivered + drained;
    }

    method Clear()
      modifies this
      ensures messages == [] && delivered == old(delivered) && enqueued == old(enqueued) && mode == old(mode)
    {
      messages := [];
    }

    method RemoveWhere(p: Message -> bool) returns (removed: seq<Message>)
      modifies this
      ensures removed == Select(old(messages), p, true) && messages == Select(old(messages), p, false)
      ensures multiset(old(messages)) == multiset(removed) + multiset(messages)
      ensures delivered == old(delivered) && enqueued == old(enqueued) && mode == old(mode)
    {
      var retained: seq<Message> := [];
      removed := [];
      for k := 0 to |messages|
        invariant messages == old(messages)
        invariant removed == Select(messages[..k], p, true) && retained == Select(messages[..k], p, false)
        invariant delivered == old(delivered) && enqueued == old(enqueued) && mode == old(mode)
      {
        assert messages[..k + 1] == messages[..k] + [messages[k]];
        SelectSnoc(messages[..k], messages[k], p, true);
        SelectSnoc(messages[..k], messages[k], p, false);
        if p(messages[k]) {
          removed := removed + [messages[k]];
        } else {
          retained := retained + [messages[k]];
        }
      }
      assert messages[..|messages|] == messages;
      SelectSplits(messages, p);
      messages := retained;
    }
  }
}
