/** Named-stream subscriptions (src/stream_subscription.rs): the loops over the core and the object that owns it. */
module StreamSubscriptions {
  import opened Common
  import opened QueryResults
  import opened Frames

  /** What the core returns for the first answer of its script. */
  function FirstAnswer(answers: seq<Answer>): Result<Option<CoreFrame>, Error> {
    if answers == [] then Ok(None)
    else
      match answers[0]
      case Frame(frame) => Ok(Some(frame))
      case Nothing => Ok(None)
      case Failed(error) => Err(error)
  }

  /** The core's subscription. `answers` is what its next calls will answer, whatever the timing; it is arbitrary, so a
      statement about every script is a statement about every behaviour of the core. */
  class CoreSubscription {
    var answers: seq<Answer>
    var asked: nat
    var cancels: nat

    constructor (answers: seq<Answer>)
      ensures this.answers == answers && asked == 0 && cancels == 0
    {
      this.answers, asked, cancels := answers, 0, 0;
    }

    /** `next_frame`, `next_frame_async` and `try_next_frame`: they differ only in when they answer. */
    method NextFrame() returns (r: Result<Option<CoreFrame>, Error>)
      modifies this`answers, this`asked
      ensures r == FirstAnswer(old(answers))
      ensures answers == (if old(answers) == [] then [] else old(answers)[1..])
      ensures asked == old(asked) + 1
    {
      asked := asked + 1;
      if answers == [] {
        return Ok(None);
      }
      r := FirstAnswer(answers);
      answers := answers[1..];
    }

    method Cancel()
      modifies this`cancels
      ensures cancels == old(cancels) + 1
    {
      cancels := cancels + 1;
    }
  }

  function BatchReply(r: Result<Option<QueryResult>, Error>): Reply {
    match r
    case Err(error) => Raised(error)
    case Ok(None) => NoData
    case Ok(Some(result)) => GotBatch(result)
  }

  function FrameReply(r: Result<Option<SubscriptionFrame>, Error>): Reply {
    match r
    case Err(error) => Raised(error)
    case Ok(None) => NoData
    case Ok(Some(frame)) => GotFrame(frame)
  }

  /** The loop shared by `next_batch`, `next_batch_async` and `try_next_batch`: ask until a frame is not a barrier.
      It asks at most once more than the core has answers ready. */
  method NextBatch(sub: CoreSubscription, call: Call) returns (r: Result<Option<QueryResult>, Error>)
    requires BatchOnly(call)
    modifies sub`answers, sub`asked
    ensures var (reply, used) := Serve(call, old(sub.answers));
      BatchReply(r) == reply && sub.answers == old(sub.answers)[used..]
    ensures old(sub.asked) < sub.asked <= old(sub.asked) + |old(sub.answers)| + 1
  {
    ghost var script := sub.answers;
    ghost var skipped: nat := 0;
    while true
      invariant skipped <= |script| && sub.answers == script[skipped..]
      invariant sub.asked == old(sub.asked) + skipped
      invariant Serve(call, script) == (Serve(call, script[skipped..]).0, skipped + Serve(call, script[skipped..]).1)
      decreases |sub.answers|
    {
      ghost var rest := sub.answers;
      var next := sub.NextFrame();
      if next.Err? {
        return Err(next.error);
      }
      if next.value.None? {
        return Ok(None);
      }
      var batch := FrameBatch(next.value.value);
      if batch.Some? {
        return Ok(batch);
      }
      assert rest[1..] == script[skipped + 1..];
      skipped := skipped + 1;
    }
    assert false;
    r := Ok(None);
  }

  /** A Python subscription object. The core is null once `cancel` has taken it. */
  class StreamSubscription {
    var inner: CoreSubscription?

    constructor (core: CoreSubscription)
      ensures inner == core
    {
      inner := core;
    }

    function Core(): set<object>
      reads this
    {
      if inner == null then {} else {inner}
    }

    /** What the next calls will be answered; nothing once cancelled. */
    function Script(): seq<Answer>
      reads this, Core()
    {
      if inner == null then [] else inner.answers
    }

    /** `next_frame`, `try_next_frame` and `next_frame_timeout`. */
    method NextFrame(call: Call) returns (r: Result<Option<SubscriptionFrame>, Error>)
      requires FrameCall(call)
      modifies Core()
      ensures inner == old(inner)
      ensures var (replies, used) := Replay(inner != null, [call], old(Script()));
        [FrameReply(r)] == replies && Script() == old(Script())[used..]
    {
      if inner == null {
        return Ok(None);
      }
      ghost var script := inner.answers;
      var next := inner.NextFrame();
      assert Replay(true, [call][1..], script[Serve(call, script).1..]) == ([], 0);
      match next
      case Err(error) => r := Err(error);
      case Ok(None) => r := Ok(None);
      case Ok(Some(frame)) => r := Ok(Some(FromCore(frame)));
    }

    /** `next`, `try_next`, `next_timeout` and the asynchronous iterator's step. */
    method NextResult(call: Call) returns (r: Result<Option<QueryResult>, Error>)
      requires BatchOnly(call)
      modifies Core()
      ensures inner == old(inner)
      ensures var (replies, used) := Replay(inner != null, [call], old(Script()));
        [BatchReply(r)] == replies && Script() == old(Script())[used..]
    {
      if inner == null {
        return Ok(None);
      }
      ghost var script := inner.answers;
      r := NextBatch(inner, call);
      assert Replay(true, [call][1..], script[Serve(call, script).1..]) == ([], 0);
    }

    /** Cancels the core at most once and forgets it: whatever it still holds is never handed out. */
    method Cancel()
      modifies this, Core()
      ensures inner == null && Script() == []
      ensures old(inner) != null ==>
        old(inner).cancels == old(inner.cancels) + 1 && old(inner).answers == old(inner.answers)
    {
      if inner != null {
        inner.Cancel();
      }
      inner := null;
    }

    /** One call of a client that goes on with `later`. */
    method PerformOne(call: Call, ghost later: seq<Call>) returns (reply: Reply)
      modifies this, Core()
      ensures inner == old(inner) || inner == null
      ensures Replay(old(inner) != null, [call] + later, old(Script())).0
           == [reply] + Replay(inner != null, later, Script()).0
    {
      ghost var open, script, calls := inner != null, Script(), [call] + later;
      assert calls[0] == call && calls[1..] == later;
      ReplayStep(open, calls, script);
      if call.Cancel? {
        Cancel();
        ReplayClosed(later, script);
        reply := CancelDone;
      } else if call.IsActive? {
        reply := NoData;
      } else if FrameCall(call) {
        var r := NextFrame(call);
        reply := FrameReply(r);
      } else {
        var r := NextResult(call);
        reply := BatchReply(r);
      }
    }

    /** Any mix of calls by one client: exactly the replies of `Replay`, the specification the threads are held to. */
    method Perform(calls: seq<Call>) returns (replies: seq<Reply>)
      modifies this, Core()
      ensures replies == Replay(old(inner) != null, calls, old(Script())).0
    {
      replies := [];
      ghost var core, all := inner, Replay(inner != null, calls, Script()).0;
      for i := 0 to |calls|
        invariant inner == core || inner == null
        invariant all == replies + Replay(inner != null, calls[i..], Script()).0
      {
        assert calls[i..] == [calls[i]] + calls[i + 1..];
        var reply := PerformOne(calls[i], calls[i + 1..]);
        ConcatAssoc(replies, [reply], Replay(inner != null, calls[i + 1..], Script()).0);
        replies := replies + [reply];
      }
      assert replies + [] == replies;
    }
  }

  lemma ReplayStep(open: bool, calls: seq<Call>, answers: seq<Answer>)
    requires calls != []
    ensures var (one, n) := Replay(open, [calls[0]], answers);
      Replay(open, calls, answers).0 == one + Replay(open && !calls[0].Cancel?, calls[1..], answers[n..]).0
  {
    assert [calls[0]][1..] == [];
  }

  /** After `cancel` no call touches the core: the replies do not depend on what it would have answered. */
  lemma {:induction false} ReplayClosed(calls: seq<Call>, answers: seq<Answer>)
    ensures Replay(false, calls, answers) == (Replay(false, calls, []).0, 0)
    ensures forall i :: 0 <= i < |calls| ==>
      Replay(false, calls, answers).0[i] == (if calls[i].Cancel? then CancelDone else NoData)
  {
    if calls != [] {
      ReplayClosed(calls[1..], answers);
    }
  }
}
