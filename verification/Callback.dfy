/** The callback thread (src/callback.rs): its loop as code, and the loop as one thread among others. */
module Callbacks {
  import opened Common
  import opened QueryResults
  import opened Frames

  datatype Kind = QueryKind | StreamKind

  /** What one poll of the source brings. */
  datatype Polled = Got(result: QueryResult) | Quiet | Broken(error: Error)

  /** The result handed to `on_data`: a query stream's batches carry no lease. */
  function ResultOf(kind: Kind, frame: CoreFrame): QueryResult
    requires frame.Batch?
  {
    if kind.QueryKind? then FromBatch(frame.batch) else FromSubscriptionBatch(frame.batch, frame.lease)
  }

  /** `SubscriptionKind::try_next` as a function of the core's answers: what it brings and how many answers it used. */
  function Poll(kind: Kind, answers: seq<Answer>): (r: (Polled, nat))
    ensures r.1 <= |answers|
  {
    if answers == [] then (Quiet, 0)
    else
      match answers[0]
      case Failed(error) => (Broken(error), 1)
      case Nothing => (Quiet, 1)
      case Frame(frame) =>
        if frame.Batch? then (Got(ResultOf(kind, frame)), 1)
        else
          var (polled, used) := Poll(kind, answers[1..]);
          (polled, used + 1)
  }

  /** The callback's own loop over a named stream is the batch-only poll of the public API. */
  lemma {:induction false} StreamPollIsTryNext(answers: seq<Answer>)
    ensures var (polled, used) := Poll(StreamKind, answers);
      var (reply, n) := Serve(TryNext, answers);
      used == n && match polled
        case Got(result) => reply == GotBatch(result)
        case Quiet => reply == NoData
        case Broken(error) => reply == Raised(error)
  {
    if answers != [] && IsBarrier(answers[0]) {
      StreamPollIsTryNext(answers[1..]);
    }
  }

  /** What happens around one pass of the loop that the loop does not decide. */
  datatype Observed = Observed(cancelled: bool, active: bool, attached: bool, dataOk: bool, handlerOk: bool)

  datatype Pass = Pass(observed: Observed, polled: Polled)

  datatype Event =
    | DataCalled(result: QueryResult, ok: bool)
    | SourceFailed(error: Error)
    | NotAttached(lost: Option<QueryResult>)
    | HandlerCalled(ok: bool)
    | NoHandler
    | SourceCancelled

  /** `handle_callback_error`: the event it leaves, which is the end of the loop unless the handler succeeded. */
  function HandlerEvent(hasHandler: bool, ok: bool): Event {
    if hasHandler then HandlerCalled(ok) else NoHandler
  }

  predicate Ends(event: Event) {
    event == HandlerCalled(false) || event.NoHandler? || event.NotAttached?
  }

  /** What one pass does, before it cancels the source if it must. */
  function Work(hasHandler: bool, pass: Pass): seq<Event> {
    var o := pass.observed;
    match pass.polled
    case Quiet => []
    case Got(result) =>
      if !o.attached then [NotAttached(Some(result))]
      else if o.dataOk then [DataCalled(result, true)]
      else [DataCalled(result, false), HandlerEvent(hasHandler, o.handlerOk)]
    case Broken(error) =>
      [SourceFailed(error), if o.attached then HandlerEvent(hasHandler, o.handlerOk) else NotAttached(None)]
  }

  predicate Stops(hasHandler: bool, pass: Pass) {
    var o, work := pass.observed, Work(hasHandler, pass);
    o.cancelled || !o.active || (work != [] && Ends(work[|work| - 1]))
  }

  function PassEvents(hasHandler: bool, pass: Pass): seq<Event> {
    if pass.observed.cancelled then [SourceCancelled]
    else if !pass.observed.active then []
    else Work(hasHandler, pass) + (if Stops(hasHandler, pass) then [SourceCancelled] else [])
  }

  /** The events of the loop, pass after pass, up to the one that ends it, when the core answers from a script. */
  function LoopLog(kind: Kind, hasHandler: bool, observed: seq<Observed>, answers: seq<Answer>): seq<Event> {
    if observed == [] then []
    else
      var (polled, used) := Poll(kind, answers);
      var pass := Pass(observed[0], polled);
      PassEvents(hasHandler, pass)
      + (if Stops(hasHandler, pass) then [] else LoopLog(kind, hasHandler, observed[1..], answers[used..]))
  }

  /** Why the loop is over, if it is. */
  datatype Exit = Running | WentInactive | WasCancelled

  function PassExit(hasHandler: bool, pass: Pass): Exit {
    if !Stops(hasHandler, pass) then Running
    else if pass.observed.cancelled || pass.observed.active then WasCancelled
    else WentInactive
  }

  function LoopExit(kind: Kind, hasHandler: bool, observed: seq<Observed>, answers: seq<Answer>): Exit {
    if observed == [] then Running
    else
      var (polled, used) := Poll(kind, answers);
      var exit := PassExit(hasHandler, Pass(observed[0], polled));
      if exit.Running? then LoopExit(kind, hasHandler, observed[1..], answers[used..]) else exit
  }

  /** `over` says whether the log ends by cancelling the source; it does so nowhere else. */
  ghost predicate CancelledOnlyLast(log: seq<Event>, over: bool) {
    && (over <==> log != [] && log[|log| - 1].SourceCancelled?)
    && (forall i :: 0 <= i < |log| - 1 ==> !log[i].SourceCancelled?)
  }

  lemma CancelledAfterWork(work: seq<Event>, rest: seq<Event>, over: bool)
    requires CancelledOnlyLast(work, false) && CancelledOnlyLast(rest, over)
    ensures CancelledOnlyLast(work + rest, over)
  {
    var log := work + rest;
    forall i | 0 <= i < |log| - 1 ensures !log[i].SourceCancelled? {
      if i < |work| {
        assert log[i] == work[i];
      } else {
        assert log[i] == rest[i - |work|];
      }
    }
    if rest == [] {
      assert log == work;
    }
  }

  /** The loop leaves by cancelling the source exactly when its log ends by saying so, and it never says so twice. */
  lemma {:induction false} ExitIsLogged(kind: Kind, hasHandler: bool, observed: seq<Observed>, answers: seq<Answer>)
    ensures CancelledOnlyLast(LoopLog(kind, hasHandler, observed, answers),
                              LoopExit(kind, hasHandler, observed, answers).WasCancelled?)
    decreases |observed|
  {
    if observed != [] {
      var (polled, used) := Poll(kind, answers);
      var pass := Pass(observed[0], polled);
      var rest := LoopLog(kind, hasHandler, observed[1..], answers[used..]);
      PassIsLogged(hasHandler, pass);
      if Stops(hasHandler, pass) {
        assert PassEvents(hasHandler, pass) + [] == PassEvents(hasHandler, pass);
      } else {
        ExitIsLogged(kind, hasHandler, observed[1..], answers[used..]);
        CancelledAfterWork(PassEvents(hasHandler, pass), rest,
                           LoopExit(kind, hasHandler, observed[1..], answers[used..]).WasCancelled?);
      }
    }
  }

  lemma PassIsLogged(hasHandler: bool, pass: Pass)
    ensures CancelledOnlyLast(PassEvents(hasHandler, pass), PassExit(hasHandler, pass).WasCancelled?)
  {}

  /** The subscription the thread owns. */
  class SubscriptionKind {
    const kind: Kind
    var answers: seq<Answer>
    var cancels: nat

    constructor (kind: Kind, answers: seq<Answer>)
      ensures this.kind == kind && this.answers == answers && cancels == 0
    {
      this.kind, this.answers, cancels := kind, answers, 0;
    }

    /** Polls once, skipping barriers; as many polls of the core as it has answers ready, plus one. */
    method TryNext() returns (polled: Polled)
      modifies this`answers
      ensures polled == Poll(kind, old(answers)).0
      ensures answers == old(answers)[Poll(kind, old(answers)).1..]
    {
      ghost var script := answers;
      ghost var skipped: nat := 0;
      while answers != []
        invariant skipped <= |script| && answers == script[skipped..]
        invariant Poll(kind, script) == (Poll(kind, answers).0, skipped + Poll(kind, answers).1)
        decreases |answers|
      {
        var answer := answers[0];
        assert answers[1..] == script[skipped + 1..];
        answers := answers[1..];
        match answer
        case Failed(error) => return Broken(error);
        case Nothing => return Quiet;
        case Frame(frame) =>
          if frame.Batch? {
            return Got(ResultOf(kind, frame));
          }
        skipped := skipped + 1;
      }
      return Quiet;
    }

    method Cancel()
      modifies this`cancels
      ensures cancels == old(cancels) + 1
    {
      cancels := cancels + 1;
    }
  }

  /** The work of one pass that found the flag clear and the source active. */
  method RunWork(source: SubscriptionKind, hasHandler: bool, o: Observed) returns (events: seq<Event>, shouldStop: bool)
    requires !o.cancelled && o.active
    modifies source`answers
    ensures var (polled, used) := Poll(source.kind, old(source.answers));
      && events == Work(hasHandler, Pass(o, polled))
      && shouldStop == Stops(hasHandler, Pass(o, polled))
      && source.answers == old(source.answers)[used..]
  {
    var polled := source.TryNext();
    match polled
    case Quiet =>
      return [], false;
    case Got(result) =>
      if !o.attached {
        return [NotAttached(Some(result))], true;
      }
      if o.dataOk {
        return [DataCalled(result, true)], false;
      }
      var event := HandlerEvent(hasHandler, o.handlerOk);
      return [DataCalled(result, false), event], Ends(event);
    case Broken(error) =>
      var event := if o.attached then HandlerEvent(hasHandler, o.handlerOk) else NotAttached(None);
      return [SourceFailed(error), event], Ends(event);
  }

  method RunPass(source: SubscriptionKind, hasHandler: bool, o: Observed) returns (events: seq<Event>, exit: Exit)
    modifies source
    ensures var (polled, used) := Poll(source.kind, old(source.answers));
      var pass := Pass(o, polled);
      && events == PassEvents(hasHandler, pass)
      && exit == PassExit(hasHandler, pass)
      && (exit.Running? ==> source.answers == old(source.answers)[used..])
    ensures exit.WasCancelled? <==> SourceCancelled in events
    ensures source.cancels == old(source.cancels) + (if exit.WasCancelled? then 1 else 0)
  {
    if o.cancelled {
      source.Cancel();
      return [SourceCancelled], WasCancelled;
    }
    if !o.active {
      return [], WentInactive;
    }
    var shouldStop;
    events, shouldStop := RunWork(source, hasHandler, o);
    exit := Running;
    if shouldStop {
      source.Cancel();
      events, exit := events + [SourceCancelled], WasCancelled;
    }
  }

  /** The source is cancelled once if the loop ends any other way than by finding it inactive. */
  method CallbackThreadLoop(source: SubscriptionKind, hasHandler: bool, observed: seq<Observed>)
      returns (log: seq<Event>, exit: Exit)
    modifies source
    ensures log == LoopLog(source.kind, hasHandler, observed, old(source.answers))
    ensures exit == LoopExit(source.kind, hasHandler, observed, old(source.answers))
    ensures source.cancels == old(source.cancels) + (if exit.WasCancelled? then 1 else 0)
  {
    log := [];
    exit := Running;
    var i := 0;
    ghost var all := LoopLog(source.kind, hasHandler, observed, source.answers);
    ghost var todo, rest := observed, all;
    while exit.Running? && i < |observed|
      invariant i <= |observed| && todo == observed[i..]
      invariant all == log + rest
      invariant rest == (if exit.Running? then LoopLog(source.kind, hasHandler, todo, source.answers) else [])
      invariant LoopExit(source.kind, hasHandler, observed, old(source.answers))
        == (if exit.Running? then LoopExit(source.kind, hasHandler, todo, source.answers) else exit)
      invariant source.cancels == old(source.cancels) + (if exit.WasCancelled? then 1 else 0)
    {
      ghost var later := observed[i + 1..];
      assert todo == [observed[i]] + later;
      var events;
      events, exit := RunPass(source, hasHandler, observed[i]);
      i, todo := i + 1, later;
      rest := if exit.Running? then LoopLog(source.kind, hasHandler, later, source.answers) else [];
      ConcatAssoc(log, events, rest);
      log := log + events;
    }
    assert rest == [];
  }
}
