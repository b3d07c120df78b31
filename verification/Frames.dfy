/** Frames of a named-stream subscription and what one call makes of the core's answers. */
module Frames {
  import opened Common
  import opened Arrow
  import opened QueryResults

  datatype CoreFrame =
    | Batch(batch: RecordBatch, sequence: nat, lease: LeaseId)
    | Barrier(sequence: nat, epoch: nat, checkpointId: nat, throughSequence: nat)

  datatype SubscriptionFrame = SubscriptionFrame(
    kind: string,
    sequence: nat,
    batch: Option<QueryResult>,
    epoch: Option<nat>,
    checkpointId: Option<nat>,
    throughSequence: Option<nat>)

  function FromCore(frame: CoreFrame): SubscriptionFrame {
    match frame
    case Batch(batch, sequence, lease) =>
      SubscriptionFrame("batch", sequence, Some(FromSubscriptionBatch(batch, lease)), None, None, None)
    case Barrier(sequence, epoch, checkpointId, through) =>
      SubscriptionFrame("barrier", sequence, None, Some(epoch), Some(checkpointId), Some(through))
  }

  function FrameBatch(frame: CoreFrame): Option<QueryResult> {
    match frame
    case Batch(batch, _, lease) => Some(FromSubscriptionBatch(batch, lease))
    case Barrier(_, _, _, _) => None
  }

  /** The result shows the rows of a core batch, with its schema and its lease. */
  ghost predicate Holds(result: QueryResult, frame: CoreFrame) {
    && frame.Batch?
    && result.batches == [frame.batch] && result.schema == frame.batch.schema
    && result.lease == Some(frame.lease)
  }

  /** What Python sees of a core frame: a batch with its rows and no cut, or a barrier with the core's cut and no
      rows. */
  ghost predicate Shows(shown: SubscriptionFrame, frame: CoreFrame) {
    && shown.sequence == frame.sequence
    && shown.kind == (if frame.Batch? then "batch" else "barrier")
    && (if frame.Batch? then shown.batch.Some? && Holds(shown.batch.value, frame) else shown.batch.None?)
    && shown.epoch == (if frame.Batch? then None else Some(frame.epoch))
    && shown.checkpointId == (if frame.Batch? then None else Some(frame.checkpointId))
    && shown.throughSequence == (if frame.Batch? then None else Some(frame.throughSequence))
  }

  datatype Error = Timeout | CoreError(message: string)

  /** What one call into the core can answer. */
  datatype Answer = Frame(frame: CoreFrame) | Nothing | Failed(error: Error)

  /** The operations of a named-stream subscription that take its lock. */
  datatype Call =
    | NextFrame | TryNextFrame | NextFrameTimeout
    | Next | TryNext | NextTimeout | AsyncNext
    | IsActive | Cancel

  predicate BatchOnly(call: Call) {
    call.Next? || call.TryNext? || call.NextTimeout? || call.AsyncNext?
  }

  predicate FrameCall(call: Call) {
    call.NextFrame? || call.TryNextFrame? || call.NextFrameTimeout?
  }

  datatype Reply =
    | NoData
    | GotFrame(frame: SubscriptionFrame)
    | GotBatch(result: QueryResult)
    | Raised(error: Error)
    | CancelDone

  /** One pass of a call's loop body: the reply it leaves with, or None to ask the core again. */
  function Handle(call: Call, answer: Answer): Option<Reply> {
    match answer
    case Failed(error) => Some(Raised(error))
    case Nothing => Some(NoData)
    case Frame(frame) =>
      if BatchOnly(call) then
        match FrameBatch(frame)
        case Some(result) => Some(GotBatch(result))
        case None => None
      else
        Some(GotFrame(FromCore(frame)))
  }

  /** A whole call that reads the core: its reply and how many core answers it used up.
      A script that has run out answers Nothing. */
  function Serve(call: Call, answers: seq<Answer>): (r: (Reply, nat))
    ensures r.1 <= |answers|
  {
    if answers == [] then (NoData, 0)
    else
      match Handle(call, answers[0])
      case Some(reply) => (reply, 1)
      case None =>
        var (reply, used) := Serve(call, answers[1..]);
        (reply, used + 1)
  }

  /** The batches among some answers, in order, each with its own lease. */
  function BatchesOf(answers: seq<Answer>): seq<QueryResult> {
    if answers == [] then []
    else (if answers[0].Frame? && answers[0].frame.Batch? then
            [QueryResult([answers[0].frame.batch], answers[0].frame.batch.schema, Some(answers[0].frame.lease))]
          else []) + BatchesOf(answers[1..])
  }

  function FramesOf(answers: seq<Answer>): seq<CoreFrame> {
    if answers == [] then []
    else (if answers[0].Frame? then [answers[0].frame] else []) + FramesOf(answers[1..])
  }

  predicate IsBarrier(answer: Answer) {
    answer.Frame? && answer.frame.Barrier?
  }

  /** The result a reply hands to the caller, directly or inside a frame. */
  function ResultsIn(reply: Reply): seq<QueryResult> {
    match reply
    case GotBatch(result) => [result]
    case GotFrame(frame) => if frame.batch.Some? then [frame.batch.value] else []
    case _ => []
  }

  lemma {:induction false} BatchesOfAppend(a: seq<Answer>, b: seq<Answer>)
    ensures BatchesOf(a + b) == BatchesOf(a) + BatchesOf(b)
  {
    if a == [] {
      assert a + b == b;
    } else {
      assert (a + b)[1..] == a[1..] + b;
      BatchesOfAppend(a[1..], b);
    }
  }

  lemma {:induction false} FramesOfAppend(a: seq<Answer>, b: seq<Answer>)
    ensures FramesOf(a + b) == FramesOf(a) + FramesOf(b)
  {
    if a == [] {
      assert a + b == b;
    } else {
      assert (a + b)[1..] == a[1..] + b && (a + b)[0] == a[0];
      FramesOfAppend(a[1..], b);
      var head := if a[0].Frame? then [a[0].frame] else [];
      assert FramesOf(a) == head + FramesOf(a[1..]);
      assert FramesOf(a + b) == head + FramesOf(a[1..] + b);
    }
  }

  lemma FramesOfSnoc(answers: seq<Answer>, last: Answer)
    ensures FramesOf(answers + [last]) == FramesOf(answers) + (if last.Frame? then [last.frame] else [])
  {
    FramesOfAppend(answers, [last]);
    assert [last][1..] == [];
  }

  ghost predicate AllBarriers(answers: seq<Answer>) {
    forall i :: 0 <= i < |answers| ==> IsBarrier(answers[i])
  }

  /** `used` answers are barriers and then one that decides the reply; without such an answer the reply is empty. */
  ghost predicate Decided(answers: seq<Answer>, reply: Reply, used: nat) {
    if AllBarriers(answers) then
      reply == NoData && used == |answers|
    else
      && 0 < used <= |answers|
      && AllBarriers(answers[..used - 1]) && !IsBarrier(answers[used - 1])
      && match answers[used - 1]
         case Frame(frame) => reply.GotBatch? && Holds(reply.result, frame)
         case Nothing => reply == NoData
         case Failed(error) => reply == Raised(error)
  }

  lemma AllBarriersCons(first: Answer, rest: seq<Answer>)
    requires IsBarrier(first)
    ensures AllBarriers([first] + rest) <==> AllBarriers(rest)
  {
    var all := [first] + rest;
    assert forall i :: 0 <= i < |rest| ==> rest[i] == all[i + 1];
  }

  lemma DecidedCons(first: Answer, rest: seq<Answer>, reply: Reply, used: nat)
    requires IsBarrier(first) && Decided(rest, reply, used)
    ensures Decided([first] + rest, reply, used + 1)
  {
    AllBarriersCons(first, rest);
    if !AllBarriers(rest) {
      AllBarriersCons(first, rest[..used - 1]);
      assert ([first] + rest)[..used] == [first] + rest[..used - 1];
    }
  }

  /** A batch-only call uses up a run of barriers and then exactly one more answer, which decides its reply. */
  lemma {:induction false} ServeBatchOnly(call: Call, answers: seq<Answer>)
    requires BatchOnly(call)
    ensures var (reply, used) := Serve(call, answers); Decided(answers, reply, used)
  {
    if answers != [] && IsBarrier(answers[0]) {
      var (reply, used) := Serve(call, answers[1..]);
      ServeBatchOnly(call, answers[1..]);
      DecidedCons(answers[0], answers[1..], reply, used);
      assert answers == [answers[0]] + answers[1..];
    } else if answers != [] {
      assert !AllBarriers(answers) && answers[..0] == [];
    }
  }

  /** Whatever a call does, the batch it hands out is exactly the batch content of the answers it used. */
  lemma {:induction false} ServeDelivers(call: Call, answers: seq<Answer>)
    requires BatchOnly(call) || FrameCall(call)
    ensures var (reply, used) := Serve(call, answers);
      ResultsIn(reply) == BatchesOf(answers[..used])
  {
    if answers != [] {
      var (reply, used) := Serve(call, answers);
      assert answers[..used][1..] == answers[1..][..used - 1];
      match Handle(call, answers[0])
      case Some(_) =>
        assert answers[..1] == [answers[0]];
        assert BatchesOf([answers[0]][1..]) == [];
      case None =>
        ServeDelivers(call, answers[1..]);
    }
  }

  /** A call's reply depends only on the answers it uses up. */
  lemma {:induction false} ServeIsLocal(call: Call, seen: seq<Answer>, rest: seq<Answer>)
    requires seen != [] && Handle(call, seen[|seen| - 1]).Some?
    requires forall i :: 0 <= i < |seen| - 1 ==> Handle(call, seen[i]).None?
    ensures Serve(call, seen + rest) == (Handle(call, seen[|seen| - 1]).value, |seen|)
  {
    if |seen| > 1 {
      assert (seen + rest)[1..] == seen[1..] + rest;
      ServeIsLocal(call, seen[1..], rest);
    }
  }

  // ----- sequences of calls, one after another -------------------------------------------------

  /** Replies of calls made in order against one subscription: `open` is false once the inner value is gone. */
  function Replay(open: bool, calls: seq<Call>, answers: seq<Answer>): (r: (seq<Reply>, nat))
    ensures r.1 <= |answers| && |r.0| == |calls|
  {
    if calls == [] then ([], 0)
    else if calls[0].Cancel? then
      var (replies, used) := Replay(false, calls[1..], answers);
      ([CancelDone] + replies, used)
    else if !open || calls[0].IsActive? then
      var (replies, used) := Replay(open, calls[1..], answers);
      ([NoData] + replies, used)
    else
      var (reply, n) := Serve(calls[0], answers);
      var (replies, used) := Replay(open, calls[1..], answers[n..]);
      ([reply] + replies, n + used)
  }

  function AllResults(replies: seq<Reply>): seq<QueryResult> {
    if replies == [] then [] else ResultsIn(replies[0]) + AllResults(replies[1..])
  }

  /** The batch-only API refines the framed one: however calls are mixed, the results handed out, taken together, are
      exactly the batches among the frames consumed, in order. */
  lemma {:induction false} ReplayDelivers(open: bool, calls: seq<Call>, answers: seq<Answer>)
    ensures var (replies, used) := Replay(open, calls, answers);
      AllResults(replies) == BatchesOf(answers[..used])
  {
    if calls == [] {
    } else if calls[0].Cancel? {
      ReplayDelivers(false, calls[1..], answers);
    } else if !open || calls[0].IsActive? {
      ReplayDelivers(open, calls[1..], answers);
    } else {
      var (reply, n) := Serve(calls[0], answers);
      var (replies, used) := Replay(open, calls[1..], answers[n..]);
      ReplayDelivers(open, calls[1..], answers[n..]);
      ServeDelivers(calls[0], answers);
      TakeSplit(answers, n, used);
      BatchesOfAppend(answers[..n], answers[n..][..used]);
      assert ([reply] + replies)[1..] == replies;
    }
  }

  /** A batch-only client and a framed client that consume the same answers see the same batches. */
  lemma BatchClientRefinesFrameClient(batchCalls: seq<Call>, frameCalls: seq<Call>, answers: seq<Answer>)
    requires Replay(true, batchCalls, answers).1 == Replay(true, frameCalls, answers).1
    ensures AllResults(Replay(true, batchCalls, answers).0) == AllResults(Replay(true, frameCalls, answers).0)
  {
    ReplayDelivers(true, batchCalls, answers);
    ReplayDelivers(true, frameCalls, answers);
  }

  /** A frame call's reply to one answer. */
  ghost predicate ShowsAnswer(reply: Reply, answer: Answer) {
    match answer
    case Frame(frame) => reply.GotFrame? && Shows(reply.frame, frame)
    case Nothing => reply == NoData
    case Failed(error) => reply == Raised(error)
  }

  /** Polling frame by frame, one call per answer, returns every frame, barriers included, and raises every error. */
  lemma {:induction false} FramedPollingReturnsEveryFrame(calls: seq<Call>, answers: seq<Answer>)
    requires |calls| == |answers|
    requires forall i :: 0 <= i < |calls| ==> FrameCall(calls[i])
    ensures var (replies, used) := Replay(true, calls, answers);
      used == |answers| && forall i :: 0 <= i < |answers| ==> ShowsAnswer(replies[i], answers[i])
  {
    if answers != [] {
      var rest := answers[1..];
      FramedPollingReturnsEveryFrame(calls[1..], rest);
      var (replies, _) := Replay(true, calls, answers);
      assert replies[1..] == Replay(true, calls[1..], rest).0;
      forall i | 0 <= i < |answers| ensures ShowsAnswer(replies[i], answers[i]) {
        if i > 0 {
          assert replies[i] == replies[1..][i - 1] && answers[i] == rest[i - 1];
        }
      }
    }
  }

  // ----- the rows handed out -------------------------------------------------------------------

  /** The record batches of some results, in order. */
  function Contents(results: seq<QueryResult>): seq<RecordBatch> {
    if results == [] then [] else results[0].batches + Contents(results[1..])
  }

  /** The record batches of the batch frames among some answers, in order. */
  function CoreBatches(answers: seq<Answer>): seq<RecordBatch> {
    if answers == [] then []
    else (if answers[0].Frame? && answers[0].frame.Batch? then [answers[0].frame.batch] else [])
         + CoreBatches(answers[1..])
  }

  lemma {:induction false} ContentsAreCoreBatches(answers: seq<Answer>)
    ensures Contents(BatchesOf(answers)) == CoreBatches(answers)
  {
    if answers != [] {
      ContentsAreCoreBatches(answers[1..]);
      var results := BatchesOf(answers);
      assert results != BatchesOf(answers[1..]) ==> results[1..] == BatchesOf(answers[1..]);
    }
  }

  /** So however calls are mixed, the rows handed out are the rows of the batch frames consumed. */
  lemma RowsHandedOutAreRowsConsumed(open: bool, calls: seq<Call>, answers: seq<Answer>)
    ensures var (replies, used) := Replay(open, calls, answers);
      Contents(AllResults(replies)) == CoreBatches(answers[..used])
  {
    ReplayDelivers(open, calls, answers);
    ContentsAreCoreBatches(answers[..Replay(open, calls, answers).1]);
  }
}
