/** The insert loops and the streaming writer as code (src/connection.rs, src/writer.rs). */
module Ingestion {
  import opened Common
  import opened Arrow

  /** What the core's log of a source records. */
  datatype CoreOp = Wrote(call: nat, batch: RecordBatch) | Flushed | ClosedCore

  datatype Failure = SchemaFailed | ConversionFailed | WriterClosed | CoreFailed

  datatype Outcome = Inserted(total: nat) | FlushedOk | ClosedOk | Failed(failure: Failure)

  /** The core behind a connection or a writer. `accepts` says which of its next calls will succeed; past its end they
      all do. */
  class CoreSource {
    var log: seq<CoreOp>
    var accepts: seq<bool>

    constructor (accepts: seq<bool>)
      ensures log == [] && this.accepts == accepts
    {
      log, this.accepts := [], accepts;
    }

    /** Whether the next call succeeds. */
    method Answer() returns (ok: bool)
      modifies this`accepts
      ensures ok == First(old(accepts))
      ensures accepts == (if old(accepts) == [] then [] else old(accepts)[1..])
    {
      ok := First(accepts);
      accepts := if accepts == [] then [] else accepts[1..];
    }

    /** A successful write appends the batch and reports its rows. */
    method Write(call: nat, batch: RecordBatch) returns (r: Result<nat, Failure>)
      modifies this
      ensures r == (if First(old(accepts)) then Ok(batch.rows) else Err(CoreFailed))
      ensures log == old(log) + (if r.Ok? then [Wrote(call, batch)] else [])
      ensures accepts == (if old(accepts) == [] then [] else old(accepts)[1..])
    {
      var ok := Answer();
      if !ok {
        return Err(CoreFailed);
      }
      log := log + [Wrote(call, batch)];
      r := Ok(batch.rows);
    }

    method Flush() returns (ok: bool)
      modifies this
      ensures ok == First(old(accepts)) && log == old(log) + (if ok then [Flushed] else [])
    {
      ok := Answer();
      log := log + (if ok then [Flushed] else []);
    }

    /** The core is closed even if its close reports an error. */
    method Close() returns (ok: bool)
      modifies this
      ensures ok == First(old(accepts)) && log == old(log) + [ClosedCore]
    {
      ok := Answer();
      log := log + [ClosedCore];
    }
  }

  predicate First(accepts: seq<bool>) {
    accepts == [] || accepts[0]
  }

  /** A call's entries for some batches. */
  function Tagged(call: nat, batches: seq<RecordBatch>): seq<CoreOp> {
    seq(|batches|, i requires 0 <= i < |batches| => Wrote(call, batches[i]))
  }

  lemma TaggedSnoc(call: nat, batches: seq<RecordBatch>, k: nat)
    requires k < |batches|
    ensures Tagged(call, batches[..k + 1]) == Tagged(call, batches[..k]) + [Wrote(call, batches[k])]
  {}

  /** How many of `n` writes the core accepts before the first it does not. */
  function Accepted(accepts: seq<bool>, n: nat): (k: nat)
    ensures k <= n
    ensures forall i :: 0 <= i < k && i < |accepts| ==> accepts[i]
    ensures k < n ==> k < |accepts| && !accepts[k]
  {
    if n == 0 || !First(accepts) then 0
    else 1 + Accepted(if accepts == [] then [] else accepts[1..], n - 1)
  }

  lemma {:induction false} AcceptedIs(accepts: seq<bool>, n: nat, k: nat)
    requires k <= n && (forall i :: 0 <= i < k && i < |accepts| ==> accepts[i])
    requires k < n ==> k < |accepts| && !accepts[k]
    ensures Accepted(accepts, n) == k
  {
    if k > 0 {
      AcceptedIs(if accepts == [] then [] else accepts[1..], n - 1, k - 1);
    }
  }

  /** What a write section appends, and what it returns. */
  function WriteEffect(call: nat, batches: seq<RecordBatch>, accepts: seq<bool>): (seq<CoreOp>, Outcome) {
    var k := Accepted(accepts, |batches|);
    (Tagged(call, batches[..k]), if k == |batches| then Inserted(TotalRows(batches)) else Failed(CoreFailed))
  }

  /** The insert loop: a whole batch list and its row count, or, on a core error, a proper prefix of it. */
  method InsertAll(core: CoreSource, call: nat, batches: seq<RecordBatch>) returns (r: Result<nat, Failure>)
    modifies core
    ensures var (entries, outcome) := WriteEffect(call, batches, old(core.accepts));
      && core.log == old(core.log) + entries
      && outcome == (match r case Ok(total) => Inserted(total) case Err(error) => Failed(error))
    ensures match r
      case Ok(total) => core.log == old(core.log) + Tagged(call, batches) && total == TotalRows(batches)
      case Err(error) =>
        error.CoreFailed? && exists k: nat :: k < |batches| && core.log == old(core.log) + Tagged(call, batches[..k])
    ensures (forall i :: 0 <= i < |batches| && i < |old(core.accepts)| ==> old(core.accepts)[i]) <==> r.Ok?
  {
    var total := 0;
    for i := 0 to |batches|
      invariant core.log == old(core.log) + Tagged(call, batches[..i])
      invariant total == TotalRows(batches[..i])
      invariant core.accepts == (if i <= |old(core.accepts)| then old(core.accepts)[i..] else [])
      invariant forall j :: 0 <= j < i && j < |old(core.accepts)| ==> old(core.accepts)[j]
    {
      assert core.accepts != [] ==> core.accepts[0] == old(core.accepts)[i];
      var written := core.Write(call, batches[i]);
      if written.Err? {
        AcceptedIs(old(core.accepts), |batches|, i);
        return Err(written.error);
      }
      total := total + written.value;
      TaggedSnoc(call, batches, i);
      TotalRowsStep(batches, i);
    }
    AcceptedIs(old(core.accepts), |batches|, |batches|);
    assert batches[..|batches|] == batches;
    r := Ok(total);
  }

  // ----- the critical sections of a writer -----------------------------------------------------

  /** One critical section: reading the schema, which a connection's core may not find; writing; flushing; closing. */
  datatype SectionCall =
    | SchemaCall(found: Option<Schema>)
    | WriteCall(call: nat, batches: seq<RecordBatch>)
    | FlushCall
    | CloseCall

  /** A section, and how the core answers in it. */
  datatype Request = Request(what: SectionCall, accepts: seq<bool>)

  datatype Reply = SchemaIs(schema: Schema) | Returned(outcome: Outcome)

  /** What a section appends to the core's log and what it replies, given whether the core is still there. */
  function Served(open: bool, request: Request): (seq<CoreOp>, Reply) {
    var ok := First(request.accepts);
    match request.what
    case SchemaCall(found) =>
      ([], if !open then Returned(Failed(WriterClosed))
           else if found.None? then Returned(Failed(SchemaFailed))
           else SchemaIs(found.value))
    case WriteCall(call, batches) =>
      if !open then ([], Returned(Failed(WriterClosed)))
      else
        var (entries, outcome) := WriteEffect(call, batches, request.accepts);
        (entries, Returned(outcome))
    case FlushCall =>
      if !open then ([], Returned(Failed(WriterClosed)))
      else if ok then ([Flushed], Returned(FlushedOk))
      else ([], Returned(Failed(CoreFailed)))
    case CloseCall =>
      if !open then ([], Returned(ClosedOk))
      else ([ClosedCore], Returned(if ok then ClosedOk else Failed(CoreFailed)))
  }

  /** The core is there until the first close. */
  function OpenAfter(requests: seq<Request>): bool {
    requests == [] || (OpenAfter(requests[..|requests| - 1]) && !requests[|requests| - 1].what.CloseCall?)
  }

  /** The log of sections one after another. */
  function ReplayLog(requests: seq<Request>): seq<CoreOp> {
    if requests == [] then []
    else
      var init, last := requests[..|requests| - 1], requests[|requests| - 1];
      ReplayLog(init) + Served(OpenAfter(init), last).0
  }

  function ReplayReplies(requests: seq<Request>): (replies: seq<Reply>)
    ensures |replies| == |requests|
  {
    if requests == [] then []
    else
      var init, last := requests[..|requests| - 1], requests[|requests| - 1];
      ReplayReplies(init) + [Served(OpenAfter(init), last).1]
  }

  lemma ReplaySnoc(requests: seq<Request>, last: Request)
    ensures var open, served := OpenAfter(requests), Served(OpenAfter(requests), last);
      && ReplayLog(requests + [last]) == ReplayLog(requests) + served.0
      && ReplayReplies(requests + [last]) == ReplayReplies(requests) + [served.1]
      && OpenAfter(requests + [last]) == (open && !last.what.CloseCall?)
  {
    assert (requests + [last])[..|requests|] == requests;
  }

  lemma ReplayStep(requests: seq<Request>, k: nat)
    requires k < |requests|
    ensures var open, served := OpenAfter(requests[..k]), Served(OpenAfter(requests[..k]), requests[k]);
      && ReplayLog(requests[..k + 1]) == ReplayLog(requests[..k]) + served.0
      && ReplayReplies(requests[..k + 1]) == ReplayReplies(requests[..k]) + [served.1]
      && OpenAfter(requests[..k + 1]) == (open && !requests[k].what.CloseCall?)
  {
    assert requests[..k + 1] == requests[..k] + [requests[k]];
    ReplaySnoc(requests[..k], requests[k]);
  }

  /** The streaming writer: the core is null once `close` has taken it. */
  class Writer {
    var inner: CoreSource?

    constructor (core: CoreSource)
      ensures inner == core
    {
      inner := core;
    }

    function Core(): set<object>
      reads this
    {
      if inner == null then {} else {inner}
    }

    /** The first critical section of an insert. */
    method SchemaSection(found: Option<Schema>) returns (r: Result<Schema, Failure>)
      ensures Served(inner != null, Request(SchemaCall(found), [])).1
           == (match r case Ok(schema) => SchemaIs(schema) case Err(failure) => Returned(Failed(failure)))
    {
      if inner == null {
        return Err(WriterClosed);
      }
      r := if found.None? then Err(SchemaFailed) else Ok(found.value);
    }

    /** The second one, which looks again whether the writer is closed. */
    method WriteSection(call: nat, batches: seq<RecordBatch>) returns (r: Result<nat, Failure>)
      modifies Core()
      ensures inner == old(inner)
      ensures inner == null ==> r == Err(WriterClosed)
      ensures inner != null ==>
        var (entries, outcome) := WriteEffect(call, batches, old(inner.accepts));
        && inner.log == old(inner.log) + entries
        && outcome == (match r case Ok(total) => Inserted(total) case Err(failure) => Failed(failure))
    {
      if inner == null {
        return Err(WriterClosed);
      }
      r := InsertAll(inner, call, batches);
    }

    /** A whole insert with nothing in between: `convert` is what the input becomes under a schema. */
    method Insert(call: nat, found: Option<Schema>, convert: Schema -> Option<seq<RecordBatch>>)
        returns (r: Result<nat, Failure>)
      modifies Core()
      ensures inner == old(inner)
      ensures inner == null ==> r == Err(WriterClosed)
      ensures inner != null && found.None? ==> r == Err(SchemaFailed) && inner.log == old(inner.log)
      ensures inner != null && found.Some? && convert(found.value).None? ==>
        r == Err(ConversionFailed) && inner.log == old(inner.log)
      ensures inner != null && found.Some? && convert(found.value).Some? ==>
        var batches := convert(found.value).value;
        var (entries, outcome) := WriteEffect(call, batches, old(inner.accepts));
        && inner.log == old(inner.log) + entries
        && outcome == (match r case Ok(total) => Inserted(total) case Err(failure) => Failed(failure))
    {
      var schema := SchemaSection(found);
      if schema.Err? {
        return Err(schema.error);
      }
      var batches := convert(schema.value);
      if batches.None? {
        return Err(ConversionFailed);
      }
      r := WriteSection(call, batches.value);
    }

    method Flush() returns (r: Result<(), Failure>)
      modifies Core()
      ensures inner == old(inner)
      ensures inner == null ==> r == Err(WriterClosed)
      ensures inner != null ==>
        && r == (if First(old(inner.accepts)) then Ok(()) else Err(CoreFailed))
        && inner.log == old(inner.log) + (if r.Ok? then [Flushed] else [])
    {
      if inner == null {
        return Err(WriterClosed);
      }
      var ok := inner.Flush();
      r := if ok then Ok(()) else Err(CoreFailed);
    }

    /** Closes the core at most once: it is gone even if its close fails. */
    method Close() returns (r: Result<(), Failure>)
      modifies this, Core()
      ensures inner == null
      ensures old(inner) == null ==> r == Ok(())
      ensures old(inner) != null ==>
        && r == (if First(old(inner.accepts)) then Ok(()) else Err(CoreFailed))
        && old(inner).log == old(inner.log) + [ClosedCore]
    {
      var writer := inner;
      inner := null;
      if writer == null {
        return Ok(());
      }
      var ok := writer.Close();
      r := if ok then Ok(()) else Err(CoreFailed);
    }

    /** One section as the code runs it, the core answering as the request says. */
    method Serve(request: Request) returns (reply: Reply)
      modifies this, Core()
      ensures inner == (if request.what.CloseCall? then null else old(inner))
      ensures reply == Served(old(inner) != null, request).1
      ensures old(inner) != null ==> old(inner).log == old(inner.log) + Served(true, request).0
    {
      if inner != null {
        inner.accepts := request.accepts;
      }
      match request.what
      case SchemaCall(found) =>
        var r := SchemaSection(found);
        reply := match r case Ok(schema) => SchemaIs(schema) case Err(failure) => Returned(Failed(failure));
      case WriteCall(call, batches) =>
        var r := WriteSection(call, batches);
        reply := Returned(match r case Ok(total) => Inserted(total) case Err(failure) => Failed(failure));
      case FlushCall =>
        var r := Flush();
        reply := Returned(match r case Ok(_) => FlushedOk case Err(failure) => Failed(failure));
      case CloseCall =>
        var r := Close();
        reply := Returned(match r case Ok(_) => ClosedOk case Err(failure) => Failed(failure));
    }

    /** Any sections, one after another, on a fresh core: exactly the log and the replies of the replay that the
        concurrent runs are held to. */
    method Perform(requests: seq<Request>) returns (replies: seq<Reply>)
      requires inner != null && inner.log == []
      modifies this, Core()
      ensures replies == ReplayReplies(requests) && old(inner).log == ReplayLog(requests)
    {
      replies := [];
      ghost var core := inner;
      for i := 0 to |requests|
        invariant inner == (if OpenAfter(requests[..i]) then core else null)
        invariant core.log == ReplayLog(requests[..i]) && replies == ReplayReplies(requests[..i])
      {
        ReplayStep(requests, i);
        var reply := Serve(requests[i]);
        replies := replies + [reply];
      }
      assert requests[..|requests|] == requests;
    }
  }
}
