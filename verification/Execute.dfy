/** `Connection.query` (src/connection.rs) and `Connection.execute` with its result (src/execute.rs): two ways to
    drain the same query stream. Both give up at the first failure of the stream; `execute` also takes statements
    that are not queries. */
module Execute {
  import opened Common
  import opened Arrow
  import opened QueryResults

  datatype Answer = Batch(batch: RecordBatch) | End | Fail(code: int)

  /** The core's query stream. `script` holds its coming answers; past its end it answers `End`. */
  class CoreStream {
    const schema: Schema
    var script: seq<Answer>

    constructor (schema: Schema, script: seq<Answer>)
      ensures this.schema == schema && this.script == script
    {
      this.schema, this.script := schema, script;
    }

    method Next() returns (r: Result<Option<RecordBatch>, int>)
      modifies this`script
      ensures old(script) == [] ==> r == Ok(None) && script == []
      ensures old(script) != [] ==>
        && script == old(script)[1..]
        && r == (match old(script)[0] case Batch(b) => Ok(Some(b)) case End => Ok(None) case Fail(e) => Err(e))
    {
      if script == [] {
        return Ok(None);
      }
      var answer := script[0];
      script := script[1..];
      match answer
      case Batch(b) => r := Ok(Some(b));
      case End => r := Ok(None);
      case Fail(e) => r := Err(e);
    }
  }

  /** What the core's `execute` gives. */
  datatype CoreResult =
    | Ddl(kind: string, name: string)
    | RowsAffected(rows: nat)
    | Query(stream: CoreStream)
    | Metadata(batch: RecordBatch)

  datatype Failure = CoreError(code: int) | NotAQuery

  datatype ResultType = DdlResult | RowsResult | QueryRows | MetadataResult

  datatype ExecuteResult = ExecuteResult(
    resultType: ResultType,
    rowsAffected: nat,
    ddl: Option<(string, string)>,
    queryResult: Option<QueryResult>)
  {
    function ToQueryResult(): Option<QueryResult> {
      match queryResult
      case None => None
      case Some(r) => Some(NewResult(r.batches, r.schema))
    }
  }

  // ----- draining a stream ---------------------------------------------------------------------

  /** The batches up to the first answer that is not one, unless that answer is an error. */
  function Drained(script: seq<Answer>): Result<seq<RecordBatch>, int> {
    if script == [] then Ok([])
    else
      match script[0]
      case End => Ok([])
      case Fail(code) => Err(code)
      case Batch(b) => (match Drained(script[1..])
                        case Ok(batches) => Ok([b] + batches)
                        case Err(code) => Err(code))
  }

  function Leading(script: seq<Answer>): (k: nat)
    ensures k <= |script|
    ensures forall i :: 0 <= i < k ==> script[i].Batch?
    ensures k < |script| ==> !script[k].Batch?
  {
    if script == [] || !script[0].Batch? then 0 else 1 + Leading(script[1..])
  }

  /** Draining, said without recursion: one batch for each leading batch answer, in order, and an error exactly if the
      answer after them is one. */
  lemma {:induction false} DrainedMeans(script: seq<Answer>)
    ensures var k := Leading(script);
      match Drained(script)
      case Ok(batches) =>
        && |batches| == k && (k < |script| ==> script[k].End?)
        && forall i :: 0 <= i < k ==> script[i] == Batch(batches[i])
      case Err(code) => k < |script| && script[k] == Fail(code)
  {
    if script != [] && script[0].Batch? {
      DrainedMeans(script[1..]);
      assert forall i :: 1 <= i < |script| ==> script[i] == script[1..][i - 1];
    }
  }

  lemma ResumeEnds(done: seq<RecordBatch>, script: seq<Answer>)
    ensures Resume([], script) == Drained(script)
    ensures Drained(script) == Ok([]) ==> Resume(done, script) == Ok(done)
  {
    assert done + [] == done;
    if Drained(script).Ok? {
      assert [] + Drained(script).value == Drained(script).value;
    }
  }

  lemma DrainedStep(done: seq<RecordBatch>, script: seq<Answer>)
    requires script != [] && script[0].Batch?
    ensures Resume(done, script) == Resume(done + [script[0].batch], script[1..])
  {
    if Drained(script[1..]).Ok? {
      ConcatAssoc(done, [script[0].batch], Drained(script[1..]).value);
    }
  }

  /** What a drain gives that has collected `done` with `script` to come. */
  function Resume(done: seq<RecordBatch>, script: seq<Answer>): Result<seq<RecordBatch>, int> {
    match Drained(script)
    case Ok(batches) => Ok(done + batches)
    case Err(code) => Err(code)
  }

  /** A core result as a value, its stream replaced by what the stream will answer. */
  datatype Outcome =
    | DdlOutcome(kind: string, name: string)
    | RowsOutcome(rows: nat)
    | StreamOutcome(schema: Schema, script: seq<Answer>)
    | MetadataOutcome(batch: RecordBatch)

  function OutcomeOf(result: CoreResult): Outcome
    reads if result.Query? then {result.stream} else {}
  {
    match result
    case Ddl(kind, name) => DdlOutcome(kind, name)
    case RowsAffected(rows) => RowsOutcome(rows)
    case Query(stream) => StreamOutcome(stream.schema, stream.script)
    case Metadata(batch) => MetadataOutcome(batch)
  }

  /** The result set that an outcome stands for, if any: a named stream's charge never comes with it. */
  function ResultSet(o: Outcome): Result<QueryResult, Failure> {
    match o
    case StreamOutcome(schema, script) =>
      (match Drained(script)
       case Ok(batches) => Ok(QueryResult(batches, schema, None))
       case Err(code) => Err(CoreError(code)))
    case MetadataOutcome(batch) => Ok(QueryResult([batch], batch.schema, None))
    case _ => Err(NotAQuery)
  }

  /** `query` returns the batches the stream answers before it ends, in order, with the stream's schema, or the one
      metadata batch; the stream's error, if it comes first, or a refusal otherwise. */
  lemma QueryGives(o: Outcome)
    ensures var r := ResultSet(o);
      match o
      case StreamOutcome(schema, script) =>
        (exists k: nat :: k <= |script| && (forall i :: 0 <= i < k ==> script[i].Batch?) &&
          if k < |script| && script[k].Fail? then r == Err(CoreError(script[k].code))
          else
            && (k < |script| ==> script[k].End?)
            && r.Ok? && r.value.schema == schema && |r.value.batches| == k
            && forall i :: 0 <= i < k ==> script[i].batch == r.value.batches[i])
      case MetadataOutcome(batch) => r.Ok? && r.value.batches == [batch] && r.value.schema == batch.schema
      case _ => r == Err(NotAQuery)
  {
    if o.StreamOutcome? {
      DrainedMeans(o.script);
      assert Leading(o.script) <= |o.script|;
    }
  }

  // ----- the two entry points ------------------------------------------------------------------

  /** `Connection.query`, given what the core's `execute` returned. */
  method QueryCall(result: CoreResult) returns (r: Result<QueryResult, Failure>)
    modifies if result.Query? then {result.stream} else {}
    ensures r == ResultSet(old(OutcomeOf(result)))
  {
    match result
    case Query(stream) =>
      var schema := stream.schema;
      var batches: seq<RecordBatch> := [];
      var next := Ok(None);
      ghost var goal := Drained(stream.script);
      ResumeEnds(batches, stream.script);
      while true
        invariant Resume(batches, stream.script) == goal
        decreases |stream.script|
      {
        ghost var before := stream.script;
        next := stream.Next();
        if next.Err? {
          return Err(CoreError(next.error));
        }
        if next.value.None? {
          ResumeEnds(batches, before);
          break;
        }
        DrainedStep(batches, before);
        batches := batches + [next.value.value];
      }
      r := Ok(NewResult(batches, schema));
    case Metadata(batch) =>
      r := Ok(FromBatch(batch));
    case _ =>
      r := Err(NotAQuery);
  }

  /** `ExecuteResult::from_core`. */
  method FromCore(result: CoreResult) returns (r: Result<ExecuteResult, Failure>)
    modifies if result.Query? then {result.stream} else {}
    ensures r == Executed(old(OutcomeOf(result)))
  {
    match result
    case Ddl(kind, name) =>
      r := Ok(ExecuteResult(DdlResult, 0, Some((kind, name)), None));
    case RowsAffected(rows) =>
      r := Ok(ExecuteResult(RowsResult, rows, None, None));
    case Query(stream) =>
      var schema := stream.schema;
      var batches: seq<RecordBatch> := [];
      ghost var script, read := stream.script, 0;
      var more := true;
      while more
        invariant read <= |script| && (more ==> stream.script == script[read..])
        invariant forall i :: 0 <= i < read ==> script[i].Batch?
        invariant batches == BatchesIn(script[..read])
        invariant !more ==> Leading(script) == read && (read < |script| ==> script[read].End?)
        decreases more, |stream.script|
      {
        var next := stream.Next();
        match next
        case Ok(Some(batch)) =>
          assert BatchesIn(script[..read + 1]) == BatchesIn(script[..read]) + [script[read].batch];
          batches, read := batches + [batch], read + 1;
        case Ok(None) =>
          LeadingIs(script, read);
          more := false;
        case Err(code) =>
          LeadingIs(script, read);
          return Err(CoreError(code));
      }
      var qr := NewResult(batches, schema);
      r := Ok(ExecuteResult(QueryRows, TotalRows(qr.batches), None, Some(qr)));
    case Metadata(batch) =>
      r := Ok(ExecuteResult(MetadataResult, 0, None, Some(FromBatch(batch))));
  }

  /** The batches in some answers that are all batches. */
  function BatchesIn(answers: seq<Answer>): seq<RecordBatch>
    requires forall i :: 0 <= i < |answers| ==> answers[i].Batch?
  {
    seq(|answers|, i requires 0 <= i < |answers| => answers[i].batch)
  }

  lemma {:induction false} LeadingIs(script: seq<Answer>, k: nat)
    requires k <= |script| && (forall i :: 0 <= i < k ==> script[i].Batch?) && (k < |script| ==> !script[k].Batch?)
    ensures Leading(script) == k
  {
    if k > 0 {
      LeadingIs(script[1..], k - 1);
    }
  }

  /** What `execute` reports of an outcome. The row count of a query is the rows of all its drained batches, although
      the attribute's documentation promises zero. */
  function Executed(o: Outcome): Result<ExecuteResult, Failure> {
    match o
    case DdlOutcome(kind, name) => Ok(ExecuteResult(DdlResult, 0, Some((kind, name)), None))
    case RowsOutcome(rows) => Ok(ExecuteResult(RowsResult, rows, None, None))
    case StreamOutcome(schema, script) =>
      var k := Leading(script);
      if k < |script| && script[k].Fail? then Err(CoreError(script[k].code))
      else
        var batches := BatchesIn(script[..k]);
        Ok(ExecuteResult(QueryRows, TotalRows(batches), None, Some(QueryResult(batches, schema, None))))
    case MetadataOutcome(batch) =>
      Ok(ExecuteResult(MetadataResult, 0, None, Some(QueryResult([batch], batch.schema, None))))
  }

  /** A DDL statement reports its kind and object and no rows, a DML statement the core's row count, metadata its batch
      and no rows; only a query can fail. */
  lemma ExecuteReports(o: Outcome)
    ensures var r := Executed(o);
      && (r.Err? ==> o.StreamOutcome?)
      && (r.Ok? ==>
            && (r.value.rowsAffected > 0 ==> o.RowsOutcome? || o.StreamOutcome?)
            && (o.RowsOutcome? ==> r.value.resultType.RowsResult? && r.value.rowsAffected == o.rows)
            && (o.DdlOutcome? ==> r.value.resultType.DdlResult?)
            && r.value.ddl == (if o.DdlOutcome? then Some((o.kind, o.name)) else None)
            && (r.value.queryResult.Some? <==> o.StreamOutcome? || o.MetadataOutcome?)
            && (o.StreamOutcome? ==> r.value.resultType.QueryRows?)
            && (o.MetadataOutcome? ==>
                  r.value.resultType.MetadataResult? && r.value.queryResult.value.batches == [o.batch]))
  {}

  // ----- the two entry points agree ------------------------------------------------------------

  /** For the same outcome `execute(sql).to_query_result()` is a result exactly when `query(sql)` returns one, with
      the same batches and schema; a stream error is the only way `execute` fails, and `query` then fails with it too.
      */
  lemma ExecuteAgreesWithQuery(o: Outcome)
    ensures forall r :: ResultSet(o) == Ok(r) <==> Executed(o).Ok? && Executed(o).value.ToQueryResult() == Some(r)
    ensures forall e :: Executed(o) == Err(e) <==> e.CoreError? && ResultSet(o) == Err(e)
    ensures ResultSet(o) == Err(NotAQuery) <==> Executed(o).Ok? && Executed(o).value.ToQueryResult() == None
  {
    if o.StreamOutcome? {
      DrainedMeans(o.script);
      if Drained(o.script).Ok? {
        assert Drained(o.script).value == BatchesIn(o.script[..Leading(o.script)]);
      }
    }
  }

  /** A query's reported row count is the rows of the batches its stream delivered, each counted once. */
  lemma {:induction false} QueryRowsAreDeliveredRows(schema: Schema, script: seq<Answer>)
    requires Executed(StreamOutcome(schema, script)).Ok?
    ensures Executed(StreamOutcome(schema, script)).value.rowsAffected == RowsUpTo(script, Leading(script))
  {
    RowsOfBatches(script, Leading(script));
  }

  /** So the count is 0, as the attribute's documentation promises of a query, if and only if every delivered batch is
      empty. */
  lemma ReportsZeroIff(schema: Schema, script: seq<Answer>)
    requires Executed(StreamOutcome(schema, script)).Ok?
    ensures Executed(StreamOutcome(schema, script)).value.rowsAffected == 0
      <==> forall i :: 0 <= i < Leading(script) ==> script[i].batch.rows == 0
  {
    QueryRowsAreDeliveredRows(schema, script);
    NoRowsIff(script, Leading(script));
  }

  lemma {:induction false} NoRowsIff(script: seq<Answer>, k: nat)
    requires k <= |script| && forall i :: 0 <= i < k ==> script[i].Batch?
    ensures RowsUpTo(script, k) == 0 <==> forall i :: 0 <= i < k ==> script[i].batch.rows == 0
  {
    if k > 0 {
      NoRowsIff(script, k - 1);
    }
  }

  /** One batch with a row is reported as one row. */
  lemma OneRowQueryReportsOne(b: RecordBatch)
    requires b.rows == 1
    ensures var executed := Executed(StreamOutcome(b.schema, [Batch(b), End]));
      executed.Ok? && executed.value.resultType.QueryRows? && executed.value.rowsAffected == 1
  {
    var script := [Batch(b), End];
    LeadingIs(script, 1);
    QueryRowsAreDeliveredRows(b.schema, script);
    assert RowsUpTo(script, 1) == RowsUpTo(script, 0) + 1;
  }

  /** Rows delivered by the first `k` answers. */
  function RowsUpTo(script: seq<Answer>, k: nat): nat
    requires k <= |script|
  {
    if k == 0 then 0 else RowsUpTo(script, k - 1) + (if script[k - 1].Batch? then script[k - 1].batch.rows else 0)
  }

  lemma {:induction false} RowsOfBatches(script: seq<Answer>, k: nat)
    requires k <= |script| && forall i :: 0 <= i < k ==> script[i].Batch?
    ensures TotalRows(BatchesIn(script[..k])) == RowsUpTo(script, k)
  {
    if k > 0 {
      RowsOfBatches(script, k - 1);
      var batches := BatchesIn(script[..k]);
      assert batches[..k - 1] == BatchesIn(script[..k - 1]) && batches[..k] == batches;
      TotalRowsStep(batches, k - 1);
    }
  }
}
