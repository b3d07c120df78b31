/** The Python-visible result object (src/query.rs) and its constructors. */
module QueryResults {
  import opened Common
  import opened Arrow

  /** Identifies the charge a named-stream batch holds on the shared log. */
  type LeaseId = nat

  datatype QueryResult = QueryResult(batches: seq<RecordBatch>, schema: Schema, lease: Option<LeaseId>)

  function NewResult(batches: seq<RecordBatch>, schema: Schema): QueryResult {
    QueryResult(batches, schema, None)
  }

  function FromBatch(batch: RecordBatch): QueryResult {
    QueryResult([batch], batch.schema, None)
  }

  function FromSubscriptionBatch(batch: RecordBatch, lease: LeaseId): QueryResult {
    QueryResult([batch], batch.schema, Some(lease))
  }
}
