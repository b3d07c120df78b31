/** The parts of Arrow the bindings touch: types, fields, columns and record batches. */
module Arrow {
  import opened Common

  datatype TimeUnit = Second | Millisecond | Microsecond | Nanosecond

  /** `Plain` stands for every type that has no alternative representation here. */
  datatype DataType =
    | Utf8
    | LargeUtf8
    | Utf8View
    | Timestamp(unit: TimeUnit, zone: Option<string>)
    | Plain(name: string)

  datatype Cell = Null | Value(raw: int)

  datatype Field = Field(name: string, dataType: DataType, nullable: bool)

  type Schema = seq<Field>

  datatype Column = Column(dataType: DataType, cells: seq<Cell>)

  datatype RecordBatch = RecordBatch(schema: Schema, columns: seq<Column>, rows: nat)

  /** What Arrow guarantees of every record batch that exists. */
  ghost predicate WellFormed(b: RecordBatch) {
    && |b.schema| == |b.columns|
    && (forall i :: 0 <= i < |b.columns| ==>
          b.columns[i].dataType == b.schema[i].dataType && |b.columns[i].cells| == b.rows)
  }

  function Names(schema: Schema): seq<string> {
    seq(|schema|, i requires 0 <= i < |schema| => schema[i].name)
  }

  function TotalRows(batches: seq<RecordBatch>): nat {
    if batches == [] then 0 else batches[0].rows + TotalRows(batches[1..])
  }

  lemma {:induction false} TotalRowsAppend(xs: seq<RecordBatch>, ys: seq<RecordBatch>)
    ensures TotalRows(xs + ys) == TotalRows(xs) + TotalRows(ys)
  {
    if xs == [] {
      assert xs + ys == ys;
    } else {
      assert (xs + ys)[1..] == xs[1..] + ys;
      TotalRowsAppend(xs[1..], ys);
    }
  }

  /** Taking one more batch adds its rows. */
  lemma TotalRowsStep(batches: seq<RecordBatch>, k: nat)
    requires k < |batches|
    ensures TotalRows(batches[..k + 1]) == TotalRows(batches[..k]) + batches[k].rows
  {
    assert batches[..k + 1] == batches[..k] + [batches[k]];
    TotalRowsAppend(batches[..k], [batches[k]]);
  }
}
