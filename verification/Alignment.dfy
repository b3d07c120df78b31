/** Aligning input batches to a source schema (`align_batches_to_schema`, src/conversion.rs). */
module Alignment {
  import opened Common
  import opened Arrow

  /** Arrow's cast is a parameter: it may fail, and is only known to keep the length and to produce the type asked
      for. */
  type Cast = (Column, DataType) -> Option<Column>

  ghost predicate CastContract(cast: Cast) {
    forall column: Column, target: DataType :: cast(column, target).Some? ==>
      var r := cast(column, target).value; r.dataType == target && |r.cells| == |column.cells|
  }

  datatype Error =
    | WrongColumnCount(declared: nat, present: nat)
    | MissingColumn(name: string)
    | CannotNormalize(name: string, from: DataType, to: DataType)
    | WrongType(name: string, expected: DataType, got: DataType)
    | NoColumns
    | NullsInColumn(name: string)
    | UnequalLengths

  predicate IsString(t: DataType) {
    t.Utf8? || t.LargeUtf8? || t.Utf8View?
  }

  predicate RepresentationCast(from: DataType, to: DataType) {
    (IsString(from) && IsString(to)) || (from.Timestamp? && to.Timestamp? && from.zone == to.zone)
  }

  predicate Compatible(from: DataType, to: DataType) {
    from == to || RepresentationCast(from, to)
  }

  function Find(names: seq<string>, name: string): (r: Option<nat>)
    ensures r.Some? ==> r.value < |names| && names[r.value] == name
    ensures r.Some? ==> forall i :: 0 <= i < r.value ==> names[i] != name
    ensures r.None? ==> forall i :: 0 <= i < |names| ==> names[i] != name
  {
    if names == [] then None
    else if names[0] == name then Some(0)
    else
      match Find(names[1..], name)
      case Some(i) =>
        assert forall j :: 0 < j < |names| ==> names[j] == names[1..][j - 1];
        Some(i + 1)
      case None =>
        assert forall j :: 0 < j < |names| ==> names[j] == names[1..][j - 1];
        None
  }

  /** The first field with the name. */
  function IndexOf(schema: Schema, name: string): (r: Option<nat>)
    ensures r.Some? ==> r.value < |schema| && schema[r.value].name == name
    ensures r.Some? ==> forall i :: 0 <= i < r.value ==> schema[i].name != name
    ensures r.None? ==> forall i :: 0 <= i < |schema| ==> schema[i].name != name
  {
    var r := Find(Names(schema), name);
    assert forall i :: 0 <= i < |schema| ==> Names(schema)[i] == schema[i].name;
    r
  }

  /** One output column. */
  function AlignColumn(cast: Cast, batch: RecordBatch, field: Field): Result<Column, Error>
    requires WellFormed(batch)
  {
    match IndexOf(batch.schema, field.name)
    case None => Err(MissingColumn(field.name))
    case Some(index) =>
      var column := batch.columns[index];
      if column.dataType == field.dataType then Ok(column)
      else if RepresentationCast(column.dataType, field.dataType) then
        match cast(column, field.dataType)
        case Some(normalized) => Ok(normalized)
        case None => Err(CannotNormalize(field.name, column.dataType, field.dataType))
      else Err(WrongType(field.name, field.dataType, column.dataType))
  }

  /** Output columns in declared order; the first that fails decides the error. */
  function AlignColumns(cast: Cast, batch: RecordBatch, fields: Schema): (r: Result<seq<Column>, Error>)
    requires WellFormed(batch)
    ensures r.Ok? ==> |r.value| == |fields|
    ensures r.Ok? ==> forall i :: 0 <= i < |fields| ==> AlignColumn(cast, batch, fields[i]) == Ok(r.value[i])
  {
    if fields == [] then Ok([])
    else
      match AlignColumn(cast, batch, fields[0])
      case Err(error) => Err(error)
      case Ok(column) =>
        match AlignColumns(cast, batch, fields[1..])
        case Err(error) => Err(error)
        case Ok(columns) => Ok([column] + columns)
  }

  /** The first field declared non-nullable whose column holds a null. */
  function NullViolation(fields: Schema, columns: seq<Column>): Option<string>
    requires |fields| == |columns|
  {
    if fields == [] then None
    else if !fields[0].nullable && Null in columns[0].cells then Some(fields[0].name)
    else NullViolation(fields[1..], columns[1..])
  }

  /** Arrow's own construction checks, on columns already of the declared types. */
  function TryNew(fields: Schema, columns: seq<Column>): Result<RecordBatch, Error>
    requires |fields| == |columns|
  {
    if columns == [] then Err(NoColumns)
    else
      match NullViolation(fields, columns)
      case Some(name) => Err(NullsInColumn(name))
      case None =>
        var rows := |columns[0].cells|;
        if exists i :: 0 <= i < |columns| && |columns[i].cells| != rows then Err(UnequalLengths)
        else Ok(RecordBatch(fields, columns, rows))
  }

  function AlignBatch(cast: Cast, fields: Schema, batch: RecordBatch): Result<RecordBatch, Error>
    requires WellFormed(batch)
  {
    if |batch.columns| != |fields| then Err(WrongColumnCount(|fields|, |batch.columns|))
    else
      match AlignColumns(cast, batch, fields)
      case Err(error) => Err(error)
      case Ok(columns) => TryNew(fields, columns)
  }

  /** Batches in order; the first that fails decides the error. Without a schema they pass unchanged. */
  function AlignBatches(cast: Cast, schema: Option<Schema>, batches: seq<RecordBatch>): Result<seq<RecordBatch>, Error>
    requires forall b: RecordBatch :: b in batches ==> WellFormed(b)
  {
    if schema.None? then Ok(batches)
    else if batches == [] then Ok([])
    else
      match AlignBatch(cast, schema.value, batches[0])
      case Err(error) => Err(error)
      case Ok(first) =>
        match AlignBatches(cast, schema, batches[1..])
        case Err(error) => Err(error)
        case Ok(rest) => Ok([first] + rest)
  }

  // ----- what an aligned batch is --------------------------------------------------------------

  ghost predicate DistinctNames(fields: Schema) {
    forall i, j :: 0 <= i < j < |fields| ==> fields[i].name != fields[j].name
  }

  /** Where each declared field finds its column. */
  function IndexMap(fields: Schema, batch: RecordBatch): seq<nat> {
    seq(|fields|, i requires 0 <= i < |fields| =>
      match IndexOf(batch.schema, fields[i].name) case Some(k) => k case None => 0)
  }

  /** A successful alignment keeps the rows, declares exactly the source schema, and is a batch Arrow accepts. */
  lemma AlignedShape(cast: Cast, fields: Schema, batch: RecordBatch)
    requires CastContract(cast) && WellFormed(batch)
    requires AlignBatch(cast, fields, batch).Ok?
    ensures var r := AlignBatch(cast, fields, batch).value;
      && r.schema == fields && |r.columns| == |fields| && r.rows == batch.rows && WellFormed(r)
      && forall i :: 0 <= i < |fields| ==> AlignColumn(cast, batch, fields[i]) == Ok(r.columns[i])
  {
    var columns := AlignColumns(cast, batch, fields).value;
    forall i | 0 <= i < |fields|
      ensures columns[i].dataType == fields[i].dataType && |columns[i].cells| == batch.rows
    {
      assert AlignColumn(cast, batch, fields[i]) == Ok(columns[i]);
    }
  }

  /** No column is dropped and none is used twice: with distinct declared names, the fields of a successful alignment
      draw on every input column exactly once. */
  lemma AlignmentPermutesColumns(cast: Cast, fields: Schema, batch: RecordBatch)
    requires CastContract(cast) && WellFormed(batch) && DistinctNames(fields)
    requires AlignBatch(cast, fields, batch).Ok?
    ensures IsPermutation(IndexMap(fields, batch), |batch.columns|)
    ensures var r := AlignBatch(cast, fields, batch).value;
      forall i :: 0 <= i < |fields| ==>
        var source := batch.columns[IndexMap(fields, batch)[i]];
        && r.rows == batch.rows
        && (source.dataType == fields[i].dataType ==> r.columns[i] == source)
        && (source.dataType != fields[i].dataType ==>
              RepresentationCast(source.dataType, fields[i].dataType)
              && cast(source, fields[i].dataType) == Some(r.columns[i]))
  {
    AlignedShape(cast, fields, batch);
    var p := IndexMap(fields, batch);
    forall i | 0 <= i < |fields| ensures p[i] < |batch.columns| && batch.schema[p[i]].name == fields[i].name {
      assert AlignColumn(cast, batch, fields[i]).Ok?;
    }
    assert Distinct(p);
    DistinctBelowIsPermutation(p, |batch.columns|);
  }

  // ----- the order of the input's columns does not matter --------------------------------------

  /** The same batch with its columns in another order. */
  function Reordered(batch: RecordBatch, p: seq<nat>): RecordBatch
    requires WellFormed(batch) && |p| == |batch.columns|
    requires forall i :: 0 <= i < |p| ==> p[i] < |p|
  {
    RecordBatch(seq(|p|, i requires 0 <= i < |p| => batch.schema[p[i]]),
                seq(|p|, i requires 0 <= i < |p| => batch.columns[p[i]]),
                batch.rows)
  }

  lemma ReorderedColumn(cast: Cast, batch: RecordBatch, p: seq<nat>, field: Field)
    requires WellFormed(batch) && DistinctNames(batch.schema) && IsPermutation(p, |batch.columns|)
    ensures AlignColumn(cast, Reordered(batch, p), field) == AlignColumn(cast, batch, field)
  {
    var other := Reordered(batch, p);
    match IndexOf(batch.schema, field.name)
    case None =>
    case Some(k) =>
      assert k in p;
      var i :| 0 <= i < |p| && p[i] == k;
      assert other.schema[i].name == field.name;
      var j := IndexOf(other.schema, field.name).value;
      assert batch.schema[p[j]].name == field.name;
      assert p[j] == k;
  }

  lemma {:induction false} ReorderedColumns(cast: Cast, batch: RecordBatch, p: seq<nat>, fields: Schema)
    requires WellFormed(batch) && DistinctNames(batch.schema) && IsPermutation(p, |batch.columns|)
    ensures AlignColumns(cast, Reordered(batch, p), fields) == AlignColumns(cast, batch, fields)
  {
    if fields != [] {
      ReorderedColumn(cast, batch, p, fields[0]);
      ReorderedColumns(cast, batch, p, fields[1..]);
    }
  }

  /** Whatever order a batch with distinct names has its columns in, it aligns to the same batch or fails the same
      way. */
  lemma ColumnOrderDoesNotMatter(cast: Cast, fields: Schema, batch: RecordBatch, p: seq<nat>)
    requires WellFormed(batch) && DistinctNames(batch.schema) && IsPermutation(p, |batch.columns|)
    ensures AlignBatch(cast, fields, Reordered(batch, p)) == AlignBatch(cast, fields, batch)
  {
    ReorderedColumns(cast, batch, p, fields);
  }

  // ----- aligning twice ------------------------------------------------------------------------

  /** Fields that share a name share a type. */
  ghost predicate SameNameSameType(fields: Schema) {
    forall i, j :: 0 <= i < j < |fields| && fields[i].name == fields[j].name ==>
      fields[i].dataType == fields[j].dataType
  }

  /** Some two fields share a name but could never both be fed from one column. */
  ghost predicate NeverAligns(fields: Schema) {
    exists i, j :: 0 <= i < j < |fields| && fields[i].name == fields[j].name
      && !Compatible(fields[i].dataType, fields[j].dataType)
  }

  ghost predicate IdempotentForEveryCast(fields: Schema) {
    forall cast: Cast, batch: RecordBatch ::
      CastContract(cast) && WellFormed(batch) && AlignBatch(cast, fields, batch).Ok?
      ==> AlignedAgain(cast, fields, batch)
  }

  /** Aligning the aligned batch changes nothing. */
  ghost predicate AlignedAgain(cast: Cast, fields: Schema, batch: RecordBatch)
    requires CastContract(cast) && WellFormed(batch) && AlignBatch(cast, fields, batch).Ok?
  {
    AlignedShape(cast, fields, batch);
    AlignBatch(cast, fields, AlignBatch(cast, fields, batch).value) == AlignBatch(cast, fields, batch)
  }

  /** Each field aligns to its column. */
  ghost predicate EachAligns(cast: Cast, again: RecordBatch, fields: Schema, columns: seq<Column>)
    requires WellFormed(again)
  {
    |columns| == |fields| && forall i :: 0 <= i < |fields| ==> AlignColumn(cast, again, fields[i]) == Ok(columns[i])
  }

  lemma {:induction false} ColumnsAlignThemselves(cast: Cast, again: RecordBatch, fields: Schema, columns: seq<Column>)
    requires WellFormed(again) && EachAligns(cast, again, fields, columns)
    ensures AlignColumns(cast, again, fields) == Ok(columns)
  {
    if fields == [] {
      assert columns == [];
    } else {
      ColumnsAlignThemselves(cast, again, fields[1..], columns[1..]);
      assert columns == [columns[0]] + columns[1..];
    }
  }

  lemma OwnColumn(cast: Cast, fields: Schema, batch: RecordBatch, r: RecordBatch, i: nat)
    requires WellFormed(batch) && WellFormed(r) && r.schema == fields && i < |fields| && SameNameSameType(fields)
    requires forall k :: 0 <= k < |fields| ==> AlignColumn(cast, batch, fields[k]) == Ok(r.columns[k])
    ensures AlignColumn(cast, r, fields[i]) == Ok(r.columns[i])
  {
    var k := IndexOf(fields, fields[i].name).value;
    assert k <= i && fields[k].dataType == fields[i].dataType;
    assert AlignColumn(cast, batch, fields[k]) == Ok(r.columns[k]);
    assert AlignColumn(cast, batch, fields[i]) == Ok(r.columns[i]);
  }

  lemma AlignIsIdempotent(cast: Cast, fields: Schema, batch: RecordBatch)
    requires CastContract(cast) && WellFormed(batch) && SameNameSameType(fields)
    requires AlignBatch(cast, fields, batch).Ok?
    ensures AlignedAgain(cast, fields, batch)
  {
    AlignedShape(cast, fields, batch);
    var r := AlignBatch(cast, fields, batch).value;
    forall i | 0 <= i < |fields| ensures AlignColumn(cast, r, fields[i]) == Ok(r.columns[i]) {
      OwnColumn(cast, fields, batch, r, i);
    }
    ColumnsAlignThemselves(cast, r, fields, r.columns);
    assert r.columns == AlignColumns(cast, batch, fields).value;
  }

  /** A cast that conforms to the contract and leaves a trace. */
  function Marking(column: Column, target: DataType): Option<Column> {
    Some(Column(target, seq(|column.cells|, i requires 0 <= i < |column.cells| =>
      match column.cells[i] case Null => Null case Value(v) => Value(v + 1))))
  }

  /** One row, one column per field, of the declared types but for column `i`, which has type `t` and the cell. */
  function Probe(fields: Schema, i: nat, t: DataType, cell: Cell): RecordBatch
    requires i < |fields|
  {
    RecordBatch(
      seq(|fields|, k requires 0 <= k < |fields| => if k == i then fields[k].(dataType := t) else fields[k]),
      seq(|fields|, k requires 0 <= k < |fields| =>
        if k == i then Column(t, [cell]) else Column(fields[k].dataType, [Value(0)])),
      1)
  }

  /** Two fields fed from one column are compatible. */
  lemma OneSourceIsCompatible(cast: Cast, batch: RecordBatch, a: Field, b: Field)
    requires WellFormed(batch) && a.name == b.name
    requires AlignColumn(cast, batch, a).Ok? && AlignColumn(cast, batch, b).Ok?
    ensures Compatible(a.dataType, b.dataType)
  {}

  lemma IncompatibleNeverAligns(cast: Cast, fields: Schema, batch: RecordBatch)
    requires CastContract(cast) && WellFormed(batch) && NeverAligns(fields)
    ensures AlignBatch(cast, fields, batch).Err?
  {
    var i, j :| 0 <= i < j < |fields| && fields[i].name == fields[j].name
      && !Compatible(fields[i].dataType, fields[j].dataType);
    if AlignBatch(cast, fields, batch).Ok? {
      var r := AlignColumns(cast, batch, fields);
      assert AlignColumn(cast, batch, fields[i]) == Ok(r.value[i]);
      assert AlignColumn(cast, batch, fields[j]) == Ok(r.value[j]);
      OneSourceIsCompatible(cast, batch, fields[i], fields[j]);
    }
  }

  lemma ProbeColumn(fields: Schema, f: nat, t: DataType, k: nat)
    requires f < |fields| && k < |fields|
    requires IndexOf(fields, fields[f].name) == Some(f) && Compatible(t, fields[f].dataType)
    requires !NeverAligns(fields)
    ensures var probe := Probe(fields, f, t, Value(0));
      var m := IndexOf(fields, fields[k].name).value;
      var given := if m == f then t else fields[m].dataType;
      && WellFormed(probe)
      && AlignColumn(Marking, probe, fields[k])
         == Ok(Column(fields[k].dataType, [Value(if given == fields[k].dataType then 0 else 1)]))
  {
    var probe := Probe(fields, f, t, Value(0));
    var m := IndexOf(fields, fields[k].name).value;
    IndexByNames(fields, probe.schema, fields[k].name);
    if m != k {
      assert m < k && fields[m].name == fields[k].name;
      assert Compatible(fields[m].dataType, fields[k].dataType);
    }
    assert Marking(Column(t, [Value(0)]), fields[k].dataType).value.cells == [Value(1)];
    assert Marking(Column(fields[m].dataType, [Value(0)]), fields[k].dataType).value.cells == [Value(1)];
  }

  /** Looking a name up depends only on the names. */
  lemma IndexByNames(a: Schema, b: Schema, name: string)
    requires |a| == |b| && forall i :: 0 <= i < |a| ==> a[i].name == b[i].name
    ensures IndexOf(a, name) == IndexOf(b, name)
  {
    assert Names(a) == Names(b);
  }

  lemma {:induction false} AllColumnsAlign(cast: Cast, batch: RecordBatch, fields: Schema)
    requires WellFormed(batch)
    requires forall i :: 0 <= i < |fields| ==> AlignColumn(cast, batch, fields[i]).Ok?
    ensures AlignColumns(cast, batch, fields).Ok?
  {
    if fields != [] {
      assert AlignColumn(cast, batch, fields[0]).Ok?;
      forall i | 0 <= i < |fields[1..]| ensures AlignColumn(cast, batch, fields[1..][i]).Ok? {
        assert AlignColumn(cast, batch, fields[i + 1]).Ok?;
      }
      AllColumnsAlign(cast, batch, fields[1..]);
    }
  }

  lemma {:induction false} NullViolationIff(fields: Schema, columns: seq<Column>)
    requires |fields| == |columns|
    ensures NullViolation(fields, columns).None?
      <==> forall i :: 0 <= i < |fields| ==> fields[i].nullable || Null !in columns[i].cells
  {
    if fields != [] {
      NullViolationIff(fields[1..], columns[1..]);
      if NullViolation(fields, columns).None? {
        forall i | 0 <= i < |fields| ensures fields[i].nullable || Null !in columns[i].cells {
          if i > 0 { assert fields[i] == fields[1..][i - 1] && columns[i] == columns[1..][i - 1]; }
        }
      } else if fields[0].nullable || Null !in columns[0].cells {
        var i :| 0 <= i < |fields[1..]| && !(fields[1..][i].nullable || Null !in columns[1..][i].cells);
        assert fields[i + 1] == fields[1..][i];
      }
    }
  }

  /** The field gets a column it can hold. */
  ghost predicate FieldAccepts(cast: Cast, batch: RecordBatch, field: Field)
    requires WellFormed(batch)
  {
    var r := AlignColumn(cast, batch, field);
    r.Ok? && (field.nullable || Null !in r.value.cells)
  }

  lemma ColumnAccepted(cast: Cast, batch: RecordBatch, field: Field, column: Column)
    requires CastContract(cast) && WellFormed(batch) && AlignColumn(cast, batch, field) == Ok(column)
    ensures |column.cells| == batch.rows
    ensures FieldAccepts(cast, batch, field) <==> field.nullable || Null !in column.cells
  {}

  lemma ColumnsAccepted(cast: Cast, fields: Schema, batch: RecordBatch, columns: seq<Column>)
    requires CastContract(cast) && WellFormed(batch) && EachAligns(cast, batch, fields, columns)
    ensures forall i :: 0 <= i < |fields| ==> |columns[i].cells| == batch.rows
    ensures NullViolation(fields, columns).None? <==>
      forall i :: 0 <= i < |fields| ==> FieldAccepts(cast, batch, fields[i])
  {
    NullViolationIff(fields, columns);
    forall i | 0 <= i < |fields|
      ensures |columns[i].cells| == batch.rows
      ensures FieldAccepts(cast, batch, fields[i]) <==> fields[i].nullable || Null !in columns[i].cells
    {
      ColumnAccepted(cast, batch, fields[i], columns[i]);
    }
  }

  lemma AcceptedIff(cast: Cast, fields: Schema, batch: RecordBatch)
    requires CastContract(cast) && WellFormed(batch)
    ensures AlignBatch(cast, fields, batch).Ok?
      <==> |fields| == |batch.columns| && fields != []
           && forall i :: 0 <= i < |fields| ==> FieldAccepts(cast, batch, fields[i])
  {
    if forall i :: 0 <= i < |fields| ==> FieldAccepts(cast, batch, fields[i]) {
      assert forall i :: 0 <= i < |fields| ==>
        FieldAccepts(cast, batch, fields[i]) && AlignColumn(cast, batch, fields[i]).Ok?;
      AllColumnsAlign(cast, batch, fields);
    }
    if AlignColumns(cast, batch, fields).Ok? {
      ColumnsAccepted(cast, fields, batch, AlignColumns(cast, batch, fields).value);
    }
  }

  // ----- which batches align, without reference to how ------------------------------------------

  /** Two types that differ only in representation: strings, or timestamps of one zone. */
  ghost predicate ClassMates(a: DataType, b: DataType) {
    var strings := {DataType.Utf8, DataType.LargeUtf8, DataType.Utf8View};
    (a in strings && b in strings) || (a.Timestamp? && b.Timestamp? && a.zone == b.zone)
  }

  /** The first column of the name. */
  ghost predicate IsFirst(schema: Schema, name: string, k: nat) {
    k < |schema| && schema[k].name == name && forall i :: 0 <= i < k ==> schema[i].name != name
  }

  /** The field gets the column: the first of its name as it is, if it has the type, or what the cast makes of it, if
      the types differ only in representation. */
  ghost predicate Gets(cast: Cast, batch: RecordBatch, field: Field, column: Column)
    requires WellFormed(batch)
  {
    exists k: nat :: IsFirst(batch.schema, field.name, k) &&
      var source := batch.columns[k];
      if source.dataType == field.dataType then column == source
      else ClassMates(source.dataType, field.dataType) && cast(source, field.dataType) == Some(column)
  }

  /** The field gets no column, and why. */
  ghost predicate Fails(cast: Cast, batch: RecordBatch, field: Field, error: Error)
    requires WellFormed(batch)
  {
    if forall k :: 0 <= k < |batch.schema| ==> batch.schema[k].name != field.name then
      error == MissingColumn(field.name)
    else
      exists k: nat :: IsFirst(batch.schema, field.name, k) &&
        var from, to := batch.columns[k].dataType, field.dataType;
        && from != to
        && (if ClassMates(from, to) then
              cast(batch.columns[k], to).None? && error == CannotNormalize(field.name, from, to)
            else error == WrongType(field.name, to, from))
  }

  lemma ColumnIs(cast: Cast, batch: RecordBatch, field: Field)
    requires WellFormed(batch)
    ensures forall column :: AlignColumn(cast, batch, field) == Ok(column) <==> Gets(cast, batch, field, column)
    ensures forall error :: AlignColumn(cast, batch, field) == Err(error) <==> Fails(cast, batch, field, error)
  {
    if IndexOf(batch.schema, field.name).Some? {
      var k := IndexOf(batch.schema, field.name).value;
      assert IsFirst(batch.schema, field.name, k);
      assert forall j: nat :: IsFirst(batch.schema, field.name, j) ==> j == k;
    } else {
      assert forall j: nat :: !IsFirst(batch.schema, field.name, j);
    }
  }

  ghost predicate Found(cast: Cast, batch: RecordBatch, field: Field)
    requires WellFormed(batch)
  {
    exists column :: Gets(cast, batch, field, column)
  }

  lemma FoundIff(cast: Cast, batch: RecordBatch, field: Field)
    requires WellFormed(batch)
    ensures AlignColumn(cast, batch, field).Ok? <==> Found(cast, batch, field)
  {
    ColumnIs(cast, batch, field);
    var r := AlignColumn(cast, batch, field);
    if r.Ok? {
      assert Gets(cast, batch, field, r.value);
    }
  }

  /** The field gets a column it can hold. */
  ghost predicate Fed(cast: Cast, batch: RecordBatch, field: Field)
    requires WellFormed(batch)
  {
    exists column :: Gets(cast, batch, field, column) && (field.nullable || Null !in column.cells)
  }

  lemma FedIff(cast: Cast, batch: RecordBatch, field: Field)
    requires WellFormed(batch)
    ensures FieldAccepts(cast, batch, field) <==> Fed(cast, batch, field)
  {
    ColumnIs(cast, batch, field);
    var r := AlignColumn(cast, batch, field);
    if r.Ok? {
      assert Gets(cast, batch, field, r.value);
    }
  }

  /** Exactly which batches align: the right number of columns, at least one, and for every field a column it gets
      without nulls where they are not allowed; and those columns are the aligned batch. */
  lemma AlignsIff(cast: Cast, fields: Schema, batch: RecordBatch)
    requires CastContract(cast) && WellFormed(batch)
    ensures AlignBatch(cast, fields, batch).Ok?
      <==> |fields| == |batch.columns| && fields != []
           && forall i :: 0 <= i < |fields| ==> Fed(cast, batch, fields[i])
    ensures AlignBatch(cast, fields, batch).Ok? ==>
      var r := AlignBatch(cast, fields, batch).value;
      |r.columns| == |fields| && forall i :: 0 <= i < |fields| ==> Gets(cast, batch, fields[i], r.columns[i])
  {
    AcceptedIff(cast, fields, batch);
    forall i | 0 <= i < |fields| ensures FieldAccepts(cast, batch, fields[i]) <==> Fed(cast, batch, fields[i]) {
      FedIff(cast, batch, fields[i]);
    }
    if AlignBatch(cast, fields, batch).Ok? {
      AlignedShape(cast, fields, batch);
      var r := AlignBatch(cast, fields, batch).value;
      forall i | 0 <= i < |fields| ensures Gets(cast, batch, fields[i], r.columns[i]) {
        ColumnIs(cast, batch, fields[i]);
      }
    }
  }

  /** Field `i` is the first that gets no column. */
  ghost predicate FirstToFail(cast: Cast, fields: Schema, batch: RecordBatch, i: nat, error: Error)
    requires WellFormed(batch)
  {
    && i < |fields| && Fails(cast, batch, fields[i], error)
    && forall j :: 0 <= j < i ==> Found(cast, batch, fields[j])
  }

  /** Field `i` is the first that gets nulls it does not allow. */
  ghost predicate FirstNull(cast: Cast, fields: Schema, batch: RecordBatch, i: nat)
    requires WellFormed(batch)
  {
    && i < |fields| && !Fed(cast, batch, fields[i])
    && forall j :: 0 <= j < i ==> Fed(cast, batch, fields[j])
  }

  /** What goes wrong, if anything: the number of columns, then the first field without a column, then a schema without
      fields, then the first field whose nulls are not allowed. */
  ghost predicate Refused(cast: Cast, fields: Schema, batch: RecordBatch, error: Error)
    requires WellFormed(batch)
  {
    if |fields| != |batch.columns| then error == WrongColumnCount(|fields|, |batch.columns|)
    else if exists i: nat, e: Error :: FirstToFail(cast, fields, batch, i, e) then
      exists i: nat :: FirstToFail(cast, fields, batch, i, error)
    else if fields == [] then error == NoColumns
    else exists i: nat :: FirstNull(cast, fields, batch, i) && error == NullsInColumn(fields[i].name)
  }

  lemma {:induction false} ColumnsFail(cast: Cast, batch: RecordBatch, fields: Schema)
      returns (i: nat)
    requires WellFormed(batch) && AlignColumns(cast, batch, fields).Err?
    ensures i < |fields| && AlignColumn(cast, batch, fields[i]) == Err(AlignColumns(cast, batch, fields).error)
    ensures forall j :: 0 <= j < i ==> AlignColumn(cast, batch, fields[j]).Ok?
  {
    if AlignColumn(cast, batch, fields[0]).Err? {
      i := 0;
    } else {
      var k := ColumnsFail(cast, batch, fields[1..]);
      assert forall j :: 0 < j <= k ==> fields[j] == fields[1..][j - 1];
      i := k + 1;
      assert fields[i] == fields[1..][k];
    }
  }

  lemma {:induction false} FirstViolation(fields: Schema, columns: seq<Column>) returns (i: nat)
    requires |fields| == |columns| && NullViolation(fields, columns).Some?
    ensures i < |fields| && NullViolation(fields, columns) == Some(fields[i].name)
    ensures !fields[i].nullable && Null in columns[i].cells
    ensures forall j :: 0 <= j < i ==> fields[j].nullable || Null !in columns[j].cells
  {
    if !fields[0].nullable && Null in columns[0].cells {
      i := 0;
    } else {
      var k := FirstViolation(fields[1..], columns[1..]);
      i := k + 1;
      assert forall j :: 0 < j <= i ==> fields[j] == fields[1..][j - 1] && columns[j] == columns[1..][j - 1];
    }
  }

  lemma OnlyOneFails(cast: Cast, fields: Schema, batch: RecordBatch, i: nat, j: nat, a: Error, b: Error)
    requires WellFormed(batch)
    requires FirstToFail(cast, fields, batch, i, a) && FirstToFail(cast, fields, batch, j, b)
    ensures i == j && a == b
  {
    FoundIff(cast, batch, fields[i]);
    FoundIff(cast, batch, fields[j]);
    ColumnIs(cast, batch, fields[i]);
    ColumnIs(cast, batch, fields[j]);
  }

  /** A field without a column decides the error. */
  lemma ColumnErrorIs(cast: Cast, fields: Schema, batch: RecordBatch)
    requires WellFormed(batch)
    ensures match AlignColumns(cast, batch, fields)
      case Err(error) => exists i: nat :: FirstToFail(cast, fields, batch, i, error)
      case Ok(_) => forall i: nat, e: Error :: !FirstToFail(cast, fields, batch, i, e)
  {
    if AlignColumns(cast, batch, fields).Err? {
      var i := ColumnsFail(cast, batch, fields);
      ColumnIs(cast, batch, fields[i]);
      forall j | 0 <= j < i ensures Found(cast, batch, fields[j]) {
        FoundIff(cast, batch, fields[j]);
      }
      assert FirstToFail(cast, fields, batch, i, AlignColumns(cast, batch, fields).error);
    } else {
      forall i: nat, e: Error ensures !FirstToFail(cast, fields, batch, i, e) {
        if i < |fields| {
          ColumnIs(cast, batch, fields[i]);
          assert AlignColumn(cast, batch, fields[i]).Ok?;
        }
      }
    }
  }

  /** Nulls decide the error only when every field has its column. */
  lemma NullErrorIs(cast: Cast, fields: Schema, batch: RecordBatch, columns: seq<Column>)
    requires CastContract(cast) && WellFormed(batch) && AlignColumns(cast, batch, fields) == Ok(columns)
    requires NullViolation(fields, columns).Some?
    ensures exists i: nat ::
      FirstNull(cast, fields, batch, i) && NullViolation(fields, columns) == Some(fields[i].name)
  {
    var i := FirstViolation(fields, columns);
    forall j | 0 <= j <= i ensures Fed(cast, batch, fields[j]) <==> j < i {
      FedIff(cast, batch, fields[j]);
      ColumnAccepted(cast, batch, fields[j], columns[j]);
    }
    assert FirstNull(cast, fields, batch, i);
  }

  lemma OnlyOneNull(cast: Cast, fields: Schema, batch: RecordBatch, i: nat, j: nat)
    requires WellFormed(batch) && FirstNull(cast, fields, batch, i) && FirstNull(cast, fields, batch, j)
    ensures i == j
  {}

  /** Exactly which error each batch that does not align gives. */
  lemma RefusedIff(cast: Cast, fields: Schema, batch: RecordBatch, error: Error)
    requires CastContract(cast) && WellFormed(batch)
    ensures AlignBatch(cast, fields, batch) == Err(error) <==> Refused(cast, fields, batch, error)
  {
    if |fields| == |batch.columns| {
      ColumnErrorIs(cast, fields, batch);
      match AlignColumns(cast, batch, fields)
      case Err(e) =>
        forall i: nat, j: nat | FirstToFail(cast, fields, batch, i, e) && FirstToFail(cast, fields, batch, j, error)
          ensures e == error
        {
          OnlyOneFails(cast, fields, batch, i, j, e, error);
        }
      case Ok(columns) =>
        if fields != [] {
          NullsRefused(cast, fields, batch, columns, error);
        }
    }
  }

  lemma NullsRefused(cast: Cast, fields: Schema, batch: RecordBatch, columns: seq<Column>, error: Error)
    requires CastContract(cast) && WellFormed(batch) && |fields| == |batch.columns| && fields != []
    requires AlignColumns(cast, batch, fields) == Ok(columns)
    ensures AlignBatch(cast, fields, batch) == Err(error) <==>
      exists i: nat :: FirstNull(cast, fields, batch, i) && error == NullsInColumn(fields[i].name)
  {
    LengthsAgree(cast, fields, batch, columns);
    if NullViolation(fields, columns).Some? {
      NullErrorIs(cast, fields, batch, columns);
      var i: nat :| FirstNull(cast, fields, batch, i) && NullViolation(fields, columns) == Some(fields[i].name);
      forall j: nat | FirstNull(cast, fields, batch, j) ensures j == i {
        OnlyOneNull(cast, fields, batch, i, j);
      }
    } else {
      AlignsIff(cast, fields, batch);
      assert AlignBatch(cast, fields, batch).Ok?;
    }
  }

  lemma LengthsAgree(cast: Cast, fields: Schema, batch: RecordBatch, columns: seq<Column>)
    requires CastContract(cast) && WellFormed(batch) && AlignColumns(cast, batch, fields) == Ok(columns)
    ensures forall i :: 0 <= i < |columns| ==> |columns[i].cells| == batch.rows
  {
    forall i | 0 <= i < |columns| ensures |columns[i].cells| == batch.rows {
      ColumnAccepted(cast, batch, fields[i], columns[i]);
    }
  }

  /** A batch that aligns to itself gives each field its own column. */
  lemma FixedPointColumns(cast: Cast, fields: Schema, r: RecordBatch, j: nat)
    requires CastContract(cast) && WellFormed(r) && |r.columns| == |fields| && j < |fields|
    ensures AlignBatch(cast, fields, r) == Ok(r) ==> AlignColumn(cast, r, fields[j]) == Ok(r.columns[j])
  {
    if AlignBatch(cast, fields, r).Ok? {
      AlignedShape(cast, fields, r);
    }
  }

  /** The probe aligns, and the result shows where each column came from. */
  lemma ProbeAligns(fields: Schema, f: nat, t: DataType, j: nat)
    requires f < j < |fields| && !NeverAligns(fields)
    requires IndexOf(fields, fields[f].name) == Some(f) && fields[j].name == fields[f].name
    requires Compatible(t, fields[f].dataType) && fields[j].dataType == t != fields[f].dataType
    ensures var probe := Probe(fields, f, t, Value(0));
      && WellFormed(probe) && AlignBatch(Marking, fields, probe).Ok?
      && var r := AlignBatch(Marking, fields, probe).value;
         && WellFormed(r) && r.schema == fields
         && r.columns[f] == Column(fields[f].dataType, [Value(1)]) && r.columns[j] == Column(t, [Value(0)])
  {
    var probe := Probe(fields, f, t, Value(0));
    forall k | 0 <= k < |fields| ensures FieldAccepts(Marking, probe, fields[k]) {
      ProbeColumn(fields, f, t, k);
    }
    AcceptedIff(Marking, fields, probe);
    AlignedShape(Marking, fields, probe);
    ProbeColumn(fields, f, t, f);
    ProbeColumn(fields, f, t, j);
  }

  /** Reading field `j` again finds column `f`, already marked, and marks it once more. */
  lemma MarkedTwice(fields: Schema, r: RecordBatch, f: nat, j: nat)
    requires WellFormed(r) && r.schema == fields && f < j < |fields|
    requires IndexOf(fields, fields[j].name) == Some(f) && fields[j].dataType != fields[f].dataType
    requires r.columns[f] == Column(fields[f].dataType, [Value(1)])
    requires r.columns[j].cells == [Value(0)]
    ensures AlignColumn(Marking, r, fields[j]) != Ok(r.columns[j])
  {
    assert Marking(r.columns[f], fields[j].dataType).value.cells[0] == Value(2);
    assert r.columns[j].cells[0] == Value(0);
  }

  lemma NotIdempotent(cast: Cast, fields: Schema, batch: RecordBatch)
    requires CastContract(cast) && WellFormed(batch) && AlignBatch(cast, fields, batch).Ok?
    requires !AlignedAgain(cast, fields, batch)
    ensures !IdempotentForEveryCast(fields)
  {}

  /** Same-named fields of different but castable types do break it for some conforming cast. */
  lemma SplitNameBreaksIdempotence(fields: Schema, f: nat, j: nat)
    requires f < j < |fields| && !NeverAligns(fields)
    requires IndexOf(fields, fields[f].name) == Some(f) && fields[j].name == fields[f].name
    requires fields[j].dataType != fields[f].dataType
    ensures !IdempotentForEveryCast(fields)
  {
    var t := fields[j].dataType;
    assert Compatible(fields[f].dataType, t);
    ProbeAligns(fields, f, t, j);
    var probe := Probe(fields, f, t, Value(0));
    var r := AlignBatch(Marking, fields, probe).value;
    MarkedTwice(fields, r, f, j);
    FixedPointColumns(Marking, fields, r, j);
    assert AlignBatch(Marking, fields, r) != Ok(r);
    NotIdempotent(Marking, fields, probe);
  }

  /** The length and type of a cast's result alone guarantee idempotence, over all conforming casts and all batches,
      exactly for schemas in which fields that share a name share a type, or in which some two of them are so far
      apart that no batch aligns at all. For the casts Arrow makes, more schemas are idempotent: see `ArrowCasts`. */
  lemma IdempotentForEveryCastIff(fields: Schema)
    ensures IdempotentForEveryCast(fields) <==> SameNameSameType(fields) || NeverAligns(fields)
  {
    if SameNameSameType(fields) {
      forall cast: Cast, batch: RecordBatch
        | CastContract(cast) && WellFormed(batch) && AlignBatch(cast, fields, batch).Ok?
        ensures AlignedAgain(cast, fields, batch)
      {
        AlignIsIdempotent(cast, fields, batch);
      }
    } else if NeverAligns(fields) {
      forall cast: Cast, batch: RecordBatch | CastContract(cast) && WellFormed(batch)
        ensures AlignBatch(cast, fields, batch).Err?
      {
        IncompatibleNeverAligns(cast, fields, batch);
      }
    } else {
      var i, j :| 0 <= i < j < |fields| && fields[i].name == fields[j].name
        && fields[i].dataType != fields[j].dataType;
      var f := IndexOf(fields, fields[i].name).value;
      SplitNameBreaksIdempotence(fields, f, if fields[f].dataType == fields[i].dataType then j else i);
    }
  }

  // ----- schemas that differ only in representation --------------------------------------------

  /** Type classes are an equivalence. */
  lemma CompatibleIsEquivalence(a: DataType, b: DataType, c: DataType)
    ensures Compatible(a, a)
    ensures Compatible(a, b) <==> Compatible(b, a)
    ensures Compatible(a, b) && Compatible(b, c) ==> Compatible(a, c)
    ensures Compatible(a, b) <==> a == b || ClassMates(a, b)
  {}

  ghost predicate SameUpToRepresentation(a: Schema, b: Schema) {
    && |a| == |b|
    && forall i :: 0 <= i < |a| ==>
         a[i].name == b[i].name && a[i].nullable == b[i].nullable && Compatible(a[i].dataType, b[i].dataType)
  }

  /** A cast that never fails between representations and keeps nulls where they are. */
  ghost predicate Lossless(cast: Cast) {
    && CastContract(cast)
    && forall column: Column, target: DataType :: RepresentationCast(column.dataType, target) ==>
         cast(column, target).Some? && (Null in cast(column, target).value.cells <==> Null in column.cells)
  }

  lemma FieldAcceptsAlike(cast: Cast, batch: RecordBatch, a: Field, b: Field)
    requires Lossless(cast) && WellFormed(batch)
    requires a.name == b.name && a.nullable == b.nullable && Compatible(a.dataType, b.dataType)
    requires FieldAccepts(cast, batch, a)
    ensures FieldAccepts(cast, batch, b)
  {
    var column := batch.columns[IndexOf(batch.schema, a.name).value];
    CompatibleIsEquivalence(column.dataType, a.dataType, b.dataType);
  }

  /** Schemas that differ only within the classes accept the same batches, cast failures aside. */
  lemma RepresentationDoesNotMatter(cast: Cast, a: Schema, b: Schema, batch: RecordBatch)
    requires Lossless(cast) && WellFormed(batch) && SameUpToRepresentation(a, b)
    ensures AlignBatch(cast, a, batch).Ok? <==> AlignBatch(cast, b, batch).Ok?
  {
    AcceptedIff(cast, a, batch);
    AcceptedIff(cast, b, batch);
    forall i | 0 <= i < |a| ensures FieldAccepts(cast, batch, a[i]) <==> FieldAccepts(cast, batch, b[i]) {
      if FieldAccepts(cast, batch, a[i]) {
        FieldAcceptsAlike(cast, batch, a[i], b[i]);
      } else if FieldAccepts(cast, batch, b[i]) {
        CompatibleIsEquivalence(a[i].dataType, b[i].dataType, a[i].dataType);
        FieldAcceptsAlike(cast, batch, b[i], a[i]);
      }
    }
  }

  // ----- lists of batches ----------------------------------------------------------------------

  /** Alignment works batch by batch: it keeps their number and order, and aligning a concatenation is aligning the
      parts, the first error winning. */
  lemma {:induction false} AlignmentDistributes(
    cast: Cast, schema: Option<Schema>, a: seq<RecordBatch>, b: seq<RecordBatch>)
    requires forall x: RecordBatch :: x in a || x in b ==> WellFormed(x)
    ensures (forall x: RecordBatch :: x in a + b ==> WellFormed(x))
    ensures AlignBatches(cast, schema, a + b)
      == Both(AlignBatches(cast, schema, a), AlignBatches(cast, schema, b))
  {
    if schema.Some? && a != [] {
      var all := a + b;
      assert all[0] == a[0] && all[1..] == a[1..] + b;
      AlignmentDistributes(cast, schema, a[1..], b);
      var head, rest, second :=
        AlignBatch(cast, schema.value, a[0]), AlignBatches(cast, schema, a[1..]), AlignBatches(cast, schema, b);
      if head.Ok? && rest.Ok? && second.Ok? {
        ConcatAssoc([head.value], rest.value, second.value);
      }
    } else {
      assert a == [] ==> a + b == b;
      if a == [] && AlignBatches(cast, schema, b).Ok? {
        assert [] + AlignBatches(cast, schema, b).value == AlignBatches(cast, schema, b).value;
      }
    }
  }

  /** One batch aligns as itself; without a schema nothing is aligned. */
  lemma OneBatch(cast: Cast, schema: Option<Schema>, batch: RecordBatch)
    requires WellFormed(batch)
    ensures AlignBatches(cast, schema, [batch])
      == match schema
         case None => Ok([batch])
         case Some(fields) =>
           match AlignBatch(cast, fields, batch) case Ok(r) => Ok([r]) case Err(error) => Err(error)
  {
    assert [batch][1..] == [];
    if schema.Some? && AlignBatch(cast, schema.value, batch).Ok? {
      var r := AlignBatch(cast, schema.value, batch).value;
      assert AlignBatches(cast, schema, [batch][1..]) == Ok([]) && [r] + [] == [r];
    }
  }

  /** The first error, or everything in order. */
  function Both(a: Result<seq<RecordBatch>, Error>, b: Result<seq<RecordBatch>, Error>)
    : Result<seq<RecordBatch>, Error>
  {
    if a.Err? then a else if b.Err? then b else Ok(a.value + b.value)
  }

  lemma {:induction false} AlignmentKeepsOrder(cast: Cast, fields: Schema, batches: seq<RecordBatch>)
    requires CastContract(cast) && forall x: RecordBatch :: x in batches ==> WellFormed(x)
    requires AlignBatches(cast, Some(fields), batches).Ok?
    ensures var out := AlignBatches(cast, Some(fields), batches).value;
      && |out| == |batches|
      && (forall i :: 0 <= i < |batches| ==>
            AlignBatch(cast, fields, batches[i]) == Ok(out[i]) && out[i].rows == batches[i].rows && WellFormed(out[i]))
      && TotalRows(out) == TotalRows(batches)
  {
    if batches != [] {
      AlignmentKeepsOrder(cast, fields, batches[1..]);
      AlignedShape(cast, fields, batches[0]);
      var out := AlignBatches(cast, Some(fields), batches).value;
      assert out[1..] == AlignBatches(cast, Some(fields), batches[1..]).value;
      forall i | 0 < i < |batches|
        ensures AlignBatch(cast, fields, batches[i]) == Ok(out[i])
        ensures out[i].rows == batches[i].rows && WellFormed(out[i])
      {
        assert batches[i] == batches[1..][i - 1] && out[i] == out[1..][i - 1];
      }
    }
  }
}
