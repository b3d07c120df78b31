/** Reading results row by row: `fetchall`, `fetchone` and `fetchmany` (src/query.rs) and the lazily built rows of a
    change event (python/laminardb/types.py). Both go through a column-major table and Python dictionaries. */
module Results {
  import opened Common
  import opened Arrow
  import opened QueryResults

  type Row = seq<Cell>

  // ----- rows of column-major batches ----------------------------------------------------------

  /** A batch that Arrow guarantees to be rectangular, under the result's schema. */
  ghost predicate Conforms(schema: Schema, batches: seq<RecordBatch>) {
    forall i :: 0 <= i < |batches| ==> WellFormed(batches[i]) && batches[i].schema == schema
  }

  function RowAt(b: RecordBatch, i: nat): Row
    requires WellFormed(b) && i < b.rows
  {
    seq(|b.columns|, j requires 0 <= j < |b.columns| => b.columns[j].cells[i])
  }

  function RowsOf(b: RecordBatch): seq<Row>
    requires WellFormed(b)
  {
    seq(b.rows, i requires 0 <= i < b.rows => RowAt(b, i))
  }

  function Rows(schema: Schema, batches: seq<RecordBatch>): (rows: seq<Row>)
    requires Conforms(schema, batches)
    ensures |rows| == TotalRows(batches)
    ensures forall i :: 0 <= i < |rows| ==> |rows[i]| == |schema|
  {
    if batches == [] then [] else RowsOf(batches[0]) + Rows(schema, batches[1..])
  }

  lemma ConformsAppend(schema: Schema, xs: seq<RecordBatch>, ys: seq<RecordBatch>)
    requires Conforms(schema, xs) && Conforms(schema, ys)
    ensures Conforms(schema, xs + ys)
  {}

  lemma {:induction false} RowsAppend(schema: Schema, xs: seq<RecordBatch>, ys: seq<RecordBatch>)
    requires Conforms(schema, xs) && Conforms(schema, ys)
    ensures Conforms(schema, xs + ys)
    ensures Rows(schema, xs + ys) == Rows(schema, xs) + Rows(schema, ys)
  {
    ConformsAppend(schema, xs, ys);
    if xs == [] {
      assert xs + ys == ys && [] + Rows(schema, ys) == Rows(schema, ys);
    } else {
      var all := xs + ys;
      assert all[0] == xs[0] && all[1..] == xs[1..] + ys;
      RowsAppend(schema, xs[1..], ys);
      ConcatAssoc(RowsOf(xs[0]), Rows(schema, xs[1..]), Rows(schema, ys));
    }
  }

  /** The first `n` rows of a batch. */
  function Slice(b: RecordBatch, n: nat): (r: RecordBatch)
    requires WellFormed(b) && n <= b.rows
    ensures WellFormed(r) && r.schema == b.schema
  {
    RecordBatch(b.schema,
      seq(|b.columns|, j requires 0 <= j < |b.columns| => Column(b.columns[j].dataType, b.columns[j].cells[..n])), n)
  }

  lemma RowsOfSlice(b: RecordBatch, n: nat)
    requires WellFormed(b) && n <= b.rows
    ensures RowsOf(Slice(b, n)) == RowsOf(b)[..n]
  {
    forall i | 0 <= i < n ensures RowsOf(Slice(b, n))[i] == RowsOf(b)[i] {
      assert RowAt(Slice(b, n), i) == RowAt(b, i);
    }
  }

  // ----- Python dictionaries -------------------------------------------------------------------

  /** A dictionary in insertion order; its keys are distinct. */
  type Dict<V> = seq<(string, V)>

  function Keys<V>(d: Dict<V>): seq<string> {
    seq(|d|, i requires 0 <= i < |d| => d[i].0)
  }

  function Values<V>(d: Dict<V>): seq<V> {
    seq(|d|, i requires 0 <= i < |d| => d[i].1)
  }

  /** Assignment to a key keeps the key's place if it has one. */
  function Put<V>(d: Dict<V>, key: string, value: V): Dict<V> {
    if d == [] then [(key, value)]
    else if d[0].0 == key then [(key, value)] + d[1..]
    else [d[0]] + Put(d[1..], key, value)
  }

  lemma KeysCons<V>(entry: (string, V), d: Dict<V>)
    ensures Keys([entry] + d) == [entry.0] + Keys(d)
  {}

  lemma {:induction false} PutKeys<V>(d: Dict<V>, key: string, value: V)
    ensures Keys(Put(d, key, value)) == if key in Keys(d) then Keys(d) else Keys(d) + [key]
  {
    if d != [] {
      var rest := d[1..];
      assert [d[0]] + rest == d;
      KeysCons(d[0], rest);
      if d[0].0 == key {
        KeysCons((key, value), rest);
      } else {
        PutKeys(rest, key, value);
        KeysCons(d[0], Put(rest, key, value));
        ConcatAssoc([d[0].0], Keys(rest), [key]);
      }
    }
  }

  lemma DistinctSnoc<T>(xs: seq<T>, x: T)
    requires Distinct(xs) && x !in xs
    ensures Distinct(xs + [x])
  {}

  /** The dictionary that assigning the names in order builds. */
  function DictOf<V>(names: seq<string>, values: seq<V>): Dict<V>
    requires |names| == |values|
  {
    if names == [] then []
    else
      var n := |names| - 1;
      Put(DictOf(names[..n], values[..n]), names[n], values[n])
  }

  /** `keys` lists the names, each once: fewer than the names exactly if one repeats. */
  ghost predicate KeysFor(keys: seq<string>, names: seq<string>) {
    && Distinct(keys)
    && (forall k :: k in keys <==> k in names)
    && (if Distinct(names) then keys == names else |keys| < |names|)
  }

  lemma KeysForSnoc(keys: seq<string>, names: seq<string>, last: string)
    requires KeysFor(keys, names)
    ensures KeysFor(if last in keys then keys else keys + [last], names + [last])
  {
    var all := names + [last];
    if last in keys {
      var i :| 0 <= i < |names| && names[i] == last;
      assert all[i] == all[|names|];
    } else {
      DistinctSnoc(keys, last);
      if Distinct(names) {
        DistinctSnoc(names, last);
      } else {
        var i, j :| 0 <= i < j < |names| && names[i] == names[j];
        assert all[i] == all[j];
      }
    }
  }

  lemma DictOfSnoc<V>(names: seq<string>, values: seq<V>, name: string, value: V)
    requires |names| == |values| && KeysFor(Keys(DictOf(names, values)), names)
    ensures KeysFor(Keys(DictOf(names + [name], values + [value])), names + [name])
  {
    assert (names + [name])[..|names|] == names && (values + [value])[..|names|] == values;
    PutKeys(DictOf(names, values), name, value);
    KeysForSnoc(Keys(DictOf(names, values)), names, name);
  }

  lemma {:induction false} DictOfKeys<V>(names: seq<string>, values: seq<V>)
    requires |names| == |values|
    ensures KeysFor(Keys(DictOf(names, values)), names)
  {
    if names == [] {
      assert Keys(DictOf(names, values)) == [];
    } else {
      var n := |names| - 1;
      DictOfKeys(names[..n], values[..n]);
      DictOfSnoc(names[..n], values[..n], names[n], values[n]);
      assert names[..n] + [names[n]] == names && values[..n] + [values[n]] == values;
    }
  }

  /** The names, each where it first appears. */
  function FirstSeen(names: seq<string>): seq<string> {
    if names == [] then []
    else
      var init, last := FirstSeen(names[..|names| - 1]), names[|names| - 1];
      if last in init then init else init + [last]
  }

  /** A dictionary built in order keeps each name where it first appears. */
  lemma {:induction false} DictOfOrder<V>(names: seq<string>, values: seq<V>)
    requires |names| == |values|
    ensures Keys(DictOf(names, values)) == FirstSeen(names)
  {
    if names == [] {
      assert Keys(DictOf(names, values)) == [];
    } else {
      var n := |names| - 1;
      DictOfOrder(names[..n], values[..n]);
      PutKeys(DictOf(names[..n], values[..n]), names[n], values[n]);
    }
  }

  lemma {:induction false} PutMeans<V>(d: Dict<V>, key: string, value: V, other: string)
    ensures key in Keys(Put(d, key, value)) && Lookup(Put(d, key, value), key) == value
    ensures other != key && other in Keys(d) ==>
      other in Keys(Put(d, key, value)) && Lookup(Put(d, key, value), other) == Lookup(d, other)
  {
    PutKeys(d, key, value);
    if d != [] && d[0].0 != key {
      var rest := d[1..];
      assert d == [d[0]] + rest;
      KeysCons(d[0], rest);
      KeysCons(d[0], Put(rest, key, value));
      PutMeans(rest, key, value, other);
      assert Put(d, key, value)[1..] == Put(rest, key, value);
    } else if d != [] {
      KeysCons(d[0], d[1..]);
      assert d == [d[0]] + d[1..] && Put(d, key, value)[1..] == d[1..];
    }
  }

  /** It gives each name the last value assigned to it. */
  lemma {:induction false} DictOfLast<V>(names: seq<string>, values: seq<V>, i: nat)
    requires i < |names| == |values| && forall j :: i < j < |names| ==> names[j] != names[i]
    ensures names[i] in Keys(DictOf(names, values)) && Lookup(DictOf(names, values), names[i]) == values[i]
  {
    var n := |names| - 1;
    if i < n {
      DictOfLast(names[..n], values[..n], i);
      PutMeans(DictOf(names[..n], values[..n]), names[n], values[n], names[i]);
    } else {
      PutMeans(DictOf(names[..n], values[..n]), names[n], values[n], names[n]);
    }
  }

  lemma {:induction false} PutFresh<V>(d: Dict<V>, key: string, value: V)
    requires key !in Keys(d)
    ensures Put(d, key, value) == d + [(key, value)]
  {
    if d != [] {
      assert Keys(d) == [d[0].0] + Keys(d[1..]);
      PutFresh(d[1..], key, value);
    }
  }

  /** With distinct names the values are all kept. */
  lemma {:induction false} DictOfDistinct<V>(names: seq<string>, values: seq<V>)
    requires |names| == |values| && Distinct(names)
    ensures Values(DictOf(names, values)) == values
  {
    if names != [] {
      var n := |names| - 1;
      var init := DictOf(names[..n], values[..n]);
      DictOfDistinct(names[..n], values[..n]);
      DictOfKeys(names[..n], values[..n]);
      assert names[n] !in names[..n];
      PutFresh(init, names[n], values[n]);
      assert Values(init + [(names[n], values[n])]) == Values(init) + [values[n]];
    }
  }

  /** The same dictionary with each value mapped. */
  function MapDict<U, V>(d: Dict<U>, f: U -> V): Dict<V> {
    seq(|d|, i requires 0 <= i < |d| => (d[i].0, f(d[i].1)))
  }

  function MapSeq<U, V>(s: seq<U>, f: U -> V): seq<V> {
    seq(|s|, i requires 0 <= i < |s| => f(s[i]))
  }

  lemma {:induction false} MapPut<U, V>(d: Dict<U>, key: string, value: U, f: U -> V)
    ensures MapDict(Put(d, key, value), f) == Put(MapDict(d, f), key, f(value))
  {
    if d != [] {
      assert MapDict(d, f)[1..] == MapDict(d[1..], f);
      MapPut(d[1..], key, value, f);
    }
  }

  /** Building a dictionary of columns and then taking one row is building the dictionary of that row. */
  lemma {:induction false} MapDictOf<U, V>(names: seq<string>, values: seq<U>, f: U -> V)
    requires |names| == |values|
    ensures MapDict(DictOf(names, values), f) == DictOf(names, MapSeq(values, f))
  {
    if names != [] {
      var n := |names| - 1;
      assert MapSeq(values, f)[..n] == MapSeq(values[..n], f);
      MapDictOf(names[..n], values[..n], f);
      MapPut(DictOf(names[..n], values[..n]), names[n], values[n], f);
    }
  }

  // ----- the Arrow table -----------------------------------------------------------------------

  /** Column `j` of the table that the batches form. */
  function TableColumn(schema: Schema, batches: seq<RecordBatch>, j: nat): (cells: seq<Cell>)
    requires Conforms(schema, batches) && j < |schema|
    ensures |cells| == TotalRows(batches)
  {
    if batches == [] then [] else batches[0].columns[j].cells + TableColumn(schema, batches[1..], j)
  }

  function TableColumns(schema: Schema, batches: seq<RecordBatch>): seq<seq<Cell>>
    requires Conforms(schema, batches)
  {
    seq(|schema|, j requires 0 <= j < |schema| => TableColumn(schema, batches, j))
  }

  lemma {:induction false} TableTransposesRows(schema: Schema, batches: seq<RecordBatch>, i: nat, j: nat)
    requires Conforms(schema, batches) && i < TotalRows(batches) && j < |schema|
    ensures TableColumn(schema, batches, j)[i] == Rows(schema, batches)[i][j]
  {
    if i >= batches[0].rows {
      TableTransposesRows(schema, batches[1..], i - batches[0].rows, j);
    }
  }

  /** Cell `i` of a column, total so that it can be mapped over columns. */
  function CellAt(i: nat): seq<Cell> -> Cell {
    cells => if i < |cells| then cells[i] else Null
  }

  /** `Table.to_pydict`. */
  function ToPyDict(schema: Schema, batches: seq<RecordBatch>): Dict<seq<Cell>>
    requires Conforms(schema, batches)
  {
    DictOf(Names(schema), TableColumns(schema, batches))
  }

  /** `Table.to_pylist`: the dictionary of each row. */
  function ToPyList(schema: Schema, batches: seq<RecordBatch>): (dicts: seq<Dict<Cell>>)
    requires Conforms(schema, batches)
    ensures |dicts| == TotalRows(batches)
  {
    seq(TotalRows(batches), i requires 0 <= i < TotalRows(batches) => MapDict(ToPyDict(schema, batches), CellAt(i)))
  }

  /** Row `i` of the list is the dictionary of row `i` of the batches. */
  lemma PyListIsRows(schema: Schema, batches: seq<RecordBatch>, i: nat)
    requires Conforms(schema, batches) && i < TotalRows(batches)
    ensures ToPyList(schema, batches)[i] == DictOf(Names(schema), Rows(schema, batches)[i])
  {
    var columns, row := TableColumns(schema, batches), Rows(schema, batches)[i];
    MapDictOf(Names(schema), columns, CellAt(i));
    forall j | 0 <= j < |schema| ensures MapSeq(columns, CellAt(i))[j] == row[j] {
      TableTransposesRows(schema, batches, i, j);
    }
    assert MapSeq(columns, CellAt(i)) == row;
  }

  // ----- fetching tuples -----------------------------------------------------------------------

  /** What a row becomes as a tuple: the values of its dictionary. */
  function AsTuple(schema: Schema): Row -> Row {
    row => if |row| == |schema| then Values(DictOf(Names(schema), row)) else []
  }

  /** The rows as tuples, whatever the batches they come in. */
  function Tuples(schema: Schema, batches: seq<RecordBatch>): seq<Row>
    requires Conforms(schema, batches)
  {
    MapSeq(Rows(schema, batches), AsTuple(schema))
  }

  /** The tuples are the rows exactly when no column name repeats, or there is no row to lose a column. */
  lemma TuplesAreRowsIff(schema: Schema, batches: seq<RecordBatch>)
    requires Conforms(schema, batches)
    ensures Tuples(schema, batches) == Rows(schema, batches) <==> Distinct(Names(schema)) || TotalRows(batches) == 0
  {
    var rows := Rows(schema, batches);
    if Distinct(Names(schema)) {
      forall i | 0 <= i < |rows| ensures Tuples(schema, batches)[i] == rows[i] {
        DictOfDistinct(Names(schema), rows[i]);
      }
    } else if |rows| > 0 {
      DictOfKeys(Names(schema), rows[0]);
      assert |Tuples(schema, batches)[0]| < |rows[0]|;
    }
  }

  /** Two columns of one name: the row (1, 2) comes back as the tuple (2). */
  lemma RepeatedNameLosesAColumn(name: string, t: DataType)
    ensures var schema := [Field(name, t, true), Field(name, t, true)];
      var batch := RecordBatch(schema, [Column(t, [Value(1)]), Column(t, [Value(2)])], 1);
      && Conforms(schema, [batch])
      && Rows(schema, [batch]) == [[Value(1), Value(2)]] && Tuples(schema, [batch]) == [[Value(2)]]
  {
    var schema := [Field(name, t, true), Field(name, t, true)];
    var batch := RecordBatch(schema, [Column(t, [Value(1)]), Column(t, [Value(2)])], 1);
    assert RowAt(batch, 0) == [Value(1), Value(2)];
    assert RowsOf(batch) == [[Value(1), Value(2)]];
    assert Names(schema) == [name, name];
    TwoOfOneName(name, Value(1), Value(2));
  }

  lemma TwoOfOneName<V>(name: string, a: V, b: V)
    ensures Values(DictOf([name, name], [a, b])) == [b]
  {
    assert [name, name][..1] == [name] && [a, b][..1] == [a];
    assert DictOf([name], [a]) == Put(DictOf([name][..0], [a][..0]), name, a);
    assert DictOf([name, name], [a, b]) == Put([(name, a)], name, b);
    assert Put([(name, a)], name, b) == [(name, b)];
  }

  lemma TupleAt(schema: Schema, batches: seq<RecordBatch>, i: nat)
    requires Conforms(schema, batches) && i < TotalRows(batches)
    ensures Values(ToPyList(schema, batches)[i]) == Tuples(schema, batches)[i]
  {
    PyListIsRows(schema, batches, i);
  }

  lemma TuplesAreValues(schema: Schema, batches: seq<RecordBatch>)
    requires Conforms(schema, batches)
    ensures var pylist, tuples := ToPyList(schema, batches), Tuples(schema, batches);
      |pylist| == |tuples| && forall i :: 0 <= i < |pylist| ==> Values(pylist[i]) == tuples[i]
  {
    var pylist := ToPyList(schema, batches);
    forall i | 0 <= i < |pylist| ensures Values(pylist[i]) == Tuples(schema, batches)[i] {
      TupleAt(schema, batches, i);
    }
  }

  method BatchesToTuples(schema: Schema, batches: seq<RecordBatch>) returns (rows: seq<Row>)
    requires Conforms(schema, batches)
    ensures rows == Tuples(schema, batches)
  {
    var pylist := ToPyList(schema, batches);
    ghost var tuples := Tuples(schema, batches);
    TuplesAreValues(schema, batches);
    rows := [];
    for i := 0 to |pylist|
      invariant rows == tuples[..i]
    {
      assert tuples[..i + 1] == tuples[..i] + [tuples[i]];
      rows := rows + [Values(pylist[i])];
    }
  }

  method FetchAll(r: QueryResult) returns (rows: seq<Row>)
    requires Conforms(r.schema, r.batches)
    ensures rows == Tuples(r.schema, r.batches)
  {
    rows := BatchesToTuples(r.schema, r.batches);
  }

  /** Leading batches without rows add nothing. */
  lemma {:induction false} EmptyBatches(schema: Schema, batches: seq<RecordBatch>)
    requires Conforms(schema, batches) && forall i :: 0 <= i < |batches| ==> batches[i].rows == 0
    ensures Rows(schema, batches) == []
  {
    if batches != [] {
      EmptyBatches(schema, batches[1..]);
    }
  }

  /** The rows begin with the rows of the first batch that has any. */
  lemma FirstRow(schema: Schema, batches: seq<RecordBatch>, i: nat)
    requires Conforms(schema, batches) && i < |batches| && batches[i].rows > 0
    requires forall j :: 0 <= j < i ==> batches[j].rows == 0
    ensures |Rows(schema, batches)| > 0
    ensures Rows(schema, [Slice(batches[i], 1)]) == [Rows(schema, batches)[0]]
  {
    assert batches == batches[..i] + batches[i..];
    RowsAppend(schema, batches[..i], batches[i..]);
    EmptyBatches(schema, batches[..i]);
    assert Rows(schema, batches[i..]) == RowsOf(batches[i]) + Rows(schema, batches[i..][1..]);
    RowsOfSlice(batches[i], 1);
  }

  method FetchOne(r: QueryResult) returns (row: Option<Row>)
    requires Conforms(r.schema, r.batches)
    ensures var all := Tuples(r.schema, r.batches); row == if all == [] then None else Some(all[0])
  {
    if TotalRows(r.batches) == 0 {
      return None;
    }
    for i := 0 to |r.batches|
      invariant forall j :: 0 <= j < i ==> r.batches[j].rows == 0
    {
      if r.batches[i].rows > 0 {
        FirstRow(r.schema, r.batches, i);
        var rows := BatchesToTuples(r.schema, [Slice(r.batches[i], 1)]);
        return Some(rows[0]);
      }
    }
    EmptyBatches(r.schema, r.batches);
    assert false;
  }

  function Min(a: nat, b: nat): nat {
    if a <= b then a else b
  }

  /** One more batch: the rows kept of it are the next ones of the whole. */
  lemma TakeBatch(schema: Schema, batches: seq<RecordBatch>, i: nat, sliced: seq<RecordBatch>, take: nat)
    requires Conforms(schema, batches) && Conforms(schema, sliced) && i < |batches| && take <= batches[i].rows
    requires Rows(schema, sliced) == Rows(schema, batches[..i])
    ensures var more := sliced + [Slice(batches[i], take)];
      && Conforms(schema, more)
      && Rows(schema, more) == Rows(schema, batches[..i]) + RowsOf(batches[i])[..take]
  {
    RowsOfSlice(batches[i], take);
    RowsAppend(schema, sliced, [Slice(batches[i], take)]);
  }

  lemma RowsStep(schema: Schema, batches: seq<RecordBatch>, i: nat)
    requires Conforms(schema, batches) && i < |batches|
    ensures Rows(schema, batches[..i + 1]) == Rows(schema, batches[..i]) + RowsOf(batches[i])
  {
    assert batches[..i + 1] == batches[..i] + [batches[i]];
    RowsAppend(schema, batches[..i], [batches[i]]);
  }

  /** The rows of leading batches are a prefix of all rows. */
  lemma RowsPrefix(schema: Schema, batches: seq<RecordBatch>, i: nat)
    requires Conforms(schema, batches) && i <= |batches|
    ensures Rows(schema, batches[..i]) <= Rows(schema, batches)
  {
    assert batches == batches[..i] + batches[i..];
    RowsAppend(schema, batches[..i], batches[i..]);
  }

  /** The first `size` rows of the first `i` batches. */
  function FirstRows(schema: Schema, batches: seq<RecordBatch>, i: nat, size: nat): seq<Row>
    requires Conforms(schema, batches) && i <= |batches|
  {
    var rows := Rows(schema, batches[..i]);
    rows[..Min(size, |rows|)]
  }

  lemma FirstRowsStep(schema: Schema, batches: seq<RecordBatch>, i: nat, size: nat)
    requires Conforms(schema, batches) && i < |batches|
    ensures var before := FirstRows(schema, batches, i, size);
      && FirstRows(schema, batches, i + 1, size)
         == before + RowsOf(batches[i])[..Min(size - |before|, batches[i].rows)]
      && (|before| < size ==> before == Rows(schema, batches[..i]))
  {
    RowsStep(schema, batches, i);
  }

  /** `sliced` holds the first rows of the first `i` batches, and `remaining` more are wanted. */
  ghost predicate Fetched(
    schema: Schema, batches: seq<RecordBatch>, i: nat, size: nat, sliced: seq<RecordBatch>, remaining: nat)
  {
    && Conforms(schema, batches) && i <= |batches| && Conforms(schema, sliced)
    && Rows(schema, sliced) == FirstRows(schema, batches, i, size)
    && remaining == size - |Rows(schema, sliced)|
  }

  /** Keeping what is still wanted of batch `i` keeps the first rows of one more batch. */
  lemma FetchStep(
    schema: Schema, batches: seq<RecordBatch>, i: nat, size: nat, sliced: seq<RecordBatch>, remaining: nat, take: nat)
    requires Fetched(schema, batches, i, size, sliced, remaining) && remaining > 0 && i < |batches|
    requires take == Min(remaining, batches[i].rows)
    ensures take == 0 ==> Fetched(schema, batches, i + 1, size, sliced, remaining)
    ensures Fetched(schema, batches, i + 1, size, sliced + [Slice(batches[i], take)], remaining - take)
  {
    FirstRowsStep(schema, batches, i, size);
    TakeBatch(schema, batches, i, sliced, take);
    assert RowsOf(batches[i])[..0] == [];
  }

  method FetchMany(r: QueryResult, size: nat) returns (rows: seq<Row>)
    requires Conforms(r.schema, r.batches)
    ensures var all := Tuples(r.schema, r.batches); rows == all[..Min(size, |all|)]
  {
    if size == 0 {
      return [];
    }
    var remaining := size;
    var sliced: seq<RecordBatch> := [];
    for i := 0 to |r.batches|
      invariant Fetched(r.schema, r.batches, i, size, sliced, remaining)
    {
      if remaining == 0 {
        EnoughRows(r.schema, r.batches, i, size, sliced);
        break;
      }
      var take := Min(remaining, r.batches[i].rows);
      FetchStep(r.schema, r.batches, i, size, sliced, remaining, take);
      if take > 0 {
        sliced := sliced + [Slice(r.batches[i], take)];
        remaining := remaining - take;
      }
    }
    FetchedTuples(r.schema, r.batches, size, sliced, remaining);
    rows := BatchesToTuples(r.schema, sliced);
  }

  lemma FetchedTuples(schema: Schema, batches: seq<RecordBatch>, size: nat, sliced: seq<RecordBatch>, remaining: nat)
    requires Fetched(schema, batches, |batches|, size, sliced, remaining)
    ensures var all := Tuples(schema, batches); Tuples(schema, sliced) == all[..Min(size, |all|)]
  {
    assert batches[..|batches|] == batches;
  }

  /** Once there are `size` rows, later batches do not change the first `size`. */
  lemma EnoughRows(schema: Schema, batches: seq<RecordBatch>, i: nat, size: nat, sliced: seq<RecordBatch>)
    requires Fetched(schema, batches, i, size, sliced, 0)
    ensures Fetched(schema, batches, |batches|, size, sliced, 0)
  {
    RowsPrefix(schema, batches, i);
    assert batches[..|batches|] == batches;
  }

  /** How a result was cut into batches does not show in its tuples. */
  lemma BatchSplitDoesNotShow(schema: Schema, xs: seq<RecordBatch>, ys: seq<RecordBatch>)
    requires Conforms(schema, xs) && Conforms(schema, ys) && Rows(schema, xs) == Rows(schema, ys)
    ensures Tuples(schema, xs) == Tuples(schema, ys) && ToPyDict(schema, xs) == ToPyDict(schema, ys)
  {
    assert TotalRows(xs) == |Rows(schema, ys)|;
    forall j | 0 <= j < |schema| ensures TableColumn(schema, xs, j) == TableColumn(schema, ys, j) {
      forall i | 0 <= i < TotalRows(xs) ensures TableColumn(schema, xs, j)[i] == TableColumn(schema, ys, j)[i] {
        TableTransposesRows(schema, xs, i, j);
        TableTransposesRows(schema, ys, i, j);
      }
    }
    assert TableColumns(schema, xs) == TableColumns(schema, ys);
  }

  // ----- change events -------------------------------------------------------------------------

  datatype ChangeRow = ChangeRow(op: string, data: Dict<Cell>)

  /** The rows a change event shows: a result without columns shows none. */
  function EventRows(op: string, r: QueryResult): (rows: seq<ChangeRow>)
    requires Conforms(r.schema, r.batches)
  {
    var rows := Rows(r.schema, r.batches);
    if r.schema == [] then []
    else seq(|rows|, i requires 0 <= i < |rows| => ChangeRow(op, DictOf(Names(r.schema), rows[i])))
  }

  /** `len(event)` counts its rows exactly when the result has a column or no rows. */
  lemma EventLengthIff(op: string, r: QueryResult)
    requires Conforms(r.schema, r.batches)
    ensures |EventRows(op, r)| == TotalRows(r.batches) <==> r.schema != [] || TotalRows(r.batches) == 0
  {
    assert |Rows(r.schema, r.batches)| == TotalRows(r.batches);
  }

  /** A result with rows and no columns has a length and no rows to show for it. */
  lemma ColumnlessEventMiscounts(op: string)
    ensures var r := FromBatch(RecordBatch([], [], 3));
      && Conforms(r.schema, r.batches) && TotalRows(r.batches) == 3 && EventRows(op, r) == []
  {
    var b := RecordBatch([], [], 3);
    assert TotalRows([b]) == b.rows + TotalRows([b][1..]);
  }

  /** With distinct names the event's rows are the result's rows, column by column and in order. */
  lemma EventRowsAreRows(op: string, r: QueryResult, i: nat)
    requires Conforms(r.schema, r.batches) && Distinct(Names(r.schema)) && r.schema != [] && i < TotalRows(r.batches)
    ensures var row := EventRows(op, r)[i];
      row.op == op && Keys(row.data) == Names(r.schema) && Values(row.data) == Rows(r.schema, r.batches)[i]
  {
    DictOfDistinct(Names(r.schema), Rows(r.schema, r.batches)[i]);
    DictOfKeys(Names(r.schema), Rows(r.schema, r.batches)[i]);
  }

  /** `dicts[key]`. */
  function Lookup<V>(d: Dict<V>, key: string): (v: V)
    requires key in Keys(d)
  {
    if d[0].0 == key then d[0].1
    else
      assert Keys(d) == [d[0].0] + Keys(d[1..]);
      Lookup(d[1..], key)
  }

  lemma {:induction false} LookupAt<V>(d: Dict<V>, j: nat)
    requires Distinct(Keys(d)) && j < |d|
    ensures Keys(d)[j] in Keys(d) && Lookup(d, Keys(d)[j]) == d[j].1
  {
    assert Keys(d)[j] == d[j].0;
    if j > 0 {
      assert Keys(d)[0] != Keys(d)[j];
      assert Keys(d[1..]) == Keys(d)[1..];
      LookupAt(d[1..], j - 1);
    }
  }

  class ChangeEvent {
    const result: QueryResult
    const op: string
    var rows: Option<seq<ChangeRow>>

    /** The cache, once filled, holds the event's rows. */
    ghost predicate Valid()
      reads this
    {
      && Conforms(result.schema, result.batches)
      && (rows.Some? ==> rows.value == EventRows(op, result))
    }

    constructor (result: QueryResult, op: string)
      requires Conforms(result.schema, result.batches)
      ensures Valid() && rows == None && this.result == result && this.op == op
    {
      this.result, this.op, rows := result, op, None;
    }

    /** Builds the rows on the first call and returns the cached ones after it. */
    method Materialize() returns (r: seq<ChangeRow>)
      requires Valid()
      modifies this`rows
      ensures Valid() && rows == Some(r)
      ensures r == EventRows(op, result)
    {
      if rows.None? {
        var dicts := ToPyDict(result.schema, result.batches);
        var columns := Keys(dicts);
        var count := if columns != [] then |Lookup(dicts, columns[0])| else 0;
        ColumnLengths(result);
        var built: seq<ChangeRow> := [];
        ghost var all := EventRows(op, result);
        for i := 0 to count
          invariant built == all[..i] && rows == None
        {
          EventRowAt(op, result, i);
          assert all[..i + 1] == all[..i] + [all[i]];
          built := built + [ChangeRow(op, RowDict(dicts, i))];
        }
        rows := Some(built);
      }
      r := rows.value;
    }

    /** `len(event)`: the result's row count, without building the rows. */
    method Len() returns (n: nat)
      requires Valid()
      ensures result.schema != [] ==> n == |EventRows(op, result)|
      ensures n == TotalRows(result.batches)
    {
      n := TotalRows(result.batches);
    }
  }

  /** `{col: dicts[col][i] for col in columns}`. */
  function RowDict(dicts: Dict<seq<Cell>>, i: nat): Dict<Cell>
  {
    var columns := Keys(dicts);
    DictOf(columns, seq(|columns|, j requires 0 <= j < |columns| => CellAt(i)(Lookup(dicts, columns[j]))))
  }

  /** The first column of the dictionary is as long as the result, and there is one if the schema has a field. */
  lemma ColumnLengths(r: QueryResult)
    requires Conforms(r.schema, r.batches)
    ensures var dicts := ToPyDict(r.schema, r.batches);
      && (dicts == [] <==> r.schema == [])
      && (dicts != [] ==> |Lookup(dicts, Keys(dicts)[0])| == TotalRows(r.batches))
  {
    var columns := TableColumns(r.schema, r.batches);
    DictOfKeys(Names(r.schema), columns);
    var length: seq<Cell> -> nat := cells => |cells|;
    MapDictOf(Names(r.schema), columns, length);
    ConstantDict(Names(r.schema), MapSeq(columns, length), TotalRows(r.batches));
    var dicts := ToPyDict(r.schema, r.batches);
    if r.schema != [] {
      assert Names(r.schema)[0] in Keys(dicts);
    }
    if dicts != [] {
      LookupAt(dicts, 0);
      assert MapDict(dicts, length)[0].1 == |dicts[0].1|;
    }
  }

  lemma {:induction false} ConstantDict(names: seq<string>, values: seq<nat>, n: nat)
    requires |names| == |values| && forall i :: 0 <= i < |values| ==> values[i] == n
    ensures forall i :: 0 <= i < |DictOf(names, values)| ==> DictOf(names, values)[i].1 == n
  {
    if names != [] {
      var k := |names| - 1;
      ConstantDict(names[..k], values[..k], n);
      ConstantPut(DictOf(names[..k], values[..k]), names[k], n);
    }
  }

  lemma {:induction false} ConstantPut(d: Dict<nat>, key: string, n: nat)
    requires forall i :: 0 <= i < |d| ==> d[i].1 == n
    ensures forall i :: 0 <= i < |Put(d, key, n)| ==> Put(d, key, n)[i].1 == n
  {
    if d != [] && d[0].0 != key {
      ConstantPut(d[1..], key, n);
    }
  }

  /** The event's way of building a row agrees with the tuple path's. */
  lemma RowDictIsPyListRow(r: QueryResult, i: nat)
    requires Conforms(r.schema, r.batches) && i < TotalRows(r.batches)
    ensures RowDict(ToPyDict(r.schema, r.batches), i) == DictOf(Names(r.schema), Rows(r.schema, r.batches)[i])
  {
    var dicts := ToPyDict(r.schema, r.batches);
    var columns := Keys(dicts);
    var values := seq(|columns|, j requires 0 <= j < |columns| => CellAt(i)(Lookup(dicts, columns[j])));
    DictOfKeys(Names(r.schema), TableColumns(r.schema, r.batches));
    DictOfKeys(columns, values);
    DictOfDistinct(columns, values);
    PyListIsRows(r.schema, r.batches, i);
    var row := MapDict(dicts, CellAt(i));
    forall j | 0 <= j < |columns| ensures RowDict(dicts, i)[j] == row[j] {
      LookupAt(dicts, j);
      assert Keys(RowDict(dicts, i))[j] == columns[j] && Values(RowDict(dicts, i))[j] == values[j];
    }
    assert |RowDict(dicts, i)| == |Keys(RowDict(dicts, i))| == |row|;
  }

  lemma EventRowAt(op: string, r: QueryResult, i: nat)
    requires Conforms(r.schema, r.batches) && r.schema != [] && i < TotalRows(r.batches)
    ensures EventRows(op, r)[i] == ChangeRow(op, RowDict(ToPyDict(r.schema, r.batches), i))
  {
    RowDictIsPyListRow(r, i);
  }
}
