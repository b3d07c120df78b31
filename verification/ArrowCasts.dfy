/** Alignment with the casts Arrow makes: strings keep their cells, timestamps are rescaled in 64 bits. */
module ArrowCasts {
  import opened Common
  import opened Arrow
  import opened Alignment

  const INT64_MAX := 0x7FFF_FFFF_FFFF_FFFF
  const INT64_MIN := -0x8000_0000_0000_0000

  function PerSecond(unit: TimeUnit): int {
    match unit
    case Second => 1
    case Millisecond => 1_000
    case Microsecond => 1_000_000
    case Nanosecond => 1_000_000_000
  }

  predicate Finer(a: TimeUnit, b: TimeUnit) {
    PerSecond(a) > PerSecond(b)
  }

  /** Machine division, toward zero. */
  function Divided(x: int, d: int): int
    requires d > 0
  {
    if x >= 0 then x / d else -(-x / d)
  }

  predicate Fits(x: int) {
    INT64_MIN <= x <= INT64_MAX
  }

  /** A coarser unit drops the rest; in a finer unit, what does not fit becomes null. */
  function Rescale(from: TimeUnit, to: TimeUnit, ticks: int): Cell {
    if Finer(to, from) then
      var product := ticks * (PerSecond(to) / PerSecond(from));
      if Fits(product) then Value(product) else Null
    else
      Value(Divided(ticks, PerSecond(from) / PerSecond(to)))
  }

  function CastCell(from: DataType, to: DataType, cell: Cell): Cell {
    if cell.Value? && from.Timestamp? && to.Timestamp? then Rescale(from.unit, to.unit, cell.raw) else cell
  }

  function ArrowCast(column: Column, target: DataType): Option<Column> {
    if RepresentationCast(column.dataType, target) then
      Some(Column(target, seq(|column.cells|, i requires 0 <= i < |column.cells| =>
        CastCell(column.dataType, target, column.cells[i]))))
    else None
  }

  lemma ArrowCastConforms()
    ensures CastContract(ArrowCast)
  {}

  /** Timestamps are 64-bit. */
  ghost predicate Representable(b: RecordBatch) {
    forall i :: 0 <= i < |b.columns| ==> Ticks(b.columns[i])
  }

  ghost predicate Ticks(column: Column) {
    forall k :: 0 <= k < |column.cells| && column.dataType.Timestamp? && column.cells[k].Value? ==>
      Fits(column.cells[k].raw)
  }

  /** Aligning twice is aligning once, for every batch there can be. */
  ghost predicate IdempotentInArrow(fields: Schema) {
    ArrowCastConforms();
    forall batch: RecordBatch ::
      WellFormed(batch) && Representable(batch) && AlignBatch(ArrowCast, fields, batch).Ok?
      ==> AlignedAgain(ArrowCast, fields, batch)
  }

  // ----- casting by way of another type --------------------------------------------------------

  /** The column as a type it is compatible with. */
  function As(column: Column, target: DataType): Column
    requires Compatible(column.dataType, target)
  {
    if column.dataType == target then column else ArrowCast(column, target).value
  }

  lemma RescaleSame(unit: TimeUnit, ticks: int)
    ensures Rescale(unit, unit, ticks) == Value(ticks)
  {}

  lemma Coarsened(from: TimeUnit, to: TimeUnit, ticks: int)
    requires Finer(from, to)
    ensures Rescale(from, to, ticks) == Value(Divided(ticks, Ratio(from, to)))
  {}

  /** How many ticks of the finer unit a tick of the coarser one has. */
  function Ratio(fine: TimeUnit, coarse: TimeUnit): (r: int)
    requires Finer(fine, coarse)
    ensures r == PerSecond(fine) / PerSecond(coarse)
    ensures r in {1_000, 1_000_000, 1_000_000_000}
    ensures PerSecond(fine) == r * PerSecond(coarse)
  {
    match (fine, coarse)
    case (Millisecond, Second) => 1_000
    case (Microsecond, Millisecond) => 1_000
    case (Nanosecond, Microsecond) => 1_000
    case (Microsecond, Second) => 1_000_000
    case (Nanosecond, Millisecond) => 1_000_000
    case _ => 1_000_000_000
  }

  lemma Refined(from: TimeUnit, to: TimeUnit, ticks: int)
    requires Finer(to, from)
    ensures Rescale(from, to, ticks) == (if Fits(ticks * Ratio(to, from)) then Value(ticks * Ratio(to, from)) else Null)
  {}

  function Abs(x: int): nat {
    if x >= 0 then x else -x
  }

  /** What a cast makes of a cell: nulls and strings stay as they are; a timestamp becomes the same moment in a finer
      unit if that fits 64 bits, and a null otherwise. */
  lemma FinerCast(from: TimeUnit, to: TimeUnit, zone: Option<string>, ticks: int)
    requires Finer(to, from)
    ensures var cell := CastCell(Timestamp(from, zone), Timestamp(to, zone), Value(ticks));
      var same := ticks * Ratio(to, from);
      if -0x8000_0000_0000_0000 <= same <= 0x7FFF_FFFF_FFFF_FFFF then cell == Value(same) else cell == Null
  {}

  /** In a coarser unit it becomes the last whole tick toward the epoch. */
  lemma CoarserCast(from: TimeUnit, to: TimeUnit, zone: Option<string>, ticks: int)
    requires Finer(from, to)
    ensures var cell, ratio := CastCell(Timestamp(from, zone), Timestamp(to, zone), Value(ticks)), Ratio(from, to);
      && cell.Value? && (cell.raw < 0 ==> ticks < 0) && (cell.raw > 0 ==> ticks > 0)
      && Abs(cell.raw) * ratio <= Abs(ticks) < Abs(cell.raw) * ratio + ratio
  {
    var ratio := Ratio(from, to);
    assert Abs(ticks) == Abs(ticks) / ratio * ratio + Abs(ticks) % ratio;
    assert Abs(Divided(ticks, ratio)) == Abs(ticks) / ratio;
  }

  lemma OthersStay(from: DataType, to: DataType, cell: Cell)
    requires from in {Utf8, LargeUtf8, Utf8View} || cell == Null
    ensures CastCell(from, to, cell) == cell
  {}

  lemma ThroughCoarser(o: TimeUnit, a: TimeUnit, b: TimeUnit, ticks: int)
    requires Finer(o, a) && Finer(a, b)
    ensures Rescale(a, b, Rescale(o, a, ticks).raw) == Rescale(o, b, ticks)
  {
    Coarsened(o, a, ticks);
    Coarsened(o, b, ticks);
    Coarsened(a, b, Divided(ticks, Ratio(o, a)));
  }

  lemma UpAndBack(o: TimeUnit, a: TimeUnit, ticks: int)
    requires Finer(a, o) && Rescale(o, a, ticks).Value?
    ensures Rescale(a, o, Rescale(o, a, ticks).raw) == Value(ticks)
  {
    var up := ticks * Ratio(a, o);
    Refined(o, a, ticks);
    Coarsened(a, o, up);
    assert Divided(up, Ratio(a, o)) == ticks;
  }

  lemma UpAndPast(o: TimeUnit, a: TimeUnit, b: TimeUnit, ticks: int)
    requires Finer(a, o) && Finer(o, b) && Rescale(o, a, ticks).Value?
    ensures Rescale(a, b, Rescale(o, a, ticks).raw) == Rescale(o, b, ticks)
  {
    var up := ticks * Ratio(a, o);
    Refined(o, a, ticks);
    Coarsened(o, b, ticks);
    Coarsened(a, b, up);
    assert Divided(up, Ratio(a, b)) == Divided(ticks, Ratio(o, b));
  }

  lemma UpAndLess(o: TimeUnit, a: TimeUnit, b: TimeUnit, ticks: int)
    requires Finer(a, b) && Finer(b, o) && Rescale(o, a, ticks).Value?
    ensures Rescale(a, b, Rescale(o, a, ticks).raw) == Rescale(o, b, ticks)
  {
    var up := ticks * Ratio(a, o);
    Refined(o, a, ticks);
    Refined(o, b, ticks);
    Coarsened(a, b, up);
    assert Divided(up, Ratio(a, b)) == ticks * Ratio(b, o);
  }

  /** By way of a finer unit, and without overflow there, a timestamp arrives as it does directly. */
  lemma ByWayOfFiner(o: TimeUnit, a: TimeUnit, b: TimeUnit, ticks: int)
    requires Finer(a, b) && Rescale(o, a, ticks).Value?
    ensures Rescale(a, b, Rescale(o, a, ticks).raw) == Rescale(o, b, ticks)
  {
    if o == a {
      RescaleSame(a, ticks);
    } else if Finer(o, a) {
      ThroughCoarser(o, a, b, ticks);
    } else if o == b {
      UpAndBack(o, a, ticks);
      RescaleSame(o, ticks);
    } else if Finer(o, b) {
      UpAndPast(o, a, b, ticks);
    } else {
      UpAndLess(o, a, b, ticks);
    }
  }

  // ----- columns -------------------------------------------------------------------------------

  lemma CellsAs(column: Column, target: DataType)
    requires Compatible(column.dataType, target)
    ensures var c := As(column, target);
      && c.dataType == target && |c.cells| == |column.cells|
      && forall i :: 0 <= i < |c.cells| ==> c.cells[i] == CastCell(column.dataType, target, column.cells[i])
  {
    if column.dataType == target {
      forall i | 0 <= i < |column.cells|
        ensures column.cells[i] == CastCell(column.dataType, target, column.cells[i])
      {
        if column.dataType.Timestamp? && column.cells[i].Value? {
          RescaleSame(column.dataType.unit, column.cells[i].raw);
        }
      }
    }
  }

  /** A field of type `b` may be fed from a field of type `a`: nothing was lost on the way to `a`. */
  predicate NothingLost(a: DataType, b: DataType, cells: seq<Cell>) {
    a == b || (IsString(a) && IsString(b)) || (a.Timestamp? && b.Timestamp? && Finer(a.unit, b.unit) && Null !in cells)
  }

  lemma CellTwice(o: DataType, a: DataType, b: DataType, cell: Cell)
    requires Compatible(o, a) && Compatible(a, b)
    requires NothingLost(a, b, [CastCell(o, a, cell)])
    ensures CastCell(a, b, CastCell(o, a, cell)) == CastCell(o, b, cell)
  {
    var once := CastCell(o, a, cell);
    assert once in [once];
    if cell.Value? && a.Timestamp? {
      if a == b {
        if once.Value? { RescaleSame(a.unit, once.raw); }
      } else {
        ByWayOfFiner(o.unit, a.unit, b.unit, cell.raw);
      }
    }
  }

  /** What a second alignment makes of the column, if nothing was lost in the first. */
  lemma AsTwice(column: Column, a: DataType, b: DataType)
    requires Compatible(column.dataType, a) && Compatible(a, b) && Compatible(column.dataType, b)
    requires NothingLost(a, b, As(column, a).cells)
    ensures As(As(column, a), b) == As(column, b)
  {
    var once := As(column, a);
    CellsAs(column, a);
    CellsAs(once, b);
    CellsAs(column, b);
    forall i | 0 <= i < |column.cells| ensures As(once, b).cells[i] == As(column, b).cells[i] {
      assert once.cells[i] in once.cells;
      CellTwice(column.dataType, a, b, column.cells[i]);
    }
  }

  // ----- which schemas are idempotent ----------------------------------------------------------

  /** The field `k` does not allow nulls in the type of field `f`, under the same name. */
  predicate Guards(fields: Schema, f: nat, k: nat)
    requires f < |fields| && k < |fields|
  {
    fields[k].name == fields[f].name && fields[k].dataType == fields[f].dataType && !fields[k].nullable
  }

  /** Feeding field `j` from the aligned field `f` is as good as from the input: the types agree or are both strings,
      or `f` is a timestamp in a finer unit and some field rules out that it overflowed. */
  ghost predicate Harmless(fields: Schema, f: nat, j: nat)
    requires f < |fields| && j < |fields|
  {
    var a, b := fields[f].dataType, fields[j].dataType;
    a == b || (IsString(a) && IsString(b))
    || (a.Timestamp? && b.Timestamp? && Finer(a.unit, b.unit) && exists k :: 0 <= k < |fields| && Guards(fields, f, k))
  }

  /** `f` is the first field with its name, and `j` a later one. */
  predicate Repeats(fields: Schema, f: nat, j: nat) {
    f < j < |fields| && fields[j].name == fields[f].name && IndexOf(fields, fields[f].name) == Some(f)
  }

  ghost predicate AllHarmless(fields: Schema) {
    forall f: nat, j: nat :: Repeats(fields, f, j) ==> Harmless(fields, f, j)
  }

  /** The columns are what the fields take from the batch, without nulls where they are not allowed. */
  ghost predicate FedBy(fields: Schema, batch: RecordBatch, columns: seq<Column>)
    requires WellFormed(batch)
  {
    && |columns| == |fields|
    && forall i :: 0 <= i < |fields| ==>
         AlignColumn(ArrowCast, batch, fields[i]) == Ok(columns[i]) && (fields[i].nullable || Null !in columns[i].cells)
  }

  lemma AlignedIsFed(fields: Schema, batch: RecordBatch)
    requires WellFormed(batch) && AlignBatch(ArrowCast, fields, batch).Ok?
    ensures var r := AlignBatch(ArrowCast, fields, batch).value;
      WellFormed(r) && r.schema == fields && r.rows == batch.rows && FedBy(fields, batch, r.columns)
  {
    ArrowCastConforms();
    AlignedShape(ArrowCast, fields, batch);
    AcceptedIff(ArrowCast, fields, batch);
    var r := AlignBatch(ArrowCast, fields, batch).value;
    forall i | 0 <= i < |fields| ensures fields[i].nullable || Null !in r.columns[i].cells {
      assert FieldAccepts(ArrowCast, batch, fields[i]);
    }
  }

  /** A guarded field holds no null. */
  lemma GuardedHasNoNull(fields: Schema, batch: RecordBatch, columns: seq<Column>, f: nat, k: nat)
    requires WellFormed(batch) && FedBy(fields, batch, columns)
    requires f < |fields| && k < |fields| && Guards(fields, f, k)
    ensures Null !in columns[f].cells
  {
    assert columns[f] == columns[k];
  }

  lemma HarmlessLosesNothing(fields: Schema, batch: RecordBatch, columns: seq<Column>, f: nat, j: nat)
    requires WellFormed(batch) && FedBy(fields, batch, columns)
    requires f < |fields| && j < |fields| && Harmless(fields, f, j)
    ensures NothingLost(fields[f].dataType, fields[j].dataType, columns[f].cells)
  {
    var a, b := fields[f].dataType, fields[j].dataType;
    if !(a == b || (IsString(a) && IsString(b))) {
      var k :| 0 <= k < |fields| && Guards(fields, f, k);
      GuardedHasNoNull(fields, batch, columns, f, k);
    }
  }

  /** What a field takes, and from where. */
  lemma TakenFrom(batch: RecordBatch, field: Field, column: Column) returns (source: Column)
    requires WellFormed(batch) && AlignColumn(ArrowCast, batch, field) == Ok(column)
    ensures IndexOf(batch.schema, field.name).Some?
    ensures source == batch.columns[IndexOf(batch.schema, field.name).value]
    ensures Compatible(source.dataType, field.dataType) && column == As(source, field.dataType)
  {
    source := batch.columns[IndexOf(batch.schema, field.name).value];
  }

  /** The second field of a name can be fed from the first one's column. */
  lemma SameSource(batch: RecordBatch, a: Field, b: Field, first: Column, second: Column) returns (source: Column)
    requires WellFormed(batch) && a.name == b.name
    requires AlignColumn(ArrowCast, batch, a) == Ok(first) && AlignColumn(ArrowCast, batch, b) == Ok(second)
    ensures Compatible(source.dataType, a.dataType) && Compatible(source.dataType, b.dataType)
    ensures Compatible(a.dataType, b.dataType)
    ensures first == As(source, a.dataType) && second == As(source, b.dataType)
  {
    source := TakenFrom(batch, a, first);
    var again := TakenFrom(batch, b, second);
    assert source == again;
    CompatibleIsEquivalence(a.dataType, source.dataType, b.dataType);
    CompatibleIsEquivalence(source.dataType, a.dataType, b.dataType);
  }

  /** The aligned batch gives field `j` its own column again, from the column of the first field with its name. */
  lemma OwnColumnInArrow(fields: Schema, batch: RecordBatch, r: RecordBatch, f: nat, j: nat)
    requires WellFormed(batch) && FedBy(fields, batch, r.columns) && AllHarmless(fields)
    requires j < |fields| && IndexOf(fields, fields[j].name) == Some(f)
    requires WellFormed(r) && r.schema == fields
    ensures AlignColumn(ArrowCast, r, fields[j]) == Ok(r.columns[j])
  {
    if f < j {
      assert Repeats(fields, f, j);
    }
    HarmlessLosesNothing(fields, batch, r.columns, f, j);
    var source := SameSource(batch, fields[f], fields[j], r.columns[f], r.columns[j]);
    SecondLook(r, source, f, j);
  }

  lemma SecondLook(r: RecordBatch, source: Column, f: nat, j: nat)
    requires WellFormed(r) && f < |r.columns| && j < |r.columns| && IndexOf(r.schema, r.schema[j].name) == Some(f)
    requires var a, b := r.schema[f].dataType, r.schema[j].dataType;
      && Compatible(source.dataType, a) && Compatible(a, b) && Compatible(source.dataType, b)
      && r.columns[f] == As(source, a) && r.columns[j] == As(source, b)
      && NothingLost(a, b, r.columns[f].cells)
    ensures AlignColumn(ArrowCast, r, r.schema[j]) == Ok(r.columns[j])
  {
    AsTwice(source, r.schema[f].dataType, r.schema[j].dataType);
  }

  lemma HarmlessIsIdempotent(fields: Schema, batch: RecordBatch)
    requires WellFormed(batch) && AlignBatch(ArrowCast, fields, batch).Ok? && AllHarmless(fields)
    requires CastContract(ArrowCast)
    ensures AlignedAgain(ArrowCast, fields, batch)
  {
    AlignedIsFed(fields, batch);
    var r := AlignBatch(ArrowCast, fields, batch).value;
    forall j | 0 <= j < |fields| ensures AlignColumn(ArrowCast, r, fields[j]) == Ok(r.columns[j]) {
      OwnColumnInArrow(fields, batch, r, IndexOf(fields, fields[j].name).value, j);
    }
    ColumnsAlignThemselves(ArrowCast, r, fields, r.columns);
    AlignedShape(ArrowCast, fields, batch);
    assert r.columns == AlignColumns(ArrowCast, batch, fields).value;
  }

  // ----- the others fail -----------------------------------------------------------------------

  /** What the probe's cell becomes in field `k`. */
  function Shown(fields: Schema, f: nat, t: DataType, cell: Cell, k: nat): Cell
    requires f < |fields| && k < |fields|
  {
    if fields[k].name == fields[f].name then CastCell(t, fields[k].dataType, cell) else Value(0)
  }

  lemma CastZero(from: DataType, to: DataType)
    ensures CastCell(from, to, Value(0)) == Value(0)
  {}

  lemma ProbeInArrow(fields: Schema, f: nat, t: DataType, cell: Cell, k: nat)
    requires f < |fields| && k < |fields| && !NeverAligns(fields)
    requires IndexOf(fields, fields[f].name) == Some(f) && Compatible(t, fields[f].dataType)
    ensures var probe := Probe(fields, f, t, cell);
      && WellFormed(probe)
      && AlignColumn(ArrowCast, probe, fields[k]) == Ok(Column(fields[k].dataType, [Shown(fields, f, t, cell, k)]))
  {
    var probe := Probe(fields, f, t, cell);
    var m := IndexOf(fields, fields[k].name).value;
    IndexByNames(fields, probe.schema, fields[k].name);
    if m != k {
      assert m < k && fields[m].name == fields[k].name;
      assert Compatible(fields[m].dataType, fields[k].dataType);
    }
    if m == f {
      CompatibleIsEquivalence(t, fields[f].dataType, fields[k].dataType);
    }
    CellsAs(probe.columns[m], fields[k].dataType);
    CastZero(fields[m].dataType, fields[k].dataType);
    assert As(probe.columns[m], fields[k].dataType).cells == [Shown(fields, f, t, cell, k)];
  }

  /** The probe aligns if no field of the name gets a null it does not allow, and then a second alignment casts field
      `j` from what field `f` shows. */
  lemma ProbeTwice(fields: Schema, f: nat, j: nat, cell: Cell)
    requires Repeats(fields, f, j) && !NeverAligns(fields) && CastContract(ArrowCast)
    requires forall k :: 0 <= k < |fields| && !fields[k].nullable ==>
      Shown(fields, f, fields[j].dataType, cell, k) != Null
    ensures var here, there := fields[f].dataType, fields[j].dataType;
      var probe := Probe(fields, f, there, cell);
      && WellFormed(probe) && AlignBatch(ArrowCast, fields, probe).Ok?
      && (CastCell(here, there, CastCell(there, here, cell)) != cell ==> !AlignedAgain(ArrowCast, fields, probe))
  {
    var t := fields[j].dataType;
    var probe := Probe(fields, f, t, cell);
    assert Compatible(fields[f].dataType, t);
    CompatibleIsEquivalence(fields[f].dataType, t, t);
    forall k | 0 <= k < |fields| ensures FieldAccepts(ArrowCast, probe, fields[k]) {
      ProbeInArrow(fields, f, t, cell, k);
    }
    AcceptedIff(ArrowCast, fields, probe);
    AlignedShape(ArrowCast, fields, probe);
    ProbeInArrow(fields, f, t, cell, f);
    ProbeInArrow(fields, f, t, cell, j);
    var r := AlignBatch(ArrowCast, fields, probe).value;
    CellSame(t, cell);
    assert r.columns[j].cells == [cell] && r.columns[f].cells == [CastCell(t, fields[f].dataType, cell)];
    IndexByNames(fields, r.schema, fields[j].name);
    CellsAs(r.columns[f], t);
    FixedPointColumns(ArrowCast, fields, r, j);
    if CastCell(fields[f].dataType, t, CastCell(t, fields[f].dataType, cell)) != cell {
      assert As(r.columns[f], t).cells[0] != cell;
      assert AlignColumn(ArrowCast, r, fields[j]) != Ok(r.columns[j]);
    }
  }

  lemma CellSame(t: DataType, cell: Cell)
    ensures CastCell(t, t, cell) == cell
  {
    if t.Timestamp? && cell.Value? {
      RescaleSame(t.unit, cell.raw);
    }
  }

  /** One tick of a finer unit is lost in a coarser one, and overflows in none. */
  lemma OneTick(fine: TimeUnit, coarse: TimeUnit, other: TimeUnit)
    requires Finer(fine, coarse)
    ensures Rescale(fine, other, 1).Value?
    ensures Rescale(fine, coarse, 1) == Value(0) && Rescale(coarse, fine, 0) == Value(0)
  {}

  /** The smallest number of ticks of a coarser unit that overflows in a finer one. */
  function TooMany(fine: TimeUnit, coarse: TimeUnit): int
    requires Finer(fine, coarse)
  {
    INT64_MAX / Ratio(fine, coarse) + 1
  }

  lemma Overflows(fine: TimeUnit, coarse: TimeUnit, other: TimeUnit)
    requires Finer(fine, coarse) && (other == coarse || Finer(fine, other))
    ensures Fits(TooMany(fine, coarse)) && Rescale(coarse, fine, TooMany(fine, coarse)) == Null
    ensures Rescale(coarse, other, TooMany(fine, coarse)).Value?
  {
    var x := TooMany(fine, coarse);
    Refined(coarse, fine, x);
    if Finer(other, coarse) {
      Refined(coarse, other, x);
    }
  }

  lemma ProbeRepresentable(fields: Schema, f: nat, t: DataType, x: int)
    requires f < |fields| && Fits(x)
    ensures Representable(Probe(fields, f, t, Value(x)))
  {}

  /** A later field in a finer unit: one tick of it does not survive. */
  lemma CoarserFirstLoses(fields: Schema, f: nat, j: nat)
    requires Repeats(fields, f, j) && !NeverAligns(fields)
    requires fields[f].dataType.Timestamp? && fields[j].dataType.Timestamp?
    requires Finer(fields[j].dataType.unit, fields[f].dataType.unit)
    ensures !IdempotentInArrow(fields)
  {
    ArrowCastConforms();
    var t, cell := fields[j].dataType, Value(1);
    forall k | 0 <= k < |fields| ensures Shown(fields, f, t, cell, k) != Null {
      if fields[k].name == fields[f].name && fields[k].dataType.Timestamp? {
        OneTick(t.unit, fields[f].dataType.unit, fields[k].dataType.unit);
      }
    }
    OneTick(t.unit, fields[f].dataType.unit, t.unit);
    ProbeTwice(fields, f, j, cell);
    ProbeRepresentable(fields, f, t, 1);
  }

  /** A first field in the finest unit of its name that may be null: what overflows in it does not survive. */
  lemma UnguardedFinerLoses(fields: Schema, f: nat, j: nat)
    requires Repeats(fields, f, j) && !NeverAligns(fields)
    requires fields[f].dataType.Timestamp? && fields[j].dataType.Timestamp?
    requires Finer(fields[f].dataType.unit, fields[j].dataType.unit)
    requires forall k :: 0 <= k < |fields| ==> !Guards(fields, f, k)
    requires forall k: nat :: Repeats(fields, f, k) && fields[k].dataType.Timestamp? ==>
      !Finer(fields[k].dataType.unit, fields[f].dataType.unit)
    ensures !IdempotentInArrow(fields)
  {
    ArrowCastConforms();
    var a, t := fields[f].dataType, fields[j].dataType;
    var x := TooMany(a.unit, t.unit);
    Overflows(a.unit, t.unit, t.unit);
    forall k | 0 <= k < |fields| && !fields[k].nullable ensures Shown(fields, f, t, Value(x), k) != Null {
      assert !Guards(fields, f, k);
      if fields[k].name == fields[f].name {
        if fields[k].dataType.Timestamp? {
          Overflows(a.unit, t.unit, fields[k].dataType.unit);
        }
      }
    }
    ProbeTwice(fields, f, j, Value(x));
    ProbeRepresentable(fields, f, t, x);
  }

  predicate InFiner(fields: Schema, f: nat, k: nat) {
    && Repeats(fields, f, k) && fields[f].dataType.Timestamp? && fields[k].dataType.Timestamp?
    && Finer(fields[k].dataType.unit, fields[f].dataType.unit)
  }

  lemma HarmfulIsNotIdempotent(fields: Schema, f: nat, j: nat)
    requires Repeats(fields, f, j) && !NeverAligns(fields) && !Harmless(fields, f, j)
    ensures !IdempotentInArrow(fields)
  {
    if k: nat :| InFiner(fields, f, k) {
      CoarserFirstLoses(fields, f, k);
    } else {
      assert forall k: nat :: Repeats(fields, f, k) && fields[k].dataType.Timestamp? ==> !InFiner(fields, f, k);
      UnguardedFinerLoses(fields, f, j);
    }
  }

  /** The exact condition for the code: aligning twice is aligning once, for every batch there can be, if and only if
      each later field of a repeated name is harmless, or no batch aligns at all. */
  lemma IdempotentInArrowIff(fields: Schema)
    ensures IdempotentInArrow(fields) <==> AllHarmless(fields) || NeverAligns(fields)
  {
    ArrowCastConforms();
    if NeverAligns(fields) {
      forall batch: RecordBatch | WellFormed(batch) ensures AlignBatch(ArrowCast, fields, batch).Err? {
        IncompatibleNeverAligns(ArrowCast, fields, batch);
      }
    } else if AllHarmless(fields) {
      forall batch: RecordBatch | WellFormed(batch) && AlignBatch(ArrowCast, fields, batch).Ok?
        ensures AlignedAgain(ArrowCast, fields, batch)
      {
        HarmlessIsIdempotent(fields, batch);
      }
    } else {
      var f: nat, j: nat :| Repeats(fields, f, j) && !Harmless(fields, f, j);
      HarmfulIsNotIdempotent(fields, f, j);
    }
  }

  /** What two fields of one name take from a first column with one cell. */
  lemma BothFromFirst(fields: Schema, batch: RecordBatch)
    requires |fields| == 2 && fields[0].name == fields[1].name && WellFormed(batch) && |batch.columns| == 2
    requires batch.schema[0].name == fields[0].name && |batch.columns[0].cells| == 1
    requires forall i :: 0 <= i < 2 ==>
      && Compatible(batch.columns[0].dataType, fields[i].dataType)
      && CastCell(batch.columns[0].dataType, fields[i].dataType, batch.columns[0].cells[0]) != Null
    ensures AlignBatch(ArrowCast, fields, batch) == Ok(RecordBatch(fields, CastTo(batch.columns[0], fields), 1))
  {
    var columns := CastTo(batch.columns[0], fields);
    assert batch.rows == 1;
    forall i | 0 <= i < 2
      ensures AlignColumn(ArrowCast, batch, fields[i]) == Ok(columns[i])
    {
      OneCell(batch.columns[0], fields[i].dataType);
    }
    Assembled(fields, batch, columns);
  }

  function CastTo(column: Column, fields: Schema): seq<Column>
    requires |fields| == 2 && |column.cells| == 1
  {
    [Column(fields[0].dataType, [CastCell(column.dataType, fields[0].dataType, column.cells[0])]),
     Column(fields[1].dataType, [CastCell(column.dataType, fields[1].dataType, column.cells[0])])]
  }

  lemma HalfSecond()
    ensures Rescale(Nanosecond, Second, 1_500_000_000) == Value(1)
    ensures Rescale(Second, Nanosecond, 1) == Value(1_000_000_000)
    ensures Rescale(Nanosecond, Nanosecond, 1_500_000_000) == Value(1_500_000_000)
    ensures Rescale(Second, Second, 1) == Value(1)
  {}

  /** A failing input: the same name as seconds and as nanoseconds, fed one and a half seconds of nanoseconds. The first
      alignment keeps the nanoseconds, the second takes them from the seconds and loses half of one. */
  lemma SecondsBeforeNanoseconds(name: string, other: string, nullable: bool)
    requires name != other
    ensures var s, ns := Timestamp(Second, None), Timestamp(Nanosecond, None);
      var fields := [Field(name, s, nullable), Field(name, ns, nullable)];
      var once := RecordBatch(fields, [Column(s, [Value(1)]), Column(ns, [Value(1_500_000_000)])], 1);
      var batch := RecordBatch([Field(name, ns, nullable), Field(other, ns, nullable)],
                               [Column(ns, [Value(1_500_000_000)]), Column(ns, [Value(0)])], 1);
      && WellFormed(batch) && WellFormed(once)
      && AlignBatch(ArrowCast, fields, batch) == Ok(once)
      && AlignBatch(ArrowCast, fields, once)
         == Ok(RecordBatch(fields, [Column(s, [Value(1)]), Column(ns, [Value(1_000_000_000)])], 1))
  {
    var s, ns := Timestamp(Second, None), Timestamp(Nanosecond, None);
    var fields := [Field(name, s, nullable), Field(name, ns, nullable)];
    var batch := RecordBatch([Field(name, ns, nullable), Field(other, ns, nullable)],
                             [Column(ns, [Value(1_500_000_000)]), Column(ns, [Value(0)])], 1);
    var once := RecordBatch(fields, [Column(s, [Value(1)]), Column(ns, [Value(1_500_000_000)])], 1);
    HalfSecond();
    BothFromFirst(fields, batch);
    BothFromFirst(fields, once);
  }

  lemma OneCell(column: Column, target: DataType)
    requires Compatible(column.dataType, target) && |column.cells| == 1
    ensures As(column, target) == Column(target, [CastCell(column.dataType, target, column.cells[0])])
  {
    CellsAs(column, target);
    assert As(column, target).cells == [CastCell(column.dataType, target, column.cells[0])];
  }

  lemma Assembled(fields: Schema, batch: RecordBatch, columns: seq<Column>)
    requires WellFormed(batch) && |fields| == |columns| == |batch.columns| > 0
    requires forall i :: 0 <= i < |fields| ==> AlignColumn(ArrowCast, batch, fields[i]) == Ok(columns[i])
    requires forall i :: 0 <= i < |fields| ==> Null !in columns[i].cells && |columns[i].cells| == batch.rows
    ensures AlignBatch(ArrowCast, fields, batch) == Ok(RecordBatch(fields, columns, batch.rows))
  {
    ColumnsAlignThemselves(ArrowCast, batch, fields, columns);
    NullViolationIff(fields, columns);
  }

  /** The same timestamps, not null, in seconds or in nanoseconds: a batch whose seconds overflow as nanoseconds is
      accepted only in seconds, so the hypothesis of `Alignment.RepresentationDoesNotMatter` on nulls is needed. */
  lemma OverflowIsRefused(name: string)
    ensures var s, ns := Timestamp(Second, None), Timestamp(Nanosecond, None);
      var batch := RecordBatch([Field(name, s, false)], [Column(s, [Value(TooMany(Nanosecond, Second))])], 1);
      && WellFormed(batch) && Representable(batch)
      && AlignBatch(ArrowCast, [Field(name, s, false)], batch).Ok?
      && AlignBatch(ArrowCast, [Field(name, ns, false)], batch).Err?
  {
    var s, ns := Timestamp(Second, None), Timestamp(Nanosecond, None);
    var x := TooMany(Nanosecond, Second);
    var batch := RecordBatch([Field(name, s, false)], [Column(s, [Value(x)])], 1);
    ArrowCastConforms();
    Overflows(Nanosecond, Second, Second);
    OneCell(batch.columns[0], ns);
    AcceptedIff(ArrowCast, [Field(name, s, false)], batch);
    AcceptedIff(ArrowCast, [Field(name, ns, false)], batch);
    assert Null in As(batch.columns[0], ns).cells;
    assert !FieldAccepts(ArrowCast, batch, [Field(name, ns, false)][0]);
  }
}
