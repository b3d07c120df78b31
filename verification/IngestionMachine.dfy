/** Concurrent inserts, flushes and closes against one source (src/connection.rs, src/writer.rs). */
module IngestionMachine {
  import opened Common
  import opened Arrow
  import opened Ingestion

  /** A Python input, and the conversion that turns it into batches of a schema or fails. */
  type Payload = nat
  type Convert = (Payload, Schema) -> Option<seq<RecordBatch>>

  /** What a call was given, the schema it read, and the batches its input became. */
  datatype Input = Input(payload: Payload, schema: Schema, batches: seq<RecordBatch>)

  datatype Pc =
    | Idle
    | WantSchema(call: nat, payload: Payload)
    | Converting(call: nat, payload: Payload, schema: Schema)
    | WantWrite(call: nat, input: Input)
    | Writing(call: nat, input: Input, written: nat, total: nat)                // holds the lock
    | WantFlush(call: nat)
    | WantClose(call: nat)
    | Closing(call: nat)                                                        // took the core, lock given back

  /** A finished critical section, in lock order. `open` says the core was there. */
  datatype Section =
    | SchemaRead(call: nat, open: bool, found: Option<Schema>)
    | Insertion(call: nat, open: bool, input: Input, written: nat, outcome: Outcome)
    | Flush(call: nat, open: bool, ok: bool)
    | TakeCore(call: nat, open: bool)

  datatype State = State(
    open: bool,
    owner: Option<nat>,
    pcs: seq<Pc>,
    next: nat,
    inputs: map<nat, Payload>,   // what each insert was called with
    log: seq<CoreOp>,
    sections: seq<Section>,
    results: map<nat, Outcome>)

  /** An insert is two critical sections, one to read the schema and one to write, with the conversion of the input
      between them. The core of a `Connection` stays; `close` takes away the one of a `Writer`. */
  datatype Step =
    | StartInsert(thread: nat, payload: Payload)
    | StartFlush(thread: nat)
    | StartClose(thread: nat)
    | ReadSchema(thread: nat, schema: Option<Schema>)
    | ConvertInput(thread: nat)
    | Acquire(thread: nat)
    | WriteBatch(thread: nat, ok: bool)
    | FinishWrite(thread: nat)
    | DoFlush(thread: nat, ok: bool)
    | TakeWriter(thread: nat)
    | CloseTaken(thread: nat, ok: bool)

  function Init(threads: nat): State {
    State(true, None, seq(threads, _ => Idle), 0, map[], [], [], map[])
  }

  predicate Enabled(s: State, step: Step) {
    if step.thread >= |s.pcs| then false
    else
      var pc := s.pcs[step.thread];
      match step
      case StartInsert(_, _) => pc.Idle?
      case StartFlush(_) => pc.Idle?
      case StartClose(_) => pc.Idle?
      case ReadSchema(_, _) => pc.WantSchema? && s.owner.None?
      case ConvertInput(_) => pc.Converting?
      case Acquire(_) => pc.WantWrite? && s.owner.None?
      case WriteBatch(_, _) => pc.Writing? && pc.written < |pc.input.batches|
      case FinishWrite(_) => pc.Writing? && pc.written == |pc.input.batches|
      case DoFlush(_, _) => pc.WantFlush? && s.owner.None?
      case TakeWriter(_) => pc.WantClose? && s.owner.None?
      case CloseTaken(_, _) => pc.Closing?
  }

  function Goto(s: State, t: nat, pc: Pc): State
    requires t < |s.pcs|
  {
    s.(pcs := s.pcs[t := pc])
  }

  /** The call returns. */
  function Return(s: State, t: nat, call: nat, outcome: Outcome): State
    requires t < |s.pcs|
  {
    Goto(s.(results := s.results[call := outcome]), t, Idle)
  }

  /** The call leaves its write section and returns. */
  function Leave(s: State, t: nat, section: Section): State
    requires t < |s.pcs| && section.Insertion?
  {
    Return(s.(owner := None, sections := s.sections + [section]), t, section.call, section.outcome)
  }

  function Apply(convert: Convert, s: State, step: Step): State {
    if !Enabled(s, step) then s
    else
      match step
      case StartInsert(t, payload) =>
        Goto(s.(next := s.next + 1, inputs := s.inputs[s.next := payload]), t, WantSchema(s.next, payload))
      case StartFlush(t) => Goto(s.(next := s.next + 1), t, WantFlush(s.next))
      case StartClose(t) => Goto(s.(next := s.next + 1), t, WantClose(s.next))
      case ReadSchema(t, schema) =>
        var WantSchema(call, payload) := s.pcs[t];
        var s' := s.(sections := s.sections + [SchemaRead(call, s.open, schema)]);
        if !s.open then Return(s', t, call, Failed(WriterClosed))
        else if schema.None? then Return(s', t, call, Failed(SchemaFailed))
        else Goto(s', t, Converting(call, payload, schema.value))
      case ConvertInput(t) =>
        var Converting(call, payload, schema) := s.pcs[t];
        (match convert(payload, schema)
         case None => Return(s, t, call, Failed(ConversionFailed))
         case Some(batches) => Goto(s, t, WantWrite(call, Input(payload, schema, batches))))
      case Acquire(t) =>
        var WantWrite(call, input) := s.pcs[t];
        if s.open then Goto(s.(owner := Some(t)), t, Writing(call, input, 0, 0))
        else Leave(s, t, Insertion(call, false, input, 0, Failed(WriterClosed)))
      case WriteBatch(t, ok) =>
        var Writing(call, input, written, total) := s.pcs[t];
        if ok then
          Goto(s.(log := s.log + [Wrote(call, input.batches[written])]), t,
               Writing(call, input, written + 1, total + input.batches[written].rows))
        else Leave(s, t, Insertion(call, true, input, written, Failed(CoreFailed)))
      case FinishWrite(t) =>
        var Writing(call, input, written, total) := s.pcs[t];
        Leave(s, t, Insertion(call, true, input, written, Inserted(total)))
      case DoFlush(t, ok) =>
        var s' := s.(sections := s.sections + [Flush(s.pcs[t].call, s.open, ok)],
                     log := s.log + (if s.open && ok then [Flushed] else []));
        Return(s', t, s.pcs[t].call,
               if !s.open then Failed(WriterClosed) else if ok then FlushedOk else Failed(CoreFailed))
      case TakeWriter(t) =>
        var s' := s.(sections := s.sections + [TakeCore(s.pcs[t].call, s.open)], open := false);
        if s.open then Goto(s', t, Closing(s.pcs[t].call)) else Return(s', t, s.pcs[t].call, ClosedOk)
      case CloseTaken(t, ok) =>
        Return(s.(log := s.log + [ClosedCore]), t, s.pcs[t].call, if ok then ClosedOk else Failed(CoreFailed))
  }

  /** The state after a run. A run is any sequence of steps; a step that is not enabled leaves the state as it is. */
  function After(convert: Convert, threads: nat, run: seq<Step>): State {
    if run == [] then Init(threads) else Apply(convert, After(convert, threads, run[..|run| - 1]), run[|run| - 1])
  }

  lemma AfterSnoc(convert: Convert, threads: nat, run: seq<Step>, step: Step)
    ensures After(convert, threads, run + [step]) == Apply(convert, After(convert, threads, run), step)
  {
    assert (run + [step])[..|run|] == run;
  }

  // ----- the lock ------------------------------------------------------------------------------

  ghost predicate LockInv(s: State) {
    && (forall t :: 0 <= t < |s.pcs| ==> (s.pcs[t].Writing? <==> s.owner == Some(t)))
    && (s.owner.Some? ==> s.owner.value < |s.pcs| && s.open)
  }

  lemma LockStep(convert: Convert, s: State, step: Step)
    requires LockInv(s)
    ensures LockInv(Apply(convert, s, step))
  {
    if Enabled(s, step) {
      OnlyThreadMoves(convert, s, step);
      OwnerStep(convert, s, step);
    }
  }

  lemma OwnerStep(convert: Convert, s: State, step: Step)
    requires LockInv(s) && Enabled(s, step)
    ensures var s', t := Apply(convert, s, step), step.thread;
      && (s'.pcs[t].Writing? <==> s'.owner == Some(t))
      && (s'.owner == s.owner || (s.owner.None? && s'.owner == Some(t)) || (s.owner == Some(t) && s'.owner.None?))
      && (s'.owner.Some? ==> s'.open)
  {
    assert s.pcs[step.thread].Writing? <==> s.owner == Some(step.thread);
  }

  lemma OnlyThreadMoves(convert: Convert, s: State, step: Step)
    requires Enabled(s, step)
    ensures var s' := Apply(convert, s, step);
      |s'.pcs| == |s.pcs| && forall t :: 0 <= t < |s.pcs| && t != step.thread ==> s'.pcs[t] == s.pcs[t]
  {}

  // ----- the log is whole batch lists in lock order --------------------------------------------

  /** The first batches of an input. */
  function FirstOf(input: Input, n: nat): seq<RecordBatch> {
    if n <= |input.batches| then input.batches[..n] else input.batches
  }

  function SectionWrites(section: Section): seq<CoreOp> {
    match section
    case Insertion(call, _, input, written, _) => Tagged(call, FirstOf(input, written))
    case SchemaRead(_, _, _) => []
    case Flush(_, open, ok) => if open && ok then [Flushed] else []
    case TakeCore(_, _) => []
  }

  function Writes(sections: seq<Section>): seq<CoreOp> {
    if sections == [] then []
    else Writes(sections[..|sections| - 1]) + SectionWrites(sections[|sections| - 1])
  }

  lemma WritesSnoc(sections: seq<Section>, last: Section)
    ensures Writes(sections + [last]) == Writes(sections) + SectionWrites(last)
  {
    assert (sections + [last])[..|sections|] == sections;
  }

  /** What the insertion in progress has written. */
  function InProgress(s: State): seq<CoreOp> {
    if s.owner.Some? && s.owner.value < |s.pcs| then
      match s.pcs[s.owner.value]
      case Writing(call, input, written, _) => Tagged(call, FirstOf(input, written))
      case _ => []
    else []
  }

  ghost predicate WriterPc(pc: Pc) {
    pc.Writing? ==> pc.written <= |pc.input.batches| && pc.total == TotalRows(FirstOf(pc.input, pc.written))
  }

  /** A write section wrote a prefix of its batches: all of them exactly if it succeeded, and then it reports their
      rows; none if the core was gone. */
  ghost predicate SectionSound(section: Section) {
    section.Insertion? ==>
      && section.written <= |section.input.batches|
      && (match section.outcome
          case Inserted(total) =>
            section.open && section.written == |section.input.batches| && total == TotalRows(section.input.batches)
          case Failed(failure) =>
            if section.open then failure.CoreFailed? && section.written < |section.input.batches|
            else failure.WriterClosed? && section.written == 0
          case _ => false)
  }

  ghost predicate SoundInv(s: State) {
    && (forall t :: 0 <= t < |s.pcs| ==> WriterPc(s.pcs[t]))
    && (forall k :: 0 <= k < |s.sections| ==> SectionSound(s.sections[k]))
  }

  lemma PcSound(convert: Convert, s: State, step: Step)
    requires Enabled(s, step) && WriterPc(s.pcs[step.thread])
    ensures WriterPc(Apply(convert, s, step).pcs[step.thread])
  {
    if step.WriteBatch? {
      TotalRowsStep(s.pcs[step.thread].input.batches, s.pcs[step.thread].written);
    }
  }

  lemma LastIsSound(convert: Convert, s: State, step: Step)
    requires Enabled(s, step) && WriterPc(s.pcs[step.thread])
    ensures var s' := Apply(convert, s, step);
      s'.sections == s.sections ||
      (|s'.sections| == |s.sections| + 1 && s'.sections == s.sections + [s'.sections[|s.sections|]]
       && SectionSound(s'.sections[|s.sections|]))
  {
    var pc := s.pcs[step.thread];
    if step.FinishWrite? {
      assert FirstOf(pc.input, pc.written) == pc.input.batches;
    }
  }

  lemma SoundStep(convert: Convert, s: State, step: Step)
    requires SoundInv(s)
    ensures SoundInv(Apply(convert, s, step))
  {
    if Enabled(s, step) {
      OnlyThreadMoves(convert, s, step);
      PcSound(convert, s, step);
      LastIsSound(convert, s, step);
    }
  }

  /** The log is what the sections wrote, in lock order, then what the insertion in progress has written, then the
      core's close if it has happened. */
  ghost predicate LogInv(s: State) {
    s.log == Writes(s.sections) + InProgress(s) + (if CoreClosed(s) then [ClosedCore] else [])
  }

  /** The core has been closed: it was taken, and the thread that took it has closed it. */
  ghost predicate CoreClosed(s: State) {
    NoneClosing(s.open, s.pcs)
  }

  ghost predicate NoneClosing(open: bool, pcs: seq<Pc>) {
    !open && forall t :: 0 <= t < |pcs| ==> !pcs[t].Closing?
  }

  /** At most one thread is closing, and only after the core was taken. */
  ghost predicate CloseInv(s: State) {
    ClosingApart(s.open, s.pcs)
  }

  ghost predicate ClosingApart(open: bool, pcs: seq<Pc>) {
    && (forall t, u :: 0 <= t < |pcs| && 0 <= u < |pcs| && pcs[t].Closing? && pcs[u].Closing? ==> t == u)
    && (forall t :: 0 <= t < |pcs| && pcs[t].Closing? ==> !open)
  }

  lemma StepOpens(convert: Convert, s: State, step: Step)
    requires Enabled(s, step)
    ensures var s', t := Apply(convert, s, step), step.thread;
      && s'.open == (s.open && !step.TakeWriter?)
      && (s.pcs[t].Closing? <==> step.CloseTaken?)
      && (s'.pcs[t].Closing? <==> step.TakeWriter? && s.open)
  {}

  lemma CloseStep(convert: Convert, s: State, step: Step)
    requires CloseInv(s)
    ensures CloseInv(Apply(convert, s, step))
    ensures Enabled(s, step) && !step.CloseTaken? ==> (CoreClosed(Apply(convert, s, step)) <==> CoreClosed(s))
    ensures Enabled(s, step) && step.CloseTaken? ==> CoreClosed(Apply(convert, s, step)) && !CoreClosed(s)
  {
    if Enabled(s, step) {
      StepOpens(convert, s, step);
      OnlyThreadMoves(convert, s, step);
      ClosesApart(s.open, s.pcs, Apply(convert, s, step).open, Apply(convert, s, step).pcs, step.thread);
    }
  }

  /** Of the thread that moves, and only of it, it may change whether it is closing. */
  lemma ClosesApart(open: bool, pcs: seq<Pc>, open': bool, pcs': seq<Pc>, t: nat)
    requires |pcs'| == |pcs| && t < |pcs| && forall u :: 0 <= u < |pcs| && u != t ==> pcs'[u] == pcs[u]
    requires ClosingApart(open, pcs)
    requires (open' == open && !pcs'[t].Closing?) || (!open' && !pcs[t].Closing? && (pcs'[t].Closing? <==> open))
    ensures ClosingApart(open', pcs')
    ensures !pcs[t].Closing? ==> (NoneClosing(open', pcs') <==> NoneClosing(open, pcs))
    ensures pcs[t].Closing? ==> NoneClosing(open', pcs') && !NoneClosing(open, pcs)
  {
    if pcs'[t].Closing? {
      assert !NoneClosing(open', pcs');
    }
  }

  lemma LogRead(convert: Convert, s: State, step: Step)
    requires LogInv(s) && CloseInv(s) && LockInv(s) && Enabled(s, step)
    requires step.StartInsert? || step.StartFlush? || step.StartClose? || step.ConvertInput?
    ensures LogInv(Apply(convert, s, step))
  {
    CloseStep(convert, s, step);
    OnlyThreadMoves(convert, s, step);
    var s' := Apply(convert, s, step);
    assert s'.owner == s.owner && s'.log == s.log && s'.sections == s.sections;
    assert InProgress(s') == InProgress(s);
  }

  lemma LogSchema(convert: Convert, s: State, step: Step)
    requires LogInv(s) && CloseInv(s) && LockInv(s) && Enabled(s, step) && step.ReadSchema?
    ensures LogInv(Apply(convert, s, step))
  {
    CloseStep(convert, s, step);
    SchemaKeeps(convert, s, step);
  }

  lemma SchemaKeeps(convert: Convert, s: State, step: Step)
    requires LockInv(s) && Enabled(s, step) && step.ReadSchema?
    ensures var s' := Apply(convert, s, step);
      s'.log == s.log && Writes(s'.sections) == Writes(s.sections) && InProgress(s) == [] && InProgress(s') == []
  {
    WritesSnoc(s.sections, SchemaRead(s.pcs[step.thread].call, s.open, step.schema));
  }

  lemma AcquireKeeps(convert: Convert, s: State, t: nat)
    requires LockInv(s) && Enabled(s, Acquire(t))
    ensures var s' := Apply(convert, s, Acquire(t));
      && s'.log == s.log && InProgress(s) == [] && InProgress(s') == []
      && (if s.open then s'.sections == s.sections
          else exists last: Section :: s'.sections == s.sections + [last] && SectionWrites(last) == [])
  {
    var pc := s.pcs[t];
    assert FirstOf(pc.input, 0) == [];
    if !s.open {
      var last := Insertion(pc.call, false, pc.input, 0, Failed(WriterClosed));
      assert SectionWrites(last) == [];
      assert Apply(convert, s, Acquire(t)).sections == s.sections + [last];
    }
  }

  lemma LogAcquire(convert: Convert, s: State, t: nat)
    requires LogInv(s) && CloseInv(s) && LockInv(s) && Enabled(s, Acquire(t))
    ensures LogInv(Apply(convert, s, Acquire(t)))
  {
    CloseStep(convert, s, Acquire(t));
    AcquireKeeps(convert, s, t);
    if !s.open {
      var last: Section :| Apply(convert, s, Acquire(t)).sections == s.sections + [last] && SectionWrites(last) == [];
      WritesSnoc(s.sections, last);
    }
  }

  lemma LogWriteOk(convert: Convert, s: State, step: Step)
    requires LogInv(s) && CloseInv(s) && LockInv(s) && SoundInv(s) && Enabled(s, step)
    requires step.WriteBatch? && step.ok
    ensures LogInv(Apply(convert, s, step))
  {
    CloseStep(convert, s, step);
    var s' := Apply(convert, s, step);
    var pc := s.pcs[step.thread];
    var entry := [Wrote(pc.call, pc.input.batches[pc.written])];
    assert WriterPc(pc) && s.owner == Some(step.thread) && s.open;
    TaggedSnoc(pc.call, pc.input.batches, pc.written);
    assert InProgress(s') == InProgress(s) + entry;
    ConcatAssoc(Writes(s.sections), InProgress(s), entry);
  }

  lemma LogWriteEnds(convert: Convert, s: State, step: Step)
    requires LogInv(s) && CloseInv(s) && LockInv(s) && Enabled(s, step)
    requires (step.WriteBatch? && !step.ok) || step.FinishWrite?
    ensures LogInv(Apply(convert, s, step))
  {
    CloseStep(convert, s, step);
    var s' := Apply(convert, s, step);
    assert s.owner == Some(step.thread) && s.open;
    var last := s'.sections[|s.sections|];
    assert SectionWrites(last) == InProgress(s);
    WritesSnoc(s.sections, last);
    assert InProgress(s') == [] && s'.log == s.log;
  }

  lemma FlushAdds(convert: Convert, s: State, step: Step)
    requires LockInv(s) && Enabled(s, step) && step.DoFlush?
    ensures var s' := Apply(convert, s, step);
      var entries := if s.open && step.ok then [Flushed] else [];
      && s'.log == s.log + entries && Writes(s'.sections) == Writes(s.sections) + entries
      && InProgress(s) == [] && InProgress(s') == []
  {
    WritesSnoc(s.sections, Flush(s.pcs[step.thread].call, s.open, step.ok));
  }

  lemma LogFlush(convert: Convert, s: State, step: Step)
    requires LogInv(s) && CloseInv(s) && LockInv(s) && Enabled(s, step) && step.DoFlush?
    ensures LogInv(Apply(convert, s, step))
  {
    CloseStep(convert, s, step);
    FlushAdds(convert, s, step);
  }

  lemma TakeKeeps(convert: Convert, s: State, step: Step)
    requires LockInv(s) && Enabled(s, step) && step.TakeWriter?
    ensures var s' := Apply(convert, s, step);
      s'.log == s.log && Writes(s'.sections) == Writes(s.sections) && InProgress(s) == [] && InProgress(s') == []
  {
    WritesSnoc(s.sections, TakeCore(s.pcs[step.thread].call, s.open));
  }

  lemma LogTake(convert: Convert, s: State, step: Step)
    requires LogInv(s) && CloseInv(s) && LockInv(s) && Enabled(s, step) && step.TakeWriter?
    ensures LogInv(Apply(convert, s, step))
  {
    CloseStep(convert, s, step);
    TakeKeeps(convert, s, step);
  }

  lemma LogClose(convert: Convert, s: State, step: Step)
    requires LogInv(s) && CloseInv(s) && LockInv(s) && Enabled(s, step) && step.CloseTaken?
    ensures LogInv(Apply(convert, s, step))
  {
    CloseStep(convert, s, step);
    assert InProgress(s) == [] && InProgress(Apply(convert, s, step)) == [];
  }

  lemma {:induction false} InvAlways(convert: Convert, threads: nat, run: seq<Step>)
    ensures var s := After(convert, threads, run); LockInv(s) && SoundInv(s) && CloseInv(s) && LogInv(s)
  {
    if run != [] {
      InvAlways(convert, threads, run[..|run| - 1]);
      var s, step := After(convert, threads, run[..|run| - 1]), run[|run| - 1];
      LockStep(convert, s, step);
      SoundStep(convert, s, step);
      CloseStep(convert, s, step);
      if Enabled(s, step) {
        match step
        case ReadSchema(_, _) => LogSchema(convert, s, step);
        case Acquire(t) => LogAcquire(convert, s, t);
        case WriteBatch(_, ok) => if ok { LogWriteOk(convert, s, step); } else { LogWriteEnds(convert, s, step); }
        case FinishWrite(_) => LogWriteEnds(convert, s, step);
        case DoFlush(_, _) => LogFlush(convert, s, step);
        case TakeWriter(_) => LogTake(convert, s, step);
        case CloseTaken(_, _) => LogClose(convert, s, step);
        case _ => LogRead(convert, s, step);
      }
    }
  }

  // ----- the core is there until it is taken ---------------------------------------------------

  ghost predicate NoTake(sections: seq<Section>) {
    forall k :: 0 <= k < |sections| ==> !sections[k].TakeCore?
  }

  lemma NoTakeSnoc(sections: seq<Section>, last: Section)
    ensures NoTake(sections + [last]) <==> NoTake(sections) && !last.TakeCore?
  {
    var all := sections + [last];
    assert all[|sections|] == last;
    assert forall k :: 0 <= k < |sections| ==> all[k] == sections[k];
  }

  ghost predicate OpenInv(s: State) {
    s.open == NoTake(s.sections) && OpenUntilTaken(s.sections)
  }

  ghost predicate OpenUntilTaken(sections: seq<Section>) {
    forall k :: 0 <= k < |sections| ==> sections[k].open == NoTake(sections[..k])
  }

  lemma OpenSnoc(sections: seq<Section>, last: Section)
    requires OpenUntilTaken(sections) && last.open == NoTake(sections)
    ensures OpenUntilTaken(sections + [last])
  {
    var all := sections + [last];
    forall k | 0 <= k < |all| ensures all[k].open == NoTake(all[..k]) {
      assert all[..k] == if k < |sections| then sections[..k] else sections;
    }
  }

  lemma StepAddsSection(convert: Convert, s: State, step: Step)
    requires Enabled(s, step)
    ensures var s' := Apply(convert, s, step);
      s'.sections == s.sections ||
      (|s'.sections| == |s.sections| + 1 && s'.sections == s.sections + [s'.sections[|s.sections|]])
  {}

  /** A section tells whether the core was there, and only one that takes it changes that. */
  lemma LastIsOpen(convert: Convert, s: State, step: Step)
    requires LockInv(s) && Enabled(s, step) && |Apply(convert, s, step).sections| > |s.sections|
    ensures var s' := Apply(convert, s, step);
      s'.sections[|s.sections|].open == s.open && s'.open == (s.open && !s'.sections[|s.sections|].TakeCore?)
  {}

  lemma OpenStays(convert: Convert, s: State, step: Step)
    requires Enabled(s, step) && Apply(convert, s, step).sections == s.sections
    ensures Apply(convert, s, step).open == s.open
  {}

  lemma OpenStep(convert: Convert, s: State, step: Step)
    requires OpenInv(s) && LockInv(s)
    ensures OpenInv(Apply(convert, s, step))
  {
    if Enabled(s, step) {
      var s' := Apply(convert, s, step);
      StepAddsSection(convert, s, step);
      if s'.sections == s.sections {
        OpenStays(convert, s, step);
      } else {
        var last := s'.sections[|s.sections|];
        LastIsOpen(convert, s, step);
        NoTakeSnoc(s.sections, last);
        OpenSnoc(s.sections, last);
      }
    }
  }

  lemma {:induction false} OpenAlways(convert: Convert, threads: nat, run: seq<Step>)
    ensures OpenInv(After(convert, threads, run))
  {
    if run != [] {
      OpenAlways(convert, threads, run[..|run| - 1]);
      InvAlways(convert, threads, run[..|run| - 1]);
      OpenStep(convert, After(convert, threads, run[..|run| - 1]), run[|run| - 1]);
    }
  }

  // ----- calls and their results ---------------------------------------------------------------

  function CallOf(pc: Pc): Option<nat> {
    if pc.Idle? then None else Some(pc.call)
  }

  /** A call is in one thread or has returned, never both. */
  ghost predicate CallsApart(pcs: seq<Pc>, returned: set<nat>, next: nat) {
    && (forall t :: 0 <= t < |pcs| && CallOf(pcs[t]).Some? ==>
          CallOf(pcs[t]).value < next && CallOf(pcs[t]).value !in returned)
    && (forall t, u :: 0 <= t < u < |pcs| && CallOf(pcs[t]).Some? ==> CallOf(pcs[t]) != CallOf(pcs[u]))
    && (forall call :: call in returned ==> call < next)
  }

  ghost predicate CallInv(s: State) {
    CallsApart(s.pcs, s.results.Keys, s.next)
  }

  /** A thread starts a new call, goes on with its own, or returns it. */
  lemma CallsStayApart(pcs: seq<Pc>, returned: set<nat>, next: nat, t: nat, pc: Pc, returned': set<nat>, next': nat)
    requires CallsApart(pcs, returned, next) && t < |pcs|
    requires next' == (if CallOf(pc) == Some(next) then next + 1 else next)
    requires CallOf(pc).Some? ==> CallOf(pc) == Some(next) || CallOf(pc) == CallOf(pcs[t])
    requires returned' == returned ||
      (CallOf(pc).None? && CallOf(pcs[t]).Some? && returned' == returned + {CallOf(pcs[t]).value})
    ensures CallsApart(pcs[t := pc], returned', next')
  {}

  lemma StepPcs(convert: Convert, s: State, step: Step)
    requires Enabled(s, step)
    ensures var s', t := Apply(convert, s, step), step.thread;
      && |s'.pcs| == |s.pcs| && s'.pcs == s.pcs[t := s'.pcs[t]]
      && (CallOf(s'.pcs[t]).Some? ==> CallOf(s'.pcs[t]) == Some(s.next) || CallOf(s'.pcs[t]) == CallOf(s.pcs[t]))
  {}

  lemma StepNumbers(convert: Convert, s: State, step: Step)
    requires Enabled(s, step) && CallOf(s.pcs[step.thread]) != Some(s.next)
    ensures var s' := Apply(convert, s, step);
      s'.next == (if CallOf(s'.pcs[step.thread]) == Some(s.next) then s.next + 1 else s.next)
  {}

  lemma StepAddsResult(convert: Convert, s: State, step: Step)
    requires Enabled(s, step)
    ensures var s' := Apply(convert, s, step);
      var call := CallOf(s.pcs[step.thread]);
      s'.results == s.results ||
      (call.Some? && call.value in s'.results && s'.results == s.results[call.value := s'.results[call.value]])
  {
    var pc := s.pcs[step.thread];
    if pc.Idle? || (step.WriteBatch? && step.ok) {
      assert Apply(convert, s, step).results == s.results;
    }
  }

  /** A thread whose call returns is idle. */
  lemma StepReturns(convert: Convert, s: State, step: Step)
    requires Enabled(s, step)
    ensures Apply(convert, s, step).results == s.results || CallOf(Apply(convert, s, step).pcs[step.thread]).None?
  {}

  lemma CallStep(convert: Convert, s: State, step: Step)
    requires CallInv(s)
    ensures CallInv(Apply(convert, s, step))
  {
    if Enabled(s, step) {
      StepPcs(convert, s, step);
      StepNumbers(convert, s, step);
      StepReturns(convert, s, step);
      StepAddsResult(convert, s, step);
      var s', t := Apply(convert, s, step), step.thread;
      CallsStayApart(s.pcs, s.results.Keys, s.next, t, s'.pcs[t], s'.results.Keys, s'.next);
    }
  }

  /** The write sections agree with what their calls returned, and no call has two. */
  ghost predicate SectionInv(s: State) {
    && (forall k :: 0 <= k < |s.sections| && s.sections[k].Insertion? ==>
          s.sections[k].call in s.results && s.results[s.sections[k].call] == s.sections[k].outcome)
    && (forall j, k :: 0 <= j < k < |s.sections| && s.sections[j].Insertion? && s.sections[k].Insertion? ==>
          s.sections[j].call != s.sections[k].call)
  }

  ghost predicate HasSection(sections: seq<Section>, call: nat) {
    exists k :: 0 <= k < |sections| && sections[k].Insertion? && sections[k].call == call
  }

  ghost predicate ResultInv(s: State) {
    && SectionInv(s)
    && (forall call :: call in s.results && s.results[call].Inserted? ==> HasSection(s.sections, call))
  }

  /** A step adds at most one section, and a result only for the call of its thread, which had none. */
  lemma StepAdds(convert: Convert, s: State, step: Step)
    requires CallInv(s) && Enabled(s, step)
    ensures var s' := Apply(convert, s, step);
      var call := CallOf(s.pcs[step.thread]);
      && (s'.results == s.results ||
            (call.Some? && call.value !in s.results && call.value in s'.results
             && s'.results == s.results[call.value := s'.results[call.value]]))
      && (s'.sections == s.sections ||
            (|s'.sections| == |s.sections| + 1 && s'.sections == s.sections + [s'.sections[|s.sections|]]))
  {
    StepAddsSection(convert, s, step);
    StepAddsResult(convert, s, step);
  }

  /** A write section that a step adds is of the call of its thread, and agrees with what it returned. */
  lemma InsertionAgrees(convert: Convert, s: State, step: Step)
    requires Enabled(s, step)
    ensures var s' := Apply(convert, s, step);
      |s'.sections| > |s.sections| && s'.sections[|s.sections|].Insertion? ==>
        var last := s'.sections[|s.sections|];
        && CallOf(s.pcs[step.thread]) == Some(last.call)
        && last.call in s'.results && s'.results[last.call] == last.outcome
  {}

  lemma SectionStep(convert: Convert, s: State, step: Step)
    requires SectionInv(s) && CallInv(s)
    ensures SectionInv(Apply(convert, s, step))
  {
    if Enabled(s, step) {
      StepAdds(convert, s, step);
      InsertionAgrees(convert, s, step);
    }
  }

  lemma ResultStep(convert: Convert, s: State, step: Step)
    requires ResultInv(s) && CallInv(s)
    ensures ResultInv(Apply(convert, s, step))
  {
    SectionStep(convert, s, step);
    if Enabled(s, step) {
      StepAdds(convert, s, step);
      var s' := Apply(convert, s, step);
      forall c | c in s'.results && s'.results[c].Inserted? ensures HasSection(s'.sections, c) {
        if c in s.results {
          var k :| 0 <= k < |s.sections| && s.sections[k].Insertion? && s.sections[k].call == c;
          assert s'.sections[k] == s.sections[k];
        } else {
          assert s'.sections[|s.sections|].Insertion? && s'.sections[|s.sections|].call == c;
        }
      }
    }
  }

  lemma {:induction false} CallAlways(convert: Convert, threads: nat, run: seq<Step>)
    ensures CallInv(After(convert, threads, run)) && ResultInv(After(convert, threads, run))
  {
    if run != [] {
      CallAlways(convert, threads, run[..|run| - 1]);
      CallStep(convert, After(convert, threads, run[..|run| - 1]), run[|run| - 1]);
      ResultStep(convert, After(convert, threads, run[..|run| - 1]), run[|run| - 1]);
    }
  }

  // ----- what is written is the call's own input -----------------------------------------------

  ghost predicate FromInput(convert: Convert, inputs: map<nat, Payload>, call: nat, input: Input) {
    && call in inputs && inputs[call] == input.payload
    && convert(input.payload, input.schema) == Some(input.batches)
  }

  ghost predicate PcInput(convert: Convert, inputs: map<nat, Payload>, pc: Pc) {
    match pc
    case WantSchema(call, payload) => call in inputs && inputs[call] == payload
    case Converting(call, payload, _) => call in inputs && inputs[call] == payload
    case WantWrite(call, input) => FromInput(convert, inputs, call, input)
    case Writing(call, input, _, _) => FromInput(convert, inputs, call, input)
    case _ => true
  }

  /** A conversion of the call's input failed. */
  ghost predicate Rejected(convert: Convert, inputs: map<nat, Payload>, call: nat) {
    call in inputs && exists schema :: convert(inputs[call], schema) == None
  }

  ghost predicate PcsInput(convert: Convert, s: State) {
    && (forall call :: call in s.inputs ==> call < s.next)
    && (forall t :: 0 <= t < |s.pcs| ==> PcInput(convert, s.inputs, s.pcs[t]))
  }

  ghost predicate SectionsInput(convert: Convert, s: State) {
    forall k :: 0 <= k < |s.sections| && s.sections[k].Insertion? ==>
      FromInput(convert, s.inputs, s.sections[k].call, s.sections[k].input)
  }

  ghost predicate ResultsInput(convert: Convert, inputs: map<nat, Payload>, results: map<nat, Outcome>) {
    forall call :: call in results && results[call] == Failed(ConversionFailed) ==> Rejected(convert, inputs, call)
  }

  ghost predicate InputInv(convert: Convert, s: State) {
    PcsInput(convert, s) && SectionsInput(convert, s) && ResultsInput(convert, s.inputs, s.results)
  }

  lemma StartStep(convert: Convert, s: State, step: Step)
    requires InputInv(convert, s) && Enabled(s, step) && step.StartInsert?
    ensures InputInv(convert, Apply(convert, s, step))
  {
    var s' := Apply(convert, s, step);
    assert forall call :: call in s.inputs ==> call in s'.inputs && s'.inputs[call] == s.inputs[call];
    forall t | 0 <= t < |s'.pcs| ensures PcInput(convert, s'.inputs, s'.pcs[t]) {
      assert PcInput(convert, s.inputs, s.pcs[t]);
    }
    forall call | call in s'.results && s'.results[call] == Failed(ConversionFailed)
      ensures Rejected(convert, s'.inputs, call)
    {
      assert Rejected(convert, s.inputs, call);
    }
  }

  lemma InputsStay(convert: Convert, s: State, step: Step)
    requires Enabled(s, step) && !step.StartInsert?
    ensures var s' := Apply(convert, s, step); s'.inputs == s.inputs && s'.next >= s.next
  {}

  lemma PcInputStep(convert: Convert, s: State, step: Step)
    requires Enabled(s, step) && !step.StartInsert? && PcInput(convert, s.inputs, s.pcs[step.thread])
    ensures PcInput(convert, s.inputs, Apply(convert, s, step).pcs[step.thread])
  {}

  lemma PcsInputStep(convert: Convert, s: State, step: Step)
    requires PcsInput(convert, s) && Enabled(s, step) && !step.StartInsert?
    ensures PcsInput(convert, Apply(convert, s, step))
  {
    OnlyThreadMoves(convert, s, step);
    InputsStay(convert, s, step);
    PcInputStep(convert, s, step);
  }

  lemma LastIsFromInput(convert: Convert, s: State, step: Step)
    requires PcsInput(convert, s) && Enabled(s, step) && !step.StartInsert?
    ensures var s' := Apply(convert, s, step);
      && s'.inputs == s.inputs
      && (s'.sections == s.sections ||
            (|s'.sections| == |s.sections| + 1 && s'.sections == s.sections + [s'.sections[|s.sections|]]
             && var last := s'.sections[|s.sections|];
                last.Insertion? ==> FromInput(convert, s.inputs, last.call, last.input)))
  {
    assert PcInput(convert, s.inputs, s.pcs[step.thread]);
  }

  lemma SectionsInputStep(convert: Convert, s: State, step: Step)
    requires InputInv(convert, s) && Enabled(s, step) && !step.StartInsert?
    ensures SectionsInput(convert, Apply(convert, s, step))
  {
    LastIsFromInput(convert, s, step);
  }

  /** A step returns a failed conversion only for an input whose conversion failed. */
  lemma RejectedStep(convert: Convert, s: State, step: Step, call: nat)
    requires Enabled(s, step) && !step.StartInsert? && PcInput(convert, s.inputs, s.pcs[step.thread])
    requires CallOf(s.pcs[step.thread]) == Some(call) && call in Apply(convert, s, step).results
    requires Apply(convert, s, step).results != s.results
    ensures Apply(convert, s, step).results[call] == Failed(ConversionFailed) ==> Rejected(convert, s.inputs, call)
  {}

  lemma ResultsInputGrow(convert: Convert, inputs: map<nat, Payload>, results: map<nat, Outcome>, call: nat,
                         outcome: Outcome)
    requires ResultsInput(convert, inputs, results)
    requires outcome == Failed(ConversionFailed) ==> Rejected(convert, inputs, call)
    ensures ResultsInput(convert, inputs, results[call := outcome])
  {}

  lemma ResultsInputStep(convert: Convert, s: State, step: Step)
    requires InputInv(convert, s) && Enabled(s, step) && !step.StartInsert?
    ensures ResultsInput(convert, s.inputs, Apply(convert, s, step).results)
  {
    var s' := Apply(convert, s, step);
    assert PcInput(convert, s.inputs, s.pcs[step.thread]);
    StepAddsResult(convert, s, step);
    if s'.results != s.results {
      var call := CallOf(s.pcs[step.thread]).value;
      RejectedStep(convert, s, step, call);
      ResultsInputGrow(convert, s.inputs, s.results, call, s'.results[call]);
    }
  }

  lemma {:induction false} InputAlways(convert: Convert, threads: nat, run: seq<Step>)
    ensures InputInv(convert, After(convert, threads, run))
  {
    if run != [] {
      var s, step := After(convert, threads, run[..|run| - 1]), run[|run| - 1];
      InputAlways(convert, threads, run[..|run| - 1]);
      if Enabled(s, step) {
        if step.StartInsert? {
          StartStep(convert, s, step);
        } else {
          PcsInputStep(convert, s, step);
          SectionsInputStep(convert, s, step);
          ResultsInputStep(convert, s, step);
        }
      }
    }
  }

  // ----- main results --------------------------------------------------------------------------

  predicate Mentions(ops: seq<CoreOp>, call: nat) {
    exists i :: 0 <= i < |ops| && ops[i].Wrote? && ops[i].call == call
  }

  /** In every interleaving the log is a concatenation, in lock order, of what the write sections wrote: calls are never
      interleaved. */
  lemma LogIsSectionsInLockOrder(convert: Convert, threads: nat, run: seq<Step>)
    ensures var s := After(convert, threads, run);
      s.log == Writes(s.sections) + InProgress(s) + (if CoreClosed(s) then [ClosedCore] else [])
  {
    InvAlways(convert, threads, run);
  }

  /** What a section wrote is its whole batch list or, where the core failed, a proper prefix of it, or nothing if the
      core had been taken before. */
  lemma SectionsWriteWholeLists(convert: Convert, threads: nat, run: seq<Step>, k: nat)
    requires k < |After(convert, threads, run).sections|
    ensures var s := After(convert, threads, run);
      SectionSound(s.sections[k]) && s.sections[k].open == NoTake(s.sections[..k])
  {
    InvAlways(convert, threads, run);
    OpenAlways(convert, threads, run);
  }

  lemma {:induction false} WritesMention(sections: seq<Section>, call: nat)
    requires Mentions(Writes(sections), call)
    ensures HasSection(sections, call)
  {
    var init, last := sections[..|sections| - 1], sections[|sections| - 1];
    var i :| 0 <= i < |Writes(sections)| && Writes(sections)[i].Wrote? && Writes(sections)[i].call == call;
    if i < |Writes(init)| {
      assert Writes(init)[i] == Writes(sections)[i];
      WritesMention(init, call);
      var k :| 0 <= k < |init| && init[k].Insertion? && init[k].call == call;
      assert sections[k] == init[k];
    } else {
      assert SectionWrites(last)[i - |Writes(init)|] == Writes(sections)[i];
      assert sections[|sections| - 1].Insertion? && sections[|sections| - 1].call == call;
    }
  }

  /** The log entries of one call. */
  function EntriesOf(ops: seq<CoreOp>, call: nat): seq<CoreOp> {
    if ops == [] then []
    else
      var last := ops[|ops| - 1];
      EntriesOf(ops[..|ops| - 1], call) + (if last.Wrote? && last.call == call then [last] else [])
  }

  lemma {:induction false} EntriesAppend(xs: seq<CoreOp>, ys: seq<CoreOp>, call: nat)
    ensures EntriesOf(xs + ys, call) == EntriesOf(xs, call) + EntriesOf(ys, call)
  {
    if ys == [] {
      assert xs + ys == xs;
    } else {
      var init := ys[..|ys| - 1];
      assert (xs + ys)[..|xs + ys| - 1] == xs + init;
      EntriesAppend(xs, init, call);
    }
  }

  lemma {:induction false} EntriesOfTagged(writer: nat, batches: seq<RecordBatch>, call: nat)
    ensures EntriesOf(Tagged(writer, batches), call) == if writer == call then Tagged(call, batches) else []
  {
    if batches != [] {
      var k := |batches| - 1;
      EntriesOfTagged(writer, batches[..k], call);
      TaggedSnoc(writer, batches, k);
      assert batches[..k + 1] == batches;
      EntriesAppend(Tagged(writer, batches[..k]), [Wrote(writer, batches[k])], call);
    }
  }

  lemma {:induction false} NoMentionNoEntries(ops: seq<CoreOp>, call: nat)
    requires !Mentions(ops, call)
    ensures EntriesOf(ops, call) == []
  {
    if ops != [] {
      var last := ops[|ops| - 1];
      assert ops[..|ops| - 1] + [last] == ops;
      assert !Mentions(ops[..|ops| - 1], call);
      NoMentionNoEntries(ops[..|ops| - 1], call);
    }
  }

  lemma SectionEntries(section: Section, call: nat)
    ensures EntriesOf(SectionWrites(section), call) ==
      if section.Insertion? && section.call == call then SectionWrites(section) else []
  {
    match section
    case Insertion(c, _, input, written, _) => EntriesOfTagged(c, FirstOf(input, written), call);
    case SchemaRead(_, _, _) =>
    case Flush(_, _, _) =>
    case TakeCore(_, _) =>
  }

  /** With one write section to a call, that section wrote all of the call's entries. */
  lemma {:induction false} EntriesOfSection(sections: seq<Section>, k: nat)
    requires k < |sections| && sections[k].Insertion?
    requires forall j :: 0 <= j < |sections| && j != k && sections[j].Insertion? ==>
      sections[j].call != sections[k].call
    ensures EntriesOf(Writes(sections), sections[k].call) == SectionWrites(sections[k])
  {
    var call, init, last := sections[k].call, sections[..|sections| - 1], sections[|sections| - 1];
    EntriesAppend(Writes(init), SectionWrites(last), call);
    SectionEntries(last, call);
    if k < |init| {
      EntriesOfSection(init, k);
    } else {
      NoSectionNoEntries(init, call);
    }
  }

  lemma NoSectionNoEntries(sections: seq<Section>, call: nat)
    requires !HasSection(sections, call)
    ensures EntriesOf(Writes(sections), call) == []
  {
    if Mentions(Writes(sections), call) {
      WritesMention(sections, call);
      assert false;
    }
    NoMentionNoEntries(Writes(sections), call);
  }

  /** A section's call has returned what the section says, which is never a failure from before the write. */
  lemma SectionResult(s: State, call: nat)
    requires ResultInv(s) && SoundInv(s)
    ensures HasSection(s.sections, call) ==>
      call in s.results && s.results[call] !in {Failed(SchemaFailed), Failed(ConversionFailed)}
  {
    if HasSection(s.sections, call) {
      var k :| 0 <= k < |s.sections| && s.sections[k].Insertion? && s.sections[k].call == call;
      assert SectionSound(s.sections[k]);
    }
  }

  /** What one call left in the log, in terms of its write section. */
  lemma CallEntries(s: State, call: nat)
    requires LockInv(s) && LogInv(s) && CallInv(s) && ResultInv(s) && call in s.results
    ensures !HasSection(s.sections, call) ==> EntriesOf(s.log, call) == []
    ensures forall k :: 0 <= k < |s.sections| && s.sections[k].Insertion? && s.sections[k].call == call ==>
      EntriesOf(s.log, call) == SectionWrites(s.sections[k])
  {
    var done, current, closed := Writes(s.sections), InProgress(s), if CoreClosed(s) then [ClosedCore] else [];
    EntriesAppend(done + current, closed, call);
    EntriesAppend(done, current, call);
    assert EntriesOf(closed, call) == [];
    assert EntriesOf(current, call) == [] by {
      if s.owner.Some? && s.pcs[s.owner.value].Writing? {
        var pc := s.pcs[s.owner.value];
        EntriesOfTagged(pc.call, FirstOf(pc.input, pc.written), call);
      }
    }
    assert EntriesOf(s.log, call) == EntriesOf(done, call);
    if !HasSection(s.sections, call) {
      NoSectionNoEntries(s.sections, call);
    }
    forall k | 0 <= k < |s.sections| && s.sections[k].Insertion? && s.sections[k].call == call
      ensures EntriesOf(done, call) == SectionWrites(s.sections[k])
    {
      EntriesOfSection(s.sections, k);
    }
  }

  /** What a returned insert means: a success left all the batches its own input became, once each and in order, and
      reports their rows; a failure to read the schema or to convert the input left nothing, and the latter means that
      the input could not be converted. */
  lemma ResultsTellTheLog(convert: Convert, threads: nat, run: seq<Step>, call: nat)
    requires call in After(convert, threads, run).results
    ensures var s := After(convert, threads, run);
      match s.results[call]
      case Inserted(total) =>
        exists input ::
          && FromInput(convert, s.inputs, call, input)
          && EntriesOf(s.log, call) == Tagged(call, input.batches) && total == TotalRows(input.batches)
      case Failed(failure) =>
        && (failure.SchemaFailed? || failure.ConversionFailed? ==> EntriesOf(s.log, call) == [])
        && (failure.ConversionFailed? ==> Rejected(convert, s.inputs, call))
      case _ => true
  {
    var s := After(convert, threads, run);
    InvAlways(convert, threads, run);
    CallAlways(convert, threads, run);
    InputAlways(convert, threads, run);
    CallEntries(s, call);
    match s.results[call]
    case Inserted(total) =>
      var k :| 0 <= k < |s.sections| && s.sections[k].Insertion? && s.sections[k].call == call;
      var input := s.sections[k].input;
      assert SectionSound(s.sections[k]);
      assert FirstOf(input, |input.batches|) == input.batches;
      assert FromInput(convert, s.inputs, call, input);
      assert EntriesOf(s.log, call) == Tagged(call, input.batches);
    case Failed(_) =>
      SectionResult(s, call);
    case _ =>
  }

  /** The other way round: a core error left exactly the batches before the failed one, a writer found closed left
      none. */
  lemma SectionsTellTheLog(convert: Convert, threads: nat, run: seq<Step>, k: nat)
    requires k < |After(convert, threads, run).sections| && After(convert, threads, run).sections[k].Insertion?
    ensures var s := After(convert, threads, run);
      var section := s.sections[k];
      && FromInput(convert, s.inputs, section.call, section.input)
      && section.call in s.results && s.results[section.call] == section.outcome
      && EntriesOf(s.log, section.call) == Tagged(section.call, FirstOf(section.input, section.written))
      && (section.outcome.Inserted? <==> section.open && section.written == |section.input.batches|)
      && (section.outcome == Failed(WriterClosed) ==> section.written == 0)
      && (section.outcome == Failed(CoreFailed) ==> section.written < |section.input.batches|)
  {
    InvAlways(convert, threads, run);
    CallAlways(convert, threads, run);
    InputAlways(convert, threads, run);
    var s := After(convert, threads, run);
    assert SectionSound(s.sections[k]);
    CallEntries(s, s.sections[k].call);
  }

  /** An insert whose write section comes after the core was taken, even if it read the schema before, writes nothing
      and fails; nothing a section does after that reaches the log. */
  lemma StraddlingInsertWritesNothing(convert: Convert, threads: nat, run: seq<Step>, j: nat, k: nat)
    requires var s := After(convert, threads, run);
      j < k < |s.sections| && s.sections[j].TakeCore?
    ensures var s := After(convert, threads, run);
      && !s.sections[k].open
      && SectionWrites(s.sections[k]) == []
      && (s.sections[k].Insertion? ==>
            s.sections[k].call in s.results && s.results[s.sections[k].call] == Failed(WriterClosed))
  {
    var s := After(convert, threads, run);
    InvAlways(convert, threads, run);
    OpenAlways(convert, threads, run);
    CallAlways(convert, threads, run);
    assert s.sections[..k][j].TakeCore?;
    assert SectionSound(s.sections[k]);
  }

  lemma {:induction false} NoCloseInWrites(sections: seq<Section>)
    ensures forall i :: 0 <= i < |Writes(sections)| ==> !Writes(sections)[i].ClosedCore?
  {
    if sections != [] {
      NoCloseInWrites(sections[..|sections| - 1]);
    }
  }

  /** The core is closed at most once, and its close is the last thing in the log. */
  lemma CoreClosedOnceAndLast(convert: Convert, threads: nat, run: seq<Step>)
    ensures var s := After(convert, threads, run);
      forall i :: 0 <= i < |s.log| && s.log[i].ClosedCore? ==> i == |s.log| - 1 && !s.open && CoreClosed(s)
  {
    InvAlways(convert, threads, run);
    NoCloseInWrites(After(convert, threads, run).sections);
  }

  lemma ClosedStep(convert: Convert, s: State, step: Step)
    requires !s.open && LockInv(s) && CloseInv(s)
    ensures var s' := Apply(convert, s, step);
      && !s'.open
      && s'.log == s.log + (if CoreClosed(s') && !CoreClosed(s) then [ClosedCore] else [])
      && (CoreClosed(s) ==> CoreClosed(s'))
  {
    CloseStep(convert, s, step);
  }

  /** Nothing but the core's own close happened to the log. */
  ghost predicate OnlyClosed(before: State, after: State) {
    && !after.open
    && after.log == before.log + (if CoreClosed(after) && !CoreClosed(before) then [ClosedCore] else [])
    && (CoreClosed(before) ==> CoreClosed(after))
  }

  lemma OnlyClosedFurther(convert: Convert, before: State, s: State, step: Step)
    requires OnlyClosed(before, s) && LockInv(s) && CloseInv(s)
    ensures OnlyClosed(before, Apply(convert, s, step))
  {
    ClosedStep(convert, s, step);
  }

  /** Once the core is taken the log never grows again, but for the core's own close. */
  lemma {:induction false} NothingWrittenAfterClose(convert: Convert, threads: nat, run: seq<Step>, more: seq<Step>)
    requires !After(convert, threads, run).open
    ensures OnlyClosed(After(convert, threads, run), After(convert, threads, run + more))
    decreases more
  {
    if more == [] {
      assert run + more == run;
    } else {
      var shorter, last := more[..|more| - 1], more[|more| - 1];
      assert more == shorter + [last];
      NothingWrittenAfterClose(convert, threads, run, shorter);
      InvAlways(convert, threads, run + shorter);
      ConcatAssoc(run, shorter, [last]);
      AfterSnoc(convert, threads, run + shorter, last);
      OnlyClosedFurther(convert, After(convert, threads, run), After(convert, threads, run + shorter), last);
    }
  }

  // ----- the code's sections, one after another ------------------------------------------------

  /** The section's call returned what the section says; a close that took the core may report an error. */
  ghost predicate Settled(section: Section, results: map<nat, Outcome>) {
    match section
    case SchemaRead(call, open, found) =>
      (open && found.Some?) || (call in results && results[call] == Failed(if open then SchemaFailed else WriterClosed))
    case Insertion(call, _, _, _, outcome) => call in results && results[call] == outcome
    case Flush(call, open, ok) =>
      call in results
      && results[call] == (if !open then Failed(WriterClosed) else if ok then FlushedOk else Failed(CoreFailed))
    case TakeCore(call, open) =>
      call in results && (results[call] == ClosedOk || (open && results[call] == Failed(CoreFailed)))
  }

  /** A thread is still closing the core that the section took. */
  ghost predicate Pending(section: Section, pcs: seq<Pc>) {
    section.TakeCore? && section.open && exists t :: 0 <= t < |pcs| && pcs[t] == Closing(section.call)
  }

  ghost predicate SettledInv(s: State) {
    forall k :: 0 <= k < |s.sections| ==> Settled(s.sections[k], s.results) || Pending(s.sections[k], s.pcs)
  }

  lemma SettledStep(convert: Convert, s: State, step: Step)
    requires SettledInv(s) && CallInv(s)
    ensures SettledInv(Apply(convert, s, step))
  {
    if Enabled(s, step) {
      var s' := Apply(convert, s, step);
      StepAdds(convert, s, step);
      OnlyThreadMoves(convert, s, step);
      forall k | 0 <= k < |s'.sections|
        ensures Settled(s'.sections[k], s'.results) || Pending(s'.sections[k], s'.pcs)
      {
        if k < |s.sections| {
          assert s'.sections[k] == s.sections[k];
          StaysSettled(convert, s, step, s.sections[k]);
        } else {
          NewIsSettled(convert, s, step);
        }
      }
    }
  }

  lemma StaysSettled(convert: Convert, s: State, step: Step, section: Section)
    requires CallInv(s) && Enabled(s, step)
    requires Settled(section, s.results) || Pending(section, s.pcs)
    ensures var s' := Apply(convert, s, step); Settled(section, s'.results) || Pending(section, s'.pcs)
  {
    var s' := Apply(convert, s, step);
    StepAdds(convert, s, step);
    OnlyThreadMoves(convert, s, step);
    if !Settled(section, s.results) {
      var t :| 0 <= t < |s.pcs| && s.pcs[t] == Closing(section.call);
      if t == step.thread {
        assert step.CloseTaken?;
      } else {
        assert s'.pcs[t] == s.pcs[t];
      }
    }
  }

  lemma NewIsSettled(convert: Convert, s: State, step: Step)
    requires Enabled(s, step) && |Apply(convert, s, step).sections| > |s.sections|
    ensures var s' := Apply(convert, s, step);
      Settled(s'.sections[|s.sections|], s'.results) || Pending(s'.sections[|s.sections|], s'.pcs)
  {
    var s' := Apply(convert, s, step);
    if step.TakeWriter? && s.open {
      assert s'.pcs[step.thread] == Closing(s'.sections[|s.sections|].call);
    }
  }

  lemma {:induction false} SettledAlways(convert: Convert, threads: nat, run: seq<Step>)
    ensures SettledInv(After(convert, threads, run))
  {
    if run != [] {
      SettledAlways(convert, threads, run[..|run| - 1]);
      CallAlways(convert, threads, run[..|run| - 1]);
      SettledStep(convert, After(convert, threads, run[..|run| - 1]), run[|run| - 1]);
    }
  }

  /** The section as a request to the code, with the core answering as it did. */
  function RequestOf(section: Section, results: map<nat, Outcome>): Request {
    match section
    case SchemaRead(_, _, found) => Request(SchemaCall(found), [])
    case Insertion(call, _, input, written, _) =>
      Request(WriteCall(call, input.batches), seq(written, _ => true) + [false])
    case Flush(_, _, ok) => Request(FlushCall, [ok])
    case TakeCore(call, _) => Request(CloseCall, [call in results && results[call] == ClosedOk])
  }

  /** What the section's call got of it. */
  function ReplyOf(section: Section, results: map<nat, Outcome>): Reply {
    if section.SchemaRead? && section.open && section.found.Some? then SchemaIs(section.found.value)
    else Returned(if section.call in results then results[section.call] else ClosedOk)
  }

  function Requests(sections: seq<Section>, results: map<nat, Outcome>): seq<Request> {
    seq(|sections|, i requires 0 <= i < |sections| => RequestOf(sections[i], results))
  }

  function Replies(sections: seq<Section>, results: map<nat, Outcome>): seq<Reply> {
    seq(|sections|, i requires 0 <= i < |sections| => ReplyOf(sections[i], results))
  }

  /** The code, run on the section's request, appends what the section did and returns what its call got. */
  lemma SectionIsCode(section: Section, results: map<nat, Outcome>)
    requires SectionSound(section) && Settled(section, results)
    ensures var (entries, reply) := Served(section.open, RequestOf(section, results));
      && entries == SectionWrites(section) + (if section.TakeCore? && section.open then [ClosedCore] else [])
      && reply == ReplyOf(section, results)
  {
    if section.Insertion? {
      InsertionIsCode(section.call, section.input, section.written);
    }
  }

  lemma InsertionIsCode(call: nat, input: Input, written: nat)
    requires written <= |input.batches|
    ensures WriteEffect(call, input.batches, seq(written, _ => true) + [false])
         == (Tagged(call, FirstOf(input, written)),
             if written == |input.batches| then Inserted(TotalRows(input.batches)) else Failed(CoreFailed))
  {
    AcceptedIs(seq(written, _ => true) + [false], |input.batches|, written);
  }

  /** The first `k` sections, replayed. */
  ghost predicate Replayed(sections: seq<Section>, results: map<nat, Outcome>) {
    var requests := Requests(sections, results);
    && OpenAfter(requests) == NoTake(sections)
    && ReplayLog(requests) == Closed(Writes(sections), NoTake(sections))
    && ReplayReplies(requests) == Replies(sections, results)
  }

  lemma RequestsSnoc(sections: seq<Section>, results: map<nat, Outcome>, last: Section)
    ensures Requests(sections + [last], results) == Requests(sections, results) + [RequestOf(last, results)]
    ensures Replies(sections + [last], results) == Replies(sections, results) + [ReplyOf(last, results)]
  {}

  /** What has been written, and the close if the core was taken. */
  function Closed(writes: seq<CoreOp>, open: bool): seq<CoreOp> {
    writes + (if open then [] else [ClosedCore])
  }

  lemma ClosedGrows(writes: seq<CoreOp>, open: bool, more: seq<CoreOp>, closes: bool)
    requires !open ==> more == [] && !closes
    requires closes ==> more == []
    ensures Closed(writes + more, open && !closes)
         == Closed(writes, open) + (more + (if closes then [ClosedCore] else []))
  {}

  lemma ReplayOne(sections: seq<Section>, results: map<nat, Outcome>, last: Section)
    requires Replayed(sections, results) && SectionSound(last) && Settled(last, results)
    requires last.open == NoTake(sections)
    ensures Replayed(sections + [last], results)
  {
    var closes := last.TakeCore? && last.open;
    RequestsSnoc(sections, results, last);
    ReplaySnoc(Requests(sections, results), RequestOf(last, results));
    SectionIsCode(last, results);
    NoTakeSnoc(sections, last);
    WritesSnoc(sections, last);
    assert !last.open ==> SectionWrites(last) == [];
    ClosedGrows(Writes(sections), last.open, SectionWrites(last), closes);
  }

  /** Sections of finished calls, the core there until one of them takes it. */
  ghost predicate Finished(sections: seq<Section>, results: map<nat, Outcome>) {
    && OpenUntilTaken(sections)
    && forall i :: 0 <= i < |sections| ==> SectionSound(sections[i]) && Settled(sections[i], results)
  }

  lemma FinishedInit(init: seq<Section>, last: Section, results: map<nat, Outcome>)
    requires Finished(init + [last], results)
    ensures Finished(init, results) && SectionSound(last) && Settled(last, results) && last.open == NoTake(init)
  {
    var all := init + [last];
    assert all[|init|] == last && all[..|init|] == init;
    assert forall k :: 0 <= k < |init| ==> init[k] == all[k] && init[..k] == all[..k];
  }

  lemma ReplayNone(results: map<nat, Outcome>)
    ensures Replayed([], results)
  {}

  lemma {:induction false} ReplayAll(sections: seq<Section>, results: map<nat, Outcome>)
    requires Finished(sections, results)
    ensures Replayed(sections, results)
  {
    if sections == [] {
      ReplayNone(results);
    } else {
      var init, last := sections[..|sections| - 1], sections[|sections| - 1];
      assert sections == init + [last];
      FinishedInit(init, last, results);
      ReplayAll(init, results);
      ReplayOne(init, results, last);
    }
  }

  /** With every thread idle, every section is of a finished call and the log holds nothing else. */
  lemma QuietIsFinished(s: State)
    requires LockInv(s) && SoundInv(s) && LogInv(s) && OpenInv(s) && SettledInv(s)
    requires forall t :: 0 <= t < |s.pcs| ==> s.pcs[t].Idle?
    ensures Finished(s.sections, s.results) && s.log == Closed(Writes(s.sections), s.open)
  {
    forall i | 0 <= i < |s.sections| ensures Settled(s.sections[i], s.results) {
      assert Settled(s.sections[i], s.results) || Pending(s.sections[i], s.pcs);
    }
    assert InProgress(s) == [] && CoreClosed(s) == !s.open;
  }

  /** Linearizability, down to the code: once every call has returned, the log and what the calls got are those of the
      code's own critical sections run one after another in lock order, with the core answering as it did. */
  lemma RunsFollowTheCode(convert: Convert, threads: nat, run: seq<Step>)
    requires forall t :: 0 <= t < |After(convert, threads, run).pcs| ==> After(convert, threads, run).pcs[t].Idle?
    ensures var s := After(convert, threads, run);
      var requests := Requests(s.sections, s.results);
      s.log == ReplayLog(requests) && Replies(s.sections, s.results) == ReplayReplies(requests)
  {
    var s := After(convert, threads, run);
    InvAlways(convert, threads, run);
    OpenAlways(convert, threads, run);
    SettledAlways(convert, threads, run);
    QuietIsFinished(s);
    ReplayAll(s.sections, s.results);
  }
}
