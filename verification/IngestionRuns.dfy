/** What the runs of `IngestionMachine` include: the code's sections, lists of calls, and returns. */
module IngestionRuns {
  import opened Common
  import opened Arrow
  import opened Ingestion
  import opened IngestionMachine

  /** Where the runs start from. */
  datatype From = From(convert: Convert, threads: nat, run: seq<Step>)

  /** Some continuation of the run leads to the state. */
  ghost predicate Reached(from: From, s: State) {
    exists more: seq<Step> :: After(from.convert, from.threads, from.run + more) == s
  }

  lemma Stay(from: From)
    ensures Reached(from, After(from.convert, from.threads, from.run))
  {
    assert from.run + [] == from.run;
  }

  lemma Reach(from: From, s: State, step: Step) returns (s': State)
    requires Reached(from, s)
    ensures s' == Apply(from.convert, s, step) && Reached(from, s')
  {
    s' := Apply(from.convert, s, step);
    var more: seq<Step> :| After(from.convert, from.threads, from.run + more) == s;
    ConcatAssoc(from.run, more, [step]);
    AfterSnoc(from.convert, from.threads, from.run + more, step);
  }

  lemma ReachTo(from: From, s: State, step: Step, s': State)
    requires Reached(from, s) && s' == Apply(from.convert, s, step)
    ensures Reached(from, s')
  {
    var same := Reach(from, s, step);
  }

  // ----- one critical section ------------------------------------------------------------------

  /** The lock is free and the thread's next section is the request. */
  ghost predicate Asks(s: State, t: nat, request: Request) {
    && s.owner.None? && t < |s.pcs|
    && match request.what
       case SchemaCall(_) => s.pcs[t].WantSchema?
       case WriteCall(call, batches) =>
         s.pcs[t].WantWrite? && s.pcs[t].call == call && s.pcs[t].input.batches == batches
       case FlushCall => s.pcs[t].WantFlush?
       case CloseCall => s.pcs[t].WantClose?
  }

  /** The call of thread `t` returned the outcome, having written the entries; no other thread moved. */
  ghost predicate Returns(s: State, s': State, t: nat, entries: seq<CoreOp>, outcome: Outcome) {
    && t < |s.pcs| && !s.pcs[t].Idle? && s'.owner.None?
    && s'.pcs == s.pcs[t := Idle] && s'.log == s.log + entries
    && s'.results == s.results[s.pcs[t].call := outcome] && s'.next == s.next
  }

  lemma SchemaRuns(from: From, s: State, t: nat, found: Option<Schema>) returns (s': State)
    requires Reached(from, s) && Asks(s, t, Request(SchemaCall(found), []))
    ensures Reached(from, s') && s'.open == s.open
    ensures match Served(s.open, Request(SchemaCall(found), [])).1
      case Returned(outcome) => Returns(s, s', t, [], outcome)
      case SchemaIs(schema) =>
        && s'.owner.None? && s'.log == s.log && s'.results == s.results && s'.next == s.next
        && s'.pcs == s.pcs[t := Converting(s.pcs[t].call, s.pcs[t].payload, schema)]
  {
    s' := Reach(from, s, ReadSchema(t, found));
    assert s.log + [] == s.log;
  }

  /** Thread `t` has the lock for the insert and the core has taken some batches. */
  ghost predicate Writes(s: State, t: nat, call: nat, input: Input, written: nat) {
    && t < |s.pcs| && written <= |input.batches|
    && s.pcs[t] == Writing(call, input, written, TotalRows(input.batches[..written]))
  }

  /** The core takes some more batches, up to all or to one it refuses. */
  lemma {:induction false} WritesRun(from: From, s: State, t: nat, call: nat, input: Input, written: nat, k: nat)
      returns (s': State)
    requires Reached(from, s) && Writes(s, t, call, input, written) && written <= k <= |input.batches|
    ensures Reached(from, s') && s'.open == s.open
    ensures Returns(s, s', t, Tagged(call, input.batches[written..k]),
                    if k == |input.batches| then Inserted(TotalRows(input.batches)) else Failed(CoreFailed))
    decreases k - written
  {
    if written < k {
      var s1 := WriteRuns(from, s, t, call, input, written);
      s' := WritesRun(from, s1, t, call, input, written + 1, k);
      TaggedJoin(call, input.batches, written, k);
      ConcatAssoc(s.log, [Wrote(call, input.batches[written])], Tagged(call, input.batches[written + 1..k]));
      assert s1.pcs[t := Idle] == s.pcs[t := Idle];
    } else {
      s' := WritesEnd(from, s, t, call, input, written);
    }
  }

  lemma TaggedJoin(call: nat, batches: seq<RecordBatch>, i: nat, k: nat)
    requires i < k <= |batches|
    ensures Tagged(call, batches[i..k]) == [Wrote(call, batches[i])] + Tagged(call, batches[i + 1..k])
  {}

  lemma WroteOne(convert: Convert, s: State, t: nat, call: nat, input: Input, written: nat, total: nat)
    requires t < |s.pcs| && s.pcs[t] == Writing(call, input, written, total) && written < |input.batches|
    ensures var batch := input.batches[written];
      Apply(convert, s, WriteBatch(t, true))
      == s.(log := s.log + [Wrote(call, batch)],
            pcs := s.pcs[t := Writing(call, input, written + 1, total + batch.rows)])
  {}

  lemma WriteRuns(from: From, s: State, t: nat, call: nat, input: Input, written: nat) returns (s': State)
    requires Reached(from, s) && Writes(s, t, call, input, written) && written < |input.batches|
    ensures Reached(from, s') && Writes(s', t, call, input, written + 1)
    ensures s' == s.(log := s.log + [Wrote(call, input.batches[written])], pcs := s.pcs[t := s'.pcs[t]])
  {
    var total := TotalRows(input.batches[..written]);
    TotalRowsStep(input.batches, written);
    WroteOne(from.convert, s, t, call, input, written, total);
    s' := s.(log := s.log + [Wrote(call, input.batches[written])],
             pcs := s.pcs[t := Writing(call, input, written + 1, total + input.batches[written].rows)]);
    ReachTo(from, s, WriteBatch(t, true), s');
  }

  lemma WroteAll(convert: Convert, s: State, t: nat, call: nat, input: Input, total: nat)
    requires t < |s.pcs| && s.pcs[t] == Writing(call, input, |input.batches|, total)
    ensures var s' := Apply(convert, s, FinishWrite(t));
      Returns(s, s', t, [], Inserted(total)) && s'.open == s.open
  {}

  lemma WroteNone(convert: Convert, s: State, t: nat, call: nat, input: Input, written: nat, total: nat)
    requires t < |s.pcs| && s.pcs[t] == Writing(call, input, written, total) && written < |input.batches|
    ensures var s' := Apply(convert, s, WriteBatch(t, false));
      Returns(s, s', t, [], Failed(CoreFailed)) && s'.open == s.open
  {}

  lemma WritesEnd(from: From, s: State, t: nat, call: nat, input: Input, written: nat) returns (s': State)
    requires Reached(from, s) && Writes(s, t, call, input, written)
    ensures Reached(from, s') && s'.open == s.open
    ensures Returns(s, s', t, Tagged(call, input.batches[written..written]),
                    if written == |input.batches| then Inserted(TotalRows(input.batches)) else Failed(CoreFailed))
  {
    var total := TotalRows(input.batches[..written]);
    assert Tagged(call, input.batches[written..written]) == [];
    if written == |input.batches| {
      assert input.batches[..written] == input.batches;
      WroteAll(from.convert, s, t, call, input, total);
      s' := Reach(from, s, FinishWrite(t));
    } else {
      WroteNone(from.convert, s, t, call, input, written, total);
      s' := Reach(from, s, WriteBatch(t, false));
    }
  }

  lemma WriteSectionRuns(from: From, s: State, t: nat, call: nat, batches: seq<RecordBatch>, accepts: seq<bool>)
      returns (s': State)
    requires Reached(from, s) && Asks(s, t, Request(WriteCall(call, batches), accepts))
    ensures Reached(from, s') && s'.open == s.open
    ensures var (entries, reply) := Served(s.open, Request(WriteCall(call, batches), accepts));
      reply.Returned? && Returns(s, s', t, entries, reply.outcome)
  {
    var s1 := Reach(from, s, Acquire(t));
    if s.open {
      var k := Accepted(accepts, |batches|);
      s' := WritesRun(from, s1, t, call, s.pcs[t].input, 0, k);
      assert batches[0..k] == batches[..k] && s1.pcs[t := Idle] == s.pcs[t := Idle];
    } else {
      s' := s1;
      assert s.log + [] == s.log;
    }
  }

  lemma FlushRuns(from: From, s: State, t: nat, accepts: seq<bool>) returns (s': State)
    requires Reached(from, s) && Asks(s, t, Request(FlushCall, accepts))
    ensures Reached(from, s') && s'.open == s.open
    ensures var (entries, reply) := Served(s.open, Request(FlushCall, accepts));
      reply.Returned? && Returns(s, s', t, entries, reply.outcome)
  {
    s' := Reach(from, s, DoFlush(t, First(accepts)));
  }

  lemma CloseRuns(from: From, s: State, t: nat, accepts: seq<bool>) returns (s': State)
    requires Reached(from, s) && Asks(s, t, Request(CloseCall, accepts))
    ensures Reached(from, s') && !s'.open
    ensures var (entries, reply) := Served(s.open, Request(CloseCall, accepts));
      reply.Returned? && Returns(s, s', t, entries, reply.outcome)
  {
    if s.open {
      var s1 := TakeRuns(from, s, t);
      s' := ClosingRuns(from, s1, t, First(accepts));
      assert s1.pcs[t := Idle] == s.pcs[t := Idle];
    } else {
      s' := Reach(from, s, TakeWriter(t));
      assert s.log + [] == s.log;
    }
  }

  lemma TakeRuns(from: From, s: State, t: nat) returns (s': State)
    requires Reached(from, s) && Asks(s, t, Request(CloseCall, [])) && s.open
    ensures Reached(from, s') && !s'.open && s'.owner.None? && s'.pcs == s.pcs[t := Closing(s.pcs[t].call)]
    ensures s'.log == s.log && s'.results == s.results && s'.next == s.next
  {
    s' := Reach(from, s, TakeWriter(t));
  }

  lemma ClosingRuns(from: From, s: State, t: nat, ok: bool) returns (s': State)
    requires Reached(from, s) && s.owner.None? && t < |s.pcs| && s.pcs[t].Closing?
    ensures Reached(from, s') && s'.open == s.open
    ensures Returns(s, s', t, [ClosedCore], if ok then ClosedOk else Failed(CoreFailed))
  {
    s' := Reach(from, s, CloseTaken(t, ok));
  }

  /** The converse of `IngestionMachine.RunsFollowTheCode`, section by section: whenever the lock is free, the section a
      thread is about to make can be made, and appends to the log and replies as the code does, whatever the core
      answers. So a schedule of sections that the code allows is a run. */
  lemma EverySectionCanRun(from: From, s: State, t: nat, request: Request) returns (s': State)
    requires Reached(from, s) && Asks(s, t, request)
    ensures Reached(from, s') && s'.open == (s.open && !request.what.CloseCall?)
    ensures var (entries, reply) := Served(s.open, request);
      match reply
      case Returned(outcome) => Returns(s, s', t, entries, outcome)
      case SchemaIs(schema) =>
        && s'.owner.None? && s'.log == s.log && s'.results == s.results && s'.next == s.next
        && s'.pcs == s.pcs[t := Converting(s.pcs[t].call, s.pcs[t].payload, schema)]
  {
    match request.what
    case SchemaCall(found) => s' := SchemaRuns(from, s, t, found);
    case WriteCall(call, batches) => s' := WriteSectionRuns(from, s, t, call, batches, request.accepts);
    case FlushCall => s' := FlushRuns(from, s, t, request.accepts);
    case CloseCall => s' := CloseRuns(from, s, t, request.accepts);
  }

  /** Between its sections an insert converts its input, and goes on only with the batches of it. */
  lemma ConversionRuns(from: From, s: State, t: nat) returns (s': State)
    requires Reached(from, s) && s.owner.None? && t < |s.pcs| && s.pcs[t].Converting?
    ensures Reached(from, s') && s'.open == s.open
    ensures var Converting(call, payload, schema) := s.pcs[t];
      match from.convert(payload, schema)
      case None => Returns(s, s', t, [], Failed(ConversionFailed))
      case Some(batches) => s' == s.(pcs := s.pcs[t := WantWrite(call, Input(payload, schema, batches))])
  {
    s' := Reach(from, s, ConvertInput(t));
    assert s.log + [] == s.log;
  }

  // ----- every list of calls -------------------------------------------------------------------

  /** A whole call, with what the core answers in it. */
  datatype Job =
    | InsertJob(payload: Payload, found: Option<Schema>, accepts: seq<bool>)
    | FlushJob(accepts: seq<bool>)
    | CloseJob(accepts: seq<bool>)

  /** The sections the code makes of the call, and what the call returns. */
  function Sections(convert: Convert, open: bool, call: nat, job: Job): (seq<Request>, Outcome) {
    match job
    case FlushJob(accepts) =>
      var request := Request(FlushCall, accepts);
      ([request], OutcomeOf(Served(open, request).1))
    case CloseJob(accepts) =>
      var request := Request(CloseCall, accepts);
      ([request], OutcomeOf(Served(open, request).1))
    case InsertJob(payload, found, accepts) =>
      var first := Request(SchemaCall(found), []);
      (match Served(open, first).1
       case Returned(outcome) => ([first], outcome)
       case SchemaIs(schema) =>
         match convert(payload, schema)
         case None => ([first], Failed(ConversionFailed))
         case Some(batches) =>
           var second := Request(WriteCall(call, batches), accepts);
           ([first, second], OutcomeOf(Served(open, second).1)))
  }

  function OutcomeOf(reply: Reply): Outcome {
    if reply.Returned? then reply.outcome else Failed(SchemaFailed)
  }

  /** The sections of the calls, made one after another by one thread. */
  function AllSections(convert: Convert, jobs: seq<Job>): seq<Request> {
    if jobs == [] then []
    else
      var init := AllSections(convert, jobs[..|jobs| - 1]);
      init + Sections(convert, OpenAfter(init), |jobs| - 1, jobs[|jobs| - 1]).0
  }

  /** What the calls return. */
  function Outcomes(convert: Convert, jobs: seq<Job>): (outcomes: seq<Outcome>)
    ensures |outcomes| == |jobs|
  {
    if jobs == [] then []
    else
      var init, last := jobs[..|jobs| - 1], jobs[|jobs| - 1];
      Outcomes(convert, init) + [Sections(convert, OpenAfter(AllSections(convert, init)), |init|, last).1]
  }

  /** An idle thread makes the whole call. */
  lemma JobRuns(from: From, s: State, job: Job) returns (s': State)
    requires Reached(from, s) && s.owner.None? && s.pcs == [Idle]
    ensures Reached(from, s') && s'.owner.None? && s'.pcs == [Idle] && s'.next == s.next + 1
    ensures var (requests, outcome) := Sections(from.convert, s.open, s.next, job);
      && s'.results == s.results[s.next := outcome]
      && s'.open == (s.open && !job.CloseJob?)
      && s'.log == s.log + Entries(s.open, requests)
  {
    match job
    case FlushJob(accepts) =>
      var s1 := Reach(from, s, StartFlush(0));
      s' := EverySectionCanRun(from, s1, 0, Request(FlushCall, accepts));
    case CloseJob(accepts) =>
      var s1 := Reach(from, s, StartClose(0));
      s' := EverySectionCanRun(from, s1, 0, Request(CloseCall, accepts));
    case InsertJob(payload, found, accepts) =>
      s' := InsertRuns(from, s, payload, found, accepts);
  }

  /** What the sections append when the core is there or not all the while. */
  function Entries(open: bool, requests: seq<Request>): seq<CoreOp> {
    if requests == [] then []
    else if |requests| == 1 then Served(open, requests[0]).0
    else Served(open, requests[0]).0 + Served(open, requests[1]).0
  }

  lemma InsertRuns(from: From, s: State, payload: Payload, found: Option<Schema>, accepts: seq<bool>)
      returns (s': State)
    requires Reached(from, s) && s.owner.None? && s.pcs == [Idle]
    ensures Reached(from, s') && s'.owner.None? && s'.pcs == [Idle] && s'.next == s.next + 1 && s'.open == s.open
    ensures var (requests, outcome) := Sections(from.convert, s.open, s.next, InsertJob(payload, found, accepts));
      s'.results == s.results[s.next := outcome] && s'.log == s.log + Entries(s.open, requests)
  {
    var s1 := StartRuns(from, s, payload);
    var s2 := SchemaRuns(from, s1, 0, found);
    var first := Request(SchemaCall(found), []);
    assert Served(s.open, first).0 == [];
    match Served(s.open, first).1
    case Returned(outcome) =>
      s' := s2;
      OneReturns(s1, s', [], outcome);
    case SchemaIs(schema) =>
      s' := ConvertedRuns(from, s2, s.next, payload, schema, accepts);
      match from.convert(payload, schema)
      case None =>
        OneReturns(s2, s', [], Failed(ConversionFailed));
      case Some(batches) =>
        var (entries, reply) := Served(s.open, Request(WriteCall(s.next, batches), accepts));
        assert [] + entries == entries;
        OneReturns(s2, s', entries, reply.outcome);
  }

  lemma OneReturns(s: State, s': State, entries: seq<CoreOp>, outcome: Outcome)
    requires |s.pcs| == 1 && Returns(s, s', 0, entries, outcome)
    ensures s'.owner.None? && s'.pcs == [Idle] && s'.next == s.next
    ensures s'.results == s.results[s.pcs[0].call := outcome] && s'.log == s.log + entries
  {}

  lemma StartRuns(from: From, s: State, payload: Payload) returns (s': State)
    requires Reached(from, s) && s.owner.None? && s.pcs == [Idle]
    ensures Reached(from, s') && s'.owner.None? && s'.pcs == [WantSchema(s.next, payload)] && s'.next == s.next + 1
    ensures s'.open == s.open && s'.log == s.log && s'.results == s.results
  {
    s' := Reach(from, s, StartInsert(0, payload));
  }

  /** From the schema on: the conversion, and then the write section if there is something to write. */
  lemma ConvertedRuns(from: From, s: State, call: nat, payload: Payload, schema: Schema, accepts: seq<bool>)
      returns (s': State)
    requires Reached(from, s) && s.owner.None? && s.pcs == [Converting(call, payload, schema)]
    ensures Reached(from, s') && s'.open == s.open
    ensures match from.convert(payload, schema)
      case None => Returns(s, s', 0, [], Failed(ConversionFailed))
      case Some(batches) =>
        var (entries, reply) := Served(s.open, Request(WriteCall(call, batches), accepts));
        reply.Returned? && Returns(s, s', 0, entries, reply.outcome)
  {
    var s1 := ConversionRuns(from, s, 0);
    match from.convert(payload, schema)
    case None =>
      s' := s1;
    case Some(batches) =>
      s' := WriteSectionRuns(from, s1, 0, call, batches, accepts);
      assert s1.pcs[0 := Idle] == s.pcs[0 := Idle];
  }

  /** Every list of calls on every script of the core is a run, with the log and the results of the code's sections made
      one after another. */
  lemma EveryListOfCallsHasARun(convert: Convert, jobs: seq<Job>)
    ensures exists run :: var s := After(convert, 1, run);
      s.log == ReplayLog(AllSections(convert, jobs)) && ResultsAre(Outcomes(convert, jobs), s.results)
  {
    var from := From(convert, 1, []);
    var s := JobsRun(from, jobs);
    var run: seq<Step> :| After(convert, 1, [] + run) == s;
    assert [] + run == run;
    assert After(convert, 1, run).log == ReplayLog(AllSections(convert, jobs));
  }

  /** Call `i` returned outcome `i`. */
  ghost predicate ResultsAre(outcomes: seq<Outcome>, results: map<nat, Outcome>) {
    && (forall i: nat :: i in results <==> i < |outcomes|)
    && forall i :: 0 <= i < |outcomes| ==> results[i] == outcomes[i]
  }

  /** The run has made exactly these calls. */
  ghost predicate Made(from: From, jobs: seq<Job>, s: State) {
    var sections := AllSections(from.convert, jobs);
    && Reached(from, s) && s.owner.None? && s.pcs == [Idle] && s.next == |jobs|
    && s.open == OpenAfter(sections) && s.log == ReplayLog(sections)
    && ResultsAre(Outcomes(from.convert, jobs), s.results)
  }

  lemma OneMore(from: From, init: seq<Job>, last: Job, s: State) returns (s': State)
    requires Made(from, init, s)
    ensures Made(from, init + [last], s')
  {
    s' := JobRuns(from, s, last);
    AllSectionsSnoc(from.convert, init, last);
    OutcomesSnoc(from.convert, init, last);
    ResultsSnoc(Outcomes(from.convert, init), s'.results[s.next], s.results);
  }

  lemma {:induction false} JobsRun(from: From, jobs: seq<Job>) returns (s: State)
    requires from.threads == 1 && from.run == []
    ensures Made(from, jobs, s)
    decreases |jobs|
  {
    if jobs == [] {
      Stay(from);
      s := After(from.convert, 1, []);
    } else {
      var init, last := jobs[..|jobs| - 1], jobs[|jobs| - 1];
      assert jobs == init + [last];
      s := JobsRun(from, init);
      s := OneMore(from, init, last, s);
    }
  }

  lemma SectionsAre(convert: Convert, open: bool, call: nat, job: Job)
    ensures var requests := Sections(convert, open, call, job).0;
      && 1 <= |requests| <= 2
      && (|requests| == 1 ==> (requests[0].what.CloseCall? <==> job.CloseJob?))
      && (|requests| == 2 ==> !job.CloseJob? && !requests[0].what.CloseCall? && !requests[1].what.CloseCall?)
  {}

  lemma ReplayMore(before: seq<Request>, requests: seq<Request>)
    requires 1 <= |requests| <= 2
    requires |requests| == 2 ==> !requests[0].what.CloseCall? && !requests[1].what.CloseCall?
    ensures OpenAfter(before + requests)
         == (OpenAfter(before) && !(|requests| == 1 && requests[0].what.CloseCall?))
    ensures ReplayLog(before + requests) == ReplayLog(before) + Entries(OpenAfter(before), requests)
  {
    ReplaySnoc(before, requests[0]);
    if |requests| == 1 {
      assert requests == [requests[0]];
    } else {
      var first := before + [requests[0]];
      ReplaySnoc(first, requests[1]);
      assert before + requests == first + [requests[1]];
      ConcatAssoc(ReplayLog(before), Served(OpenAfter(before), requests[0]).0,
                  Served(OpenAfter(before), requests[1]).0);
    }
  }

  lemma AllSectionsSnoc(convert: Convert, init: seq<Job>, last: Job)
    ensures var before := AllSections(convert, init);
      var after := AllSections(convert, init + [last]);
      && OpenAfter(after) == (OpenAfter(before) && !last.CloseJob?)
      && ReplayLog(after)
         == ReplayLog(before) + Entries(OpenAfter(before), Sections(convert, OpenAfter(before), |init|, last).0)
  {
    assert (init + [last])[..|init|] == init;
    var before := AllSections(convert, init);
    SectionsAre(convert, OpenAfter(before), |init|, last);
    ReplayMore(before, Sections(convert, OpenAfter(before), |init|, last).0);
  }

  lemma OutcomesSnoc(convert: Convert, init: seq<Job>, last: Job)
    ensures Outcomes(convert, init + [last])
         == Outcomes(convert, init) + [Sections(convert, OpenAfter(AllSections(convert, init)), |init|, last).1]
  {
    assert (init + [last])[..|init|] == init;
  }

  lemma ResultsSnoc(outcomes: seq<Outcome>, last: Outcome, results: map<nat, Outcome>)
    requires ResultsAre(outcomes, results)
    ensures ResultsAre(outcomes + [last], results[|outcomes| := last])
  {}

  // ----- every call can return -----------------------------------------------------------------

  /** The thread's call has returned, if it was making one; no other thread moved. */
  ghost predicate Finished(s: State, s': State, t: nat) {
    t < |s.pcs| && s'.pcs == s.pcs[t := Idle] && s'.owner.None?
  }

  lemma OwnerReturns(from: From, s: State, t: nat) returns (s': State)
    requires Reached(from, s) && t < |s.pcs| && s.pcs[t].Writing? && WriterPc(s.pcs[t])
    ensures Reached(from, s') && Finished(s, s', t)
  {
    var Writing(call, input, written, _) := s.pcs[t];
    assert input.batches[..written] == FirstOf(input, written);
    s' := WritesEnd(from, s, t, call, input, written);
  }

  lemma InsertReturns(from: From, s: State, t: nat) returns (s': State)
    requires Reached(from, s) && s.owner.None? && t < |s.pcs|
    requires s.pcs[t].WantSchema? || s.pcs[t].Converting? || s.pcs[t].WantWrite?
    ensures Reached(from, s') && Finished(s, s', t)
  {
    s' := s;
    if s.pcs[t].WantSchema? {
      s' := SchemaRuns(from, s, t, None);
    } else {
      if s.pcs[t].Converting? {
        s' := ConversionRuns(from, s, t);
      }
      if s'.pcs[t].WantWrite? {
        var s1 := s';
        s' := WriteSectionRuns(from, s1, t, s1.pcs[t].call, s1.pcs[t].input.batches, []);
        assert s1.pcs[t := Idle] == s.pcs[t := Idle];
      }
    }
  }

  lemma OtherReturns(from: From, s: State, t: nat) returns (s': State)
    requires Reached(from, s) && s.owner.None? && t < |s.pcs| && !s.pcs[t].Writing?
    ensures Reached(from, s') && Finished(s, s', t)
  {
    match s.pcs[t]
    case Idle =>
      s' := s;
      assert s.pcs[t := Idle] == s.pcs;
    case WantFlush(_) => s' := FlushRuns(from, s, t, []);
    case WantClose(_) => s' := CloseRuns(from, s, t, []);
    case Closing(_) => s' := ClosingRuns(from, s, t, true);
    case _ => s' := InsertReturns(from, s, t);
  }

  lemma {:induction false} AllReturn(from: From, s: State, n: nat) returns (s': State)
    requires Reached(from, s) && s.owner.None? && n <= |s.pcs|
    requires forall t :: 0 <= t < |s.pcs| ==> !s.pcs[t].Writing?
    ensures Reached(from, s') && s'.owner.None? && |s'.pcs| == |s.pcs|
    ensures forall t :: 0 <= t < |s.pcs| ==> if t < n then s'.pcs[t].Idle? else s'.pcs[t] == s.pcs[t]
  {
    s' := s;
    if n > 0 {
      s' := AllReturn(from, s, n - 1);
      s' := OtherReturns(from, s', n - 1);
    }
  }

  lemma QuietIsReached(from: From, s: State) returns (s': State)
    requires Reached(from, s) && LockInv(s) && SoundInv(s)
    ensures Reached(from, s') && |s'.pcs| == |s.pcs| && forall t :: 0 <= t < |s'.pcs| ==> s'.pcs[t].Idle?
  {
    s' := s;
    if s.owner.Some? {
      assert WriterPc(s.pcs[s.owner.value]);
      s' := OwnerReturns(from, s, s.owner.value);
    }
    s' := AllReturn(from, s', |s'.pcs|);
  }

  /** No run is ever stuck: it has a continuation in which every call returns. */
  lemma EveryCallCanReturn(convert: Convert, threads: nat, run: seq<Step>)
    ensures exists more: seq<Step> :: var later := After(convert, threads, run + more);
      |later.pcs| == |After(convert, threads, run).pcs| && forall t :: 0 <= t < |later.pcs| ==> later.pcs[t].Idle?
  {
    var from := From(convert, threads, run);
    Stay(from);
    InvAlways(convert, threads, run);
    var s := QuietIsReached(from, After(convert, threads, run));
    var more: seq<Step> :| After(convert, threads, run + more) == s;
    assert forall t :: 0 <= t < |After(convert, threads, run + more).pcs| ==>
      After(convert, threads, run + more).pcs[t].Idle?;
  }
}
