/** The callback thread of src/callback.rs among the other threads and the core. */
module CallbackMachine {
  import opened Common
  import opened QueryResults
  import opened Frames
  import opened Callbacks

  /** Where the thread is. `seen` is what the core has answered in this pass. */
  datatype Pc =
    | AtTop                                            // about to read the cancel flag
    | AtActive                                         // about to ask whether the source is active
    | AtPoll(seen: seq<Answer>)                        // inside `try_next`
    | AtData(seen: seq<Answer>, result: QueryResult)   // about to call on_data
    | AtError(seen: seq<Answer>)                       // about to attach for a source error
    | AtHandler(seen: seq<Answer>, dataOk: bool)       // about to call on_error
    | AtStop(record: Record)                           // about to cancel the source
    | Ended(exit: Exit)                                // out of the loop, active flag still set
    | Done(exit: Exit)                                 // active flag cleared

  /** A finished pass: what it observed, and what the core answered. */
  datatype Record = Record(observed: Observed, seen: seq<Answer>)

  /** Counts when the cancel flag was first set. */
  datatype Mark = Mark(checks: nat, dataCalls: nat, handlerCalls: nat)

  datatype Config = Config(kind: Kind, hasHandler: bool)

  datatype State = State(
    emitted: seq<CoreFrame>,
    pending: seq<CoreFrame>,
    consumed: seq<CoreFrame>,
    sourceActive: bool,
    cancelled: bool,       // the flag shared with `cancel`
    active: bool,          // the flag shared with `is_active`
    pc: Pc,
    log: seq<Event>,
    records: seq<Record>,
    sourceCancels: nat,
    checks: nat,           // passes begun
    mark: Option<Mark>)

  /** Other threads may set the cancel flag, and the core may produce frames, fail, or go inactive, between any two
      steps of the thread. */
  datatype Step =
    | Emit(frame: CoreFrame)
    | GoInactive
    | RequestCancel
    | CheckFlag
    | CheckActive
    | PollCore(answer: Answer)
    | CallData(attached: bool, ok: bool)
    | Attach(attached: bool)
    | CallHandler(ok: bool)
    | CancelSource
    | ClearActive

  predicate ByThread(step: Step) {
    !step.Emit? && !step.GoInactive? && !step.RequestCancel?
  }

  function Init(): State {
    State([], [], [], true, false, true, AtTop, [], [], 0, 0, None)
  }

  predicate Enabled(c: Config, s: State, step: Step) {
    match step
    case Emit(frame) => c.kind.StreamKind? || frame.Batch?
    case GoInactive => true
    case RequestCancel => true
    case _ => CanMove(s.pc, step) && Taken(step) <= s.pending
  }

  /** The frame a step takes from the core's queue, if any. */
  function Taken(step: Step): seq<CoreFrame> {
    if step.PollCore? && step.answer.Frame? then [step.answer.frame] else []
  }

  predicate CanMove(pc: Pc, step: Step) {
    match step
    case CheckFlag => pc.AtTop?
    case CheckActive => pc.AtActive?
    case PollCore(_) => pc.AtPoll?
    case CallData(_, _) => pc.AtData?
    case Attach(_) => pc.AtError?
    case CallHandler(_) => pc.AtHandler?
    case CancelSource => pc.AtStop?
    case ClearActive => pc.Ended?
    case _ => false
  }

  /** What a step of the thread does: where it goes, and what it logs, and the pass it completes, if any. */
  datatype Move = Move(pc: Pc, event: Option<Event>, record: Option<Record>)

  function Goto(pc: Pc): Move {
    Move(pc, None, None)
  }

  function MoveOf(c: Config, cancelled: bool, sourceActive: bool, pc: Pc, step: Step): Move
    requires CanMove(pc, step)
  {
    match step
    case CheckFlag =>
      Goto(if cancelled then AtStop(Record(Observed(true, true, true, true, true), [])) else AtActive)
    case CheckActive =>
      if sourceActive then Goto(AtPoll([]))
      else Move(Ended(WentInactive), None, Some(Record(Observed(false, false, true, true, true), [])))
    case PollCore(answer) =>
      var seen := pc.seen + [answer];
      (match answer
       case Frame(frame) => Goto(if frame.Batch? then AtData(seen, ResultOf(c.kind, frame)) else AtPoll(seen))
       case Nothing => Move(AtTop, None, Some(Record(Observed(false, true, true, true, true), seen)))
       case Failed(error) => Move(AtError(seen), Some(SourceFailed(error)), None))
    case CallData(attached, ok) =>
      if !attached then
        var record := Record(Observed(false, true, false, true, true), pc.seen);
        Move(AtStop(record), Some(NotAttached(Some(pc.result))), None)
      else if ok then
        Move(AtTop, Some(DataCalled(pc.result, true)), Some(Record(Observed(false, true, true, true, true), pc.seen)))
      else
        Move(AtHandler(pc.seen, false), Some(DataCalled(pc.result, false)), None)
    case Attach(attached) =>
      if attached then Goto(AtHandler(pc.seen, true))
      else Move(AtStop(Record(Observed(false, true, false, true, true), pc.seen)), Some(NotAttached(None)), None)
    case CallHandler(ok) =>
      var record := Record(Observed(false, true, true, pc.dataOk, ok), pc.seen);
      var event := HandlerEvent(c.hasHandler, ok);
      if Ends(event) then Move(AtStop(record), Some(event), None) else Move(AtTop, Some(event), Some(record))
    case CancelSource =>
      Move(Ended(WasCancelled), Some(SourceCancelled), Some(pc.record))
    case ClearActive =>
      Goto(Done(pc.exit))
  }

  function Add<T>(s: seq<T>, x: Option<T>): seq<T> {
    if x.Some? then s + [x.value] else s
  }

  function Apply(c: Config, s: State, step: Step): State {
    if !Enabled(c, s, step) then s
    else if step.Emit? then s.(emitted := s.emitted + [step.frame], pending := s.pending + [step.frame])
    else if step.GoInactive? then s.(sourceActive := false)
    else if step.RequestCancel? then
      s.(cancelled := true,
         mark := if s.mark.Some? then s.mark else Some(Mark(s.checks, DataCalls(s.log), HandlerCalls(s.log))))
    else
      var move := MoveOf(c, s.cancelled, s.sourceActive, s.pc, step);
      s.(pc := move.pc,
         log := Add(s.log, move.event),
         records := Add(s.records, move.record),
         pending := s.pending[|Taken(step)|..],
         consumed := s.consumed + Taken(step),
         sourceCancels := s.sourceCancels + (if step.CancelSource? then 1 else 0),
         active := s.active && !step.ClearActive?,
         checks := s.checks + (if step.CheckFlag? then 1 else 0))
  }

  /** The state after a run. A run is any sequence of steps; a step that is not enabled leaves the state as it is. */
  function After(c: Config, run: seq<Step>): State {
    if run == [] then Init() else Apply(c, After(c, run[..|run| - 1]), run[|run| - 1])
  }

  lemma AfterSnoc(c: Config, run: seq<Step>, step: Step)
    ensures After(c, run + [step]) == Apply(c, After(c, run), step)
  {
    assert (run + [step])[..|run|] == run;
  }

  // ----- counting and reading the log ----------------------------------------------------------

  function DataCalls(log: seq<Event>): nat {
    if log == [] then 0 else DataCalls(log[..|log| - 1]) + (if log[|log| - 1].DataCalled? then 1 else 0)
  }

  function HandlerCalls(log: seq<Event>): nat {
    if log == [] then 0 else HandlerCalls(log[..|log| - 1]) + (if log[|log| - 1].HandlerCalled? then 1 else 0)
  }

  lemma CallsSnoc(log: seq<Event>, event: Event)
    ensures DataCalls(log + [event]) == DataCalls(log) + (if event.DataCalled? then 1 else 0)
    ensures HandlerCalls(log + [event]) == HandlerCalls(log) + (if event.HandlerCalled? then 1 else 0)
  {
    assert (log + [event])[..|log|] == log;
  }

  /** What on_data was called with, in order. */
  function DataArgs(log: seq<Event>): seq<QueryResult> {
    if log == [] then []
    else DataArgs(log[..|log| - 1]) + (if log[|log| - 1].DataCalled? then [log[|log| - 1].result] else [])
  }

  /** What was taken from the source and lost because the interpreter could not be attached. */
  function Lost(log: seq<Event>): seq<QueryResult> {
    if log == [] then []
    else
      var last := log[|log| - 1];
      Lost(log[..|log| - 1]) + (if last.NotAttached? && last.lost.Some? then [last.lost.value] else [])
  }

  lemma ArgsSnoc(log: seq<Event>, event: Event)
    ensures DataArgs(log + [event]) == DataArgs(log) + (if event.DataCalled? then [event.result] else [])
    ensures Lost(log + [event])
      == Lost(log) + (if event.NotAttached? && event.lost.Some? then [event.lost.value] else [])
  {
    assert (log + [event])[..|log|] == log;
  }

  /** The results that batch frames stand for: the frame's rows and schema, and the lease of a named stream. */
  function ResultsOf(kind: Kind, frames: seq<CoreFrame>): seq<QueryResult> {
    if frames == [] then []
    else
      var init, last := frames[..|frames| - 1], frames[|frames| - 1];
      ResultsOf(kind, init)
      + (if last.Barrier? then []
         else [QueryResult([last.batch], last.batch.schema, if kind.QueryKind? then None else Some(last.lease))])
  }

  predicate Failure(event: Event) {
    event.SourceFailed? || (event.DataCalled? && !event.ok)
  }

  /** What may follow a failure. */
  predicate Handles(event: Event) {
    event.HandlerCalled? || event.NoHandler? || event == NotAttached(None)
  }

  predicate OutOfLoop(pc: Pc) {
    pc.Ended? || pc.Done?
  }

  // ----- invariants ----------------------------------------------------------------------------

  function InHand(pc: Pc): seq<QueryResult> {
    if pc.AtData? then [pc.result] else []
  }

  /** Every batch taken from the source is handed to on_data, is about to be, or was lost to a failed attach. */
  ghost predicate DataInv(c: Config, s: State) {
    && s.consumed + s.pending == s.emitted
    && DataArgs(s.log) + Lost(s.log) + InHand(s.pc) == ResultsOf(c.kind, s.consumed)
    && (Lost(s.log) != [] ==> s.pc.AtStop? || OutOfLoop(s.pc))
  }

  /** A batch taken goes into the thread's hand; from there it is handed over or lost. */
  lemma MoveKeepsData(c: Config, cancelled: bool, sourceActive: bool, pc: Pc, step: Step)
    requires CanMove(pc, step)
    ensures var move := MoveOf(c, cancelled, sourceActive, pc, step);
      && InHand(pc) + (if Taken(step) != [] && Taken(step)[0].Batch? then [ResultOf(c.kind, Taken(step)[0])] else [])
         == Handed(move.event) + Dropped(move.event) + InHand(move.pc)
      && (Handed(move.event) == [] || Dropped(move.event) == [])
      && (Taken(step) != [] ==> pc.AtPoll? && move.event.None?)
      && (Dropped(move.event) != [] ==> move.pc.AtStop?)
      && (pc.AtStop? || OutOfLoop(pc) ==> OutOfLoop(move.pc) && Handed(move.event) == [])
  {}

  function Handed(event: Option<Event>): seq<QueryResult> {
    if event.Some? && event.value.DataCalled? then [event.value.result] else []
  }

  function Dropped(event: Option<Event>): seq<QueryResult> {
    if event.Some? && event.value.NotAttached? && event.value.lost.Some? then [event.value.lost.value] else []
  }

  lemma DataTake(c: Config, s: State, step: Step)
    requires DataInv(c, s) && ByThread(step) && Enabled(c, s, step) && Taken(step) != []
    ensures DataInv(c, Apply(c, s, step))
  {
    var s' := Apply(c, s, step);
    var frame := step.answer.frame;
    assert s.pending == [frame] + s.pending[1..];
    assert s'.log == s.log && InHand(s.pc) == [];
  }

  lemma DataMove(c: Config, s: State, step: Step)
    requires DataInv(c, s) && ByThread(step) && Enabled(c, s, step) && Taken(step) == []
    ensures DataInv(c, Apply(c, s, step))
  {
    var move := MoveOf(c, s.cancelled, s.sourceActive, s.pc, step);
    MoveKeepsData(c, s.cancelled, s.sourceActive, s.pc, step);
    LogKeepsData(s.log, move.event);
    var s' := Apply(c, s, step);
    assert s'.consumed == s.consumed && s'.pending == s.pending;
    assert s'.log == Add(s.log, move.event) && s'.pc == move.pc;
    Regroup(DataArgs(s.log), Lost(s.log), InHand(s.pc), Handed(move.event), Dropped(move.event), InHand(move.pc));
  }

  lemma Regroup<T>(args: seq<T>, lost: seq<T>, inHand: seq<T>, handed: seq<T>, dropped: seq<T>, inHand': seq<T>)
    requires inHand == handed + dropped + inHand'
    requires handed != [] ==> lost == []
    ensures (args + handed) + (lost + dropped) + inHand' == args + lost + inHand
  {
    assert handed != [] ==> args + lost == args;
  }

  lemma LogKeepsData(log: seq<Event>, event: Option<Event>)
    ensures DataArgs(Add(log, event)) == DataArgs(log) + Handed(event)
    ensures Lost(Add(log, event)) == Lost(log) + Dropped(event)
  {
    if event.Some? {
      ArgsSnoc(log, event.value);
    }
  }

  lemma DataStep(c: Config, s: State, step: Step)
    requires DataInv(c, s)
    ensures DataInv(c, Apply(c, s, step))
  {
    if Enabled(c, s, step) {
      if ByThread(step) && Taken(step) != [] {
        DataTake(c, s, step);
      } else if ByThread(step) {
        DataMove(c, s, step);
      } else if step.Emit? {
        assert s.consumed + (s.pending + [step.frame]) == (s.consumed + s.pending) + [step.frame];
      }
    }
  }

  lemma {:induction false} DataAlways(c: Config, run: seq<Step>)
    ensures DataInv(c, After(c, run))
  {
    if run != [] {
      DataAlways(c, run[..|run| - 1]);
      DataStep(c, After(c, run[..|run| - 1]), run[|run| - 1]);
    }
  }

  /** A failure is either still being handled or followed by its handling. */
  ghost predicate HandledAt(log: seq<Event>, i: nat, pc: Pc)
    requires i < |log|
  {
    Failure(log[i]) ==>
      if i + 1 < |log| then Handles(log[i + 1]) else pc.AtHandler? || pc.AtError?
  }

  /** The event that ends the loop is followed by cancelling the source and nothing else. */
  ghost predicate EndAt(log: seq<Event>, i: nat, pc: Pc)
    requires i < |log|
  {
    Ends(log[i]) ==>
      || (i + 1 == |log| && pc.AtStop?)
      || (i + 2 == |log| && log[i + 1].SourceCancelled? && OutOfLoop(pc))
  }

  ghost predicate FailuresHandled(log: seq<Event>, pc: Pc) {
    forall i :: 0 <= i < |log| ==> HandledAt(log, i, pc)
  }

  ghost predicate EndsLast(log: seq<Event>, pc: Pc) {
    forall i :: 0 <= i < |log| ==> EndAt(log, i, pc)
  }

  ghost predicate CancelledLast(log: seq<Event>, pc: Pc) {
    forall i :: 0 <= i < |log| && log[i].SourceCancelled? ==> i == |log| - 1 && OutOfLoop(pc)
  }

  /** What the end of the log says about where the thread is. */
  ghost predicate EndMatches(log: seq<Event>, pc: Pc, cancelled: bool, sourceActive: bool) {
    && (pc.AtHandler? || pc.AtError? ==> log != [] && Failure(log[|log| - 1]))
    && (pc.AtStop? ==> cancelled || (log != [] && Ends(log[|log| - 1])))
    && (OutOfLoop(pc) ==>
          if pc.exit.WasCancelled? then
            && log != [] && log[|log| - 1].SourceCancelled?
            && (cancelled || (|log| > 1 && Ends(log[|log| - 2])))
          else
            && pc.exit.WentInactive? && !sourceActive
            && (log != [] ==> !log[|log| - 1].SourceCancelled?))
  }

  ghost predicate LogInv(log: seq<Event>, pc: Pc, cancelled: bool, sourceActive: bool) {
    && FailuresHandled(log, pc) && EndsLast(log, pc) && CancelledLast(log, pc)
    && EndMatches(log, pc, cancelled, sourceActive)
  }

  ghost predicate FlagInv(s: State) {
    && s.sourceCancels == (if OutOfLoop(s.pc) && s.pc.exit.WasCancelled? then 1 else 0)
    && (s.active <==> !s.pc.Done?)
  }

  /** How each kind of step may extend the log. */
  ghost predicate Fits(pc: Pc, move: Move, cancelled: bool, sourceActive: bool) {
    match move.event
    case None =>
      && (move.pc.AtHandler? <==> pc.AtError?) && !move.pc.AtError?
      && !pc.AtStop? && !pc.AtHandler?
      && (move.pc.AtStop? ==> cancelled)
      && (OutOfLoop(move.pc) ==>
            if OutOfLoop(pc) then move.pc.exit == pc.exit else move.pc.exit.WentInactive? && !sourceActive)
      && (OutOfLoop(pc) ==> OutOfLoop(move.pc))
    case Some(event) =>
      && !OutOfLoop(pc)
      && (pc.AtHandler? || pc.AtError? ==> Handles(event))
      && (Failure(event) <==> move.pc.AtHandler? || move.pc.AtError?)
      && (Ends(event) <==> move.pc.AtStop?)
      && (event.SourceCancelled? <==> pc.AtStop?)
      && (event.SourceCancelled? <==> OutOfLoop(move.pc))
      && (OutOfLoop(move.pc) ==> move.pc.exit.WasCancelled?)
  }

  lemma MovesFit(c: Config, cancelled: bool, sourceActive: bool, pc: Pc, step: Step)
    requires CanMove(pc, step)
    ensures Fits(pc, MoveOf(c, cancelled, sourceActive, pc, step), cancelled, sourceActive)
  {}

  lemma FitKeepsFailures(log: seq<Event>, pc: Pc, move: Move, cancelled: bool, sourceActive: bool)
    requires LogInv(log, pc, cancelled, sourceActive) && Fits(pc, move, cancelled, sourceActive)
    ensures FailuresHandled(Add(log, move.event), move.pc)
  {
    var log' := Add(log, move.event);
    forall i | 0 <= i < |log'| ensures HandledAt(log', i, move.pc) {
      if i < |log| {
        assert HandledAt(log, i, pc);
        assert i + 1 < |log| ==> log'[i + 1] == log[i + 1];
      }
    }
  }

  lemma FitKeepsEnds(log: seq<Event>, pc: Pc, move: Move, cancelled: bool, sourceActive: bool)
    requires LogInv(log, pc, cancelled, sourceActive) && Fits(pc, move, cancelled, sourceActive)
    ensures EndsLast(Add(log, move.event), move.pc) && CancelledLast(Add(log, move.event), move.pc)
  {
    var log' := Add(log, move.event);
    forall i | 0 <= i < |log'| ensures EndAt(log', i, move.pc) {
      if i < |log| {
        assert EndAt(log, i, pc);
        assert i + 1 < |log| ==> log'[i + 1] == log[i + 1];
      }
    }
    forall i | 0 <= i < |log'| && log'[i].SourceCancelled? ensures i == |log'| - 1 && OutOfLoop(move.pc) {
      if i < |log| {
        assert log[i].SourceCancelled?;
      }
    }
  }

  lemma FitKeepsLog(log: seq<Event>, pc: Pc, move: Move, cancelled: bool, sourceActive: bool)
    requires LogInv(log, pc, cancelled, sourceActive) && Fits(pc, move, cancelled, sourceActive)
    ensures LogInv(Add(log, move.event), move.pc, cancelled, sourceActive)
  {
    FitKeepsFailures(log, pc, move, cancelled, sourceActive);
    FitKeepsEnds(log, pc, move, cancelled, sourceActive);
  }

  lemma FlagStep(c: Config, s: State, step: Step)
    requires FlagInv(s)
    ensures FlagInv(Apply(c, s, step))
  {}

  lemma LogStep(c: Config, s: State, step: Step)
    requires LogInv(s.log, s.pc, s.cancelled, s.sourceActive)
    ensures var s' := Apply(c, s, step); LogInv(s'.log, s'.pc, s'.cancelled, s'.sourceActive)
  {
    if Enabled(c, s, step) && ByThread(step) {
      MovesFit(c, s.cancelled, s.sourceActive, s.pc, step);
      FitKeepsLog(s.log, s.pc, MoveOf(c, s.cancelled, s.sourceActive, s.pc, step), s.cancelled, s.sourceActive);
    } else {
      var s' := Apply(c, s, step);
      OthersKeepLog(s.log, s.pc, s.cancelled, s.sourceActive, s'.cancelled, s'.sourceActive);
    }
  }

  /** The flag may be set and the source may go inactive at any time. */
  lemma OthersKeepLog(
    log: seq<Event>, pc: Pc, cancelled: bool, sourceActive: bool, cancelled': bool, sourceActive': bool)
    requires LogInv(log, pc, cancelled, sourceActive)
    requires (cancelled ==> cancelled') && (sourceActive' ==> sourceActive)
    ensures LogInv(log, pc, cancelled', sourceActive')
  {}

  lemma {:induction false} LogAlways(c: Config, run: seq<Step>)
    ensures var s := After(c, run); LogInv(s.log, s.pc, s.cancelled, s.sourceActive) && FlagInv(s)
  {
    if run != [] {
      var s, step := After(c, run[..|run| - 1]), run[|run| - 1];
      LogAlways(c, run[..|run| - 1]);
      FlagStep(c, s, step);
      LogStep(c, s, step);
    }
  }

  // ----- after cancel --------------------------------------------------------------------------

  /** on_data may still be called in this pass. */
  function MayCallData(pc: Pc): nat {
    if pc.AtActive? || pc.AtPoll? || pc.AtData? then 1 else 0
  }

  function MayCallHandler(pc: Pc): nat {
    if MayCallData(pc) == 1 || pc.AtError? || pc.AtHandler? then 1 else 0
  }

  /** The flag will be read once more. */
  function MayCheck(pc: Pc): nat {
    if pc.AtStop? || OutOfLoop(pc) then 0 else 1
  }

  ghost predicate MarkInv(s: State) {
    && (s.mark.Some? <==> s.cancelled)
    && (s.mark.Some? ==>
          && DataCalls(s.log) + MayCallData(s.pc) <= s.mark.value.dataCalls + 1
          && HandlerCalls(s.log) + MayCallHandler(s.pc) <= s.mark.value.handlerCalls + 1
          && s.checks + MayCheck(s.pc) <= s.mark.value.checks + 1)
  }

  /** With the flag set, a step of the thread uses up what it may still call. */
  lemma MoveSpends(c: Config, sourceActive: bool, pc: Pc, step: Step)
    requires CanMove(pc, step)
    ensures var move := MoveOf(c, true, sourceActive, pc, step);
      && (if move.event.Some? && move.event.value.DataCalled? then 1 else 0) + MayCallData(move.pc) <= MayCallData(pc)
      && (if move.event.Some? && move.event.value.HandlerCalled? then 1 else 0) + MayCallHandler(move.pc)
         <= MayCallHandler(pc)
      && (if step.CheckFlag? then 1 else 0) + MayCheck(move.pc) <= MayCheck(pc)
  {}

  lemma MarkStep(c: Config, s: State, step: Step)
    requires MarkInv(s)
    ensures MarkInv(Apply(c, s, step))
  {
    if Enabled(c, s, step) && ByThread(step) && s.cancelled {
      var move := MoveOf(c, true, s.sourceActive, s.pc, step);
      MoveSpends(c, s.sourceActive, s.pc, step);
      if move.event.Some? {
        CallsSnoc(s.log, move.event.value);
      }
    }
  }

  lemma {:induction false} MarkAlways(c: Config, run: seq<Step>)
    ensures MarkInv(After(c, run))
  {
    if run != [] {
      MarkAlways(c, run[..|run| - 1]);
      MarkStep(c, After(c, run[..|run| - 1]), run[|run| - 1]);
    }
  }

  function Barriers(frames: seq<CoreFrame>): nat {
    if frames == [] then 0 else (if frames[0].Barrier? then 1 else 0) + Barriers(frames[1..])
  }

  lemma {:induction false} BarriersSnoc(frames: seq<CoreFrame>, frame: CoreFrame)
    ensures Barriers(frames + [frame]) == Barriers(frames) + (if frame.Barrier? then 1 else 0)
  {
    if frames == [] {
      assert frames + [frame] == [frame] && [frame][1..] == [];
    } else {
      assert (frames + [frame])[1..] == frames[1..] + [frame];
      BarriersSnoc(frames[1..], frame);
    }
  }

  /** Thread steps left, at most, once the flag is set and if the source sends no more barriers. */
  function StepsLeft(pc: Pc, barriers: nat): nat {
    match pc
    case Done(_) => 0
    case Ended(_) => 1
    case AtStop(_) => 2
    case AtTop => 3
    case AtHandler(_, _) => 4
    case AtError(_) => 5
    case AtData(_, _) => 5
    case AtPoll(_) => 6 + barriers
    case AtActive => 7 + barriers
  }

  lemma MoveGetsCloser(c: Config, sourceActive: bool, pc: Pc, step: Step, barriers: nat)
    requires CanMove(pc, step)
    ensures StepsLeft(MoveOf(c, true, sourceActive, pc, step).pc, barriers)
          < StepsLeft(pc, Barriers(Taken(step)) + barriers)
  {}

  /** With the flag set, every step of the thread brings it closer to its end; of what others do, only the arrival of a
      barrier can put the end off. */
  lemma CancelledStep(c: Config, s: State, step: Step)
    requires s.cancelled
    ensures var s' := Apply(c, s, step);
      && s'.cancelled
      && (ByThread(step) && Enabled(c, s, step) ==>
            StepsLeft(s'.pc, Barriers(s'.pending)) < StepsLeft(s.pc, Barriers(s.pending)))
      && (!ByThread(step) ==>
            StepsLeft(s'.pc, Barriers(s'.pending)) <= StepsLeft(s.pc, Barriers(s.pending)) + NewBarrier(c, step))
  {
    if step.Emit? {
      BarriersSnoc(s.pending, step.frame);
    } else if ByThread(step) && Enabled(c, s, step) {
      MoveGetsCloser(c, s.sourceActive, s.pc, step, Barriers(s.pending[|Taken(step)|..]));
    }
  }

  /** A barrier that the source can send. */
  function NewBarrier(c: Config, step: Step): nat {
    if step.Emit? && step.frame.Barrier? && c.kind.StreamKind? then 1 else 0
  }

  /** Steps the thread makes in `more`, after `run`. */
  function ThreadMoves(c: Config, run: seq<Step>, more: seq<Step>): nat {
    if more == [] then 0
    else
      var init, last := more[..|more| - 1], more[|more| - 1];
      ThreadMoves(c, run, init) + (if ByThread(last) && Enabled(c, After(c, run + init), last) then 1 else 0)
  }

  function NewBarriers(c: Config, more: seq<Step>): nat {
    if more == [] then 0 else NewBarriers(c, more[..|more| - 1]) + NewBarrier(c, more[|more| - 1])
  }

  /** Once the flag is set the thread makes a bounded number of steps, whatever the others do: the bound grows only
      with the barriers that the source still sends. */
  lemma {:induction false} CancelEndsTheLoop(c: Config, run: seq<Step>, more: seq<Step>)
    requires After(c, run).cancelled
    ensures var before, after := After(c, run), After(c, run + more);
      && after.cancelled
      && ThreadMoves(c, run, more) + StepsLeft(after.pc, Barriers(after.pending))
         <= StepsLeft(before.pc, Barriers(before.pending)) + NewBarriers(c, more)
  {
    if more == [] {
      assert run + more == run;
    } else {
      var init, last := more[..|more| - 1], more[|more| - 1];
      CancelEndsTheLoop(c, run, init);
      assert more == init + [last];
      ConcatAssoc(run, init, [last]);
      AfterSnoc(c, run + init, last);
      CancelledStep(c, After(c, run + init), last);
    }
  }

  /** A query source never has a barrier. */
  lemma {:induction false} QueriesHaveNoBarriers(c: Config, run: seq<Step>)
    requires c.kind.QueryKind?
    ensures Barriers(After(c, run).pending) == 0
  {
    if run != [] {
      var s, step := After(c, run[..|run| - 1]), run[|run| - 1];
      QueriesHaveNoBarriers(c, run[..|run| - 1]);
      if Enabled(c, s, step) {
        if step.Emit? {
          BarriersSnoc(s.pending, step.frame);
        } else if ByThread(step) && Taken(step) != [] {
          assert s.pending[0] == step.answer.frame;
        }
      }
    }
  }

  lemma {:induction false} QueriesSendNoBarriers(c: Config, more: seq<Step>)
    requires c.kind.QueryKind?
    ensures NewBarriers(c, more) == 0
  {
    if more != [] {
      QueriesSendNoBarriers(c, more[..|more| - 1]);
    }
  }

  /** Over a query source the thread makes at most seven steps after the flag is set, whatever the source does. */
  lemma QueryLoopEndsInSevenSteps(c: Config, run: seq<Step>, more: seq<Step>)
    requires c.kind.QueryKind? && After(c, run).cancelled
    ensures ThreadMoves(c, run, more) <= 7
  {
    CancelEndsTheLoop(c, run, more);
    QueriesHaveNoBarriers(c, run);
    QueriesSendNoBarriers(c, more);
  }

  /** `n` barriers, each taken as it comes. */
  function Busy(n: nat, barrier: CoreFrame): seq<Step> {
    if n == 0 then [] else Busy(n - 1, barrier) + [Emit(barrier), PollCore(Frame(barrier))]
  }

  ghost predicate Polling(s: State) {
    s.pc.AtPoll? && s.pending == []
  }

  lemma BusyMore(c: Config, run: seq<Step>, init: seq<Step>, barrier: CoreFrame)
    requires c.kind.StreamKind? && barrier.Barrier? && Polling(After(c, run + init))
    ensures var more := init + [Emit(barrier), PollCore(Frame(barrier))];
      Polling(After(c, run + more)) && ThreadMoves(c, run, more) == ThreadMoves(c, run, init) + 1
  {
    TwoMore(c, run, init, Emit(barrier), PollCore(Frame(barrier)));
    BusyStep(c, After(c, run + init), barrier);
  }

  /** A thread that polls goes on polling for as long as barriers come. */
  lemma {:induction false} BusyFrom(c: Config, run: seq<Step>, barrier: CoreFrame, n: nat)
    requires c.kind.StreamKind? && barrier.Barrier?
    requires Polling(After(c, run))
    ensures Polling(After(c, run + Busy(n, barrier)))
    ensures ThreadMoves(c, run, Busy(n, barrier)) == n
    decreases n
  {
    if n == 0 {
      assert run + Busy(0, barrier) == run;
    } else {
      var init := Busy(n - 1, barrier);
      BusyFrom(c, run, barrier, n - 1);
      BusyMore(c, run, init, barrier);
    }
  }

  /** Over a named stream nothing bounds them: for every `n` there is a run that goes on with `n` steps of the thread
      after the flag was set, and leaves it polling. */
  lemma BarriersKeepTheThreadBusy(c: Config, barrier: CoreFrame, n: nat)
    requires c.kind.StreamKind? && barrier.Barrier?
    ensures var run := [CheckFlag, CheckActive, RequestCancel];
      var s := After(c, run + Busy(n, barrier));
      && After(c, run).cancelled && Polling(s)
      && ThreadMoves(c, run, Busy(n, barrier)) == n
  {
    StartsPolling(c);
    BusyFrom(c, [CheckFlag, CheckActive, RequestCancel], barrier, n);
  }

  lemma BusyStep(c: Config, s: State, barrier: CoreFrame)
    requires c.kind.StreamKind? && barrier.Barrier? && Polling(s)
    ensures var s1 := Apply(c, s, Emit(barrier));
      && Enabled(c, s1, PollCore(Frame(barrier)))
      && Polling(Apply(c, s1, PollCore(Frame(barrier))))
  {}

  lemma StartsPolling(c: Config)
    ensures var s := After(c, [CheckFlag, CheckActive, RequestCancel]); s.cancelled && Polling(s)
  {
    assert [CheckFlag, CheckActive, RequestCancel][..2] == [CheckFlag, CheckActive];
    assert [CheckFlag, CheckActive][..1] == [CheckFlag];
    assert [CheckFlag][..0] == [];
    assert After(c, [CheckFlag]) == Apply(c, Init(), CheckFlag);
    assert After(c, [CheckFlag, CheckActive]) == Apply(c, After(c, [CheckFlag]), CheckActive);
  }

  lemma TwoMore(c: Config, run: seq<Step>, init: seq<Step>, first: Step, second: Step)
    ensures var s := After(c, run + init);
      var s1 := Apply(c, s, first);
      && After(c, run + (init + [first, second])) == Apply(c, s1, second)
      && ThreadMoves(c, run, init + [first, second])
         == ThreadMoves(c, run, init) + (if ByThread(first) && Enabled(c, s, first) then 1 else 0)
            + (if ByThread(second) && Enabled(c, s1, second) then 1 else 0)
  {
    var one := init + [first];
    assert init + [first, second] == one + [second];
    ConcatAssoc(run, init, [first]);
    ConcatAssoc(run, one, [second]);
    AfterSnoc(c, run + init, first);
    AfterSnoc(c, run + one, second);
    MovesSnoc(c, run, init, first);
    MovesSnoc(c, run, one, second);
  }

  lemma MovesSnoc(c: Config, run: seq<Step>, init: seq<Step>, last: Step)
    ensures ThreadMoves(c, run, init + [last])
         == ThreadMoves(c, run, init) + (if ByThread(last) && Enabled(c, After(c, run + init), last) then 1 else 0)
  {
    assert (init + [last])[..|init|] == init;
  }

  lemma ThreadIsNeverStuck(c: Config, s: State)
    requires !s.pc.Done?
    ensures exists step :: ByThread(step) && Enabled(c, s, step)
  {
    var step := match s.pc
      case AtTop => CheckFlag
      case AtActive => CheckActive
      case AtPoll(_) => PollCore(Nothing)
      case AtData(_, _) => CallData(true, true)
      case AtError(_) => Attach(true)
      case AtHandler(_, _) => CallHandler(true)
      case AtStop(_) => CancelSource
      case _ => ClearActive;
    assert ByThread(step) && Enabled(c, s, step);
  }

  // ----- the run and the code ------------------------------------------------------------------

  function PassOf(c: Config, record: Record): Pass {
    Pass(record.observed, Poll(c.kind, record.seen).0)
  }

  function RecordEvents(c: Config, record: Record): seq<Event> {
    PassEvents(c.hasHandler, PassOf(c, record))
  }

  /** Events of finished passes. */
  function EventsOf(c: Config, records: seq<Record>): seq<Event> {
    if records == [] then [] else RecordEvents(c, records[0]) + EventsOf(c, records[1..])
  }

  function SeenOf(records: seq<Record>): seq<Answer> {
    if records == [] then [] else records[0].seen + SeenOf(records[1..])
  }

  lemma {:induction false} RecordsSnoc(c: Config, records: seq<Record>, last: Record)
    ensures EventsOf(c, records + [last]) == EventsOf(c, records) + RecordEvents(c, last)
    ensures SeenOf(records + [last]) == SeenOf(records) + last.seen
  {
    if records == [] {
      assert records + [last] == [last] && [last][1..] == [];
    } else {
      assert (records + [last])[1..] == records[1..] + [last];
      RecordsSnoc(c, records[1..], last);
    }
  }

  function ObservedOf(records: seq<Record>): seq<Observed> {
    seq(|records|, i requires 0 <= i < |records| => records[i].observed)
  }

  function PcSeen(pc: Pc): seq<Answer> {
    match pc
    case AtPoll(seen) => seen
    case AtData(seen, _) => seen
    case AtError(seen) => seen
    case AtHandler(seen, _) => seen
    case AtStop(record) => record.seen
    case _ => []
  }

  ghost predicate Skipped(seen: seq<Answer>) {
    forall i :: 0 <= i < |seen| ==> IsBarrier(seen[i])
  }

  /** The core was polled past barriers to one more answer. */
  ghost predicate Polls(seen: seq<Answer>) {
    seen != [] && Skipped(seen[..|seen| - 1]) && !IsBarrier(seen[|seen| - 1])
  }

  /** A record of a pass the code could make; if `stops`, of one that ends the loop. */
  ghost predicate Sound(c: Config, record: Record, stops: bool) {
    && (if record.observed.cancelled || !record.observed.active then record.seen == [] else Polls(record.seen))
    && (Stops(c.hasHandler, PassOf(c, record)) <==> stops)
  }

  /** The events of the pass in progress are those the code has produced at this point of it. */
  ghost predicate Partial(c: Config, pc: Pc, events: seq<Event>) {
    match pc
    case AtPoll(seen) => events == [] && Skipped(seen)
    case AtData(seen, result) => events == [] && Polls(seen) && Poll(c.kind, seen).0 == Got(result)
    case AtError(seen) =>
      Polls(seen) && Poll(c.kind, seen).0.Broken? && events == [SourceFailed(Poll(c.kind, seen).0.error)]
    case AtHandler(seen, dataOk) =>
      && Polls(seen)
      && (match Poll(c.kind, seen).0
          case Broken(error) => dataOk && events == [SourceFailed(error)]
          case Got(result) => !dataOk && events == [DataCalled(result, false)]
          case Quiet => false)
    case AtStop(record) => Sound(c, record, true) && events + [SourceCancelled] == RecordEvents(c, record)
    case _ => events == []
  }

  /** What the last answer of a poll decides. */
  lemma {:induction false} PollLast(kind: Kind, seen: seq<Answer>, answer: Answer)
    requires Skipped(seen) && !IsBarrier(answer)
    ensures Polls(seen + [answer])
    ensures Poll(kind, seen + [answer]).0 == (match answer
      case Failed(error) => Broken(error)
      case Nothing => Quiet
      case Frame(frame) => Got(ResultOf(kind, frame)))
  {
    assert (seen + [answer])[..|seen|] == seen;
    if seen != [] {
      assert (seen + [answer])[1..] == seen[1..] + [answer];
      PollLast(kind, seen[1..], answer);
    }
  }

  /** A step leads from one point of the code's pass to another, or completes the pass. */
  ghost predicate Follows(c: Config, pc: Pc, move: Move, events: seq<Event>) {
    match move.record
    case None => Partial(c, move.pc, events) && (OutOfLoop(move.pc) ==> OutOfLoop(pc))
    case Some(record) =>
      && Sound(c, record, OutOfLoop(move.pc))
      && events == RecordEvents(c, record)
      && Partial(c, move.pc, [])
      && !OutOfLoop(pc)
  }

  lemma PollIsCode(c: Config, pc: Pc, answer: Answer, events: seq<Event>)
    requires pc.AtPoll? && Partial(c, pc, events)
    ensures var move := MoveOf(c, false, true, pc, PollCore(answer)); Follows(c, pc, move, Add(events, move.event))
  {
    if !IsBarrier(answer) {
      PollLast(c.kind, pc.seen, answer);
    }
  }

  lemma CallDataIsCode(c: Config, pc: Pc, step: Step, events: seq<Event>)
    requires pc.AtData? && step.CallData? && Partial(c, pc, events)
    ensures var move := MoveOf(c, false, true, pc, step); Follows(c, pc, move, Add(events, move.event))
  {}

  lemma CallHandlerIsCode(c: Config, pc: Pc, step: Step, events: seq<Event>)
    requires CanMove(pc, step) && (step.Attach? || step.CallHandler?) && Partial(c, pc, events)
    ensures var move := MoveOf(c, false, true, pc, step); Follows(c, pc, move, Add(events, move.event))
  {}

  lemma MoveIsCode(c: Config, cancelled: bool, sourceActive: bool, pc: Pc, step: Step, events: seq<Event>)
    requires CanMove(pc, step) && Partial(c, pc, events)
    ensures var move := MoveOf(c, cancelled, sourceActive, pc, step); Follows(c, pc, move, Add(events, move.event))
  {
    if step.PollCore? {
      PollIsCode(c, pc, step.answer, events);
    } else if step.CallData? {
      CallDataIsCode(c, pc, step, events);
    } else if step.Attach? || step.CallHandler? {
      CallHandlerIsCode(c, pc, step, events);
    }
  }

  /** Every finished pass is one the code could make, and only the last one ends the loop. */
  ghost predicate AllSound(c: Config, records: seq<Record>, over: bool) {
    forall k :: 0 <= k < |records| ==> Sound(c, records[k], over && k == |records| - 1)
  }

  /** The log is the finished passes, as the code makes them, and the pass in progress. */
  ghost predicate CodeInv(c: Config, log: seq<Event>, records: seq<Record>, pc: Pc, events: seq<Event>) {
    && log == EventsOf(c, records) + events
    && Partial(c, pc, events)
    && AllSound(c, records, OutOfLoop(pc))
  }

  lemma CodeMove(c: Config, log: seq<Event>, records: seq<Record>, pc: Pc, events: seq<Event>,
                 cancelled: bool, sourceActive: bool, step: Step)
      returns (events': seq<Event>)
    requires CodeInv(c, log, records, pc, events) && CanMove(pc, step)
    ensures var move := MoveOf(c, cancelled, sourceActive, pc, step);
      CodeInv(c, Add(log, move.event), Add(records, move.record), move.pc, events')
  {
    var move := MoveOf(c, cancelled, sourceActive, pc, step);
    MoveIsCode(c, cancelled, sourceActive, pc, step, events);
    events' := Add(events, move.event);
    assert Add(log, move.event) == EventsOf(c, records) + events';
    if move.record.Some? {
      RecordsSnoc(c, records, move.record.value);
      events' := [];
    }
  }

  lemma {:induction false} CodeAlways(c: Config, run: seq<Step>) returns (events: seq<Event>)
    ensures var s := After(c, run); CodeInv(c, s.log, s.records, s.pc, events)
  {
    events := [];
    if run != [] {
      var s, step := After(c, run[..|run| - 1]), run[|run| - 1];
      events := CodeAlways(c, run[..|run| - 1]);
      if Enabled(c, s, step) && ByThread(step) {
        events := CodeMove(c, s.log, s.records, s.pc, events, s.cancelled, s.sourceActive, step);
      }
    }
  }

  /** The answers recorded are where the consumed frames came from. */
  ghost predicate SeenInv(s: State) {
    FramesOf(SeenOf(s.records) + PcSeen(s.pc)) == s.consumed
  }

  lemma MoveSees(c: Config, cancelled: bool, sourceActive: bool, pc: Pc, step: Step)
    requires CanMove(pc, step)
    ensures var move := MoveOf(c, cancelled, sourceActive, pc, step);
      PcSeen(pc) + (if step.PollCore? then [step.answer] else [])
      == (if move.record.Some? then move.record.value.seen else []) + PcSeen(move.pc)
  {}

  lemma SeenMove(c: Config, records: seq<Record>, pc: Pc, cancelled: bool, sourceActive: bool, step: Step)
    requires CanMove(pc, step)
    ensures var move := MoveOf(c, cancelled, sourceActive, pc, step);
      FramesOf(SeenOf(Add(records, move.record)) + PcSeen(move.pc))
      == FramesOf(SeenOf(records) + PcSeen(pc)) + Taken(step)
  {
    var move := MoveOf(c, cancelled, sourceActive, pc, step);
    var answered := if step.PollCore? then [step.answer] else [];
    var recorded := if move.record.Some? then move.record.value.seen else [];
    MoveSees(c, cancelled, sourceActive, pc, step);
    if move.record.Some? {
      RecordsSnoc(c, records, move.record.value);
    }
    assert SeenOf(Add(records, move.record)) == SeenOf(records) + recorded;
    Reassociate(SeenOf(records), PcSeen(pc), answered, recorded, PcSeen(move.pc));
    FramesOfAppend(SeenOf(records) + PcSeen(pc), answered);
    FramesOfAnswered(step);
  }

  lemma FramesOfAnswered(step: Step)
    ensures FramesOf(if step.PollCore? then [step.answer] else []) == Taken(step)
  {
    if step.PollCore? {
      assert [step.answer][1..] == [];
    }
  }

  lemma Reassociate<T>(done: seq<T>, seen: seq<T>, answered: seq<T>, recorded: seq<T>, seen': seq<T>)
    requires seen + answered == recorded + seen'
    ensures (done + recorded) + seen' == (done + seen) + answered
  {
    assert (done + recorded) + seen' == done + (recorded + seen');
  }

  lemma {:induction false} SeenAlways(c: Config, run: seq<Step>)
    ensures SeenInv(After(c, run))
  {
    if run != [] {
      var s, step := After(c, run[..|run| - 1]), run[|run| - 1];
      SeenAlways(c, run[..|run| - 1]);
      if Enabled(c, s, step) && ByThread(step) {
        SeenMove(c, s.records, s.pc, s.cancelled, s.sourceActive, step);
      }
    }
  }

  lemma {:induction false} PollLocal(kind: Kind, seen: seq<Answer>, rest: seq<Answer>)
    requires Polls(seen)
    ensures Poll(kind, seen + rest) == (Poll(kind, seen).0, |seen|)
  {
    if |seen| > 1 {
      assert IsBarrier(seen[..|seen| - 1][0]);
      assert (seen + rest)[1..] == seen[1..] + rest;
      assert seen[1..][..|seen[1..]| - 1] == seen[..|seen| - 1][1..];
      PollLocal(kind, seen[1..], rest);
    }
  }

  lemma OnePass(c: Config, record: Record, observed: seq<Observed>, rest: seq<Answer>, stops: bool)
    requires Sound(c, record, stops)
    ensures LoopLog(c.kind, c.hasHandler, [record.observed] + observed, record.seen + rest)
      == RecordEvents(c, record) + (if stops then [] else LoopLog(c.kind, c.hasHandler, observed, rest))
  {
    var all := [record.observed] + observed;
    assert all[0] == record.observed && all[1..] == observed;
    if record.observed.cancelled || !record.observed.active {
    } else {
      PollLocal(c.kind, record.seen, rest);
      PollLocal(c.kind, record.seen, []);
      assert record.seen + [] == record.seen;
      assert (record.seen + rest)[|record.seen|..] == rest;
    }
  }

  /** Passes recorded one by one are what the code's loop does with their observations and answers. */
  lemma {:induction false} RecordsAreCode(c: Config, records: seq<Record>, over: bool)
    requires AllSound(c, records, over)
    ensures LoopLog(c.kind, c.hasHandler, ObservedOf(records), SeenOf(records)) == EventsOf(c, records)
    decreases |records|
  {
    if records == [] {
      assert ObservedOf(records) == [];
    } else {
      var first, tail := records[0], records[1..];
      assert forall k :: 0 <= k < |tail| ==> tail[k] == records[k + 1];
      RecordsAreCode(c, tail, over);
      assert ObservedOf(records) == [first.observed] + ObservedOf(tail);
      OnePass(c, first, ObservedOf(tail), SeenOf(tail), over && |records| == 1);
    }
  }

  /** Every run does what the code's loop does: once the thread is out of the loop, its log is the code's log for what
      it observed and what the core answered, and those answers are where the consumed frames came from. */
  lemma RunsFollowTheCode(c: Config, run: seq<Step>)
    requires OutOfLoop(After(c, run).pc)
    ensures var s := After(c, run);
      && s.log == LoopLog(c.kind, c.hasHandler, ObservedOf(s.records), SeenOf(s.records))
      && s.consumed == FramesOf(SeenOf(s.records))
  {
    var s := After(c, run);
    var events := CodeAlways(c, run);
    SeenAlways(c, run);
    assert SeenOf(s.records) + [] == SeenOf(s.records);
    assert EventsOf(c, s.records) + [] == EventsOf(c, s.records);
    RecordsAreCode(c, s.records, true);
  }

  // ----- main results --------------------------------------------------------------------------

  /** Over every run: on_data receives a prefix of the source's batches, in order, each once. Batches taken but not
      handed over number at most one: the one in the thread's hand, or one lost to a failed attach, which ends the
      loop. */
  lemma OnDataReceivesAPrefix(c: Config, run: seq<Step>)
    ensures var s := After(c, run);
      && s.consumed <= s.emitted
      && ResultsOf(c.kind, s.consumed) == DataArgs(s.log) + Lost(s.log) + InHand(s.pc)
      && |Lost(s.log)| + |InHand(s.pc)| <= 1
      && (Lost(s.log) != [] ==> s.pc.AtStop? || OutOfLoop(s.pc))
  {
    DataAlways(c, run);
    LogAlways(c, run);
    var s := After(c, run);
    AtMostOneLost(s.log, s.pc);
  }

  lemma {:induction false} NothingLost(log: seq<Event>)
    requires forall i :: 0 <= i < |log| ==> !log[i].NotAttached?
    ensures Lost(log) == []
  {
    if log != [] {
      NothingLost(log[..|log| - 1]);
    }
  }

  lemma AtMostOneLost(log: seq<Event>, pc: Pc)
    requires EndsLast(log, pc)
    ensures |Lost(log)| <= 1
  {
    if |log| > 1 {
      var init := log[..|log| - 1];
      var most := init[..|init| - 1];
      forall i | 0 <= i < |most| ensures !most[i].NotAttached? {
        assert EndAt(log, i, pc);
        assert most[i] == log[i];
      }
      NothingLost(most);
      assert EndAt(log, |log| - 2, pc);
    } else if |log| == 1 {
      NothingLost(log[..0]);
    }
  }

  /** on_error is called only if there is one, and it is missed only if there is none. */
  ghost predicate HandlersFit(c: Config, log: seq<Event>) {
    forall i :: 0 <= i < |log| ==>
      && (log[i].HandlerCalled? ==> c.hasHandler)
      && (log[i].NoHandler? ==> !c.hasHandler)
  }

  lemma {:induction false} HandlersAlways(c: Config, run: seq<Step>)
    ensures HandlersFit(c, After(c, run).log)
  {
    if run != [] {
      var s, step := After(c, run[..|run| - 1]), run[|run| - 1];
      HandlersAlways(c, run[..|run| - 1]);
      if Enabled(c, s, step) && ByThread(step) {
        EventFits(c, s.cancelled, s.sourceActive, s.pc, step);
      }
    }
  }

  lemma EventFits(c: Config, cancelled: bool, sourceActive: bool, pc: Pc, step: Step)
    requires CanMove(pc, step)
    ensures HandlersFit(c, Add([], MoveOf(c, cancelled, sourceActive, pc, step).event))
  {}

  /** The call of on_error, or the lack of one, decides alone whether the loop goes on. */
  lemma HandlerDecides(c: Config, s: State, ok: bool)
    requires s.pc.AtHandler?
    ensures var s' := Apply(c, s, CallHandler(ok));
      && s'.log == s.log + [if c.hasHandler then HandlerCalled(ok) else NoHandler]
      && (if c.hasHandler && ok then s'.pc.AtTop? else s'.pc.AtStop?)
  {}

  /** Over every run that has left the loop: each failure was handled by an on_error that succeeded, except possibly
      the last, after which the source was cancelled and nothing else happened: its on_error failed, or there is none,
      or the interpreter could not be attached. So without an on_error the first failure is the last. */
  lemma LoopStopsAtTheFirstUnhandledError(c: Config, run: seq<Step>, i: nat)
    requires OutOfLoop(After(c, run).pc)
    requires i < |After(c, run).log| && Failure(After(c, run).log[i])
    ensures var log := After(c, run).log;
      && i + 1 < |log|
      && ((c.hasHandler && log[i + 1] == HandlerCalled(true))
          || (i + 3 == |log| && log[i + 2].SourceCancelled?
              && (log[i + 1] == NotAttached(None)
                  || log[i + 1] == (if c.hasHandler then HandlerCalled(false) else NoHandler))))
  {
    LogAlways(c, run);
    HandlersAlways(c, run);
    var s := After(c, run);
    assert HandledAt(s.log, i, s.pc);
    assert EndAt(s.log, i + 1, s.pc);
  }

  /** The source is cancelled exactly once on every way out of the loop but the inactive one, and then as the last
      event; the active flag is cleared only after the loop has ended; and the loop ends only for a reason: the flag
      was set, an error went unhandled, or the source went inactive. */
  lemma ExitsAreClean(c: Config, run: seq<Step>)
    ensures var s := After(c, run);
      && s.sourceCancels == (if OutOfLoop(s.pc) && s.pc.exit.WasCancelled? then 1 else 0)
      && (s.active <==> !s.pc.Done?)
      && (forall i :: 0 <= i < |s.log| && s.log[i].SourceCancelled? ==> i == |s.log| - 1 && OutOfLoop(s.pc))
      && (OutOfLoop(s.pc) ==>
            if s.pc.exit.WasCancelled? then
              s.log != [] && s.log[|s.log| - 1].SourceCancelled?
              && (s.cancelled || (|s.log| > 1 && Ends(s.log[|s.log| - 2])))
            else
              s.pc.exit.WentInactive? && !s.sourceActive)
  {
    LogAlways(c, run);
  }

  /** Once the cancel flag is set: at most one more on_data and one more on_error call begin, and the loop's top is
      reached at most once more. */
  lemma LittleHappensAfterCancel(c: Config, run: seq<Step>)
    requires After(c, run).cancelled
    ensures var s := After(c, run);
      && s.mark.Some?
      && DataCalls(s.log) <= s.mark.value.dataCalls + 1
      && HandlerCalls(s.log) <= s.mark.value.handlerCalls + 1
      && s.checks <= s.mark.value.checks + 1
  {
    MarkAlways(c, run);
  }
}
