/** Any number of threads sharing one named-stream subscription (src/stream_subscription.rs). */
module SubscriptionMachine {
  import opened Common
  import opened Frames

  /** A critical section on the mutex around the optional core: the call, whether the core was still there, what it
      answered, and the reply. Each call is one. `index` is the position, among the frames consumed, of the frame the
      reply carries. */
  datatype Section = Section(
    thread: nat, call: Call, open: bool, seen: seq<Answer>, reply: Reply, index: Option<nat>)

  datatype Pc =
    | Idle
    | Probing                                               // `__anext__` looks at `is_active` before it starts
    | Waiting(call: Call)                                   // wants the lock
    | Holding(call: Call, open: bool, seen: seq<Answer>)    // has the lock
    | Leaving(section: Section)                             // has its reply, still has the lock
    | Returning(section: Section)                           // gave the lock back, reply on its way to the caller

  datatype Skip = Skip(call: Call, index: nat)

  datatype State = State(
    emitted: seq<CoreFrame>,      // everything the core has produced
    pending: seq<CoreFrame>,      // the core's queue
    consumed: seq<CoreFrame>,     // taken from the queue, in lock order
    answers: seq<Answer>,         // everything the core has answered, in lock order
    open: bool,                   // the inner value is still there
    cancels: nat,                 // times the core's cancel was called
    owner: Option<nat>,           // the lock
    pcs: seq<Pc>,
    skipped: seq<Skip>,           // frames taken and dropped
    sections: seq<Section>,       // finished critical sections, in lock order
    delivered: seq<Section>)      // replies the callers have received

  datatype Step =
    | Emit(frame: CoreFrame)
    | Start(thread: nat, call: Call)
    | Probe(thread: nat, active: bool)
    | Acquire(thread: nat)
    | CancelInner(thread: nat)
    | FindClosed(thread: nat)
    | Take(thread: nat)
    | Answered(thread: nat, answer: Answer)
    | Release(thread: nat)
    | Deliver(thread: nat)

  function Init(threads: nat): State {
    State([], [], [], [], true, 0, None, seq(threads, _ => Idle), [], [], [])
  }

  predicate Enabled(s: State, step: Step) {
    if step.Emit? then true
    else if step.thread >= |s.pcs| then false
    else
      var pc := s.pcs[step.thread];
      match step
      case Start(_, _) => pc.Idle?
      case Probe(_, _) => pc.Probing? && s.owner.None?
      case Acquire(_) => pc.Waiting? && s.owner.None?
      case CancelInner(_) => pc.Holding? && pc.call.Cancel?
      case FindClosed(_) => pc.Holding? && !pc.call.Cancel? && (!s.open || pc.call.IsActive?)
      case Take(_) => pc.Holding? && Reads(pc.call) && s.open && s.pending != []
      case Answered(_, answer) => pc.Holding? && Reads(pc.call) && s.open && !answer.Frame?
      case Release(_) => pc.Leaving?
      case Deliver(_) => pc.Returning?
  }

  predicate Reads(call: Call) {
    BatchOnly(call) || FrameCall(call)
  }

  function Goto(s: State, t: nat, pc: Pc): State
    requires t < |s.pcs|
  {
    s.(pcs := s.pcs[t := pc])
  }

  function Apply(s: State, step: Step): State {
    if !Enabled(s, step) then s
    else
      match step
      case Emit(frame) =>
        s.(emitted := s.emitted + [frame], pending := s.pending + [frame])
      case Start(t, call) =>
        Goto(s, t, if call.AsyncNext? then Probing else Waiting(call))
      case Probe(t, active) =>
        if s.open && active then Goto(s, t, Waiting(AsyncNext))
        else
          var section := Section(t, IsActive, s.open, [], NoData, None);
          Goto(s.(sections := s.sections + [section]), t, Returning(section))
      case Acquire(t) =>
        Goto(s.(owner := Some(t)), t, Holding(s.pcs[t].call, s.open, []))
      case CancelInner(t) =>
        var section := Section(t, Cancel, s.open, [], CancelDone, None);
        Goto(s.(open := false, cancels := s.cancels + (if s.open then 1 else 0)), t, Leaving(section))
      case FindClosed(t) =>
        Goto(s, t, Leaving(Section(t, s.pcs[t].call, s.open, [], NoData, None)))
      case Take(t) =>
        var Holding(call, open, seen) := s.pcs[t];
        var answer := Frame(s.pending[0]);
        var taken := s.(pending := s.pending[1..],
                        consumed := s.consumed + [s.pending[0]],
                        answers := s.answers + [answer]);
        (match Handle(call, answer)
         case None =>
           Goto(taken.(skipped := s.skipped + [Skip(call, |s.consumed|)]), t, Holding(call, open, seen + [answer]))
         case Some(reply) =>
           Goto(taken, t, Leaving(Section(t, call, open, seen + [answer], reply, Some(|s.consumed|)))))
      case Answered(t, answer) =>
        var Holding(call, open, seen) := s.pcs[t];
        Goto(s.(answers := s.answers + [answer]), t,
             Leaving(Section(t, call, open, seen + [answer], Handle(call, answer).value, None)))
      case Release(t) =>
        var section := s.pcs[t].section;
        Goto(s.(owner := None, sections := s.sections + [section]), t, Returning(section))
      case Deliver(t) =>
        Goto(s.(delivered := s.delivered + [s.pcs[t].section]), t, Idle)
  }

  /** The state after a run. A run is any sequence of steps; a step that is not enabled leaves the state as it is. */
  function After(threads: nat, run: seq<Step>): State {
    if run == [] then Init(threads) else Apply(After(threads, run[..|run| - 1]), run[|run| - 1])
  }

  lemma AfterSnoc(threads: nat, run: seq<Step>, step: Step)
    ensures After(threads, run + [step]) == Apply(After(threads, run), step)
  {
    assert (run + [step])[..|run|] == run;
  }

  // ----- the lock ------------------------------------------------------------------------------

  predicate InSection(pc: Pc) {
    pc.Holding? || pc.Leaving?
  }

  ghost predicate LockInv(s: State) {
    forall t :: 0 <= t < |s.pcs| ==> (InSection(s.pcs[t]) <==> s.owner == Some(t))
  }

  lemma LockStep(s: State, step: Step)
    requires LockInv(s)
    ensures LockInv(Apply(s, step)) && |Apply(s, step).pcs| == |s.pcs|
  {
    var s' := Apply(s, step);
    if Enabled(s, step) && !step.Emit? {
      assert forall u :: 0 <= u < |s.pcs| && u != step.thread ==> s'.pcs[u] == s.pcs[u];
      assert InSection(s'.pcs[step.thread]) <==> s'.owner == Some(step.thread);
    }
  }

  lemma {:induction false} MutualExclusion(threads: nat, run: seq<Step>)
    ensures LockInv(After(threads, run))
    ensures |After(threads, run).pcs| == threads
  {
    if run != [] {
      MutualExclusion(threads, run[..|run| - 1]);
      LockStep(After(threads, run[..|run| - 1]), run[|run| - 1]);
    }
  }

  // ----- conservation of frames ----------------------------------------------------------------

  /** How often a section's reply carries frame `i`. */
  function CarriedBy(section: Section, i: nat): nat {
    if section.index == Some(i) then 1 else 0
  }

  function HeldBy(pc: Pc, i: nat): nat {
    if pc.Leaving? || pc.Returning? then CarriedBy(pc.section, i) else 0
  }

  /** Threads that have taken frame `i` and not yet handed it to their caller. */
  function InFlight(pcs: seq<Pc>, i: nat): nat {
    if pcs == [] then 0 else HeldBy(pcs[0], i) + InFlight(pcs[1..], i)
  }

  /** Callers that were handed frame `i`. */
  function Deliveries(delivered: seq<Section>, i: nat): nat {
    if delivered == [] then 0
    else Deliveries(delivered[..|delivered| - 1], i) + CarriedBy(delivered[|delivered| - 1], i)
  }

  function Drops(skipped: seq<Skip>, i: nat): nat {
    if skipped == [] then 0
    else Drops(skipped[..|skipped| - 1], i) + (if skipped[|skipped| - 1].index == i then 1 else 0)
  }

  lemma {:induction false} InFlightUpdate(pcs: seq<Pc>, t: nat, pc: Pc, i: nat)
    requires t < |pcs|
    ensures InFlight(pcs[t := pc], i) + HeldBy(pcs[t], i) == InFlight(pcs, i) + HeldBy(pc, i)
  {
    if t == 0 {
      assert pcs[t := pc][1..] == pcs[1..];
    } else {
      assert pcs[t := pc][1..] == pcs[1..][t - 1 := pc];
      InFlightUpdate(pcs[1..], t - 1, pc, i);
    }
  }

  lemma {:induction false} IdleHoldsNothing(pcs: seq<Pc>, i: nat)
    requires forall t :: 0 <= t < |pcs| ==> pcs[t].Idle?
    ensures InFlight(pcs, i) == 0
  {
    if pcs != [] {
      IdleHoldsNothing(pcs[1..], i);
    }
  }

  /** A consumed frame has exactly one fate; a frame not yet consumed has none. */
  ghost predicate Conserved(s: State, i: nat) {
    Drops(s.skipped, i) + Deliveries(s.delivered, i) + InFlight(s.pcs, i) == if i < |s.consumed| then 1 else 0
  }

  lemma ConservedTake(s: State, t: nat, i: nat)
    requires Conserved(s, i) && Enabled(s, Take(t))
    ensures Conserved(Apply(s, Take(t)), i)
  {
    var s' := Apply(s, Take(t));
    var pc' := s'.pcs[t];
    assert |s'.consumed| == |s.consumed| + 1;
    assert s'.delivered == s.delivered;
    assert s'.pcs == s.pcs[t := pc'];
    InFlightUpdate(s.pcs, t, pc', i);
    if pc'.Holding? {
      assert s'.skipped[..|s.skipped|] == s.skipped;
      assert s'.skipped[|s.skipped|].index == |s.consumed|;
    } else {
      assert s'.skipped == s.skipped;
      assert pc'.section.index == Some(|s.consumed|);
    }
  }

  lemma ConservedDeliver(s: State, t: nat, i: nat)
    requires Conserved(s, i) && Enabled(s, Deliver(t))
    ensures Conserved(Apply(s, Deliver(t)), i)
  {
    var s' := Apply(s, Deliver(t));
    InFlightUpdate(s.pcs, t, Idle, i);
    assert s'.delivered[..|s.delivered|] == s.delivered;
  }

  /** Other steps take no frame and hand none over. */
  lemma MoveCarries(s: State, step: Step, i: nat)
    requires Enabled(s, step) && !step.Emit? && !step.Take? && !step.Deliver?
    ensures var s', t := Apply(s, step), step.thread;
      && s'.consumed == s.consumed && s'.skipped == s.skipped && s'.delivered == s.delivered
      && |s'.pcs| == |s.pcs| && s'.pcs == s.pcs[t := s'.pcs[t]] && HeldBy(s'.pcs[t], i) == HeldBy(s.pcs[t], i)
  {}

  lemma ConservedMove(s: State, step: Step, i: nat)
    requires Conserved(s, i) && Enabled(s, step) && !step.Emit? && !step.Take? && !step.Deliver?
    ensures Conserved(Apply(s, step), i)
  {
    MoveCarries(s, step, i);
    InFlightUpdate(s.pcs, step.thread, Apply(s, step).pcs[step.thread], i);
  }

  lemma ConservedStep(s: State, step: Step, i: nat)
    requires Conserved(s, i)
    ensures Conserved(Apply(s, step), i)
  {
    if !Enabled(s, step) {
      return;
    }
    match step
    case Take(t) => ConservedTake(s, t, i);
    case Deliver(t) => ConservedDeliver(s, t, i);
    case Emit(_) =>
    case _ => ConservedMove(s, step, i);
  }

  lemma {:induction false} ConservedAlways(threads: nat, run: seq<Step>, i: nat)
    ensures Conserved(After(threads, run), i)
  {
    if run == [] {
      IdleHoldsNothing(Init(threads).pcs, i);
    } else {
      ConservedAlways(threads, run[..|run| - 1], i);
      ConservedStep(After(threads, run[..|run| - 1]), run[|run| - 1], i);
    }
  }

  // ----- what a section holds ------------------------------------------------------------------

  /** The reply is what the call does, on its own, with the answers the core gave in the section; the frame it carries
      is the consumed frame at its index. */
  ghost predicate Honest(section: Section, consumed: seq<CoreFrame>) {
    && (if Reads(section.call) && section.open then
          && section.seen != []
          && (forall i :: 0 <= i < |section.seen| - 1 ==> Handle(section.call, section.seen[i]).None?)
          && Handle(section.call, section.seen[|section.seen| - 1]) == Some(section.reply)
        else
          section.seen == [] && section.reply == (if section.call.Cancel? then CancelDone else NoData))
    && (section.index.Some? <==> section.reply.GotFrame? || section.reply.GotBatch?)
    && (section.index.Some? ==>
          && section.index.value < |consumed|
          && var frame := consumed[section.index.value];
             if section.reply.GotFrame? then Shows(section.reply.frame, frame) else Holds(section.reply.result, frame))
  }

  ghost predicate PcInv(pc: Pc, s: State) {
    match pc
    case Holding(call, open, seen) =>
      && open == s.open
      && (forall i :: 0 <= i < |seen| ==> Handle(call, seen[i]).None?)
      && (seen != [] ==> open && BatchOnly(call))
    case Leaving(section) => Honest(section, s.consumed)
    case Returning(section) => Honest(section, s.consumed)
    case _ => true
  }

  ghost predicate HonestInv(s: State) {
    && (forall t :: 0 <= t < |s.pcs| ==> PcInv(s.pcs[t], s))
    && (forall k :: 0 <= k < |s.sections| ==> Honest(s.sections[k], s.consumed))
    && (forall k :: 0 <= k < |s.delivered| ==> Honest(s.delivered[k], s.consumed))
    && (forall k :: 0 <= k < |s.skipped| ==>
          && BatchOnly(s.skipped[k].call)
          && s.skipped[k].index < |s.consumed|
          && s.consumed[s.skipped[k].index].Barrier?)
  }

  lemma HonestGrows(section: Section, consumed: seq<CoreFrame>, frame: CoreFrame)
    requires Honest(section, consumed)
    ensures Honest(section, consumed + [frame])
  {}

  lemma CancelIsHonest(s: State, t: nat)
    requires HonestInv(s) && LockInv(s) && Enabled(s, CancelInner(t))
    ensures HonestInv(Apply(s, CancelInner(t)))
  {
    var s' := Apply(s, CancelInner(t));
    assert s'.consumed == s.consumed;
    forall u | 0 <= u < |s.pcs| ensures PcInv(s'.pcs[u], s') {
      assert PcInv(s.pcs[u], s);
      if u != t { assert !InSection(s.pcs[u]); }
    }
  }

  lemma MoverIsHonest(s: State, step: Step)
    requires Enabled(s, step) && !step.Take? && !step.CancelInner? && !step.Emit?
    requires PcInv(s.pcs[step.thread], s)
    ensures var s' := Apply(s, step);
      && s'.consumed == s.consumed && s'.open == s.open && s'.skipped == s.skipped
      && |s'.pcs| == |s.pcs| && PcInv(s'.pcs[step.thread], s')
  {}

  lemma MoveIsHonest(s: State, step: Step)
    requires HonestInv(s) && Enabled(s, step)
    requires !step.Take? && !step.CancelInner? && !step.Emit?
    ensures HonestInv(Apply(s, step))
  {
    var s' := Apply(s, step);
    assert PcInv(s.pcs[step.thread], s);
    MoverIsHonest(s, step);
    forall u | 0 <= u < |s.pcs| ensures PcInv(s'.pcs[u], s') {
      if u != step.thread { assert PcInv(s.pcs[u], s); }
    }
  }

  lemma HonestStep(s: State, step: Step)
    requires HonestInv(s) && LockInv(s)
    ensures HonestInv(Apply(s, step))
  {
    if Enabled(s, step) {
      match step
      case Take(t) => TakeIsHonest(s, t);
      case CancelInner(t) => CancelIsHonest(s, t);
      case Emit(_) => assert forall u :: 0 <= u < |s.pcs| && PcInv(s.pcs[u], s) ==> PcInv(s.pcs[u], Apply(s, step));
      case _ => MoveIsHonest(s, step);
    }
  }

  lemma TakeIsHonest(s: State, t: nat)
    requires HonestInv(s) && LockInv(s)
    requires Enabled(s, Take(t))
    ensures HonestInv(Apply(s, Take(t)))
  {
    var s' := Apply(s, Take(t));
    var frame := s.pending[0];
    assert s'.consumed == s.consumed + [frame];
    forall k | 0 <= k < |s.sections| ensures Honest(s'.sections[k], s'.consumed) {
      HonestGrows(s.sections[k], s.consumed, frame);
    }
    forall k | 0 <= k < |s.delivered| ensures Honest(s'.delivered[k], s'.consumed) {
      HonestGrows(s.delivered[k], s.consumed, frame);
    }
    forall u | 0 <= u < |s.pcs| ensures PcInv(s'.pcs[u], s') {
      if u != t && (s.pcs[u].Leaving? || s.pcs[u].Returning?) {
        assert PcInv(s.pcs[u], s);
        HonestGrows(s.pcs[u].section, s.consumed, frame);
      }
    }
  }

  lemma {:induction false} HonestAlways(threads: nat, run: seq<Step>)
    ensures HonestInv(After(threads, run))
  {
    if run != [] {
      HonestAlways(threads, run[..|run| - 1]);
      MutualExclusion(threads, run[..|run| - 1]);
      HonestStep(After(threads, run[..|run| - 1]), run[|run| - 1]);
    }
  }

  // ----- the history in lock order -------------------------------------------------------------

  function Calls(sections: seq<Section>): seq<Call> {
    seq(|sections|, i requires 0 <= i < |sections| => sections[i].call)
  }

  function Replies(sections: seq<Section>): seq<Reply> {
    seq(|sections|, i requires 0 <= i < |sections| => sections[i].reply)
  }

  function Seen(sections: seq<Section>): seq<Answer> {
    if sections == [] then [] else Seen(sections[..|sections| - 1]) + sections[|sections| - 1].seen
  }

  function PcAnswers(pc: Pc): seq<Answer> {
    match pc
    case Holding(_, _, seen) => seen
    case Leaving(section) => section.seen
    case _ => []
  }

  /** Answers given in the section now in progress. */
  function InProgress(s: State): seq<Answer> {
    if s.owner.Some? && s.owner.value < |s.pcs| then PcAnswers(s.pcs[s.owner.value]) else []
  }

  /** The core's queue is consumed from the front, and only by being answered with. */
  ghost predicate QueueInv(s: State) {
    s.consumed + s.pending == s.emitted && s.consumed == FramesOf(s.answers)
  }

  lemma QueueStep(s: State, step: Step)
    requires QueueInv(s)
    ensures QueueInv(Apply(s, step))
  {
    if !Enabled(s, step) {
      return;
    }
    match step
    case Take(t) =>
      FramesOfSnoc(s.answers, Frame(s.pending[0]));
      assert s.pending == [s.pending[0]] + s.pending[1..];
    case Answered(t, answer) =>
      FramesOfSnoc(s.answers, answer);
    case Emit(frame) =>
      assert s.consumed + (s.pending + [frame]) == (s.consumed + s.pending) + [frame];
    case _ =>
      assert Apply(s, step).answers == s.answers;
  }

  lemma {:induction false} QueueAlways(threads: nat, run: seq<Step>)
    ensures QueueInv(After(threads, run))
  {
    if run != [] {
      QueueAlways(threads, run[..|run| - 1]);
      QueueStep(After(threads, run[..|run| - 1]), run[|run| - 1]);
    }
  }

  /** The answers are those of the finished sections, in lock order, followed by those of the section in progress. */
  ghost predicate HistoryInv(s: State) {
    Seen(s.sections) + InProgress(s) == s.answers
  }

  lemma HistoryRead(s: State, step: Step)
    requires HistoryInv(s) && LockInv(s)
    requires Enabled(s, step) && (step.Take? || step.Answered?)
    ensures HistoryInv(Apply(s, step))
  {
    var s' := Apply(s, step);
    var answer := if step.Take? then Frame(s.pending[0]) else step.answer;
    assert s.owner == Some(step.thread);
    assert PcAnswers(s'.pcs[step.thread]) == PcAnswers(s.pcs[step.thread]) + [answer];
    assert Seen(s'.sections) + InProgress(s') == (Seen(s.sections) + InProgress(s)) + [answer];
  }

  lemma HistoryClose(s: State, step: Step)
    requires HistoryInv(s) && LockInv(s)
    requires Enabled(s, step) && (step.Release? || step.Probe?)
    ensures HistoryInv(Apply(s, step))
  {
    var s' := Apply(s, step);
    if s'.sections != s.sections {
      assert s'.sections[..|s.sections|] == s.sections;
    }
    assert InProgress(s') == [];
    assert Seen(s'.sections) == Seen(s.sections) + InProgress(s);
  }

  lemma HistoryStep(s: State, step: Step)
    requires HistoryInv(s) && LockInv(s) && HonestInv(s)
    ensures HistoryInv(Apply(s, step))
  {
    if !Enabled(s, step) || step.Emit? {
    } else if step.Take? || step.Answered? {
      HistoryRead(s, step);
    } else if step.Release? || step.Probe? {
      HistoryClose(s, step);
    } else {
      assert PcInv(s.pcs[step.thread], s);
      assert PcAnswers(Apply(s, step).pcs[step.thread]) == PcAnswers(s.pcs[step.thread]);
    }
  }

  lemma {:induction false} HistoryAlways(threads: nat, run: seq<Step>)
    ensures HistoryInv(After(threads, run))
  {
    if run != [] {
      HistoryAlways(threads, run[..|run| - 1]);
      MutualExclusion(threads, run[..|run| - 1]);
      HonestAlways(threads, run[..|run| - 1]);
      HistoryStep(After(threads, run[..|run| - 1]), run[|run| - 1]);
    }
  }

  // ----- cancellation --------------------------------------------------------------------------

  ghost predicate CancelInv(s: State) {
    && s.cancels == (if s.open then 0 else 1)
    && s.open == (NoCancel(s.sections) && !CancelLeaving(s))
    && (forall k :: 0 <= k < |s.sections| ==> s.sections[k].open == NoCancel(s.sections[..k]))
    && (forall t :: 0 <= t < |s.pcs| ==>
          && (s.pcs[t].Holding? ==> s.pcs[t].open == NoCancel(s.sections))
          && (s.pcs[t].Leaving? ==>
                s.pcs[t].section.open == NoCancel(s.sections)))
  }

  ghost predicate NoCancel(sections: seq<Section>) {
    forall k :: 0 <= k < |sections| ==> !sections[k].call.Cancel?
  }

  lemma NoCancelSnoc(sections: seq<Section>, last: Section)
    ensures NoCancel(sections + [last]) <==> NoCancel(sections) && !last.call.Cancel?
  {
    var all := sections + [last];
    assert all[|sections|] == last;
    assert forall k :: 0 <= k < |sections| ==> all[k] == sections[k];
  }

  ghost predicate CancelLeaving(s: State) {
    && s.owner.Some? && s.owner.value < |s.pcs|
    && s.pcs[s.owner.value].Leaving? && s.pcs[s.owner.value].section.call.Cancel?
  }

  lemma CancelSectionStep(s: State, step: Step)
    requires CancelInv(s) && LockInv(s)
    requires Enabled(s, step) && (step.Release? || step.Probe?)
    ensures CancelInv(Apply(s, step))
  {
    var s' := Apply(s, step);
    assert forall u :: 0 <= u < |s.pcs| && u != step.thread ==> s'.pcs[u] == s.pcs[u];
    if s'.sections != s.sections {
      NoCancelSnoc(s.sections, s'.sections[|s.sections|]);
      assert forall k :: 0 <= k <= |s.sections| ==> s'.sections[..k] == s.sections[..k];
      assert s'.sections[..|s.sections|] == s.sections;
    }
  }

  lemma CancelStep(s: State, step: Step)
    requires CancelInv(s) && LockInv(s)
    ensures CancelInv(Apply(s, step))
  {
    if !Enabled(s, step) || step.Emit? {
    } else if step.Release? || step.Probe? {
      CancelSectionStep(s, step);
    } else {
      var s' := Apply(s, step);
      assert s'.sections == s.sections;
      assert forall u :: 0 <= u < |s.pcs| && u != step.thread ==> s'.pcs[u] == s.pcs[u];
    }
  }

  lemma {:induction false} CancelAlways(threads: nat, run: seq<Step>)
    ensures CancelInv(After(threads, run))
  {
    if run != [] {
      CancelAlways(threads, run[..|run| - 1]);
      MutualExclusion(threads, run[..|run| - 1]);
      CancelStep(After(threads, run[..|run| - 1]), run[|run| - 1]);
    }
  }

  /** Cancelled, with nothing consumed and the core not touched since. */
  ghost predicate StaysCancelled(before: State, after: State) {
    !after.open && after.cancels == before.cancels == 1 && after.consumed == before.consumed
  }

  lemma CancelledStep(before: State, s: State, step: Step)
    requires StaysCancelled(before, s)
    ensures StaysCancelled(before, Apply(s, step))
  {}

  /** Once cancelled, nothing more is ever consumed and the core is not touched again, whatever the threads go on to
      do. */
  lemma {:induction false} NothingConsumedAfterCancel(threads: nat, run: seq<Step>, more: seq<Step>)
    requires !After(threads, run).open
    ensures StaysCancelled(After(threads, run), After(threads, run + more))
    decreases more
  {
    if more == [] {
      assert run + more == run;
      CancelAlways(threads, run);
    } else {
      var shorter, last := more[..|more| - 1], more[|more| - 1];
      assert more == shorter + [last];
      NothingConsumedAfterCancel(threads, run, shorter);
      ConcatAssoc(run, shorter, [last]);
      AfterSnoc(threads, run + shorter, last);
      CancelledStep(After(threads, run), After(threads, run + shorter), last);
    }
  }

  // ----- main results --------------------------------------------------------------------------

  /** In every interleaving: the frames consumed are a prefix of the frames emitted, and each of them is in exactly one
      place, once: dropped, on its way to one caller, or delivered to one caller. A batch is never dropped. */
  lemma EveryFrameHasOneFate(threads: nat, run: seq<Step>, i: nat)
    requires i < |After(threads, run).consumed|
    ensures var s := After(threads, run);
      && s.consumed <= s.emitted
      && Drops(s.skipped, i) + Deliveries(s.delivered, i) + InFlight(s.pcs, i) == 1
      && (s.consumed[i].Batch? ==> Drops(s.skipped, i) == 0)
  {
    var s := After(threads, run);
    ConservedAlways(threads, run, i);
    QueueAlways(threads, run);
    HonestAlways(threads, run);
    if s.consumed[i].Batch? {
      NotDropped(s.skipped, i, s.consumed);
    }
  }

  /** What is dropped is a barrier taken by a batch-only call. */
  lemma {:induction false} OnlyBarriersAreDropped(threads: nat, run: seq<Step>, k: nat)
    requires k < |After(threads, run).skipped|
    ensures var s := After(threads, run);
      var skip := s.skipped[k];
      BatchOnly(skip.call) && skip.index < |s.consumed| && s.consumed[skip.index].Barrier?
  {
    HonestAlways(threads, run);
  }

  /** A reply that reached its caller shows the frame it was made from, and is what the call does on its own. */
  lemma RepliesShowTheirFrames(threads: nat, run: seq<Step>, k: nat)
    requires k < |After(threads, run).delivered|
    ensures var s := After(threads, run); Honest(s.delivered[k], s.consumed)
  {
    HonestAlways(threads, run);
  }

  lemma {:induction false} NotDropped(skipped: seq<Skip>, i: nat, consumed: seq<CoreFrame>)
    requires i < |consumed| && consumed[i].Batch?
    requires forall k :: 0 <= k < |skipped| ==> skipped[k].index < |consumed| && consumed[skipped[k].index].Barrier?
    ensures Drops(skipped, i) == 0
  {
    if skipped != [] {
      NotDropped(skipped[..|skipped| - 1], i, consumed);
    }
  }

  /** When every call has returned, each batch frame consumed was returned to exactly one caller. */
  lemma QuiescentBatchesDeliveredOnce(threads: nat, run: seq<Step>, i: nat)
    requires forall t :: 0 <= t < |After(threads, run).pcs| ==> After(threads, run).pcs[t].Idle?
    requires i < |After(threads, run).consumed| && After(threads, run).consumed[i].Batch?
    ensures Deliveries(After(threads, run).delivered, i) == 1
  {
    EveryFrameHasOneFate(threads, run, i);
    IdleHoldsNothing(After(threads, run).pcs, i);
  }

  /** Linearizability: whatever the interleaving, the replies are those of the same calls made one after another, in
      lock order, by a single client to whom the core answers what it answered in those sections. */
  lemma LinearizedByTheLock(threads: nat, run: seq<Step>)
    ensures var s := After(threads, run);
      Replay(true, Calls(s.sections), Seen(s.sections)) == (Replies(s.sections), |Seen(s.sections)|)
  {
    var s := After(threads, run);
    HonestAlways(threads, run);
    CancelAlways(threads, run);
    ChainedFrom(s.sections, 0);
    assert s.sections[0..] == s.sections;
    assert Chained(true, s.sections);
    SectionsReplay(true, s.sections, s.consumed);
    SeenFrom(s.sections);
  }

  function SeenFront(sections: seq<Section>): seq<Answer> {
    if sections == [] then [] else sections[0].seen + SeenFront(sections[1..])
  }

  lemma {:induction false} SeenFrom(sections: seq<Section>)
    ensures Seen(sections) == SeenFront(sections)
  {
    if |sections| > 0 {
      var init, last := sections[..|sections| - 1], sections[|sections| - 1];
      SeenFrom(init);
      SeenFrontSnoc(init, last);
      assert sections == init + [last];
    }
  }

  lemma {:induction false} SeenFrontSnoc(sections: seq<Section>, last: Section)
    ensures SeenFront(sections + [last]) == SeenFront(sections) + last.seen
  {
    if sections == [] {
      assert [last][1..] == [] && sections + [last] == [last];
    } else {
      assert (sections + [last])[1..] == sections[1..] + [last];
      SeenFrontSnoc(sections[1..], last);
    }
  }

  /** One critical section is one call of the sequential client. */
  lemma SectionReplay(section: Section, consumed: seq<CoreFrame>, calls: seq<Call>, rest: seq<Answer>)
    requires Honest(section, consumed)
    ensures var (replies, used) := Replay(section.open && !section.call.Cancel?, calls, rest);
      Replay(section.open, [section.call] + calls, section.seen + rest)
      == ([section.reply] + replies, |section.seen| + used)
  {
    var all := [section.call] + calls;
    assert all[0] == section.call && all[1..] == calls;
    if Reads(section.call) && section.open {
      ServeIsLocal(section.call, section.seen, rest);
      assert (section.seen + rest)[|section.seen|..] == rest;
    } else {
      assert section.seen + rest == rest;
    }
  }

  /** Each section found the core there exactly if no earlier one had cancelled it. */
  ghost predicate Chained(open: bool, sections: seq<Section>) {
    sections == [] ||
    (sections[0].open == open && Chained(open && !sections[0].call.Cancel?, sections[1..]))
  }

  lemma {:induction false} ChainedFrom(all: seq<Section>, k: nat)
    requires k <= |all|
    requires forall i :: 0 <= i < |all| ==> all[i].open == NoCancel(all[..i])
    ensures Chained(NoCancel(all[..k]), all[k..])
    decreases |all| - k
  {
    if k < |all| {
      ChainedFrom(all, k + 1);
      assert all[..k + 1] == all[..k] + [all[k]];
      NoCancelSnoc(all[..k], all[k]);
      assert all[k..][1..] == all[k + 1..];
    }
  }

  /** The replies of the sections are those of their calls, replayed. */
  ghost predicate Replayed(open: bool, sections: seq<Section>) {
    Replay(open, Calls(sections), SeenFront(sections)) == (Replies(sections), |SeenFront(sections)|)
  }

  lemma ReplayedCons(section: Section, tail: seq<Section>, consumed: seq<CoreFrame>)
    requires Honest(section, consumed) && Replayed(section.open && !section.call.Cancel?, tail)
    ensures Replayed(section.open, [section] + tail)
  {
    SectionsCons(section, tail);
    SectionReplay(section, consumed, Calls(tail), SeenFront(tail));
  }

  lemma ReplayedNone(open: bool)
    ensures Replayed(open, [])
  {
    assert Calls([]) == [] && Replies([]) == [];
  }

  lemma {:induction false} SectionsReplay(open: bool, sections: seq<Section>, consumed: seq<CoreFrame>)
    requires Chained(open, sections)
    requires forall i :: 0 <= i < |sections| ==> Honest(sections[i], consumed)
    ensures Replayed(open, sections)
    decreases |sections|
  {
    if sections == [] {
      ReplayedNone(open);
    } else {
      var section, tail := sections[0], sections[1..];
      assert forall i :: 0 <= i < |tail| ==> tail[i] == sections[i + 1];
      SectionsReplay(open && !section.call.Cancel?, tail, consumed);
      assert sections == [section] + tail;
      ReplayedCons(section, tail, consumed);
    }
  }

  lemma SectionsCons(section: Section, tail: seq<Section>)
    ensures Calls([section] + tail) == [section.call] + Calls(tail)
    ensures Replies([section] + tail) == [section.reply] + Replies(tail)
    ensures SeenFront([section] + tail) == section.seen + SeenFront(tail)
  {
    assert ([section] + tail)[1..] == tail;
  }

  /** So the results handed out by all threads together, in lock order, are exactly the batches among the core's
      answers. */
  lemma ThreadsShareTheBatchStream(threads: nat, run: seq<Step>)
    ensures var s := After(threads, run); AllResults(Replies(s.sections)) == BatchesOf(Seen(s.sections))
  {
    var s := After(threads, run);
    LinearizedByTheLock(threads, run);
    ReplayDelivers(true, Calls(s.sections), Seen(s.sections));
    assert Seen(s.sections)[..|Seen(s.sections)|] == Seen(s.sections);
  }

  /** When no section is in progress, the frames consumed are those among these answers. */
  lemma QuietConsumedIsSeen(threads: nat, run: seq<Step>)
    requires After(threads, run).owner.None?
    ensures var s := After(threads, run); s.consumed == FramesOf(Seen(s.sections)) && s.consumed <= s.emitted
  {
    var s := After(threads, run);
    QueueAlways(threads, run);
    HistoryAlways(threads, run);
    assert Seen(s.sections) + [] == Seen(s.sections);
  }
}
