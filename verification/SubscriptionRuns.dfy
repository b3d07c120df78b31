/** What the runs of `SubscriptionMachine` include: every sequential history, and from every state a way for each call
    to return. */
module SubscriptionRuns {
  import opened Common
  import opened Frames
  import opened SubscriptionMachine

  /** Where the runs start from. */
  datatype From = From(threads: nat, run: seq<Step>)

  /** Some continuation of the run leads to the state. */
  ghost predicate Reached(from: From, s: State) {
    exists more: seq<Step> :: After(from.threads, from.run + more) == s
  }

  lemma Stay(from: From)
    ensures Reached(from, After(from.threads, from.run))
  {
    assert from.run + [] == from.run;
  }

  lemma Reach(from: From, s: State, step: Step)
    requires Reached(from, s)
    ensures Reached(from, Apply(s, step))
  {
    var more: seq<Step> :| After(from.threads, from.run + more) == s;
    ConcatAssoc(from.run, more, [step]);
    AfterSnoc(from.threads, from.run + more, step);
  }

  // ----- a call with the lock reads what the core answers --------------------------------------

  /** The answers a call reads from a script: up to the one that decides its reply, or to the core having nothing. */
  function Reading(call: Call, script: seq<Answer>): (read: seq<Answer>)
    ensures read != []
  {
    if script == [] then [Nothing]
    else if Handle(call, script[0]).Some? then [script[0]]
    else [script[0]] + Reading(call, script[1..])
  }

  /** The thread has the lock and has read some answers so far. */
  ghost predicate Reads(s: State, t: nat, call: Call, seen: seq<Answer>) {
    && t < |s.pcs| && s.pcs[t] == Holding(call, true, seen) && s.open
    && SubscriptionMachine.Reads(call)
  }

  /** One more answer, from the queue if it is a frame. */
  function ReadStep(t: nat, answer: Answer): Step {
    if answer.Frame? then Take(t) else Answered(t, answer)
  }

  /** A thread that reads can always take the frame at the front of the queue, or be told anything else; it then goes on
      or has its reply. */
  lemma AnyAnswerCanCome(s: State, t: nat, call: Call, seen: seq<Answer>, answer: Answer, rest: seq<CoreFrame>)
    requires Reads(s, t, call, seen)
    requires s.pending == (if answer.Frame? then [answer.frame] else []) + rest
    ensures var s' := Apply(s, ReadStep(t, answer));
      && s' == s.(pending := rest, pcs := s'.pcs, consumed := s'.consumed, answers := s'.answers, skipped := s'.skipped)
      && s'.pcs == s.pcs[t := s'.pcs[t]]
      && (match Handle(call, answer)
          case None => Reads(s', t, call, seen + [answer])
          case Some(reply) => HasReply(s', t, call, seen + [answer], reply))
  {
    assert s.pending[if answer.Frame? then 1 else 0..] == rest;
  }

  /** What a section changes while it has the lock. */
  ghost predicate OnlyReads(s: State, s': State, t: nat) {
    && t < |s.pcs| && |s'.pcs| == |s.pcs| && s'.pcs == s.pcs[t := s'.pcs[t]]
    && s'.emitted == s.emitted && s'.open == s.open && s'.owner == s.owner
    && s'.sections == s.sections && s'.delivered == s.delivered
  }

  lemma ReadOnce(from: From, s: State, t: nat, call: Call, seen: seq<Answer>, answer: Answer, rest: seq<CoreFrame>)
      returns (s': State)
    requires Reached(from, s) && Reads(s, t, call, seen)
    requires s.pending == (if answer.Frame? then [answer.frame] else []) + rest
    ensures Reached(from, s') && OnlyReads(s, s', t) && s'.pending == rest
    ensures match Handle(call, answer)
      case None => Reads(s', t, call, seen + [answer])
      case Some(reply) => HasReply(s', t, call, seen + [answer], reply)
  {
    AnyAnswerCanCome(s, t, call, seen, answer, rest);
    Reach(from, s, ReadStep(t, answer));
    s' := Apply(s, ReadStep(t, answer));
  }

  ghost predicate HasReply(s: State, t: nat, call: Call, seen: seq<Answer>, reply: Reply) {
    && t < |s.pcs| && s.pcs[t].Leaving?
    && var section := s.pcs[t].section;
       section.call == call && section.seen == seen && section.reply == reply
  }

  lemma ServeGoesOn(call: Call, script: seq<Answer>)
    requires script != [] && Handle(call, script[0]).None?
    ensures var (reply, used) := Serve(call, script[1..]);
      Serve(call, script) == (reply, used + 1) && script[used + 1..] == script[1..][used..]
  {}

  lemma OnlyReadsOn(s: State, s1: State, s': State, t: nat)
    requires OnlyReads(s, s1, t) && OnlyReads(s1, s', t)
    ensures OnlyReads(s, s', t)
  {}

  lemma {:induction false} ReadRuns(from: From, s: State, t: nat, call: Call, seen: seq<Answer>, script: seq<Answer>)
      returns (s': State)
    requires Reached(from, s) && Reads(s, t, call, seen) && s.pending == FramesOf(script)
    ensures Reached(from, s') && OnlyReads(s, s', t)
    ensures var (reply, used) := Serve(call, script);
      s'.pending == FramesOf(script[used..]) && HasReply(s', t, call, seen + Reading(call, script), reply)
    decreases script
  {
    if script == [] {
      s' := ReadOnce(from, s, t, call, seen, Nothing, []);
    } else if Handle(call, script[0]).Some? {
      s' := ReadOnce(from, s, t, call, seen, script[0], FramesOf(script[1..]));
    } else {
      var s1 := ReadOnce(from, s, t, call, seen, script[0], FramesOf(script[1..]));
      s' := ReadRuns(from, s1, t, call, seen + [script[0]], script[1..]);
      OnlyReadsOn(s, s1, s', t);
      ServeGoesOn(call, script);
      ConcatAssoc(seen, [script[0]], Reading(call, script[1..]));
    }
  }

  // ----- a whole critical section --------------------------------------------------------------

  /** A call alone: its reply, the answers it reads, and how many of them the script held. */
  function Turn(open: bool, call: Call, script: seq<Answer>): (Reply, seq<Answer>, nat) {
    if call.Cancel? then (CancelDone, [], 0)
    else if !open || call.IsActive? then (NoData, [], 0)
    else (Serve(call, script).0, Reading(call, script), Serve(call, script).1)
  }

  /** The lock is free and the thread wants it for the call. */
  ghost predicate Asks(from: From, s: State, t: nat, call: Call) {
    Reached(from, s) && s.owner.None? && t < |s.pcs| && s.pcs[t] == Waiting(call)
  }

  lemma AcquireRuns(from: From, s: State, t: nat, call: Call) returns (s': State)
    requires Asks(from, s, t, call)
    ensures Reached(from, s')
    ensures s' == s.(owner := Some(t), pcs := s.pcs[t := Holding(call, s.open, [])])
  {
    Reach(from, s, Acquire(t));
    s' := Apply(s, Acquire(t));
  }

  /** With the lock, up to the reply. */
  lemma HoldingRuns(from: From, s: State, t: nat, call: Call, script: seq<Answer>) returns (s': State)
    requires Reached(from, s) && t < |s.pcs| && s.pcs[t] == Holding(call, s.open, [])
    requires s.pending == FramesOf(script)
    ensures Reached(from, s') && OnlyReads(s.(open := s.open && !call.Cancel?), s', t)
    ensures var (reply, read, used) := Turn(s.open, call, script);
      s'.pending == FramesOf(script[used..]) && HasReply(s', t, call, read, reply)
  {
    if call.Cancel? {
      Reach(from, s, CancelInner(t));
      s' := Apply(s, CancelInner(t));
    } else if !s.open || call.IsActive? {
      Reach(from, s, FindClosed(t));
      s' := Apply(s, FindClosed(t));
    } else {
      s' := ReadRuns(from, s, t, call, [], script);
      assert [] + Reading(call, script) == Reading(call, script);
    }
  }

  /** The lock given back and the reply handed over. */
  lemma LeavingRuns(from: From, s: State, t: nat) returns (s': State)
    requires Reached(from, s) && t < |s.pcs| && s.pcs[t].Leaving?
    ensures Reached(from, s')
    ensures var section := s.pcs[t].section;
      s' == s.(owner := None, pcs := s.pcs[t := Idle], sections := s.sections + [section],
               delivered := s.delivered + [section])
  {
    Reach(from, s, Release(t));
    s' := Apply(s, Release(t));
    Reach(from, s', Deliver(t));
    s' := Apply(s', Deliver(t));
    assert s'.pcs == s.pcs[t := Idle];
  }

  /** The call returned, and its section is the last. */
  ghost predicate Returned(s: State, s': State, t: nat, section: Section) {
    && t < |s.pcs| && s'.pcs == s.pcs[t := Idle] && s'.owner.None?
    && s'.emitted == s.emitted
    && s'.open == (s.open && !section.call.Cancel?)
    && s'.sections == s.sections + [section] && s'.delivered == s.delivered + [section]
  }

  lemma CallRuns(from: From, s: State, t: nat, call: Call, script: seq<Answer>) returns (s': State, section: Section)
    requires Asks(from, s, t, call) && s.pending == FramesOf(script)
    ensures Reached(from, s') && Returned(s, s', t, section)
    ensures var (reply, read, used) := Turn(s.open, call, script);
      && section.call == call && section.reply == reply && section.seen == read
      && s'.pending == FramesOf(script[used..])
  {
    var s1 := AcquireRuns(from, s, t, call);
    var s2 := HoldingRuns(from, s1, t, call, script);
    section := s2.pcs[t].section;
    s' := LeavingRuns(from, s2, t);
  }

  // ----- one call after another ----------------------------------------------------------------

  /** All the answers read by calls made one after another. */
  function ReadAll(open: bool, calls: seq<Call>, script: seq<Answer>): seq<Answer> {
    if calls == [] then []
    else
      var (_, read, used) := Turn(open, calls[0], script);
      read + if used <= |script| then ReadAll(open && !calls[0].Cancel?, calls[1..], script[used..]) else []
  }

  function Dry(n: nat): seq<Answer> {
    seq(n, _ => Nothing)
  }

  lemma {:induction false} ReadingIs(call: Call, script: seq<Answer>)
    ensures var used := Serve(call, script).1;
      Reading(call, script) == script[..used] || (used == |script| && Reading(call, script) == script + [Nothing])
  {
    if script != [] && Handle(call, script[0]).None? {
      ReadingIs(call, script[1..]);
      var used := Serve(call, script[1..]).1;
      assert script[..used + 1] == [script[0]] + script[1..][..used];
      assert [script[0]] + (script[1..] + [Nothing]) == script + [Nothing];
    }
  }

  lemma TurnReads(open: bool, call: Call, script: seq<Answer>)
    ensures var (_, read, n) := Turn(open, call, script);
      n <= |script| && (read == script[..n] || (n == |script| && read == script + [Nothing]))
  {
    ReadingIs(call, script);
  }

  /** The answers are the first `used` of the script and then nothing, `dry` times, once it is used up. */
  ghost predicate UsesUp(read: seq<Answer>, script: seq<Answer>, used: nat, dry: nat) {
    used <= |script| && read == script[..used] + Dry(dry) && (dry > 0 ==> used == |script|)
  }

  /** What a turn reads, and then the later ones. */
  lemma ReadsJoin(script: seq<Answer>, read: seq<Answer>, n: nat, later: seq<Answer>, used: nat, dry: nat)
      returns (dry': nat)
    requires n <= |script| && (read == script[..n] || (n == |script| && read == script + [Nothing]))
    requires UsesUp(later, script[n..], used, dry)
    ensures UsesUp(read + later, script, n + used, dry')
  {
    dry' := dry;
    if read == script[..n] {
      TakeSplit(script, n, used);
    } else {
      dry' := dry + 1;
      assert script[n..][..used] == [] && script[..n + used] == script;
    }
  }

  lemma ReplayGoesOn(open: bool, calls: seq<Call>, script: seq<Answer>)
    requires calls != []
    ensures var (_, read, n) := Turn(open, calls[0], script);
      var open' := open && !calls[0].Cancel?;
      && n <= |script|
      && Replay(open, calls, script).1 == n + Replay(open', calls[1..], script[n..]).1
      && ReadAll(open, calls, script) == read + ReadAll(open', calls[1..], script[n..])
  {
    assert script[0..] == script;
  }

  /** They are what the sequential client uses up of the script; once it is dry, the core has nothing. */
  lemma {:induction false} ReadAllIs(open: bool, calls: seq<Call>, script: seq<Answer>) returns (dry: nat)
    ensures UsesUp(ReadAll(open, calls, script), script, Replay(open, calls, script).1, dry)
    decreases calls
  {
    if calls == [] {
      dry := 0;
    } else {
      var (_, read, n) := Turn(open, calls[0], script);
      TurnReads(open, calls[0], script);
      ReplayGoesOn(open, calls, script);
      var open', rest := open && !calls[0].Cancel?, script[n..];
      dry := ReadAllIs(open', calls[1..], rest);
      dry := ReadsJoin(script, read, n, ReadAll(open', calls[1..], rest), Replay(open', calls[1..], rest).1, dry);
    }
  }

  /** Threads `k` and up want the lock for the calls, in order; the others are idle. */
  ghost predicate Queued(s: State, k: nat, calls: seq<Call>) {
    && s.owner.None? && |s.pcs| == k + |calls|
    && (forall i :: 0 <= i < k ==> s.pcs[i].Idle?)
    && (forall i :: 0 <= i < |calls| ==> s.pcs[k + i] == Waiting(calls[i]))
  }

  /** The sections of a sequential history. */
  ghost predicate Played(open: bool, calls: seq<Call>, script: seq<Answer>, sections: seq<Section>) {
    && Calls(sections) == calls
    && Replies(sections) == Replay(open, calls, script).0
    && SeenFront(sections) == ReadAll(open, calls, script)
  }

  lemma PlayedCons(open: bool, calls: seq<Call>, script: seq<Answer>, section: Section, later: seq<Section>)
    requires calls != [] && section.call == calls[0]
    requires var (reply, read, _) := Turn(open, calls[0], script); section.reply == reply && section.seen == read
    requires Played(open && !calls[0].Cancel?, calls[1..], script[Turn(open, calls[0], script).2..], later)
    ensures Played(open, calls, script, [section] + later)
  {
    SectionsCons(section, later);
    assert calls == [calls[0]] + calls[1..];
  }

  lemma {:induction false} HistoryRuns(from: From, s: State, k: nat, calls: seq<Call>, script: seq<Answer>)
      returns (s': State, sections: seq<Section>)
    requires Reached(from, s) && Queued(s, k, calls) && s.pending == FramesOf(script)
    ensures Reached(from, s') && Queued(s', k + |calls|, [])
    ensures s'.emitted == s.emitted
    ensures s'.sections == s.sections + sections && s'.delivered == s.delivered + sections
    ensures Played(s.open, calls, script, sections)
    decreases calls
  {
    if calls == [] {
      s', sections := s, [];
      assert Calls([]) == [] && Replies([]) == [];
    } else {
      var s1, section := CallRuns(from, s, k, calls[0], script);
      var used := Turn(s.open, calls[0], script).2;
      var later;
      s', later := HistoryRuns(from, s1, k + 1, calls[1..], script[used..]);
      sections := [section] + later;
      PlayedCons(s.open, calls, script, section, later);
      ConcatAssoc(s.sections, [section], later);
      ConcatAssoc(s.delivered, [section], later);
    }
  }

  /** The core produces these frames. */
  lemma {:induction false} EmitRuns(from: From, frames: seq<CoreFrame>) returns (s: State)
    requires from.run == []
    ensures Reached(from, s) && s == Init(from.threads).(emitted := frames, pending := frames)
    decreases frames
  {
    if frames == [] {
      s := Init(from.threads);
      Stay(from);
    } else {
      var init, last := frames[..|frames| - 1], frames[|frames| - 1];
      s := EmitRuns(from, init);
      Reach(from, s, Emit(last));
      s := Apply(s, Emit(last));
      assert frames == init + [last];
    }
  }

  /** An idle thread comes to want the lock for a call; `__anext__` has then found the subscription active. */
  lemma StartRuns(from: From, s: State, t: nat, call: Call) returns (s': State)
    requires Reached(from, s) && s.owner.None? && s.open && t < |s.pcs| && s.pcs[t].Idle?
    ensures Reached(from, s') && s' == s.(pcs := s.pcs[t := Waiting(call)])
  {
    Reach(from, s, Start(t, call));
    s' := Apply(s, Start(t, call));
    if call.AsyncNext? {
      Reach(from, s', Probe(t, true));
      s' := Apply(s', Probe(t, true));
      assert s'.pcs == s.pcs[t := Waiting(call)];
    }
  }

  lemma {:induction false} AllStart(from: From, s: State, calls: seq<Call>, n: nat) returns (s': State)
    requires Reached(from, s) && s.owner.None? && s.open && n <= |calls|
    requires s.pcs == seq(|calls|, _ => Idle)
    ensures Reached(from, s') && s' == s.(pcs := s'.pcs) && |s'.pcs| == |calls|
    ensures forall i :: 0 <= i < |calls| ==> s'.pcs[i] == if i < n then Waiting(calls[i]) else Idle
  {
    s' := s;
    if n > 0 {
      s' := AllStart(from, s, calls, n - 1);
      s' := StartRuns(from, s', n - 1, calls[n - 1]);
    }
  }

  ghost predicate AllIdle(s: State) {
    forall t :: 0 <= t < |s.pcs| ==> s.pcs[t].Idle?
  }

  lemma HistoryIsReached(from: From, calls: seq<Call>, script: seq<Answer>) returns (s: State)
    requires from == From(|calls|, [])
    ensures Reached(from, s) && AllIdle(s) && s.emitted == FramesOf(script) && s.delivered == s.sections
    ensures Calls(s.sections) == calls && Replies(s.sections) == Replay(true, calls, script).0
    ensures Seen(s.sections) == ReadAll(true, calls, script)
  {
    var s0 := EmitRuns(from, FramesOf(script));
    var s1 := AllStart(from, s0, calls, |calls|);
    var sections;
    s, sections := HistoryRuns(from, s1, 0, calls, script);
    assert [] + sections == sections;
    SeenFrom(sections);
  }

  /** The history of a run is these calls on this script, the core having nothing `dry` times once the script is used
      up; every reply has reached its caller. */
  ghost predicate IsHistory(s: State, calls: seq<Call>, script: seq<Answer>, dry: nat) {
    var (replies, used) := Replay(true, calls, script);
    && Calls(s.sections) == calls && Replies(s.sections) == replies
    && UsesUp(Seen(s.sections), script, used, dry)
    && s.emitted == FramesOf(script) && s.delivered == s.sections && AllIdle(s)
  }

  /** The converse of linearizability: every list of calls on every script of answers is the history of some run, with
      the replies of the sequential client and exactly the answers it uses up. */
  lemma EveryHistoryHasARun(calls: seq<Call>, script: seq<Answer>)
    ensures exists run: seq<Step>, dry: nat :: IsHistory(After(|calls|, run), calls, script, dry)
  {
    var from := From(|calls|, []);
    var s := HistoryIsReached(from, calls, script);
    var dry := ReadAllIs(true, calls, script);
    var run: seq<Step> :| After(|calls|, [] + run) == s;
    assert [] + run == run;
    assert IsHistory(After(|calls|, run), calls, script, dry);
  }

  /** The asynchronous iterator looks first: it comes to ask for a batch if and only if the subscription is there and
      active, and ends without touching the core otherwise. */
  lemma IterationEndsWhenInactive(s: State, t: nat, active: bool)
    requires t < |s.pcs| && s.pcs[t].Idle? && s.owner.None?
    ensures var s' := Apply(Apply(s, Start(t, AsyncNext)), Probe(t, active));
      && s'.answers == s.answers && s'.pending == s.pending && s'.open == s.open
      && (if s.open && active then s'.pcs[t] == Waiting(AsyncNext) && s'.sections == s.sections
          else
            && s'.pcs[t].Returning? && s'.pcs[t].section.reply == NoData
            && s'.sections == s.sections + [s'.pcs[t].section])
  {}

  // ----- every call can return -----------------------------------------------------------------

  /** The thread's call returned; nothing was consumed and no other thread moved. */
  ghost predicate Finished(s: State, s': State, t: nat) {
    && t < |s.pcs| && s'.pcs == s.pcs[t := Idle] && s'.owner.None?
    && s'.consumed == s.consumed && s'.pending == s.pending
  }

  /** With the lock: the core has nothing for the call. */
  lemma HolderReturns(from: From, s: State, t: nat) returns (s': State)
    requires Reached(from, s) && t < |s.pcs| && InSection(s.pcs[t])
    requires s.pcs[t].Holding? ==> s.pcs[t].open == s.open
    ensures Reached(from, s') && Finished(s, s', t)
  {
    s' := s;
    if s.pcs[t].Holding? {
      var call := s.pcs[t].call;
      var step := if call.Cancel? then CancelInner(t)
                  else if !s.open || call.IsActive? then FindClosed(t) else Answered(t, Nothing);
      Reach(from, s, step);
      s' := Apply(s, step);
    }
    s' := LeavingRuns(from, s', t);
    assert s'.pcs == s.pcs[t := Idle];
  }

  lemma DeliverRuns(from: From, s: State, t: nat) returns (s': State)
    requires Reached(from, s) && t < |s.pcs| && s.owner.None? && s.pcs[t].Returning?
    ensures Reached(from, s') && Finished(s, s', t)
  {
    Reach(from, s, Deliver(t));
    s' := Apply(s, Deliver(t));
  }

  lemma WaitingReturns(from: From, s: State, t: nat) returns (s': State)
    requires Reached(from, s) && t < |s.pcs| && s.owner.None? && s.pcs[t].Waiting?
    ensures Reached(from, s') && Finished(s, s', t)
  {
    var s1 := AcquireRuns(from, s, t, s.pcs[t].call);
    s' := HolderReturns(from, s1, t);
    assert s1.pcs[t := Idle] == s.pcs[t := Idle];
  }

  lemma ProbingReturns(from: From, s: State, t: nat) returns (s': State)
    requires Reached(from, s) && t < |s.pcs| && s.owner.None? && s.pcs[t].Probing?
    ensures Reached(from, s') && Finished(s, s', t)
  {
    Reach(from, s, Probe(t, false));
    var s1 := Apply(s, Probe(t, false));
    s' := DeliverRuns(from, s1, t);
    assert s1.pcs[t := Idle] == s.pcs[t := Idle];
  }

  /** Without the lock, which is free. */
  lemma OtherReturns(from: From, s: State, t: nat) returns (s': State)
    requires Reached(from, s) && t < |s.pcs| && s.owner.None? && !InSection(s.pcs[t])
    ensures Reached(from, s') && Finished(s, s', t)
  {
    match s.pcs[t]
    case Waiting(_) => s' := WaitingReturns(from, s, t);
    case Probing => s' := ProbingReturns(from, s, t);
    case Returning(_) => s' := DeliverRuns(from, s, t);
    case Idle =>
      s' := s;
      assert s.pcs[t := Idle] == s.pcs;
  }

  /** All threads below `n` are idle. */
  lemma {:induction false} AllReturn(from: From, s: State, n: nat) returns (s': State)
    requires Reached(from, s) && s.owner.None? && n <= |s.pcs|
    requires forall t :: 0 <= t < |s.pcs| ==> !InSection(s.pcs[t])
    ensures Reached(from, s') && s'.owner.None? && s'.consumed == s.consumed && |s'.pcs| == |s.pcs|
    ensures forall t :: 0 <= t < |s.pcs| ==> if t < n then s'.pcs[t].Idle? else s'.pcs[t] == s.pcs[t]
  {
    s' := s;
    if n > 0 {
      s' := AllReturn(from, s, n - 1);
      s' := OtherReturns(from, s', n - 1);
    }
  }

  lemma OwnerStays(s: State, step: Step)
    requires s.owner.Some? ==> s.owner.value < |s.pcs|
    ensures var s' := Apply(s, step); s'.owner.Some? ==> s'.owner.value < |s'.pcs|
  {}

  lemma {:induction false} OwnerIsThere(threads: nat, run: seq<Step>)
    ensures var s := After(threads, run); s.owner.Some? ==> s.owner.value < |s.pcs|
  {
    if run != [] {
      OwnerIsThere(threads, run[..|run| - 1]);
      OwnerStays(After(threads, run[..|run| - 1]), run[|run| - 1]);
    }
  }

  /** No run is ever stuck: it has a continuation in which every call returns, and without another frame. */
  lemma EveryCallCanReturn(threads: nat, run: seq<Step>)
    ensures exists more: seq<Step> :: var later := After(threads, run + more);
      AllIdle(later) && |later.pcs| == threads && later.consumed == After(threads, run).consumed
  {
    var from, s := From(threads, run), After(threads, run);
    Stay(from);
    MutualExclusion(threads, run);
    HonestAlways(threads, run);
    OwnerIsThere(threads, run);
    var s1 := s;
    if s.owner.Some? {
      assert PcInv(s.pcs[s.owner.value], s);
      s1 := HolderReturns(from, s, s.owner.value);
    }
    var s2 := AllReturn(from, s1, threads);
    var more: seq<Step> :| After(threads, run + more) == s2;
    assert AllIdle(After(threads, run + more));
  }
}
