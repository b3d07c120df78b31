/** The converse of `CallbackMachine.RunsFollowTheCode`: whatever the code's loop can do, some run of the machine
    does. */
module CallbackRuns {
  import opened Common
  import opened Frames
  import opened Callbacks
  import opened CallbackMachine

  ghost predicate Reached(c: Config, s: State) {
    exists run :: After(c, run) == s
  }

  lemma Reach(c: Config, s: State, step: Step)
    requires Reached(c, s)
    ensures Reached(c, Apply(c, s, step))
  {
    var run :| After(c, run) == s;
    AfterSnoc(c, run, step);
  }

  /** The next pass finds the flag clear and the source active, and the core will answer as scripted. */
  ghost predicate AtStart(c: Config, s: State, answers: seq<Answer>) {
    && Reached(c, s) && s.pc.AtTop? && Undisturbed(s)
    && s.pending == FramesOf(answers)
  }

  ghost predicate Undisturbed(s: State) {
    !s.cancelled && s.sourceActive
  }

  /** Where a poll leaves the thread. */
  ghost predicate Polled(s: State, s': State, polled: Callbacks.Polled) {
    match polled
    case Quiet => s'.pc.AtTop? && s'.log == s.log
    case Got(result) => s'.pc.AtData? && s'.pc.result == result && s'.log == s.log
    case Broken(error) => s'.pc.AtError? && s'.log == s.log + [SourceFailed(error)]
  }

  lemma PollOnce(c: Config, s: State, answer: Answer, rest: seq<Frames.CoreFrame>)
    requires s.pc.AtPoll? && s.pending == (if answer.Frame? then [answer.frame] else []) + rest
    ensures var s' := Apply(c, s, PollCore(answer));
      && s'.cancelled == s.cancelled && s'.sourceActive == s.sourceActive && s'.pending == rest
      && (if IsBarrier(answer) then s'.pc.AtPoll? && s'.log == s.log
          else Polled(s, s', Poll(c.kind, [answer]).0))
  {
    assert s.pending[|Taken(PollCore(answer))|..] == rest;
  }

  lemma {:induction false} PollRuns(c: Config, s: State, answers: seq<Answer>) returns (s': State)
    requires Reached(c, s) && s.pc.AtPoll? && Undisturbed(s) && s.pending == FramesOf(answers)
    ensures Reached(c, s') && Undisturbed(s')
    ensures var (polled, used) := Poll(c.kind, answers);
      Polled(s, s', polled) && s'.pending == FramesOf(answers[used..])
    decreases answers
  {
    if answers == [] {
      PollOnce(c, s, Nothing, []);
      Reach(c, s, PollCore(Nothing));
      s' := Apply(c, s, PollCore(Nothing));
    } else {
      var answer, rest := answers[0], answers[1..];
      PollOnce(c, s, answer, FramesOf(rest));
      Reach(c, s, PollCore(answer));
      s' := Apply(c, s, PollCore(answer));
      if IsBarrier(answer) {
        s' := PollRuns(c, s', rest);
        var used := Poll(c.kind, rest).1;
        assert answers[used + 1..] == rest[used..];
      } else {
        assert answers[1..] == rest;
      }
    }
  }

  /** What the thread does with what it polled. */
  lemma ActRuns(c: Config, before: State, s: State, polled: Callbacks.Polled, o: Observed) returns (s': State)
    requires Reached(c, s) && Undisturbed(s) && Polled(before, s, polled)
    ensures Reached(c, s') && Undisturbed(s') && s'.pending == s.pending
    ensures s'.log == before.log + Work(c.hasHandler, Pass(o, polled))
    ensures var work := Work(c.hasHandler, Pass(o, polled));
      if work != [] && Ends(work[|work| - 1]) then s'.pc.AtStop? else s'.pc.AtTop?
  {
    s' := s;
    match polled
    case Quiet =>
    case Got(_) =>
      Reach(c, s, CallData(o.attached, o.dataOk));
      s' := Apply(c, s, CallData(o.attached, o.dataOk));
      if o.attached && !o.dataOk {
        s' := HandleRuns(c, s', o.handlerOk);
      }
    case Broken(_) =>
      Reach(c, s, Attach(o.attached));
      s' := Apply(c, s, Attach(o.attached));
      if o.attached {
        s' := HandleRuns(c, s', o.handlerOk);
      }
  }

  lemma HandleRuns(c: Config, s: State, ok: bool) returns (s': State)
    requires Reached(c, s) && Undisturbed(s) && s.pc.AtHandler?
    ensures Reached(c, s') && Undisturbed(s') && s'.pending == s.pending
    ensures var event := HandlerEvent(c.hasHandler, ok);
      s'.log == s.log + [event] && if Ends(event) then s'.pc.AtStop? else s'.pc.AtTop?
  {
    Reach(c, s, CallHandler(ok));
    s' := Apply(c, s, CallHandler(ok));
  }

  /** The flag is clear and the source active: the thread polls. */
  lemma StartRuns(c: Config, s: State) returns (s': State)
    requires Reached(c, s) && s.pc.AtTop? && Undisturbed(s)
    ensures Reached(c, s') && s'.pc.AtPoll? && Undisturbed(s') && s'.log == s.log && s'.pending == s.pending
  {
    Reach(c, s, CheckFlag);
    s' := Apply(c, s, CheckFlag);
    Reach(c, s', CheckActive);
    s' := Apply(c, s', CheckActive);
  }

  lemma StopRuns(c: Config, s: State) returns (s': State)
    requires Reached(c, s) && s.pc.AtStop?
    ensures Reached(c, s') && s'.pc == Ended(WasCancelled) && s'.log == s.log + [SourceCancelled]
  {
    Reach(c, s, CancelSource);
    s' := Apply(c, s, CancelSource);
  }

  lemma CancelledRuns(c: Config, s: State) returns (s': State)
    requires Reached(c, s) && s.pc.AtTop?
    ensures Reached(c, s') && s'.pc == Ended(WasCancelled) && s'.log == s.log + [SourceCancelled]
  {
    Reach(c, s, RequestCancel);
    s' := Apply(c, s, RequestCancel);
    Reach(c, s', CheckFlag);
    s' := StopRuns(c, Apply(c, s', CheckFlag));
  }

  lemma InactiveRuns(c: Config, s: State) returns (s': State)
    requires Reached(c, s) && s.pc.AtTop? && Undisturbed(s)
    ensures Reached(c, s') && s'.pc == Ended(WentInactive) && s'.log == s.log
  {
    Reach(c, s, CheckFlag);
    s' := Apply(c, s, CheckFlag);
    Reach(c, s', GoInactive);
    s' := Apply(c, s', GoInactive);
    Reach(c, s', CheckActive);
    s' := Apply(c, s', CheckActive);
  }

  /** A pass that is neither cancelled nor inactive, up to where it stops or starts again. */
  lemma WorkRuns(c: Config, s: State, answers: seq<Answer>, o: Observed) returns (s': State)
    requires AtStart(c, s, answers)
    ensures Reached(c, s') && Undisturbed(s')
    ensures var (polled, used) := Poll(c.kind, answers);
      var work := Work(c.hasHandler, Pass(o, polled));
      && s'.log == s.log + work && s'.pending == FramesOf(answers[used..])
      && if work != [] && Ends(work[|work| - 1]) then s'.pc.AtStop? else s'.pc.AtTop?
  {
    var s1 := StartRuns(c, s);
    var s2 := PollRuns(c, s1, answers);
    s' := ActRuns(c, s1, s2, Poll(c.kind, answers).0, o);
  }

  /** One pass of the code is one pass of the machine. */
  lemma PassRuns(c: Config, s: State, answers: seq<Answer>, o: Observed) returns (s': State)
    requires AtStart(c, s, answers)
    ensures var (polled, used) := Poll(c.kind, answers);
      var pass := Pass(o, polled);
      && s'.log == s.log + PassEvents(c.hasHandler, pass)
      && (if Stops(c.hasHandler, pass) then Reached(c, s') && s'.pc == Ended(PassExit(c.hasHandler, pass))
          else AtStart(c, s', answers[used..]))
  {
    if o.cancelled {
      s' := CancelledRuns(c, s);
    } else if !o.active {
      s' := InactiveRuns(c, s);
      assert s.log + [] == s.log;
    } else {
      s' := WorkRuns(c, s, answers, o);
      var work := Work(c.hasHandler, Pass(o, Poll(c.kind, answers).0));
      if s'.pc.AtStop? {
        s' := StopRuns(c, s');
        ConcatAssoc(s.log, work, [SourceCancelled]);
      } else {
        assert work + [] == work;
      }
    }
  }

  lemma {:induction false} LoopRuns(c: Config, s: State, observed: seq<Observed>, answers: seq<Answer>)
      returns (s': State)
    requires AtStart(c, s, answers)
    ensures Reached(c, s') && s'.log == s.log + LoopLog(c.kind, c.hasHandler, observed, answers)
    ensures var exit := LoopExit(c.kind, c.hasHandler, observed, answers);
      if exit.Running? then s'.pc.AtTop? else s'.pc == Ended(exit)
    decreases observed
  {
    if observed == [] {
      s' := s;
      assert s.log + [] == s.log;
    } else {
      var (polled, used) := Poll(c.kind, answers);
      var pass := Pass(observed[0], polled);
      var s1 := PassRuns(c, s, answers, observed[0]);
      if Stops(c.hasHandler, pass) {
        s' := s1;
        assert PassEvents(c.hasHandler, pass) + [] == PassEvents(c.hasHandler, pass);
      } else {
        s' := LoopRuns(c, s1, observed[1..], answers[used..]);
        ConcatAssoc(s.log, PassEvents(c.hasHandler, pass),
                    LoopLog(c.kind, c.hasHandler, observed[1..], answers[used..]));
      }
    }
  }

  /** The source produces these frames. */
  lemma {:induction false} EmitRuns(c: Config, frames: seq<CoreFrame>) returns (s: State)
    requires c.kind.StreamKind? || forall i :: 0 <= i < |frames| ==> frames[i].Batch?
    ensures Reached(c, s) && s == Init().(emitted := frames, pending := frames)
    decreases frames
  {
    if frames == [] {
      s := Init();
      assert After(c, []) == s;
    } else {
      var init, last := frames[..|frames| - 1], frames[|frames| - 1];
      s := EmitRuns(c, init);
      Reach(c, s, Emit(last));
      s := Apply(c, s, Emit(last));
      assert frames == init + [last];
    }
  }

  lemma {:induction false} NoBarriers(answers: seq<Answer>)
    requires forall i :: 0 <= i < |answers| ==> !IsBarrier(answers[i])
    ensures forall i :: 0 <= i < |FramesOf(answers)| ==> FramesOf(answers)[i].Batch?
  {
    if answers != [] {
      NoBarriers(answers[1..]);
    }
  }

  /** Whatever the passes observe and however the source answers, some run of the machine logs what the code's loop logs
      and leaves the loop as the code does. A query source answers with no barriers. */
  lemma EveryLoopHasARun(c: Config, observed: seq<Observed>, answers: seq<Answer>)
    requires c.kind.StreamKind? || forall i :: 0 <= i < |answers| ==> !IsBarrier(answers[i])
    ensures exists run :: var s := After(c, run);
      var exit := LoopExit(c.kind, c.hasHandler, observed, answers);
      && s.log == LoopLog(c.kind, c.hasHandler, observed, answers)
      && (if exit.Running? then s.pc.AtTop? else s.pc == Ended(exit))
  {
    if c.kind.QueryKind? {
      NoBarriers(answers);
    }
    var s := EmitRuns(c, FramesOf(answers));
    var s' := LoopRuns(c, s, observed, answers);
    assert [] + LoopLog(c.kind, c.hasHandler, observed, answers) == LoopLog(c.kind, c.hasHandler, observed, answers);
    var run :| After(c, run) == s';
    assert After(c, run).log == LoopLog(c.kind, c.hasHandler, observed, answers);
  }
}
