/** `next_batch_timeout` (src/stream_subscription.rs) on an abstract monotone clock. */
module Deadlines {
  import opened Common
  import opened Frames

  /** How one wait on the core goes: time passes before it starts, then while it lasts, then it answers.
      `Failed(Timeout)` is the runtime's timer firing. */
  datatype Wait = Wait(gap: nat, spent: nat, answer: Answer)

  /** A wait as the loop sees it: when it started, the time it was allowed, the time it took, and the answer. */
  datatype Attempt = Attempt(start: nat, budget: nat, spent: nat, answer: Answer) {
    function End(): nat { start + spent }
  }

  function Remaining(deadline: nat, now: nat): nat {
    if now < deadline then deadline - now else 0
  }

  /** The waits of one call, in order. A script that has run out ends the stream at once. */
  function Attempts(now: nat, deadline: nat, waits: seq<Wait>): seq<Attempt>
    decreases |waits|
  {
    if waits == [] then [Attempt(now, Remaining(deadline, now), 0, Nothing)]
    else
      var w := waits[0];
      var a := Attempt(now + w.gap, Remaining(deadline, now + w.gap), w.spent, w.answer);
      [a] + (if IsBarrier(w.answer) then Attempts(a.End(), deadline, waits[1..]) else [])
  }

  class TimedSubscription {
    var now: nat
    var waits: seq<Wait>

    constructor (now: nat, waits: seq<Wait>)
      ensures this.now == now && this.waits == waits
    {
      this.now, this.waits := now, waits;
    }

    /** Time passing outside the core before the clock is read. */
    method ReadClock() returns (t: nat)
      modifies this`now
      ensures t == now == old(now) + (if waits == [] then 0 else waits[0].gap)
    {
      now := now + (if waits == [] then 0 else waits[0].gap);
      t := now;
    }

    method NextFrameTimeout(budget: nat) returns (attempt: Attempt)
      modifies this
      ensures attempt == (if old(waits) == [] then Attempt(old(now), budget, 0, Nothing)
                          else Attempt(old(now), budget, old(waits)[0].spent, old(waits)[0].answer))
      ensures now == attempt.End()
      ensures waits == (if old(waits) == [] then [] else old(waits)[1..])
    {
      if waits == [] {
        return Attempt(now, budget, 0, Nothing);
      }
      attempt := Attempt(now, budget, waits[0].spent, waits[0].answer);
      now, waits := attempt.End(), waits[1..];
    }
  }

  /** One pass: read the clock, then wait for a frame for what is left. */
  method WaitUntil(sub: TimedSubscription, deadline: nat) returns (attempt: Attempt)
    modifies sub
    ensures Attempts(old(sub.now), deadline, old(sub.waits))
      == [attempt] + (if IsBarrier(attempt.answer) then Attempts(sub.now, deadline, sub.waits) else [])
    ensures IsBarrier(attempt.answer) ==> |sub.waits| < |old(sub.waits)|
  {
    var now := sub.ReadClock();
    attempt := sub.NextFrameTimeout(Remaining(deadline, now));
  }

  method NextBatchTimeout(sub: TimedSubscription, timeout: nat)
      returns (reply: Reply, attempts: seq<Attempt>)
    modifies sub
    ensures attempts == Attempts(old(sub.now), old(sub.now) + timeout, old(sub.waits))
    ensures attempts != [] && Some(reply) == Handle(NextTimeout, attempts[|attempts| - 1].answer)
  {
    var deadline := sub.now + timeout;
    attempts := [];
    var leave: Option<Reply> := None;
    ghost var all := Attempts(sub.now, deadline, sub.waits);
    while leave.None?
      invariant |attempts| <= |all| && attempts == all[..|attempts|]
      invariant leave.None? ==> all[|attempts|..] == Attempts(sub.now, deadline, sub.waits)
      invariant leave.Some? ==>
        |attempts| == |all| > 0 && leave == Handle(NextTimeout, attempts[|attempts| - 1].answer)
      decreases leave.None?, |sub.waits|
    {
      ghost var rest := all[|attempts|..];
      var attempt := WaitUntil(sub, deadline);
      assert rest[0] == attempt && all[|attempts|] == attempt;
      assert all[|attempts| + 1..] == rest[1..];
      attempts := attempts + [attempt];
      leave := Handle(NextTimeout, attempt.answer);
    }
    reply := leave.value;
  }

  // ----- barriers never extend the deadline ----------------------------------------------------

  /** Every wait is allowed exactly up to the original deadline, and no time at all once past it. */
  lemma {:induction false} BudgetsEndAtTheDeadline(now: nat, deadline: nat, waits: seq<Wait>)
    ensures forall a :: a in Attempts(now, deadline, waits) ==>
      && a.start >= now
      && (a.start <= deadline ==> a.start + a.budget == deadline)
      && (a.start > deadline ==> a.budget == 0)
    decreases |waits|
  {
    if waits != [] && IsBarrier(waits[0].answer) {
      BudgetsEndAtTheDeadline(now + waits[0].gap + waits[0].spent, deadline, waits[1..]);
    }
  }

  /** Time spent waiting within budget. */
  function WithinBudget(attempts: seq<Attempt>): nat {
    if attempts == [] then 0
    else (if attempts[0].spent <= attempts[0].budget then attempts[0].spent else attempts[0].budget)
         + WithinBudget(attempts[1..])
  }

  /** However many barriers arrive, the waits together take no more than the one timeout the caller gave. */
  lemma {:induction false} WaitsFitInTheTimeout(now: nat, deadline: nat, waits: seq<Wait>)
    ensures WithinBudget(Attempts(now, deadline, waits)) <= Remaining(deadline, now)
    decreases |waits|
  {
    if waits == [] {
      assert Attempts(now, deadline, waits)[1..] == [];
    } else {
      var w := waits[0];
      var a := Attempt(now + w.gap, Remaining(deadline, now + w.gap), w.spent, w.answer);
      if IsBarrier(w.answer) {
        WaitsFitInTheTimeout(a.End(), deadline, waits[1..]);
        assert Attempts(now, deadline, waits)[1..] == Attempts(a.End(), deadline, waits[1..]);
      } else {
        assert Attempts(now, deadline, waits)[1..] == [];
      }
    }
  }

  /** The runtime's timer: it fires no earlier than its budget, and nothing is waited for beyond it. */
  predicate OnTime(a: Attempt) {
    if a.answer == Failed(Timeout) then a.spent >= a.budget else a.spent <= a.budget
  }

  ghost predicate Punctual(attempts: seq<Attempt>) {
    forall i :: 0 <= i < |attempts| ==> OnTime(attempts[i])
  }

  function Final(attempts: seq<Attempt>): Attempt
    requires attempts != []
  {
    attempts[|attempts| - 1]
  }

  /** Only barriers come before the last answer, which ends the call: a timeout no earlier than the deadline, anything
      else no later, or at once when it was asked for past the deadline. */
  ghost predicate KeepsDeadline(attempts: seq<Attempt>, deadline: nat) {
    && attempts != [] && !IsBarrier(Final(attempts).answer)
    && (forall i :: 0 <= i < |attempts| - 1 ==> IsBarrier(attempts[i].answer))
    && var last := Final(attempts);
       if last.answer == Failed(Timeout) then last.End() >= deadline
       else last.End() <= deadline || (last.start > deadline && last.spent == 0)
  }

  /** The first wait of a call. */
  function FirstWait(now: nat, deadline: nat, w: Wait): Attempt {
    Attempt(now + w.gap, Remaining(deadline, now + w.gap), w.spent, w.answer)
  }

  /** A call that meets a barrier first goes on as a call made when that wait ended. */
  lemma GoesOn(now: nat, deadline: nat, w: Wait, later: seq<Wait>)
    requires IsBarrier(w.answer)
    ensures var first := FirstWait(now, deadline, w);
      Attempts(now, deadline, [w] + later) == [first] + Attempts(first.End(), deadline, later)
  {
    assert ([w] + later)[1..] == later;
  }

  lemma PunctualTail(all: seq<Attempt>, first: Attempt, rest: seq<Attempt>)
    requires all == [first] + rest && Punctual(all)
    ensures Punctual(rest)
  {
    assert forall i :: 0 <= i < |rest| ==> rest[i] == all[i + 1];
  }

  lemma OnlyAttempt(now: nat, deadline: nat, waits: seq<Wait>)
    requires waits == [] || !IsBarrier(waits[0].answer)
    ensures Attempts(now, deadline, waits) ==
      [if waits == [] then Attempt(now, Remaining(deadline, now), 0, Nothing) else FirstWait(now, deadline, waits[0])]
  {}

  /** With such a timer: a timeout comes at or after the deadline with nothing but barriers consumed; the last wait of
      any other call ends by the deadline, or takes no time. */
  lemma {:induction false} DeadlineIsKept(now: nat, deadline: nat, waits: seq<Wait>)
    requires Punctual(Attempts(now, deadline, waits))
    ensures KeepsDeadline(Attempts(now, deadline, waits), deadline)
    decreases |waits|
  {
    var all := Attempts(now, deadline, waits);
    if waits == [] || !IsBarrier(waits[0].answer) {
      OnlyAttempt(now, deadline, waits);
    } else {
      var w, later := waits[0], waits[1..];
      assert waits == [w] + later;
      var first := FirstWait(now, deadline, w);
      var rest := Attempts(first.End(), deadline, later);
      GoesOn(now, deadline, w, later);
      PunctualTail(all, first, rest);
      DeadlineIsKept(first.End(), deadline, later);
    }
  }

  // ----- how late a reply can be ---------------------------------------------------------------

  /** Time that passes between waits once the deadline is past: before each late wait, from the deadline on. */
  function LateGaps(now: nat, deadline: nat, waits: seq<Wait>): nat
    decreases |waits|
  {
    if waits == [] then 0
    else
      var start := now + waits[0].gap;
      LateGap(now, deadline, start)
      + (if IsBarrier(waits[0].answer) then LateGaps(start + waits[0].spent, deadline, waits[1..]) else 0)
  }

  function Later(a: nat, b: nat): nat {
    if a >= b then a else b
  }

  /** How much later than asked the timer fired, if it did. */
  function TimerDelay(attempt: Attempt): nat {
    if attempt.answer == Failed(Timeout) && attempt.spent >= attempt.budget then attempt.spent - attempt.budget else 0
  }

  /** Each wait past the deadline but the last takes one barrier that was ready, and no time. */
  lemma LateWaitsTakeReadyBarriers(now: nat, deadline: nat, waits: seq<Wait>, i: nat)
    requires Punctual(Attempts(now, deadline, waits))
    requires i < |Attempts(now, deadline, waits)| - 1 && Attempts(now, deadline, waits)[i].start > deadline
    ensures var a := Attempts(now, deadline, waits)[i]; IsBarrier(a.answer) && a.spent == 0
  {
    DeadlineIsKept(now, deadline, waits);
    BudgetsEndAtTheDeadline(now, deadline, waits);
    assert Attempts(now, deadline, waits)[i] in Attempts(now, deadline, waits);
  }

  /** The time before a late wait. */
  function LateGap(now: nat, deadline: nat, start: nat): nat
    requires now <= start
  {
    if start <= deadline then 0 else start - Later(now, deadline)
  }

  lemma FirstEnds(now: nat, deadline: nat, waits: seq<Wait>)
    requires Punctual(Attempts(now, deadline, waits))
    ensures var a := Attempts(now, deadline, waits)[0];
      && a.start >= now
      && a.End() <= Later(now, deadline) + LateGap(now, deadline, a.start) + TimerDelay(a)
      && Later(a.End(), deadline) <= Later(now, deadline) + LateGap(now, deadline, a.start) + TimerDelay(a)
  {
    var a := Attempts(now, deadline, waits)[0];
    BudgetsEndAtTheDeadline(now, deadline, waits);
    assert a in Attempts(now, deadline, waits);
  }

  lemma GapsGoOn(now: nat, deadline: nat, w: Wait, later: seq<Wait>)
    requires IsBarrier(w.answer)
    ensures var first := FirstWait(now, deadline, w);
      LateGaps(now, deadline, [w] + later)
      == LateGap(now, deadline, first.start) + LateGaps(first.End(), deadline, later)
  {
    assert ([w] + later)[1..] == later;
  }

  /** The call ends by the time, but for the timer's own delay. */
  predicate EndsWithin(attempts: seq<Attempt>, time: nat) {
    attempts != [] && Final(attempts).End() <= time + TimerDelay(Final(attempts))
  }

  lemma EndsLater(all: seq<Attempt>, first: Attempt, rest: seq<Attempt>, time: nat, later: nat)
    requires all == [first] + rest && EndsWithin(rest, time) && time <= later
    ensures EndsWithin(all, later)
  {}

  /** With a punctual timer the call ends by the deadline, but for the time that passes between the waits it still
      makes past it, and the timer's own delay. */
  lemma {:induction false} EndsByTheDeadlineButFor(now: nat, deadline: nat, waits: seq<Wait>)
    requires Punctual(Attempts(now, deadline, waits))
    ensures EndsWithin(Attempts(now, deadline, waits), Later(now, deadline) + LateGaps(now, deadline, waits))
    decreases |waits|
  {
    var all := Attempts(now, deadline, waits);
    FirstEnds(now, deadline, waits);
    if waits == [] || !IsBarrier(waits[0].answer) {
      OnlyAttempt(now, deadline, waits);
    } else {
      var w, later := waits[0], waits[1..];
      assert waits == [w] + later;
      var first := FirstWait(now, deadline, w);
      var rest := Attempts(first.End(), deadline, later);
      assert all == [first] + rest by {
        GoesOn(now, deadline, w, later);
      }
      var gaps := LateGaps(first.End(), deadline, later);
      assert LateGaps(now, deadline, waits) == LateGap(now, deadline, first.start) + gaps by {
        GapsGoOn(now, deadline, w, later);
      }
      PunctualTail(all, first, rest);
      EndsByTheDeadlineButFor(first.End(), deadline, later);
      EndsLater(all, first, rest, Later(first.End(), deadline) + gaps,
                Later(now, deadline) + LateGaps(now, deadline, waits));
    }
  }

  function Sum(gaps: seq<nat>): nat {
    if gaps == [] then 0 else gaps[0] + Sum(gaps[1..])
  }

  /** A barrier after each gap, ready when the call asks for it. */
  function ReadyBarriers(gaps: seq<nat>, barrier: CoreFrame): seq<Wait> {
    seq(|gaps|, i requires 0 <= i < |gaps| => Wait(gaps[i], 0, Frame(barrier)))
  }

  /** A call that keeps a punctual timer and ends at the time with nothing to return. */
  ghost predicate EndsEmptyAt(attempts: seq<Attempt>, time: nat) {
    && attempts != [] && Punctual(attempts)
    && Final(attempts).End() == time && Handle(NextTimeout, Final(attempts).answer) == Some(NoData)
  }

  lemma ReadyBarriersCons(gaps: seq<nat>, barrier: CoreFrame)
    requires gaps != []
    ensures ReadyBarriers(gaps, barrier) == [Wait(gaps[0], 0, Frame(barrier))] + ReadyBarriers(gaps[1..], barrier)
  {}

  lemma BarrierThen(now: nat, deadline: nat, w: Wait, later: seq<Wait>, time: nat)
    requires IsBarrier(w.answer) && w.spent == 0
    requires EndsEmptyAt(Attempts(FirstWait(now, deadline, w).End(), deadline, later), time)
    ensures EndsEmptyAt(Attempts(now, deadline, [w] + later), time)
  {
    var first := FirstWait(now, deadline, w);
    var all, rest := Attempts(now, deadline, [w] + later), Attempts(first.End(), deadline, later);
    assert all == [first] + rest by {
      GoesOn(now, deadline, w, later);
    }
  }

  /** So nothing bounds the overrun: whenever barriers are ready, and however far past the deadline, a call with a
      punctual timer takes them all, and only then ends, with nothing to return. */
  lemma {:induction false} ReadyBarriersOutlastTheDeadline(
    now: nat, deadline: nat, gaps: seq<nat>, barrier: CoreFrame)
    requires barrier.Barrier?
    ensures EndsEmptyAt(Attempts(now, deadline, ReadyBarriers(gaps, barrier)), now + Sum(gaps))
    decreases gaps
  {
    if gaps == [] {
      assert ReadyBarriers(gaps, barrier) == [];
    } else {
      var next, later := now + gaps[0], ReadyBarriers(gaps[1..], barrier);
      ReadyBarriersCons(gaps, barrier);
      ReadyBarriersOutlastTheDeadline(next, deadline, gaps[1..], barrier);
      BarrierThen(now, deadline, Wait(gaps[0], 0, Frame(barrier)), later, next + Sum(gaps[1..]));
    }
  }

  function Answers(attempts: seq<Attempt>): seq<Answer> {
    seq(|attempts|, i requires 0 <= i < |attempts| => attempts[i].answer)
  }

  /** The deadline variant is the same loop as the others: on the answers it got it replies as `Serve` does. */
  lemma {:induction false} DeadlineLoopServes(now: nat, deadline: nat, waits: seq<Wait>)
    ensures var attempts := Attempts(now, deadline, waits);
      && Handle(NextTimeout, attempts[|attempts| - 1].answer).Some?
      && Serve(NextTimeout, Answers(attempts))
         == (Handle(NextTimeout, attempts[|attempts| - 1].answer).value, |attempts|)
    decreases |waits|
  {
    var attempts := Attempts(now, deadline, waits);
    if waits != [] && IsBarrier(waits[0].answer) {
      var rest := Attempts(attempts[0].End(), deadline, waits[1..]);
      assert attempts[1..] == rest;
      DeadlineLoopServes(attempts[0].End(), deadline, waits[1..]);
      assert Answers(attempts)[1..] == Answers(rest);
      assert Answers(attempts)[0] == attempts[0].answer;
    }
  }
}
