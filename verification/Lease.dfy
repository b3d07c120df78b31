/** The shared-log charge of a named-stream batch (src/query.rs, src/stream_subscription.rs). */
module Leases {
  import opened Common
  import opened QueryResults
  import opened Frames

  type ObjectId = nat

  /** A live Python object: a result, or a frame with the result inside it. */
  datatype PyObject =
    | ResultObject(result: QueryResult)
    | FrameObject(frame: SubscriptionFrame)

  function LeaseOf(o: PyObject): Option<LeaseId> {
    match o
    case ResultObject(result) => result.lease
    case FrameObject(frame) => if frame.batch.Some? then frame.batch.value.lease else None
  }

  datatype Op =
    | ReceiveFrame(frame: CoreFrame)     // a frame call returns the frame
    | ReceiveBatch(frame: CoreFrame)     // a batch-only call returns its batch, or nothing for a barrier
    | ReadBatch(object: ObjectId)        // the frame's `batch` getter clones the result
    | CloneResult(object: ObjectId)      // a result is cloned
    | Drop(object: ObjectId)             // the last reference to an object goes

  datatype State = State(
    heap: map<ObjectId, PyObject>,       // live objects
    next: ObjectId,                      // ids are never reused
    handles: map<LeaseId, nat>,          // the core's count for each charge it holds
    issued: set<LeaseId>,                // charges handed out so far
    released: seq<LeaseId>)              // charges given back, in order

  const EMPTY := State(map[], 0, map[], {}, [])

  /** The core gives every batch frame a charge of its own. */
  predicate Enabled(s: State, op: Op) {
    match op
    case ReceiveFrame(frame) => frame.Batch? ==> frame.lease !in s.issued
    case ReceiveBatch(frame) => frame.Batch? ==> frame.lease !in s.issued
    case ReadBatch(o) => o in s.heap && s.heap[o].FrameObject?
    case CloneResult(o) => o in s.heap && s.heap[o].ResultObject?
    case Drop(o) => o in s.heap
  }

  function Alloc(s: State, o: PyObject): State {
    s.(heap := s.heap[s.next := o], next := s.next + 1)
  }

  /** The core hands out a charge with one handle on it. */
  function Issue(s: State, lease: Option<LeaseId>): State {
    if lease.None? then s
    else s.(handles := s.handles[lease.value := 1], issued := s.issued + {lease.value})
  }

  /** Cloning a result clones its handle. */
  function Retain(s: State, lease: Option<LeaseId>): State {
    if lease.None? || lease.value !in s.handles then s
    else s.(handles := s.handles[lease.value := s.handles[lease.value] + 1])
  }

  /** Dropping a handle gives the charge back when it was the last. */
  function Release(s: State, lease: Option<LeaseId>): State {
    if lease.None? || lease.value !in s.handles then s
    else if s.handles[lease.value] <= 1 then
      s.(handles := s.handles - {lease.value}, released := s.released + [lease.value])
    else
      s.(handles := s.handles[lease.value := s.handles[lease.value] - 1])
  }

  /** Every Python object that came from a batch holds a handle on its charge; the core counts handles and releases the
      charge when the last one goes. */
  function Apply(s: State, op: Op): State {
    if !Enabled(s, op) then s
    else
      match op
      case ReceiveFrame(frame) =>
        var o := FrameObject(FromCore(frame));
        Alloc(Issue(s, LeaseOf(o)), o)
      case ReceiveBatch(frame) =>
        if FrameBatch(frame).None? then s
        else
          var o := ResultObject(FrameBatch(frame).value);
          Alloc(Issue(s, LeaseOf(o)), o)
      case ReadBatch(o) =>
        if s.heap[o].frame.batch.None? then s
        else
          var copy := ResultObject(s.heap[o].frame.batch.value);
          Alloc(Retain(s, LeaseOf(copy)), copy)
      case CloneResult(o) =>
        Alloc(Retain(s, LeaseOf(s.heap[o])), s.heap[o])
      case Drop(o) =>
        Release(s, LeaseOf(s.heap[o])).(heap := s.heap - {o})
  }

  function After(run: seq<Op>): State {
    if run == [] then EMPTY else Apply(After(run[..|run| - 1]), run[|run| - 1])
  }

  /** The live objects that came from a batch frame. */
  function Holders(heap: map<ObjectId, PyObject>, lease: LeaseId): set<ObjectId> {
    set o | o in heap && LeaseOf(heap[o]) == Some(lease)
  }

  /** A charge is held exactly while some live object came from its frame, and the count is the number of them; a charge
      issued and no longer held has been released. */
  ghost predicate InvAt(s: State, l: LeaseId) {
    && (l in s.handles <==> Holders(s.heap, l) != {})
    && (l in s.handles ==> s.handles[l] == |Holders(s.heap, l)| && l !in s.released)
    && (l in s.issued <==> l in s.handles || l in s.released)
  }

  ghost predicate Inv(s: State) {
    && (forall o: ObjectId :: o in s.heap ==> o < s.next)
    && (forall l: LeaseId :: InvAt(s, l))
    && Distinct(s.released)
  }

  /** A new object adds itself to the holders of its own charge and to no others. */
  lemma HoldersAlloc(s: State, o: PyObject, lease: LeaseId)
    requires forall p: ObjectId :: p in s.heap ==> p < s.next
    ensures Holders(s.heap[s.next := o], lease)
      == Holders(s.heap, lease) + (if LeaseOf(o) == Some(lease) then {s.next} else {})
    ensures s.next !in Holders(s.heap, lease)
  {}

  lemma IssueKeeps(s: State, o: PyObject)
    requires Inv(s) && (LeaseOf(o).Some? ==> LeaseOf(o).value !in s.issued)
    ensures Inv(Alloc(Issue(s, LeaseOf(o)), o))
  {
    var s' := Alloc(Issue(s, LeaseOf(o)), o);
    forall l: LeaseId ensures InvAt(s', l) {
      assert InvAt(s, l);
      HoldersAlloc(s, o, l);
      if LeaseOf(o) == Some(l) {
        assert Holders(s'.heap, l) == {s.next};
      } else {
        assert Holders(s'.heap, l) == Holders(s.heap, l);
      }
    }
  }

  lemma RetainKeeps(s: State, o: PyObject)
    requires Inv(s) && (LeaseOf(o).Some? ==> LeaseOf(o).value in s.handles)
    ensures Inv(Alloc(Retain(s, LeaseOf(o)), o))
  {
    var s' := Alloc(Retain(s, LeaseOf(o)), o);
    forall l: LeaseId ensures InvAt(s', l) {
      assert InvAt(s, l);
      HoldersAlloc(s, o, l);
      if LeaseOf(o) == Some(l) {
        assert |Holders(s'.heap, l)| == |Holders(s.heap, l)| + 1;
      } else {
        assert Holders(s'.heap, l) == Holders(s.heap, l);
      }
    }
  }

  lemma DropOther(s: State, o: ObjectId, l: LeaseId)
    requires InvAt(s, l) && o in s.heap && LeaseOf(s.heap[o]) != Some(l)
    ensures InvAt(Apply(s, Drop(o)), l)
  {
    var s' := Apply(s, Drop(o));
    assert Holders(s'.heap, l) == Holders(s.heap, l);
    assert l in s'.handles <==> l in s.handles;
    assert l in s'.released <==> l in s.released;
  }

  lemma DropOwn(s: State, o: ObjectId, l: LeaseId)
    requires InvAt(s, l) && o in s.heap && LeaseOf(s.heap[o]) == Some(l)
    ensures InvAt(Apply(s, Drop(o)), l)
  {
    var s' := Apply(s, Drop(o));
    var before, after := Holders(s.heap, l), Holders(s'.heap, l);
    assert o in before && after == before - {o};
    assert |after| == |before| - 1;
    assert s.handles[l] == |before|;
  }

  lemma DropKeeps(s: State, o: ObjectId)
    requires Inv(s) && o in s.heap
    ensures Inv(Apply(s, Drop(o)))
  {
    forall l: LeaseId ensures InvAt(Apply(s, Drop(o)), l) {
      if LeaseOf(s.heap[o]) == Some(l) {
        DropOwn(s, o, l);
      } else {
        DropOther(s, o, l);
      }
    }
    if LeaseOf(s.heap[o]).Some? {
      assert InvAt(s, LeaseOf(s.heap[o]).value);
    }
  }

  lemma LiveLeaseIsHeld(s: State, o: ObjectId)
    requires Inv(s) && o in s.heap && LeaseOf(s.heap[o]).Some?
    ensures LeaseOf(s.heap[o]).value in s.handles
  {
    assert InvAt(s, LeaseOf(s.heap[o]).value);
    assert o in Holders(s.heap, LeaseOf(s.heap[o]).value);
  }

  lemma InvStep(s: State, op: Op)
    requires Inv(s)
    ensures Inv(Apply(s, op))
  {
    if !Enabled(s, op) {
      return;
    }
    match op
    case ReceiveFrame(frame) =>
      IssueKeeps(s, FrameObject(FromCore(frame)));
    case ReceiveBatch(frame) =>
      if FrameBatch(frame).Some? {
        IssueKeeps(s, ResultObject(FrameBatch(frame).value));
      }
    case ReadBatch(o) =>
      if s.heap[o].frame.batch.Some? {
        var copy := ResultObject(s.heap[o].frame.batch.value);
        if LeaseOf(copy).Some? { LiveLeaseIsHeld(s, o); }
        RetainKeeps(s, copy);
      }
    case CloneResult(o) =>
      if LeaseOf(s.heap[o]).Some? { LiveLeaseIsHeld(s, o); }
      RetainKeeps(s, s.heap[o]);
    case Drop(o) =>
      DropKeeps(s, o);
  }

  lemma {:induction false} InvAlways(run: seq<Op>)
    ensures Inv(After(run))
  {
    if run != [] {
      InvAlways(run[..|run| - 1]);
      InvStep(After(run[..|run| - 1]), run[|run| - 1]);
    }
  }

  /** The operation hands a batch frame with this charge to Python. */
  predicate Hands(op: Op, lease: LeaseId) {
    (op.ReceiveFrame? || op.ReceiveBatch?) && op.frame.Batch? && op.frame.lease == lease
  }

  /** A step issues a charge only by handing over the batch frame that carries it: never for a barrier. */
  lemma StepIssues(s: State, op: Op, lease: LeaseId)
    requires lease in Apply(s, op).issued && lease !in s.issued
    ensures Hands(op, lease)
  {}

  lemma {:induction false} IssuedByABatch(run: seq<Op>, lease: LeaseId)
    requires lease in After(run).issued
    ensures exists i :: 0 <= i < |run| && Hands(run[i], lease)
  {
    var init, last := run[..|run| - 1], run[|run| - 1];
    if lease in After(init).issued {
      IssuedByABatch(init, lease);
      var i :| 0 <= i < |init| && Hands(init[i], lease);
      assert run[i] == init[i];
    } else {
      StepIssues(After(init), last, lease);
      assert Hands(run[|run| - 1], lease);
    }
  }

  /** Lease conservation, over every run of receiving, reading, cloning and dropping: a charge came to Python with a
      batch frame, never with a barrier, and is held exactly while at least one object that came from that frame is
      live; otherwise it has been released, exactly once, for good. */
  lemma ChargeHeldWhileLive(run: seq<Op>, lease: LeaseId)
    requires lease in After(run).issued
    ensures var s := After(run);
      && (exists i :: 0 <= i < |run| && Hands(run[i], lease))
      && (lease in s.handles <==> exists o: ObjectId :: o in s.heap && LeaseOf(s.heap[o]) == Some(lease))
      && (lease in s.handles <==> lease !in s.released)
      && Distinct(s.released)
  {
    InvAlways(run);
    var s := After(run);
    assert InvAt(s, lease);
    HoldersAreWitnesses(s.heap, lease);
    IssuedByABatch(run, lease);
  }

  lemma HoldersAreWitnesses(heap: map<ObjectId, PyObject>, lease: LeaseId)
    ensures Holders(heap, lease) != {} <==> exists o: ObjectId :: o in heap && LeaseOf(heap[o]) == Some(lease)
  {
    if o: ObjectId :| o in heap && LeaseOf(heap[o]) == Some(lease) {
      assert o in Holders(heap, lease);
    }
  }

  /** Once released, a charge is never held again. */
  lemma {:induction false} ReleaseIsFinal(run: seq<Op>, more: seq<Op>, lease: LeaseId)
    requires lease in After(run).released
    ensures lease in After(run + more).released && lease !in After(run + more).handles
  {
    if more == [] {
      assert run + more == run;
      InvAlways(run);
      assert InvAt(After(run), lease);
    } else {
      var shorter := more[..|more| - 1];
      ReleaseIsFinal(run, shorter, lease);
      assert (run + more)[..|run + more| - 1] == run + shorter;
      InvAlways(run + shorter);
      InvAlways(run + more);
      assert InvAt(After(run + more), lease);
    }
  }

  // ----- what each operation does --------------------------------------------------------------

  /** Live objects hold the charge of the frame they show. */
  lemma HoldersShow(o: PyObject, frame: CoreFrame)
    requires match o case ResultObject(result) => Holds(result, frame) case FrameObject(shown) => Shows(shown, frame)
    ensures LeaseOf(o) == if frame.Batch? then Some(frame.lease) else None
  {}

  /** A batch frame with a charge of its own comes to Python as a live object that holds the charge, alone. */
  lemma ReceivingHolds(s: State, frame: CoreFrame)
    requires frame.Batch? && frame.lease !in s.issued
    ensures var s' := Apply(s, ReceiveFrame(frame));
      && s'.heap.Keys == s.heap.Keys + {s.next} && s'.heap[s.next].FrameObject?
      && Shows(s'.heap[s.next].frame, frame) && s'.handles == s.handles[frame.lease := 1]
    ensures var s' := Apply(s, ReceiveBatch(frame));
      && s'.heap.Keys == s.heap.Keys + {s.next} && s'.heap[s.next].ResultObject?
      && Holds(s'.heap[s.next].result, frame) && s'.handles == s.handles[frame.lease := 1]
  {}

  /** A barrier comes as a frame without a charge, and not at all to a batch-only call. */
  lemma BarriersHoldNothing(s: State, frame: CoreFrame)
    requires frame.Barrier?
    ensures var s' := Apply(s, ReceiveFrame(frame));
      && s'.heap.Keys == s.heap.Keys + {s.next} && s'.heap[s.next].FrameObject?
      && Shows(s'.heap[s.next].frame, frame) && s'.handles == s.handles
    ensures Apply(s, ReceiveBatch(frame)) == s
  {}

  /** A copy of a live result or of a live frame's result shows the same and holds the charge once more. */
  lemma CopyingRetains(s: State, o: ObjectId, frame: CoreFrame)
    requires Inv(s) && o in s.heap && frame.Batch?
    requires match s.heap[o]
      case ResultObject(result) => Holds(result, frame)
      case FrameObject(shown) => Shows(shown, frame)
    ensures frame.lease in s.handles
    ensures var s' := Apply(s, if s.heap[o].FrameObject? then ReadBatch(o) else CloneResult(o));
      && s'.heap.Keys == s.heap.Keys + {s.next} && s'.heap[s.next].ResultObject?
      && Holds(s'.heap[s.next].result, frame)
      && s'.handles == s.handles[frame.lease := s.handles[frame.lease] + 1]
  {
    HoldersShow(s.heap[o], frame);
    LiveLeaseIsHeld(s, o);
  }

  lemma DroppingFrees(s: State, o: ObjectId)
    requires o in s.heap
    ensures Apply(s, Drop(o)).heap == s.heap - {o}
  {}

  lemma AfterSnoc(run: seq<Op>, op: Op)
    ensures After(run + [op]) == Apply(After(run), op)
  {
    assert (run + [op])[..|run|] == run;
  }

  lemma {:induction false} AllCanBeDropped(run: seq<Op>) returns (more: seq<Op>)
    ensures After(run + more).heap == map[]
    ensures After(run).issued <= After(run + more).issued
    decreases |After(run).heap|
  {
    if After(run).heap == map[] {
      more := [];
      assert run + more == run;
    } else {
      var o :| o in After(run).heap;
      DroppingFrees(After(run), o);
      AfterSnoc(run, Drop(o));
      more := AllCanBeDropped(run + [Drop(o)]);
      ConcatAssoc(run, [Drop(o)], more);
      more := [Drop(o)] + more;
    }
  }

  /** No charge is held for ever: every run has a continuation that drops what is live, and then every charge it was
      given has been released. */
  lemma EveryChargeCanBeReleased(run: seq<Op>)
    ensures exists more: seq<Op> :: var s := After(run + more);
      s.heap == map[] && s.handles == map[] && forall lease :: lease in After(run).issued ==> lease in s.released
  {
    var more := AllCanBeDropped(run);
    var s := After(run + more);
    InvAlways(run + more);
    forall lease: LeaseId ensures lease !in s.handles {
      assert InvAt(s, lease);
    }
    assert s.handles == map[];
    forall lease | lease in After(run).issued ensures lease in s.released {
      assert InvAt(s, lease);
    }
  }
}
