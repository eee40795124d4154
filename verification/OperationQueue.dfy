/**
 The promise queue of electron/local-daemon/index.ts: withLock chains each operation after the
 tail promise, and the tail swallows failures.
 */
module OperationQueue {
  import opened Outcomes

  datatype Phase = Waiting | Running | Done(failed: bool)

  /**
   after: the call whose tail this one was chained to (-1: the resolved promise at the start). settled:
   its own tail.
   */
  datatype Op = Op(after: int, phase: Phase, settled: bool)

  /** began is history: the calls in the order their operations began. */
  datatype State = State(ops: seq<Op>, tail: int, began: seq<int>)

  const INIT := State([], -1, [])

  datatype Event =
    | Call
    | Begin(k: nat)                  // the tail it waits for has settled, either way
    | Finish(k: nat, failed: bool)   // the operation's own promise is fulfilled or rejected
    | Settle(k: nat)                 // run.catch(() => {}) is fulfilled

  function Apply(s: State, e: Event): Option<State> {
    match e
    case Call =>
      Some(State(s.ops + [Op(s.tail, Waiting, false)], |s.ops|, s.began))
    case Begin(k) =>
      if k < |s.ops| && s.ops[k].phase == Waiting
         && (s.ops[k].after == -1 || (0 <= s.ops[k].after < |s.ops| && s.ops[s.ops[k].after].settled))
      then Some(s.(ops := s.ops[k := s.ops[k].(phase := Running)], began := s.began + [k])) else None
    case Finish(k, failed) =>
      if k < |s.ops| && s.ops[k].phase == Running
      then Some(s.(ops := s.ops[k := s.ops[k].(phase := Done(failed))])) else None
    case Settle(k) =>
      if k < |s.ops| && s.ops[k].phase.Done? && !s.ops[k].settled
      then Some(s.(ops := s.ops[k := s.ops[k].(settled := true)])) else None
  }

  function Run(s: State, es: seq<Event>): Option<State>
    decreases |es|
  {
    if es == [] then Some(s)
    else match Apply(s, es[0])
      case None => None
      case Some(t) => Run(t, es[1..])
  }

  /** Each call waits for the one before it, and the calls before the last one begun are settled. */
  ghost predicate Inv(s: State) {
    && s.tail == |s.ops| - 1
    && |s.began| <= |s.ops|
    && (forall i :: 0 <= i < |s.ops| ==> s.ops[i].after == i - 1)
    && (forall i :: 0 <= i < |s.ops| ==> (s.ops[i].phase.Waiting? <==> i >= |s.began|))
    && (forall i :: 0 <= i < |s.ops| && i < |s.began| - 1 ==> s.ops[i].settled)
    && (forall i :: 0 <= i < |s.ops| && s.ops[i].settled ==> s.ops[i].phase.Done?)
    && (forall i :: 0 <= i < |s.began| ==> s.began[i] == i)
  }

  lemma ApplyKeepsInv(s: State, e: Event)
    requires Inv(s) && Apply(s, e).Some?
    ensures Inv(Apply(s, e).value)
  {
    if e.Begin? && e.k > 0 {
      assert s.ops[e.k - 1].settled && !s.ops[e.k - 1].phase.Waiting?;
    }
  }

  lemma {:induction false} RunKeepsInv(s: State, es: seq<Event>)
    requires Inv(s) && Run(s, es).Some?
    ensures Inv(Run(s, es).value)
    decreases |es|
  {
    if es != [] {
      ApplyKeepsInv(s, es[0]);
      RunKeepsInv(Apply(s, es[0]).value, es[1..]);
    }
  }

  /**
   Over every schedule, failures included: never two operations at once, and none begins before every
   earlier call is done.
   */
  lemma NeverOverlap(es: seq<Event>, i: nat, j: nat)
    requires Run(INIT, es).Some?
    requires i < j < |Run(INIT, es).value.ops| && !Run(INIT, es).value.ops[j].phase.Waiting?
    ensures Run(INIT, es).value.ops[i].phase.Done?
  {
    RunKeepsInv(INIT, es);
  }

  /** Operations begin in the order of the calls. */
  lemma FirstCalledFirstBegun(es: seq<Event>, i: nat)
    requires Run(INIT, es).Some? && i < |Run(INIT, es).value.began|
    ensures Run(INIT, es).value.began[i] == i
  {
    RunKeepsInv(INIT, es);
  }

  /** The operation is under way, or its call can take its next step now. */
  ghost predicate Moves(s: State, k: int) {
    && 0 <= k < |s.ops| && !s.ops[k].settled
    && (s.ops[k].phase.Running? || Apply(s, Begin(k)).Some? || Apply(s, Settle(k)).Some?)
  }

  /** A failed operation never holds up the next: while some call is not through, one of them moves. */
  lemma QueueMoves(es: seq<Event>, k: nat)
    requires Run(INIT, es).Some?
    requires k < |Run(INIT, es).value.ops| && !Run(INIT, es).value.ops[k].settled
    ensures exists i :: Moves(Run(INIT, es).value, i)
  {
    RunKeepsInv(INIT, es);
    FirstUnsettledMoves(Run(INIT, es).value, k);
  }

  lemma {:induction false} FirstUnsettledMoves(s: State, k: nat)
    requires Inv(s) && k < |s.ops| && !s.ops[k].settled
    ensures exists i :: Moves(s, i)
  {
    if k > 0 && !s.ops[k - 1].settled {
      FirstUnsettledMoves(s, k - 1);
    } else {
      assert Moves(s, k);
    }
  }

  /**
   A call is always taken, a running operation may end either way, and what it ended as does not matter
   to the tail.
   */
  lemma CallsAndEndsAreFree(es: seq<Event>, k: nat, failed: bool)
    requires Run(INIT, es).Some?
    ensures Apply(Run(INIT, es).value, Call).Some?
    ensures k < |Run(INIT, es).value.ops| && Run(INIT, es).value.ops[k].phase.Running? ==>
      var f := Apply(Run(INIT, es).value, Finish(k, failed));
      && f.Some? && f.value.ops[k].phase == Done(failed)
      && Apply(f.value, Settle(k)).Some? && Apply(f.value, Settle(k)).value.ops[k].settled
  {
    RunKeepsInv(INIT, es);
  }
}
