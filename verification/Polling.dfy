/** wait.PollImmediate and the conditions the driver polls with.

    A poll is decided by its first decisive check.  The checks that fit before the
    timeout are the trace; a trace without a decisive check is a timeout. */
module Polling {
  import opened Common

  datatype PodPhase = Pending | Running | Succeeded | Failed | UnknownPhase

  /** One read of a pod. */
  datatype PodObs = Unreadable | Seen(phase: PodPhase)

  /** One TCP probe. */
  datatype TcpObs = ProbeError | ProbeFailure | ProbeSuccess

  datatype PollError = ReadError | PodCompleted | TimedOut

  /** The (bool, error) pair of a condition function. */
  datatype Check = Check(done: bool, err: Option<PollError>)

  datatype PollResult = Success | Failure(err: PollError)

  function IsPodRunning(o: PodObs): Check {
    match o
    case Unreadable => Check(false, Some(ReadError))
    case Seen(Running) => Check(true, None)
    case Seen(Failed) => Check(false, Some(PodCompleted))
    case Seen(Succeeded) => Check(false, Some(PodCompleted))
    case Seen(_) => Check(false, None)
  }

  function IsPodNotRunning(o: PodObs): Check {
    match o
    case Unreadable => Check(true, Some(ReadError))
    case Seen(Running) => Check(false, None)
    case Seen(Failed) => Check(true, Some(PodCompleted))
    case Seen(Succeeded) => Check(true, Some(PodCompleted))
    case Seen(_) => Check(true, None)
  }

  function IsTcpReady(o: TcpObs): Check {
    match o
    case ProbeError => Check(false, Some(ReadError))
    case ProbeSuccess => Check(true, None)
    case ProbeFailure => Check(false, None)
  }

  predicate Decisive(c: Check) {
    c.done || c.err.Some?
  }

  /** `i` is the check at which polling stops; `|trace|` stands for the timeout. */
  ghost predicate StopsAt<T>(trace: seq<T>, cond: T -> Check, i: nat) {
    && i <= |trace|
    && (forall j :: 0 <= j < i ==> !Decisive(cond(trace[j])))
    && (i < |trace| ==> Decisive(cond(trace[i])))
  }

  function Verdict(c: Check): PollResult {
    match c.err
    case Some(e) => Failure(e)
    case None => Success
  }

  /** The result of polling `cond` over `trace`. */
  function Poll<T>(trace: seq<T>, cond: T -> Check): PollResult {
    if trace == [] then Failure(TimedOut)
    else if Decisive(cond(trace[0])) then Verdict(cond(trace[0]))
    else Poll(trace[1..], cond)
  }

  method PollImmediate<T>(trace: seq<T>, cond: T -> Check) returns (r: PollResult, ghost checks: nat)
    ensures r == Poll(trace, cond)
    ensures StopsAt(trace, cond, checks)
    ensures r == if checks == |trace| then Failure(TimedOut) else Verdict(cond(trace[checks]))
  {
    checks := 0;
    var i := 0;
    while i < |trace|
      invariant 0 <= i <= |trace| && checks == i
      invariant forall j :: 0 <= j < i ==> !Decisive(cond(trace[j]))
      invariant Poll(trace, cond) == Poll(trace[i..], cond)
    {
      var c := cond(trace[i]);
      if c.err.Some? {
        return Failure(c.err.value), i;
      }
      if c.done {
        return Success, i;
      }
      i := i + 1;
      checks := i;
    }
    r := Failure(TimedOut);
  }

  lemma {:induction false} PollStops<T>(trace: seq<T>, cond: T -> Check) returns (i: nat)
    ensures StopsAt(trace, cond, i)
    ensures Poll(trace, cond) == if i == |trace| then Failure(TimedOut) else Verdict(cond(trace[i]))
  {
    i := 0;
    if trace != [] && !Decisive(cond(trace[0])) {
      i := PollStops(trace[1..], cond);
      i := i + 1;
    }
  }

  /** waitForPodRunning is decided by the first observation that is neither Pending nor Unknown:
      Running is success, a read error and a completed phase are errors; without one it times out. */
  lemma WaitForRunningIff(trace: seq<PodObs>, i: nat)
    requires i <= |trace|
    requires forall j :: 0 <= j < i ==> trace[j] == Seen(Pending) || trace[j] == Seen(UnknownPhase)
    requires i < |trace| ==> trace[i] != Seen(Pending) && trace[i] != Seen(UnknownPhase)
    ensures Poll(trace, IsPodRunning) == Success <==> i < |trace| && trace[i] == Seen(Running)
    ensures Poll(trace, IsPodRunning) == Failure(ReadError) <==> i < |trace| && trace[i] == Unreadable
    ensures Poll(trace, IsPodRunning) == Failure(PodCompleted)
       <==> i < |trace| && (trace[i] == Seen(Succeeded) || trace[i] == Seen(Failed))
    ensures Poll(trace, IsPodRunning) == Failure(TimedOut) <==> i == |trace|
  {
    var k := PollStops(trace, IsPodRunning);
    assert k < |trace| ==> Decisive(IsPodRunning(trace[k]));
    assert i < |trace| ==> Decisive(IsPodRunning(trace[i]));
    assert k == i;
  }

  lemma {:induction false} WaitForRunningSucceedsIff(trace: seq<PodObs>)
    ensures Poll(trace, IsPodRunning) == Success
       <==> exists i :: 0 <= i < |trace| && trace[i] == Seen(Running)
                        && forall j :: 0 <= j < i ==> trace[j] == Seen(Pending) || trace[j] == Seen(UnknownPhase)
  {
    var k := PollStops(trace, IsPodRunning);
    WaitForRunningIff(trace, k);
    forall i | 0 <= i < |trace| && trace[i] == Seen(Running)
               && forall j :: 0 <= j < i ==> trace[j] == Seen(Pending) || trace[j] == Seen(UnknownPhase)
      ensures Poll(trace, IsPodRunning) == Success
    {
      WaitForRunningIff(trace, i);
    }
  }

  /** waitForTcpReady is decided by the first probe that does not merely fail: an answering port is
      success, a probe error is an error; without one it times out. */
  lemma WaitForTcpIff(trace: seq<TcpObs>, i: nat)
    requires i <= |trace|
    requires forall j :: 0 <= j < i ==> trace[j] == ProbeFailure
    requires i < |trace| ==> trace[i] != ProbeFailure
    ensures Poll(trace, IsTcpReady) == Success <==> i < |trace| && trace[i] == ProbeSuccess
    ensures Poll(trace, IsTcpReady) == Failure(ReadError) <==> i < |trace| && trace[i] == ProbeError
    ensures Poll(trace, IsTcpReady) == Failure(TimedOut) <==> i == |trace|
  {
    var k := PollStops(trace, IsTcpReady);
    assert k < |trace| ==> Decisive(IsTcpReady(trace[k]));
    assert i < |trace| ==> Decisive(IsTcpReady(trace[i]));
    assert k == i;
  }

  /** waitForTcpReady succeeds exactly when a probe succeeds before any probe error. */
  lemma {:induction false} WaitForTcpSucceedsIff(trace: seq<TcpObs>)
    ensures Poll(trace, IsTcpReady) == Success
       <==> exists i :: 0 <= i < |trace| && trace[i] == ProbeSuccess
                        && forall j :: 0 <= j < i ==> trace[j] == ProbeFailure
  {
    var k := PollStops(trace, IsTcpReady);
    WaitForTcpIff(trace, k);
    forall i | 0 <= i < |trace| && trace[i] == ProbeSuccess && forall j :: 0 <= j < i ==> trace[j] == ProbeFailure
      ensures Poll(trace, IsTcpReady) == Success
    {
      WaitForTcpIff(trace, i);
    }
  }

  /** waitForPodNotRunning never stops on an observed Running phase, and succeeds exactly when
      a pod that still exists has left Running without completing. */
  lemma WaitForNotRunningStops(trace: seq<PodObs>, n: nat)
    requires StopsAt(trace, IsPodNotRunning, n)
    ensures n < |trace| ==> trace[n] != Seen(Running)
    ensures forall j :: 0 <= j < n ==> trace[j] == Seen(Running)
    ensures Poll(trace, IsPodNotRunning) == Success
       <==> n < |trace| && (trace[n] == Seen(Pending) || trace[n] == Seen(UnknownPhase))
  {
    var i := PollStops(trace, IsPodNotRunning);
    forall j | 0 <= j < n ensures trace[j] == Seen(Running) {
      assert !Decisive(IsPodNotRunning(trace[j]));
    }
  }

  /** The teardown waits for Running where its comment asks for the opposite.  Both waits stop at
      the same check exactly when the first observation is already a read error or a completed
      phase (or there is no observation at all). */
  lemma TeardownWaitAgreesIff(trace: seq<PodObs>, n: nat, m: nat)
    requires StopsAt(trace, IsPodRunning, n) && StopsAt(trace, IsPodNotRunning, m)
    ensures n == m <==> trace == [] || trace[0] == Unreadable || trace[0] == Seen(Succeeded) || trace[0] == Seen(Failed)
  {}

  /** As written, a pod that is still Running ends the teardown wait at the first check. */
  lemma TeardownWaitReturnsWhileRunning(trace: seq<PodObs>)
    requires trace != [] && trace[0] == Seen(Running)
    ensures StopsAt(trace, IsPodRunning, 0) && !StopsAt(trace, IsPodNotRunning, 0)
    ensures Poll(trace, IsPodRunning) == Success
  {}
}
