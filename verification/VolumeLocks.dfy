/** The per-volume try-lock: as an object, and as the micro-steps of any number of callers between
    mutex lock and unlock.

    The driver creates one but no handler uses it, so nothing else in this model relies on it. */
module VolumeLocking {
  import opened Common

  class VolumeLocks {
    var locks: set<string>

    constructor ()
      ensures locks == {}
    {
      locks := {};
    }

    method TryAcquire(volumeID: string) returns (ok: bool)
      modifies this
      ensures ok == (volumeID !in old(locks))
      ensures locks == old(locks) + {volumeID}
    {
      if volumeID in locks {
        return false;
      }
      locks := locks + {volumeID};
      ok := true;
    }

    method Release(volumeID: string)
      modifies this
      ensures locks == old(locks) - {volumeID}
    {
      locks := locks - {volumeID};
    }
  }

  // ---------------------------------------------------------------- micro-steps

  datatype Op = TryAcquire | Release

  /** Where a caller is inside its call. */
  datatype Pc =
    | Called(op: Op, id: string)
    | Locked(op: Op, id: string)
    | Tested(op: Op, id: string, found: bool)
    | Unlocking(op: Op, id: string, result: bool)
    | Returned(op: Op, id: string, result: bool)

  /** `held` records which caller got which ID and has not given it back. */
  datatype State = State(mutex: Option<nat>, locks: set<string>, pcs: map<nat, Pc>, held: set<(nat, string)>)

  datatype Event = Invoke(i: nat, op: Op, id: string) | Move(i: nat)

  predicate InCall(s: State, i: nat) {
    i in s.pcs && !s.pcs[i].Returned?
  }

  predicate Enabled(s: State, ev: Event) {
    match ev
    case Invoke(i, _, _) => !InCall(s, i)
    case Move(i) => InCall(s, i) && (s.pcs[i].Called? ==> s.mutex == None)
  }

  function Goto(s: State, i: nat, pc: Pc): State {
    s.(pcs := s.pcs[i := pc])
  }

  function Apply(s: State, ev: Event): State
    requires Enabled(s, ev)
  {
    match ev
    case Invoke(i, op, id) => Goto(s, i, Called(op, id))
    case Move(i) =>
      match s.pcs[i]
      case Called(op, id) => Goto(s, i, Locked(op, id)).(mutex := Some(i))
      case Locked(TryAcquire, id) => Goto(s, i, Tested(TryAcquire, id, id in s.locks))
      case Locked(Release, id) =>
        Goto(s, i, Unlocking(Release, id, true)).(locks := s.locks - {id}, held := s.held - {(i, id)})
      case Tested(op, id, found) =>
        if found then Goto(s, i, Unlocking(op, id, false))
        else Goto(s, i, Unlocking(op, id, true)).(locks := s.locks + {id}, held := s.held + {(i, id)})
      case Unlocking(op, id, result) => Goto(s, i, Returned(op, id, result)).(mutex := None)
      case Returned(_, _, _) => s
  }

  function Next(s: State, ev: Event): State {
    if Enabled(s, ev) then Apply(s, ev) else s
  }

  function Exec(s: State, run: seq<Event>): State
    decreases |run|
  {
    if run == [] then s else Next(Exec(s, Before(run)), Last(run))
  }

  const START := State(None, {}, map[], {})

  /** The mutex belongs to the one caller between lock and unlock, and a test stays true while its
      caller has the mutex. */
  ghost predicate Inv(s: State) {
    && (forall i :: i in s.pcs && (s.pcs[i].Locked? || s.pcs[i].Tested? || s.pcs[i].Unlocking?) ==> s.mutex == Some(i))
    && (forall i :: i in s.pcs && s.pcs[i].Tested? ==>
          s.pcs[i].op == TryAcquire && s.pcs[i].found == (s.pcs[i].id in s.locks))
  }

  lemma {:induction false} InvHolds(run: seq<Event>)
    ensures Inv(Exec(START, run))
    decreases |run|
  {
    if run != [] {
      InvHolds(Before(run));
      EventKeepsInv(Exec(START, Before(run)), Last(run));
    }
  }

  lemma EventKeepsInv(s: State, ev: Event)
    requires Inv(s)
    ensures Inv(Next(s, ev))
  {}

  // ---------------------------------------------------------------- the atomic set

  /** A call of the specification: pending, or answered. */
  datatype Spec = Pending(op: Op, id: string) | Answered(op: Op, id: string, result: bool)

  datatype Atomic = Atomic(locks: set<string>, calls: map<nat, Spec>)

  /** The specification takes a whole operation in one step. */
  datatype AtomicEvent = Request(i: nat, op: Op, id: string) | Perform(i: nat) | Nothing

  predicate AtomicEnabled(a: Atomic, ev: AtomicEvent) {
    match ev
    case Request(i, _, _) => i in a.calls ==> a.calls[i].Answered?
    case Perform(i) => i in a.calls && a.calls[i].Pending?
    case Nothing => true
  }

  function AtomicNext(a: Atomic, ev: AtomicEvent): Atomic
    requires AtomicEnabled(a, ev)
  {
    match ev
    case Request(i, op, id) => a.(calls := a.calls[i := Pending(op, id)])
    case Perform(i) =>
      (match a.calls[i]
       case Pending(TryAcquire, id) =>
         Atomic(a.locks + {id}, a.calls[i := Answered(TryAcquire, id, id !in a.locks)])
       case Pending(Release, id) =>
         Atomic(a.locks - {id}, a.calls[i := Answered(Release, id, true)])
       case Answered(_, _, _) => a)
    case Nothing => a
  }

  function SpecOf(pc: Pc): Spec {
    match pc
    case Called(op, id) => Pending(op, id)
    case Locked(op, id) => Pending(op, id)
    case Tested(op, id, found) => if found then Answered(op, id, false) else Pending(op, id)
    case Unlocking(op, id, result) => Answered(op, id, result)
    case Returned(op, id, result) => Answered(op, id, result)
  }

  /** The atomic state a micro-state stands for. */
  function View(s: State): Atomic {
    Atomic(s.locks, map i | i in s.pcs :: SpecOf(s.pcs[i]))
  }

  /** The step of the specification that a micro-step takes: a failing TryAcquire takes effect at
      its test, a successful one at its insert, a Release at its delete. */
  function Effect(s: State, ev: Event): AtomicEvent {
    if !Enabled(s, ev) then Nothing
    else
      match ev
      case Invoke(i, op, id) => Request(i, op, id)
      case Move(i) =>
        match s.pcs[i]
        case Locked(TryAcquire, id) => if id in s.locks then Perform(i) else Nothing
        case Locked(Release, _) => Perform(i)
        case Tested(_, _, found) => if found then Nothing else Perform(i)
        case _ => Nothing
  }

  lemma ViewGoto(s: State, i: nat, pc: Pc)
    ensures View(Goto(s, i, pc)) == View(s).(calls := View(s).calls[i := SpecOf(pc)])
  {
    assert View(Goto(s, i, pc)).calls == View(s).calls[i := SpecOf(pc)];
  }

  lemma EventRefines(s: State, ev: Event)
    requires Inv(s)
    ensures AtomicEnabled(View(s), Effect(s, ev))
    ensures View(Next(s, ev)) == AtomicNext(View(s), Effect(s, ev))
  {
    if Enabled(s, ev) {
      ViewGoto(s, ev.i, Next(s, ev).pcs[ev.i]);
      assert View(Next(s, ev)).calls == View(Goto(s, ev.i, Next(s, ev).pcs[ev.i])).calls;
      if ev.Move? {
        assert View(s).calls[ev.i] == SpecOf(s.pcs[ev.i]);
        var id := s.pcs[ev.i].id;
        assert id in s.locks ==> s.locks + {id} == s.locks;
        if SpecOf(Next(s, ev).pcs[ev.i]) == SpecOf(s.pcs[ev.i]) {
          assert View(s).calls[ev.i := SpecOf(s.pcs[ev.i])] == View(s).calls;
        }
      }
    }
  }

  ghost predicate AtomicRun(a: Atomic, evs: seq<AtomicEvent>, b: Atomic)
    decreases |evs|
  {
    if evs == [] then a == b
    else AtomicEnabled(a, evs[0]) && AtomicRun(AtomicNext(a, evs[0]), evs[1..], b)
  }

  lemma {:induction false} AtomicRunAppend(a: Atomic, evs: seq<AtomicEvent>, b: Atomic, ev: AtomicEvent)
    requires AtomicRun(a, evs, b) && AtomicEnabled(b, ev)
    ensures AtomicRun(a, evs + [ev], AtomicNext(b, ev))
    decreases |evs|
  {
    if evs == [] {
      assert ([ev])[1..] == [];
    } else {
      AtomicRunAppend(AtomicNext(a, evs[0]), evs[1..], b, ev);
      assert (evs + [ev])[1..] == evs[1..] + [ev];
    }
  }

  function Effects(run: seq<Event>): seq<AtomicEvent>
    decreases |run|
  {
    if run == [] then [] else Effects(Before(run)) + [Effect(Exec(START, Before(run)), Last(run))]
  }

  /** Linearizability: every interleaving of any number of callers is a run of the atomic set, with
      the same answers, each operation taking effect between its call and its return. */
  lemma {:induction false} RunsRefineAtomicSet(run: seq<Event>)
    ensures AtomicRun(View(START), Effects(run), View(Exec(START, run)))
    decreases |run|
  {
    if run != [] {
      RunsRefineAtomicSet(Before(run));
      var s := Exec(START, Before(run));
      InvHolds(Before(run));
      EventRefines(s, Last(run));
      AtomicRunAppend(View(START), Effects(Before(run)), View(s), Effect(s, Last(run)));
    }
  }

  // ---------------------------------------------------------------- holders

  /** Only the holder of an ID calls Release on it. */
  ghost predicate HoldersRelease(run: seq<Event>)
    decreases |run|
  {
    run != [] ==>
      && HoldersRelease(Before(run))
      && var ev := Last(run);
         ev.Invoke? && ev.op == Release && Enabled(Exec(START, Before(run)), ev) ==>
           (ev.i, ev.id) in Exec(START, Before(run)).held
  }

  ghost predicate OneHolder(s: State) {
    forall h, g :: h in s.held && g in s.held && h.1 == g.1 ==> h == g
  }

  ghost predicate HeldIsLocked(s: State) {
    && (forall h :: h in s.held ==> h.1 in s.locks)
    && (forall id :: id in s.locks ==> exists i :: (i, id) in s.held)
  }

  ghost predicate ReleasersHold(s: State) {
    forall i :: i in s.pcs && s.pcs[i].op == Release && (s.pcs[i].Called? || s.pcs[i].Locked?) ==>
      (i, s.pcs[i].id) in s.held
  }

  ghost predicate HolderInv(s: State) {
    OneHolder(s) && HeldIsLocked(s) && ReleasersHold(s)
  }

  /** The insert of a successful TryAcquire. */
  lemma InsertKeepsHolders(s: State, i: nat)
    requires HolderInv(s) && i in s.pcs && s.pcs[i].Tested? && !s.pcs[i].found
    requires s.pcs[i].id !in s.locks
    ensures HolderInv(Next(s, Move(i)))
  {
    var id := s.pcs[i].id;
    var s' := Next(s, Move(i));
    assert s'.held == s.held + {(i, id)} && s'.locks == s.locks + {id};
    forall l | l in s'.locks ensures exists j :: (j, l) in s'.held {
      if l in s.locks {
        var j :| (j, l) in s.held;
        assert (j, l) in s'.held;
      } else {
        assert (i, l) in s'.held;
      }
    }
  }

  /** The delete of a Release by the holder. */
  lemma DeleteKeepsHolders(s: State, i: nat)
    requires HolderInv(s) && i in s.pcs && s.pcs[i].Locked? && s.pcs[i].op == Release
    ensures HolderInv(Next(s, Move(i)))
  {
    var id := s.pcs[i].id;
    var s' := Next(s, Move(i));
    assert s'.held == s.held - {(i, id)} && s'.locks == s.locks - {id};
    assert (i, id) in s.held;
    forall l | l in s'.locks ensures exists j :: (j, l) in s'.held {
      var j :| (j, l) in s.held;
      assert (j, l) in s'.held;
    }
    forall j | j in s'.pcs && s'.pcs[j].op == Release && (s'.pcs[j].Called? || s'.pcs[j].Locked?)
      ensures (j, s'.pcs[j].id) in s'.held
    {
      assert j != i && (j, s.pcs[j].id) in s.held;
    }
  }

  lemma EventKeepsHolders(s: State, ev: Event)
    requires Inv(s) && HolderInv(s)
    requires ev.Invoke? && ev.op == Release && Enabled(s, ev) ==> (ev.i, ev.id) in s.held
    ensures HolderInv(Next(s, ev))
  {
    if ev.Move? && Enabled(s, ev) && s.pcs[ev.i].Tested? && !s.pcs[ev.i].found {
      InsertKeepsHolders(s, ev.i);
    } else if ev.Move? && Enabled(s, ev) && s.pcs[ev.i].Locked? && s.pcs[ev.i].op == Release {
      DeleteKeepsHolders(s, ev.i);
    } else {
      var s' := Next(s, ev);
      assert s'.held == s.held && s'.locks == s.locks;
      assert HeldIsLocked(s') && OneHolder(s');
    }
  }

  /** If only holders release, every locked ID has exactly one holder and nobody else has one. */
  lemma {:induction false} OneHolderPerId(run: seq<Event>)
    requires HoldersRelease(run)
    ensures HolderInv(Exec(START, run))
    decreases |run|
  {
    if run != [] {
      OneHolderPerId(Before(run));
      InvHolds(Before(run));
      EventKeepsHolders(Exec(START, Before(run)), Last(run));
    }
  }

  /** Without that discipline an ID can get two holders: one caller releases what another holds. */
  lemma TwoHoldersWithoutDiscipline() returns (run: seq<Event>)
    ensures (0, "v") in Exec(START, run).held && (1, "v") in Exec(START, run).held
  {
    var s0 := State(None, {"v"}, map[0 := Returned(TryAcquire, "v", true)], {(0, "v")});
    run := Completes([], START, 0, TryAcquire, "v", s0);
    var s1 := State(None, {}, s0.pcs[2 := Returned(Release, "v", true)], {(0, "v")});
    run := Completes(run, s0, 2, Release, "v", s1);
    var s2 := State(None, {"v"}, s1.pcs[1 := Returned(TryAcquire, "v", true)], {(0, "v"), (1, "v")});
    run := Completes(run, s1, 1, TryAcquire, "v", s2);
  }

  /** A call run from start to end with nobody in between. */
  lemma Completes(run: seq<Event>, s: State, i: nat, op: Op, id: string, s': State) returns (run': seq<Event>)
    requires Exec(START, run) == s && s.mutex == None && !InCall(s, i)
    requires op == TryAcquire ==> id !in s.locks
    requires s' == (if op == TryAcquire
                    then State(None, s.locks + {id}, s.pcs[i := Returned(op, id, true)], s.held + {(i, id)})
                    else State(None, s.locks - {id}, s.pcs[i := Returned(op, id, true)], s.held - {(i, id)}))
    ensures Exec(START, run') == s'
  {
    run' := Snoc(run, s, Invoke(i, op, id));
    var s1 := Next(s, Invoke(i, op, id));
    run' := Snoc(run', s1, Move(i));
    var s2 := Next(s1, Move(i));
    run' := Snoc(run', s2, Move(i));
    var s3 := Next(s2, Move(i));
    if op == TryAcquire {
      run' := Snoc(run', s3, Move(i));
      var s4 := Next(s3, Move(i));
      run' := Snoc(run', s4, Move(i));
      assert s.pcs[i := Called(op, id)][i := Locked(op, id)][i := Tested(op, id, false)][i := Unlocking(op, id, true)]
              [i := Returned(op, id, true)] == s.pcs[i := Returned(op, id, true)];
    } else {
      run' := Snoc(run', s3, Move(i));
      assert s.pcs[i := Called(op, id)][i := Locked(op, id)][i := Unlocking(op, id, true)][i := Returned(op, id, true)]
          == s.pcs[i := Returned(op, id, true)];
    }
  }

  lemma Snoc(run: seq<Event>, s: State, ev: Event) returns (run': seq<Event>)
    requires Exec(START, run) == s
    ensures Exec(START, run') == Next(s, ev)
  {
    run' := run + [ev];
    assert Before(run') == run;
  }

  /** The ID an event works on. */
  function Subject(s: State, ev: Event): string
    requires Enabled(s, ev)
  {
    match ev
    case Invoke(_, _, id) => id
    case Move(i) => s.pcs[i].id
  }

  ghost predicate NeverOn(s: State, run: seq<Event>, id: string)
    decreases |run|
  {
    run != [] ==>
      && NeverOn(s, Before(run), id)
      && (Enabled(Exec(s, Before(run)), Last(run)) ==> Subject(Exec(s, Before(run)), Last(run)) != id)
  }

  /** IDs are independent: a run of calls on other IDs neither locks nor frees this one. */
  lemma {:induction false} IdsAreIndependent(s: State, run: seq<Event>, id: string, i: nat)
    requires NeverOn(s, run, id)
    ensures id in Exec(s, run).locks <==> id in s.locks
    ensures (i, id) in Exec(s, run).held <==> (i, id) in s.held
    decreases |run|
  {
    if run != [] {
      IdsAreIndependent(s, Before(run), id, i);
    }
  }
}
