/** Racing calls: who creates, who loses, and what is left of a loser. */
module Races {
  import opened Common
  import opened Params
  import opened Cluster
  import opened NodeSteps
  import opened ControllerSteps
  import opened System
  import opened StepFacts

  /** The objects calls race for. */
  datatype Object = StsAt(k: Key) | SvcAt(k: Key) | PvcAt(k: Key)

  predicate Here(c: Cluster, o: Object) {
    match o
    case StsAt(k) => k in c.stss
    case SvcAt(k) => k in c.svcs
    case PvcAt(k) => k in c.pvcs
  }

  /** The object, if any, under the name of `o`. */
  predicate Unaltered(c: Cluster, c': Cluster, o: Object) {
    match o
    case StsAt(k) => k in c.stss && k in c'.stss ==> c'.stss[k] == c.stss[k]
    case SvcAt(k) => k in c.svcs && k in c'.svcs ==> c'.svcs[k] == c.svcs[k]
    case PvcAt(k) => k in c.pvcs && k in c'.pvcs ==> c'.pvcs[k] == c.pvcs[k]
  }

  /** The event sends a create of `o`. */
  ghost predicate Tries(s: Sys, ev: Event, o: Object) {
    Enabled(s, ev) &&
    match o
    case StsAt(k) => ev.StepPublish? && s.threads[ev.tid].p.CreateSts? && Export(s.threads[ev.tid].p.a) == k
    case SvcAt(k) => ev.StepPublish? && s.threads[ev.tid].p.CreateSvc? && Export(s.threads[ev.tid].p.a) == k
    case PvcAt(k) =>
      || (ev.AddPvc? && ev.k == k)
      || (ev.StepCreate? && s.threads[ev.tid].t.CreatePvc? && DataPvcKey(s.threads[ev.tid].t.v) == k)
  }

  /** Its caller goes on, or answers with the volume. */
  ghost predicate Wins(s: Sys, ev: Event, o: Object) {
    Tries(s, ev, o) &&
    match o
    case StsAt(_) => Next(s, ev).threads[ev.tid].p.ReadPod?
    case SvcAt(_) => Next(s, ev).threads[ev.tid].p.WaitTcp?
    case PvcAt(_) => ev.AddPvc? || Next(s, ev).threads[ev.tid].t.reply.Volume?
  }

  /** Its caller answers Canceled, and nothing on the cluster has changed. */
  ghost predicate Loses(s: Sys, ev: Event, o: Object) {
    Tries(s, ev, o) && Next(s, ev).c == s.c &&
    match o
    case PvcAt(_) => ev.StepCreate? && Next(s, ev).threads[ev.tid].t == Created(Refused(Canceled))
    case _ => Next(s, ev).threads[ev.tid].p == Done(Error(Canceled))
  }

  /** The event deletes `o`, which is there. */
  ghost predicate Deletes(s: Sys, ev: Event, o: Object) {
    Enabled(s, ev) && Here(s.c, o) &&
    match ev
    case StepUnpublish(tid, e) =>
      var u := s.threads[tid].u;
      || (u.DeleteSts? && o == StsAt(WindowKey(u)) && CanDelete(s.c.stss, o.k, e.stsDelete))
      || (u.DeleteSvc? && o == SvcAt(WindowKey(u)) && CanDelete(s.c.svcs, o.k, e.svcDelete))
    case StepDelete(tid, e) =>
      var d := s.threads[tid].d;
      d.DeletePvc? && o == PvcAt(d.claim) && CanDelete(s.c.pvcs, o.k, e.pvcDelete)
    case CollectSts(k) => o == StsAt(k)
    case CollectSvc(k) => o == SvcAt(k)
    case RemovePvc(k) => o == PvcAt(k)
    case _ => false
  }

  function Unit(b: bool): int { if b then 1 else 0 }

  // ---------------------------------------------------------------- one event

  ghost predicate Balanced(s: Sys, ev: Event, o: Object) {
    var s' := Next(s, ev);
    && Unit(Wins(s, ev, o)) - Unit(Deletes(s, ev, o)) == Unit(Here(s'.c, o)) - Unit(Here(s.c, o))
    && Unit(Wins(s, ev, o)) + Unit(Loses(s, ev, o)) == Unit(Tries(s, ev, o)) && Unaltered(s.c, s'.c, o)
  }

  lemma PublishOnObjects(s: Sys, ev: Event, o: Object)
    requires Enabled(s, ev) && ev.StepPublish?
    ensures Balanced(s, ev, o)
  {
    hide PublishStep;
    var Publishing(n, p) := s.threads[ev.tid];
    PublishNext(s, ev.tid, ev.pe);
    PublishStepEffects(s.c, n, p, ev.pe);
    CreatesWinOrLose(s.c, n, p, ev.pe);
  }

  lemma CreatesWinOrLose(c: Cluster, n: string, p: Publish, e: PublishEnv)
    ensures var (c', p') := PublishStep(c, n, p, e);
            var lost := c' == c && p' == Done(Error(Canceled));
            && (p.CreateSts? ==> lost || p'.ReadPod?) && (p.CreateSvc? ==> lost || p'.WaitTcp?)
  {
    hide LocalSource, GoesLocal;
  }

  lemma UnpublishOnObjects(s: Sys, ev: Event, o: Object)
    requires Enabled(s, ev) && ev.StepUnpublish?
    ensures Balanced(s, ev, o)
  {
    hide Apply;
    UnpublishNext(s, ev.tid, ev.ue);
  }

  lemma ControllerOnObjects(s: Sys, ev: Event, o: Object)
    requires Enabled(s, ev) && (ev.StepCreate? || ev.StepDelete?)
    ensures Balanced(s, ev, o)
  {
    if ev.StepCreate? {
      hide VolumeContext, SpecFor;
      CreateStepEffects(s.c, s.threads[ev.tid].t, ev.ce);
    } else {
      DeleteStepEffects(s.c, s.threads[ev.tid].d, ev.de, KEYS_AS_READ);
    }
  }

  predicate IsOther(ev: Event) {
    !(ev.StepPublish? || ev.StepUnpublish? || ev.StepCreate? || ev.StepDelete?)
  }

  lemma OthersOnTables(s: Sys, ev: Event)
    requires Enabled(s, ev) && IsOther(ev)
    ensures var c, c' := s.c, Next(s, ev).c;
            && c'.stss == (if ev.CollectSts? then c.stss - {ev.k} else c.stss)
            && c'.svcs == (if ev.CollectSvc? then c.svcs - {ev.k} else c.svcs)
            && c'.pvcs == (if ev.AddPvc? then c.pvcs[ev.k := ev.pvc]
                           else if ev.RemovePvc? then c.pvcs - {ev.k} else c.pvcs)
            && (ev.AddPvc? ==> ev.k !in c.pvcs)
  {
    hide PublishStep, UnpublishStep, CreateStep, DeleteStep, Orphan, UnusedUid;
  }

  lemma OthersAct(s: Sys, ev: Event, o: Object)
    requires Enabled(s, ev) && IsOther(ev)
    ensures Tries(s, ev, o) <==> ev.AddPvc? && o == PvcAt(ev.k)
    ensures Wins(s, ev, o) <==> Tries(s, ev, o)
    ensures !Loses(s, ev, o)
    ensures Deletes(s, ev, o)
       <==> Here(s.c, o) && ((ev.CollectSts? && o == StsAt(ev.k)) || (ev.CollectSvc? && o == SvcAt(ev.k))
                             || (ev.RemovePvc? && o == PvcAt(ev.k)))
  {
    hide Enabled, Next;
  }

  lemma OthersOnObjects(s: Sys, ev: Event, o: Object)
    requires Enabled(s, ev) && IsOther(ev)
    ensures Balanced(s, ev, o)
  {
    hide Enabled, Next, Tries, Wins, Loses, Deletes;
    OthersOnTables(s, ev);
    OthersAct(s, ev, o);
  }

  /** One event: a winning create fills its name, a delete empties it, an object is never altered,
      and a create that does not win is answered Canceled and changes nothing. */
  lemma {:induction false} EventOnObjects(s: Sys, ev: Event, o: Object)
    ensures Balanced(s, ev, o)
  {
    hide Next, Wins, Loses, Tries, Deletes, Here, Unaltered;
    if !Enabled(s, ev) {
      NothingHappens(s, ev, o);
    } else {
      match ev {
        case StepPublish(tid, e) => PublishOnObjects(s, ev, o);
        case StepUnpublish(_, _) => UnpublishOnObjects(s, ev, o);
        case StepCreate(_, _) => ControllerOnObjects(s, ev, o);
        case StepDelete(_, _) => ControllerOnObjects(s, ev, o);
        case _ => OthersOnObjects(s, ev, o);
      }
    }
  }

  lemma NothingHappens(s: Sys, ev: Event, o: Object)
    requires !Enabled(s, ev)
    ensures Balanced(s, ev, o)
  {
    hide Enabled, Apply;
  }

  // ---------------------------------------------------------------- whole runs

  datatype Act = Try | Win | Lose | Delete

  ghost predicate Happens(s: Sys, ev: Event, act: Act, o: Object) {
    match act
    case Try => Tries(s, ev, o)
    case Win => Wins(s, ev, o)
    case Lose => Loses(s, ev, o)
    case Delete => Deletes(s, ev, o)
  }

  /** How often the run does `act` on `o`. */
  ghost function Count(s: Sys, run: seq<Event>, act: Act, o: Object): int
    decreases |run|
  {
    if run == [] then 0
    else Count(s, Before(run), act, o) + Unit(Happens(Exec(s, Before(run)), Last(run), act, o))
  }

  /** Conservation, for any racing calls: the creates that get through and the deletes alternate,
      and every other create of the whole run was answered Canceled and changed nothing. */
  lemma {:induction false} CreatesAndDeletesBalance(s: Sys, run: seq<Event>, o: Object)
    ensures Count(s, run, Win, o) - Count(s, run, Delete, o) == Unit(Here(Exec(s, run).c, o)) - Unit(Here(s.c, o))
    ensures Count(s, run, Win, o) + Count(s, run, Lose, o) == Count(s, run, Try, o)
    decreases |run|
  {
    hide Next, Tries, Wins, Loses, Deletes, Here;
    if run != [] {
      CreatesAndDeletesBalance(s, Before(run), o);
      EventOnObjects(Exec(s, Before(run)), Last(run), o);
    }
  }

  /** So of any number of racing creates of a missing object, one gets through if any does, and one
      more for each delete; all the others are answered Canceled. */
  lemma {:induction false} OneCreateWins(s: Sys, run: seq<Event>, o: Object)
    requires !Here(s.c, o)
    ensures var losses, tries, deletes := Count(s, run, Lose, o), Count(s, run, Try, o), Count(s, run, Delete, o);
            && tries - 1 - deletes <= losses <= tries - deletes
            && (Here(Exec(s, run).c, o) <==> losses == tries - 1 - deletes)
  {
    CreatesAndDeletesBalance(s, run, o);
  }

  lemma {:induction false} CountIsNat(s: Sys, run: seq<Event>, act: Act, o: Object)
    ensures Count(s, run, act, o) >= 0
    decreases |run|
  {
    if run != [] {
      CountIsNat(s, Before(run), act, o);
    }
  }

  /** Call `tid` has answered CreateVolume with the volume whose data PVC is `k`. */
  predicate Answered(s: Sys, tid: nat, k: Key) {
    && tid in s.threads && s.threads[tid].Creating?
    && var t := s.threads[tid].t;
       t.Created? && t.reply.Volume? && k == Key(At(t.reply.context, PARAM_DATA_NAMESPACE), t.reply.id)
  }

  lemma AnswerIsBacked(s: Sys, ev: Event, tid: nat, k: Key)
    requires Answered(Next(s, ev), tid, k) && !Answered(s, tid, k)
    ensures Here(Next(s, ev).c, PvcAt(k))
  {
    hide SpecFor, PublishStep, UnpublishStep, DeleteStep;
    assert ev.StepCreate? && ev.tid == tid;
    var t := s.threads[tid].t;
    assert t.GetPvc? || t.CreatePvc?;
    assert At(VolumeContext(t.v), PARAM_DATA_NAMESPACE) == t.v.ns;
  }

  /** However calls race, an answered volume has its data PVC for as long as nobody deletes it. */
  lemma {:induction false} AnsweredVolumeIsHere(s: Sys, run: seq<Event>, tid: nat, k: Key)
    requires tid !in s.threads && Count(s, run, Delete, PvcAt(k)) == 0
    ensures Answered(Exec(s, run), tid, k) ==> Here(Exec(s, run).c, PvcAt(k))
    decreases |run|
  {
    hide Next, Tries, Wins, Loses, Deletes, Here, Answered;
    if run == [] {
      assert !Answered(s, tid, k) by { NotStarted(s, tid, k); }
    } else {
      var t, ev := Exec(s, Before(run)), Last(run);
      CountIsNat(s, Before(run), Delete, PvcAt(k));
      AnsweredVolumeIsHere(s, Before(run), tid, k);
      EventOnObjects(t, ev, PvcAt(k));
      if Answered(Next(t, ev), tid, k) && !Answered(t, tid, k) {
        AnswerIsBacked(t, ev, tid, k);
      }
    }
  }

  lemma NotStarted(s: Sys, tid: nat, k: Key)
    requires tid !in s.threads
    ensures !Answered(s, tid, k)
  {}

  // ---------------------------------------------------------------- what a loser leaves

  /** The event is a step of call `tid` that changes a mount table. */
  ghost predicate MountsBy(s: Sys, ev: Event, tid: nat) {
    ev.StepPublish? && ev.tid == tid && Enabled(s, ev) && Next(s, ev).c.mounts != s.c.mounts
  }

  ghost predicate HasMounted(s: Sys, run: seq<Event>, tid: nat)
    decreases |run|
  {
    run != [] && (HasMounted(s, Before(run), tid) || MountsBy(Exec(s, Before(run)), Last(run), tid))
  }

  /** Where a call that has mounted can be. */
  predicate AfterMount(s: Sys, tid: nat) {
    && PublishingAt(s, tid)
    && var p := s.threads[tid].p;
       p.Annotate? || p.Report? || (p.Done? && p.reply != Error(Canceled))
  }

  lemma AfterMountStays(s: Sys, ev: Event, tid: nat)
    ensures AfterMount(s, tid) || MountsBy(s, ev, tid) ==> AfterMount(Next(s, ev), tid)
  {
    if Enabled(s, ev) {
      if ev.StepPublish? {
        var Publishing(n, p) := s.threads[ev.tid];
        PublishStepMounts(s.c, n, p, ev.pe);
      } else if ev.StepUnpublish? {
        hide Apply;
        UnpublishNext(s, ev.tid, ev.ue);
      } else {
        hide Apply;
        OtherEventEffects(s, ev);
      }
    }
  }

  /** A publish that answers Canceled has mounted nothing in the whole run. */
  lemma {:induction false} CanceledHasNotMounted(s: Sys, run: seq<Event>, tid: nat)
    ensures HasMounted(s, run, tid) ==> AfterMount(Exec(s, run), tid)
    ensures PublishingAt(Exec(s, run), tid) && Exec(s, run).threads[tid].p == Done(Error(Canceled))
            ==> !HasMounted(s, run, tid)
    decreases |run|
  {
    hide Next, MountsBy;
    if run != [] {
      CanceledHasNotMounted(s, Before(run), tid);
      AfterMountStays(Exec(s, Before(run)), Last(run), tid);
    }
  }
}
