/** Teardown safety: no live mount and no publish in flight loses its StatefulSet or Service. */
module Safety {
  import opened Common
  import opened Params
  import opened Cluster
  import opened NodeSteps
  import opened StepFacts
  import opened System

  /** `tid` is a publish past its StatefulSet check, relying on the export `k`. */
  predicate PublishRelies(s: Sys, tid: nat, k: Key) {
    PublishingAt(s, tid) && PastCheck(s.threads[tid].p) && Export(s.threads[tid].p.a) == k
  }

  predicate PublishReliesOnSvc(s: Sys, tid: nat, k: Key) {
    PublishingAt(s, tid) && OverNfs(s.threads[tid].p) && Export(s.threads[tid].p.a) == k
  }

  predicate MountRelies(s: Sys, at: MountPoint, k: Key) {
    at in s.c.mounts && s.c.mounts[at].exported == k
  }

  predicate MountReliesOnSvc(s: Sys, at: MountPoint, k: Key) {
    MountRelies(s, at, k) && s.c.mounts[at].kind == Nfs
  }

  /** The StatefulSet `k` has a user. */
  ghost predicate StsLive(s: Sys, k: Key) {
    (exists tid :: PublishRelies(s, tid, k)) || (exists at :: MountRelies(s, at, k))
  }

  /** The Service `k` has a user. */
  ghost predicate SvcLive(s: Sys, k: Key) {
    (exists tid :: PublishReliesOnSvc(s, tid, k)) || (exists at :: MountReliesOnSvc(s, at, k))
  }

  /** Every user has what it relies on. */
  ghost predicate Safe(s: Sys) {
    && (forall tid, k :: PublishRelies(s, tid, k) ==> k in s.c.stss)
    && (forall at, k :: MountRelies(s, at, k) ==> k in s.c.stss)
    && (forall tid, k :: PublishReliesOnSvc(s, tid, k) ==> k in s.c.svcs)
    && (forall at, k :: MountReliesOnSvc(s, at, k) ==> k in s.c.svcs)
  }

  /** The event takes a StatefulSet or Service away from a user. */
  ghost predicate PullsAway(s: Sys, ev: Event) {
    match ev
    case StepUnpublish(tid, e) =>
      Enabled(s, ev) &&
      (match s.threads[tid].u
       case DeleteSts(v, ns) => CanDelete(s.c.stss, Key(ns, v), e.stsDelete) && StsLive(s, Key(ns, v))
       case DeleteSvc(v, ns) => CanDelete(s.c.svcs, Key(ns, v), e.svcDelete) && SvcLive(s, Key(ns, v))
       case _ => false)
    case CollectSts(k) => Enabled(s, ev) && StsLive(s, k)
    case CollectSvc(k) => Enabled(s, ev) && SvcLive(s, k)
    case _ => false
  }

  // ---------------------------------------------------------------- one event

  /** A publish step takes nothing away, and gives what it starts to rely on. */
  lemma PublishStepIsSafe(s: Sys, tid: nat, e: PublishEnv)
    requires Safe(s) && Enabled(s, StepPublish(tid, e))
    ensures Safe(Next(s, StepPublish(tid, e)))
  {
    hide PublishStep;
    var s' := Next(s, StepPublish(tid, e));
    var Publishing(n, p) := s.threads[tid];
    PublishStepEffects(s.c, n, p, e);
    PublishStepMounts(s.c, n, p, e);
    PublishStepGoes(s.c, n, p, e);
    var k := Export(p.a);
    assert PastCheck(p) ==> PublishRelies(s, tid, k);
    assert OverNfs(p) ==> PublishReliesOnSvc(s, tid, k);
    assert s'.c.stss.Keys >= s.c.stss.Keys && s'.c.svcs.Keys >= s.c.svcs.Keys;
    forall t, l | PublishRelies(s', t, l) ensures l in s'.c.stss {
      assert t != tid ==> PublishRelies(s, t, l);
    }
    forall t, l | PublishReliesOnSvc(s', t, l) ensures l in s'.c.svcs {
      assert t != tid ==> PublishReliesOnSvc(s, t, l);
    }
    forall at, l | MountRelies(s', at, l) ensures l in s'.c.stss {
      assert MountRelies(s, at, l) || l == k;
    }
    forall at, l | MountReliesOnSvc(s', at, l) ensures l in s'.c.svcs {
      assert MountReliesOnSvc(s, at, l) || (l == k && p.NfsMount?);
    }
  }

  /** Users after an event that starts none are users before it. */
  lemma UsersOnlyLeave(s: Sys, s': Sys)
    requires Safe(s)
    requires forall at :: at in s'.c.mounts ==> at in s.c.mounts && s'.c.mounts[at] == s.c.mounts[at]
    requires forall t :: PublishingAt(s', t) ==>
               (PublishingAt(s, t) && s'.threads[t].p == s.threads[t].p) || s'.threads[t].p.ReadPvc?
    ensures (forall k :: StsLive(s', k) ==> StsLive(s, k)) && (forall k :: SvcLive(s', k) ==> SvcLive(s, k))
    ensures Safe(s') <==> (forall k :: StsLive(s', k) ==> k in s'.c.stss)
                          && (forall k :: SvcLive(s', k) ==> k in s'.c.svcs)
  {
    forall k | StsLive(s', k) ensures StsLive(s, k) {
      if t :| PublishRelies(s', t, k) { assert PublishRelies(s, t, k); }
      else { var at :| MountRelies(s', at, k); assert MountRelies(s, at, k); }
    }
    forall k | SvcLive(s', k) ensures SvcLive(s, k) {
      if t :| PublishReliesOnSvc(s', t, k) { assert PublishReliesOnSvc(s, t, k); }
      else { var at :| MountReliesOnSvc(s', at, k); assert MountReliesOnSvc(s, at, k); }
    }
  }

  /** The same mounts and the same publishes mean the same users. */
  lemma UsersStay(s: Sys, s': Sys)
    requires s'.c.mounts == s.c.mounts
    requires forall t :: PublishingAt(s', t) <==> PublishingAt(s, t)
    requires forall t :: PublishingAt(s, t) && PublishingAt(s', t) ==> s'.threads[t] == s.threads[t]
    ensures forall k :: StsLive(s', k) <==> StsLive(s, k)
    ensures forall k :: SvcLive(s', k) <==> SvcLive(s, k)
  {
    forall k ensures StsLive(s', k) <==> StsLive(s, k) {
      assert forall t :: PublishRelies(s', t, k) <==> PublishRelies(s, t, k);
      assert forall at :: MountRelies(s', at, k) <==> MountRelies(s, at, k);
    }
    forall k ensures SvcLive(s', k) <==> SvcLive(s, k) {
      assert forall t :: PublishReliesOnSvc(s', t, k) <==> PublishReliesOnSvc(s, t, k);
      assert forall at :: MountReliesOnSvc(s', at, k) <==> MountReliesOnSvc(s, at, k);
    }
  }

  lemma SafeByUsers(s: Sys)
    ensures Safe(s) <==> (forall k :: StsLive(s, k) ==> k in s.c.stss) && (forall k :: SvcLive(s, k) ==> k in s.c.svcs)
  {}

  lemma UnpublishStepIsSafeIff(s: Sys, tid: nat, e: UnpublishEnv)
    requires Safe(s) && Enabled(s, StepUnpublish(tid, e))
    ensures Safe(Next(s, StepUnpublish(tid, e))) <==> !PullsAway(s, StepUnpublish(tid, e))
  {
    hide Next;
    var s' := Next(s, StepUnpublish(tid, e));
    var u := s.threads[tid].u;
    SafeByUsers(s);
    SafeByUsers(s');
    UnpublishNext(s, tid, e);
    UsersOnlyLeave(s, s');
    if u.DeleteSts? || u.DeleteSvc? {
      UsersStay(s, s');
    }
  }

  lemma CollectIsSafeIff(s: Sys, ev: Event)
    requires Safe(s) && Enabled(s, ev) && (ev.CollectSts? || ev.CollectSvc?)
    ensures Safe(Next(s, ev)) <==> !PullsAway(s, ev)
  {
    hide Next;
    SafeByUsers(s);
    SafeByUsers(Next(s, ev));
    OtherEventEffects(s, ev);
    UsersStay(s, Next(s, ev));
  }

  /** The events of users, controllers and starting calls are harmless. */
  lemma OtherEventsAreSafe(s: Sys, ev: Event)
    requires Safe(s) && Enabled(s, ev)
    requires !(ev.StepPublish? || ev.StepUnpublish? || ev.CollectSts? || ev.CollectSvc?)
    ensures Safe(Next(s, ev))
  {
    hide Next, Apply;
    SafeByUsers(s);
    OtherEventEffects(s, ev);
    UsersOnlyLeave(s, Next(s, ev));
  }

  /** An event breaks safety exactly when it is a delete that gets through on an object in use. */
  lemma EventIsSafeIff(s: Sys, ev: Event)
    requires Safe(s)
    ensures Safe(Next(s, ev)) <==> !PullsAway(s, ev)
  {
    hide Safe, Apply;
    if Enabled(s, ev) {
      match ev {
        case StepPublish(tid, e) => PublishStepIsSafe(s, tid, e);
        case StepUnpublish(tid, e) => UnpublishStepIsSafeIff(s, tid, e);
        case CollectSts(_) => CollectIsSafeIff(s, ev);
        case CollectSvc(_) => CollectIsSafeIff(s, ev);
        case _ => OtherEventsAreSafe(s, ev);
      }
    }
  }

  // ---------------------------------------------------------------- whole runs

  ghost predicate AlwaysSafe(s: Sys, run: seq<Event>)
    decreases |run|
  {
    Safe(Exec(s, run)) && (run != [] ==> AlwaysSafe(s, Before(run)))
  }

  ghost predicate NeverPullsAway(s: Sys, run: seq<Event>)
    decreases |run|
  {
    run != [] ==> NeverPullsAway(s, Before(run)) && !PullsAway(Exec(s, Before(run)), Last(run))
  }

  /** A run is safe throughout exactly when none of its deletes hits an object in use. */
  lemma {:induction false} RunIsSafeIff(s: Sys, run: seq<Event>)
    requires Safe(s)
    ensures AlwaysSafe(s, run) <==> NeverPullsAway(s, run)
    decreases |run|
  {
    hide Safe, PullsAway, Next;
    if run != [] {
      RunIsSafeIff(s, Before(run));
      if AlwaysSafe(s, Before(run)) {
        EventIsSafeIff(Exec(s, Before(run)), Last(run));
      }
    }
  }

  // ---------------------------------------------------------------- a discipline that suffices

  /** The PV of the volume is claimed, and the pod is listed with a volume on that claim. */
  ghost predicate Listed(c: Cluster, volumeID: string, pod: Key) {
    var pv := PvById(c.pvs, volumeID);
    && pv.Some? && pv.value.claim.Some?
    && var claim := pv.value.claim.value;
    && Addressable(claim) && pod in c.pods && pod.ns == claim.ns && Uses(c.pods[pod], claim.name)
  }

  /** Every pod stays listed while it is being published for or its mount is live. */
  ghost predicate UsersListed(s: Sys) {
    && (forall t :: PublishingAt(s, t) && !s.threads[t].p.Done? ==>
          Listed(s.c, s.threads[t].p.a.volumeID, PodKey(s.threads[t].p.a)))
    && (forall at :: at in s.c.mounts ==> Listed(s.c, s.c.mounts[at].exported.name, s.c.mounts[at].pod))
  }

  /** The data PVC that owns an object in use is kept. */
  ghost predicate OwnersKept(s: Sys) {
    && (forall k :: k in s.c.stss && StsLive(s, k) ==> !Orphan(s.c, k.ns, s.c.stss[k].owner))
    && (forall k :: k in s.c.svcs && SvcLive(s, k) ==> !Orphan(s.c, k.ns, s.c.svcs[k].owner))
  }

  /** A teardown scans with a pod list that succeeds and a PV that is still current. */
  ghost predicate ScanRule(s: Sys, ev: Event) {
    ev.StepUnpublish? && UnpublishingAt(s, ev.tid) && s.threads[ev.tid].u.Scan? ==>
      var u := s.threads[ev.tid].u;
      ev.ue.podList && PvById(s.c.pvs, u.volumeID) == Some(u.pv)
  }

  /** Thread `t` is between its scan and its last delete on the export `k`. */
  predicate WindowOn(s: Sys, t: nat, k: Key) {
    UnpublishingAt(s, t) && InWindow(s.threads[t].u) && k == Key(s.threads[t].u.dataNs, s.threads[t].u.volumeID)
  }

  /** No publish passes its StatefulSet check inside a teardown window of its own export. */
  ghost predicate WindowRule(s: Sys, ev: Event) {
    ev.StepPublish? && PublishingAt(s, ev.tid) && (s.threads[ev.tid].p.GetSts? || s.threads[ev.tid].p.CreateSts?) ==>
      forall t :: !WindowOn(s, t, Export(s.threads[ev.tid].p.a))
  }

  /** Scan and deletes as one step: while a window is open, its own thread moves. */
  ghost predicate AtomicRule(s: Sys, ev: Event) {
    forall t, k :: WindowOn(s, t, k) ==> ev.StepUnpublish? && ev.tid == t
  }

  ghost predicate WellBehaved(s: Sys, run: seq<Event>)
    decreases |run|
  {
    && UsersListed(Exec(s, run)) && OwnersKept(Exec(s, run))
    && (run != [] ==> WellBehaved(s, Before(run)) && ScanRule(Exec(s, Before(run)), Last(run)))
  }

  ghost predicate WindowsRespected(s: Sys, run: seq<Event>)
    decreases |run|
  {
    run != [] ==> WindowsRespected(s, Before(run)) && WindowRule(Exec(s, Before(run)), Last(run))
  }

  ghost predicate TeardownsAtomic(s: Sys, run: seq<Event>)
    decreases |run|
  {
    run != [] ==> TeardownsAtomic(s, Before(run)) && AtomicRule(Exec(s, Before(run)), Last(run))
  }

  ghost predicate NoWindowOnLive(s: Sys) {
    forall t, k :: WindowOn(s, t, k) ==> !StsLive(s, k)
  }

  lemma LiveIsListed(s: Sys, k: Key)
    requires UsersListed(s) && StsLive(s, k)
    ensures exists pod :: Listed(s.c, k.name, pod)
  {}

  lemma PublishKeepsWindows(s: Sys, tid: nat, e: PublishEnv)
    requires NoWindowOnLive(s) && WindowRule(s, StepPublish(tid, e)) && Enabled(s, StepPublish(tid, e))
    ensures NoWindowOnLive(Next(s, StepPublish(tid, e)))
  {
    hide PublishStep;
    var s' := Next(s, StepPublish(tid, e));
    var Publishing(n, p) := s.threads[tid];
    PublishStepMounts(s.c, n, p, e);
    PublishStepGoes(s.c, n, p, e);
    var x := Export(p.a);
    assert PastCheck(p) ==> PublishRelies(s, tid, x);
    forall t, k | WindowOn(s', t, k) ensures !StsLive(s', k) {
      assert WindowOn(s, t, k);
      assert k == x ==> !PastCheck(s'.threads[tid].p) && s'.c.mounts == s.c.mounts;
      forall r | PublishRelies(s', r, k) ensures PublishRelies(s, r, k) {
      }
      forall at | MountRelies(s', at, k) ensures MountRelies(s, at, k) {}
    }
  }

  /** With a current PV and a listed pod, a scan ends the teardown exactly when its list succeeds:
      a failed list reads as an empty one. */
  lemma ScanSeesIff(s: Sys, tid: nat, e: UnpublishEnv, pod: Key)
    requires Enabled(s, StepUnpublish(tid, e)) && s.threads[tid].u.Scan?
    requires PvById(s.c.pvs, s.threads[tid].u.volumeID) == Some(s.threads[tid].u.pv)
    requires Listed(s.c, s.threads[tid].u.volumeID, pod)
    ensures Next(s, StepUnpublish(tid, e)).threads[tid].u == Ended(Okay) <==> e.podList
  {}

  /** So a failed list by itself is enough to take a StatefulSet from its users. */
  lemma FailedListIsUnsafe(s: Sys, tid: nat, e: UnpublishEnv, d: UnpublishEnv, k: Key)
    requires Safe(s) && Enabled(s, StepUnpublish(tid, e)) && s.threads[tid].u.Scan?
    requires s.threads[tid].u.pv.claim.Some? && !e.podList && d.stsDelete
    requires k == Key(LastValue(e.attributes, DataNamespace), s.threads[tid].u.volumeID)
    requires Addressable(k) && StsLive(s, k)
    ensures !Safe(Next(Next(s, StepUnpublish(tid, e)), StepUnpublish(tid, d)))
  {
    hide Safe, LastValue;
    var t := Next(s, StepUnpublish(tid, e));
    assert t == s.(threads := s.threads[tid := Unpublishing(s.threads[tid].node, DeleteSts(k.name, k.ns))]);
    UsersStay(s, t);
    SafeByUsers(s);
    SafeByUsers(t);
    UnpublishStepIsSafeIff(t, tid, d);
  }

  lemma OthersKeepWindows(s: Sys, ev: Event)
    requires Safe(s) && NoWindowOnLive(s) && UsersListed(s) && ScanRule(s, ev) && Enabled(s, ev) && !ev.StepPublish?
    ensures NoWindowOnLive(Next(s, ev))
  {
    hide Apply, Safe, SeenInUse;
    var s' := Next(s, ev);
    if ev.StepUnpublish? {
      UnpublishNext(s, ev.tid, ev.ue);
    } else {
      OtherEventEffects(s, ev);
    }
    UsersOnlyLeave(s, s');
    forall t, k | WindowOn(s', t, k) ensures !StsLive(s', k) {
      if !WindowOn(s, t, k) && StsLive(s, k) {
        assert ev.StepUnpublish? && ev.tid == t && s.threads[t].u.Scan?;
        LiveIsListed(s, k);
        var pod :| Listed(s.c, k.name, pod);
        ScanSeesIff(s, t, ev.ue, pod);
        assert false;
      }
    }
  }

  lemma RuleKeepsHold(s: Sys, ev: Event)
    requires NoWindowOnLive(s) && OwnersKept(s) && Safe(s)
    ensures !PullsAway(s, ev)
  {
    if ev.StepUnpublish? && Enabled(s, ev) {
      var u := s.threads[ev.tid].u;
      if InWindow(u) {
        assert WindowOn(s, ev.tid, Key(u.dataNs, u.volumeID));
        if SvcLive(s, Key(u.dataNs, u.volumeID)) {
          SvcLiveIsStsLive(s, Key(u.dataNs, u.volumeID));
          assert false;
        }
      }
    }
  }

  lemma SvcLiveIsStsLive(s: Sys, k: Key)
    requires SvcLive(s, k)
    ensures StsLive(s, k)
  {
    if t :| PublishReliesOnSvc(s, t, k) {
      assert PublishRelies(s, t, k);
    } else {
      var at :| MountReliesOnSvc(s, at, k);
      assert MountRelies(s, at, k);
    }
  }

  /** Teardown safety, over every interleaving of any number of calls on any number of nodes. */
  lemma {:induction false} TeardownSafety(s: Sys, run: seq<Event>)
    requires Initial(s) && WellBehaved(s, run) && WindowsRespected(s, run)
    ensures AlwaysSafe(s, run) && NoWindowOnLive(Exec(s, run))
    decreases |run|
  {
    hide Safe, PullsAway, Next, UsersListed, OwnersKept, ScanRule, WindowRule, NoWindowOnLive;
    if run == [] {
      InitiallySafe(s);
    } else {
      TeardownSafety(s, Before(run));
      var t, ev := Exec(s, Before(run)), Last(run);
      assert WellBehaved(s, Before(run));
      KeepsWindows(t, ev);
      RuleKeepsHold(t, ev);
      EventIsSafeIff(t, ev);
    }
  }

  lemma KeepsWindows(s: Sys, ev: Event)
    requires Safe(s) && NoWindowOnLive(s) && UsersListed(s) && ScanRule(s, ev) && WindowRule(s, ev)
    ensures NoWindowOnLive(Next(s, ev))
  {
    hide Safe, UsersListed, ScanRule, WindowRule, NoWindowOnLive, Apply;
    if Enabled(s, ev) {
      if ev.StepPublish? {
        PublishKeepsWindows(s, ev.tid, ev.pe);
      } else {
        OthersKeepWindows(s, ev);
      }
    }
  }

  lemma InitiallySafe(s: Sys)
    requires Initial(s)
    ensures Safe(s) && NoWindowOnLive(s)
  {}

  lemma {:induction false} AtomicRespectsWindows(s: Sys, run: seq<Event>)
    requires TeardownsAtomic(s, run)
    ensures WindowsRespected(s, run)
    decreases |run|
  {
    if run != [] {
      AtomicRespectsWindows(s, Before(run));
    }
  }

  /** With the scan and the deletes as one step the discipline on windows is met. */
  lemma {:induction false} AtomicTeardownIsSafe(s: Sys, run: seq<Event>)
    requires Initial(s) && WellBehaved(s, run) && TeardownsAtomic(s, run)
    ensures AlwaysSafe(s, run)
  {
    AtomicRespectsWindows(s, run);
    TeardownSafety(s, run);
  }
}
