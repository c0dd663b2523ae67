/** What one event can change, and where one step of a handler can lead. */
module StepFacts {
  import opened Params
  import opened Polling
  import opened Cluster
  import opened NodeSteps
  import opened ControllerSteps
  import opened System

  /** Past the StatefulSet check, and not yet answered. */
  predicate PastCheck(p: Publish) {
    !(p.ReadPvc? || p.GetSts? || p.CreateSts? || p.Done?)
  }

  /** Past the Service check, and not yet mounted. */
  predicate OverNfs(p: Publish) {
    p.WaitTcp? || p.NfsMount?
  }

  /** A StatefulSet appears only through a create step that goes on. */
  ghost predicate StsEffect(c: Cluster, p: Publish, c': Cluster, p': Publish) {
    if p.CreateSts? && p'.ReadPod?
    then Addressable(Export(p.a)) && Export(p.a) !in c.stss
         && c'.stss == c.stss[Export(p.a) := NewSts(p.a, p.uid)]
    else c'.stss == c.stss
  }

  ghost predicate SvcEffect(c: Cluster, p: Publish, c': Cluster, p': Publish) {
    if p.CreateSvc? && p'.WaitTcp?
    then Addressable(Export(p.a)) && Export(p.a) !in c.svcs
         && c'.svcs == c.svcs[Export(p.a) := NewSvc(p.a, p.uid, p'.ip)]
    else c'.svcs == c.svcs
  }

  /** A mount appears only at the call's own target. */
  ghost predicate MountEffect(c: Cluster, n: string, p: Publish, c': Cluster, p': Publish) {
    || c'.mounts == c.mounts
    || (p.BindMount? && p'.Annotate? && c'.mounts == c.mounts[MountPoint(n, p.a.target) := BindOf(p.a, p.source)])
    || (p.NfsMount? && p'.Report? && c'.mounts == c.mounts[MountPoint(n, p.a.target) := NfsOf(p.a, p.ip)])
  }

  /** Pods are annotated at most. */
  ghost predicate PodEffect(c: Cluster, c': Cluster) {
    && c'.pods.Keys == c.pods.Keys
    && forall k :: k in c.pods ==> c'.pods[k].volumes == c.pods[k].volumes
  }

  lemma PublishStepEffects(c: Cluster, n: string, p: Publish, e: PublishEnv)
    requires !p.Done?
    ensures var (c', p') := PublishStep(c, n, p, e);
            && c'.pvcs == c.pvcs && c'.born == c.born && c'.pvs == c.pvs
            && StsEffect(c, p, c', p') && SvcEffect(c, p, c', p')
  {
    hide LocalSource, GoesLocal, Poll;
  }

  lemma PublishStepMounts(c: Cluster, n: string, p: Publish, e: PublishEnv)
    requires !p.Done?
    ensures var (c', p') := PublishStep(c, n, p, e);
            MountEffect(c, n, p, c', p') && PodEffect(c, c')
  {
    hide LocalSource, GoesLocal, Poll;
  }

  /** Where a step leads: the arguments stay, the UID is that of the data PVC, and relying on a
      StatefulSet or Service starts only when it is there. */
  lemma PublishStepGoes(c: Cluster, n: string, p: Publish, e: PublishEnv)
    requires !p.Done?
    ensures var (c', p') := PublishStep(c, n, p, e);
            && PublishRank(p') < PublishRank(p)
            && (!p'.Done? ==> p'.a == p.a && !p'.ReadPvc?)
            && (!p'.Done? && !p.ReadPvc? ==> p'.uid == p.uid)
            && (!p'.Done? && p.ReadPvc? ==> p'.GetSts? && DataKey(p.a) in c.pvcs && p'.uid == c.pvcs[DataKey(p.a)].uid)
            && (PastCheck(p') ==> PastCheck(p) || Export(p.a) in c'.stss)
            && (PastCheck(p) && !p'.Done? ==> PastCheck(p'))
            && (OverNfs(p') ==> OverNfs(p) || Export(p.a) in c'.svcs)
            && (p.NfsMount? ==> p'.Report?) && (p.BindMount? ==> p'.Annotate? || p'.Report?)
  {
    hide LocalSource, GoesLocal, Poll;
  }

  /** The export a teardown deletes. */
  function WindowKey(u: Unpublish): Key
    requires InWindow(u)
  {
    Key(u.dataNs, u.volumeID)
  }

  /** The address a call goes on with is that of its Service. */
  lemma PublishStepAddress(c: Cluster, n: string, p: Publish, e: PublishEnv)
    requires !p.Done?
    ensures var (c', p') := PublishStep(c, n, p, e);
            OverNfs(p') ==>
              || (OverNfs(p) && p'.ip == p.ip)
              || (Export(p.a) in c'.svcs && p'.ip == c'.svcs[Export(p.a)].ip)
  {
    hide LocalSource, GoesLocal, Poll;
  }

  ghost predicate UnpublishEffect(c: Cluster, n: string, u: Unpublish, c': Cluster) {
    && c'.pvcs == c.pvcs && c'.born == c.born && c'.pvs == c.pvs && c'.pods == c.pods
    && (c'.stss == c.stss || (u.DeleteSts? && c'.stss == c.stss - {WindowKey(u)}))
    && (c'.svcs == c.svcs || (u.DeleteSvc? && c'.svcs == c.svcs - {WindowKey(u)}))
    && (c'.mounts == c.mounts || (u.Unmount? && c'.mounts == c.mounts - {MountPoint(n, u.target)}))
  }

  /** Between the scan and the last delete. */
  predicate InWindow(u: Unpublish) {
    u.DeleteSts? || u.DeleteSvc?
  }

  lemma UnpublishStepEffects(c: Cluster, n: string, u: Unpublish, e: UnpublishEnv)
    requires !u.Ended?
    ensures var (c', u') := UnpublishStep(c, n, u, e);
            && UnpublishEffect(c, n, u, c')
            && c'.stss == (if u.DeleteSts? && CanDelete(c.stss, WindowKey(u), e.stsDelete)
                           then c.stss - {WindowKey(u)} else c.stss)
            && c'.svcs == (if u.DeleteSvc? && CanDelete(c.svcs, WindowKey(u), e.svcDelete)
                           then c.svcs - {WindowKey(u)} else c.svcs)
  {
    hide LastValue, PvById, SeenInUse;
  }

  lemma UnpublishStepGoes(c: Cluster, n: string, u: Unpublish, e: UnpublishEnv)
    requires !u.Ended?
    ensures var (c', u') := UnpublishStep(c, n, u, e);
            && UnpublishRank(u') < UnpublishRank(u)
            && (!u'.Ended? ==> u'.volumeID == u.volumeID)
            && (InWindow(u') ==> u.Scan? || (u.DeleteSts? && u' == DeleteSvc(u.volumeID, u.dataNs)))
  {
    hide LastValue, PvById, SeenInUse;
  }

  // ---------------------------------------------------------------- events

  /** The effects of an unpublish step, seen on the system. */
  lemma UnpublishNext(s: Sys, tid: nat, e: UnpublishEnv)
    requires Enabled(s, StepUnpublish(tid, e))
    ensures var s' := Next(s, StepUnpublish(tid, e));
            var u := s.threads[tid].u;
            && UnpublishingAt(s', tid)
            && UnpublishEffect(s.c, s.threads[tid].node, u, s'.c)
            && s'.c.stss == (if u.DeleteSts? && CanDelete(s.c.stss, WindowKey(u), e.stsDelete)
                             then s.c.stss - {WindowKey(u)} else s.c.stss)
            && s'.c.svcs == (if u.DeleteSvc? && CanDelete(s.c.svcs, WindowKey(u), e.svcDelete)
                             then s.c.svcs - {WindowKey(u)} else s.c.svcs)
            && (InWindow(s'.threads[tid].u) ==>
                  && s'.threads[tid].u.volumeID == u.volumeID
                  && (u.Scan? || (u.DeleteSts? && s'.threads[tid].u == DeleteSvc(u.volumeID, u.dataNs))))
            && (forall t :: t != tid ==> (t in s'.threads <==> t in s.threads))
            && (forall t :: t != tid && t in s.threads && t in s'.threads ==> s'.threads[t] == s.threads[t])
  {
    hide UnpublishStep;
    UnpublishStepEffects(s.c, s.threads[tid].node, s.threads[tid].u, e);
    UnpublishStepGoes(s.c, s.threads[tid].node, s.threads[tid].u, e);
  }

  lemma CreateStepEffects(c: Cluster, t: Create, e: CreateEnv)
    ensures var (c', t') := CreateStep(c, t, e);
            && c'.stss == c.stss && c'.svcs == c.svcs && c'.mounts == c.mounts && c'.pvs == c.pvs && c'.pods == c.pods
            && (c' == c || (t.CreatePvc? && DataPvcKey(t.v) !in c.pvcs
                            && c'.pvcs == c.pvcs[DataPvcKey(t.v) := NewPvc(t.v, e.uid)]
                            && c'.born == c.born + {(DataPvcKey(t.v), e.uid)}))
  {
    hide VolumeContext, SpecFor;
  }

  lemma DeleteStepEffects(c: Cluster, d: Delete, e: DeleteEnv, keys: DeleteKeys)
    ensures var (c', d') := DeleteStep(c, d, e, keys);
            && c'.stss == c.stss && c'.svcs == c.svcs && c'.mounts == c.mounts && c'.pvs == c.pvs && c'.pods == c.pods
            && c'.born == c.born
            && (c' == c || (d.DeletePvc? && c'.pvcs == c.pvcs - {d.claim}))
  {}

  /** Events other than the steps of publish and unpublish: they mount nothing, create no driver
      object, and leave the calls in flight on the nodes alone. */
  lemma OtherEventEffects(s: Sys, ev: Event)
    requires !ev.StepPublish? && !ev.StepUnpublish?
    ensures var s' := Next(s, ev);
            && s'.c.mounts == s.c.mounts
            && s'.c.stss == (if ev.CollectSts? && Enabled(s, ev) then s.c.stss - {ev.k} else s.c.stss)
            && s'.c.svcs == (if ev.CollectSvc? && Enabled(s, ev) then s.c.svcs - {ev.k} else s.c.svcs)
            && (forall t :: PublishingAt(s', t) ==>
                  (PublishingAt(s, t) && s'.threads[t] == s.threads[t])
                  || (ev.StartPublish? && t == ev.tid && t !in s.threads
                      && s'.threads[t] == Publishing(ev.node, ReadPvc(ev.a))))
            && (forall t :: UnpublishingAt(s', t) ==>
                  (UnpublishingAt(s, t) && s'.threads[t] == s.threads[t])
                  || (ev.StartUnpublish? && t == ev.tid && t !in s.threads && s'.threads[t].u.Unmount?))
            && (forall t :: PublishingAt(s, t) ==> PublishingAt(s', t) && s'.threads[t] == s.threads[t])
            && (forall t :: UnpublishingAt(s, t) ==> UnpublishingAt(s', t) && s'.threads[t] == s.threads[t])
  {
    if Enabled(s, ev) {
      match ev {
        case StepCreate(tid, e) => CreateStepEffects(s.c, s.threads[tid].t, e); OtherStepThreads(s, ev);
        case StepDelete(tid, e) => DeleteStepEffects(s.c, s.threads[tid].d, e, KEYS_AS_READ); OtherStepThreads(s, ev);
        case _ =>
      }
    }
  }

  lemma OtherStepThreads(s: Sys, ev: Event)
    requires Enabled(s, ev) && (ev.StepCreate? || ev.StepDelete?)
    ensures var s' := Next(s, ev);
            && s'.threads.Keys == s.threads.Keys
            && (forall t :: t in s.threads && t != ev.tid ==> s'.threads[t] == s.threads[t])
            && !PublishingAt(s, ev.tid) && !PublishingAt(s', ev.tid)
            && !UnpublishingAt(s, ev.tid) && !UnpublishingAt(s', ev.tid)
  {
    hide CreateStep, DeleteStep;
  }

  /** The effects of a publish step, seen on the system. */
  lemma PublishNext(s: Sys, tid: nat, e: PublishEnv)
    requires Enabled(s, StepPublish(tid, e))
    ensures var s' := Next(s, StepPublish(tid, e));
            var Publishing(n, p) := s.threads[tid];
            && PublishStep(s.c, n, p, e).0 == s'.c
            && s'.threads == s.threads[tid := Publishing(n, PublishStep(s.c, n, p, e).1)]
  {
    hide PublishStep;
  }

  /** What any event does to the claims: a new incarnation has an unused UID, and a claim that
      stays keeps its contents. */
  ghost predicate ClaimEffect(c: Cluster, c': Cluster) {
    && c.born <= c'.born
    && (forall b :: b in c'.born && b !in c.born ==> UnusedUid(c.born, b.1))
    && (forall b, d :: b in c'.born && d in c'.born && b !in c.born && d !in c.born ==> b == d)
    && (forall k :: k in c'.pvcs ==>
          (k in c.pvcs && c'.pvcs[k] == c.pvcs[k])
          || (k !in c.pvcs && (k, c'.pvcs[k].uid) in c'.born && (k, c'.pvcs[k].uid) !in c.born))
  }

  /** Events of the node handlers and of the garbage collector. */
  predicate NodeEvent(ev: Event) {
    || ev.StartPublish? || ev.StepPublish? || ev.StartUnpublish? || ev.StepUnpublish?
    || ev.CollectSts? || ev.CollectSvc?
  }

  lemma EventOnClaims(s: Sys, ev: Event)
    ensures ClaimEffect(s.c, Next(s, ev).c)
    ensures NodeEvent(ev) ==>
              var c' := Next(s, ev).c;
              c'.pvcs == s.c.pvcs && c'.born == s.c.born && c'.pvs == s.c.pvs
  {
    hide PublishStep, UnpublishStep, CreateStep, DeleteStep;
    if Enabled(s, ev) {
      match ev {
        case StepPublish(tid, e) => PublishStepEffects(s.c, s.threads[tid].node, s.threads[tid].p, e);
        case StepUnpublish(tid, e) => UnpublishStepEffects(s.c, s.threads[tid].node, s.threads[tid].u, e);
        case StepCreate(tid, e) => CreateStepEffects(s.c, s.threads[tid].t, e);
        case StepDelete(tid, e) => DeleteStepEffects(s.c, s.threads[tid].d, e, KEYS_AS_READ);
        case _ =>
      }
    }
  }
}
