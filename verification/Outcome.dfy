/** The result of one whole publish call, said in one go: which objects it makes, what it mounts and
    what it answers, as conditions on the cluster before the call and the answers of the world. */
module Outcome {
  import opened Common
  import opened Params
  import opened Polling
  import opened Cluster
  import opened NodeSteps

  predicate HasClaim(c: Cluster, a: Args, e: PublishEnv) {
    Fetch(c.pvcs, DataKey(a), e.pvcGet).Some?
  }

  predicate MakesSts(c: Cluster, a: Args, e: PublishEnv) {
    && HasClaim(c, a, e)
    && Fetch(c.stss, Export(a), e.stsGet).None? && CanCreate(c.stss, Export(a), e.stsCreate)
  }

  predicate PassesCheck(c: Cluster, a: Args, e: PublishEnv) {
    HasClaim(c, a, e) && (Fetch(c.stss, Export(a), e.stsGet).Some? || CanCreate(c.stss, Export(a), e.stsCreate))
  }

  predicate PodComesUp(e: PublishEnv) {
    Poll(e.podTrace, IsPodRunning) == Success
  }

  predicate PortComesUp(e: PublishEnv) {
    Poll(e.tcpTrace, IsTcpReady) == Success
  }

  /** The call gets as far as choosing a source. */
  predicate GetsToSource(c: Cluster, n: string, a: Args, e: PublishEnv) {
    && PassesCheck(c, a, e) && PodComesUp(e)
    && !e.target.Broken? && MountPoint(n, a.target) !in c.mounts && e.target != Absent(false)
  }

  predicate Local(c: Cluster, a: Args, e: PublishEnv) {
    HasClaim(c, a, e) && GoesLocal(e, e.podUid, c.pvcs[DataKey(a)].uid)
  }

  predicate MakesSvc(c: Cluster, n: string, a: Args, e: PublishEnv) {
    && GetsToSource(c, n, a, e) && !Local(c, a, e)
    && Fetch(c.svcs, Export(a), e.svcGet).None? && CanCreate(c.svcs, Export(a), e.svcCreate)
  }

  predicate HasSvc(c: Cluster, a: Args, e: PublishEnv) {
    Fetch(c.svcs, Export(a), e.svcGet).Some? || CanCreate(c.svcs, Export(a), e.svcCreate)
  }

  function SvcIp(c: Cluster, a: Args, e: PublishEnv): string {
    match Fetch(c.svcs, Export(a), e.svcGet)
    case Some(svc) => svc.ip
    case None => e.ip
  }

  /** What the call mounts at its target. */
  function Mounted(c: Cluster, n: string, a: Args, e: PublishEnv): Option<Mount> {
    if !GetsToSource(c, n, a, e) then None
    else if Local(c, a, e) then
      if e.bindErr.None? then Some(BindOf(a, LocalSource(e, e.podUid, c.pvcs[DataKey(a)].uid))) else None
    else if HasSvc(c, a, e) && PortComesUp(e) && e.nfsErr.None? then Some(NfsOf(a, SvcIp(c, a, e)))
    else None
  }

  predicate ChmodFine(a: Args, e: PublishEnv) {
    a.permissions > 0 ==> e.chmod
  }

  function ReportReply(a: Args, err: Option<OsError>, e: PublishEnv): Reply {
    if err.Some? then Error(CodeOf(err.value)) else if ChmodFine(a, e) then Okay else Error(Internal)
  }

  function Answer(c: Cluster, n: string, a: Args, e: PublishEnv): Reply {
    if !HasClaim(c, a, e) then Error(InvalidArgument)
    else if !PassesCheck(c, a, e) || !PodComesUp(e) then Error(Canceled)
    else if e.target.Broken? then Error(Internal)
    else if MountPoint(n, a.target) in c.mounts then Okay
    else if e.target == Absent(false) then Error(Internal)
    else if Local(c, a, e) then ReportReply(a, e.bindErr, e)
    else if !HasSvc(c, a, e) || !PortComesUp(e) then Error(Canceled)
    else ReportReply(a, DirError(e), e)
  }

  function StssAfter(c: Cluster, a: Args, e: PublishEnv): map<Key, StatefulSet> {
    if MakesSts(c, a, e) then c.stss[Export(a) := NewSts(a, c.pvcs[DataKey(a)].uid)] else c.stss
  }

  function SvcsAfter(c: Cluster, n: string, a: Args, e: PublishEnv): map<Key, Service> {
    if MakesSvc(c, n, a, e) then c.svcs[Export(a) := NewSvc(a, c.pvcs[DataKey(a)].uid, e.ip)] else c.svcs
  }

  function MountsAfter(c: Cluster, n: string, a: Args, e: PublishEnv): map<MountPoint, Mount> {
    match Mounted(c, n, a, e)
    case Some(m) => c.mounts[MountPoint(n, a.target) := m]
    case None => c.mounts
  }

  function PodsAfter(c: Cluster, n: string, a: Args, e: PublishEnv): map<Key, AppPod> {
    if Mounted(c, n, a, e).Some? && Local(c, a, e) && Fetch(c.pods, PodKey(a), e.annotate).Some?
    then c.pods[PodKey(a) := c.pods[PodKey(a)].(deletionCost := HIGHEST_DELETION_COST)]
    else c.pods
  }

  // ---------------------------------------------------------------- the steps add up to it

  lemma FromReport(c: Cluster, n: string, a: Args, uid: string, err: Option<OsError>, e: PublishEnv)
    ensures FinishPublish(c, n, Report(a, uid, err), e) == (c, ReportReply(a, err, e))
  {
    PublishEnds(c, n, Report(a, uid, err), e);
  }

  lemma FromBind(c: Cluster, n: string, a: Args, uid: string, source: string, e: PublishEnv)
    ensures var c1 := c.(mounts := c.mounts[MountPoint(n, a.target) := BindOf(a, source)]);
            var pod := Fetch(c.pods, PodKey(a), e.annotate);
            FinishPublish(c, n, BindMount(a, uid, source), e)
            == (if e.bindErr.Some? then c
                else if pod.None? then c1
                else c1.(pods := c.pods[PodKey(a) := pod.value.(deletionCost := HIGHEST_DELETION_COST)]),
                ReportReply(a, e.bindErr, e))
  {
    var (c1, t1) := PublishStep(c, n, BindMount(a, uid, source), e);
    if e.bindErr.None? {
      var (c2, t2) := PublishStep(c1, n, Annotate(a, uid), e);
      assert FinishPublish(c1, n, Annotate(a, uid), e) == FinishPublish(c2, n, Report(a, uid, None), e);
      FromReport(c2, n, a, uid, None, e);
    } else {
      FromReport(c, n, a, uid, e.bindErr, e);
    }
  }

  lemma FromTcp(c: Cluster, n: string, a: Args, uid: string, err: Option<OsError>, ip: string, e: PublishEnv)
    ensures FinishPublish(c, n, WaitTcp(a, uid, err, ip), e)
         == (if PortComesUp(e) && e.nfsErr.None?
             then c.(mounts := c.mounts[MountPoint(n, a.target) := NfsOf(a, ip)]) else c,
             if PortComesUp(e) then ReportReply(a, err, e) else Error(Canceled))
  {
    if PortComesUp(e) {
      var (c1, t1) := PublishStep(c, n, NfsMount(a, uid, err, ip), e);
      assert FinishPublish(c, n, NfsMount(a, uid, err, ip), e) == FinishPublish(c1, n, Report(a, uid, err), e);
      FromReport(c1, n, a, uid, err, e);
    } else {
      PublishEnds(c, n, WaitTcp(a, uid, err, ip), e);
    }
  }

  lemma FromSvc(c: Cluster, n: string, a: Args, uid: string, err: Option<OsError>, e: PublishEnv)
    ensures var makes := Fetch(c.svcs, Export(a), e.svcGet).None? && CanCreate(c.svcs, Export(a), e.svcCreate);
            var c1 := if makes then c.(svcs := c.svcs[Export(a) := NewSvc(a, uid, e.ip)]) else c;
            FinishPublish(c, n, GetSvc(a, uid, err), e)
            == if HasSvc(c, a, e) then FinishPublish(c1, n, WaitTcp(a, uid, err, SvcIp(c, a, e)), e)
               else (c, Error(Canceled))
  {
    if Fetch(c.svcs, Export(a), e.svcGet).None? {
      assert FinishPublish(c, n, GetSvc(a, uid, err), e) == FinishPublish(c, n, CreateSvc(a, uid, err), e);
      if !CanCreate(c.svcs, Export(a), e.svcCreate) {
        PublishEnds(c, n, CreateSvc(a, uid, err), e);
      }
    }
  }

  lemma FromTarget(c: Cluster, n: string, a: Args, uid: string, podUid: string, e: PublishEnv)
    ensures FinishPublish(c, n, CheckTarget(a, uid, podUid), e)
         == if e.target.Broken? then (c, Error(Internal))
            else if MountPoint(n, a.target) in c.mounts then (c, Okay)
            else if e.target == Absent(false) then (c, Error(Internal))
            else if GoesLocal(e, podUid, uid)
            then FinishPublish(c, n, BindMount(a, uid, LocalSource(e, podUid, uid)), e)
            else FinishPublish(c, n, GetSvc(a, uid, DirError(e)), e)
  {
    hide LocalSource;
    var t1 := PublishStep(c, n, CheckTarget(a, uid, podUid), e).1;
    if t1.Done? {
      PublishEnds(c, n, CheckTarget(a, uid, podUid), e);
    }
  }

  lemma FromPod(c: Cluster, n: string, a: Args, uid: string, e: PublishEnv)
    ensures FinishPublish(c, n, ReadPod(a, uid), e)
         == if PodComesUp(e) then FinishPublish(c, n, CheckTarget(a, uid, e.podUid), e) else (c, Error(Canceled))
  {
    assert FinishPublish(c, n, ReadPod(a, uid), e) == FinishPublish(c, n, WaitPod(a, uid, e.podUid), e);
    if !PodComesUp(e) {
      PublishEnds(c, n, WaitPod(a, uid, e.podUid), e);
    }
  }

  lemma FromStart(c: Cluster, n: string, a: Args, e: PublishEnv)
    ensures FinishPublish(c, n, ReadPvc(a), e)
         == if !HasClaim(c, a, e) then (c, Error(InvalidArgument))
            else if !PassesCheck(c, a, e) then (c, Error(Canceled))
            else FinishPublish(c.(stss := StssAfter(c, a, e)), n, ReadPod(a, c.pvcs[DataKey(a)].uid), e)
  {
    if !HasClaim(c, a, e) {
      PublishEnds(c, n, ReadPvc(a), e);
    } else {
      var uid := c.pvcs[DataKey(a)].uid;
      assert FinishPublish(c, n, ReadPvc(a), e) == FinishPublish(c, n, GetSts(a, uid), e);
      if Fetch(c.stss, Export(a), e.stsGet).None? {
        assert FinishPublish(c, n, GetSts(a, uid), e) == FinishPublish(c, n, CreateSts(a, uid), e);
        if !CanCreate(c.stss, Export(a), e.stsCreate) {
          PublishEnds(c, n, CreateSts(a, uid), e);
        }
      }
    }
  }

  /** One whole call: its effect on every table, and its answer. */
  lemma PublishOutcome(c: Cluster, n: string, a: Args, e: PublishEnv)
    ensures FinishPublish(c, n, ReadPvc(a), e)
         == (c.(stss := StssAfter(c, a, e), svcs := SvcsAfter(c, n, a, e), mounts := MountsAfter(c, n, a, e),
                pods := PodsAfter(c, n, a, e)),
             Answer(c, n, a, e))
  {
    hide FinishPublish, LocalSource;
    FromStart(c, n, a, e);
    if PassesCheck(c, a, e) {
      var uid := c.pvcs[DataKey(a)].uid;
      var c1 := c.(stss := StssAfter(c, a, e));
      FromPod(c1, n, a, uid, e);
      FromTarget(c1, n, a, uid, e.podUid, e);
      FromBind(c1, n, a, uid, LocalSource(e, e.podUid, uid), e);
      FromSvc(c1, n, a, uid, DirError(e), e);
      var c2 := c1.(svcs := SvcsAfter(c, n, a, e));
      FromTcp(c2, n, a, uid, DirError(e), SvcIp(c, a, e), e);
    }
  }
}
