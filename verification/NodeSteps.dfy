/** NodePublishVolume and NodeUnpublishVolume, cut at every access to shared state.

    A handler in flight is a value: its program counter with the locals it still
    needs.  One step performs one access; what the outside world answers is in the
    step's environment. */
module NodeSteps {
  import opened Common
  import opened Params
  import opened Polling
  import opened SourceDir
  import opened Cluster

  // ---------------------------------------------------------------- publish

  /** The first look at the target path: a path that exists, one that does not (with the outcome
      of creating it), or one whose test fails. */
  datatype TargetTest = Present | Absent(created: bool) | Broken

  /** os.ReadDir on the pod's volume directory. */
  datatype DirListing = UnreadableDir(err: OsError) | Listing(names: seq<string>)

  /** What the world answers during one publish call.  `podUid` is empty when the pod is not read;
      `ip` is the address a new Service would get. */
  datatype PublishEnv = PublishEnv(
    pvcGet: bool, stsGet: bool, stsCreate: bool, podUid: string, podTrace: seq<PodObs>,
    target: TargetTest, kubeletRoot: string, dir: DirListing, sourceMounted: bool,
    bindErr: Option<OsError>, annotate: bool,
    svcGet: bool, svcCreate: bool, ip: string, tcpTrace: seq<TcpObs>, nfsErr: Option<OsError>,
    chmod: bool)

  datatype Publish =
    | ReadPvc(a: Args)
    | GetSts(a: Args, uid: string)
    | CreateSts(a: Args, uid: string)
    | ReadPod(a: Args, uid: string)
    | WaitPod(a: Args, uid: string, podUid: string)
    | CheckTarget(a: Args, uid: string, podUid: string)
    | ChooseSource(a: Args, uid: string, podUid: string)
    | BindMount(a: Args, uid: string, source: string)
    | Annotate(a: Args, uid: string)
    | GetSvc(a: Args, uid: string, dirErr: Option<OsError>)
    | CreateSvc(a: Args, uid: string, dirErr: Option<OsError>)
    | WaitTcp(a: Args, uid: string, dirErr: Option<OsError>, ip: string)
    | NfsMount(a: Args, uid: string, dirErr: Option<OsError>, ip: string)
    | Report(a: Args, uid: string, err: Option<OsError>)
    | Done(reply: Reply)

  /** StatefulSet and Service share this key. */
  function Export(a: Args): Key { Key(a.dataNs, a.volumeID) }

  function DataKey(a: Args): Key { Key(a.dataNs, a.dataPvc) }

  function PodKey(a: Args): Key { Key(a.podNs, a.podName) }

  function NewSts(a: Args, uid: string): StatefulSet {
    StatefulSet(a.volumeID, a.volumeID, a.volumeID, Owner(a.dataPvc, uid), a.dataPvc, a.image, a.hostsAllow)
  }

  function NewSvc(a: Args, uid: string, ip: string): Service {
    Service(a.volumeID, a.volumeID, Owner(a.dataPvc, uid), ip)
  }

  function BindOf(a: Args, source: string): Mount {
    Mount(Bind, source, ["bind"], Export(a), PodKey(a))
  }

  function NfsOf(a: Args, ip: string): Mount {
    Mount(Nfs, ip + ":/", a.options, Export(a), PodKey(a))
  }

  const HIGHEST_DELETION_COST := "2147483647"

  function LocalSource(e: PublishEnv, podUid: string, uid: string): string {
    match e.dir
    case UnreadableDir(_) => ""
    case Listing(names) => Source(PodVolumeDir(e.kubeletRoot, podUid), names, uid)
  }

  /** mount.IsNotMountPoint says "no mount point" of the empty path. */
  predicate GoesLocal(e: PublishEnv, podUid: string, uid: string) {
    LocalSource(e, podUid, uid) != "" && e.sourceMounted
  }

  function DirError(e: PublishEnv): Option<OsError> {
    match e.dir
    case UnreadableDir(err) => Some(err)
    case Listing(_) => None
  }

  function CodeOf(err: OsError): Code {
    match err
    case Denied => PermissionDenied
    case BadArgument => InvalidArgument
    case OtherError => Internal
  }

  function PublishStep(c: Cluster, n: string, t: Publish, e: PublishEnv): (Cluster, Publish) {
    match t
    case ReadPvc(a) =>
      (match Fetch(c.pvcs, DataKey(a), e.pvcGet)
       case None => (c, Done(Error(InvalidArgument)))
       case Some(pvc) => (c, GetSts(a, pvc.uid)))
    case GetSts(a, uid) =>
      if Fetch(c.stss, Export(a), e.stsGet).Some? then (c, ReadPod(a, uid)) else (c, CreateSts(a, uid))
    case CreateSts(a, uid) =>
      if CanCreate(c.stss, Export(a), e.stsCreate)
      then (c.(stss := c.stss[Export(a) := NewSts(a, uid)]), ReadPod(a, uid))
      else (c, Done(Error(Canceled)))
    case ReadPod(a, uid) => (c, WaitPod(a, uid, e.podUid))
    case WaitPod(a, uid, podUid) =>
      if Poll(e.podTrace, IsPodRunning) == Success then (c, CheckTarget(a, uid, podUid)) else (c, Done(Error(Canceled)))
    case CheckTarget(a, uid, podUid) =>
      if e.target.Broken? then (c, Done(Error(Internal)))
      else if MountPoint(n, a.target) in c.mounts then (c, Done(Okay))
      else if e.target == Absent(false) then (c, Done(Error(Internal)))
      else (c, ChooseSource(a, uid, podUid))
    case ChooseSource(a, uid, podUid) =>
      if GoesLocal(e, podUid, uid) then (c, BindMount(a, uid, LocalSource(e, podUid, uid)))
      else (c, GetSvc(a, uid, DirError(e)))
    case BindMount(a, uid, source) =>
      if e.bindErr.None?
      then (c.(mounts := c.mounts[MountPoint(n, a.target) := BindOf(a, source)]), Annotate(a, uid))
      else (c, Report(a, uid, e.bindErr))
    case Annotate(a, uid) =>
      (match Fetch(c.pods, PodKey(a), e.annotate)
       case None => (c, Report(a, uid, None))
       case Some(pod) =>
         (c.(pods := c.pods[PodKey(a) := pod.(deletionCost := HIGHEST_DELETION_COST)]), Report(a, uid, None)))
    case GetSvc(a, uid, dirErr) =>
      (match Fetch(c.svcs, Export(a), e.svcGet)
       case Some(svc) => (c, WaitTcp(a, uid, dirErr, svc.ip))
       case None => (c, CreateSvc(a, uid, dirErr)))
    case CreateSvc(a, uid, dirErr) =>
      if CanCreate(c.svcs, Export(a), e.svcCreate)
      then (c.(svcs := c.svcs[Export(a) := NewSvc(a, uid, e.ip)]), WaitTcp(a, uid, dirErr, e.ip))
      else (c, Done(Error(Canceled)))
    case WaitTcp(a, uid, dirErr, ip) =>
      if Poll(e.tcpTrace, IsTcpReady) == Success then (c, NfsMount(a, uid, dirErr, ip)) else (c, Done(Error(Canceled)))
    case NfsMount(a, uid, dirErr, ip) =>
      // the mount's own error is assigned to a block-local variable: Report sees the ReadDir error
      if e.nfsErr.None?
      then (c.(mounts := c.mounts[MountPoint(n, a.target) := NfsOf(a, ip)]), Report(a, uid, dirErr))
      else (c, Report(a, uid, dirErr))
    case Report(a, uid, err) =>
      (match err
       case Some(osErr) => (c, Done(Error(CodeOf(osErr))))
       case None => if a.permissions > 0 && !e.chmod then (c, Done(Error(Internal))) else (c, Done(Okay)))
    case Done(_) => (c, t)
  }

  function PublishRank(t: Publish): nat {
    match t
    case ReadPvc(_) => 13 case GetSts(_, _) => 12 case CreateSts(_, _) => 11 case ReadPod(_, _) => 10
    case WaitPod(_, _, _) => 9 case CheckTarget(_, _, _) => 8 case ChooseSource(_, _, _) => 7
    case BindMount(_, _, _) => 6 case Annotate(_, _) => 5
    case GetSvc(_, _, _) => 5 case CreateSvc(_, _, _) => 4 case WaitTcp(_, _, _, _) => 3
    case NfsMount(_, _, _, _) => 2 case Report(_, _, _) => 1 case Done(_) => 0
  }

  /** The handler left alone from `t` on. */
  function FinishPublish(c: Cluster, n: string, t: Publish, e: PublishEnv): (Cluster, Reply)
    decreases PublishRank(t)
  {
    if t.Done? then (c, t.reply)
    else var (c', t') := PublishStep(c, n, t, e); FinishPublish(c', n, t', e)
  }

  lemma PublishEnds(c: Cluster, n: string, t: Publish, e: PublishEnv)
    requires !t.Done? && PublishStep(c, n, t, e).1.Done?
    ensures FinishPublish(c, n, t, e) == (PublishStep(c, n, t, e).0, PublishStep(c, n, t, e).1.reply)
  {
    var (c', t') := PublishStep(c, n, t, e);
    assert FinishPublish(c', n, t', e) == (c', t'.reply);
  }

  /** One whole call of NodePublishVolume on node `n`. */
  function PublishCall(c: Cluster, n: string, r: PublishRequest, default: nat, e: PublishEnv): (Cluster, Reply) {
    match ParsePublish(r, default)
    case Err(code) => (c, Error(code))
    case Ok(a) => FinishPublish(c, n, ReadPvc(a), e)
  }

  // ---------------------------------------------------------------- unpublish

  /** mount.CleanupMountPoint: clean, or failed (possibly after the unmount itself). */
  datatype UnmountResult = Unmounted | UnmountFailed(removed: bool)

  /** `attributes` is the order in which this call visits the PV's volume attributes. */
  datatype UnpublishEnv = UnpublishEnv(
    unmount: UnmountResult, pvList: bool, podList: bool, attributes: seq<Entry>,
    stsDelete: bool, svcDelete: bool, podTrace: seq<PodObs>)

  datatype Unpublish =
    | Unmount(volumeID: string, target: string)
    | FindPv(volumeID: string)
    | Scan(volumeID: string, pv: Pv)
    | DeleteSts(volumeID: string, dataNs: string)
    | DeleteSvc(volumeID: string, dataNs: string)
    | WaitDown(volumeID: string, dataNs: string)
    | Ended(reply: Reply)

  /** The pods that stop a teardown: a failed list reads as an empty one, and a claim reference
      with an empty field is not looked at. */
  ghost predicate SeenInUse(c: Cluster, claim: Key, e: UnpublishEnv) {
    claim.name != "" && claim.ns != "" && e.podList && InUse(c.pods, claim)
  }

  ghost function UnpublishStep(c: Cluster, n: string, t: Unpublish, e: UnpublishEnv): (Cluster, Unpublish) {
    match t
    case Unmount(v, target) =>
      (match e.unmount
       case Unmounted => (c.(mounts := c.mounts - {MountPoint(n, target)}), FindPv(v))
       case UnmountFailed(removed) =>
         (if removed then c.(mounts := c.mounts - {MountPoint(n, target)}) else c, Ended(Error(Internal))))
    case FindPv(v) =>
      (match if e.pvList then PvById(c.pvs, v) else None
       case None => (c, Ended(Okay))
       case Some(pv) => (c, Scan(v, pv)))
    case Scan(v, pv) =>
      (match pv.claim
       case None => (c, Ended(Panic))
       case Some(claim) =>
         if SeenInUse(c, claim, e) then (c, Ended(Okay))
         else (c, DeleteSts(v, LastValue(e.attributes, DataNamespace))))
    case DeleteSts(v, ns) =>
      (if CanDelete(c.stss, Key(ns, v), e.stsDelete) then c.(stss := c.stss - {Key(ns, v)}) else c, DeleteSvc(v, ns))
    case DeleteSvc(v, ns) =>
      (if CanDelete(c.svcs, Key(ns, v), e.svcDelete) then c.(svcs := c.svcs - {Key(ns, v)}) else c, WaitDown(v, ns))
    case WaitDown(_, _) => (c, Ended(Okay))
    case Ended(_) => (c, t)
  }

  function UnpublishRank(t: Unpublish): nat {
    match t
    case Unmount(_, _) => 6 case FindPv(_) => 5 case Scan(_, _) => 4
    case DeleteSts(_, _) => 3 case DeleteSvc(_, _) => 2 case WaitDown(_, _) => 1 case Ended(_) => 0
  }

  ghost function FinishUnpublish(c: Cluster, n: string, t: Unpublish, e: UnpublishEnv): (Cluster, Reply)
    decreases UnpublishRank(t)
  {
    if t.Ended? then (c, t.reply)
    else var (c', t') := UnpublishStep(c, n, t, e); FinishUnpublish(c', n, t', e)
  }

  lemma UnpublishEnds(c: Cluster, n: string, t: Unpublish, e: UnpublishEnv)
    requires !t.Ended? && UnpublishStep(c, n, t, e).1.Ended?
    ensures FinishUnpublish(c, n, t, e) == (UnpublishStep(c, n, t, e).0, UnpublishStep(c, n, t, e).1.reply)
  {
    var (c', t') := UnpublishStep(c, n, t, e);
    assert FinishUnpublish(c', n, t', e) == (c', t'.reply);
  }

  /** One whole call of NodeUnpublishVolume on node `n`. */
  ghost function UnpublishCall(c: Cluster, n: string, v: string, target: string, e: UnpublishEnv): (Cluster, Reply) {
    if v == "" || target == "" then (c, Error(InvalidArgument))
    else FinishUnpublish(c, n, Unmount(v, target), e)
  }

  /** The attributes a teardown visits are those of the PV it holds. */
  ghost predicate AttributesFit(t: Unpublish, e: UnpublishEnv) {
    t.Scan? && t.pv.csi.Some? ==> Enumerates(e.attributes, t.pv.csi.value.attributes)
  }
}
