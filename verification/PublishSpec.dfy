/** One whole NodePublishVolume call, from the request as it is written to every table and the
    answer, in the fields of requests, tables and answers of the world alone. */
module PublishSpec {
  import opened Common
  import opened Params
  import opened Polling
  import opened SourceDir
  import opened Cluster
  import opened NodeSteps
  import opened Outcome
  import opened Reading

  predicate Usable(k: Key) {
    k.ns != "" && k.name != ""
  }

  /** Running is seen before any read error and any completed phase. */
  ghost predicate PodUp(trace: seq<PodObs>) {
    exists i :: 0 <= i < |trace| && trace[i] == Seen(Running)
                && forall j :: 0 <= j < i ==> trace[j] == Seen(Pending) || trace[j] == Seen(UnknownPhase)
  }

  /** A probe succeeds before any probe error. */
  ghost predicate PortOpens(trace: seq<TcpObs>) {
    exists i :: 0 <= i < |trace| && trace[i] == ProbeSuccess && forall j :: 0 <= j < i ==> trace[j] == ProbeFailure
  }

  const NO_DATA := {
    "kubernetes.io~secret", "kubernetes.io~configmap", "kubernetes.io~empty-dir", "kubernetes.io~downward-api"}

  /** `path` belongs to the last directory of the backend pod that can hold the data volume. */
  ghost predicate DataPath(e: PublishEnv, uid: string, path: string) {
    && e.dir.Listing?
    && var names := e.dir.names;
       exists i :: 0 <= i < |names| && names[i] !in NO_DATA && (forall j :: i < j < |names| ==> names[j] in NO_DATA)
                   && path == e.kubeletRoot + "/pods/" + e.podUid + "/volumes/" + "/" + names[i] + "/pvc-" + uid
                              + if names[i] == "kubernetes.io~csi" then "/mount" else ""
  }

  /** Where a call can end. */
  datatype Ending =
    | NoClaim | NoStatefulSet | NoPod | BadTarget | AlreadyMounted
    | OnNode(path: string)
    | NoService | NoPort | OverNfs(ip: string)

  ghost predicate GetsClaim(c: Cluster, a: Args, e: PublishEnv) {
    var claim := Key(a.dataNs, a.dataPvc);
    e.pvcGet && Usable(claim) && claim in c.pvcs
  }

  /** Got where it is, or made where it is not. */
  ghost predicate GetsSts(c: Cluster, a: Args, e: PublishEnv) {
    var k := Key(a.dataNs, a.volumeID);
    Usable(k) && if k in c.stss then e.stsGet else e.stsCreate
  }

  ghost predicate GetsSvc(c: Cluster, a: Args, e: PublishEnv) {
    var k := Key(a.dataNs, a.volumeID);
    Usable(k) && if k in c.svcs then e.svcGet else e.svcCreate
  }

  ghost predicate GetsPod(c: Cluster, a: Args, e: PublishEnv) {
    GetsClaim(c, a, e) && GetsSts(c, a, e) && PodUp(e.podTrace)
  }

  ghost predicate GetsTarget(c: Cluster, n: string, a: Args, e: PublishEnv) {
    GetsPod(c, a, e) && MountPoint(n, a.target) !in c.mounts && (e.target == Present || e.target == Absent(true))
  }

  ghost predicate GoesOverNfs(c: Cluster, n: string, a: Args, e: PublishEnv) {
    && GetsTarget(c, n, a, e)
    && (e.sourceMounted ==> !exists path :: DataPath(e, c.pvcs[Key(a.dataNs, a.dataPvc)].uid, path))
  }

  ghost predicate EndsIn(c: Cluster, n: string, a: Args, e: PublishEnv, x: Ending) {
    var claim, k := Key(a.dataNs, a.dataPvc), Key(a.dataNs, a.volumeID);
    var mounted := MountPoint(n, a.target) in c.mounts;
    match x
    case NoClaim => !GetsClaim(c, a, e)
    case NoStatefulSet => GetsClaim(c, a, e) && !GetsSts(c, a, e)
    case NoPod => GetsClaim(c, a, e) && GetsSts(c, a, e) && !PodUp(e.podTrace)
    case BadTarget => GetsPod(c, a, e) && (e.target == Broken || (e.target == Absent(false) && !mounted))
    case AlreadyMounted => GetsPod(c, a, e) && e.target != Broken && mounted
    case OnNode(path) => GetsTarget(c, n, a, e) && DataPath(e, c.pvcs[claim].uid, path) && e.sourceMounted
    case NoService => GoesOverNfs(c, n, a, e) && !GetsSvc(c, a, e)
    case NoPort => GoesOverNfs(c, n, a, e) && GetsSvc(c, a, e) && !PortOpens(e.tcpTrace)
    case OverNfs(ip) =>
      && GoesOverNfs(c, n, a, e) && GetsSvc(c, a, e) && PortOpens(e.tcpTrace)
      && ip == if k in c.svcs then c.svcs[k].ip else e.ip
  }

  /** The error reported at the end, and the chmod after it. */
  function Reported(a: Args, err: Option<OsError>, chmod: bool): Reply {
    match err
    case Some(Denied) => Error(PermissionDenied)
    case Some(BadArgument) => Error(InvalidArgument)
    case Some(OtherError) => Error(Internal)
    case None => if a.permissions == 0 || chmod then Okay else Error(Internal)
  }

  function AnswerFor(a: Args, e: PublishEnv, x: Ending): Reply {
    match x
    case NoClaim => Error(InvalidArgument)
    case NoStatefulSet => Error(Canceled)
    case NoPod => Error(Canceled)
    case BadTarget => Error(Internal)
    case AlreadyMounted => Okay
    case OnNode(_) => Reported(a, e.bindErr, e.chmod)
    case NoService => Error(Canceled)
    case NoPort => Error(Canceled)
    case OverNfs(_) => Reported(a, if e.dir.UnreadableDir? then Some(e.dir.err) else None, e.chmod)
  }

  function StssFor(c: Cluster, a: Args, x: Ending, uid: string): map<Key, StatefulSet> {
    var k := Key(a.dataNs, a.volumeID);
    if x.NoClaim? || x.NoStatefulSet? || k in c.stss then c.stss
    else c.stss[k := StatefulSet(
      idLabel := a.volumeID, selector := a.volumeID, serviceName := a.volumeID,
      owner := Owner(name := a.dataPvc, uid := uid),
      claim := a.dataPvc, image := a.image, hostsAllow := a.hostsAllow)]
  }

  function SvcsFor(c: Cluster, a: Args, e: PublishEnv, x: Ending, uid: string): map<Key, Service> {
    var k := Key(a.dataNs, a.volumeID);
    if (x.NoPort? || x.OverNfs?) && k !in c.svcs
    then c.svcs[k := Service(
      idLabel := a.volumeID, selector := a.volumeID, owner := Owner(name := a.dataPvc, uid := uid), ip := e.ip)]
    else c.svcs
  }

  function MountsFor(c: Cluster, n: string, a: Args, e: PublishEnv, x: Ending): map<MountPoint, Mount> {
    var at, k, pod := MountPoint(n, a.target), Key(a.dataNs, a.volumeID), Key(a.podNs, a.podName);
    if x.OnNode? && e.bindErr.None?
    then c.mounts[at := Mount(kind := Bind, source := x.path, options := ["bind"], exported := k, pod := pod)]
    else if x.OverNfs? && e.nfsErr.None?
    then c.mounts[at := Mount(kind := Nfs, source := x.ip + ":/", options := a.options, exported := k, pod := pod)]
    else c.mounts
  }

  /** After a bind mount the application pod is to be deleted last. */
  function PodsFor(c: Cluster, a: Args, e: PublishEnv, x: Ending): map<Key, AppPod> {
    var pod := Key(a.podNs, a.podName);
    if x.OnNode? && e.bindErr.None? && e.annotate && Usable(pod) && pod in c.pods
    then c.pods[pod := c.pods[pod].(deletionCost := "2147483647")]
    else c.pods
  }

  // ---------------------------------------------------------------- one whole call

  lemma SourceIsDataPath(e: PublishEnv, uid: string)
    ensures LocalSource(e, e.podUid, uid) != "" <==> exists path :: DataPath(e, uid, path)
    ensures forall path :: DataPath(e, uid, path) ==> path == LocalSource(e, e.podUid, uid)
  {
    if e.dir.Listing? {
      var names, dir := e.dir.names, PodVolumeDir(e.kubeletRoot, e.podUid);
      forall i | 0 <= i < |names| ensures Skipped(names[i]) <==> names[i] in NO_DATA {}
      SourceIsEmptyIff(dir, names, uid);
      forall path | DataPath(e, uid, path) ensures path == LocalSource(e, e.podUid, uid) && path != "" {
        var i :| 0 <= i < |names| && names[i] !in NO_DATA && (forall j :: i < j < |names| ==> names[j] in NO_DATA)
                 && path == e.kubeletRoot + "/pods/" + e.podUid + "/volumes/" + "/" + names[i] + "/pvc-" + uid
                            + if names[i] == "kubernetes.io~csi" then "/mount" else "";
        PathIs(e, uid, names[i]);
        SourceIsLastKept(dir, names, uid, i);
      }
      if !AllSkipped(names) {
        var i := LastKept(names);
        PathIs(e, uid, names[i]);
        SourceIsLastKept(dir, names, uid, i);
        assert DataPath(e, uid, MountPointFor(dir, names[i], uid));
      }
    }
  }

  lemma PathIs(e: PublishEnv, uid: string, name: string)
    ensures MountPointFor(PodVolumeDir(e.kubeletRoot, e.podUid), name, uid)
         == e.kubeletRoot + "/pods/" + e.podUid + "/volumes/" + "/" + name + "/pvc-" + uid
            + if name == "kubernetes.io~csi" then "/mount" else ""
  {}

  lemma {:induction false} LastKept(names: seq<string>) returns (i: nat)
    requires !AllSkipped(names)
    ensures IsLastKept(names, i)
  {
    hide Skipped;
    i := |names| - 1;
    if Skipped(names[i]) {
      assert forall j :: 0 <= j < i ==> names[..i][j] == names[j];
      i := LastKept(names[..i]);
    }
  }

  /** The conditions of the closed form, in the fields. */
  lemma ConditionsAre(c: Cluster, n: string, a: Args, e: PublishEnv)
    ensures HasClaim(c, a, e) <==> GetsClaim(c, a, e)
    ensures PassesCheck(c, a, e) <==> GetsClaim(c, a, e) && GetsSts(c, a, e)
    ensures PodComesUp(e) <==> PodUp(e.podTrace)
    ensures PortComesUp(e) <==> PortOpens(e.tcpTrace)
    ensures GetsToSource(c, n, a, e) <==> GetsTarget(c, n, a, e)
    ensures HasSvc(c, a, e) <==> GetsSvc(c, a, e)
    ensures MakesSts(c, a, e) <==> GetsClaim(c, a, e) && GetsSts(c, a, e) && Key(a.dataNs, a.volumeID) !in c.stss
    ensures HasSvc(c, a, e) ==>
              var k := Key(a.dataNs, a.volumeID);
              SvcIp(c, a, e) == if k in c.svcs then c.svcs[k].ip else e.ip
  {
    WaitForRunningSucceedsIff(e.podTrace);
    WaitForTcpSucceedsIff(e.tcpTrace);
    hide Poll;
  }

  lemma LocalIs(c: Cluster, a: Args, e: PublishEnv)
    requires DataKey(a) in c.pvcs && HasClaim(c, a, e)
    ensures var uid := c.pvcs[DataKey(a)].uid;
            && (Local(c, a, e) <==> e.sourceMounted && exists path :: DataPath(e, uid, path))
            && (forall path :: DataPath(e, uid, path) ==> path == LocalSource(e, e.podUid, uid))
  {
    SourceIsDataPath(e, c.pvcs[DataKey(a)].uid);
    hide LocalSource, DataPath;
  }

  /** Where a call ends, in the conditions of the closed form. */
  lemma EndingIs(c: Cluster, n: string, a: Args, e: PublishEnv, x: Ending)
    requires EndsIn(c, n, a, e, x)
    ensures x.NoClaim? <==> !HasClaim(c, a, e)
    ensures x.NoClaim? || x.NoStatefulSet? <==> !PassesCheck(c, a, e)
    ensures x.NoPod? <==> PassesCheck(c, a, e) && !PodComesUp(e)
    ensures x.OnNode? || x.NoService? || x.NoPort? || x.OverNfs? <==> GetsToSource(c, n, a, e)
    ensures x.OnNode? <==> GetsToSource(c, n, a, e) && Local(c, a, e)
    ensures x.NoService? <==> GetsToSource(c, n, a, e) && !Local(c, a, e) && !HasSvc(c, a, e)
    ensures x.NoPort? <==> GetsToSource(c, n, a, e) && !Local(c, a, e) && HasSvc(c, a, e) && !PortComesUp(e)
    ensures x.OnNode? ==> x.path == LocalSource(e, e.podUid, c.pvcs[DataKey(a)].uid)
    ensures x.OverNfs? ==> x.ip == SvcIp(c, a, e)
    ensures x.AlreadyMounted? <==> PassesCheck(c, a, e) && PodComesUp(e) && !e.target.Broken?
                                   && MountPoint(n, a.target) in c.mounts
  {
    ConditionsAre(c, n, a, e);
    if GetsClaim(c, a, e) {
      LocalIs(c, a, e);
    }
    hide LocalSource, DataPath, PodUp, PortOpens, PodComesUp, PortComesUp, HasClaim, PassesCheck, GetsToSource, HasSvc,
         SvcIp, MakesSts, Local, GetsSts, GetsSvc, GetsClaim;
  }

  lemma ObjectsAre(c: Cluster, n: string, a: Args, e: PublishEnv, x: Ending)
    requires EndsIn(c, n, a, e, x)
    ensures var uid := if DataKey(a) in c.pvcs then c.pvcs[DataKey(a)].uid else "";
            StssAfter(c, a, e) == StssFor(c, a, x, uid) && SvcsAfter(c, n, a, e) == SvcsFor(c, a, e, x, uid)
  {
    EndingIs(c, n, a, e, x);
    ConditionsAre(c, n, a, e);
    hide EndsIn, LocalSource, PodComesUp, PortComesUp, GetsToSource, Local;
  }

  lemma MountsAndAnswerAre(c: Cluster, n: string, a: Args, e: PublishEnv, x: Ending)
    requires EndsIn(c, n, a, e, x)
    ensures MountsAfter(c, n, a, e) == MountsFor(c, n, a, e, x) && PodsAfter(c, n, a, e) == PodsFor(c, a, e, x)
    ensures Answer(c, n, a, e) == AnswerFor(a, e, x)
  {
    EndingIs(c, n, a, e, x);
    hide EndsIn, LocalSource, PodComesUp, PortComesUp, Local, HasClaim, HasSvc, PassesCheck, SvcIp;
  }

  /** Every call ends somewhere. */
  lemma EndsSomewhere(c: Cluster, n: string, a: Args, e: PublishEnv) returns (x: Ending)
    ensures EndsIn(c, n, a, e, x)
  {
    hide DataPath, PodUp, PortOpens;
    var k := Key(a.dataNs, a.volumeID);
    if !GetsClaim(c, a, e) {
      x := NoClaim;
    } else if !GetsSts(c, a, e) {
      x := NoStatefulSet;
    } else if !PodUp(e.podTrace) {
      x := NoPod;
    } else if e.target == Broken {
      x := BadTarget;
    } else if MountPoint(n, a.target) in c.mounts {
      x := AlreadyMounted;
    } else if e.target == Absent(false) {
      x := BadTarget;
    } else if path :| DataPath(e, c.pvcs[Key(a.dataNs, a.dataPvc)].uid, path) && e.sourceMounted {
      x := OnNode(path);
    } else if !GetsSvc(c, a, e) {
      x := NoService;
    } else if !PortOpens(e.tcpTrace) {
      x := NoPort;
    } else {
      x := OverNfs(if k in c.svcs then c.svcs[k].ip else e.ip);
    }
  }

  lemma EndsOnce(c: Cluster, n: string, a: Args, e: PublishEnv, x: Ending, y: Ending)
    requires EndsIn(c, n, a, e, x) && EndsIn(c, n, a, e, y)
    ensures x == y
  {
    EndingIs(c, n, a, e, x);
    EndingIs(c, n, a, e, y);
    hide EndsIn, LocalSource, PodComesUp, PortComesUp, Local, HasClaim, HasSvc, PassesCheck, SvcIp, GetsToSource;
  }

  /** A request that is not well-formed, or says nothing acceptable, is refused without effect; any
      other one changes the four tables and is answered as the place where it ends says. */
  lemma {:induction false} PublishMeetsSpec(
    c: Cluster, n: string, r: PublishRequest, default: nat, e: PublishEnv, a: Args, x: Ending)
    ensures WellFormed(r) && ReadsAs(r, default, a) && EndsIn(c, n, a, e, x) ==>
              var claim := Key(a.dataNs, a.dataPvc);
              var uid := if claim in c.pvcs then c.pvcs[claim].uid else "";
              PublishCall(c, n, r, default, e)
              == (c.(stss := StssFor(c, a, x, uid), svcs := SvcsFor(c, a, e, x, uid),
                     mounts := MountsFor(c, n, a, e, x), pods := PodsFor(c, a, e, x)),
                  AnswerFor(a, e, x))
    ensures !(WellFormed(r) && exists b :: ReadsAs(r, default, b))
            ==> PublishCall(c, n, r, default, e) == (c, Error(InvalidArgument))
  {
    hide FinishPublish, ParsePublish, WellFormed, ReadsAs, EndsIn;
    hide StssFor, SvcsFor, MountsFor, PodsFor, AnswerFor, StssAfter, SvcsAfter, MountsAfter, PodsAfter, Answer;
    ParsePublishIff(r, default, a);
    if WellFormed(r) && ReadsAs(r, default, a) && EndsIn(c, n, a, e, x) {
      PublishOutcome(c, n, a, e);
      ObjectsAre(c, n, a, e, x);
      MountsAndAnswerAre(c, n, a, e, x);
    }
    if ParsePublish(r, default).Ok? {
      ParsePublishIff(r, default, ParsePublish(r, default).value);
    }
  }

  /** So an NFS mount carries the request's flags, "ro" if it is read-only and the mount options of
      the volume context; a bind mount carries "bind" alone. */
  lemma {:induction false} MountOptionsAre(c: Cluster, n: string, r: PublishRequest, default: nat, e: PublishEnv)
    ensures var at := MountPoint(n, r.target);
            var c' := PublishCall(c, n, r, default, e).0;
            at !in c.mounts && at in c'.mounts ==>
              && r.capability.Some?
              && c'.mounts[at].options
                 == match c'.mounts[at].kind
                    case Nfs =>
                      r.capability.value + (if r.readonly then ["ro"] else []) + Carried(r.context, "mountoptions")
                    case Bind => ["bind"]
  {
    hide PublishCall, WellFormed, EndsIn, StssFor, SvcsFor, PodsFor, AnswerFor;
    if WellFormed(r) && exists b :: ReadsAs(r, default, b) {
      var a :| ReadsAs(r, default, a);
      var x := EndsSomewhere(c, n, a, e);
      PublishMeetsSpec(c, n, r, default, e, a, x);
    } else {
      PublishMeetsSpec(c, n, r, default, e, Args("", "", [], 0, "", "", "", "", "", ""), NoClaim);
    }
  }

  /** Whatever else a request says: no pod is touched but the one it names, and that one in nothing
      but its deletion cost. */
  lemma {:induction false} AnnotatesNamedPod(
    c: Cluster, n: string, r: PublishRequest, default: nat, e: PublishEnv, podName: string, podNs: string)
    requires Says(r.context, "csi.storage.k8s.io/pod.name", podName)
    requires Says(r.context, "csi.storage.k8s.io/pod.namespace", podNs)
    ensures var pods := PublishCall(c, n, r, default, e).0.pods;
            pods == c.pods
            || (Key(podNs, podName) in c.pods
                && pods == c.pods[Key(podNs, podName) :=
                     AppPod(volumes := c.pods[Key(podNs, podName)].volumes, deletionCost := "2147483647")])
  {
    hide PublishCall, WellFormed, EndsIn, StssFor, SvcsFor, MountsFor, AnswerFor, Says;
    if WellFormed(r) && exists b :: ReadsAs(r, default, b) {
      var a :| ReadsAs(r, default, a);
      SaysOneThing(r.context, "csi.storage.k8s.io/pod.name", podName, a.podName);
      SaysOneThing(r.context, "csi.storage.k8s.io/pod.namespace", podNs, a.podNs);
      var x := EndsSomewhere(c, n, a, e);
      PublishMeetsSpec(c, n, r, default, e, a, x);
    } else {
      PublishMeetsSpec(c, n, r, default, e, Args("", "", [], 0, "", "", "", "", "", ""), NoClaim);
    }
  }
}
