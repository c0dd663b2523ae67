/** NodePublishVolume and NodeUnpublishVolume as the node server runs them: statements over the
    client's and the mounter's tables.  Each is proved to do exactly what its program of steps
    does when it is left alone, so what is proved about the steps holds of these methods. */
module NodeServers {
  import opened Common
  import opened Params
  import opened Polling
  import opened SourceDir
  import opened Cluster
  import opened Clients
  import opened NodeSteps

  class NodeServer {
    const nodeID: string
    const mountPermissions: nat
    const clientSet: ClientSet
    const mounter: Mounter

    constructor (nodeID: string, mountPermissions: nat, clientSet: ClientSet, mounter: Mounter)
      ensures this.nodeID == nodeID && this.mountPermissions == mountPermissions
      ensures this.clientSet == clientSet && this.mounter == mounter
    {
      this.nodeID, this.mountPermissions := nodeID, mountPermissions;
      this.clientSet, this.mounter := clientSet, mounter;
    }

    ghost function View(): Cluster
      reads clientSet, mounter
    {
      Cluster(clientSet.pvcs, clientSet.born, clientSet.pvs, clientSet.stss, clientSet.svcs, clientSet.pods,
              mounter.mounts)
    }

    method NodePublishVolume(r: PublishRequest, e: PublishEnv) returns (reply: Reply)
      modifies clientSet, mounter
      ensures (View(), reply) == PublishCall(old(View()), nodeID, r, mountPermissions, e)
    {
      hide PublishStep, FinishPublish, ParsePublish;
      var parsed := ParsePublishRequest(r, mountPermissions);
      if parsed.Err? {
        return Error(parsed.code);
      }
      reply := PublishParsed(parsed.value, e);
    }

    method PublishParsed(a: Args, e: PublishEnv) returns (reply: Reply)
      modifies clientSet, mounter
      ensures (View(), reply) == FinishPublish(old(View()), nodeID, ReadPvc(a), e)
    {
      var dataPvc := clientSet.GetPvc(DataKey(a), e.pvcGet);
      if dataPvc.None? {
        PublishEnds(View(), nodeID, ReadPvc(a), e);
        return Error(InvalidArgument);
      }
      var uid := dataPvc.value.uid;
      var ready := EnsureStatefulSet(a, uid, e);
      if !ready {
        return Error(Canceled);
      }
      reply := PublishOnceRunning(a, uid, e);
    }

    /** Get the StatefulSet, or create it. */
    method EnsureStatefulSet(a: Args, uid: string, e: PublishEnv) returns (ok: bool)
      modifies clientSet
      ensures ok <==> Fetch(old(View()).stss, Export(a), e.stsGet).Some?
                      || CanCreate(old(View()).stss, Export(a), e.stsCreate)
      ensures ok ==> Export(a) in View().stss
      ensures View() == old(View()).(stss := if ok && Export(a) !in old(View()).stss
                                             then old(View()).stss[Export(a) := NewSts(a, uid)]
                                             else old(View()).stss)
      ensures FinishPublish(old(View()), nodeID, GetSts(a, uid), e)
           == if ok then FinishPublish(View(), nodeID, ReadPod(a, uid), e) else (View(), Error(Canceled))
    {
      ghost var c0 := View();
      var sts := clientSet.GetSts(Export(a), e.stsGet);
      ok := true;
      if sts.None? {
        ok := clientSet.CreateSts(Export(a), NewSts(a, uid), e.stsCreate);
        if !ok {
          assert View() == c0;
          PublishEnds(c0, nodeID, CreateSts(a, uid), e);
        }
      }
    }

    /** From the read of the backend pod on. */
    method PublishOnceRunning(a: Args, uid: string, e: PublishEnv) returns (reply: Reply)
      modifies clientSet, mounter
      ensures (View(), reply) == FinishPublish(old(View()), nodeID, ReadPod(a, uid), e)
    {
      var podUid := e.podUid;
      var waited, checks := PollImmediate(e.podTrace, IsPodRunning);
      if waited.Failure? {
        PublishEnds(View(), nodeID, WaitPod(a, uid, podUid), e);
        return Error(Canceled);
      }
      reply := PublishAtTarget(a, uid, podUid, e);
    }

    /** From the check of the target path on. */
    method PublishAtTarget(a: Args, uid: string, podUid: string, e: PublishEnv) returns (reply: Reply)
      modifies clientSet, mounter
      ensures (View(), reply) == FinishPublish(old(View()), nodeID, CheckTarget(a, uid, podUid), e)
    {
      var notMnt := MountPoint(nodeID, a.target) !in mounter.mounts;
      if e.target.Broken? {
        return Error(Internal);
      }
      if !notMnt {
        return Okay;
      }
      if e.target == Absent(false) {
        return Error(Internal);
      }
      var source := "";
      if e.dir.Listing? {
        source := FindSource(PodVolumeDir(e.kubeletRoot, podUid), e.dir.names, uid);
      }
      assert source == LocalSource(e, podUid, uid);
      if source != "" && e.sourceMounted {
        reply := PublishLocally(a, uid, source, e);
      } else {
        reply := PublishOverNfs(a, uid, e);
      }
    }

    method PublishLocally(a: Args, uid: string, source: string, e: PublishEnv) returns (reply: Reply)
      modifies clientSet, mounter
      ensures (View(), reply) == FinishPublish(old(View()), nodeID, BindMount(a, uid, source), e)
    {
      var err := mounter.Mount(MountPoint(nodeID, a.target), BindOf(a, source), e.bindErr);
      ghost var c1 := View();
      if err.None? {
        var appPod := clientSet.GetPod(PodKey(a), e.annotate);
        if appPod.Some? {
          clientSet.UpdatePod(PodKey(a), appPod.value.(deletionCost := HIGHEST_DELETION_COST));
        }
        assert FinishPublish(View(), nodeID, Report(a, uid, None), e) == FinishPublish(c1, nodeID, Annotate(a, uid), e);
      }
      reply := ReportResult(a, uid, err, e);
    }

    method PublishOverNfs(a: Args, uid: string, e: PublishEnv) returns (reply: Reply)
      modifies clientSet, mounter
      ensures (View(), reply) == FinishPublish(old(View()), nodeID, GetSvc(a, uid, DirError(e)), e)
    {
      var outerErr := if e.dir.UnreadableDir? then Some(e.dir.err) else None;
      var ip := EnsureService(a, uid, outerErr, e);
      if ip.None? {
        return Error(Canceled);
      }
      reply := PublishFrom(a, uid, outerErr, ip.value, e);
    }

    /** Get the Service, or create it. */
    method EnsureService(a: Args, uid: string, ghost dirErr: Option<OsError>, e: PublishEnv)
      returns (ip: Option<string>)
      modifies clientSet
      ensures ip.Some? <==> Fetch(old(View()).svcs, Export(a), e.svcGet).Some?
                            || CanCreate(old(View()).svcs, Export(a), e.svcCreate)
      ensures ip.Some? ==> Export(a) in View().svcs && ip.value == View().svcs[Export(a)].ip
      ensures View() == old(View()).(svcs := if ip.Some? && Export(a) !in old(View()).svcs
                                             then old(View()).svcs[Export(a) := NewSvc(a, uid, e.ip)]
                                             else old(View()).svcs)
      ensures FinishPublish(old(View()), nodeID, GetSvc(a, uid, dirErr), e)
           == match ip
              case Some(addr) => FinishPublish(View(), nodeID, WaitTcp(a, uid, dirErr, addr), e)
              case None => (View(), Error(Canceled))
    {
      ghost var c0 := View();
      var svc := clientSet.GetSvc(Export(a), e.svcGet);
      if svc.Some? {
        return Some(svc.value.ip);
      }
      var ok := clientSet.CreateSvc(Export(a), NewSvc(a, uid, e.ip), e.svcCreate);
      if !ok {
        assert View() == c0;
        PublishEnds(c0, nodeID, CreateSvc(a, uid, dirErr), e);
        return None;
      }
      ip := Some(e.ip);
    }

    /** From the wait for the NFS port on. */
    method PublishFrom(a: Args, uid: string, outerErr: Option<OsError>, ip: string, e: PublishEnv)
      returns (reply: Reply)
      modifies clientSet, mounter
      ensures (View(), reply) == FinishPublish(old(View()), nodeID, WaitTcp(a, uid, outerErr, ip), e)
    {
      var waited, checks := PollImmediate(e.tcpTrace, IsTcpReady);
      if waited.Failure? {
        PublishEnds(View(), nodeID, WaitTcp(a, uid, outerErr, ip), e);
        return Error(Canceled);
      }
      // a local variable of this block receives the result of the mount
      var err := mounter.Mount(MountPoint(nodeID, a.target), NfsOf(a, ip), e.nfsErr);
      reply := ReportResult(a, uid, outerErr, e);
    }

    method ReportResult(a: Args, ghost uid: string, err: Option<OsError>, e: PublishEnv) returns (reply: Reply)
      ensures (View(), reply) == FinishPublish(View(), nodeID, Report(a, uid, err), e)
    {
      if err.Some? {
        if err.value.Denied? {
          return Error(PermissionDenied);
        }
        if err.value.BadArgument? {
          return Error(InvalidArgument);
        }
        return Error(Internal);
      }
      if a.permissions > 0 && !e.chmod {
        return Error(Internal);
      }
      reply := Okay;
    }

    method NodeUnpublishVolume(v: string, target: string, e: UnpublishEnv) returns (reply: Reply)
      modifies clientSet, mounter
      ensures (View(), reply) == UnpublishCall(old(View()), nodeID, v, target, e)
    {
      if |v| == 0 {
        return Error(InvalidArgument);
      }
      if |target| == 0 {
        return Error(InvalidArgument);
      }
      if e.unmount == Unmounted || e.unmount == UnmountFailed(true) {
        mounter.Unmount(MountPoint(nodeID, target));
      }
      if e.unmount != Unmounted {
        UnpublishEnds(old(View()), nodeID, Unmount(v, target), e);
        return Error(Internal);
      }
      reply := AfterUnmount(v, e);
    }

    method AfterUnmount(v: string, e: UnpublishEnv) returns (reply: Reply)
      modifies clientSet
      ensures (View(), reply) == FinishUnpublish(old(View()), nodeID, FindPv(v), e)
    {
      var found := clientSet.GetPvById(v, e.pvList);
      if found.None? {
        UnpublishEnds(View(), nodeID, FindPv(v), e);
        return Okay;
      }
      reply := ScanAndTearDown(v, found.value, e);
    }

    /** From the scan of the pods on. */
    method ScanAndTearDown(v: string, pv: Pv, e: UnpublishEnv) returns (reply: Reply)
      modifies clientSet
      ensures (View(), reply) == FinishUnpublish(old(View()), nodeID, Scan(v, pv), e)
    {
      if pv.claim.None? {
        UnpublishEnds(View(), nodeID, Scan(v, pv), e);
        return Panic;
      }
      var claim := pv.claim.value;
      if claim.name != "" && claim.ns != "" {
        var inUse := ScanPods(claim, e.podList);
        if inUse {
          UnpublishEnds(View(), nodeID, Scan(v, pv), e);
          return Okay;
        }
      }
      var _, dataNs := ParseAttributes(e.attributes);
      reply := TearDown(v, dataNs, e);
    }

    method TearDown(v: string, dataNs: string, e: UnpublishEnv) returns (reply: Reply)
      modifies clientSet
      ensures (View(), reply) == FinishUnpublish(old(View()), nodeID, DeleteSts(v, dataNs), e)
    {
      ghost var c0 := View();
      var _ := clientSet.DeleteSts(Key(dataNs, v), e.stsDelete);
      ghost var c1 := View();
      assert UnpublishStep(c0, nodeID, DeleteSts(v, dataNs), e) == (c1, DeleteSvc(v, dataNs));
      var _ := clientSet.DeleteSvc(Key(dataNs, v), e.svcDelete);
      assert UnpublishStep(c1, nodeID, DeleteSvc(v, dataNs), e) == (View(), WaitDown(v, dataNs));
      // the wait asks for Running, and its result is dropped
      var _, _ := PollImmediate(e.podTrace, IsPodRunning);
      UnpublishEnds(View(), nodeID, WaitDown(v, dataNs), e);
      reply := Okay;
    }

    method ScanPods(claim: Key, up: bool) returns (inUse: bool)
      ensures inUse == (up && InUse(clientSet.pods, claim))
    {
      var items := clientSet.ListPods(claim.ns, up);
      for i := 0 to |items|
        invariant forall j :: 0 <= j < i ==> !Uses(items[j], claim.name)
      {
        var pod := items[i];
        for l := 0 to |pod.volumes|
          invariant Some(claim.name) !in pod.volumes[..l]
        {
          if pod.volumes[l] == Some(claim.name) {
            assert pod in items && Uses(pod, claim.name);
            return true;
          }
        }
        assert pod.volumes[..|pod.volumes|] == pod.volumes;
      }
      inUse := false;
    }
  }
}
