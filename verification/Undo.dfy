/** Publish and unpublish undo each other. */
module Undo {
  import opened Common
  import opened Params
  import opened Cluster
  import opened NodeSteps
  import opened Retry

  /** The call gets to its deletes: the unmount is clean, the PV is found and bound, and the scan
      sees no pod on its claim. */
  ghost predicate TearsDown(c: Cluster, v: string, e: UnpublishEnv) {
    && e.unmount == Unmounted && e.pvList && PvById(c.pvs, v).Some?
    && var claim := PvById(c.pvs, v).value.claim;
    && claim.Some? && !SeenInUse(c, claim.value, e)
  }

  function UnpublishAnswer(c: Cluster, v: string, target: string, e: UnpublishEnv): Reply {
    if v == "" || target == "" then Error(InvalidArgument)
    else if e.unmount != Unmounted then Error(Internal)
    else if e.pvList && PvById(c.pvs, v).Some? && PvById(c.pvs, v).value.claim.None? then Panic
    else Okay
  }

  /** One whole unpublish call: its effect on every table, and its answer. */
  lemma UnpublishOutcome(c: Cluster, n: string, v: string, target: string, e: UnpublishEnv)
    ensures var k, at := Key(LastValue(e.attributes, DataNamespace), v), MountPoint(n, target);
            var admitted := v != "" && target != "";
            var down := admitted && TearsDown(c, v, e);
            UnpublishCall(c, n, v, target, e)
            == (c.(mounts := if admitted && e.unmount != UnmountFailed(false) then c.mounts - {at} else c.mounts,
                   stss := if down && CanDelete(c.stss, k, e.stsDelete) then c.stss - {k} else c.stss,
                   svcs := if down && CanDelete(c.svcs, k, e.svcDelete) then c.svcs - {k} else c.svcs),
                UnpublishAnswer(c, v, target, e))
  {
    hide LastValue, PvById, InUse;
    if v != "" && target != "" {
      var c1 := c.(mounts := c.mounts - {MountPoint(n, target)});
      if e.unmount != Unmounted {
        UnpublishEnds(c, n, Unmount(v, target), e);
      } else {
        assert FinishUnpublish(c, n, Unmount(v, target), e) == FinishUnpublish(c1, n, FindPv(v), e);
        FromFindPv(c1, n, v, e);
      }
    }
  }

  lemma FromFindPv(c: Cluster, n: string, v: string, e: UnpublishEnv)
    ensures var pv := if e.pvList then PvById(c.pvs, v) else None;
            FinishUnpublish(c, n, FindPv(v), e)
            == if pv.None? then (c, Okay)
               else if pv.value.claim.None? then (c, Panic)
               else if SeenInUse(c, pv.value.claim.value, e) then (c, Okay)
               else FinishUnpublish(c, n, DeleteSts(v, LastValue(e.attributes, DataNamespace)), e)
    ensures var k := Key(LastValue(e.attributes, DataNamespace), v);
            FinishUnpublish(c, n, DeleteSts(v, k.ns), e)
            == (c.(stss := if CanDelete(c.stss, k, e.stsDelete) then c.stss - {k} else c.stss,
                   svcs := if CanDelete(c.svcs, k, e.svcDelete) then c.svcs - {k} else c.svcs),
                Okay)
  {
    hide LastValue, PvById, SeenInUse;
    FromDeletes(c, n, v, LastValue(e.attributes, DataNamespace), e);
    if !e.pvList || PvById(c.pvs, v).None? {
      UnpublishEnds(c, n, FindPv(v), e);
    } else {
      var pv := PvById(c.pvs, v).value;
      assert FinishUnpublish(c, n, FindPv(v), e) == FinishUnpublish(c, n, Scan(v, pv), e);
      if pv.claim.None? || SeenInUse(c, pv.claim.value, e) {
        UnpublishEnds(c, n, Scan(v, pv), e);
      }
    }
  }

  lemma FromDeletes(c: Cluster, n: string, v: string, ns: string, e: UnpublishEnv)
    ensures var k := Key(ns, v);
            FinishUnpublish(c, n, DeleteSts(v, ns), e)
            == (c.(stss := if CanDelete(c.stss, k, e.stsDelete) then c.stss - {k} else c.stss,
                   svcs := if CanDelete(c.svcs, k, e.svcDelete) then c.svcs - {k} else c.svcs),
                Okay)
  {
    hide LastValue;
    var (c1, t1) := UnpublishStep(c, n, DeleteSts(v, ns), e);
    var (c2, t2) := UnpublishStep(c1, n, DeleteSvc(v, ns), e);
    assert FinishUnpublish(c, n, DeleteSts(v, ns), e) == FinishUnpublish(c1, n, DeleteSvc(v, ns), e);
    assert FinishUnpublish(c1, n, DeleteSvc(v, ns), e) == FinishUnpublish(c2, n, WaitDown(v, ns), e);
    UnpublishEnds(c2, n, WaitDown(v, ns), e);
  }

  /** Nothing of the volume is on the cluster, and its target is free. */
  predicate Clean(c: Cluster, n: string, a: Args) {
    Export(a) !in c.stss && Export(a) !in c.svcs && MountPoint(n, a.target) !in c.mounts
  }

  /** The unpublish finds the volume's PV and claim, works in the publish's namespace, and each of
      its calls gets through. */
  ghost predicate Through(c: Cluster, a: Args, e: UnpublishEnv, claim: Key) {
    && e.unmount == Unmounted && e.pvList && e.podList && e.stsDelete && e.svcDelete
    && PvById(c.pvs, a.volumeID).Some? && PvById(c.pvs, a.volumeID).value.claim == Some(claim)
    && Addressable(claim) && LastValue(e.attributes, DataNamespace) == a.dataNs
  }

  /** Calls from a clean cluster add at most the export and the mount. */
  lemma CallsAddTheirOwn(c: Cluster, n: string, a: Args, es: seq<PublishEnv>)
    requires Clean(c, n, a)
    ensures var c1 := Calls(c, n, a, es);
            && c1.pvcs == c.pvcs && c1.born == c.born && c1.pvs == c.pvs
            && c1.stss - {Export(a)} == c.stss && (Export(a) !in c1.stss ==> c1.stss == c.stss)
            && c1.svcs - {Export(a)} == c.svcs && (Export(a) !in c1.svcs ==> c1.svcs == c.svcs)
            && c1.mounts - {MountPoint(n, a.target)} == c.mounts
  {
    hide Calls;
    CallsKeepClaims(c, n, a, es);
    var c1 := Calls(c, n, a, es);
    Without(c.mounts, MountPoint(n, a.target));
    Without(c.stss, Export(a));
    Without(c.svcs, Export(a));
    if Export(a) !in c1.stss {
      Without(c1.stss, Export(a));
    }
    if Export(a) !in c1.svcs {
      Without(c1.svcs, Export(a));
    }
  }

  /** From a clean cluster: any number of publish calls on one target, whatever they met and
      answered; then the users change the pods; then an unpublish that gets through.  If no pod uses
      the claim any more, everything is as it was.  If one does, the export stays as it is. */
  lemma UnpublishUndoesPublish(
    c: Cluster, n: string, a: Args, es: seq<PublishEnv>, pods: map<Key, AppPod>, e: UnpublishEnv, claim: Key)
    requires Clean(c, n, a) && a.volumeID != "" && a.target != "" && Addressable(Export(a))
    requires Through(c, a, e, claim)
    ensures var c1 := Calls(c, n, a, es).(pods := pods);
            var (c2, reply) := UnpublishCall(c1, n, a.volumeID, a.target, e);
            && reply == Okay
            && (!InUse(pods, claim) ==> c2 == c.(pods := pods))
            && (InUse(pods, claim) ==> c2 == c1.(mounts := c.mounts))
  {
    hide LastValue, PvById, Calls, InUse, UnpublishCall;
    CallsAddTheirOwn(c, n, a, es);
    UnpublishOutcome(Calls(c, n, a, es).(pods := pods), n, a.volumeID, a.target, e);
  }

  lemma Without<K, V>(m: map<K, V>, k: K)
    requires k !in m
    ensures m - {k} == m
  {}

  /** Once a publish has made the StatefulSet, an unpublish restores the cluster exactly when it
      gets to its deletes in the publish's namespace and they get through. */
  lemma UndoneIff(c: Cluster, n: string, a: Args, es: seq<PublishEnv>, pods: map<Key, AppPod>, e: UnpublishEnv)
    requires Clean(c, n, a) && a.volumeID != "" && a.target != "" && Addressable(Export(a))
    requires Export(a) in Calls(c, n, a, es).stss
    ensures var c1 := Calls(c, n, a, es).(pods := pods);
            UnpublishCall(c1, n, a.volumeID, a.target, e).0 == c.(pods := pods)
            <==>
            && TearsDown(c1, a.volumeID, e) && LastValue(e.attributes, DataNamespace) == a.dataNs
            && e.stsDelete && (Export(a) in c1.svcs ==> e.svcDelete)
  {
    hide LastValue, PvById, Calls, UnpublishCall, InUse, SeenInUse;
    CallsAddTheirOwn(c, n, a, es);
    UnpublishOutcome(Calls(c, n, a, es).(pods := pods), n, a.volumeID, a.target, e);
  }

  /** The call ends before its deletes, or deletes in another namespace. */
  ghost predicate PassesBy(c: Cluster, v: string, e: UnpublishEnv, k: Key) {
    !TearsDown(c, v, e) || LastValue(e.attributes, DataNamespace) != k.ns
  }

  /** An answer of OK leaves the export behind exactly when the PV list failed, the PV was gone, a
      pod was seen on its claim, the attributes named another namespace, or the delete failed. */
  lemma ExportLeftBehindIff(c: Cluster, n: string, v: string, target: string, e: UnpublishEnv, k: Key)
    requires k.name == v && Addressable(k)
    ensures var (c', reply) := UnpublishCall(c, n, v, target, e);
            reply == Okay ==>
              && (k in c'.stss <==> k in c.stss && (PassesBy(c, v, e, k) || !e.stsDelete))
              && (k in c'.svcs <==> k in c.svcs && (PassesBy(c, v, e, k) || !e.svcDelete))
  {
    hide LastValue, PvById, UnpublishCall, InUse, SeenInUse;
    UnpublishOutcome(c, n, v, target, e);
  }

  /** Repeating an unpublish, whatever it met, changes nothing and answers as before. */
  lemma UnpublishIsIdempotent(c: Cluster, n: string, v: string, target: string, e: UnpublishEnv)
    ensures var (c1, reply) := UnpublishCall(c, n, v, target, e);
            UnpublishCall(c1, n, v, target, e) == (c1, reply)
  {
    hide LastValue, PvById, UnpublishCall, InUse;
    UnpublishOutcome(c, n, v, target, e);
    var c1 := UnpublishCall(c, n, v, target, e).0;
    UnpublishOutcome(c1, n, v, target, e);
    if MountPoint(n, target) !in c1.mounts {
      Without(c1.mounts, MountPoint(n, target));
    }
  }

  /** A retry after a failed unmount ends as if the failed call had not been made. */
  lemma UnpublishRetry(c: Cluster, n: string, v: string, target: string, e: UnpublishEnv, g: UnpublishEnv)
    requires e.unmount != Unmounted && g.unmount != UnmountFailed(false)
    ensures UnpublishCall(UnpublishCall(c, n, v, target, e).0, n, v, target, g) == UnpublishCall(c, n, v, target, g)
  {
    hide LastValue, PvById, UnpublishCall, InUse;
    UnpublishOutcome(c, n, v, target, e);
    var c1 := UnpublishCall(c, n, v, target, e).0;
    UnpublishOutcome(c, n, v, target, g);
    UnpublishOutcome(c1, n, v, target, g);
    var at := MountPoint(n, target);
    assert (c.mounts - {at}) - {at} == c.mounts - {at};
  }

  /** The handler dereferences nil exactly when it gets past the unmount and finds a PV that is not
      bound to a claim. */
  lemma UnpublishPanicsIff(c: Cluster, n: string, v: string, target: string, e: UnpublishEnv)
    ensures UnpublishCall(c, n, v, target, e).1 == Panic
       <==> && v != "" && target != "" && e.unmount == Unmounted && e.pvList
            && PvById(c.pvs, v).Some? && PvById(c.pvs, v).value.claim.None?
  {
    hide LastValue, PvById, UnpublishCall, InUse;
    UnpublishOutcome(c, n, v, target, e);
  }
}
