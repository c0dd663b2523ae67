/** Calls on one volume leave the other volumes alone, and no node call touches a data PVC. */
module Isolation {
  import opened Common
  import opened Cluster
  import opened NodeSteps
  import opened System
  import opened StepFacts

  predicate VolumeOfUnpublish(u: Unpublish, v: string) {
    !u.Ended? && u.volumeID == v
  }

  /** The event is a step of a node call on volume `v`. */
  predicate OnVolume(s: Sys, ev: Event, v: string) {
    match ev
    case StepPublish(tid, _) =>
      PublishingAt(s, tid) && !s.threads[tid].p.Done? && s.threads[tid].p.a.volumeID == v
    case StepUnpublish(tid, _) => UnpublishingAt(s, tid) && VolumeOfUnpublish(s.threads[tid].u, v)
    case _ => false
  }

  /** The event is a step of a node call whose target is `at`. */
  predicate OnTarget(s: Sys, ev: Event, at: MountPoint) {
    match ev
    case StepPublish(tid, _) =>
      PublishingAt(s, tid) && !s.threads[tid].p.Done?
      && MountPoint(s.threads[tid].node, s.threads[tid].p.a.target) == at
    case StepUnpublish(tid, _) =>
      UnpublishingAt(s, tid) && s.threads[tid].u.Unmount?
      && MountPoint(s.threads[tid].node, s.threads[tid].u.target) == at
    case _ => false
  }

  ghost predicate SameObjects(c: Cluster, c': Cluster, k: Key) {
    && (k in c'.stss <==> k in c.stss) && (k in c.stss && k in c'.stss ==> c'.stss[k] == c.stss[k])
    && (k in c'.svcs <==> k in c.svcs) && (k in c.svcs && k in c'.svcs ==> c'.svcs[k] == c.svcs[k])
  }

  ghost predicate SameMount(c: Cluster, c': Cluster, at: MountPoint) {
    (at in c'.mounts <==> at in c.mounts) && (at in c.mounts && at in c'.mounts ==> c'.mounts[at] == c.mounts[at])
  }

  lemma EventElsewhere(s: Sys, ev: Event, k: Key, at: MountPoint)
    ensures !OnVolume(s, ev, k.name) && ev != CollectSts(k) && ev != CollectSvc(k) ==>
              SameObjects(s.c, Next(s, ev).c, k)
    ensures !OnTarget(s, ev, at) ==> SameMount(s.c, Next(s, ev).c, at)
  {
    hide Apply, PublishStep;
    if Enabled(s, ev) {
      if ev.StepPublish? {
        var Publishing(n, p) := s.threads[ev.tid];
        PublishNext(s, ev.tid, ev.pe);
        PublishStepEffects(s.c, n, p, ev.pe);
        PublishStepMounts(s.c, n, p, ev.pe);
      } else if ev.StepUnpublish? {
        UnpublishNext(s, ev.tid, ev.ue);
      } else {
        OtherEventEffects(s, ev);
      }
    }
  }

  /** No step of the run is on the volume of `k`, and the collector takes neither of its objects. */
  ghost predicate AwayFromVolume(s: Sys, run: seq<Event>, k: Key)
    decreases |run|
  {
    run != [] ==>
      && AwayFromVolume(s, Before(run), k) && !OnVolume(Exec(s, Before(run)), Last(run), k.name)
      && Last(run) != CollectSts(k) && Last(run) != CollectSvc(k)
  }

  ghost predicate AwayFromTarget(s: Sys, run: seq<Event>, at: MountPoint)
    decreases |run|
  {
    run != [] ==> AwayFromTarget(s, Before(run), at) && !OnTarget(Exec(s, Before(run)), Last(run), at)
  }

  /** Over whole runs: calls on other volumes leave a volume's StatefulSet and Service as they are,
      and calls with other targets leave a mount as it is. */
  lemma {:induction false} NonInterference(s: Sys, run: seq<Event>, k: Key, at: MountPoint)
    ensures AwayFromVolume(s, run, k) ==> SameObjects(s.c, Exec(s, run).c, k)
    ensures AwayFromTarget(s, run, at) ==> SameMount(s.c, Exec(s, run).c, at)
    decreases |run|
  {
    hide Next, OnVolume, OnTarget;
    if run != [] {
      NonInterference(s, Before(run), k, at);
      EventElsewhere(Exec(s, Before(run)), Last(run), k, at);
    }
  }

  ghost predicate NodeRun(run: seq<Event>) {
    forall i :: 0 <= i < |run| ==> NodeEvent(run[i])
  }

  /** No run of publish and unpublish steps creates, deletes or alters a data PVC or a PV. */
  lemma {:induction false} DataIsConserved(s: Sys, run: seq<Event>)
    requires NodeRun(run)
    ensures Exec(s, run).c.pvcs == s.c.pvcs && Exec(s, run).c.born == s.c.born && Exec(s, run).c.pvs == s.c.pvs
    decreases |run|
  {
    hide Next;
    if run != [] {
      DataIsConserved(s, Before(run));
      EventOnClaims(Exec(s, Before(run)), Last(run));
    }
  }

  /** In any run a claim that is there before and after has the contents it had, unless it was
      deleted and made anew under another UID. */
  lemma {:induction false} ClaimsAreNeverRewritten(s: Sys, run: seq<Event>, k: Key)
    requires k in s.c.pvcs && (k, s.c.pvcs[k].uid) in s.c.born
    ensures var t := Exec(s, run);
            && s.c.born <= t.c.born
            && (k in t.c.pvcs ==> t.c.pvcs[k] == s.c.pvcs[k] || t.c.pvcs[k].uid != s.c.pvcs[k].uid)
    decreases |run|
  {
    hide Next;
    if run != [] {
      ClaimsAreNeverRewritten(s, Before(run), k);
      EventOnClaims(Exec(s, Before(run)), Last(run));
    }
  }
}
