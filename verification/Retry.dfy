/** Publish calls that fail and are repeated. */
module Retry {
  import opened Common
  import opened Params
  import opened Cluster
  import opened NodeSteps
  import opened Outcome

  datatype Tables = Tables(stss: map<Key, StatefulSet>, svcs: map<Key, Service>, mounts: map<MountPoint, Mount>)

  function TablesOf(c: Cluster): Tables {
    Tables(c.stss, c.svcs, c.mounts)
  }

  /** The data PVC exists and the names can be addressed. */
  predicate Ready(c: Cluster, a: Args) {
    Addressable(DataKey(a)) && Addressable(Export(a)) && DataKey(a) in c.pvcs
  }

  /** The backend pod comes up, and API, probe, mount and chmod calls succeed. */
  predicate Healthy(g: PublishEnv) {
    && g.pvcGet && g.stsGet && g.stsCreate && g.svcGet && g.svcCreate
    && PodComesUp(g) && PortComesUp(g)
    && (g.target == Present || g.target == Absent(true))
    && g.bindErr.None? && g.nfsErr.None? && g.chmod
  }

  /** The two calls see the same backend pod, the same directories on the node and the same Service
      address; everything else may differ. */
  predicate SameView(e: PublishEnv, g: PublishEnv) {
    && e.podUid == g.podUid && e.kubeletRoot == g.kubeletRoot && e.dir == g.dir
    && e.sourceMounted == g.sourceMounted && e.ip == g.ip
  }

  predicate LocalView(c: Cluster, a: Args, g: PublishEnv)
    requires DataKey(a) in c.pvcs
  {
    GoesLocal(g, g.podUid, c.pvcs[DataKey(a)].uid)
  }

  /** The tables a publish is for: the StatefulSet, and either the bind mount or the Service with
      the NFS mount, each made only where it is missing. */
  function Goal(c: Cluster, n: string, a: Args, g: PublishEnv): Tables
    requires DataKey(a) in c.pvcs
  {
    var uid, at := c.pvcs[DataKey(a)].uid, MountPoint(n, a.target);
    var stss := if Export(a) in c.stss then c.stss else c.stss[Export(a) := NewSts(a, uid)];
    if at in c.mounts then Tables(stss, c.svcs, c.mounts)
    else if LocalView(c, a, g) then Tables(stss, c.svcs, c.mounts[at := BindOf(a, LocalSource(g, g.podUid, uid))])
    else
      var svcs := if Export(a) in c.svcs then c.svcs else c.svcs[Export(a) := NewSvc(a, uid, g.ip)];
      Tables(stss, svcs, c.mounts[at := NfsOf(a, svcs[Export(a)].ip)])
  }

  function Call(c: Cluster, n: string, a: Args, e: PublishEnv): (Cluster, Reply) {
    FinishPublish(c, n, ReadPvc(a), e)
  }

  /** A call never takes back what is there, whatever goes wrong in it. */
  lemma CallNeverGoesBack(c: Cluster, n: string, a: Args, e: PublishEnv)
    ensures var c' := Call(c, n, a, e).0;
            && c'.pvcs == c.pvcs && c'.born == c.born && c'.pvs == c.pvs
            && (forall k :: k in c.stss ==> k in c'.stss && c'.stss[k] == c.stss[k])
            && (forall k :: k in c.svcs ==> k in c'.svcs && c'.svcs[k] == c.svcs[k])
            && (forall at :: at in c.mounts ==> at in c'.mounts && c'.mounts[at] == c.mounts[at])
            && c'.stss - {Export(a)} == c.stss - {Export(a)}
            && c'.svcs - {Export(a)} == c.svcs - {Export(a)}
            && c'.mounts - {MountPoint(n, a.target)} == c.mounts - {MountPoint(n, a.target)}
  {
    hide FinishPublish, LocalSource, PodsAfter, Answer;
    PublishOutcome(c, n, a, e);
  }

  /** Nor does it move the goal. */
  lemma CallKeepsGoal(c: Cluster, n: string, a: Args, e: PublishEnv, g: PublishEnv)
    requires Ready(c, a) && SameView(e, g)
    ensures Ready(Call(c, n, a, e).0, a)
    ensures Goal(Call(c, n, a, e).0, n, a, g) == Goal(c, n, a, g)
  {
    hide FinishPublish, PodsAfter, Answer;
    PublishOutcome(c, n, a, e);
  }

  /** One call under good conditions reaches the goal.  It says so, except that over NFS an
      unreadable pod directory is answered as an error. */
  lemma HealthyCallReachesGoal(c: Cluster, n: string, a: Args, g: PublishEnv)
    requires Ready(c, a) && Healthy(g)
    ensures var (c', reply) := Call(c, n, a, g);
            && TablesOf(c') == Goal(c, n, a, g) && MountPoint(n, a.target) in c'.mounts
            && (reply == Okay <==> MountPoint(n, a.target) in c.mounts || LocalView(c, a, g) || DirError(g).None?)
  {
    hide FinishPublish, LocalSource, PodsAfter;
    PublishOutcome(c, n, a, g);
  }

  /** Calls one after the other, each in its own environment. */
  function Calls(c: Cluster, n: string, a: Args, es: seq<PublishEnv>): Cluster {
    if es == [] then c else Call(Calls(c, n, a, es[..|es| - 1]), n, a, es[|es| - 1]).0
  }

  lemma {:induction false} CallsKeepClaims(c: Cluster, n: string, a: Args, es: seq<PublishEnv>)
    ensures Calls(c, n, a, es).pvcs == c.pvcs && Calls(c, n, a, es).born == c.born && Calls(c, n, a, es).pvs == c.pvs
    ensures Calls(c, n, a, es).stss - {Export(a)} == c.stss - {Export(a)}
    ensures Calls(c, n, a, es).svcs - {Export(a)} == c.svcs - {Export(a)}
    ensures Calls(c, n, a, es).mounts - {MountPoint(n, a.target)} == c.mounts - {MountPoint(n, a.target)}
  {
    hide Call;
    if es != [] {
      var k := |es| - 1;
      CallsKeepClaims(c, n, a, es[..k]);
      CallNeverGoesBack(Calls(c, n, a, es[..k]), n, a, es[k]);
    }
  }

  /** What a good call makes and mounts, in terms of its goal. */
  lemma HealthyMakes(c: Cluster, n: string, a: Args, g: PublishEnv)
    requires Ready(c, a) && Healthy(g)
    ensures var at := MountPoint(n, a.target);
            && (MakesSvc(c, n, a, g) <==> at !in c.mounts && !LocalView(c, a, g) && Export(a) !in c.svcs)
            && Mounted(c, n, a, g) == (if at in c.mounts then None else Some(Goal(c, n, a, g).mounts[at]))
  {
    hide LocalSource;
  }

  /** What any call makes and mounts decides what a good call still has to do. */
  lemma GoalAfter(c: Cluster, n: string, a: Args, e: PublishEnv, g: PublishEnv)
    requires Ready(c, a)
    ensures Call(c, n, a, e).0.pvcs == c.pvcs
    ensures var at, k, uid := MountPoint(n, a.target), Export(a), c.pvcs[DataKey(a)].uid;
            var once, again := Goal(c, n, a, g), Goal(Call(c, n, a, e).0, n, a, g);
            && again.stss == once.stss
            && (Mounted(c, n, a, e).Some? ==>
                  again == Tables(once.stss, SvcsAfter(c, n, a, e), MountsAfter(c, n, a, e)))
            && (Mounted(c, n, a, e).None? && !MakesSvc(c, n, a, e) ==> again == once)
            && (MakesSvc(c, n, a, e) ==>
                  k !in c.svcs && at !in c.mounts && again.svcs == c.svcs[k := NewSvc(a, uid, e.ip)])
            && (MakesSvc(c, n, a, e) && Mounted(c, n, a, e).None? && !LocalView(c, a, g) ==>
                  again.mounts == c.mounts[at := NfsOf(a, e.ip)])
  {
    hide FinishPublish, LocalSource, PodsAfter, Answer;
    PublishOutcome(c, n, a, e);
  }

  /** What the call makes and mounts, the good call would make and mount too. */
  predicate Agrees(c: Cluster, n: string, a: Args, e: PublishEnv, g: PublishEnv) {
    && (MakesSvc(c, n, a, e) ==> MakesSvc(c, n, a, g) && e.ip == g.ip)
    && (Mounted(c, n, a, e).Some? ==> Mounted(c, n, a, g) == Mounted(c, n, a, e))
  }

  lemma GoalsAgreeIff(c: Cluster, n: string, a: Args, e: PublishEnv, g: PublishEnv)
    requires Ready(c, a) && Healthy(g)
    ensures Ready(Call(c, n, a, e).0, a)
    ensures Goal(Call(c, n, a, e).0, n, a, g) == Goal(c, n, a, g) <==> Agrees(c, n, a, e, g)
    ensures !Agrees(c, n, a, e, g) ==> Diverged(Call(c, n, a, e).0, n, a, Goal(c, n, a, g))
  {
    hide Call, LocalSource, Healthy;
    HealthyMakes(c, n, a, g);
    GoalAfter(c, n, a, e, g);
    MountedImplies(c, n, a, e);
    WhatACallAdds(c, n, a, e);
    var once, again := Goal(c, n, a, g), Goal(Call(c, n, a, e).0, n, a, g);
    var at, k := MountPoint(n, a.target), Export(a);
    hide MakesSvc, Mounted;
    assert again == once ==> again.svcs == once.svcs && again.mounts == once.mounts;
    if MakesSvc(c, n, a, e) {
      assert again.svcs[k].ip == e.ip;
      assert k in once.svcs ==> once.svcs[k].ip == g.ip;
    }
    if Mounted(c, n, a, e).Some? {
      assert again.mounts[at] == Mounted(c, n, a, e).value;
    }
  }

  lemma WhatACallAdds(c: Cluster, n: string, a: Args, e: PublishEnv)
    ensures Call(c, n, a, e).0.pvcs == c.pvcs
    ensures Call(c, n, a, e).0.svcs == SvcsAfter(c, n, a, e) && Call(c, n, a, e).0.mounts == MountsAfter(c, n, a, e)
  {
    hide FinishPublish, LocalSource, PodsAfter, Answer, SvcsAfter, MountsAfter;
    PublishOutcome(c, n, a, e);
  }

  /** Something is there that does not belong to the tables `t`. */
  predicate Diverged(c: Cluster, n: string, a: Args, t: Tables) {
    var at, k := MountPoint(n, a.target), Export(a);
    || (k in c.svcs && !(k in t.svcs && t.svcs[k] == c.svcs[k]))
    || (at in c.mounts && !(at in t.mounts && t.mounts[at] == c.mounts[at]))
  }

  /** It stays, and keeps the goal away from `t`. */
  lemma DivergedForGood(c: Cluster, n: string, a: Args, e: PublishEnv, g: PublishEnv, t: Tables)
    requires Ready(c, a) && Diverged(c, n, a, t)
    ensures Diverged(Call(c, n, a, e).0, n, a, t)
    ensures Goal(c, n, a, g) != t
  {
    hide Call, LocalSource;
    CallNeverGoesBack(c, n, a, e);
  }

  /** Each of the calls, where it came, agreed with the good call. */
  predicate AllAgree(c: Cluster, n: string, a: Args, es: seq<PublishEnv>, g: PublishEnv) {
    es != [] ==>
      && AllAgree(c, n, a, es[..|es| - 1], g)
      && Agrees(Calls(c, n, a, es[..|es| - 1]), n, a, es[|es| - 1], g)
  }

  lemma {:induction false} CallsKeepGoalIff(c: Cluster, n: string, a: Args, es: seq<PublishEnv>, g: PublishEnv)
    requires Ready(c, a) && Healthy(g)
    ensures Ready(Calls(c, n, a, es), a)
    ensures Goal(Calls(c, n, a, es), n, a, g) == Goal(c, n, a, g) <==> AllAgree(c, n, a, es, g)
    ensures !AllAgree(c, n, a, es, g) ==> Diverged(Calls(c, n, a, es), n, a, Goal(c, n, a, g))
  {
    hide Goal, Healthy, Call, Agrees, Diverged;
    if es != [] {
      var k := |es| - 1;
      CallsKeepGoalIff(c, n, a, es[..k], g);
      var ck := Calls(c, n, a, es[..k]);
      GoalsAgreeIff(ck, n, a, es[k], g);
      if !AllAgree(c, n, a, es[..k], g) {
        DivergedForGood(ck, n, a, es[k], g, Goal(c, n, a, g));
        DivergedForGood(Calls(c, n, a, es), n, a, es[k], g, Goal(c, n, a, g));
      }
    }
  }

  /** Retry convergence, for any calls made before, whatever they met and answered: a call under
      good conditions completes the tables and a second one changes nothing more and answers OK.
      The tables are those of one uninterrupted call exactly when every earlier call made and
      mounted only what the good call would have. */
  lemma {:induction false} RetryConvergesIff(c: Cluster, n: string, a: Args, es: seq<PublishEnv>, g: PublishEnv)
    requires Ready(c, a) && Healthy(g)
    ensures var c1 := Calls(c, n, a, es);
            var (c2, reply2) := Call(c1, n, a, g);
            var (c3, reply3) := Call(c2, n, a, g);
            && Ready(c1, a) && TablesOf(c3) == TablesOf(c2) == Goal(c1, n, a, g) && reply3 == Okay
            && (TablesOf(c2) == TablesOf(Call(c, n, a, g).0) <==> AllAgree(c, n, a, es, g))
            && (reply2 == Okay <==> MountPoint(n, a.target) in c1.mounts || LocalView(c, a, g) || DirError(g).None?)
  {
    hide FinishPublish, LocalSource, Ready, Healthy, AllAgree;
    CallsKeepGoalIff(c, n, a, es, g);
    CallsKeepClaims(c, n, a, es);
    HealthyCallReachesGoal(c, n, a, g);
    var c1 := Calls(c, n, a, es);
    HealthyCallReachesGoal(c1, n, a, g);
    var c2 := Call(c1, n, a, g).0;
    CallKeepsGoal(c1, n, a, g, g);
    HealthyCallReachesGoal(c2, n, a, g);
  }

  /** A call that stops before it chooses a source makes no Service and mounts nothing, and one
      with the same view makes and mounts the same. */
  lemma StopsOrSeesTheSame(c: Cluster, n: string, a: Args, e: PublishEnv, g: PublishEnv)
    requires Ready(c, a) && Healthy(g) && (!GetsToSource(c, n, a, e) || SameView(e, g))
    ensures Agrees(c, n, a, e, g)
  {
    hide Call, Healthy, Goal, Ready;
    if GetsToSource(c, n, a, e) {
      CallKeepsGoal(c, n, a, e, g);
      GoalsAgreeIff(c, n, a, e, g);
    }
  }

  lemma {:induction false} AllStopOrSeeTheSame(c: Cluster, n: string, a: Args, es: seq<PublishEnv>, g: PublishEnv)
    requires Ready(c, a) && Healthy(g)
    requires forall i :: 0 <= i < |es| ==>
               !GetsToSource(Calls(c, n, a, es[..i]), n, a, es[i]) || SameView(es[i], g)
    ensures AllAgree(c, n, a, es, g)
  {
    hide Goal, Ready, Healthy, Call, Agrees, GetsToSource, SameView;
    if es != [] {
      var k := |es| - 1;
      assert forall i :: 0 <= i < k ==> es[..k][i] == es[i] && es[..k][..i] == es[..i];
      AllStopOrSeeTheSame(c, n, a, es[..k], g);
      CallsKeepGoalIff(c, n, a, es[..k], g);
      StopsOrSeesTheSame(Calls(c, n, a, es[..k]), n, a, es[k], g);
    }
  }

  /** So on a volume whose backend pod is still coming up, or is elsewhere, retrying converges: the
      earlier calls may each have stopped before the choice of the source, whatever they saw, or
      have failed at any later boundary with the good call's view. */
  lemma {:induction false} RetryConverges(c: Cluster, n: string, a: Args, es: seq<PublishEnv>, g: PublishEnv)
    requires Ready(c, a) && Healthy(g)
    requires forall i :: 0 <= i < |es| ==>
               !GetsToSource(Calls(c, n, a, es[..i]), n, a, es[i]) || SameView(es[i], g)
    ensures var c2 := Call(Calls(c, n, a, es), n, a, g).0;
            var (c3, reply3) := Call(c2, n, a, g);
            TablesOf(c3) == TablesOf(c2) == TablesOf(Call(c, n, a, g).0) && reply3 == Okay
  {
    hide Ready, Healthy, Goal, Call, GetsToSource, SameView, AllAgree;
    AllStopOrSeeTheSame(c, n, a, es, g);
    RetryConvergesIff(c, n, a, es, g);
  }

  /** The condition for a single earlier call. */
  lemma RetryAfterOtherViewIff(c: Cluster, n: string, a: Args, e: PublishEnv, g: PublishEnv)
    requires Ready(c, a) && Healthy(g)
    ensures TablesOf(Call(Call(c, n, a, e).0, n, a, g).0) == TablesOf(Call(c, n, a, g).0) <==> Agrees(c, n, a, e, g)
  {
    hide Call, Agrees, Ready, Healthy;
    assert [e][..0] == [];
    assert Calls(c, n, a, [e]) == Call(Calls(c, n, a, []), n, a, e).0;
    RetryConvergesIff(c, n, a, [e], g);
  }

  lemma MountedImplies(c: Cluster, n: string, a: Args, e: PublishEnv)
    ensures Mounted(c, n, a, e).Some? ==> MountPoint(n, a.target) !in c.mounts
    ensures Mounted(c, n, a, e).Some? && Mounted(c, n, a, e).value.kind == Bind ==> !MakesSvc(c, n, a, e)
    ensures Mounted(c, n, a, e).Some? && Mounted(c, n, a, e).value.kind == Nfs && !MakesSvc(c, n, a, e)
            ==> Export(a) in c.svcs
    ensures Mounted(c, n, a, e).Some? && Mounted(c, n, a, e).value.kind == Nfs && MakesSvc(c, n, a, e)
            ==> Mounted(c, n, a, e).value == NfsOf(a, e.ip)
  {
    hide LocalSource;
  }

  /** The same request, its volume context visited in another order, is the same call. */
  lemma {:induction false} IdenticalRequests(
    c: Cluster, n: string, r: PublishRequest, fs: seq<Entry>, m: map<string, string>, default: nat, e: PublishEnv)
    requires Enumerates(r.context, m) && Enumerates(fs, m) && MapUniqueUpToCase(m)
    ensures PublishCall(c, n, r.(context := fs), default, e) == PublishCall(c, n, r, default, e)
    ensures ParsePublish(r, default).Ok?
            ==> PublishCall(c, n, r, default, e) == Call(c, n, ParsePublish(r, default).value, e)
  {
    hide FinishPublish, ParsePublish;
    PublishParseOrderFree(r, fs, m, default);
  }
}
