/** One whole NodeUnpublishVolume call, in the fields of the tables and the answers of the world. */
module UnpublishSpec {
  import opened Common
  import opened Params
  import opened Cluster
  import opened NodeSteps
  import opened Undo
  import opened Reading

  /** A listed pod of the claim's namespace has a volume on the claim. */
  ghost predicate PodSeen(c: Cluster, claim: Key, e: UnpublishEnv) {
    && e.podList && claim.ns != "" && claim.name != ""
    && exists q, l :: q in c.pods && q.ns == claim.ns && 0 <= l < |c.pods[q].volumes|
                      && c.pods[q].volumes[l] == Some(claim.name)
  }

  /** What the search for the volume's PV comes to; `i` is where the PV is listed. */
  datatype Ending = BadRequest | StillMounted | NoPv | Unbound(i: nat) | PodThere(i: nat) | Down(i: nat)

  ghost predicate EndsIn(c: Cluster, v: string, target: string, e: UnpublishEnv, x: Ending) {
    if v == "" || target == "" then x == BadRequest
    else if e.unmount != Unmounted then x == StillMounted
    else
      match x
      case NoPv => e.pvList ==> forall i :: 0 <= i < |c.pvs| ==> c.pvs[i].csi.None? || c.pvs[i].csi.value.handle != v
      case Unbound(i) => e.pvList && FirstWithHandle(c.pvs, v, i) && c.pvs[i].claim.None?
      case PodThere(i) =>
        && e.pvList && FirstWithHandle(c.pvs, v, i) && c.pvs[i].claim.Some?
        && PodSeen(c, c.pvs[i].claim.value, e)
      case Down(i) =>
        && e.pvList && FirstWithHandle(c.pvs, v, i) && c.pvs[i].claim.Some?
        && !PodSeen(c, c.pvs[i].claim.value, e)
      case _ => false
  }

  function AnswerFor(x: Ending): Reply {
    match x
    case BadRequest => Error(InvalidArgument)
    case StillMounted => Error(Internal)
    case Unbound(_) => Panic
    case _ => Okay
  }

  lemma EndsSomewhere(c: Cluster, v: string, target: string, e: UnpublishEnv) returns (x: Ending)
    ensures EndsIn(c, v, target, e, x)
  {
    if v == "" || target == "" {
      x := BadRequest;
    } else if e.unmount != Unmounted {
      x := StillMounted;
    } else if !e.pvList || PvById(c.pvs, v).None? {
      x := NoPv;
    } else {
      var i: nat :| FirstWithHandle(c.pvs, v, i);
      x := if c.pvs[i].claim.None? then Unbound(i)
           else if PodSeen(c, c.pvs[i].claim.value, e) then PodThere(i) else Down(i);
    }
  }

  lemma PodSeenIff(c: Cluster, claim: Key, e: UnpublishEnv)
    ensures PodSeen(c, claim, e) <==> SeenInUse(c, claim, e)
  {
    if SeenInUse(c, claim, e) {
      var q :| q in c.pods && q.ns == claim.ns && Uses(c.pods[q], claim.name);
      var l :| 0 <= l < |c.pods[q].volumes| && c.pods[q].volumes[l] == Some(claim.name);
    }
    if PodSeen(c, claim, e) {
      var q, l :| q in c.pods && q.ns == claim.ns && 0 <= l < |c.pods[q].volumes|
                  && c.pods[q].volumes[l] == Some(claim.name);
      assert Uses(c.pods[q], claim.name);
    }
  }

  lemma TearsDownIff(c: Cluster, v: string, target: string, e: UnpublishEnv, x: Ending)
    requires EndsIn(c, v, target, e, x) && v != "" && target != ""
    ensures x.Down? <==> TearsDown(c, v, e)
    ensures AnswerFor(x) == UnpublishAnswer(c, v, target, e)
  {
    hide PodSeen, SeenInUse;
    match x {
      case BadRequest =>
      case StillMounted =>
      case NoPv =>
        assert e.pvList && PvById(c.pvs, v).Some? ==> exists i: nat :: FirstWithHandle(c.pvs, v, i);
      case Unbound(i) => PvByIdIff(c.pvs, v, i);
      case PodThere(i) => PvByIdIff(c.pvs, v, i); PodSeenIff(c, c.pvs[i].claim.value, e);
      case Down(i) => PvByIdIff(c.pvs, v, i); PodSeenIff(c, c.pvs[i].claim.value, e);
    }
  }

  /** The mount goes unless the unmount failed before it; the StatefulSet and the Service named after
      the volume, in the namespace the PV's attributes give, go when the call gets to its deletes and
      the delete gets through; nothing else changes. */
  lemma {:induction false} UnpublishMeetsSpec(
    c: Cluster, n: string, v: string, target: string, e: UnpublishEnv, x: Ending, ns: string)
    requires EndsIn(c, v, target, e, x) && Says(e.attributes, "datanamespace", ns)
    ensures var at, k := MountPoint(n, target), Key(ns, v);
            UnpublishCall(c, n, v, target, e)
            == (c.(mounts := if x.BadRequest? || e.unmount == UnmountFailed(false) then c.mounts else c.mounts - {at},
                   stss := if x.Down? && e.stsDelete && ns != "" && k in c.stss then c.stss - {k} else c.stss,
                   svcs := if x.Down? && e.svcDelete && ns != "" && k in c.svcs then c.svcs - {k} else c.svcs),
                AnswerFor(x))
  {
    hide Says, LastValue, Classify, TearsDown, UnpublishCall, UnpublishAnswer, PodSeen, PvById, FirstWithHandle;
    AllSpellings();
    SaysLastValue(e.attributes, "datanamespace", DataNamespace);
    SaysOneThing(e.attributes, "datanamespace", ns, LastValue(e.attributes, DataNamespace));
    UnpublishOutcome(c, n, v, target, e);
    if v != "" && target != "" {
      TearsDownIff(c, v, target, e, x);
    } else {
      assert UnpublishAnswer(c, v, target, e) == Error(InvalidArgument) by { BadRequestIs(c, v, target, e); }
    }
  }

  lemma BadRequestIs(c: Cluster, v: string, target: string, e: UnpublishEnv)
    requires v == "" || target == ""
    ensures UnpublishAnswer(c, v, target, e) == Error(InvalidArgument)
  {}

  /** PVs of other volumes, wherever they are listed, change neither the answer nor the deletes. */
  lemma OtherPvsDoNotMatter(
    c: Cluster, n: string, v: string, target: string, e: UnpublishEnv, before: seq<Pv>, pv: Pv, after: seq<Pv>)
    requires c.pvs == before + after && (pv.csi.None? || pv.csi.value.handle != v)
    ensures var pvs := before + [pv] + after;
            var (c1, reply) := UnpublishCall(c, n, v, target, e);
            UnpublishCall(c.(pvs := pvs), n, v, target, e) == (c1.(pvs := pvs), reply)
  {
    hide UnpublishCall, LastValue, PvById, InUse;
    PvByIdPassesOthers(before, pv, after, v);
    UnpublishOutcome(c, n, v, target, e);
    UnpublishOutcome(c.(pvs := before + [pv] + after), n, v, target, e);
  }
}
