/** The shared state of the driver: the tables of the Kubernetes API server and the
    mount tables of the nodes.

    An API call may fail for reasons of its own; `up` says whether this one gets
    through.  The client refuses requests with an empty namespace or an empty name. */
module Cluster {
  import opened Common

  datatype Key = Key(ns: string, name: string)

  datatype Owner = Owner(name: string, uid: string)

  datatype Pvc = Pvc(uid: string, idLabel: string, storageClass: string, size: int)

  datatype StatefulSet = StatefulSet(
    idLabel: string, selector: string, serviceName: string, owner: Owner,
    claim: string, image: string, hostsAllow: string)

  datatype Service = Service(idLabel: string, selector: string, owner: Owner, ip: string)

  datatype CsiSource = CsiSource(handle: string, attributes: map<string, string>)

  datatype Pv = Pv(csi: Option<CsiSource>, claim: Option<Key>)

  /** An application pod: the claim named by each of its volumes, if it is a claim volume. */
  datatype AppPod = AppPod(volumes: seq<Option<string>>, deletionCost: string)

  datatype MountKind = Bind | Nfs

  datatype MountPoint = MountPoint(node: string, path: string)

  /** An entry of a mount table.  `exported` and `pod` record which volume was mounted for whom. */
  datatype Mount = Mount(kind: MountKind, source: string, options: seq<string>, exported: Key, pod: Key)

  /** `born` records every incarnation a PVC name ever had. */
  datatype Cluster = Cluster(
    pvcs: map<Key, Pvc>, born: set<(Key, string)>, pvs: seq<Pv>,
    stss: map<Key, StatefulSet>, svcs: map<Key, Service>,
    pods: map<Key, AppPod>, mounts: map<MountPoint, Mount>)

  // ---------------------------------------------------------------- API calls

  predicate Addressable(k: Key) {
    k.ns != "" && k.name != ""
  }

  function Fetch<V>(table: map<Key, V>, k: Key, up: bool): Option<V> {
    if up && Addressable(k) && k in table then Some(table[k]) else None
  }

  predicate CanCreate<V>(table: map<Key, V>, k: Key, up: bool) {
    up && Addressable(k) && k !in table
  }

  predicate CanDelete<V>(table: map<Key, V>, k: Key, up: bool) {
    up && Addressable(k) && k in table
  }

  predicate UnusedUid(born: set<(Key, string)>, uid: string) {
    forall b :: b in born ==> b.1 != uid
  }

  // ---------------------------------------------------------------- look-ups

  /** The first PV of the list that is a CSI volume with that volume handle. */
  predicate FirstWithHandle(pvs: seq<Pv>, id: string, i: nat) {
    && i < |pvs| && pvs[i].csi.Some? && pvs[i].csi.value.handle == id
    && forall j :: 0 <= j < i ==> pvs[j].csi.None? || pvs[j].csi.value.handle != id
  }

  predicate HasHandle(pv: Pv, id: string) {
    pv.csi.Some? && pv.csi.value.handle == id
  }

  /** getPvById on a complete list. */
  function PvById(pvs: seq<Pv>, id: string): (r: Option<Pv>)
    ensures r.Some? ==> r.value.csi.Some? && r.value.csi.value.handle == id
    ensures r.Some? ==> exists i: nat :: FirstWithHandle(pvs, id, i) && pvs[i] == r.value
    ensures r.None? ==> forall i :: 0 <= i < |pvs| ==> pvs[i].csi.None? || pvs[i].csi.value.handle != id
  {
    if pvs == [] then None
    else if HasHandle(pvs[0], id) then
      assert FirstWithHandle(pvs, id, 0);
      Some(pvs[0])
    else
      var r := PvById(pvs[1..], id);
      assert forall i: nat :: FirstWithHandle(pvs[1..], id, i) ==> FirstWithHandle(pvs, id, i + 1);
      r
  }

  /** The answer is the first PV with the handle, or nothing when there is none. */
  lemma PvByIdIff(pvs: seq<Pv>, id: string, i: nat)
    requires i < |pvs|
    ensures FirstWithHandle(pvs, id, i) ==> PvById(pvs, id) == Some(pvs[i])
  {
    if FirstWithHandle(pvs, id, i) && PvById(pvs, id).Some? {
      var j: nat :| FirstWithHandle(pvs, id, j) && pvs[j] == PvById(pvs, id).value;
      assert i == j;
    }
  }

  /** PVs of other volumes, wherever they are listed, do not matter. */
  lemma {:induction false} PvByIdPassesOthers(before: seq<Pv>, pv: Pv, after: seq<Pv>, id: string)
    requires pv.csi.None? || pv.csi.value.handle != id
    ensures PvById(before + [pv] + after, id) == PvById(before + after, id)
  {
    if before == [] {
      assert before + after == after && (before + [pv] + after)[1..] == after;
    } else {
      assert (before + after)[1..] == before[1..] + after;
      assert (before + [pv] + after)[1..] == before[1..] + [pv] + after;
      PvByIdPassesOthers(before[1..], pv, after, id);
    }
  }

  predicate Uses(pod: AppPod, claim: string) {
    Some(claim) in pod.volumes
  }

  /** Some pod of the claim's namespace has a volume on the claim. */
  ghost predicate InUse(pods: map<Key, AppPod>, claim: Key) {
    exists k :: k in pods && k.ns == claim.ns && Uses(pods[k], claim.name)
  }
}
