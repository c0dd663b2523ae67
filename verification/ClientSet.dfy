/** The Kubernetes client and the node's mounter as the handlers see them: objects whose
    tables every call reads or changes in place. */
module Clients {
  import opened Common
  import opened Cluster

  class ClientSet {
    var pvcs: map<Key, Pvc>
    var pvs: seq<Pv>
    var stss: map<Key, StatefulSet>
    var svcs: map<Key, Service>
    var pods: map<Key, AppPod>
    ghost var born: set<(Key, string)>

    constructor ()
      ensures pvcs == map[] && pvs == [] && stss == map[] && svcs == map[] && pods == map[] && born == {}
    {
      pvcs, pvs, stss, svcs, pods, born := map[], [], map[], map[], map[], {};
    }

    method GetPvc(k: Key, up: bool) returns (r: Option<Pvc>)
      ensures r == Fetch(pvcs, k, up)
    {
      r := if up && Addressable(k) && k in pvcs then Some(pvcs[k]) else None;
    }

    /** The API server gives the new claim a UID that no claim has had. */
    method CreatePvc(k: Key, pvc: Pvc, up: bool) returns (ok: bool)
      requires UnusedUid(born, pvc.uid)
      modifies this`pvcs, this`born
      ensures ok == CanCreate(old(pvcs), k, up)
      ensures pvcs == if ok then old(pvcs)[k := pvc] else old(pvcs)
      ensures born == if ok then old(born) + {(k, pvc.uid)} else old(born)
    {
      ok := up && Addressable(k) && k !in pvcs;
      if ok {
        pvcs := pvcs[k := pvc];
        born := born + {(k, pvc.uid)};
      }
    }

    method DeletePvc(k: Key, up: bool) returns (ok: bool)
      modifies this`pvcs
      ensures ok == CanDelete(old(pvcs), k, up)
      ensures pvcs == if ok then old(pvcs) - {k} else old(pvcs)
    {
      ok := up && Addressable(k) && k in pvcs;
      if ok {
        pvcs := pvcs - {k};
      }
    }

    method GetSts(k: Key, up: bool) returns (r: Option<StatefulSet>)
      ensures r == Fetch(stss, k, up)
    {
      r := if up && Addressable(k) && k in stss then Some(stss[k]) else None;
    }

    method CreateSts(k: Key, sts: StatefulSet, up: bool) returns (ok: bool)
      modifies this`stss
      ensures ok == CanCreate(old(stss), k, up)
      ensures stss == if ok then old(stss)[k := sts] else old(stss)
    {
      ok := up && Addressable(k) && k !in stss;
      if ok {
        stss := stss[k := sts];
      }
    }

    method DeleteSts(k: Key, up: bool) returns (ok: bool)
      modifies this`stss
      ensures ok == CanDelete(old(stss), k, up)
      ensures stss == if ok then old(stss) - {k} else old(stss)
    {
      ok := up && Addressable(k) && k in stss;
      if ok {
        stss := stss - {k};
      }
    }

    method GetSvc(k: Key, up: bool) returns (r: Option<Service>)
      ensures r == Fetch(svcs, k, up)
    {
      r := if up && Addressable(k) && k in svcs then Some(svcs[k]) else None;
    }

    method CreateSvc(k: Key, svc: Service, up: bool) returns (ok: bool)
      modifies this`svcs
      ensures ok == CanCreate(old(svcs), k, up)
      ensures svcs == if ok then old(svcs)[k := svc] else old(svcs)
    {
      ok := up && Addressable(k) && k !in svcs;
      if ok {
        svcs := svcs[k := svc];
      }
    }

    method DeleteSvc(k: Key, up: bool) returns (ok: bool)
      modifies this`svcs
      ensures ok == CanDelete(old(svcs), k, up)
      ensures svcs == if ok then old(svcs) - {k} else old(svcs)
    {
      ok := up && Addressable(k) && k in svcs;
      if ok {
        svcs := svcs - {k};
      }
    }

    method GetPod(k: Key, up: bool) returns (r: Option<AppPod>)
      ensures r == Fetch(pods, k, up)
    {
      r := if up && Addressable(k) && k in pods then Some(pods[k]) else None;
    }

    method UpdatePod(k: Key, pod: AppPod)
      requires k in pods
      modifies this`pods
      ensures pods == old(pods)[k := pod]
    {
      pods := pods[k := pod];
    }

    /** A failed list reads as an empty one. */
    method ListPods(ns: string, up: bool) returns (items: seq<AppPod>)
      ensures up ==> forall k :: k in pods && k.ns == ns ==> pods[k] in items
      ensures forall pod :: pod in items ==> up && exists k :: k in pods && k.ns == ns && pods[k] == pod
    {
      items := [];
      if up {
        var left := pods.Keys;
        while left != {}
          invariant left <= pods.Keys
          invariant forall k :: k in pods && k.ns == ns && k !in left ==> pods[k] in items
          invariant forall pod :: pod in items ==> exists k :: k in pods && k.ns == ns && pods[k] == pod
          decreases left
        {
          var k :| k in left;
          left := left - {k};
          if k.ns == ns {
            items := items + [pods[k]];
          }
        }
      }
    }

    /** getPvById: a failed list finds nothing. */
    method GetPvById(id: string, up: bool) returns (r: Option<Pv>)
      ensures r == if up then PvById(pvs, id) else None
      ensures r.Some? ==> exists i: nat :: FirstWithHandle(pvs, id, i) && pvs[i] == r.value
      ensures up && r.None? ==> forall i :: 0 <= i < |pvs| ==> pvs[i].csi.None? || pvs[i].csi.value.handle != id
    {
      if !up {
        return None;
      }
      for i := 0 to |pvs|
        invariant PvById(pvs, id) == PvById(pvs[i..], id)
      {
        var pv := pvs[i];
        if pv.csi.Some? && pv.csi.value.handle == id {
          return Some(pv);
        }
      }
      r := None;
    }
  }

  /** The mount tables.  A node server touches the entries of its own node. */
  class Mounter {
    var mounts: map<MountPoint, Mount>

    constructor ()
      ensures mounts == map[]
    {
      mounts := map[];
    }

    method Mount(at: MountPoint, m: Mount, err: Option<OsError>) returns (r: Option<OsError>)
      modifies this
      ensures r == err
      ensures mounts == if err.None? then old(mounts)[at := m] else old(mounts)
    {
      if err.None? {
        mounts := mounts[at := m];
      }
      r := err;
    }

    method Unmount(at: MountPoint)
      modifies this
      ensures mounts == old(mounts) - {at}
    {
      mounts := mounts - {at};
    }
  }
}
