/** One whole CreateVolume or DeleteVolume call, from the request as it is written to the claims
    and the answer, in the fields of requests, tables and answers of the world alone. */
module ControllerSpec {
  import opened Common
  import opened Params
  import opened Naming
  import opened Cluster
  import opened ControllerSteps
  import opened Agreement
  import opened Reading

  predicate MarkedDefault(sc: StorageClass) {
    var mark := "storageclass.kubernetes.io/is-default-class";
    mark in sc.annotations && sc.annotations[mark] == "true"
  }

  /** The class that is given; without one the first class marked as default, if any is listed. */
  ghost predicate ClassIs(given: string, classes: Option<seq<StorageClass>>, name: string) {
    if given != "" then name == given
    else if classes.Some? && exists i :: 0 <= i < |classes.value| && MarkedDefault(classes.value[i]) then
      exists i :: 0 <= i < |classes.value| && MarkedDefault(classes.value[i]) && name == classes.value[i].name
                  && forall j :: 0 <= j < i ==> !MarkedDefault(classes.value[j])
    else name == ""
  }

  lemma {:induction false} FirstDefaultIs(classes: seq<StorageClass>)
    ensures ClassIs("", Some(classes), FirstDefault(classes))
  {
    hide MarkedDefault;
    if classes != [] {
      FirstDefaultIs(classes[1..]);
      assert IsDefault(classes[0]) <==> MarkedDefault(classes[0]) by { DefaultIs(classes[0]); }
      assert forall i :: 1 <= i < |classes| ==> classes[1..][i - 1] == classes[i];
      if !MarkedDefault(classes[0]) && exists i :: 0 <= i < |classes| && MarkedDefault(classes[i]) {
        var i :| 0 <= i < |classes| && MarkedDefault(classes[i]);
        assert MarkedDefault(classes[1..][i - 1]);
        var j :| 0 <= j < |classes| - 1 && MarkedDefault(classes[1..][j])
                 && FirstDefault(classes[1..]) == classes[1..][j].name
                 && forall l :: 0 <= l < j ==> !MarkedDefault(classes[1..][l]);
        assert forall l :: 0 <= l < j + 1 ==> !MarkedDefault(classes[l]);
      }
    }
  }

  lemma DefaultIs(sc: StorageClass)
    ensures IsDefault(sc) <==> MarkedDefault(sc)
  {}

  lemma OneClass(given: string, classes: Option<seq<StorageClass>>, a: string, b: string)
    requires ClassIs(given, classes, a) && ClassIs(given, classes, b)
    ensures a == b
  {
    hide MarkedDefault;
  }

  /** A request that names a volume, asks for a capability and has only known parameters. */
  ghost predicate Asks(r: CreateRequest, p: StorageParams) {
    && r.name != "" && r.capabilities > 0
    && (forall i :: 0 <= i < |r.params| ==> Lower(r.params[i].key) in STORAGE_KEYS)
    && Says(r.params, "datastorageclass", p.storageClass) && Says(r.params, "nfsserverimage", p.image)
    && Says(r.params, "nfshostsallow", p.hostsAllow) && Says(r.params, "csi.storage.k8s.io/pvc/name", p.pvcName)
    && Says(r.params, "csi.storage.k8s.io/pvc/namespace", p.pvcNs)
  }

  /** CreateVolume: the claim named by the rewritten volume name, in the namespace of the requesting
      PVC, is found or made; the answer carries what the other calls need. */
  lemma {:induction false} CreateMeetsSpec(
    c: Cluster, r: CreateRequest, e: CreateEnv, p: StorageParams, id: string, class_: string)
    ensures Asks(r, p) && ReplacedOnce(r.name, id) && ClassIs(p.storageClass, e.classes, class_) ==>
              var k := Key(p.pvcNs, id);
              var found := e.pvcGet && p.pvcNs != "" && k in c.pvcs;
              var made := e.pvcCreate && p.pvcNs != "" && k !in c.pvcs;
              CreateCall(c, r, e)
              == (if made
                  then c.(pvcs := c.pvcs[k := Pvc(uid := e.uid, idLabel := id, storageClass := class_, size := r.size)],
                          born := c.born + {(k, e.uid)})
                  else c,
                  if found || made
                  then Volume(id, map[
                    "datavolumeclaim" := id, "datanamespace" := p.pvcNs,
                    "nfsserverimage" := if p.image == "" then "daocloud.io/piraeus/nfs-ganesha:latest" else p.image,
                    "nfshostsallow" := p.hostsAllow])
                  else Refused(Canceled))
    ensures !(exists q :: Asks(r, q)) ==> CreateCall(c, r, e) == (c, Refused(InvalidArgument))
  {
    hide Says, ParseStorage, VolumeIdFor, ReplacedOnce, ClassIs;
    ParseStorageIff(r.params, p);
    if Asks(r, p) && ReplacedOnce(r.name, id) && ClassIs(p.storageClass, e.classes, class_) {
      VolumeIdIff(r.name, id);
      VolumeIdCharacters(r.name, FindPvc(r.name, 0));
      ClassChosen(id, p, r.size, e, class_);
      CreateSucceedsIff(c, r, e);
      CreateCallEffect(c, r, e);
    }
    if ParseStorage(r.params).Ok? {
      var q := ParseStorage(r.params).value;
      ParseStorageIff(r.params, q);
      assert r.name != "" && r.capabilities > 0 ==> Asks(r, q);
    }
  }

  lemma ClassChosen(id: string, p: StorageParams, size: int, e: CreateEnv, class_: string)
    requires ClassIs(p.storageClass, e.classes, class_)
    ensures SpecFor(id, p, size, e)
         == VolumeSpec(id, p.pvcNs, class_,
                       if p.image == "" then "daocloud.io/piraeus/nfs-ganesha:latest" else p.image, p.hostsAllow, size)
  {
    if p.storageClass == "" && e.classes.Some? {
      FirstDefaultIs(e.classes.value);
      OneClass("", e.classes, class_, FirstDefault(e.classes.value));
    }
    hide FirstDefault;
  }

  lemma ClassIsChosen(p: StorageParams, e: CreateEnv) returns (class_: string)
    ensures ClassIs(p.storageClass, e.classes, class_)
  {
    class_ := if p.storageClass == "" then DefaultClass(e.classes) else p.storageClass;
    if p.storageClass == "" && e.classes.Some? {
      FirstDefaultIs(e.classes.value);
    }
  }

  /** Whatever else a request says: an answered volume has its claim in the namespace of the
      requesting PVC, of the class that is asked for, and its context carries what was asked for. */
  lemma {:induction false} AnswerFollowsRequest(
    c: Cluster, r: CreateRequest, e: CreateEnv, ns: string, class_: string, image: string, hosts: string)
    requires CreateCall(c, r, e).1.Volume?
    requires Says(r.params, "csi.storage.k8s.io/pvc/namespace", ns) && Says(r.params, "datastorageclass", class_)
    requires Says(r.params, "nfsserverimage", image) && Says(r.params, "nfshostsallow", hosts)
    ensures var (c', reply) := CreateCall(c, r, e);
            var k := Key(ns, reply.id);
            && ReplacedOnce(r.name, reply.id) && k in c'.pvcs
            && (k !in c.pvcs && class_ != "" ==> c'.pvcs[k].storageClass == class_)
            && reply.context.Keys == {"datavolumeclaim", "datanamespace", "nfsserverimage", "nfshostsallow"}
            && reply.context["datavolumeclaim"] == reply.id && reply.context["datanamespace"] == ns
            && (image != "" ==> reply.context["nfsserverimage"] == image) && reply.context["nfshostsallow"] == hosts
  {
    hide Says, ReplacedOnce, ClassIs, CreateCall;
    assert exists q :: Asks(r, q) by {
      CreateMeetsSpec(c, r, e, StorageParams("", "", "", "", ""), "", "");
    }
    var q :| Asks(r, q);
    SaysOneThing(r.params, "csi.storage.k8s.io/pvc/namespace", ns, q.pvcNs);
    SaysOneThing(r.params, "datastorageclass", class_, q.storageClass);
    SaysOneThing(r.params, "nfsserverimage", image, q.image);
    SaysOneThing(r.params, "nfshostsallow", hosts, q.hostsAllow);
    var chosen := ClassIsChosen(q, e);
    VolumeIdIff(r.name, VolumeIdFor(r.name));
    CreateMeetsSpec(c, r, e, q, VolumeIdFor(r.name), chosen);
    if class_ != "" {
      GivenClass(class_, e, chosen);
    }
  }

  lemma GivenClass(given: string, e: CreateEnv, name: string)
    requires ClassIs(given, e.classes, name) && given != ""
    ensures name == given
  {}

  /** DeleteVolume: the claim under the two attributes read of the first PV with that handle. */
  lemma {:induction false} DeleteMeetsSpec(c: Cluster, v: string, e: DeleteEnv, i: nat)
    ensures v == "" ==> DeleteCall(c, v, e, KEYS_AS_READ) == (c, Error(InvalidArgument))
    ensures v != ""
            && (e.pvList ==> forall j :: 0 <= j < |c.pvs| ==> c.pvs[j].csi.None? || c.pvs[j].csi.value.handle != v)
            ==> DeleteCall(c, v, e, KEYS_AS_READ) == (c, Okay)
    ensures v != "" && e.pvList && FirstWithHandle(c.pvs, v, i) ==>
              var m := c.pvs[i].csi.value.attributes;
              var named := "nfsNamespace" in m && m["nfsNamespace"] != ""
                           && "nfsVolumeClaim" in m && m["nfsVolumeClaim"] != "";
              DeleteCall(c, v, e, KEYS_AS_READ)
              == (if named && e.pvcDelete && Key(m["nfsNamespace"], m["nfsVolumeClaim"]) in c.pvcs
                  then c.(pvcs := c.pvcs - {Key(m["nfsNamespace"], m["nfsVolumeClaim"])}) else c,
                  Okay)
  {
    hide PvById, DeleteCall;
    DeleteCallEffect(c, v, e, KEYS_AS_READ);
    if i < |c.pvs| {
      PvByIdIff(c.pvs, v, i);
    }
    if PvById(c.pvs, v).Some? {
      var j: nat :| FirstWithHandle(c.pvs, v, j);
    }
  }

  lemma OtherPvsDoNotMatter(
    c: Cluster, v: string, e: DeleteEnv, keys: DeleteKeys, before: seq<Pv>, pv: Pv, after: seq<Pv>)
    requires c.pvs == before + after && (pv.csi.None? || pv.csi.value.handle != v)
    ensures var pvs := before + [pv] + after;
            var (c1, reply) := DeleteCall(c, v, e, keys);
            DeleteCall(c.(pvs := pvs), v, e, keys) == (c1.(pvs := pvs), reply)
  {
    hide DeleteCall, PvById;
    PvByIdPassesOthers(before, pv, after, v);
    DeleteCallEffect(c, v, e, keys);
    DeleteCallEffect(c.(pvs := before + [pv] + after), v, e, keys);
  }
}
