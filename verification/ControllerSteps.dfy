/** CreateVolume and DeleteVolume, cut at every access to shared state. */
module ControllerSteps {
  import opened Common
  import opened Params
  import opened Naming
  import opened Cluster

  datatype StorageClass = StorageClass(name: string, annotations: map<string, string>)

  const DEFAULT_CLASS_ANNOTATION := "storageclass.kubernetes.io/is-default-class"

  predicate IsDefault(sc: StorageClass) {
    DEFAULT_CLASS_ANNOTATION in sc.annotations && sc.annotations[DEFAULT_CLASS_ANNOTATION] == "true"
  }

  /** The first class marked as default, or "". */
  function FirstDefault(classes: seq<StorageClass>): string {
    if classes == [] then ""
    else if IsDefault(classes[0]) then classes[0].name
    else FirstDefault(classes[1..])
  }

  /** Classes that cannot be listed offer no default. */
  function DefaultClass(classes: Option<seq<StorageClass>>): string {
    if classes.None? then "" else FirstDefault(classes.value)
  }

  /** `params` is the order in which this call visits the parameters. */
  datatype CreateRequest = CreateRequest(name: string, capabilities: nat, params: seq<Entry>, size: int)

  /** `uid` is the UID the API server would give a new claim. */
  datatype CreateEnv = CreateEnv(classes: Option<seq<StorageClass>>, pvcGet: bool, pvcCreate: bool, uid: string)

  datatype CreateReply = Volume(id: string, context: map<string, string>) | Refused(code: Code)

  datatype VolumeSpec = VolumeSpec(
    volumeID: string, ns: string, storageClass: string, image: string, hostsAllow: string, size: int)

  datatype Create =
    | ChooseClass(id: string, p: StorageParams, size: int)
    | GetPvc(v: VolumeSpec)
    | CreatePvc(v: VolumeSpec)
    | Created(reply: CreateReply)

  function DataPvcKey(v: VolumeSpec): Key { Key(v.ns, v.volumeID) }

  function NewPvc(v: VolumeSpec, uid: string): Pvc {
    Pvc(uid, v.volumeID, v.storageClass, v.size)
  }

  function VolumeContext(v: VolumeSpec): map<string, string> {
    map[PARAM_DATA_VOLUME_CLAIM := v.volumeID, PARAM_DATA_NAMESPACE := v.ns,
        PARAM_NFS_SERVER_IMAGE := v.image, PARAM_NFS_HOSTS_ALLOW := v.hostsAllow]
  }

  function ImageOf(p: StorageParams): string {
    if p.image == "" then DEFAULT_IMAGE else p.image
  }

  function SpecFor(id: string, p: StorageParams, size: int, e: CreateEnv): VolumeSpec {
    VolumeSpec(
      id, p.pvcNs,
      if p.storageClass == "" then DefaultClass(e.classes) else p.storageClass,
      ImageOf(p), p.hostsAllow, size)
  }

  function CreateStep(c: Cluster, t: Create, e: CreateEnv): (Cluster, Create) {
    match t
    case ChooseClass(id, p, size) => (c, GetPvc(SpecFor(id, p, size, e)))
    case GetPvc(v) =>
      if Fetch(c.pvcs, DataPvcKey(v), e.pvcGet).Some?
      then (c, Created(Volume(v.volumeID, VolumeContext(v))))
      else (c, CreatePvc(v))
    case CreatePvc(v) =>
      if CanCreate(c.pvcs, DataPvcKey(v), e.pvcCreate)
      then (c.(pvcs := c.pvcs[DataPvcKey(v) := NewPvc(v, e.uid)], born := c.born + {(DataPvcKey(v), e.uid)}),
            Created(Volume(v.volumeID, VolumeContext(v))))
      else (c, Created(Refused(Canceled)))
    case Created(_) => (c, t)
  }

  function CreateRank(t: Create): nat {
    match t
    case ChooseClass(_, _, _) => 3 case GetPvc(_) => 2 case CreatePvc(_) => 1 case Created(_) => 0
  }

  function FinishCreate(c: Cluster, t: Create, e: CreateEnv): (Cluster, CreateReply)
    decreases CreateRank(t)
  {
    if t.Created? then (c, t.reply)
    else var (c', t') := CreateStep(c, t, e); FinishCreate(c', t', e)
  }

  /** One whole call of CreateVolume. */
  function CreateCall(c: Cluster, r: CreateRequest, e: CreateEnv): (Cluster, CreateReply) {
    if r.name == "" || r.capabilities == 0 then (c, Refused(InvalidArgument))
    else
      match ParseStorage(r.params)
      case Err(code) => (c, Refused(code))
      case Ok(p) => FinishCreate(c, ChooseClass(VolumeIdFor(r.name), p, r.size), e)
  }

  // ---------------------------------------------------------------- delete

  datatype DeleteEnv = DeleteEnv(pvList: bool, pvcDelete: bool)

  /** The attribute keys DeleteVolume looks up, exactly as spelt. */
  datatype DeleteKeys = DeleteKeys(claim: string, ns: string)

  /** The keys in the source; CreateVolume writes other ones. */
  const KEYS_AS_READ := DeleteKeys("nfsVolumeClaim", "nfsNamespace")
  const KEYS_AS_WRITTEN := DeleteKeys(PARAM_DATA_VOLUME_CLAIM, PARAM_DATA_NAMESPACE)

  /** m[k] of a Go map. */
  function At(m: map<string, string>, k: string): string {
    if k in m then m[k] else ""
  }

  datatype Delete =
    | FindVolume(volumeID: string)
    | DeletePvc(claim: Key)
    | Deleted(reply: Reply)

  function DeleteStep(c: Cluster, t: Delete, e: DeleteEnv, keys: DeleteKeys): (Cluster, Delete) {
    match t
    case FindVolume(v) =>
      (match if e.pvList then PvById(c.pvs, v) else None
       case None => (c, Deleted(Okay))
       case Some(pv) =>
         (c, DeletePvc(Key(At(pv.csi.value.attributes, keys.ns), At(pv.csi.value.attributes, keys.claim)))))
    case DeletePvc(k) =>
      (if CanDelete(c.pvcs, k, e.pvcDelete) then c.(pvcs := c.pvcs - {k}) else c, Deleted(Okay))
    case Deleted(_) => (c, t)
  }

  function DeleteRank(t: Delete): nat {
    match t
    case FindVolume(_) => 2 case DeletePvc(_) => 1 case Deleted(_) => 0
  }

  function FinishDelete(c: Cluster, t: Delete, e: DeleteEnv, keys: DeleteKeys): (Cluster, Reply)
    decreases DeleteRank(t)
  {
    if t.Deleted? then (c, t.reply)
    else var (c', t') := DeleteStep(c, t, e, keys); FinishDelete(c', t', e, keys)
  }

  /** One whole call of DeleteVolume that looks up `keys`. */
  function DeleteCall(c: Cluster, v: string, e: DeleteEnv, keys: DeleteKeys): (Cluster, Reply) {
    if v == "" then (c, Error(InvalidArgument)) else FinishDelete(c, FindVolume(v), e, keys)
  }

  // ---------------------------------------------------------------- create: result and idempotence

  /** What one call does to the claims, by cases on its answer. */
  lemma CreateCallEffect(c: Cluster, r: CreateRequest, e: CreateEnv)
    ensures var (c', reply) := CreateCall(c, r, e);
            match reply
            case Refused(_) => c' == c
            case Volume(id, context) =>
              && r.name != "" && r.capabilities > 0 && ParseStorage(r.params).Ok?
              && var p := ParseStorage(r.params).value;
              && var v := SpecFor(VolumeIdFor(r.name), p, r.size, e);
              && id == v.volumeID && context == VolumeContext(v)
              && Addressable(DataPvcKey(v)) && DataPvcKey(v) in c'.pvcs
              && (if DataPvcKey(v) in c.pvcs then c' == c
                  else c' == c.(pvcs := c.pvcs[DataPvcKey(v) := NewPvc(v, e.uid)],
                                born := c.born + {(DataPvcKey(v), e.uid)}))
  {
    hide VolumeIdFor, ParseStorage;
    if r.name != "" && r.capabilities > 0 && ParseStorage(r.params).Ok? {
      var p := ParseStorage(r.params).value;
      var v := SpecFor(VolumeIdFor(r.name), p, r.size, e);
      assert FinishCreate(c, ChooseClass(VolumeIdFor(r.name), p, r.size), e) == FinishCreate(c, GetPvc(v), e);
      var (c0, t0) := CreateStep(c, GetPvc(v), e);
      assert FinishCreate(c, GetPvc(v), e) == FinishCreate(c0, t0, e);
      assert t0.Created? ==> FinishCreate(c0, t0, e) == (c0, t0.reply);
      var (c1, t1) := CreateStep(c, CreatePvc(v), e);
      assert FinishCreate(c, CreatePvc(v), e) == FinishCreate(c1, t1, e) == (c1, t1.reply);
    }
  }

  /** A request that passes the checks is answered with a volume exactly when its claim can be got
      or made; otherwise it is Canceled. */
  lemma CreateSucceedsIff(c: Cluster, r: CreateRequest, e: CreateEnv)
    requires r.name != "" && r.capabilities > 0 && ParseStorage(r.params).Ok?
    ensures var k, reply := Key(ParseStorage(r.params).value.pvcNs, VolumeIdFor(r.name)), CreateCall(c, r, e).1;
            && (reply.Volume?
                <==> Addressable(k) && ((e.pvcGet && k in c.pvcs) || (e.pvcCreate && k !in c.pvcs)))
            && (!reply.Volume? ==> reply == Refused(Canceled))
  {
    hide VolumeIdFor, ParseStorage;
    var p := ParseStorage(r.params).value;
    var v := SpecFor(VolumeIdFor(r.name), p, r.size, e);
    assert FinishCreate(c, ChooseClass(VolumeIdFor(r.name), p, r.size), e) == FinishCreate(c, GetPvc(v), e);
    var (c0, t0) := CreateStep(c, GetPvc(v), e);
    assert FinishCreate(c, GetPvc(v), e) == FinishCreate(c0, t0, e);
    assert t0.Created? ==> FinishCreate(c0, t0, e) == (c0, t0.reply);
    var (c1, t1) := CreateStep(c, CreatePvc(v), e);
    assert FinishCreate(c, CreatePvc(v), e) == FinishCreate(c1, t1, e) == (c1, t1.reply);
  }

  /** One request sent again and again: each call visits the parameters in its own order and meets
      its own environment. */
  function CreateCalls(c: Cluster, r: CreateRequest, calls: seq<(seq<Entry>, CreateEnv)>): (Cluster, seq<CreateReply>) {
    if calls == [] then (c, [])
    else
      var (c1, replies) := CreateCalls(c, r, calls[..|calls| - 1]);
      var (params, e) := calls[|calls| - 1];
      var (c2, reply) := CreateCall(c1, r.(params := params), e);
      (c2, replies + [reply])
  }

  /** However often a request is repeated, at most one claim appears, it is never changed again,
      and every call that succeeds answers with the same volume.  Once one has succeeded, every
      later one that can read the claim succeeds. */
  lemma {:induction false} CreateIsIdempotent(
    c: Cluster, r: CreateRequest, calls: seq<(seq<Entry>, CreateEnv)>, m: map<string, string>)
    requires MapUniqueUpToCase(m) && Enumerates(r.params, m)
    requires forall i :: 0 <= i < |calls| ==> Enumerates(calls[i].0, m)
    ensures var (c', replies) := CreateCalls(c, r, calls);
            var p := ParseStorage(r.params);
            && |replies| == |calls|
            && (forall i :: 0 <= i < |replies| && replies[i].Volume? ==> p.Ok?)
            && (p.Ok? ==>
                  var k := Key(p.value.pvcNs, VolumeIdFor(r.name));
                  && (c' == c || (k !in c.pvcs && k in c'.pvcs && c'.pvcs == c.pvcs[k := c'.pvcs[k]]))
                  && (forall i :: 0 <= i < |replies| && replies[i].Volume? ==>
                        k in c'.pvcs && Addressable(k) && r.name != "" && r.capabilities > 0
                        && replies[i].id == k.name && replies[i].context == ContextFor(k.name, p.value)))
            && (forall i, j :: 0 <= i < j < |replies| && replies[i].Volume? ==>
                  replies[j] == if calls[j].1.pvcGet then replies[i] else Refused(Canceled))
  {
    hide VolumeIdFor, ParseStorage, SpecFor, VolumeContext, ContextFor, NewPvc, MapUniqueUpToCase, Enumerates;
    if calls != [] {
      var n := |calls| - 1;
      assert calls[..n] + [calls[n]] == calls;
      CreateIsIdempotent(c, r, calls[..n], m);
      var (c1, replies) := CreateCalls(c, r, calls[..n]);
      var (params, e) := calls[n];
      assert ParseStorage(params) == ParseStorage(r.params) by {
        StorageParseOrderFree(params, r.params, m);
      }
      CreateCallEffect(c1, r.(params := params), e);
      if ParseStorage(r.params).Ok? {
        SpecAnswers(VolumeIdFor(r.name), ParseStorage(r.params).value, r.size, e);
        if r.name != "" && r.capabilities > 0 {
          CreateSucceedsIff(c1, r.(params := params), e);
        }
      }
    }
  }

  /** The volume context depends on the request alone, not on the storage classes met. */
  function ContextFor(id: string, p: StorageParams): map<string, string> {
    map[PARAM_DATA_VOLUME_CLAIM := id, PARAM_DATA_NAMESPACE := p.pvcNs,
        PARAM_NFS_SERVER_IMAGE := ImageOf(p),
        PARAM_NFS_HOSTS_ALLOW := p.hostsAllow]
  }

  lemma SpecAnswers(id: string, p: StorageParams, size: int, e: CreateEnv)
    ensures DataPvcKey(SpecFor(id, p, size, e)) == Key(p.pvcNs, id)
    ensures VolumeContext(SpecFor(id, p, size, e)) == ContextFor(id, p)
    ensures SpecFor(id, p, size, e).volumeID == id
  {}
}
