/** What CreateVolume writes into the volume context, read back by the other three calls. */
module Agreement {
  import opened Common
  import opened Params
  import opened Naming
  import opened Cluster
  import opened NodeSteps
  import opened ControllerSteps

  predicate WrittenParam(p: Param) {
    p == DataVolumeClaim || p == DataNamespace || p == NfsServerImage || p == NfsHostsAllow
  }

  lemma WrittenKeysClassify()
    ensures Classify(PARAM_DATA_VOLUME_CLAIM) == DataVolumeClaim
    ensures Classify(PARAM_DATA_NAMESPACE) == DataNamespace
    ensures Classify(PARAM_NFS_SERVER_IMAGE) == NfsServerImage
    ensures Classify(PARAM_NFS_HOSTS_ALLOW) == NfsHostsAllow
  {
    LowerFixes(PARAM_DATA_VOLUME_CLAIM);
    LowerFixes(PARAM_DATA_NAMESPACE);
    LowerFixes(PARAM_NFS_SERVER_IMAGE);
    LowerFixes(PARAM_NFS_HOSTS_ALLOW);
  }

  /** `m` holds the context `written`, and whatever others add to it (provisioner identity, pod
      information, mount options) spells none of the written parameters again. */
  ghost predicate Carries(m: map<string, string>, written: map<string, string>) {
    && (forall k :: k in written ==> k in m && m[k] == written[k])
    && (forall k :: k in m && k !in written ==> !WrittenParam(Classify(k)))
  }

  lemma {:induction false} LastValueOnly(es: seq<Entry>, e: Entry)
    requires e in es && forall f :: f in es && Classify(f.key) == Classify(e.key) ==> f == e
    ensures LastValue(es, Classify(e.key)) == e.value
  {
    hide Classify;
    var n := |es| - 1;
    if es[n] != e {
      assert es[n] in es;
      var i :| 0 <= i < |es| && es[i] == e;
      assert es[..n][i] == e;
      LastValueOnly(es[..n], e);
    }
  }

  lemma {:induction false} ReadOneBack(es: seq<Entry>, m: map<string, string>, written: map<string, string>, k: string)
    requires Enumerates(es, m) && Carries(m, written) && k in written && WrittenParam(Classify(k))
    requires forall l :: l in written && Classify(l) == Classify(k) ==> l == k
    ensures LastValue(es, Classify(k)) == written[k]
  {
    hide Classify;
    assert k in m;
    var e := Entry(k, m[k]);
    assert e in es;
    forall f | f in es && Classify(f.key) == Classify(k) ensures f == e {
      assert f.key in m && m[f.key] == f.value;
    }
    LastValueOnly(es, e);
  }

  lemma ContextLookup(id: string, p: StorageParams)
    ensures var w := ContextFor(id, p);
            && (forall k :: k in w <==>
                  || k == PARAM_DATA_VOLUME_CLAIM || k == PARAM_DATA_NAMESPACE
                  || k == PARAM_NFS_SERVER_IMAGE || k == PARAM_NFS_HOSTS_ALLOW)
            && w[PARAM_DATA_VOLUME_CLAIM] == id
            && w[PARAM_DATA_NAMESPACE] == p.pvcNs
            && w[PARAM_NFS_SERVER_IMAGE] == ImageOf(p)
            && w[PARAM_NFS_HOSTS_ALLOW] == p.hostsAllow
  {}

  /** Every parameter of the context is read back, in every visiting order. */
  lemma ReadBack(es: seq<Entry>, m: map<string, string>, id: string, p: StorageParams)
    requires Enumerates(es, m) && Carries(m, ContextFor(id, p))
    ensures LastValue(es, DataVolumeClaim) == id
    ensures LastValue(es, DataNamespace) == p.pvcNs
    ensures LastValue(es, NfsServerImage) == ImageOf(p)
    ensures LastValue(es, NfsHostsAllow) == p.hostsAllow
  {
    hide Classify, ContextFor;
    WrittenKeysClassify();
    ContextLookup(id, p);
    var w := ContextFor(id, p);
    ReadOneBack(es, m, w, PARAM_DATA_VOLUME_CLAIM);
    ReadOneBack(es, m, w, PARAM_DATA_NAMESPACE);
    ReadOneBack(es, m, w, PARAM_NFS_SERVER_IMAGE);
    ReadOneBack(es, m, w, PARAM_NFS_HOSTS_ALLOW);
  }

  /** A successful CreateVolume names its claim (and its exports) so that a publish of the volume
      finds that very claim. */
  lemma {:induction false} PublishReadsWhatCreateWrote(
    c: Cluster, r: CreateRequest, e: CreateEnv, m: map<string, string>, q: PublishRequest, default: nat)
    requires CreateCall(c, r, e).1.Volume?
    requires Carries(m, CreateCall(c, r, e).1.context) && Enumerates(q.context, m)
    requires q.capability.Some? && q.target != "" && q.volumeID == CreateCall(c, r, e).1.id
    requires !AnyBadPermissions(q.context)
    ensures ParsePublish(q, default).Ok?
    ensures var a := ParsePublish(q, default).value;
            && DataKey(a) == Export(a) == Key(ParseStorage(r.params).value.pvcNs, VolumeIdFor(r.name))
            && DataKey(a) in CreateCall(c, r, e).0.pvcs
            && a.hostsAllow == ParseStorage(r.params).value.hostsAllow
            && a.image == ImageOf(ParseStorage(r.params).value)
  {
    hide Classify, LastValue, VolumeIdFor, ParseStorage, Values, LastPermissions;
    CreateCallEffect(c, r, e);
    var p := ParseStorage(r.params).value;
    SpecAnswers(VolumeIdFor(r.name), p, r.size, e);
    ReadBack(q.context, m, VolumeIdFor(r.name), p);
  }

  /** The teardown of the volume works in the namespace CreateVolume used. */
  lemma UnpublishReadsWhatCreateWrote(
    c: Cluster, r: CreateRequest, e: CreateEnv, m: map<string, string>, es: seq<Entry>)
    requires CreateCall(c, r, e).1.Volume?
    requires Carries(m, CreateCall(c, r, e).1.context) && Enumerates(es, m)
    ensures LastValue(es, DataNamespace) == ParseStorage(r.params).value.pvcNs
  {
    hide Classify, LastValue, VolumeIdFor, ParseStorage;
    CreateCallEffect(c, r, e);
    var p := ParseStorage(r.params).value;
    SpecAnswers(VolumeIdFor(r.name), p, r.size, e);
    ReadBack(es, m, VolumeIdFor(r.name), p);
  }

  // ---------------------------------------------------------------- DeleteVolume

  /** The claim a DeleteVolume that looks up `keys` asks to delete. */
  function DeleteTarget(m: map<string, string>, keys: DeleteKeys): Key {
    Key(At(m, keys.ns), At(m, keys.claim))
  }

  lemma DeleteCallEffect(c: Cluster, v: string, e: DeleteEnv, keys: DeleteKeys)
    ensures var k := if PvById(c.pvs, v).Some? then DeleteTarget(PvById(c.pvs, v).value.csi.value.attributes, keys)
                     else Key("", "");
            DeleteCall(c, v, e, keys)
            == (if v != "" && e.pvList && PvById(c.pvs, v).Some? && CanDelete(c.pvcs, k, e.pvcDelete)
                then c.(pvcs := c.pvcs - {k}) else c,
                if v == "" then Error(InvalidArgument) else Okay)
  {
    if v != "" {
      var (c1, t1) := DeleteStep(c, FindVolume(v), e, keys);
      assert FinishDelete(c, FindVolume(v), e, keys) == FinishDelete(c1, t1, e, keys);
      var (c2, t2) := DeleteStep(c1, t1, e, keys);
      assert FinishDelete(c1, t1, e, keys) == FinishDelete(c2, t2, e, keys) == (c2, t2.reply);
    }
  }

  lemma KeysDiffer()
    ensures KEYS_AS_READ.claim != PARAM_DATA_VOLUME_CLAIM && KEYS_AS_READ.ns != PARAM_DATA_NAMESPACE
    ensures KEYS_AS_READ.claim != PARAM_NFS_SERVER_IMAGE && KEYS_AS_READ.ns != PARAM_NFS_SERVER_IMAGE
    ensures KEYS_AS_READ.claim != PARAM_NFS_HOSTS_ALLOW && KEYS_AS_READ.ns != PARAM_NFS_HOSTS_ALLOW
    ensures KEYS_AS_READ.claim != PARAM_DATA_NAMESPACE && KEYS_AS_READ.ns != PARAM_DATA_VOLUME_CLAIM
  {}

  /** DeleteVolume as written removes the claim CreateVolume made exactly when somebody else put
      that claim's name and namespace under the two keys it reads. */
  lemma DeleteRemovesClaimIff(
    c: Cluster, v: string, e: DeleteEnv, m: map<string, string>, p: StorageParams)
    requires v != "" && e.pvList && e.pvcDelete
    requires PvById(c.pvs, v).Some? && PvById(c.pvs, v).value.csi.value.attributes == m
    requires Carries(m, ContextFor(v, p)) && Addressable(Key(p.pvcNs, v)) && Key(p.pvcNs, v) in c.pvcs
    ensures Key(p.pvcNs, v) !in DeleteCall(c, v, e, KEYS_AS_READ).0.pvcs
       <==> At(m, "nfsVolumeClaim") == v && At(m, "nfsNamespace") == p.pvcNs
  {
    hide Carries, ContextFor;
    DeleteCallEffect(c, v, e, KEYS_AS_READ);
  }

  /** So a DeleteVolume of a created volume answers OK and changes nothing, unless others have added
      both keys it reads to what CreateVolume answered. */
  lemma DeleteAfterCreateChangesNothing(
    c: Cluster, r: CreateRequest, e: CreateEnv, later: Cluster, d: DeleteEnv, m: map<string, string>)
    requires CreateCall(c, r, e).1.Volume?
    requires var reply := CreateCall(c, r, e).1;
             && PvById(later.pvs, reply.id).Some?
             && PvById(later.pvs, reply.id).value.csi.value.attributes == m
             && var added := m - reply.context.Keys;
             At(added, "nfsVolumeClaim") == "" || At(added, "nfsNamespace") == ""
    ensures DeleteCall(later, CreateCall(c, r, e).1.id, d, KEYS_AS_READ) == (later, Okay)
  {
    hide Classify, VolumeIdFor, ParseStorage, ContextFor;
    CreateCallEffect(c, r, e);
    var p := ParseStorage(r.params).value;
    SpecAnswers(VolumeIdFor(r.name), p, r.size, e);
    ContextLookup(VolumeIdFor(r.name), p);
    VolumeIdCharacters(r.name, FindPvc(r.name, 0));
    KeysDiffer();
    DeleteCallEffect(later, VolumeIdFor(r.name), d, KEYS_AS_READ);
  }

  /** The intended DeleteVolume reads the keys that were written: it removes that claim, and no
      other one. */
  lemma DeleteWithWrittenKeys(
    c: Cluster, v: string, e: DeleteEnv, m: map<string, string>, p: StorageParams)
    requires v != "" && e.pvList && e.pvcDelete
    requires PvById(c.pvs, v).Some? && PvById(c.pvs, v).value.csi.value.attributes == m
    requires Carries(m, ContextFor(v, p)) && Addressable(Key(p.pvcNs, v)) && Key(p.pvcNs, v) in c.pvcs
    ensures DeleteCall(c, v, e, KEYS_AS_WRITTEN) == (c.(pvcs := c.pvcs - {Key(p.pvcNs, v)}), Okay)
  {
    hide Classify, ContextFor;
    ContextLookup(v, p);
    DeleteCallEffect(c, v, e, KEYS_AS_WRITTEN);
  }
}
