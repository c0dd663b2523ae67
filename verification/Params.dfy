/** The case-insensitive parameter loops of CreateVolume, NodePublishVolume and
    NodeUnpublishVolume.

    A loop sees the entries of a Go map in an arbitrary order, so its input is the
    visiting order itself.  What a loop computes is stated without reference to the
    loop: each parameter is the value of the last entry carrying its key. */
module Params {
  import opened Common

  const PARAM_DATA_VOLUME_CLAIM := "datavolumeclaim"
  const PARAM_DATA_STORAGE_CLASS := "datastorageclass"
  const PARAM_DATA_NAMESPACE := "datanamespace"
  const PARAM_NFS_SERVER_IMAGE := "nfsserverimage"
  const PARAM_NFS_HOSTS_ALLOW := "nfshostsallow"
  const MOUNT_OPTIONS_FIELD := "mountoptions"
  const MOUNT_PERMISSIONS_FIELD := "mountpermissions"
  const PVC_NAME_KEY := "csi.storage.k8s.io/pvc/name"
  const PVC_NAMESPACE_KEY := "csi.storage.k8s.io/pvc/namespace"
  const PV_NAME_KEY := "csi.storage.k8s.io/pv/name"
  const POD_NAME_KEY := "csi.storage.k8s.io/pod.name"
  const POD_NAMESPACE_KEY := "csi.storage.k8s.io/pod.namespace"

  const DEFAULT_IMAGE := "daocloud.io/piraeus/nfs-ganesha:latest"

  /** The parameters the driver's switches recognise. */
  datatype Param =
    | DataVolumeClaim | DataStorageClass | DataNamespace | NfsServerImage | NfsHostsAllow
    | MountOptions | MountPermissions | PvcName | PvcNamespace | PvName | PodName | PodNamespace
    | Unknown

  /** `switch strings.ToLower(k)`. */
  function Classify(k: string): Param {
    var key := Lower(k);
    if key == POD_NAME_KEY then PodName
    else if key == POD_NAMESPACE_KEY then PodNamespace
    else if key == PARAM_DATA_VOLUME_CLAIM then DataVolumeClaim
    else if key == PARAM_DATA_STORAGE_CLASS then DataStorageClass
    else if key == PARAM_DATA_NAMESPACE then DataNamespace
    else if key == PARAM_NFS_SERVER_IMAGE then NfsServerImage
    else if key == PARAM_NFS_HOSTS_ALLOW then NfsHostsAllow
    else if key == MOUNT_OPTIONS_FIELD then MountOptions
    else if key == MOUNT_PERMISSIONS_FIELD then MountPermissions
    else if key == PVC_NAME_KEY then PvcName
    else if key == PVC_NAMESPACE_KEY then PvcNamespace
    else if key == PV_NAME_KEY then PvName
    else Unknown
  }

  /** Every recognised parameter has one spelling up to case. */
  lemma ClassifyIsInjective(k: string, l: string)
    requires Classify(k) == Classify(l) != Unknown
    ensures Lower(k) == Lower(l)
  {}

  // ---------------------------------------------------------------- reading one key

  /** The value of the last visited entry whose key spells `p`, up to case. */
  function LastValue(es: seq<Entry>, p: Param): string {
    if es == [] then ""
    else
      var last := es[|es| - 1];
      if Classify(last.key) == p then last.value else LastValue(es[..|es| - 1], p)
  }

  /** All non-empty values carried under `p`, in visiting order. */
  function Values(es: seq<Entry>, p: Param): seq<string> {
    if es == [] then []
    else
      var last := es[|es| - 1];
      Values(es[..|es| - 1], p)
      + if Classify(last.key) == p && last.value != "" then [last.value] else []
  }

  predicate OctalDigits(s: string) {
    forall i :: 0 <= i < |s| ==> '0' <= s[i] <= '7'
  }

  function OctalValue(s: string): nat
    requires OctalDigits(s)
  {
    if s == "" then 0
    else 8 * OctalValue(s[..|s| - 1]) + (s[|s| - 1] as int - '0' as int)
  }

  /** strconv.ParseUint(s, 8, 32). */
  function ParseOctal(s: string): Option<nat> {
    if s != "" && OctalDigits(s) && OctalValue(s) < 0x1_0000_0000
    then Some(OctalValue(s))
    else None
  }

  predicate BadPermissions(e: Entry) {
    Classify(e.key) == MountPermissions && e.value != "" && ParseOctal(e.value).None?
  }

  /** The permissions in force after visiting `es`, starting from the driver's default. */
  function LastPermissions(es: seq<Entry>, default: nat): nat {
    if es == [] then default
    else
      var last := es[|es| - 1];
      if Classify(last.key) == MountPermissions && last.value != "" && ParseOctal(last.value).Some?
      then ParseOctal(last.value).value
      else LastPermissions(es[..|es| - 1], default)
  }

  lemma OneMore(es: seq<Entry>, i: nat, default: nat)
    requires i < |es|
    ensures forall p :: LastValue(es[..i + 1], p)
                     == if Classify(es[i].key) == p then es[i].value else LastValue(es[..i], p)
    ensures forall p :: Values(es[..i + 1], p)
                     == Values(es[..i], p)
                        + if Classify(es[i].key) == p && es[i].value != "" then [es[i].value] else []
    ensures LastPermissions(es[..i + 1], default)
         == if Classify(es[i].key) == MountPermissions && es[i].value != "" && ParseOctal(es[i].value).Some?
            then ParseOctal(es[i].value).value else LastPermissions(es[..i], default)
  {
    hide Classify;
    var upTo := es[..i + 1];
    assert upTo[..i] == es[..i] && upTo[i] == es[i] && upTo[|upTo| - 1] == es[i];
    forall p ensures LastValue(upTo, p) == if Classify(es[i].key) == p then es[i].value else LastValue(es[..i], p) {}
  }

  // ---------------------------------------------------------------- NodePublishVolume

  /** A NodePublishVolume request.  `capability` holds the mount flags, `context` the
      volume context in the order this call visits it. */
  datatype PublishRequest = PublishRequest(
    capability: Option<seq<string>>, volumeID: string, target: string, readonly: bool, context: seq<Entry>)

  /** The parsed request: the handler's locals once its checks have passed. */
  datatype Args = Args(
    volumeID: string, target: string, options: seq<string>, permissions: nat,
    dataPvc: string, dataNs: string, image: string, hostsAllow: string, podName: string, podNs: string)

  /** What the loop over the volume context leaves in the handler's locals. */
  datatype ContextParams = ContextParams(
    podName: string, podNs: string, dataPvc: string, dataNs: string, image: string, hostsAllow: string,
    options: seq<string>, permissions: nat)

  function ContextOf(es: seq<Entry>, flags: seq<string>, default: nat): ContextParams {
    ContextParams(
      LastValue(es, PodName), LastValue(es, PodNamespace),
      LastValue(es, DataVolumeClaim), LastValue(es, DataNamespace),
      LastValue(es, NfsServerImage), LastValue(es, NfsHostsAllow),
      flags + Values(es, MountOptions), LastPermissions(es, default))
  }

  predicate AnyBadPermissions(es: seq<Entry>) {
    exists i :: 0 <= i < |es| && BadPermissions(es[i])
  }

  function ParseContext(es: seq<Entry>, flags: seq<string>, default: nat): Result<ContextParams> {
    if AnyBadPermissions(es) then Err(InvalidArgument) else Ok(ContextOf(es, flags, default))
  }

  function ParsePublish(r: PublishRequest, default: nat): Result<Args> {
    if r.capability.None? || r.volumeID == "" || r.target == "" then Err(InvalidArgument)
    else
      var flags := r.capability.value + if r.readonly then ["ro"] else [];
      match ParseContext(r.context, flags, default)
      case Err(code) => Err(code)
      case Ok(p) =>
        if p.dataPvc == "" || p.dataNs == "" then Err(InvalidArgument)
        else Ok(Args(
          r.volumeID, r.target, p.options, p.permissions, p.dataPvc, p.dataNs,
          if p.image == "" then DEFAULT_IMAGE else p.image,
          p.hostsAllow, p.podName, p.podNs))
  }

  lemma ContextOfNone(flags: seq<string>, default: nat)
    ensures ContextOf([], flags, default) == ContextParams("", "", "", "", "", "", flags, default)
  {}

  /** One turn of the loop changes exactly the local its case names. */
  lemma ContextOneMore(es: seq<Entry>, i: nat, flags: seq<string>, default: nat)
    requires i < |es|
    ensures
      var p, v := ContextOf(es[..i], flags, default), es[i].value;
      ContextOf(es[..i + 1], flags, default)
      == match Classify(es[i].key)
         case PodName => p.(podName := v)
         case PodNamespace => p.(podNs := v)
         case DataVolumeClaim => p.(dataPvc := v)
         case DataNamespace => p.(dataNs := v)
         case NfsServerImage => p.(image := v)
         case NfsHostsAllow => p.(hostsAllow := v)
         case MountOptions => if v == "" then p else p.(options := p.options + [v])
         case MountPermissions =>
           if v != "" && ParseOctal(v).Some? then p.(permissions := ParseOctal(v).value) else p
         case _ => p
  {
    hide Classify, LastValue, Values, LastPermissions, ParseOctal;
    OneMore(es, i, default);
    assert flags + (Values(es[..i], MountOptions) + [es[i].value])
        == flags + Values(es[..i], MountOptions) + [es[i].value];
    assert Values(es[..i], MountOptions) + [] == Values(es[..i], MountOptions);
  }

  /** The loop of NodePublishVolume over the volume context. */
  method ReadContext(es: seq<Entry>, flags: seq<string>, default: nat) returns (result: Result<ContextParams>)
    ensures result == ParseContext(es, flags, default)
  {
    hide Classify, LastValue, Values, LastPermissions, ContextOf, ParseOctal;
    var mountOptions, mountPermissions := flags, default;
    var dataPvc, dataNs, image, hostsAllow, podName, podNs := "", "", "", "", "", "";
    ContextOfNone(flags, default);
    assert es[..0] == [];
    for i := 0 to |es|
      invariant ContextOf(es[..i], flags, default)
             == ContextParams(podName, podNs, dataPvc, dataNs, image, hostsAllow, mountOptions, mountPermissions)
      invariant forall j :: 0 <= j < i ==> !BadPermissions(es[j])
    {
      ContextOneMore(es, i, flags, default);
      var v := es[i].value;
      match Classify(es[i].key) {
        case PodName => podName := v;
        case PodNamespace => podNs := v;
        case DataVolumeClaim => dataPvc := v;
        case DataNamespace => dataNs := v;
        case NfsServerImage => image := v;
        case NfsHostsAllow => hostsAllow := v;
        case MountOptions =>
          if v != "" {
            mountOptions := mountOptions + [v];
          }
        case MountPermissions =>
          if v != "" {
            var parsed := ParseOctal(v);
            if parsed.None? {
              assert BadPermissions(es[i]);
              return Err(InvalidArgument);
            }
            mountPermissions := parsed.value;
          }
        case _ =>
      }
    }
    assert es[..|es|] == es;
    result := Ok(ContextParams(podName, podNs, dataPvc, dataNs, image, hostsAllow, mountOptions, mountPermissions));
  }

  method ParsePublishRequest(r: PublishRequest, default: nat) returns (result: Result<Args>)
    ensures result == ParsePublish(r, default)
  {
    hide ParseContext;
    if r.capability.None? {
      return Err(InvalidArgument);
    }
    if |r.volumeID| == 0 {
      return Err(InvalidArgument);
    }
    if |r.target| == 0 {
      return Err(InvalidArgument);
    }
    var mountOptions := r.capability.value;
    if r.readonly {
      mountOptions := mountOptions + ["ro"];
    }
    assert r.capability.value + [] == r.capability.value;
    var parsed := ReadContext(r.context, mountOptions, default);
    if parsed.Err? {
      return Err(parsed.code);
    }
    var p := parsed.value;
    if p.dataPvc == "" {
      return Err(InvalidArgument);
    }
    if p.dataNs == "" {
      return Err(InvalidArgument);
    }
    var image := p.image;
    if image == "" {
      image := DEFAULT_IMAGE;
    }
    result := Ok(Args(r.volumeID, r.target, p.options, p.permissions,
                      p.dataPvc, p.dataNs, image, p.hostsAllow, p.podName, p.podNs));
  }

  // ---------------------------------------------------------------- NodeUnpublishVolume

  /** The data namespace the teardown works in; the loop reads the claim only to log it. */
  method ParseAttributes(es: seq<Entry>) returns (dataPvc: string, dataNs: string)
    ensures dataPvc == LastValue(es, DataVolumeClaim)
    ensures dataNs == LastValue(es, DataNamespace)
  {
    dataPvc, dataNs := "", "";
    for i := 0 to |es|
      invariant dataPvc == LastValue(es[..i], DataVolumeClaim)
      invariant dataNs == LastValue(es[..i], DataNamespace)
    {
      OneMore(es, i, 0);
      if Classify(es[i].key) == DataVolumeClaim {
        dataPvc := es[i].value;
      } else if Classify(es[i].key) == DataNamespace {
        dataNs := es[i].value;
      }
    }
    assert es[..|es|] == es;
  }

  // ---------------------------------------------------------------- CreateVolume

  datatype StorageParams = StorageParams(
    storageClass: string, image: string, hostsAllow: string, pvcName: string, pvcNs: string)

  predicate KnownStorageKey(p: Param) {
    || p == DataStorageClass || p == NfsServerImage || p == NfsHostsAllow
    || p == PvcName || p == PvcNamespace || p == PvName || p == MountPermissions
  }

  function StorageOf(es: seq<Entry>): StorageParams {
    StorageParams(
      LastValue(es, DataStorageClass), LastValue(es, NfsServerImage),
      LastValue(es, NfsHostsAllow), LastValue(es, PvcName), LastValue(es, PvcNamespace))
  }

  predicate AnyUnknownKey(es: seq<Entry>) {
    exists i :: 0 <= i < |es| && !KnownStorageKey(Classify(es[i].key))
  }

  function ParseStorage(es: seq<Entry>): Result<StorageParams> {
    if AnyUnknownKey(es) then Err(InvalidArgument) else Ok(StorageOf(es))
  }

  method ParseStorageParams(es: seq<Entry>) returns (result: Result<StorageParams>)
    ensures result == ParseStorage(es)
  {
    hide Classify;
    var dataSC, image, hostsAllow, pvcName, pvcNs := "", "", "", "", "";
    for i := 0 to |es|
      invariant StorageOf(es[..i]) == StorageParams(dataSC, image, hostsAllow, pvcName, pvcNs)
      invariant forall j :: 0 <= j < i ==> KnownStorageKey(Classify(es[j].key))
    {
      OneMore(es, i, 0);
      var v := es[i].value;
      match Classify(es[i].key) {
        case DataStorageClass => dataSC := v;
        case NfsServerImage => image := v;
        case NfsHostsAllow => hostsAllow := v;
        case PvcName => pvcName := v;
        case PvcNamespace => pvcNs := v;
        case PvName =>
        case MountPermissions =>
        case _ => return Err(InvalidArgument);
      }
    }
    assert es[..|es|] == es;
    result := Ok(StorageParams(dataSC, image, hostsAllow, pvcName, pvcNs));
  }

  // ---------------------------------------------------------------- visiting order

  lemma {:induction false} LastValueFound(es: seq<Entry>, e: Entry)
    requires UniqueUpToCase(es) && e in es && Classify(e.key) != Unknown
    ensures LastValue(es, Classify(e.key)) == e.value
  {
    hide Classify;
    var n := |es| - 1;
    if es[n] != e {
      var i :| 0 <= i < |es| && es[i] == e;
      assert es[..n][i] == e;
      if Classify(es[n].key) == Classify(e.key) {
        ClassifyIsInjective(es[i].key, es[n].key);
        assert false;
      }
      LastValueFound(es[..n], e);
    }
  }

  lemma {:induction false} LastValueMissing(es: seq<Entry>, p: Param)
    requires forall e :: e in es ==> Classify(e.key) != p
    ensures LastValue(es, p) == ""
  {
    if es != [] {
      assert es[|es| - 1] in es;
      LastValueMissing(es[..|es| - 1], p);
    }
  }

  /** The last entry of a unique enumeration is the only one carrying its parameter. */
  lemma {:induction false} LastWasMissing(es: seq<Entry>, p: Param)
    requires UniqueUpToCase(es) && es != [] && Classify(es[|es| - 1].key) == p != Unknown
    ensures LastValue(es[..|es| - 1], p) == ""
    ensures forall i :: 0 <= i < |es| - 1 ==> Classify(es[i].key) != p
  {
    hide Classify;
    var n := |es| - 1;
    forall i | 0 <= i < n ensures Classify(es[i].key) != p {
      if Classify(es[i].key) == p {
        ClassifyIsInjective(es[i].key, es[n].key);
        assert false;
      }
    }
    LastValueMissing(es[..n], p);
  }

  /** A map whose keys are unique up to case has one value per parameter, whatever the order. */
  lemma {:induction false} LastValueOrderFree(es: seq<Entry>, fs: seq<Entry>, m: map<string, string>, p: Param)
    requires Enumerates(es, m) && Enumerates(fs, m) && MapUniqueUpToCase(m) && p != Unknown
    ensures LastValue(es, p) == LastValue(fs, p)
  {
    EnumerationIsUnique(es, m);
    EnumerationIsUnique(fs, m);
    if e :| e in es && Classify(e.key) == p {
      assert e in fs;
      LastValueFound(es, e);
      LastValueFound(fs, e);
    } else {
      LastValueMissing(es, p);
      forall e | e in fs ensures Classify(e.key) != p {
        assert e in es;
      }
      LastValueMissing(fs, p);
    }
  }

  lemma {:induction false} UniqueValues(es: seq<Entry>, p: Param)
    requires UniqueUpToCase(es) && p != Unknown
    ensures Values(es, p) == if LastValue(es, p) == "" then [] else [LastValue(es, p)]
  {
    hide Classify;
    if es != [] {
      var n := |es| - 1;
      UniqueValues(es[..n], p);
      if Classify(es[n].key) == p {
        LastWasMissing(es, p);
      }
    }
  }

  lemma {:induction false} UniquePermissions(es: seq<Entry>, default: nat)
    requires UniqueUpToCase(es)
    ensures var v := LastValue(es, MountPermissions);
            && (v != "" && ParseOctal(v).None? <==> AnyBadPermissions(es))
            && LastPermissions(es, default)
               == if v != "" && ParseOctal(v).Some? then ParseOctal(v).value else default
  {
    hide Classify;
    if es != [] {
      var n := |es| - 1;
      UniquePermissions(es[..n], default);
      var v := LastValue(es, MountPermissions);
      if Classify(es[n].key) == MountPermissions {
        LastWasMissing(es, MountPermissions);
        assert v == es[n].value;
        assert BadPermissions(es[n]) <==> v != "" && ParseOctal(v).None?;
      } else {
        assert !BadPermissions(es[n]);
        if i :| 0 <= i < |es| && BadPermissions(es[i]) {
          assert BadPermissions(es[..n][i]);
        }
        if i :| 0 <= i < n && BadPermissions(es[..n][i]) {
          assert BadPermissions(es[i]);
        }
      }
    }
  }

  /** The loop over the volume context gives one record, or one error, for every visiting order. */
  lemma {:induction false} ContextOrderFree(
    es: seq<Entry>, fs: seq<Entry>, m: map<string, string>, flags: seq<string>, default: nat)
    requires Enumerates(es, m) && Enumerates(fs, m) && MapUniqueUpToCase(m)
    ensures ParseContext(es, flags, default) == ParseContext(fs, flags, default)
  {
    hide Classify, ParseOctal, LastValue, Values, LastPermissions, BadPermissions;
    EnumerationIsUnique(es, m);
    EnumerationIsUnique(fs, m);
    forall p | p != Unknown ensures LastValue(es, p) == LastValue(fs, p) {
      LastValueOrderFree(es, fs, m, p);
    }
    UniqueValues(es, MountOptions);
    UniqueValues(fs, MountOptions);
    UniquePermissions(es, default);
    UniquePermissions(fs, default);
  }

  /** So a publish request is parsed alike however its volume context is visited. */
  lemma {:induction false} PublishParseOrderFree(
    r: PublishRequest, fs: seq<Entry>, m: map<string, string>, default: nat)
    requires Enumerates(r.context, m) && Enumerates(fs, m) && MapUniqueUpToCase(m)
    ensures ParsePublish(r.(context := fs), default) == ParsePublish(r, default)
  {
    hide ParseContext;
    if r.capability.Some? {
      ContextOrderFree(r.context, fs, m, r.capability.value + if r.readonly then ["ro"] else [], default);
    }
  }

  /** CreateVolume's loop gives one record, or one error code, for every visiting order. */
  lemma {:induction false} StorageParseOrderFree(es: seq<Entry>, fs: seq<Entry>, m: map<string, string>)
    requires Enumerates(es, m) && Enumerates(fs, m) && MapUniqueUpToCase(m)
    ensures ParseStorage(es) == ParseStorage(fs)
  {
    hide Classify, LastValue;
    forall p | p != Unknown ensures LastValue(es, p) == LastValue(fs, p) {
      LastValueOrderFree(es, fs, m, p);
    }
    if i :| 0 <= i < |es| && !KnownStorageKey(Classify(es[i].key)) {
      assert es[i] in fs;
    }
    if i :| 0 <= i < |fs| && !KnownStorageKey(Classify(fs[i].key)) {
      assert fs[i] in es;
    }
  }

  /** Without that uniqueness the visiting order does decide: two spellings of one key. */
  lemma OrderMattersWithTwoSpellings()
    ensures var a, b := Entry("dataNamespace", "x"), Entry("datanamespace", "y");
            LastValue([a, b], DataNamespace) != LastValue([b, a], DataNamespace)
  {
    var a, b := Entry("dataNamespace", "x"), Entry("datanamespace", "y");
    assert Classify(a.key) == DataNamespace;
    LowerFixes(b.key);
    assert [a, b][..1] == [a] && [b, a][..1] == [b];
  }
}
