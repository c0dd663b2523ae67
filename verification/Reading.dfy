/** What a request says, key by key: the parsers against the keys as they are written in requests
    and storage classes, in any casing. */
module Reading {
  import opened Common
  import opened Params

  /** Two strings are equal up to case exactly when they differ only in the case of ASCII letters. */
  lemma EqualUpToCaseIff(s: string, t: string)
    ensures Lower(s) == Lower(t)
       <==> && |s| == |t|
            && forall i :: 0 <= i < |s| ==>
                 || s[i] == t[i]
                 || ('a' <= s[i] <= 'z' && s[i] as int == t[i] as int + 32)
                 || ('A' <= s[i] <= 'Z' && t[i] as int == s[i] as int + 32)
  {
    if Lower(s) == Lower(t) {
      forall i | 0 <= i < |s|
        ensures s[i] == t[i] || ('a' <= s[i] <= 'z' && s[i] as int == t[i] as int + 32)
                || ('A' <= s[i] <= 'Z' && t[i] as int == s[i] as int + 32)
      {
        assert Lower(s)[i] == Lower(t)[i];
      }
    }
  }

  /** `i` is the last entry whose key is `key` in any casing. */
  predicate LastAt(es: seq<Entry>, key: string, i: nat) {
    i < |es| && Lower(es[i].key) == key && forall j :: i < j < |es| ==> Lower(es[j].key) != key
  }

  /** `value` is the value of that entry, or "" if there is none. */
  ghost predicate Says(es: seq<Entry>, key: string, value: string) {
    || (exists i: nat :: LastAt(es, key, i) && es[i].value == value)
    || (value == "" && forall i :: 0 <= i < |es| ==> Lower(es[i].key) != key)
  }

  lemma SaysOneThing(es: seq<Entry>, key: string, v: string, w: string)
    requires Says(es, key, v) && Says(es, key, w)
    ensures v == w
  {}

  /** Which key carries which parameter. */
  lemma ClassifyIff(k: string)
    ensures Classify(k) == PodName <==> Lower(k) == "csi.storage.k8s.io/pod.name"
    ensures Classify(k) == PodNamespace <==> Lower(k) == "csi.storage.k8s.io/pod.namespace"
    ensures Classify(k) == DataVolumeClaim <==> Lower(k) == "datavolumeclaim"
    ensures Classify(k) == DataStorageClass <==> Lower(k) == "datastorageclass"
    ensures Classify(k) == DataNamespace <==> Lower(k) == "datanamespace"
    ensures Classify(k) == NfsServerImage <==> Lower(k) == "nfsserverimage"
    ensures Classify(k) == NfsHostsAllow <==> Lower(k) == "nfshostsallow"
    ensures Classify(k) == MountOptions <==> Lower(k) == "mountoptions"
    ensures Classify(k) == MountPermissions <==> Lower(k) == "mountpermissions"
    ensures Classify(k) == PvcName <==> Lower(k) == "csi.storage.k8s.io/pvc/name"
    ensures Classify(k) == PvcNamespace <==> Lower(k) == "csi.storage.k8s.io/pvc/namespace"
    ensures Classify(k) == PvName <==> Lower(k) == "csi.storage.k8s.io/pv/name"
  {}

  /** `key` is the one spelling of parameter `p`. */
  ghost predicate Spells(key: string, p: Param) {
    forall k :: Classify(k) == p <==> Lower(k) == key
  }

  lemma {:induction false} SaysLastValue(es: seq<Entry>, key: string, p: Param)
    requires Spells(key, p)
    ensures Says(es, key, LastValue(es, p))
  {
    hide Classify, Says, LastAt;
    if es == [] {
      assert Says(es, key, "") by { NobodySays(es, key); }
    } else {
      var n := |es| - 1;
      assert Classify(es[n].key) == p <==> Lower(es[n].key) == key;
      if Lower(es[n].key) == key {
        LastSays(es, key);
      } else {
        SaysLastValue(es[..n], key, p);
        StillSays(es, key, LastValue(es[..n], p));
      }
    }
  }

  lemma NobodySays(es: seq<Entry>, key: string)
    requires es == []
    ensures Says(es, key, "")
  {}

  lemma LastSays(es: seq<Entry>, key: string)
    requires es != [] && Lower(es[|es| - 1].key) == key
    ensures Says(es, key, es[|es| - 1].value)
  {
    assert LastAt(es, key, |es| - 1);
  }

  lemma StillSays(es: seq<Entry>, key: string, value: string)
    requires es != [] && Lower(es[|es| - 1].key) != key && Says(es[..|es| - 1], key, value)
    ensures Says(es, key, value)
  {
    hide Lower;
    var fs := es[..|es| - 1];
    assert forall i :: 0 <= i < |fs| ==> fs[i] == es[i];
    if i: nat :| LastAt(fs, key, i) && fs[i].value == value {
      assert LastAt(es, key, i);
    }
  }

  lemma AllSpellings()
    ensures Spells("csi.storage.k8s.io/pod.name", PodName)
    ensures Spells("csi.storage.k8s.io/pod.namespace", PodNamespace)
    ensures Spells("datavolumeclaim", DataVolumeClaim)
    ensures Spells("datastorageclass", DataStorageClass)
    ensures Spells("datanamespace", DataNamespace)
    ensures Spells("nfsserverimage", NfsServerImage)
    ensures Spells("nfshostsallow", NfsHostsAllow)
    ensures Spells("mountoptions", MountOptions)
    ensures Spells("mountpermissions", MountPermissions)
    ensures Spells("csi.storage.k8s.io/pvc/name", PvcName)
    ensures Spells("csi.storage.k8s.io/pvc/namespace", PvcNamespace)
    ensures Spells("csi.storage.k8s.io/pv/name", PvName)
  {
    hide Classify;
    forall k ensures
      && (Classify(k) == PodName <==> Lower(k) == "csi.storage.k8s.io/pod.name")
      && (Classify(k) == PodNamespace <==> Lower(k) == "csi.storage.k8s.io/pod.namespace")
      && (Classify(k) == DataVolumeClaim <==> Lower(k) == "datavolumeclaim")
      && (Classify(k) == DataStorageClass <==> Lower(k) == "datastorageclass")
      && (Classify(k) == DataNamespace <==> Lower(k) == "datanamespace")
      && (Classify(k) == NfsServerImage <==> Lower(k) == "nfsserverimage")
      && (Classify(k) == NfsHostsAllow <==> Lower(k) == "nfshostsallow")
      && (Classify(k) == MountOptions <==> Lower(k) == "mountoptions")
      && (Classify(k) == MountPermissions <==> Lower(k) == "mountpermissions")
      && (Classify(k) == PvcName <==> Lower(k) == "csi.storage.k8s.io/pvc/name")
      && (Classify(k) == PvcNamespace <==> Lower(k) == "csi.storage.k8s.io/pvc/namespace")
      && (Classify(k) == PvName <==> Lower(k) == "csi.storage.k8s.io/pv/name")
    {
      ClassifyIff(k);
    }
  }

  // ---------------------------------------------------------------- mount options

  /** The non-empty values under `key` in any casing, in visiting order. */
  function Carried(es: seq<Entry>, key: string): seq<string> {
    if es == [] then []
    else (if Lower(es[0].key) == key && es[0].value != "" then [es[0].value] else []) + Carried(es[1..], key)
  }

  lemma {:induction false} CarriedSnoc(es: seq<Entry>, e: Entry, key: string)
    ensures Carried(es + [e], key)
         == Carried(es, key) + if Lower(e.key) == key && e.value != "" then [e.value] else []
    decreases |es|
  {
    if es == [] {
      assert Carried([e][1..], key) == [];
    } else {
      assert (es + [e])[1..] == es[1..] + [e];
      CarriedSnoc(es[1..], e, key);
    }
  }

  lemma {:induction false} ValuesAreCarried(es: seq<Entry>, key: string, p: Param)
    requires Spells(key, p)
    ensures Values(es, p) == Carried(es, key)
  {
    hide Classify;
    if es != [] {
      var n := |es| - 1;
      ValuesAreCarried(es[..n], key, p);
      CarriedSnoc(es[..n], es[n], key);
      assert es[..n] + [es[n]] == es;
      assert Classify(es[n].key) == p <==> Lower(es[n].key) == key;
    }
  }

  // ---------------------------------------------------------------- permissions

  function Digit(d: nat): char
    requires d < 8
  {
    "01234567"[d]
  }

  /** The octal numeral of `n`, without leading zeros. */
  function Octal(n: nat): string {
    (if n < 8 then "" else Octal(n / 8)) + [Digit(n % 8)]
  }

  function Zeros(z: nat): string {
    seq(z, _ => '0')
  }

  /** `s` writes `n`, a number of 32 bits, in octal. */
  ghost predicate IsOctal(s: string, n: nat) {
    n < 0x1_0000_0000 && exists z: nat :: s == Zeros(z) + Octal(n)
  }

  lemma OctalOneMore(s: string, d: nat)
    requires OctalDigits(s) && d < 8
    ensures OctalDigits(s + [Digit(d)]) && OctalValue(s + [Digit(d)]) == 8 * OctalValue(s) + d
  {
    DigitIs(d);
    hide Digit;
    assert (s + [Digit(d)])[..|s|] == s;
  }

  lemma DigitIs(d: nat)
    requires d < 8
    ensures '0' <= Digit(d) <= '7' && Digit(d) as int - '0' as int == d
  {}

  lemma ZerosOneMore(z: nat)
    ensures Zeros(z + 1) == Zeros(z) + Octal(0)
  {}

  lemma {:induction false} OctalIsRead(z: nat, n: nat)
    ensures var s := Zeros(z) + Octal(n);
            s != "" && OctalDigits(s) && OctalValue(s) == n
    decreases n, z
  {
    hide OctalDigits, OctalValue, Zeros, Digit;
    var shorter := if n >= 8 then Zeros(z) + Octal(n / 8) else Zeros(z);
    assert Zeros(z) + Octal(n) == shorter + [Digit(n % 8)];
    if n >= 8 {
      OctalIsRead(z, n / 8);
    } else if z > 0 {
      ZerosOneMore(z - 1);
      OctalIsRead(z - 1, 0);
    } else {
      NoZeros();
    }
    OctalOneMore(shorter, n % 8);
  }

  lemma NoZeros()
    ensures Zeros(0) == "" && OctalDigits("") && OctalValue("") == 0
  {}

  lemma {:induction false} ReadIsOctal(s: string) returns (z: nat)
    requires s != "" && OctalDigits(s)
    ensures s == Zeros(z) + Octal(OctalValue(s))
  {
    hide OctalDigits, Zeros, Digit;
    var k := |s| - 1;
    var t := s[..k];
    var d := LastDigit(s);
    OctalOneMore(t, d);
    assert s == t + [Digit(d)];
    z := 0;
    NoZeros();
    if k > 0 {
      z := ReadIsOctal(t);
      if OctalValue(t) == 0 {
        ZerosOneMore(z);
        z := z + 1;
      }
    }
  }

  lemma LastDigit(s: string) returns (d: nat)
    requires s != "" && OctalDigits(s)
    ensures OctalDigits(s[..|s| - 1]) && d < 8 && s[|s| - 1] == Digit(d)
  {
    d := s[|s| - 1] as int - '0' as int;
  }

  /** The numerals that are read as `n` are those that write `n`. */
  lemma ParseOctalIff(s: string, n: nat)
    ensures ParseOctal(s) == Some(n) <==> IsOctal(s, n)
  {
    if z: nat :| s == Zeros(z) + Octal(n) {
      OctalIsRead(z, n);
    }
    if ParseOctal(s).Some? {
      var z := ReadIsOctal(s);
    }
  }

  predicate SetsPermissions(e: Entry) {
    Lower(e.key) == "mountpermissions" && e.value != ""
  }

  predicate LastSettingAt(es: seq<Entry>, i: nat) {
    i < |es| && SetsPermissions(es[i]) && forall j :: i < j < |es| ==> !SetsPermissions(es[j])
  }

  /** The last non-empty value of mountPermissions, or the default. */
  ghost predicate PermissionsAre(es: seq<Entry>, default: nat, n: nat) {
    || (exists i: nat :: LastSettingAt(es, i) && IsOctal(es[i].value, n))
    || (n == default && forall i :: 0 <= i < |es| ==> !SetsPermissions(es[i]))
  }

  lemma {:induction false} PermissionsAreRead(es: seq<Entry>, default: nat)
    requires !AnyBadPermissions(es)
    ensures PermissionsAre(es, default, LastPermissions(es, default))
  {
    hide Lower, Classify, ParseOctal, IsOctal, LastSettingAt, PermissionsAre, AnyBadPermissions;
    if es == [] {
      NoPermissions(es, default);
    } else {
      var n := |es| - 1;
      var p := LastPermissions(es, default);
      ClassifyIff(es[n].key);
      NoneBadBefore(es);
      if SetsPermissions(es[n]) {
        ParseOctalIff(es[n].value, p);
        LastSets(es, default, p);
      } else {
        PermissionsAreRead(es[..n], default);
        StillPermissions(es, default, p);
      }
    }
  }

  lemma NoneBadBefore(es: seq<Entry>)
    requires es != [] && !AnyBadPermissions(es)
    ensures !BadPermissions(es[|es| - 1]) && !AnyBadPermissions(es[..|es| - 1])
  {
    hide BadPermissions;
    assert forall i :: 0 <= i < |es| - 1 ==> es[..|es| - 1][i] == es[i];
  }

  lemma NoPermissions(es: seq<Entry>, default: nat)
    requires es == []
    ensures PermissionsAre(es, default, default)
  {}

  lemma LastSets(es: seq<Entry>, default: nat, p: nat)
    requires es != [] && SetsPermissions(es[|es| - 1]) && IsOctal(es[|es| - 1].value, p)
    ensures PermissionsAre(es, default, p)
  {
    hide IsOctal;
    assert LastSettingAt(es, |es| - 1);
  }

  lemma StillPermissions(es: seq<Entry>, default: nat, p: nat)
    requires es != [] && !SetsPermissions(es[|es| - 1]) && PermissionsAre(es[..|es| - 1], default, p)
    ensures PermissionsAre(es, default, p)
  {
    hide IsOctal, SetsPermissions;
    var fs := es[..|es| - 1];
    if i: nat :| LastSettingAt(fs, i) && IsOctal(fs[i].value, p) {
      assert LastSettingAt(es, i);
    } else {
      forall i | 0 <= i < |es| ensures !SetsPermissions(es[i]) {
        assert i < |fs| ==> fs[i] == es[i];
      }
    }
  }

  lemma OnePermission(es: seq<Entry>, default: nat, n: nat, m: nat)
    requires PermissionsAre(es, default, n) && PermissionsAre(es, default, m)
    ensures n == m
  {
    hide ParseOctal, IsOctal;
    if i: nat :| LastSettingAt(es, i) && IsOctal(es[i].value, n) {
      var k: nat :| LastSettingAt(es, k) && IsOctal(es[k].value, m);
      assert i == k;
      ParseOctalIff(es[i].value, n);
      ParseOctalIff(es[i].value, m);
    }
  }

  // ---------------------------------------------------------------- requests

  /** A publish request that names what it must and writes its permissions in octal. */
  ghost predicate WellFormed(r: PublishRequest) {
    && r.capability.Some? && r.volumeID != "" && r.target != ""
    && forall i :: 0 <= i < |r.context| && SetsPermissions(r.context[i]) ==> exists n :: IsOctal(r.context[i].value, n)
  }

  ghost predicate ImageIs(es: seq<Entry>, image: string) {
    || (image != "" && Says(es, "nfsserverimage", image))
    || (Says(es, "nfsserverimage", "") && image == "daocloud.io/piraeus/nfs-ganesha:latest")
  }

  /** The options are the request's flags, "ro" if it is read-only, and the mount options of the
      volume context. */
  ghost predicate OptionsAre(r: PublishRequest, options: seq<string>) {
    r.capability.Some?
    && options == r.capability.value + (if r.readonly then ["ro"] else []) + Carried(r.context, "mountoptions")
  }

  ghost predicate ReadsAs(r: PublishRequest, default: nat, a: Args) {
    && a.volumeID == r.volumeID && a.target == r.target
    && OptionsAre(r, a.options) && PermissionsAre(r.context, default, a.permissions)
    && a.dataPvc != "" && Says(r.context, "datavolumeclaim", a.dataPvc)
    && a.dataNs != "" && Says(r.context, "datanamespace", a.dataNs)
    && ImageIs(r.context, a.image) && Says(r.context, "nfshostsallow", a.hostsAllow)
    && Says(r.context, "csi.storage.k8s.io/pod.name", a.podName)
    && Says(r.context, "csi.storage.k8s.io/pod.namespace", a.podNs)
  }

  lemma BadPermissionsIff(es: seq<Entry>)
    ensures AnyBadPermissions(es)
       <==> exists i :: 0 <= i < |es| && SetsPermissions(es[i]) && !exists n :: IsOctal(es[i].value, n)
  {
    hide Classify, ParseOctal, IsOctal;
    forall i | 0 <= i < |es|
      ensures BadPermissions(es[i]) <==> SetsPermissions(es[i]) && !exists n :: IsOctal(es[i].value, n)
    {
      ClassifyIff(es[i].key);
      if ParseOctal(es[i].value).Some? {
        ParseOctalIff(es[i].value, ParseOctal(es[i].value).value);
      }
      if n :| IsOctal(es[i].value, n) {
        ParseOctalIff(es[i].value, n);
      }
    }
  }

  lemma ContextReads(es: seq<Entry>, default: nat)
    ensures Says(es, "datavolumeclaim", LastValue(es, DataVolumeClaim))
    ensures Says(es, "datanamespace", LastValue(es, DataNamespace))
    ensures Says(es, "nfsserverimage", LastValue(es, NfsServerImage))
    ensures Says(es, "nfshostsallow", LastValue(es, NfsHostsAllow))
    ensures Says(es, "csi.storage.k8s.io/pod.name", LastValue(es, PodName))
    ensures Says(es, "csi.storage.k8s.io/pod.namespace", LastValue(es, PodNamespace))
    ensures Values(es, MountOptions) == Carried(es, "mountoptions")
    ensures !AnyBadPermissions(es) ==> PermissionsAre(es, default, LastPermissions(es, default))
  {
    hide Says, LastValue, Spells, Values, Carried, AnyBadPermissions, PermissionsAre;
    AllSpellings();
    SaysLastValue(es, "datavolumeclaim", DataVolumeClaim);
    SaysLastValue(es, "datanamespace", DataNamespace);
    SaysLastValue(es, "nfsserverimage", NfsServerImage);
    SaysLastValue(es, "nfshostsallow", NfsHostsAllow);
    SaysLastValue(es, "csi.storage.k8s.io/pod.name", PodName);
    SaysLastValue(es, "csi.storage.k8s.io/pod.namespace", PodNamespace);
    ValuesAreCarried(es, "mountoptions", MountOptions);
    if !AnyBadPermissions(es) {
      PermissionsAreRead(es, default);
    }
  }

  /** A publish request is accepted with the arguments `a` exactly when it is well-formed and says
      `a`; any other request is answered InvalidArgument. */
  lemma {:induction false} ParsePublishIff(r: PublishRequest, default: nat, a: Args)
    ensures ParsePublish(r, default) == Ok(a) <==> WellFormed(r) && ReadsAs(r, default, a)
    ensures ParsePublish(r, default).Err? ==> ParsePublish(r, default).code == InvalidArgument
  {
    hide Says, LastValue, Values, Carried, AnyBadPermissions, PermissionsAre, LastPermissions, IsOctal;
    var es := r.context;
    BadPermissionsIff(es);
    ContextReads(es, default);
    if WellFormed(r) && ReadsAs(r, default, a) {
      SaysOneThing(es, "datavolumeclaim", LastValue(es, DataVolumeClaim), a.dataPvc);
      SaysOneThing(es, "datanamespace", LastValue(es, DataNamespace), a.dataNs);
      SaysOneThing(es, "nfshostsallow", LastValue(es, NfsHostsAllow), a.hostsAllow);
      SaysOneThing(es, "csi.storage.k8s.io/pod.name", LastValue(es, PodName), a.podName);
      SaysOneThing(es, "csi.storage.k8s.io/pod.namespace", LastValue(es, PodNamespace), a.podNs);
      OnePermission(es, default, LastPermissions(es, default), a.permissions);
      OneImage(es, LastValue(es, NfsServerImage), a.image);
    }
  }

  lemma OneImage(es: seq<Entry>, given: string, image: string)
    requires Says(es, "nfsserverimage", given) && ImageIs(es, image)
    ensures image == if given == "" then "daocloud.io/piraeus/nfs-ganesha:latest" else given
  {
    hide Says;
    if image != "" && Says(es, "nfsserverimage", image) {
      SaysOneThing(es, "nfsserverimage", given, image);
    } else {
      SaysOneThing(es, "nfsserverimage", given, "");
    }
  }

  // ---------------------------------------------------------------- storage classes

  const STORAGE_KEYS := {
    "datastorageclass", "nfsserverimage", "nfshostsallow", "mountpermissions",
    "csi.storage.k8s.io/pvc/name", "csi.storage.k8s.io/pvc/namespace", "csi.storage.k8s.io/pv/name"}

  /** The parameters of a CreateVolume request are accepted as `p` exactly when every key is known
      and they say `p`; otherwise the answer is InvalidArgument. */
  lemma {:induction false} ParseStorageIff(es: seq<Entry>, p: StorageParams)
    ensures ParseStorage(es) == Ok(p)
       <==> && (forall i :: 0 <= i < |es| ==> Lower(es[i].key) in STORAGE_KEYS)
            && Says(es, "datastorageclass", p.storageClass) && Says(es, "nfsserverimage", p.image)
            && Says(es, "nfshostsallow", p.hostsAllow) && Says(es, "csi.storage.k8s.io/pvc/name", p.pvcName)
            && Says(es, "csi.storage.k8s.io/pvc/namespace", p.pvcNs)
    ensures ParseStorage(es).Err? ==> ParseStorage(es).code == InvalidArgument
  {
    hide Says, LastValue, Spells, Classify;
    AllSpellings();
    SaysLastValue(es, "datastorageclass", DataStorageClass);
    SaysLastValue(es, "nfsserverimage", NfsServerImage);
    SaysLastValue(es, "nfshostsallow", NfsHostsAllow);
    SaysLastValue(es, "csi.storage.k8s.io/pvc/name", PvcName);
    SaysLastValue(es, "csi.storage.k8s.io/pvc/namespace", PvcNamespace);
    forall i | 0 <= i < |es| ensures KnownStorageKey(Classify(es[i].key)) <==> Lower(es[i].key) in STORAGE_KEYS {
      ClassifyIff(es[i].key);
    }
    if Says(es, "datastorageclass", p.storageClass) && Says(es, "nfsserverimage", p.image)
       && Says(es, "nfshostsallow", p.hostsAllow) && Says(es, "csi.storage.k8s.io/pvc/name", p.pvcName)
       && Says(es, "csi.storage.k8s.io/pvc/namespace", p.pvcNs) {
      SaysOneThing(es, "datastorageclass", StorageOf(es).storageClass, p.storageClass);
      SaysOneThing(es, "nfsserverimage", StorageOf(es).image, p.image);
      SaysOneThing(es, "nfshostsallow", StorageOf(es).hostsAllow, p.hostsAllow);
      SaysOneThing(es, "csi.storage.k8s.io/pvc/name", StorageOf(es).pvcName, p.pvcName);
      SaysOneThing(es, "csi.storage.k8s.io/pvc/namespace", StorageOf(es).pvcNs, p.pvcNs);
    }
  }
}
