/** The search for the local source directory in NodePublishVolume. */
module SourceDir {
  const CSI_PLUGIN := "kubernetes.io~csi"

  predicate Skipped(name: string) {
    || name == "kubernetes.io~secret" || name == "kubernetes.io~configmap"
    || name == "kubernetes.io~empty-dir" || name == "kubernetes.io~downward-api"
  }

  function PodVolumeDir(kubeletRoot: string, podUid: string): string {
    kubeletRoot + "/pods/" + podUid + "/volumes/"
  }

  /** The data volume's mount point below one plugin directory. */
  function MountPointFor(dir: string, name: string, pvcUid: string): string {
    dir + "/" + name + "/pvc-" + pvcUid + if name == CSI_PLUGIN then "/mount" else ""
  }

  /** The value of `source` after the directories `names` have been visited. */
  function Source(dir: string, names: seq<string>, pvcUid: string): string {
    if names == [] then ""
    else if Skipped(names[|names| - 1]) then Source(dir, names[..|names| - 1], pvcUid)
    else MountPointFor(dir, names[|names| - 1], pvcUid)
  }

  /** The evident intent: stop at the first directory that is not skipped. */
  function FirstSource(dir: string, names: seq<string>, pvcUid: string): string {
    if names == [] then ""
    else if Skipped(names[0]) then FirstSource(dir, names[1..], pvcUid)
    else MountPointFor(dir, names[0], pvcUid)
  }

  method FindSource(dir: string, names: seq<string>, pvcUid: string) returns (source: string)
    ensures source == Source(dir, names, pvcUid)
  {
    source := "";
    for i := 0 to |names|
      invariant source == Source(dir, names[..i], pvcUid)
    {
      assert names[..i + 1][..i] == names[..i];
      var d := names[i];
      if Skipped(d) {
        continue;
      }
      // the `break`s of the switch leave the loop running
      if d == CSI_PLUGIN {
        source := dir + "/" + d + "/pvc-" + pvcUid + "/mount";
      } else {
        source := dir + "/" + d + "/pvc-" + pvcUid;
        assert source == source + "";
      }
    }
    assert names[..|names|] == names;
  }

  // ---------------------------------------------------------------- what is found

  predicate AllSkipped(names: seq<string>) {
    forall i :: 0 <= i < |names| ==> Skipped(names[i])
  }

  /** `i` is the last directory that is not skipped. */
  predicate IsLastKept(names: seq<string>, i: int) {
    0 <= i < |names| && !Skipped(names[i]) && forall j :: i < j < |names| ==> Skipped(names[j])
  }

  predicate IsFirstKept(names: seq<string>, i: int) {
    0 <= i < |names| && !Skipped(names[i]) && forall j :: 0 <= j < i ==> Skipped(names[j])
  }

  lemma {:induction false} SourceIsEmptyIff(dir: string, names: seq<string>, pvcUid: string)
    ensures Source(dir, names, pvcUid) == "" <==> AllSkipped(names)
  {
    hide Skipped;
    if names != [] {
      var n := |names| - 1;
      SourceIsEmptyIff(dir, names[..n], pvcUid);
      assert forall i :: 0 <= i < n ==> names[..n][i] == names[i];
      assert |MountPointFor(dir, names[n], pvcUid)| > 0;
    }
  }

  lemma {:induction false} SourceIsLastKept(dir: string, names: seq<string>, pvcUid: string, last: nat)
    requires IsLastKept(names, last)
    ensures Source(dir, names, pvcUid) == MountPointFor(dir, names[last], pvcUid)
  {
    hide Skipped, MountPointFor;
    var n := |names| - 1;
    if last < n {
      assert Skipped(names[n]);
      assert IsLastKept(names[..n], last);
      SourceIsLastKept(dir, names[..n], pvcUid, last);
    }
  }

  lemma {:induction false} FirstSourceIsFirstKept(dir: string, names: seq<string>, pvcUid: string, first: nat)
    requires IsFirstKept(names, first)
    ensures FirstSource(dir, names, pvcUid) == MountPointFor(dir, names[first], pvcUid)
  {
    hide Skipped, MountPointFor;
    if first > 0 {
      assert Skipped(names[0]);
      assert IsFirstKept(names[1..], first - 1);
      FirstSourceIsFirstKept(dir, names[1..], pvcUid, first - 1);
    }
  }

  predicate SlashFree(s: string) {
    forall i :: 0 <= i < |s| ==> s[i] != '/'
  }

  /** Two directories of one listing lead to different mount points. */
  lemma MountPointsDiffer(dir: string, a: string, b: string, pvcUid: string)
    requires SlashFree(a) && SlashFree(b) && a != b
    ensures MountPointFor(dir, a, pvcUid) != MountPointFor(dir, b, pvcUid)
  {
    var pa, pb := MountPointFor(dir, a, pvcUid), MountPointFor(dir, b, pvcUid);
    var base := |dir| + 1;
    assert forall i :: 0 <= i < |a| ==> pa[base + i] == a[i];
    assert forall i :: 0 <= i < |b| ==> pb[base + i] == b[i];
    assert pa[base + |a|] == '/' && pb[base + |b|] == '/';
    if |a| == |b| {
      var i :| 0 <= i < |a| && a[i] != b[i];
      assert pa[base + i] != pb[base + i];
    }
  }

  /** On a directory listing with something to find, the loop agrees with a first-match search
      exactly when one single entry is not skipped. */
  lemma LastMatchAgreesIff(dir: string, names: seq<string>, pvcUid: string, first: nat, last: nat)
    requires forall i, j :: 0 <= i < j < |names| ==> names[i] != names[j]
    requires forall i :: 0 <= i < |names| ==> SlashFree(names[i])
    requires IsFirstKept(names, first) && IsLastKept(names, last)
    ensures Source(dir, names, pvcUid) == FirstSource(dir, names, pvcUid)
       <==> forall i, j :: 0 <= i < |names| && 0 <= j < |names| && !Skipped(names[i]) && !Skipped(names[j]) ==> i == j
  {
    hide Skipped;
    SourceIsLastKept(dir, names, pvcUid, last);
    FirstSourceIsFirstKept(dir, names, pvcUid, first);
    if first != last {
      assert first < last;
      MountPointsDiffer(dir, names[first], names[last], pvcUid);
    }
  }
}
