/** The volume ID: strings.Replace(name, "pvc-", "nfs-", 1). */
module Naming {
  import opened Common

  /** "pvc-" occurs in `s` at `i`. */
  predicate PvcAt(s: string, i: nat) {
    i + 4 <= |s| && s[i] == 'p' && s[i + 1] == 'v' && s[i + 2] == 'c' && s[i + 3] == '-'
  }

  /** "nfs-" occurs in `s` at `i`. */
  predicate NfsAt(s: string, i: nat) {
    i + 4 <= |s| && s[i] == 'n' && s[i + 1] == 'f' && s[i + 2] == 's' && s[i + 3] == '-'
  }

  /** `i` is the offset of the first "pvc-", or |s| when there is none. */
  ghost predicate FirstPvc(s: string, i: nat) {
    && i <= |s|
    && (forall j: nat :: j < i ==> !PvcAt(s, j))
    && (i < |s| ==> PvcAt(s, i))
  }

  function FindPvc(s: string, from: nat): (i: nat)
    requires from <= |s|
    requires forall j: nat :: j < from ==> !PvcAt(s, j)
    ensures FirstPvc(s, i)
    decreases |s| - from
  {
    if from == |s| || PvcAt(s, from) then from else FindPvc(s, from + 1)
  }

  function VolumeIdFor(name: string): string {
    var i := FindPvc(name, 0);
    if i == |name| then name else name[..i] + "nfs-" + name[i + 4..]
  }

  /** `id` is `name` with the first "pvc-", if there is one, replaced by "nfs-". */
  ghost predicate ReplacedOnce(name: string, id: string) {
    || (id == name && forall j: nat :: !OccursAt(name, "pvc-", j))
    || exists i: nat :: OccursAt(name, "pvc-", i) && (forall j: nat :: j < i ==> !OccursAt(name, "pvc-", j))
                        && id == name[..i] + "nfs-" + name[i + 4..]
  }

  lemma VolumeIdIff(name: string, id: string)
    ensures VolumeIdFor(name) == id <==> ReplacedOnce(name, id)
  {
    var first := FindPvc(name, 0);
    forall j: nat ensures OccursAt(name, "pvc-", j) <==> PvcAt(name, j) {
      assert PvcAt(name, j) ==> name[j..j + 4] == [name[j], name[j + 1], name[j + 2], name[j + 3]];
    }
    hide PvcAt, OccursAt;
    if first < |name| {
      assert OccursAt(name, "pvc-", first) && forall j: nat :: j < first ==> !OccursAt(name, "pvc-", j);
    }
  }

  /** The rewrite keeps the length, writes "nfs-" over the first "pvc-" and touches nothing else. */
  lemma VolumeIdCharacters(name: string, i: nat)
    requires FirstPvc(name, i)
    ensures |VolumeIdFor(name)| == |name|
    ensures i < |name| ==> NfsAt(VolumeIdFor(name), i)
    ensures forall k :: 0 <= k < |name| && !(i <= k < i + 4) ==> VolumeIdFor(name)[k] == name[k]
  {}

  /** Injective on names whose first "pvc-" is at the same offset. */
  lemma VolumeIdInjective(a: string, b: string, i: nat)
    requires FirstPvc(a, i) && FirstPvc(b, i) && (i < |a| <==> i < |b|)
    ensures VolumeIdFor(a) == VolumeIdFor(b) <==> a == b
  {}

  /** In particular on the names the provisioner gives, which start with "pvc-". */
  lemma VolumeIdInjectiveOnPvcNames(a: string, b: string)
    requires PvcAt(a, 0) && PvcAt(b, 0)
    ensures VolumeIdFor(a) == VolumeIdFor(b) <==> a == b
  {}

  /** Names with their first "pvc-" at different offsets share a volume ID exactly when each has a
      literal "nfs-" where the other is rewritten, and they agree elsewhere. */
  lemma VolumeIdsCollideIff(a: string, b: string, i: nat, j: nat)
    requires FirstPvc(a, i) && FirstPvc(b, j) && i < j && i < |a|
    ensures VolumeIdFor(a) == VolumeIdFor(b)
       <==> && |a| == |b| && NfsAt(b, i) && (j < |b| ==> NfsAt(a, j))
            && (forall k :: 0 <= k < |a| && !(i <= k < i + 4) && !(j <= k < j + 4) ==> a[k] == b[k])
  {
    hide VolumeIdFor;
    VolumeIdCharacters(a, i);
    VolumeIdCharacters(b, j);
    var va, vb := VolumeIdFor(a), VolumeIdFor(b);
    if va == vb {
      assert NfsAt(vb, i);
      assert j < |b| ==> NfsAt(va, j);
      assert j < |b| ==> i + 4 <= j;
    }
    if |a| == |b| && NfsAt(b, i) && (j < |b| ==> NfsAt(a, j))
       && (forall k :: 0 <= k < |a| && !(i <= k < i + 4) && !(j <= k < j + 4) ==> a[k] == b[k]) {
      assert j < |b| ==> i + 4 <= j;
      forall k | 0 <= k < |a| ensures va[k] == vb[k] {
        assert i <= k < i + 4 ==> k == i || k == i + 1 || k == i + 2 || k == i + 3;
        assert j <= k < j + 4 ==> k == j || k == j + 1 || k == j + 2 || k == j + 3;
      }
    }
  }

  /** A concrete collision. */
  lemma VolumeIdsCanCollide()
    ensures VolumeIdFor("pvc-1") == VolumeIdFor("nfs-1") && "pvc-1" != "nfs-1"
  {}
}
