/** getPVCByUidStr: a search that keeps its loop variable after the loop. */
module ClaimLookup {
  import opened Common

  datatype Claim = Claim(name: string, uid: string)

  /** The claim in hand when the loop ends: the first with that UID, else the last one listed. */
  function InHand(items: seq<Claim>, uid: string): Claim {
    if items == [] then Claim("", "")
    else if items[0].uid == uid || |items| == 1 then items[0]
    else InHand(items[1..], uid)
  }

  /** A failed list, or a claim in hand without a name, is an error. */
  function PvcByUid(items: Option<seq<Claim>>, uid: string): Option<Claim> {
    if items.None? || InHand(items.value, uid).name == "" then None else Some(InHand(items.value, uid))
  }

  method GetPvcByUidStr(items: Option<seq<Claim>>, uid: string) returns (r: Option<Claim>)
    ensures r == PvcByUid(items, uid)
  {
    if items.None? {
      return None;
    }
    var list := items.value;
    var pvc := Claim("", "");
    for i := 0 to |list|
      invariant i < |list| ==> InHand(list, uid) == InHand(list[i..], uid)
      invariant i == |list| ==> InHand(list, uid) == pvc
    {
      pvc := list[i];
      if pvc.uid == uid {
        break;
      }
    }
    if pvc.name == "" {
      return None;
    }
    r := Some(pvc);
  }

  lemma {:induction false} InHandIs(items: seq<Claim>, uid: string)
    requires items != []
    ensures InHand(items, uid) in items
    ensures InHand(items, uid).uid == uid <==> exists i :: 0 <= i < |items| && items[i].uid == uid
    ensures InHand(items, uid).uid != uid ==> InHand(items, uid) == items[|items| - 1]
  {
    if items[0].uid != uid && |items| > 1 {
      InHandIs(items[1..], uid);
      assert forall i :: 1 <= i < |items| ==> items[1..][i - 1] == items[i];
      if i :| 0 <= i < |items| && items[i].uid == uid {
        assert items[1..][i - 1].uid == uid;
      }
    }
  }

  /** The first claim with the UID is answered, or else the last one listed, unless it has no name. */
  lemma {:induction false} PvcByUidIs(items: seq<Claim>, uid: string, i: nat)
    requires i <= |items| && forall j :: 0 <= j < i ==> items[j].uid != uid
    requires i < |items| ==> items[i].uid == uid
    ensures var claim := if i < |items| then items[i] else if i > 0 then items[i - 1] else Claim("", "");
            PvcByUid(Some(items), uid) == if claim.name == "" then None else Some(claim)
  {
    if i > 0 && |items| > 1 {
      PvcByUidIs(items[1..], uid, i - 1);
    }
  }

  /** The answer is right (the claim with that UID, or an error when there is none) exactly when
      some listed claim has the UID or nothing is listed; otherwise it is the last claim of the
      list, under another UID. */
  lemma LookupIsRightIff(items: seq<Claim>, uid: string)
    requires forall i :: 0 <= i < |items| ==> items[i].name != ""
    ensures var found := exists i :: 0 <= i < |items| && items[i].uid == uid;
            var r := PvcByUid(Some(items), uid);
            && ((if found then r.Some? && r.value.uid == uid else r.None?) <==> found || items == [])
            && (!found && items != [] ==> r == Some(items[|items| - 1]))
  {
    if items != [] {
      InHandIs(items, uid);
    }
  }
}
