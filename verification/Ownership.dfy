/** Every driver-made StatefulSet and Service names its volume and is owned by an incarnation its
    data PVC once had; so none of them survives garbage collection once that incarnation is gone. */
module Ownership {
  import opened Common
  import opened Cluster
  import opened NodeSteps
  import opened System
  import opened StepFacts

  ghost predicate OwnedBy(c: Cluster, ns: string, o: Owner) {
    (Key(ns, o.name), o.uid) in c.born
  }

  ghost predicate ClaimsBorn(c: Cluster) {
    && (forall k :: k in c.pvcs ==> (k, c.pvcs[k].uid) in c.born)
    && (forall b, d :: b in c.born && d in c.born && b.1 == d.1 ==> b == d)
  }

  ghost predicate StssOwned(c: Cluster) {
    forall k :: k in c.stss ==>
      var sts := c.stss[k];
      && Addressable(k) && sts.idLabel == sts.selector == sts.serviceName == k.name
      && sts.claim == sts.owner.name && OwnedBy(c, k.ns, sts.owner)
  }

  ghost predicate SvcsOwned(c: Cluster) {
    forall k :: k in c.svcs ==>
      && Addressable(k) && c.svcs[k].idLabel == c.svcs[k].selector == k.name
      && OwnedBy(c, k.ns, c.svcs[k].owner)
  }

  /** A publish in flight holds a UID its data PVC once had. */
  ghost predicate ThreadsHoldUids(s: Sys) {
    forall t :: PublishingAt(s, t) && !s.threads[t].p.ReadPvc? && !s.threads[t].p.Done? ==>
      (DataKey(s.threads[t].p.a), s.threads[t].p.uid) in s.c.born
  }

  ghost predicate Owned(s: Sys) {
    ClaimsBorn(s.c) && StssOwned(s.c) && SvcsOwned(s.c) && ThreadsHoldUids(s)
  }

  lemma ClaimsStayBorn(c: Cluster, c': Cluster)
    requires ClaimsBorn(c) && ClaimEffect(c, c')
    ensures ClaimsBorn(c')
  {}

  /** What a publish step makes is owned by the UID the call holds. */
  lemma PublishMakesOwned(c: Cluster, p: Publish, c': Cluster, p': Publish)
    requires !p.Done? && c'.born == c.born && StssOwned(c) && SvcsOwned(c)
    requires !p.ReadPvc? ==> (DataKey(p.a), p.uid) in c.born
    requires StsEffect(c, p, c', p') && SvcEffect(c, p, c', p')
    ensures StssOwned(c') && SvcsOwned(c')
  {}

  lemma PublishKeepsOwned(s: Sys, tid: nat, e: PublishEnv)
    requires Owned(s) && Enabled(s, StepPublish(tid, e))
    ensures Owned(Next(s, StepPublish(tid, e)))
  {
    hide Next, PublishStep, ClaimsBorn, StssOwned, SvcsOwned, StsEffect, SvcEffect;
    var Publishing(n, p) := s.threads[tid];
    var s' := Next(s, StepPublish(tid, e));
    PublishNext(s, tid, e);
    PublishStepEffects(s.c, n, p, e);
    PublishStepGoes(s.c, n, p, e);
    PublishMakesOwned(s.c, p, s'.c, s'.threads[tid].p);
    assert ClaimsBorn(s'.c) by {
      EventOnClaims(s, StepPublish(tid, e));
      ClaimsStayBorn(s.c, s'.c);
    }
    if p.ReadPvc? && DataKey(p.a) in s.c.pvcs {
      ClaimIsBorn(s.c, DataKey(p.a));
    }
  }

  lemma ClaimIsBorn(c: Cluster, k: Key)
    requires ClaimsBorn(c) && k in c.pvcs
    ensures (k, c.pvcs[k].uid) in c.born
  {}

  lemma {:induction false} EventKeepsOwned(s: Sys, ev: Event)
    requires Owned(s)
    ensures Owned(Next(s, ev))
  {
    hide ClaimsBorn, Apply;
    if Enabled(s, ev) {
      EventOnClaims(s, ev);
      ClaimsStayBorn(s.c, Next(s, ev).c);
      if ev.StepPublish? {
        PublishKeepsOwned(s, ev.tid, ev.pe);
      } else if ev.StepUnpublish? {
        UnpublishNext(s, ev.tid, ev.ue);
      } else {
        OtherEventEffects(s, ev);
      }
    }
  }

  lemma {:induction false} OwnershipInvariant(s: Sys, run: seq<Event>)
    requires Initial(s)
    ensures Owned(Exec(s, run))
    decreases |run|
  {
    if run != [] {
      OwnershipInvariant(s, Before(run));
      EventKeepsOwned(Exec(s, Before(run)), Last(run));
    }
  }

  // ---------------------------------------------------------------- garbage collection

  /** The incarnation of claim `k` with that UID existed and is gone. */
  ghost predicate Dead(c: Cluster, k: Key, uid: string) {
    (k, uid) in c.born && !(k in c.pvcs && c.pvcs[k].uid == uid)
  }

  /** UIDs are never used again: a dead incarnation stays dead in every continuation. */
  lemma {:induction false} DeadStaysDead(s: Sys, run: seq<Event>, k: Key, uid: string)
    requires Dead(s.c, k, uid)
    ensures Dead(Exec(s, run).c, k, uid)
    decreases |run|
  {
    hide Next;
    if run != [] {
      DeadStaysDead(s, Before(run), k, uid);
      EventOnClaims(Exec(s, Before(run)), Last(run));
    }
  }

  /** Once the incarnation that owns a StatefulSet or Service is gone, then at every later moment
      the collector may take every object that incarnation owns, and having taken it leaves none;
      an object whose owner lives it may not take. */
  lemma {:induction false} NothingOutlivesItsClaim(s: Sys, run: seq<Event>, owner: Key, uid: string, k: Key)
    requires Dead(s.c, owner, uid) && k.ns == owner.ns
    ensures var t := Exec(s, run);
            && (k in t.c.stss && t.c.stss[k].owner == Owner(owner.name, uid) ==>
                  Enabled(t, CollectSts(k)) && k !in Next(t, CollectSts(k)).c.stss)
            && (k in t.c.svcs && t.c.svcs[k].owner == Owner(owner.name, uid) ==>
                  Enabled(t, CollectSvc(k)) && k !in Next(t, CollectSvc(k)).c.svcs)
  {
    DeadStaysDead(s, run, owner, uid);
  }

  /** What the collector may still take in a reachable state is exactly what lost its owner. */
  lemma CollectableIffOwnerDead(s: Sys, run: seq<Event>, k: Key)
    requires Initial(s)
    ensures var t := Exec(s, run);
            && (k in t.c.stss ==> (Enabled(t, CollectSts(k))
                  <==> Dead(t.c, Key(k.ns, t.c.stss[k].owner.name), t.c.stss[k].owner.uid)))
            && (k in t.c.svcs ==> (Enabled(t, CollectSvc(k))
                  <==> Dead(t.c, Key(k.ns, t.c.svcs[k].owner.name), t.c.svcs[k].owner.uid)))
  {
    hide Apply, Next, Exec, ClaimsBorn, ThreadsHoldUids;
    OwnershipInvariant(s, run);
  }
}
