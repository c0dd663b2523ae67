/** From CreateVolume to a served mount: the objects of one volume point at each other. */
module EndToEnd {
  import opened Common
  import opened Params
  import opened Naming
  import opened Cluster
  import opened NodeSteps
  import opened ControllerSteps
  import opened Agreement
  import opened Outcome
  import opened System
  import opened StepFacts
  import opened Safety
  import opened Races

  /** The StatefulSet a first publish makes serves the very claim CreateVolume answered for, with
      the image and the hosts of the StorageClass, and is owned by that claim's incarnation. */
  lemma ExportServesTheCreatedClaim(
    c: Cluster, r: CreateRequest, e: CreateEnv, m: map<string, string>,
    n: string, q: PublishRequest, default: nat, pe: PublishEnv)
    requires CreateCall(c, r, e).1.Volume?
    requires Carries(m, CreateCall(c, r, e).1.context) && Enumerates(q.context, m)
    requires q.capability.Some? && q.target != "" && q.volumeID == CreateCall(c, r, e).1.id
    requires !AnyBadPermissions(q.context)
    requires pe.pvcGet && pe.stsCreate
    requires Key(ParseStorage(r.params).value.pvcNs, VolumeIdFor(r.name)) !in c.stss
    ensures var p, c1 := ParseStorage(r.params).value, CreateCall(c, r, e).0;
            var k := Key(p.pvcNs, VolumeIdFor(r.name));
            var c2 := PublishCall(c1, n, q, default, pe).0;
            && k in c1.pvcs && k in c2.stss
            && c2.stss[k] == StatefulSet(k.name, k.name, k.name, Owner(k.name, c1.pvcs[k].uid),
                                         k.name, ImageOf(p), p.hostsAllow)
  {
    hide Classify, LastValue, VolumeIdFor, ParseStorage, ParsePublish, FinishPublish, Carries, Enumerates, LocalSource,
         Answer, PodsAfter, MountsAfter, SvcsAfter, CreateCall, AnyBadPermissions;
    PublishReadsWhatCreateWrote(c, r, e, m, q, default);
    CreateCallEffect(c, r, e);
    ParsedIsTheVolume(q, default);
    var a := ParsePublish(q, default).value;
    var p := ParseStorage(r.params).value;
    SpecAnswers(VolumeIdFor(r.name), p, r.size, e);
    PublishOutcome(CreateCall(c, r, e).0, n, a, pe);
  }

  lemma ParsedIsTheVolume(q: PublishRequest, default: nat)
    requires ParsePublish(q, default).Ok?
    ensures ParsePublish(q, default).value.volumeID == q.volumeID
  {
    hide ParseContext;
  }

  // ---------------------------------------------------------------- addresses

  /** Every NFS mount, and every publish on its way to one, goes to the address of its Service. */
  ghost predicate Addressed(s: Sys) {
    && (forall at, k :: MountReliesOnSvc(s, at, k) ==> k in s.c.svcs && s.c.mounts[at].source == s.c.svcs[k].ip + ":/")
    && (forall t, k :: PublishReliesOnSvc(s, t, k) ==> k in s.c.svcs && s.threads[t].p.ip == s.c.svcs[k].ip)
  }

  /** A Service that stays keeps its address. */
  lemma SvcsStay(s: Sys, ev: Event)
    ensures forall k :: k in s.c.svcs && k in Next(s, ev).c.svcs ==> Next(s, ev).c.svcs[k] == s.c.svcs[k]
  {
    hide Next, Wins, Loses, Tries, Deletes;
    forall k | k in s.c.svcs && k in Next(s, ev).c.svcs ensures Next(s, ev).c.svcs[k] == s.c.svcs[k] {
      EventOnObjects(s, ev, SvcAt(k));
    }
  }

  lemma PublishKeepsAddresses(s: Sys, tid: nat, e: PublishEnv)
    requires Safe(s) && Addressed(s) && Enabled(s, StepPublish(tid, e))
    ensures Addressed(Next(s, StepPublish(tid, e)))
  {
    hide Next, PublishStep, Safe;
    var ev := StepPublish(tid, e);
    var s' := Next(s, ev);
    var Publishing(n, p) := s.threads[tid];
    PublishNext(s, tid, e);
    PublishStepMounts(s.c, n, p, e);
    PublishStepGoes(s.c, n, p, e);
    PublishStepAddress(s.c, n, p, e);
    PublishStepEffects(s.c, n, p, e);
    assert OverNfs(p) ==> PublishReliesOnSvc(s, tid, Export(p.a));
    SvcsStay(s, ev);
    assert s.c.svcs.Keys <= s'.c.svcs.Keys;
    forall at, k | MountReliesOnSvc(s', at, k)
      ensures k in s'.c.svcs && s'.c.mounts[at].source == s'.c.svcs[k].ip + ":/"
    {
      assert MountReliesOnSvc(s, at, k) || (p.NfsMount? && k == Export(p.a));
    }
    forall t, k | PublishReliesOnSvc(s', t, k)
      ensures k in s'.c.svcs && s'.threads[t].p.ip == s'.c.svcs[k].ip
    {
      assert t == tid || PublishReliesOnSvc(s, t, k);
    }
  }

  lemma OthersKeepAddresses(s: Sys, ev: Event)
    requires Addressed(s) && Safe(Next(s, ev)) && Enabled(s, ev) && !ev.StepPublish?
    ensures Addressed(Next(s, ev))
  {
    hide Next;
    var s' := Next(s, ev);
    SvcsStay(s, ev);
    if ev.StepUnpublish? {
      UnpublishNext(s, ev.tid, ev.ue);
    } else {
      OtherEventEffects(s, ev);
    }
    forall at, k | MountReliesOnSvc(s', at, k)
      ensures k in s'.c.svcs && s'.c.mounts[at].source == s'.c.svcs[k].ip + ":/"
    {
      assert MountReliesOnSvc(s, at, k);
    }
    forall t, k | PublishReliesOnSvc(s', t, k)
      ensures k in s'.c.svcs && s'.threads[t].p.ip == s'.c.svcs[k].ip
    {
      assert PublishReliesOnSvc(s, t, k);
    }
  }

  /** As long as no delete hits an object in use, every NFS mount on every node points at the
      Service of its own volume, in every state. */
  lemma {:induction false} MountsPointAtTheirService(s: Sys, run: seq<Event>)
    requires Initial(s) && NeverPullsAway(s, run)
    ensures Safe(Exec(s, run)) && Addressed(Exec(s, run))
    decreases |run|
  {
    hide Safe, Addressed, PullsAway, Next;
    if run == [] {
      InitiallySafe(s);
      assert Addressed(s) by { NobodyThere(s); }
    } else {
      MountsPointAtTheirService(s, Before(run));
      var t, ev := Exec(s, Before(run)), Last(run);
      EventIsSafeIff(t, ev);
      if Enabled(t, ev) {
        if ev.StepPublish? {
          PublishKeepsAddresses(t, ev.tid, ev.pe);
        } else {
          OthersKeepAddresses(t, ev);
        }
      } else {
        assert Next(t, ev) == t by { PassedOver(t, ev); }
      }
    }
  }

  lemma NobodyThere(s: Sys)
    requires Initial(s)
    ensures Addressed(s)
  {}

  lemma PassedOver(s: Sys, ev: Event)
    requires !Enabled(s, ev)
    ensures Next(s, ev) == s
  {}
}
