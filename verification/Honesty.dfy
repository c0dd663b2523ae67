/** Does the answer of a publish call tell the truth about the mount? */
module Honesty {
  import opened Common
  import opened Params
  import opened Cluster
  import opened NodeSteps
  import opened Outcome

  /** The call gets to its NFS mount. */
  predicate ReachesNfsMount(c: Cluster, n: string, a: Args, e: PublishEnv) {
    GetsToSource(c, n, a, e) && !Local(c, a, e) && HasSvc(c, a, e) && PortComesUp(e)
  }

  /** An OK answer without a mount: exactly when the NFS mount fails, the pod directory was readable
      and nothing else goes wrong afterwards. */
  lemma OkWithoutMountIff(c: Cluster, n: string, a: Args, e: PublishEnv)
    ensures var (c', reply) := FinishPublish(c, n, ReadPvc(a), e);
            reply == Okay && MountPoint(n, a.target) !in c'.mounts
            <==> ReachesNfsMount(c, n, a, e) && e.nfsErr.Some? && DirError(e).None? && ChmodFine(a, e)
  {
    hide FinishPublish, LocalSource;
    PublishOutcome(c, n, a, e);
  }

  /** An error answer although the mount was made: exactly when the chmod fails, or, over NFS, when
      the pod directory could not be read (as on every node without the backend pod). */
  lemma ErrorDespiteMountIff(c: Cluster, n: string, a: Args, e: PublishEnv)
    ensures var (c', reply) := FinishPublish(c, n, ReadPvc(a), e);
            reply.Error? && MountPoint(n, a.target) !in c.mounts && MountPoint(n, a.target) in c'.mounts
            <==> Mounted(c, n, a, e).Some? && (!ChmodFine(a, e) || (!Local(c, a, e) && DirError(e).Some?))
  {
    hide FinishPublish, LocalSource;
    PublishOutcome(c, n, a, e);
  }

  /** On the already-mounted path and on the bind path OK means mounted. */
  lemma OkMeansMountedLocally(c: Cluster, n: string, a: Args, e: PublishEnv)
    requires MountPoint(n, a.target) in c.mounts || Local(c, a, e)
    ensures var (c', reply) := FinishPublish(c, n, ReadPvc(a), e);
            reply == Okay ==> MountPoint(n, a.target) in c'.mounts
  {
    OkWithoutMountIff(c, n, a, e);
  }

  /** The answer with the mount's own error reported, as the error handling below it expects. */
  function IntendedAnswer(c: Cluster, n: string, a: Args, e: PublishEnv): Reply {
    if ReachesNfsMount(c, n, a, e) then ReportReply(a, e.nfsErr, e) else Answer(c, n, a, e)
  }

  lemma IntendedAnswerIsHonest(c: Cluster, n: string, a: Args, e: PublishEnv)
    ensures IntendedAnswer(c, n, a, e) == Okay
            ==> MountPoint(n, a.target) in FinishPublish(c, n, ReadPvc(a), e).0.mounts
  {
    hide FinishPublish, LocalSource;
    PublishOutcome(c, n, a, e);
  }

  /** The handler as written answers as intended exactly when it does not reach the NFS mount, the
      directory and the mount give the same error (or none), or a failing chmod hides the difference. */
  lemma AnswersAsIntendedIff(c: Cluster, n: string, a: Args, e: PublishEnv)
    ensures FinishPublish(c, n, ReadPvc(a), e).1 == IntendedAnswer(c, n, a, e)
       <==> || !ReachesNfsMount(c, n, a, e)
            || DirError(e) == e.nfsErr
            || (!ChmodFine(a, e) && DirError(e) in {None, Some(OtherError)} && e.nfsErr in {None, Some(OtherError)})
  {
    hide FinishPublish, LocalSource, GetsToSource, Local, HasSvc;
    PublishOutcome(c, n, a, e);
    if ReachesNfsMount(c, n, a, e) {
      ReachesReport(c, n, a, e);
    }
  }

  lemma ReachesReport(c: Cluster, n: string, a: Args, e: PublishEnv)
    requires ReachesNfsMount(c, n, a, e)
    ensures Answer(c, n, a, e) == ReportReply(a, DirError(e), e)
  {
    hide LocalSource;
  }

  /** A read-only request is mounted read-only exactly when it is mounted over NFS: the bind mount
      drops the option. */
  lemma {:induction false} ReadonlyHonouredIff(c: Cluster, n: string, r: PublishRequest, default: nat, e: PublishEnv)
    requires r.readonly && ParsePublish(r, default).Ok?
    requires Mounted(c, n, ParsePublish(r, default).value, e).Some?
    ensures var a := ParsePublish(r, default).value;
            var at := MountPoint(n, a.target);
            && at in PublishCall(c, n, r, default, e).0.mounts
            && ("ro" in PublishCall(c, n, r, default, e).0.mounts[at].options <==> !Local(c, a, e))
  {
    hide FinishPublish, LocalSource, PodsAfter, Answer, StssAfter, SvcsAfter;
    var a := ParsePublish(r, default).value;
    PublishOutcome(c, n, a, e);
    ReadonlyIsAnOption(r, default);
    assert "ro" !in ["bind"] by {
      assert |"ro"| == 2 && |"bind"| == 4;
    }
  }

  lemma ReadonlyIsAnOption(r: PublishRequest, default: nat)
    requires r.readonly && ParsePublish(r, default).Ok?
    ensures "ro" in ParsePublish(r, default).value.options
  {
    var flags := r.capability.value + ["ro"];
    assert flags[|flags| - 1] == "ro";
    var options := ParsePublish(r, default).value.options;
    assert options == flags + Values(r.context, MountOptions);
    assert options[|flags| - 1] == "ro";
  }
}
