/** The answer OK of a publish among any other calls: what has happened before it. */
module HonestRuns {
  import opened Common
  import opened Cluster
  import opened NodeSteps
  import opened System
  import opened StepFacts

  /** The event is a step of publish `tid` that finds its target mounted, or mounts it. */
  ghost predicate Confirms(s: Sys, ev: Event, tid: nat) {
    && ev.StepPublish? && ev.tid == tid && Enabled(s, ev)
    && var p := s.threads[tid].p;
       (p.CheckTarget? || p.BindMount? || (p.NfsMount? && ev.pe.nfsErr.None?))
       && MountPoint(s.threads[tid].node, p.a.target) in Next(s, ev).c.mounts
       && !Next(s, ev).threads[tid].p.ChooseSource?
  }

  /** The event is the failing NFS mount of publish `tid`, whose error is lost because the pod
      directory was readable. */
  ghost predicate LosesError(s: Sys, ev: Event, tid: nat) {
    && ev.StepPublish? && ev.tid == tid && Enabled(s, ev)
    && s.threads[tid].p.NfsMount? && s.threads[tid].p.dirErr.None? && ev.pe.nfsErr.Some?
  }

  ghost predicate HasConfirmed(s: Sys, run: seq<Event>, tid: nat)
    decreases |run|
  {
    run != [] && (HasConfirmed(s, Before(run), tid) || Confirms(Exec(s, Before(run)), Last(run), tid))
  }

  ghost predicate HasLostError(s: Sys, run: seq<Event>, tid: nat)
    decreases |run|
  {
    run != [] && (HasLostError(s, Before(run), tid) || LosesError(Exec(s, Before(run)), Last(run), tid))
  }

  /** On its way to the answer OK, or there. */
  predicate Claims(s: Sys, tid: nat) {
    && PublishingAt(s, tid)
    && var p := s.threads[tid].p;
       p.Annotate? || (p.Report? && p.err.None?) || p == Done(Okay)
  }

  /** Past every mount. */
  predicate Settled(s: Sys, tid: nat) {
    PublishingAt(s, tid) && (s.threads[tid].p.Annotate? || s.threads[tid].p.Report? || s.threads[tid].p.Done?)
  }

  lemma PublishClaims(c: Cluster, n: string, p: Publish, e: PublishEnv)
    requires !p.Done?
    ensures var (c', p') := PublishStep(c, n, p, e);
            var settled, settled' := p.Annotate? || p.Report?, p'.Annotate? || p'.Report? || p'.Done?;
            var mounted := (p.CheckTarget? || p.BindMount? || (p.NfsMount? && e.nfsErr.None?))
                           && MountPoint(n, p.a.target) in c'.mounts && !p'.ChooseSource?;
            && (settled ==> settled')
            && (mounted ==> settled') && (p.NfsMount? ==> settled')
            && (p'.Annotate? || (p'.Report? && p'.err.None?) || p' == Done(Okay) ==>
                  || mounted || (p.NfsMount? && p.dirErr.None? && e.nfsErr.Some?)
                  || p.Annotate? || (p.Report? && p.err.None?))
  {
    hide LocalSource, GoesLocal;
  }

  lemma EventOnClaim(s: Sys, ev: Event, tid: nat)
    ensures var s' := Next(s, ev);
            && (Claims(s', tid) && !Claims(s, tid) ==> Confirms(s, ev, tid) || LosesError(s, ev, tid))
            && (Settled(s, tid) || Confirms(s, ev, tid) || LosesError(s, ev, tid) ==> Settled(s', tid))
  {
    if Enabled(s, ev) {
      hide Apply, PublishStep;
      if ev.StepPublish? {
        var Publishing(n, p) := s.threads[ev.tid];
        PublishNext(s, ev.tid, ev.pe);
        PublishClaims(s.c, n, p, ev.pe);
      } else if ev.StepUnpublish? {
        UnpublishNext(s, ev.tid, ev.ue);
      } else {
        OtherEventEffects(s, ev);
      }
    }
  }

  /** In every run, a publish that answers OK has either mounted its target or found it mounted, or
      it has lost the error of its NFS mount: one of the two, and never both. */
  lemma {:induction false} OkIsConfirmedOrLost(s: Sys, run: seq<Event>, tid: nat)
    requires tid !in s.threads
    ensures Claims(Exec(s, run), tid) ==> (HasConfirmed(s, run, tid) <==> !HasLostError(s, run, tid))
    ensures HasConfirmed(s, run, tid) || HasLostError(s, run, tid) ==> Settled(Exec(s, run), tid)
    ensures !(HasConfirmed(s, run, tid) && HasLostError(s, run, tid))
    decreases |run|
  {
    hide Next, Confirms, LosesError;
    if run != [] {
      var t, ev := Exec(s, Before(run)), Last(run);
      OkIsConfirmedOrLost(s, Before(run), tid);
      EventOnClaim(t, ev, tid);
      OneMountEach(t, ev, tid);
    }
  }

  lemma OneMountEach(s: Sys, ev: Event, tid: nat)
    ensures Settled(s, tid) ==> !Confirms(s, ev, tid) && !LosesError(s, ev, tid)
    ensures !(Confirms(s, ev, tid) && LosesError(s, ev, tid))
  {}
}
