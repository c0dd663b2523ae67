/** A call whose steps no other event separates is the whole call: the sequential results and the
    results over all interleavings speak of the same steps. */
module Alone {
  import opened Common
  import opened Params
  import opened Cluster
  import opened NodeSteps
  import opened Naming
  import opened ControllerSteps
  import opened System
  import opened StepFacts

  /** The same event `n` times. */
  function Times(ev: Event, n: nat): seq<Event> {
    if n == 0 then [] else Times(ev, n - 1) + [ev]
  }

  lemma TimesOneMore(ev: Event, n: nat)
    requires n > 0
    ensures Times(ev, n) != [] && Before(Times(ev, n)) == Times(ev, n - 1) && Last(Times(ev, n)) == ev
  {}

  /** After `n` steps the rest of the call still leads to the same end. */
  lemma {:induction false} PublishOnItsWay(s: Sys, tid: nat, e: PublishEnv, n: nat)
    requires PublishingAt(s, tid)
    ensures var t := Exec(s, Times(StepPublish(tid, e), n));
            && PublishingAt(t, tid) && t.threads[tid].node == s.threads[tid].node
            && FinishPublish(t.c, t.threads[tid].node, t.threads[tid].p, e)
               == FinishPublish(s.c, s.threads[tid].node, s.threads[tid].p, e)
            && (t.threads[tid].p.Done? || PublishRank(t.threads[tid].p) + n <= PublishRank(s.threads[tid].p))
  {
    hide PublishStep;
    if n > 0 {
      var ev := StepPublish(tid, e);
      PublishOnItsWay(s, tid, e, n - 1);
      TimesOneMore(ev, n);
      var t := Exec(s, Times(ev, n - 1));
      if Enabled(t, ev) {
        PublishNext(t, tid, e);
        PublishStepGoes(t.c, t.threads[tid].node, t.threads[tid].p, e);
      }
    }
  }

  /** NodePublishVolume, scheduled without interruption. */
  lemma PublishAloneIsTheCall(s: Sys, tid: nat, e: PublishEnv)
    requires PublishingAt(s, tid)
    ensures var t := Exec(s, Times(StepPublish(tid, e), 14));
            && PublishingAt(t, tid) && t.threads[tid].p.Done?
            && (t.c, t.threads[tid].p.reply) == FinishPublish(s.c, s.threads[tid].node, s.threads[tid].p, e)
  {
    hide Exec, Times, PublishStep;
    PublishOnItsWay(s, tid, e, 14);
  }

  lemma {:induction false} ExecFrom(s: Sys, ev: Event, run: seq<Event>)
    ensures Exec(s, [ev] + run) == Exec(Next(s, ev), run)
    decreases |run|
  {
    hide Next;
    if run == [] {
      assert [ev] + run == [ev] && Before([ev]) == [];
    } else {
      ExecFrom(s, ev, Before(run));
      assert Before([ev] + run) == [ev] + Before(run);
    }
  }

  /** From the request on: a parsed request, started and left alone, ends as the whole call. */
  lemma RequestAloneIsTheCall(s: Sys, tid: nat, n: string, r: PublishRequest, default: nat, e: PublishEnv)
    requires tid !in s.threads && ParsePublish(r, default).Ok?
    ensures var t := Exec(s, [StartPublish(tid, n, ParsePublish(r, default).value)] + Times(StepPublish(tid, e), 14));
            && PublishingAt(t, tid) && t.threads[tid].p.Done?
            && (t.c, t.threads[tid].p.reply) == PublishCall(s.c, n, r, default, e)
  {
    hide Exec, Times, ParsePublish, FinishPublish, PublishStep;
    var a := ParsePublish(r, default).value;
    var ev := StartPublish(tid, n, a);
    ParsedIsAdmissible(r, default);
    assert Next(s, ev) == s.(threads := s.threads[tid := Publishing(n, ReadPvc(a))]);
    ExecFrom(s, ev, Times(StepPublish(tid, e), 14));
    PublishAloneIsTheCall(Next(s, ev), tid, e);
  }

  /** The attributes a call will visit are those of the PV it will find. */
  ghost predicate WillFit(c: Cluster, u: Unpublish, e: UnpublishEnv) {
    match u
    case Unmount(v, _) => PvById(c.pvs, v).Some? ==> AttributesFit(Scan(v, PvById(c.pvs, v).value), e)
    case FindPv(v) => PvById(c.pvs, v).Some? ==> AttributesFit(Scan(v, PvById(c.pvs, v).value), e)
    case _ => AttributesFit(u, e)
  }

  lemma {:induction false} UnpublishOnItsWay(s: Sys, tid: nat, e: UnpublishEnv, n: nat)
    requires UnpublishingAt(s, tid) && WillFit(s.c, s.threads[tid].u, e)
    ensures var t := Exec(s, Times(StepUnpublish(tid, e), n));
            && UnpublishingAt(t, tid) && t.threads[tid].node == s.threads[tid].node
            && FinishUnpublish(t.c, t.threads[tid].node, t.threads[tid].u, e)
               == FinishUnpublish(s.c, s.threads[tid].node, s.threads[tid].u, e)
            && WillFit(t.c, t.threads[tid].u, e)
            && (t.threads[tid].u.Ended? || UnpublishRank(t.threads[tid].u) + n <= UnpublishRank(s.threads[tid].u))
  {
    if n > 0 {
      var ev := StepUnpublish(tid, e);
      UnpublishOnItsWay(s, tid, e, n - 1);
      TimesOneMore(ev, n);
      var t := Exec(s, Times(ev, n - 1));
      OneStepFits(t, tid, e);
    }
  }

  lemma OneStepFits(t: Sys, tid: nat, e: UnpublishEnv)
    requires UnpublishingAt(t, tid) && WillFit(t.c, t.threads[tid].u, e)
    ensures var t' := Next(t, StepUnpublish(tid, e));
            && UnpublishingAt(t', tid) && t'.threads[tid].node == t.threads[tid].node
            && FinishUnpublish(t'.c, t'.threads[tid].node, t'.threads[tid].u, e)
               == FinishUnpublish(t.c, t.threads[tid].node, t.threads[tid].u, e)
            && WillFit(t'.c, t'.threads[tid].u, e)
            && (t'.threads[tid].u.Ended? || UnpublishRank(t'.threads[tid].u) < UnpublishRank(t.threads[tid].u))
  {
    hide LastValue, PvById, SeenInUse, Enumerates;
    var u := t.threads[tid].u;
    if !u.Ended? {
      assert Enabled(t, StepUnpublish(tid, e));
    }
  }

  /** NodeUnpublishVolume, scheduled without interruption. */
  lemma UnpublishAloneIsTheCall(s: Sys, tid: nat, e: UnpublishEnv)
    requires UnpublishingAt(s, tid) && WillFit(s.c, s.threads[tid].u, e)
    ensures var t := Exec(s, Times(StepUnpublish(tid, e), 7));
            && UnpublishingAt(t, tid) && t.threads[tid].u.Ended?
            && (t.c, t.threads[tid].u.reply) == FinishUnpublish(s.c, s.threads[tid].node, s.threads[tid].u, e)
  {
    hide Exec, Times, UnpublishStep, WillFit;
    UnpublishOnItsWay(s, tid, e, 7);
  }

  lemma UnpublishRequestAloneIsTheCall(s: Sys, tid: nat, n: string, v: string, target: string, e: UnpublishEnv)
    requires tid !in s.threads && v != "" && target != "" && WillFit(s.c, Unmount(v, target), e)
    ensures var t := Exec(s, [StartUnpublish(tid, n, v, target)] + Times(StepUnpublish(tid, e), 7));
            && UnpublishingAt(t, tid) && t.threads[tid].u.Ended?
            && (t.c, t.threads[tid].u.reply) == UnpublishCall(s.c, n, v, target, e)
  {
    hide Exec, Times, UnpublishStep, FinishUnpublish, PvById, AttributesFit;
    var ev := StartUnpublish(tid, n, v, target);
    assert Next(s, ev) == s.(threads := s.threads[tid := Unpublishing(n, Unmount(v, target))]);
    ExecFrom(s, ev, Times(StepUnpublish(tid, e), 7));
    UnpublishAloneIsTheCall(Next(s, ev), tid, e);
  }

  // ---------------------------------------------------------------- the controller's calls

  lemma {:induction false} CreateOnItsWay(s: Sys, tid: nat, e: CreateEnv, n: nat)
    requires tid in s.threads && s.threads[tid].Creating? && (!s.threads[tid].t.Created? ==> UnusedUid(s.c.born, e.uid))
    ensures var u := Exec(s, Times(StepCreate(tid, e), n));
            && tid in u.threads && u.threads[tid].Creating?
            && (!u.threads[tid].t.Created? ==> UnusedUid(u.c.born, e.uid))
            && FinishCreate(u.c, u.threads[tid].t, e) == FinishCreate(s.c, s.threads[tid].t, e)
            && (u.threads[tid].t.Created? || CreateRank(u.threads[tid].t) + n <= CreateRank(s.threads[tid].t))
  {
    hide Next, CreateStep, FinishCreate, UnusedUid;
    if n > 0 {
      var ev := StepCreate(tid, e);
      CreateOnItsWay(s, tid, e, n - 1);
      TimesOneMore(ev, n);
      OneCreateStep(Exec(s, Times(ev, n - 1)), tid, e);
    }
  }

  lemma OneCreateStep(s: Sys, tid: nat, e: CreateEnv)
    requires tid in s.threads && s.threads[tid].Creating? && (!s.threads[tid].t.Created? ==> UnusedUid(s.c.born, e.uid))
    ensures var u := Next(s, StepCreate(tid, e));
            && tid in u.threads && u.threads[tid].Creating?
            && (!u.threads[tid].t.Created? ==> UnusedUid(u.c.born, e.uid))
            && FinishCreate(u.c, u.threads[tid].t, e) == FinishCreate(s.c, s.threads[tid].t, e)
            && (u.threads[tid].t.Created? || CreateRank(u.threads[tid].t) < CreateRank(s.threads[tid].t))
  {
    hide SpecFor, VolumeContext, UnusedUid;
    if !s.threads[tid].t.Created? {
      assert Enabled(s, StepCreate(tid, e));
    }
  }

  lemma CreateAloneIsTheCall(s: Sys, tid: nat, r: CreateRequest, e: CreateEnv)
    requires tid !in s.threads && UnusedUid(s.c.born, e.uid)
    requires r.name != "" && r.capabilities > 0 && ParseStorage(r.params).Ok?
    ensures var start := StartCreate(tid, VolumeIdFor(r.name), ParseStorage(r.params).value, r.size);
            var u := Exec(s, [start] + Times(StepCreate(tid, e), 4));
            && tid in u.threads && u.threads[tid].Creating? && u.threads[tid].t.Created?
            && (u.c, u.threads[tid].t.reply) == CreateCall(s.c, r, e)
  {
    hide Exec, Times, ParseStorage, FinishCreate, VolumeIdFor, UnusedUid;
    var id, p := VolumeIdFor(r.name), ParseStorage(r.params).value;
    VolumeIdCharacters(r.name, FindPvc(r.name, 0));
    var start := StartCreate(tid, id, p, r.size);
    var u := s.(threads := s.threads[tid := Creating(ChooseClass(id, p, r.size))]);
    assert Next(s, start) == u;
    ExecFrom(s, start, Times(StepCreate(tid, e), 4));
    CreateOnItsWay(u, tid, e, 4);
    var w := Exec(u, Times(StepCreate(tid, e), 4));
    assert FinishCreate(w.c, w.threads[tid].t, e) == (w.c, w.threads[tid].t.reply) by {
      CreatedStays(w.c, w.threads[tid].t, e);
    }
  }

  lemma CreatedStays(c: Cluster, t: Create, e: CreateEnv)
    requires t.Created?
    ensures FinishCreate(c, t, e) == (c, t.reply)
  {}

  lemma {:induction false} DeleteOnItsWay(s: Sys, tid: nat, e: DeleteEnv, n: nat)
    requires tid in s.threads && s.threads[tid].Deleting?
    ensures var u := Exec(s, Times(StepDelete(tid, e), n));
            && tid in u.threads && u.threads[tid].Deleting?
            && FinishDelete(u.c, u.threads[tid].d, e, KEYS_AS_READ)
               == FinishDelete(s.c, s.threads[tid].d, e, KEYS_AS_READ)
            && (u.threads[tid].d.Deleted? || DeleteRank(u.threads[tid].d) + n <= DeleteRank(s.threads[tid].d))
  {
    hide PvById;
    if n > 0 {
      var ev := StepDelete(tid, e);
      DeleteOnItsWay(s, tid, e, n - 1);
      TimesOneMore(ev, n);
      var u := Exec(s, Times(ev, n - 1));
      assert !u.threads[tid].d.Deleted? ==> Enabled(u, ev);
    }
  }

  lemma DeleteAloneIsTheCall(s: Sys, tid: nat, v: string, e: DeleteEnv)
    requires tid !in s.threads && v != ""
    ensures var u := Exec(s, [StartDelete(tid, v)] + Times(StepDelete(tid, e), 3));
            && tid in u.threads && u.threads[tid].Deleting? && u.threads[tid].d.Deleted?
            && (u.c, u.threads[tid].d.reply) == DeleteCall(s.c, v, e, KEYS_AS_READ)
  {
    hide Exec, Times, FinishDelete;
    var start := StartDelete(tid, v);
    var u := s.(threads := s.threads[tid := Deleting(FindVolume(v))]);
    assert Next(s, start) == u;
    ExecFrom(s, start, Times(StepDelete(tid, e), 3));
    DeleteOnItsWay(u, tid, e, 3);
    var w := Exec(u, Times(StepDelete(tid, e), 3));
    assert FinishDelete(w.c, w.threads[tid].d, e, KEYS_AS_READ) == (w.c, w.threads[tid].d.reply) by {
      DeletedStays(w.c, w.threads[tid].d, e);
    }
  }

  lemma DeletedStays(c: Cluster, d: Delete, e: DeleteEnv)
    requires d.Deleted?
    ensures FinishDelete(c, d, e, KEYS_AS_READ) == (c, d.reply)
  {}
}
