/** The handlers as written do not keep teardown safety: a concrete run in which every pod stays
    listed, every list succeeds and every owner is kept, and a mount loses its StatefulSet.

    Node n1 repeats an unpublish; its scan sees no pod.  Then a pod appears on node n2 and its
    publish succeeds.  Only then does n1 get to its deletes. */
module TeardownRace {
  import opened Common
  import opened Params
  import opened Cluster
  import opened NodeSteps
  import opened System
  import opened Safety
  import opened Agreement
  import opened Instances

  const AT := MountPoint("n2", "/t")

  /** The cluster, by what has happened so far. */
  function Now(pod: bool, sts: bool, mounted: bool): Cluster {
    Cluster(
      map[Key("d", "data") := Pvc("u", "", "", 1)], {(Key("d", "data"), "u")}, [VOLUME],
      if sts then map[Key("d", "v") := NewSts(ARGS, "u")] else map[], map[],
      if pod then map[Key("f", "p") := POD] else map[],
      if mounted then map[AT := BindOf(ARGS, LocalSource(PENV, "pu", "u"))] else map[])
  }

  function Down(c: Cluster, u: Unpublish): Sys {
    Sys(c, map[0 := Unpublishing("n1", u)])
  }

  function Both(c: Cluster, u: Unpublish, p: Publish): Sys {
    Sys(c, map[0 := Unpublishing("n1", u), 1 := Publishing("n2", p)])
  }

  const START := Sys(Now(false, false, false), map[])
  const WINDOW := DeleteSts("v", "d")

  /** `run` leads from the start to `t`, well-behaved all the way. */
  ghost predicate Leads(run: seq<Event>, t: Sys) {
    Exec(START, run) == t && WellBehaved(START, run)
  }

  lemma Extend(run: seq<Event>, t: Sys, ev: Event, t': Sys) returns (run': seq<Event>)
    requires Leads(run, t) && Next(t, ev) == t'
    requires ScanRule(t, ev) && UsersListed(t') && OwnersKept(t')
    ensures Leads(run', t')
  {
    run' := run + [ev];
    assert Before(run') == run && Last(run') == ev;
  }

  lemma PodIsListed(sts: bool, mounted: bool)
    ensures Listed(Now(true, sts, mounted), "v", Key("f", "p"))
  {}

  lemma Behaves(sts: bool, mounted: bool, u: Unpublish, p: Publish)
    requires p.Done? || p.a == ARGS
    ensures UsersListed(Both(Now(true, sts, mounted), u, p)) && OwnersKept(Both(Now(true, sts, mounted), u, p))
  {
    PodIsListed(sts, mounted);
  }

  /** One step of the teardown, before any publish. */
  lemma Lowers(run: seq<Event>, u: Unpublish, u': Unpublish) returns (run': seq<Event>)
    requires Leads(run, Down(Now(false, false, false), u)) && !u.Ended?
    requires u.Scan? ==> u == Scan("v", VOLUME)
    requires Next(Down(Now(false, false, false), u), StepUnpublish(0, UENV)) == Down(Now(false, false, false), u')
    ensures Leads(run', Down(Now(false, false, false), u'))
  {
    hide Next;
    var t, t' := Down(Now(false, false, false), u), Down(Now(false, false, false), u');
    assert PvById([VOLUME], "v") == Some(VOLUME);
    assert UsersListed(t') && OwnersKept(t');
    run' := Extend(run, t, StepUnpublish(0, UENV), t');
  }

  lemma Unmounts()
    ensures Next(Down(Now(false, false, false), Unmount("v", "/t")), StepUnpublish(0, UENV))
         == Down(Now(false, false, false), FindPv("v"))
  {
    hide LocalSource;
    var c := Now(false, false, false);
    assert c.mounts - {MountPoint("n1", "/t")} == c.mounts;
  }

  lemma FindsPv()
    ensures Next(Down(Now(false, false, false), FindPv("v")), StepUnpublish(0, UENV))
         == Down(Now(false, false, false), Scan("v", VOLUME))
  {
    hide LocalSource;
    assert PvById([VOLUME], "v") == Some(VOLUME);
  }

  lemma TeardownStarts() returns (run: seq<Event>)
    ensures Leads(run, Down(Now(false, false, false), Unmount("v", "/t")))
  {
    hide LocalSource;
    run := [];
    assert UsersListed(START) && OwnersKept(START);
    run := Extend(run, START, StartUnpublish(0, "n1", "v", "/t"), Down(Now(false, false, false), Unmount("v", "/t")));
  }

  lemma WindowOpens() returns (run: seq<Event>)
    ensures Leads(run, Down(Now(false, false, false), WINDOW))
  {
    hide Next, Leads, Now;
    run := TeardownStarts();
    Unmounts();
    run := Lowers(run, Unmount("v", "/t"), FindPv("v"));
    FindsPv();
    run := Lowers(run, FindPv("v"), Scan("v", VOLUME));
    ScansNothing();
    run := Lowers(run, Scan("v", VOLUME), WINDOW);
  }

  lemma PublishStarts() returns (run: seq<Event>)
    ensures Leads(run, Both(Now(true, false, false), WINDOW, ReadPvc(ARGS)))
  {
    hide Leads;
    run := WindowOpens();
    var c, c' := Now(false, false, false), Now(true, false, false);
    run := Extend(run, Down(c, WINDOW), SetPod(Key("f", "p"), POD), Down(c', WINDOW));
    Behaves(false, false, WINDOW, ReadPvc(ARGS));
    run := Extend(run, Down(c', WINDOW), StartPublish(1, "n2", ARGS), Both(c', WINDOW, ReadPvc(ARGS)));
  }

  lemma ScansNothing()
    ensures var s := Down(Now(false, false, false), Scan("v", VOLUME));
            Next(s, StepUnpublish(0, UENV)) == Down(Now(false, false, false), WINDOW)
  {
    hide Classify, LocalSource;
    WrittenKeysClassify();
    assert Enumerates(UENV.attributes, VOLUME.csi.value.attributes);
    assert LastValue(UENV.attributes, DataNamespace) == "d";
  }

  /** One step of the publish, inside the open window. */
  lemma Goes(run: seq<Event>, sts: bool, mounted: bool, p: Publish, sts': bool, mounted': bool, p': Publish)
    returns (run': seq<Event>)
    requires Leads(run, Both(Now(true, sts, mounted), WINDOW, p)) && !p.Done?
    requires PublishStep(Now(true, sts, mounted), "n2", p, PENV) == (Now(true, sts', mounted'), p')
    requires p'.Done? || p'.a == ARGS
    ensures Leads(run', Both(Now(true, sts', mounted'), WINDOW, p'))
  {
    hide PublishStep, Now, UsersListed, OwnersKept;
    var t, t' := Both(Now(true, sts, mounted), WINDOW, p), Both(Now(true, sts', mounted'), WINDOW, p');
    Behaves(sts', mounted', WINDOW, p');
    assert t.threads[1 := Publishing("n2", p')] == t'.threads;
    run' := Extend(run, t, StepPublish(1, PENV), t');
  }

  lemma PublishSucceeds() returns (run: seq<Event>)
    ensures Leads(run, Both(Now(true, true, true), WINDOW, Done(Okay)))
  {
    hide LocalSource, Leads;
    var src := LocalSource(PENV, "pu", "u");
    run := PublishStarts();
    run := Goes(run, false, false, ReadPvc(ARGS), false, false, GetSts(ARGS, "u"));
    run := Goes(run, false, false, GetSts(ARGS, "u"), false, false, CreateSts(ARGS, "u"));
    run := Goes(run, false, false, CreateSts(ARGS, "u"), true, false, ReadPod(ARGS, "u"));
    run := Goes(run, true, false, ReadPod(ARGS, "u"), true, false, WaitPod(ARGS, "u", "pu"));
    run := Goes(run, true, false, WaitPod(ARGS, "u", "pu"), true, false, CheckTarget(ARGS, "u", "pu"));
    run := Goes(run, true, false, CheckTarget(ARGS, "u", "pu"), true, false, ChooseSource(ARGS, "u", "pu"));
    SourceIsThere();
    run := Goes(run, true, false, ChooseSource(ARGS, "u", "pu"), true, false, BindMount(ARGS, "u", src));
    run := Goes(run, true, false, BindMount(ARGS, "u", src), true, true, Annotate(ARGS, "u"));
    run := Goes(run, true, true, Annotate(ARGS, "u"), true, true, Report(ARGS, "u", None));
    run := Goes(run, true, true, Report(ARGS, "u", None), true, true, Done(Okay));
  }

  lemma SourceIsThere()
    ensures GoesLocal(PENV, "pu", "u")
  {}

  lemma LateDelete()
    ensures Next(Both(Now(true, true, true), WINDOW, Done(Okay)), StepUnpublish(0, UENV))
         == Both(Now(true, false, true), DeleteSvc("v", "d"), Done(Okay))
  {
    hide LocalSource, Classify;
    var t := Both(Now(true, true, true), WINDOW, Done(Okay));
    assert Now(true, true, true).stss - {Key("d", "v")} == map[];
    assert t.threads[0 := Unpublishing("n1", DeleteSvc("v", "d"))]
        == Both(Now(true, false, true), DeleteSvc("v", "d"), Done(Okay)).threads;
  }

  /** The late delete gets through: the publish has answered OK, its mount is there, and the
      StatefulSet behind it is gone. */
  lemma {:induction false} WrittenTeardownIsUnsafe() returns (run: seq<Event>)
    ensures Initial(START) && WellBehaved(START, run) && !AlwaysSafe(START, run)
    ensures var s := Exec(START, run);
            && PublishingAt(s, 1) && s.threads[1].p == Done(Okay)
            && MountRelies(s, AT, Export(ARGS)) && Export(ARGS) !in s.c.stss
  {
    hide LocalSource, Next;
    run := PublishSucceeds();
    LateDelete();
    var t := Both(Now(true, true, true), WINDOW, Done(Okay));
    var t' := Both(Now(true, false, true), DeleteSvc("v", "d"), Done(Okay));
    Behaves(false, true, DeleteSvc("v", "d"), Done(Okay));
    run := Extend(run, t, StepUnpublish(0, UENV), t');
    assert MountRelies(t', AT, Export(ARGS));
  }
}
