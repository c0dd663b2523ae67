/** The whole system: any number of handler calls in flight on any number of nodes, over one
    cluster state, with users and controllers changing that state in between.

    A run is a sequence of events.  What the world answers to a step is part of the event, so a
    run determines the state it leads to, and every sequence of events is one: an event that cannot
    happen in its state is passed over. */
module System {
  import opened Common
  import opened Params
  import opened Cluster
  import opened NodeSteps
  import opened ControllerSteps

  datatype Thread =
    | Publishing(node: string, p: Publish)
    | Unpublishing(node: string, u: Unpublish)
    | Creating(t: Create)
    | Deleting(d: Delete)

  datatype Sys = Sys(c: Cluster, threads: map<nat, Thread>)

  datatype Event =
    // handler calls
    | StartPublish(tid: nat, node: string, a: Args)
    | StepPublish(tid: nat, pe: PublishEnv)
    | StartUnpublish(tid: nat, node: string, volumeID: string, target: string)
    | StepUnpublish(tid: nat, ue: UnpublishEnv)
    | StartCreate(tid: nat, id: string, params: StorageParams, size: int)
    | StepCreate(tid: nat, ce: CreateEnv)
    | StartDelete(tid: nat, volumeID: string)
    | StepDelete(tid: nat, de: DeleteEnv)
    // users, provisioner, kubelet
    | AddPvc(k: Key, pvc: Pvc)
    | RemovePvc(k: Key)
    | SetPvs(pvs: seq<Pv>)
    | SetPod(k: Key, pod: AppPod)
    | RemovePod(k: Key)
    // garbage collector
    | CollectSts(k: Key)
    | CollectSvc(k: Key)

  /** What ParsePublish guarantees of the arguments of an admitted call. */
  predicate Admissible(a: Args) {
    a.volumeID != "" && a.target != "" && a.dataPvc != "" && a.dataNs != "" && a.image != ""
  }

  lemma ParsedIsAdmissible(r: PublishRequest, default: nat)
    requires ParsePublish(r, default).Ok?
    ensures Admissible(ParsePublish(r, default).value)
  {
    hide ParseContext;
  }

  /** The owner named by an object of namespace `ns` is gone. */
  predicate Orphan(c: Cluster, ns: string, o: Owner) {
    !(Key(ns, o.name) in c.pvcs && c.pvcs[Key(ns, o.name)].uid == o.uid)
  }

  predicate PublishingAt(s: Sys, tid: nat) {
    tid in s.threads && s.threads[tid].Publishing?
  }

  predicate UnpublishingAt(s: Sys, tid: nat) {
    tid in s.threads && s.threads[tid].Unpublishing?
  }

  ghost predicate Enabled(s: Sys, ev: Event) {
    match ev
    case StartPublish(tid, _, a) => tid !in s.threads && Admissible(a)
    case StepPublish(tid, _) => PublishingAt(s, tid) && !s.threads[tid].p.Done?
    case StartUnpublish(tid, _, v, target) => tid !in s.threads && v != "" && target != ""
    case StepUnpublish(tid, e) =>
      UnpublishingAt(s, tid) && !s.threads[tid].u.Ended? && AttributesFit(s.threads[tid].u, e)
    case StartCreate(tid, id, _, _) => tid !in s.threads && id != ""
    case StepCreate(tid, e) =>
      tid in s.threads && s.threads[tid].Creating? && !s.threads[tid].t.Created? && UnusedUid(s.c.born, e.uid)
    case StartDelete(tid, v) => tid !in s.threads && v != ""
    case StepDelete(tid, _) => tid in s.threads && s.threads[tid].Deleting? && !s.threads[tid].d.Deleted?
    case AddPvc(k, pvc) => Addressable(k) && k !in s.c.pvcs && UnusedUid(s.c.born, pvc.uid)
    case RemovePvc(k) => k in s.c.pvcs
    case SetPvs(_) => true
    case SetPod(_, _) => true
    case RemovePod(k) => k in s.c.pods
    case CollectSts(k) => k in s.c.stss && Orphan(s.c, k.ns, s.c.stss[k].owner)
    case CollectSvc(k) => k in s.c.svcs && Orphan(s.c, k.ns, s.c.svcs[k].owner)
  }

  ghost function Apply(s: Sys, ev: Event): Sys
    requires Enabled(s, ev)
  {
    match ev
    case StartPublish(tid, n, a) => s.(threads := s.threads[tid := Publishing(n, ReadPvc(a))])
    case StepPublish(tid, e) =>
      var Publishing(n, p) := s.threads[tid];
      var (c', p') := PublishStep(s.c, n, p, e);
      Sys(c', s.threads[tid := Publishing(n, p')])
    case StartUnpublish(tid, n, v, target) => s.(threads := s.threads[tid := Unpublishing(n, Unmount(v, target))])
    case StepUnpublish(tid, e) =>
      var Unpublishing(n, u) := s.threads[tid];
      var (c', u') := UnpublishStep(s.c, n, u, e);
      Sys(c', s.threads[tid := Unpublishing(n, u')])
    case StartCreate(tid, id, p, size) => s.(threads := s.threads[tid := Creating(ChooseClass(id, p, size))])
    case StepCreate(tid, e) =>
      var (c', t') := CreateStep(s.c, s.threads[tid].t, e);
      Sys(c', s.threads[tid := Creating(t')])
    case StartDelete(tid, v) => s.(threads := s.threads[tid := Deleting(FindVolume(v))])
    case StepDelete(tid, e) =>
      var (c', d') := DeleteStep(s.c, s.threads[tid].d, e, KEYS_AS_READ);
      Sys(c', s.threads[tid := Deleting(d')])
    case AddPvc(k, pvc) => s.(c := s.c.(pvcs := s.c.pvcs[k := pvc], born := s.c.born + {(k, pvc.uid)}))
    case RemovePvc(k) => s.(c := s.c.(pvcs := s.c.pvcs - {k}))
    case SetPvs(pvs) => s.(c := s.c.(pvs := pvs))
    case SetPod(k, pod) => s.(c := s.c.(pods := s.c.pods[k := pod]))
    case RemovePod(k) => s.(c := s.c.(pods := s.c.pods - {k}))
    case CollectSts(k) => s.(c := s.c.(stss := s.c.stss - {k}))
    case CollectSvc(k) => s.(c := s.c.(svcs := s.c.svcs - {k}))
  }

  // ---------------------------------------------------------------- runs

  /** One event; an event that cannot happen is passed over. */
  ghost function Next(s: Sys, ev: Event): Sys {
    if Enabled(s, ev) then Apply(s, ev) else s
  }

  /** The state `run` leads to. */
  ghost function Exec(s: Sys, run: seq<Event>): Sys
    decreases |run|
  {
    if run == [] then s else Next(Exec(s, Before(run)), Last(run))
  }

  /** No driver object, no mount and no call yet; claims, volumes and pods may exist. */
  ghost predicate Initial(s: Sys) {
    && s.threads == map[] && s.c.stss == map[] && s.c.svcs == map[] && s.c.mounts == map[]
    && (forall k :: k in s.c.pvcs ==> (k, s.c.pvcs[k].uid) in s.c.born)
    && (forall b, d :: b in s.c.born && d in s.c.born && b.1 == d.1 ==> b == d)
  }
}
