/** A concrete input for each way in which a call misses its evident intent. */
module Failures {
  import opened Common
  import opened Params
  import opened SourceDir
  import opened Cluster
  import opened NodeSteps
  import opened Outcome
  import opened Honesty
  import opened Retry
  import opened Undo
  import opened Agreement
  import opened ClaimLookup
  import opened Instances

  /** The backend pod runs elsewhere: its directory here is empty. */
  const OVER_NFS := PENV.(dir := Listing([]))

  /** The NFS mount fails, and the answer is OK. */
  lemma OkWithoutMount()
    ensures var (c, reply) := FinishPublish(BARE, "n", ReadPvc(ARGS), OVER_NFS.(nfsErr := Some(OtherError)));
            reply == Okay && MountPoint("n", "/t") !in c.mounts
  {
    hide FinishPublish;
    OkWithoutMountIff(BARE, "n", ARGS, OVER_NFS.(nfsErr := Some(OtherError)));
  }

  /** The pod's directory cannot be read, the NFS mount succeeds, and the answer is an error. */
  lemma ErrorDespiteMount()
    ensures var (c, reply) := FinishPublish(BARE, "n", ReadPvc(ARGS), PENV.(dir := UnreadableDir(OtherError)));
            reply.Error? && MountPoint("n", "/t") in c.mounts
  {
    hide FinishPublish;
    ErrorDespiteMountIff(BARE, "n", ARGS, PENV.(dir := UnreadableDir(OtherError)));
  }

  const READONLY := PublishRequest(
    Some([]), "v", "/t", true,
    [Entry(PARAM_DATA_VOLUME_CLAIM, "data"), Entry(PARAM_DATA_NAMESPACE, "d")])

  lemma ReadonlyParses()
    ensures ParsePublish(READONLY, 0) == Ok(Args("v", "/t", ["ro"], 0, "data", "d", DEFAULT_IMAGE, "", "", ""))
  {
    hide Classify;
    WrittenKeysClassify();
    var es := READONLY.context;
    hide LastValue, LastPermissions, Values;
    ContextOfNone(["ro"], 0);
    ContextOneMore(es, 0, ["ro"], 0);
    ContextOneMore(es, 1, ["ro"], 0);
    assert es[..0] == [] && es[..2] == es;
    assert [] + ["ro"] == ["ro"];
  }

  /** A read-only request is bind-mounted without "ro". */
  lemma ReadonlyDropped()
    ensures var c := PublishCall(BARE, "n", READONLY, 0, PENV).0;
            MountPoint("n", "/t") in c.mounts && "ro" !in c.mounts[MountPoint("n", "/t")].options
  {
    hide FinishPublish, ParsePublish, PublishCall;
    ReadonlyParses();
    ReadonlyHonouredIff(BARE, "n", READONLY, 0, PENV);
  }

  /** Two plugin directories: the search goes on and takes the second. */
  lemma SecondDirectoryWins(dir: string, pvcUid: string)
    ensures Source(dir, ["a", "b"], pvcUid) != FirstSource(dir, ["a", "b"], pvcUid)
  {
    hide Source, FirstSource;
    LastMatchAgreesIff(dir, ["a", "b"], pvcUid, 0, 1);
  }

  /** A PV bound to no claim. */
  lemma UnpublishPanics()
    ensures UnpublishCall(BARE.(pvs := [VOLUME.(claim := None)]), "n", "v", "/t", UENV).1 == Panic
  {
    hide UnpublishCall;
    UnpublishPanicsIff(BARE.(pvs := [VOLUME.(claim := None)]), "n", "v", "/t", UENV);
  }

  /** The delete of the StatefulSet fails, and the answer is OK. */
  lemma ExportLeftBehind()
    ensures var c := BARE.(stss := map[Export(ARGS) := NewSts(ARGS, "u")]);
            var (c', reply) := UnpublishCall(c, "n", "v", "/t", UENV.(stsDelete := false));
            reply == Okay && Export(ARGS) in c'.stss
  {
    hide UnpublishCall, LastValue;
    var c := BARE.(stss := map[Export(ARGS) := NewSts(ARGS, "u")]);
    UnpublishOutcome(c, "n", "v", "/t", UENV.(stsDelete := false));
    ExportLeftBehindIff(c, "n", "v", "/t", UENV.(stsDelete := false), Export(ARGS));
  }

  /** A UID that no claim has. */
  lemma LookupIsWrong()
    ensures PvcByUid(Some([Claim("a", "1")]), "2") == Some(Claim("a", "1"))
  {
    LookupIsRightIff([Claim("a", "1")], "2");
  }

  /** A call over NFS makes the Service and then times out; the backend pod moves to this node; the
      good call binds, and the Service it would not have made stays. */
  lemma RetryLeavesService()
    ensures var c1 := Call(BARE, "n", ARGS, OVER_NFS.(tcpTrace := [])).0;
            TablesOf(Call(c1, "n", ARGS, PENV).0) != TablesOf(Call(BARE, "n", ARGS, PENV).0)
  {
    hide Call;
    var e := OVER_NFS.(tcpTrace := []);
    RetryAfterOtherViewIff(BARE, "n", ARGS, e, PENV);
    assert MakesSvc(BARE, "n", ARGS, e) && !MakesSvc(BARE, "n", ARGS, PENV);
  }
}
