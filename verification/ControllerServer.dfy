/** CreateVolume and DeleteVolume as the controller server runs them. */
module ControllerServers {
  import opened Common
  import opened Params
  import opened Naming
  import opened Cluster
  import opened Clients
  import opened ControllerSteps

  class ControllerServer {
    const clientSet: ClientSet

    constructor (clientSet: ClientSet)
      ensures this.clientSet == clientSet
    {
      this.clientSet := clientSet;
    }

    /** The controller sees the API server's tables and no mount table. */
    ghost function View(): Cluster
      reads clientSet
    {
      Cluster(clientSet.pvcs, clientSet.born, clientSet.pvs, clientSet.stss, clientSet.svcs, clientSet.pods, map[])
    }

    method CreateVolume(r: CreateRequest, e: CreateEnv) returns (reply: CreateReply)
      requires UnusedUid(clientSet.born, e.uid)
      modifies clientSet
      ensures (View(), reply) == CreateCall(old(View()), r, e)
    {
      hide VolumeIdFor, ParseStorage, SpecFor, VolumeContext;
      if |r.name| == 0 {
        return Refused(InvalidArgument);
      }
      if r.capabilities == 0 {
        return Refused(InvalidArgument);
      }
      var parsed := ParseStorageParams(r.params);
      if parsed.Err? {
        return Refused(parsed.code);
      }
      var v := Prepare(VolumeIdFor(r.name), parsed.value, r.size, e);
      reply := EnsureDataPvc(v, e);
    }

    /** The default StorageClass is looked for only when none is given. */
    method Prepare(id: string, p: StorageParams, size: int, e: CreateEnv) returns (v: VolumeSpec)
      ensures v == SpecFor(id, p, size, e)
    {
      var dataSC := p.storageClass;
      if dataSC == "" {
        if e.classes.Some? {
          var classes := e.classes.value;
          for i := 0 to |classes|
            invariant FirstDefault(classes) == FirstDefault(classes[i..])
            invariant dataSC == ""
          {
            if IsDefault(classes[i]) {
              dataSC := classes[i].name;
              break;
            }
          }
        }
      }
      var image := p.image;
      if image == "" {
        image := DEFAULT_IMAGE;
      }
      v := VolumeSpec(id, p.pvcNs, dataSC, image, p.hostsAllow, size);
    }

    /** Get the data PVC, or create it. */
    method EnsureDataPvc(v: VolumeSpec, e: CreateEnv) returns (reply: CreateReply)
      requires UnusedUid(clientSet.born, e.uid)
      modifies clientSet
      ensures (View(), reply) == FinishCreate(old(View()), GetPvc(v), e)
    {
      hide VolumeContext;
      ghost var c0 := View();
      var dataPvc := clientSet.GetPvc(DataPvcKey(v), e.pvcGet);
      reply := Volume(v.volumeID, VolumeContext(v));
      if dataPvc.None? {
        var ok := clientSet.CreatePvc(DataPvcKey(v), NewPvc(v, e.uid), e.pvcCreate);
        if !ok {
          reply := Refused(Canceled);
        }
        ghost var (c1, t1) := CreateStep(c0, CreatePvc(v), e);
        assert FinishCreate(c1, t1, e) == (c1, t1.reply);
        assert FinishCreate(c0, CreatePvc(v), e) == (View(), reply);
      } else {
        assert FinishCreate(c0, Created(reply), e) == (c0, reply);
      }
    }

    method DeleteVolume(v: string, e: DeleteEnv) returns (reply: Reply)
      modifies clientSet
      ensures (View(), reply) == DeleteCall(old(View()), v, e, KEYS_AS_READ)
    {
      if v == "" {
        return Error(InvalidArgument);
      }
      ghost var c0 := View();
      var found := clientSet.GetPvById(v, e.pvList);
      reply := Okay;
      if found.None? {
        assert FinishDelete(c0, Deleted(Okay), e, KEYS_AS_READ) == (c0, Okay);
      } else {
        var m := found.value.csi.value.attributes;
        var k := Key(At(m, "nfsNamespace"), At(m, "nfsVolumeClaim"));
        var _ := clientSet.DeletePvc(k, e.pvcDelete);
        ghost var (c1, t1) := DeleteStep(c0, DeletePvc(k), e, KEYS_AS_READ);
        assert FinishDelete(c1, t1, e, KEYS_AS_READ) == (c1, t1.reply);
        assert FinishDelete(c0, DeletePvc(k), e, KEYS_AS_READ) == (View(), reply);
      }
    }
  }
}
