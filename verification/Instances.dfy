/** One small volume, a pod that uses it, and what the world answers to calls about them. */
module Instances {
  import opened Common
  import opened Params
  import opened Polling
  import opened Cluster
  import opened NodeSteps

  const ARGS := Args("v", "/t", [], 0, "data", "d", "img", "", "p", "f")
  const CLAIM := Key("f", "claim")
  const VOLUME := Pv(Some(CsiSource("v", map[PARAM_DATA_NAMESPACE := "d"])), Some(CLAIM))
  const POD := AppPod([Some("claim")], "")

  /** The backend pod runs on this node. */
  const PENV := PublishEnv(
    true, true, true, "pu", [Seen(Running)], Present, "/k", Listing(["x"]), true,
    None, false, true, true, "ip", [ProbeSuccess], None, true)

  const UENV := UnpublishEnv(Unmounted, true, true, [Entry(PARAM_DATA_NAMESPACE, "d")], true, true, [])

  /** Nothing but the data PVC and the PV. */
  const BARE := Cluster(
    map[Key("d", "data") := Pvc("u", "", "", 1)], {(Key("d", "data"), "u")}, [VOLUME], map[], map[], map[], map[])
}
