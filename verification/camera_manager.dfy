/**
 * The in-process camera registry: a map from camera id to its entry, each
 * entry either recording (a running capture session) or stopped. Sessions
 * are abstracted to the running flag; a session stops only when asked to.
 */
module CameraManager {

  /** The duration stored when the one given is not positive, in seconds. */
  const DefaultSegmentDuration: int := 300

  const RunningStatus: string := "running"
  const StoppedStatus: string := "stopped"

  /** One registered camera. */
  datatype CameraEntry = CameraEntry(
    id: string,
    rtspUrl: string,
    storagePath: string,
    segmentDuration: int,
    running: bool)

  type Cameras = map<string, CameraEntry>

  /** Every entry is filed under its own id, with its fields set and a positive duration. */
  predicate Valid(cameras: Cameras) {
    forall id :: id in cameras ==>
      && cameras[id].id == id
      && id != "" && cameras[id].rtspUrl != "" && cameras[id].storagePath != ""
      && cameras[id].segmentDuration > 0
  }

  /**
   * `addCamera`: refused when a field is empty or the id is taken; otherwise
   * a stopped entry is added, a duration that is not positive becoming 300.
   */
  function AddCamera(cameras: Cameras, id: string, rtspUrl: string, storagePath: string, segmentDuration: int)
    : (r: (bool, Cameras))
    requires Valid(cameras)
    ensures Valid(r.1)
    ensures r.0 <==> id != "" && rtspUrl != "" && storagePath != "" && id !in cameras
    ensures !r.0 ==> r.1 == cameras
    ensures r.0 ==> r.1.Keys == cameras.Keys + {id}
    ensures r.0 ==> forall other :: other in cameras ==> r.1[other] == cameras[other]
    ensures r.0 ==> !r.1[id].running && r.1[id].rtspUrl == rtspUrl && r.1[id].storagePath == storagePath
    ensures r.0 ==> r.1[id].segmentDuration == (if segmentDuration > 0 then segmentDuration else DefaultSegmentDuration)
  {
    if id == "" || rtspUrl == "" || storagePath == "" then (false, cameras)
    else if id in cameras then (false, cameras)
    else
      var duration := if segmentDuration <= 0 then DefaultSegmentDuration else segmentDuration;
      (true, cameras[id := CameraEntry(id, rtspUrl, storagePath, duration, false)])
  }

  /** `removeCamera`: refused for an unknown or recording camera; otherwise exactly that entry goes. */
  function RemoveCamera(cameras: Cameras, id: string): (r: (bool, Cameras))
    requires Valid(cameras)
    ensures Valid(r.1)
    ensures r.0 <==> id in cameras && !cameras[id].running
    ensures !r.0 ==> r.1 == cameras
    ensures r.0 ==> r.1.Keys == cameras.Keys - {id}
    ensures forall other :: other in r.1 ==> other in cameras && r.1[other] == cameras[other]
  {
    if id !in cameras then (false, cameras)
    else if cameras[id].running then (false, cameras)
    else (true, cameras - {id})
  }

  /** `startRecording`: refused for an unknown or already recording camera; otherwise it starts recording. */
  function StartRecording(cameras: Cameras, id: string): (r: (bool, Cameras))
    requires Valid(cameras)
    ensures Valid(r.1)
    ensures r.0 <==> id in cameras && !cameras[id].running
    ensures !r.0 ==> r.1 == cameras
    ensures r.1.Keys == cameras.Keys
    ensures r.0 ==> r.1[id] == cameras[id].(running := true)
    ensures forall other :: other in cameras && other != id ==> r.1[other] == cameras[other]
  {
    if id !in cameras then (false, cameras)
    else if cameras[id].running then (false, cameras)
    else (true, cameras[id := cameras[id].(running := true)])
  }

  /** `stopRecording`: refused for an unknown or stopped camera; otherwise it stops. */
  function StopRecording(cameras: Cameras, id: string): (r: (bool, Cameras))
    requires Valid(cameras)
    ensures Valid(r.1)
    ensures r.0 <==> id in cameras && cameras[id].running
    ensures !r.0 ==> r.1 == cameras
    ensures r.1.Keys == cameras.Keys
    ensures r.0 ==> r.1[id] == cameras[id].(running := false)
    ensures forall other :: other in cameras && other != id ==> r.1[other] == cameras[other]
  {
    if id !in cameras then (false, cameras)
    else if !cameras[id].running then (false, cameras)
    else (true, cameras[id := cameras[id].(running := false)])
  }

  /** The status word of an entry. */
  function StatusOf(entry: CameraEntry): string {
    if entry.running then RunningStatus else StoppedStatus
  }

  /** `getStatus`: empty for an unknown camera, else "running" or "stopped". */
  function GetStatus(cameras: Cameras, id: string): (s: string)
    ensures s == "" <==> id !in cameras
    ensures s == RunningStatus <==> id in cameras && cameras[id].running
    ensures s == StoppedStatus <==> id in cameras && !cameras[id].running
  {
    if id !in cameras then "" else StatusOf(cameras[id])
  }

  /** `cameraExists`: whether the id is registered. */
  function CameraExists(cameras: Cameras, id: string): (b: bool)
    ensures b <==> GetStatus(cameras, id) != ""
  {
    id in cameras
  }

  /** `stopAll`: every camera stops; the set of cameras and their settings stay. */
  function StopAll(cameras: Cameras): (r: Cameras)
    requires Valid(cameras)
    ensures Valid(r)
    ensures r.Keys == cameras.Keys
    ensures forall id :: id in r ==> r[id] == cameras[id].(running := false)
    ensures forall id :: id in r ==> GetStatus(r, id) == StoppedStatus
  {
    map id | id in cameras :: cameras[id].(running := false)
  }

  /** The ids of a set, each once, in an order the model leaves open (the hash map's iteration order). */
  method InSomeOrder(ids: set<string>) returns (order: seq<string>)
    ensures |order| == |ids|
    ensures forall id :: id in order <==> id in ids
    ensures forall i, j :: 0 <= i < j < |order| ==> order[i] != order[j]
  {
    order := [];
    var left := ids;
    while left != {}
      invariant left <= ids
      invariant |order| + |left| == |ids|
      invariant forall id :: id in order <==> id in ids && id !in left
      invariant forall i, j :: 0 <= i < j < |order| ==> order[i] != order[j]
      decreases |left|
    {
      var id :| id in left;
      order := order + [id];
      left := left - {id};
    }
  }

  /** `listCameras`: one (id, status) pair per registered camera, in iteration order. */
  method ListCameras(cameras: Cameras) returns (out: seq<(string, string)>)
    ensures |out| == |cameras|
    ensures forall id, status :: (id, status) in out <==> id in cameras && status == GetStatus(cameras, id)
    ensures forall i, j :: 0 <= i < j < |out| ==> out[i].0 != out[j].0
  {
    var order := InSomeOrder(cameras.Keys);
    out := seq(|order|, i requires 0 <= i < |order| => (order[i], GetStatus(cameras, order[i])));
    forall id, status | (id, status) in out
      ensures id in cameras && status == GetStatus(cameras, id)
    {
      var i :| 0 <= i < |out| && out[i] == (id, status);
      assert order[i] in order;
    }
    forall id | id in cameras
      ensures (id, GetStatus(cameras, id)) in out
    {
      var i :| 0 <= i < |order| && order[i] == id;
      assert out[i] == (id, GetStatus(cameras, id));
    }
  }

  /** Starting then stopping a stopped camera gives back the registry it started from. */
  lemma {:induction false} StartStopRoundTrip(cameras: Cameras, id: string)
    requires Valid(cameras)
    requires id in cameras && !cameras[id].running
    ensures var (started, mid) := StartRecording(cameras, id);
            var (stopped, last) := StopRecording(mid, id);
            started && stopped && last == cameras
  {
    var (_, mid) := StartRecording(cameras, id);
    var (_, last) := StopRecording(mid, id);
    assert last.Keys == cameras.Keys;
  }

  /** Removing a camera just added gives back the registry it was added to. */
  lemma {:induction false} AddRemoveRoundTrip(cameras: Cameras, id: string, rtspUrl: string, storagePath: string, segmentDuration: int)
    requires Valid(cameras)
    requires id != "" && rtspUrl != "" && storagePath != "" && id !in cameras
    ensures var (added, mid) := AddCamera(cameras, id, rtspUrl, storagePath, segmentDuration);
            var (removed, last) := RemoveCamera(mid, id);
            added && removed && last == cameras
  {
    var (_, mid) := AddCamera(cameras, id, rtspUrl, storagePath, segmentDuration);
    var (_, last) := RemoveCamera(mid, id);
    assert last.Keys == cameras.Keys;
  }

  /** A recording camera cannot be removed until it is stopped, after which it can. */
  lemma {:induction false} RemoveNeedsStop(cameras: Cameras, id: string)
    requires Valid(cameras)
    requires id in cameras && cameras[id].running
    ensures !RemoveCamera(cameras, id).0
    ensures RemoveCamera(StopRecording(cameras, id).1, id).0
  {
  }

  /** Stopping everything twice is stopping it once, and afterwards no camera can be stopped. */
  lemma {:induction false} StopAllIdempotent(cameras: Cameras)
    requires Valid(cameras)
    ensures StopAll(StopAll(cameras)) == StopAll(cameras)
    ensures forall id :: !StopRecording(StopAll(cameras), id).0
  {
    assert StopAll(StopAll(cameras)).Keys == StopAll(cameras).Keys;
  }

  /** A camera added with a zero duration reports "stopped" and records in 300-second segments. */
  lemma {:induction false} AddedCameraListedStopped(cameras: Cameras, id: string, rtspUrl: string, storagePath: string)
    requires Valid(cameras)
    requires id != "" && rtspUrl != "" && storagePath != "" && id !in cameras
    ensures var (_, after) := AddCamera(cameras, id, rtspUrl, storagePath, 0);
            GetStatus(after, id) == StoppedStatus && after[id].segmentDuration == DefaultSegmentDuration
  {
  }
}
