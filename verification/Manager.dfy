/** The manager's placement of cameras on its workers. */
module Manager {
  import opened StreamProfiles
  import opened Worker
  import ChannelPool

  /** Every placement is the one the numbering gives. */
  predicate Placement(placed: map<int, int>, profile: StreamProfile, n: nat)
    requires n > 0
  {
    forall c: int {:trigger placed[c]} :: c in placed ==>
      c >= 0 && placed[c] == ChannelPool.WorkerOf(ChannelPool.Stream(c, profile), n)
  }

  /** The lookup as Go does it: a missing key gives zero. */
  function Lookup(placed: map<int, int>, cam: int): int {
    if cam in placed then placed[cam] else 0
  }

  lemma LookupInRange(placed: map<int, int>, profile: StreamProfile, n: nat, cam: int)
    requires n > 0 && Placement(placed, profile, n)
    ensures 0 <= Lookup(placed, cam) < n
  {
    if cam in placed {
      assert placed[cam] == ChannelPool.WorkerOf(ChannelPool.Stream(cam, profile), n);
    }
  }

  function BothStarting(status: Profiles): Profiles {
    map p | p in status :: if p == OtherName then status[p] else Starting
  }

  lemma OneByOne(status: Profiles)
    ensures var main := if Main in status then status[Main := Starting] else status;
            BothStarting(status) == if Sub in main then main[Sub := Starting] else main
  {
  }

  lemma PlacementKeeps(placed: map<int, int>, profile: StreamProfile, n: nat, cam: nat)
    requires n > 0 && Placement(placed, profile, n)
    ensures Placement(placed[cam := ChannelPool.WorkerOf(ChannelPool.Stream(cam, profile), n)], profile, n)
  {
  }

  /** AssignCam with only the facts about this worker and camera. */
  method AssignTo(w: WorkerProcess, cam: Camera, profile: Profile) returns (ok: bool)
    modifies w, cam`status
    ensures ok == (profile in old(cam.status))
    ensures cam.status == if ok then old(cam.status)[profile := Starting] else old(cam.status)
    ensures w.cameras == if ok then old(w.cameras)[cam.id := cam] else old(w.cameras)
    ensures w.commands == old(w.commands) + if ok then [StartCommand(cam, profile)] else []
  {
    ok := w.AssignCam(cam, profile, {cam});
    assert old(Statuses({cam}))[cam] == old(cam.status);
    assert Statuses({cam})[cam] == cam.status;
  }

  class CameraManager {
    var workers: seq<WorkerProcess>
    var camMainWorker: map<int, int>
    var camSubWorker: map<int, int>
    var cams: map<int, Camera>

    /** At least two workers, all different objects, and cameras where the numbering puts them. */
    ghost predicate Valid()
      reads this
    {
      && |workers| >= 2
      && (forall i, j :: 0 <= i < j < |workers| ==> workers[i] != workers[j])
      && Placement(camMainWorker, Main, |workers|)
      && Placement(camSubWorker, Sub, |workers|)
    }

    constructor (count: nat)
      ensures Valid() && |workers| == ChannelPool.WorkerCount(count)
      ensures cams == map[] && forall w :: w in workers ==> fresh(w)
    {
      var n := ChannelPool.WorkerCount(count);
      workers := [];
      camMainWorker, camSubWorker, cams := map[], map[], map[];
      new;
      while |workers| < n
        invariant |workers| <= n && camMainWorker == map[] && camSubWorker == map[] && cams == map[]
        invariant forall i :: 0 <= i < |workers| ==> fresh(workers[i])
        invariant forall i, j :: 0 <= i < j < |workers| ==> workers[i] != workers[j]
        decreases n - |workers|
      {
        var w := new WorkerProcess();
        workers := workers + [w];
      }
    }

    /** Each profile the camera has is started on its own worker, m for main and s for sub; a
        missing profile is an error and reaches no worker. */
    method AssignCamera(cam: Camera) returns (mainOk: bool, subOk: bool, ghost m: nat, ghost s: nat)
      requires Valid() && cam.id >= 0
      modifies this, workers, cam`status
      ensures Valid() && workers == old(workers) && cams == old(cams)[cam.id := cam]
      ensures mainOk <==> Main in old(cam.status)
      ensures subOk <==> Sub in old(cam.status)
      ensures cam.status == BothStarting(old(cam.status))
      ensures (m, s) == ChannelPool.DecideWorkerAssignIDs(cam.id, |workers|)
      ensures camMainWorker == if mainOk then old(camMainWorker)[cam.id := m] else old(camMainWorker)
      ensures camSubWorker == if subOk then old(camSubWorker)[cam.id := s] else old(camSubWorker)
      ensures m != s
      ensures mainOk ==> workers[m].commands == old(workers[m].commands) + [StartCommand(cam, Main)]
                         && workers[m].cameras == old(workers[m].cameras)[cam.id := cam]
      ensures subOk ==> workers[s].commands == old(workers[s].commands) + [StartCommand(cam, Sub)]
                        && workers[s].cameras == old(workers[s].cameras)[cam.id := cam]
      ensures forall i :: 0 <= i < |workers| && !(i == m && mainOk) && !(i == s && subOk) ==>
                workers[i].commands == old(workers[i].commands)
                && workers[i].cameras == old(workers[i].cameras)
    {
      hide Placement, BothStarting;
      OneByOne(cam.status);
      cams := cams[cam.id := cam];
      PlacementKeeps(camMainWorker, Main, |workers|, cam.id);
      PlacementKeeps(camSubWorker, Sub, |workers|, cam.id);
      var (wId, subId) := ChannelPool.DecideWorkerAssignIDs(cam.id, |workers|);
      m, s := wId, subId;
      mainOk := AssignTo(workers[wId], cam, Main);
      if mainOk {
        camMainWorker := camMainWorker[cam.id := wId];
      }
      subOk := AssignTo(workers[subId], cam, Sub);
      if subOk {
        camSubWorker := camSubWorker[cam.id := subId];
      }
    }

    /** Both workers forget the camera and are told to stop their profile; no other worker is. */
    method RemoveCamera(camID: int)
      requires Valid()
      modifies this`cams, workers
      ensures Valid() && cams == old(cams) - {camID}
      ensures var (m, s) := (Lookup(camMainWorker, camID), Lookup(camSubWorker, camID));
              forall i :: 0 <= i < |workers| ==>
                && workers[i].cameras == (if i == m || i == s then old(workers[i].cameras) - {camID}
                                          else old(workers[i].cameras))
                && workers[i].commands == old(workers[i].commands)
                     + (if i == m then [STOP(camID, Main)] else [])
                     + (if i == s then [STOP(camID, Sub)] else [])
    {
      LookupInRange(camMainWorker, Main, |workers|, camID);
      LookupInRange(camSubWorker, Sub, |workers|, camID);
      workers[Lookup(camMainWorker, camID)].StopCam(camID, Main);
      workers[Lookup(camSubWorker, camID)].StopCam(camID, Sub);
      cams := cams - {camID};
    }
  }
}
