/** One worker and its engine together: restarts and assignments on one side, ingestion objects and
    their rings on the other, with commands and stopped notices in flight between them. Which START
    commands find the ring of their camera free? */
module Supervision {
  import opened Options
  import opened StreamProfiles
  import Pool = ChannelPool
  import Desk = Worker

  /** The worker's tables and the camera objects' statuses; START commands the engine has not obeyed
      yet; the engine's objects and rings; released objects whose notice has not been handled yet.
      Commands and notices are in no order, so every order is covered. */
  datatype Site = Site(
    camOf: map<int, int>, status: map<int, Desk.Profiles>, office: Desk.Office<int>,
    starts: multiset<int>, host: Pool.Host, nextId: nat, notices: multiset<int>)

  /** Elsewhere is what another worker does to a shared camera object. */
  datatype Event =
    | Assign(obj: int)
    | StopCam(cam: int)
    | Report(cam: int, status: Desk.Status)
    | Notice(cam: int)
    | Wake(cam: int)
    | Obey(cam: int)
    | Cleanup(id: int)
    | Elsewhere(obj: int, profile: Profile, status: Desk.Status)

  /** The one profile of each camera that this worker runs: a camera's two profiles are always on
      different workers. */
  type Placed = int -> Profile

  predicate Enabled(s: Site, placed: Placed, e: Event) {
    match e
    case Assign(obj) => obj in s.camOf
    case StopCam(_) => true
    case Report(_, status) => status != Desk.Stopped
    case Notice(cam) => cam in s.notices
    case Wake(cam) => (cam, placed(cam)) in s.office.sleeping
    case Obey(cam) => cam in s.starts
    case Cleanup(id) => id in s.host.live
    case Elsewhere(obj, profile, _) =>
      obj in s.camOf && profile != placed(s.camOf[obj]) && obj in s.status
  }

  function Next(s: Site, placed: Placed, e: Event): Site
    requires Enabled(s, placed, e)
  {
    match e
    case Assign(obj) =>
      var cam := s.camOf[obj];
      var (office, status, ok) := Desk.AssignStep(s.office, s.status, obj, cam, placed(cam));
      s.(office := office, status := status,
         starts := if ok then s.starts + multiset{cam} else s.starts)
    case StopCam(cam) => s.(office := Desk.StopStep(s.office, cam))
    case Report(cam, status) =>
      (match Desk.Holder(s.office, s.status, cam, placed(cam))
       case Some(obj) => s.(status := Desk.Marked(s.status, obj, placed(cam), status))
       case None => s)
    case Notice(cam) =>
      var (office, status) := Desk.StoppedStep(s.office, s.status, cam, placed(cam));
      s.(office := office, status := status, notices := s.notices - multiset{cam})
    case Wake(cam) =>
      var (office, status, restarted) := Desk.WakeStep(s.office, s.status, cam, placed(cam));
      s.(office := office, status := status,
         starts := if restarted then s.starts + multiset{cam} else s.starts)
    case Obey(cam) =>
      s.(starts := s.starts - multiset{cam}, nextId := s.nextId + 1,
         host := Pool.Happen(s.host, Pool.Start(s.nextId, cam)))
    case Cleanup(id) =>
      s.(host := Pool.Happen(s.host, Pool.Cleanup(id)),
         notices := s.notices + multiset{s.host.live[id].0})
    case Elsewhere(obj, profile, status) =>
      s.(status := Desk.Marked(s.status, obj, profile, status))
  }

  /** Nothing of the camera is under way: no START on its way, no live object, no notice unhandled. */
  ghost predicate Settled(s: Site, cam: int) {
    s.starts[cam] == 0 && s.notices[cam] == 0 && !Pool.CameraLive(s.host, cam)
  }

  /** The worker holds the camera and its profile is marked stopped. */
  predicate StoppedHere(s: Site, placed: Placed, cam: int) {
    match Desk.Holder(s.office, s.status, cam, placed(cam))
    case Some(obj) => s.status[obj][placed(cam)] == Desk.Stopped
    case None => false
  }

  /** At most one thing of each camera is under way, and nothing when its profile is stopped. */
  ghost predicate CameraOk(s: Site, placed: Placed, cam: int) {
    && s.starts[cam] + s.notices[cam] <= 1
    && (Pool.CameraLive(s.host, cam) ==> s.starts[cam] + s.notices[cam] == 0)
    && (StoppedHere(s, placed, cam) ==> Settled(s, cam))
  }

  /** Each object is held under its own camera number. */
  predicate Filed(s: Site) {
    forall c :: c in s.office.cameras ==>
      s.office.cameras[c] in s.camOf && s.camOf[s.office.cameras[c]] == c
  }

  /** Only cameras with a live object have a ring. */
  ghost predicate Tidy(h: Pool.Host) {
    forall c :: c in h.pool.used ==> Pool.CameraLive(h, c)
  }

  ghost predicate Inv(s: Site, placed: Placed, n: nat) {
    && Pool.HostOk(s.host, n) && Tidy(s.host) && Filed(s)
    && (forall id :: id in s.host.live ==> id < s.nextId)
    && forall cam {:trigger CameraOk(s, placed, cam)} :: CameraOk(s, placed, cam)
  }

  /** An assignment comes when nothing of its camera is under way. */
  ghost predicate Careful(s: Site, e: Event) {
    e.Assign? && e.obj in s.camOf ==> Settled(s, s.camOf[e.obj])
  }

  // ------------------------------------------------------------------ every event keeps it

  lemma RestartIsSettled(s: Site, placed: Placed, n: nat, cam: int)
    requires Inv(s, placed, n) && Enabled(s, placed, Wake(cam))
    requires Next(s, placed, Wake(cam)).starts != s.starts
    ensures Settled(s, cam)
  {
    assert CameraOk(s, placed, cam);
  }

  /** The engine never obeys a START while an object for the camera is live. */
  lemma ObeyIsDisciplined(s: Site, placed: Placed, n: nat, cam: int)
    requires Inv(s, placed, n) && Enabled(s, placed, Obey(cam))
    ensures Pool.Disciplined(s.host, Pool.Start(s.nextId, cam))
  {
    assert CameraOk(s, placed, cam);
  }

  lemma ObeyKeeps(s: Site, placed: Placed, n: nat, cam: int)
    requires Inv(s, placed, n) && Enabled(s, placed, Obey(cam))
    ensures Inv(Next(s, placed, Obey(cam)), placed, n)
  {
    var s' := Next(s, placed, Obey(cam));
    ObeyIsDisciplined(s, placed, n, cam);
    Pool.HappenKeeps(s.host, n, Pool.Start(s.nextId, cam));
    StartStaysTidy(s.host, s.nextId, cam);
    forall c
      ensures CameraOk(s', placed, c)
    {
      assert CameraOk(s, placed, c);
      assert CameraOk(s, placed, cam);
      LiveAfterStart(s.host, s.nextId, cam, c);
    }
  }

  /** A START that gets a ring makes its camera live, and no other. */
  lemma LiveAfterStart(h: Pool.Host, id: int, cam: int, c: int)
    requires id !in h.live
    ensures Pool.CameraLive(Pool.Happen(h, Pool.Start(id, cam)), c)
            <==> Pool.CameraLive(h, c) || (c == cam && Pool.Acquire(h.pool, cam).1 != -1)
  {
    var h' := Pool.Happen(h, Pool.Start(id, cam));
    if Pool.CameraLive(h', c) {
      var i :| i in h'.live && h'.live[i].0 == c;
      assert i != id ==> i in h.live && h.live[i].0 == c;
    }
    if Pool.CameraLive(h, c) {
      var i :| i in h.live && h.live[i].0 == c;
      assert i in h'.live && h'.live[i].0 == c;
    }
    if c == cam && Pool.Acquire(h.pool, cam).1 != -1 {
      assert id in h'.live && h'.live[id].0 == c;
    }
  }

  lemma CleanupKeeps(s: Site, placed: Placed, n: nat, id: int)
    requires Inv(s, placed, n) && Enabled(s, placed, Cleanup(id))
    ensures Inv(Next(s, placed, Cleanup(id)), placed, n)
  {
    var s' := Next(s, placed, Cleanup(id));
    var cam := s.host.live[id].0;
    assert Pool.CameraLive(s.host, cam);
    Pool.HappenKeeps(s.host, n, Pool.Cleanup(id));
    CleanupStaysTidy(s.host, n, id);
    forall c
      ensures CameraOk(s', placed, c)
    {
      assert CameraOk(s, placed, c);
      LiveAfterCleanup(s.host, n, id, c);
    }
  }

  lemma LiveAfterCleanup(h: Pool.Host, n: nat, id: int, c: int)
    requires Pool.HostOk(h, n) && id in h.live
    ensures Pool.CameraLive(Pool.Happen(h, Pool.Cleanup(id)), c)
            <==> Pool.CameraLive(h, c) && c != h.live[id].0
  {
    var h' := Pool.Happen(h, Pool.Cleanup(id));
    if Pool.CameraLive(h', c) {
      var i :| i in h'.live && h'.live[i].0 == c;
      assert i in h.live && h.live[i].0 == c;
    }
    if Pool.CameraLive(h, c) && c != h.live[id].0 {
      var i :| i in h.live && h.live[i].0 == c;
      assert i in h'.live && h'.live[i].0 == c;
    }
  }

  lemma StartStaysTidy(h: Pool.Host, id: int, cam: int)
    requires Tidy(h) && id !in h.live
    ensures Tidy(Pool.Happen(h, Pool.Start(id, cam)))
  {
    var h' := Pool.Happen(h, Pool.Start(id, cam));
    forall c | c in h'.pool.used
      ensures Pool.CameraLive(h', c)
    {
      LiveAfterStart(h, id, cam, c);
    }
  }

  lemma CleanupStaysTidy(h: Pool.Host, n: nat, id: int)
    requires Tidy(h) && Pool.HostOk(h, n) && id in h.live
    ensures Tidy(Pool.Happen(h, Pool.Cleanup(id)))
  {
    var h' := Pool.Happen(h, Pool.Cleanup(id));
    Pool.ReleaseKeeps(h.pool, n, h.live[id].0);
    forall c | c in h'.pool.used
      ensures Pool.CameraLive(h', c)
    {
      LiveAfterCleanup(h, n, id, c);
    }
  }

  lemma AssignKeepsCamera(s: Site, placed: Placed, obj: int, c: int)
    requires Enabled(s, placed, Assign(obj)) && Filed(s) && Careful(s, Assign(obj))
    requires CameraOk(s, placed, c)
    ensures CameraOk(Next(s, placed, Assign(obj)), placed, c)
  {
    hide Pool.CameraLive, Pool.Happen;
  }

  lemma StopKeepsCamera(s: Site, placed: Placed, cam: int, c: int)
    requires CameraOk(s, placed, c)
    ensures CameraOk(Next(s, placed, StopCam(cam)), placed, c)
  {
    hide Pool.CameraLive, Pool.Happen;
  }

  lemma NoticeKeepsCamera(s: Site, placed: Placed, cam: int, c: int)
    requires Enabled(s, placed, Notice(cam)) && Filed(s) && CameraOk(s, placed, c)
    ensures CameraOk(Next(s, placed, Notice(cam)), placed, c)
  {
    hide Pool.CameraLive, Pool.Happen;
  }

  lemma WakeKeepsCamera(s: Site, placed: Placed, cam: int, c: int)
    requires Enabled(s, placed, Wake(cam)) && Filed(s) && CameraOk(s, placed, c)
    ensures CameraOk(Next(s, placed, Wake(cam)), placed, c)
  {
    hide Pool.CameraLive, Pool.Happen;
  }

  lemma StatusKeepsCamera(s: Site, placed: Placed, e: Event, c: int)
    requires Enabled(s, placed, e) && Filed(s) && CameraOk(s, placed, c)
    requires e.Report? || e.Elsewhere?
    ensures CameraOk(Next(s, placed, e), placed, c)
  {
    hide Pool.CameraLive, Pool.Happen;
  }

  /** What the worker's own events do to one camera. */
  lemma DeskKeepsCamera(s: Site, placed: Placed, e: Event, c: int)
    requires Enabled(s, placed, e) && Filed(s) && Careful(s, e) && !e.Obey? && !e.Cleanup?
    requires CameraOk(s, placed, c)
    ensures CameraOk(Next(s, placed, e), placed, c)
  {
    hide Next, CameraOk;
    match e
    case Assign(obj) => AssignKeepsCamera(s, placed, obj, c);
    case StopCam(cam) => StopKeepsCamera(s, placed, cam, c);
    case Notice(cam) => NoticeKeepsCamera(s, placed, cam, c);
    case Wake(cam) => WakeKeepsCamera(s, placed, cam, c);
    case Report(_, _) => StatusKeepsCamera(s, placed, e, c);
    case Elsewhere(_, _, _) => StatusKeepsCamera(s, placed, e, c);
  }

  lemma TableKeepsCamOf(s: Site, placed: Placed, e: Event)
    requires Enabled(s, placed, e) && (e.Assign? || e.StopCam? || e.Notice? || e.Wake?)
    ensures Next(s, placed, e).camOf == s.camOf
  {
  }

  lemma EngineKeepsCamOf(s: Site, placed: Placed, e: Event)
    requires Enabled(s, placed, e) && (e.Obey? || e.Cleanup?)
    ensures Next(s, placed, e).camOf == s.camOf
  {
  }

  lemma StatusKeepsCamOf(s: Site, placed: Placed, e: Event)
    requires Enabled(s, placed, e) && (e.Report? || e.Elsewhere?)
    ensures Next(s, placed, e).camOf == s.camOf
  {
  }

  lemma NextCamOf(s: Site, placed: Placed, e: Event)
    requires Enabled(s, placed, e)
    ensures Next(s, placed, e).camOf == s.camOf
  {
    hide Next, Enabled;
    if e.Obey? || e.Cleanup? {
      EngineKeepsCamOf(s, placed, e);
    } else if e.Report? || e.Elsewhere? {
      StatusKeepsCamOf(s, placed, e);
    } else {
      TableKeepsCamOf(s, placed, e);
    }
  }

  lemma DeskKeepsFiled(s: Site, placed: Placed, e: Event)
    requires Enabled(s, placed, e) && Filed(s) && !e.Obey? && !e.Cleanup?
    ensures Filed(Next(s, placed, e)) && Next(s, placed, e).host == s.host
    ensures Next(s, placed, e).nextId == s.nextId
  {
    hide Pool.Happen;
  }

  lemma NextKeeps(s: Site, placed: Placed, n: nat, e: Event)
    requires Inv(s, placed, n) && Enabled(s, placed, e) && Careful(s, e)
    ensures Inv(Next(s, placed, e), placed, n)
  {
    if e.Obey? {
      ObeyKeeps(s, placed, n, e.cam);
    } else if e.Cleanup? {
      CleanupKeeps(s, placed, n, e.id);
    } else {
      DeskKeepsFiled(s, placed, e);
      forall c
        ensures CameraOk(Next(s, placed, e), placed, c)
      {
        assert CameraOk(s, placed, c);
        DeskKeepsCamera(s, placed, e, c);
      }
    }
  }

  // ------------------------------------------------------------------ whole runs

  predicate EnabledRun(s: Site, placed: Placed, es: seq<Event>)
    decreases |es|
  {
    es != [] ==> Enabled(s, placed, es[0]) && EnabledRun(Next(s, placed, es[0]), placed, es[1..])
  }

  ghost predicate CarefulRun(s: Site, placed: Placed, es: seq<Event>)
    requires EnabledRun(s, placed, es)
    decreases |es|
  {
    es != [] ==> Careful(s, es[0]) && CarefulRun(Next(s, placed, es[0]), placed, es[1..])
  }

  function Run(s: Site, placed: Placed, es: seq<Event>): Site
    requires EnabledRun(s, placed, es)
    decreases |es|
  {
    if es == [] then s else Run(Next(s, placed, es[0]), placed, es[1..])
  }

  /** Every START the engine obeys finds no live object of its camera. */
  ghost predicate StartsDisciplined(s: Site, placed: Placed, es: seq<Event>)
    requires EnabledRun(s, placed, es)
    decreases |es|
  {
    es != [] ==>
      && (es[0].Obey? ==> Pool.Disciplined(s.host, Pool.Start(s.nextId, es[0].cam)))
      && StartsDisciplined(Next(s, placed, es[0]), placed, es[1..])
  }

  /** Every restart that goes ahead finds nothing of its camera under way. */
  ghost predicate RestartsSettled(s: Site, placed: Placed, es: seq<Event>)
    requires EnabledRun(s, placed, es)
    decreases |es|
  {
    es != [] ==>
      && (es[0].Wake? && Next(s, placed, es[0]).starts != s.starts ==> Settled(s, es[0].cam))
      && RestartsSettled(Next(s, placed, es[0]), placed, es[1..])
  }

  predicate New(s: Site, n: nat) {
    && s.host == Pool.Fresh(n) && s.office == Desk.Office(map[], multiset{})
    && s.starts == multiset{} && s.notices == multiset{}
  }

  lemma {:induction false} RunKeeps(s: Site, placed: Placed, n: nat, es: seq<Event>)
    requires Inv(s, placed, n) && EnabledRun(s, placed, es) && CarefulRun(s, placed, es)
    ensures Inv(Run(s, placed, es), placed, n)
    ensures StartsDisciplined(s, placed, es) && RestartsSettled(s, placed, es)
    decreases |es|
  {
    if es != [] {
      if es[0].Obey? {
        ObeyIsDisciplined(s, placed, n, es[0].cam);
      } else if es[0].Wake? && Next(s, placed, es[0]).starts != s.starts {
        RestartIsSettled(s, placed, n, es[0].cam);
      }
      NextKeeps(s, placed, n, es[0]);
      RunKeeps(Next(s, placed, es[0]), placed, n, es[1..]);
    }
  }

  lemma NewIsOk(s: Site, placed: Placed, n: nat)
    requires New(s, n)
    ensures Inv(s, placed, n)
  {
    Pool.FreshIsOk(n);
    forall cam
      ensures CameraOk(s, placed, cam)
    {
    }
  }

  // ------------------------------------------------------------------ what an unsettled assignment leads to

  lemma {:induction false} RunSnoc(s: Site, placed: Placed, es: seq<Event>, e: Event)
    requires EnabledRun(s, placed, es) && Enabled(Run(s, placed, es), placed, e)
    ensures EnabledRun(s, placed, es + [e])
    ensures Run(s, placed, es + [e]) == Next(Run(s, placed, es), placed, e)
    decreases |es|
  {
    if es == [] {
      assert [e][1..] == [] && es + [e] == [e];
    } else {
      assert (es + [e])[1..] == es[1..] + [e];
      RunSnoc(Next(s, placed, es[0]), placed, es[1..], e);
    }
  }

  /** A second START for a camera with a live object puts both objects on one ring. */
  lemma SecondStartShares(s: Site, placed: Placed, n: nat, cam: int)
    requires Pool.HostOk(s.host, n) && (forall id :: id in s.host.live ==> id < s.nextId)
    requires Pool.CameraLive(s.host, cam) && cam in s.starts
    ensures !Pool.Exclusive(Next(s, placed, Obey(cam)).host)
  {
    var i :| i in s.host.live && s.host.live[i].0 == cam;
    var h' := Next(s, placed, Obey(cam)).host;
    assert i in h'.live && s.nextId in h'.live && h'.live[i].1 == h'.live[s.nextId].1;
  }

  lemma FirstStart(s: Site, placed: Placed, n: nat, cam: int)
    requires Pool.HostOk(s.host, n) && (forall id :: id in s.host.live ==> id < s.nextId)
    requires !Pool.CameraLive(s.host, cam) && cam in s.starts && s.host.pool.free != []
    ensures var s' := Next(s, placed, Obey(cam));
            && Pool.HostOk(s'.host, n) && (forall id :: id in s'.host.live ==> id < s'.nextId)
            && Pool.CameraLive(s'.host, cam)
  {
    Pool.HappenKeeps(s.host, n, Pool.Start(s.nextId, cam));
    Pool.AcquireKeeps(s.host.pool, n, cam);
    var s' := Next(s, placed, Obey(cam));
    assert s.nextId in s'.host.live && s'.host.live[s.nextId].0 == cam;
  }

  /** A camera just assigned, whose notice of an earlier object is still to come: the notice stops
      the new start's profile, and a restart follows. */
  lemma LateNoticeRestarts(s: Site, placed: Placed, obj: int, cam: int)
    requires obj in s.status && placed(cam) in s.status[obj]
    requires cam in s.office.cameras && s.office.cameras[cam] == obj && cam in s.notices
    ensures var s1 := Next(s, placed, Notice(cam));
            && Enabled(s1, placed, Wake(cam))
            && cam in Next(s1, placed, Wake(cam)).starts
            && Next(s1, placed, Wake(cam)).host == s.host
            && Next(s1, placed, Wake(cam)).nextId == s.nextId
  {
  }

  /** The host is in order, no object of the camera is live, a START for it is on its way, and a
      ring is free. */
  ghost predicate AboutToStart(s: Site, n: nat, cam: int) {
    && Pool.HostOk(s.host, n) && (forall id :: id in s.host.live ==> id < s.nextId)
    && !Pool.CameraLive(s.host, cam) && cam in s.starts && s.host.pool.free != []
  }

  lemma DoubleStartShares(s: Site, placed: Placed, n: nat, cam: int)
    requires AboutToStart(s, n, cam) && s.starts[cam] >= 2
    ensures var es := [Obey(cam)] + [Obey(cam)];
            EnabledRun(s, placed, es) && !Pool.Exclusive(Run(s, placed, es).host)
  {
    hide Pool.Happen, Pool.HostOk, Pool.CameraLive, Pool.Exclusive;
    FirstStart(s, placed, n, cam);
    SecondStartShares(Next(s, placed, Obey(cam)), placed, n, cam);
    assert [] + [Obey(cam)] == [Obey(cam)];
    RunSnoc(s, placed, [], Obey(cam));
    RunSnoc(s, placed, [Obey(cam)], Obey(cam));
  }

  lemma LateNoticeShares(s: Site, placed: Placed, n: nat, obj: int, cam: int)
    requires AboutToStart(s, n, cam) && cam in s.notices
    requires obj in s.status && placed(cam) in s.status[obj]
    requires cam in s.office.cameras && s.office.cameras[cam] == obj
    ensures var es := [Obey(cam)] + [Notice(cam)] + [Wake(cam)] + [Obey(cam)];
            EnabledRun(s, placed, es) && !Pool.Exclusive(Run(s, placed, es).host)
  {
    hide Pool.Happen, Pool.HostOk, Pool.CameraLive, Pool.Exclusive;
    FirstStart(s, placed, n, cam);
    var s2 := Next(s, placed, Obey(cam));
    LateNoticeRestarts(s2, placed, obj, cam);
    var s3 := Next(s2, placed, Notice(cam));
    var s4 := Next(s3, placed, Wake(cam));
    SecondStartShares(s4, placed, n, cam);
    assert [] + [Obey(cam)] == [Obey(cam)];
    RunSnoc(s, placed, [], Obey(cam));
    RunSnoc(s, placed, [Obey(cam)], Notice(cam));
    RunSnoc(s, placed, [Obey(cam)] + [Notice(cam)], Wake(cam));
    RunSnoc(s, placed, [Obey(cam)] + [Notice(cam)] + [Wake(cam)], Obey(cam));
  }

  /** With no ring free, some other camera's object holds one and can be cleaned up. */
  lemma FreeRing(s: Site, placed: Placed, n: nat, cam: int) returns (id: int)
    requires Pool.HostOk(s.host, n) && Tidy(s.host) && n > 0
    requires s.host.pool.free == [] && (forall i :: i in s.host.live ==> i < s.nextId)
    requires !Pool.CameraLive(s.host, cam) && cam in s.starts
    ensures Enabled(s, placed, Cleanup(id)) && s.host.live[id].0 != cam
    ensures AboutToStart(Next(s, placed, Cleanup(id)), n, cam)
  {
    assert Pool.Held(s.host.pool, 0);
    var c :| c in s.host.pool.used && s.host.pool.used[c] == 0;
    id :| id in s.host.live && s.host.live[id].0 == c;
    Pool.HappenKeeps(s.host, n, Pool.Cleanup(id));
    LiveAfterCleanup(s.host, n, id, cam);
  }

  predicate NoAssign(es: seq<Event>) {
    forall e :: e in es ==> !e.Assign?
  }

  /** Without another assignment, some continuation puts two live objects on one ring. */
  ghost predicate CanShare(s: Site, placed: Placed) {
    exists es ::
      NoAssign(es) && EnabledRun(s, placed, es) && !Pool.Exclusive(Run(s, placed, es).host)
  }

  lemma Shares(s: Site, placed: Placed, es: seq<Event>)
    requires NoAssign(es) && EnabledRun(s, placed, es) && !Pool.Exclusive(Run(s, placed, es).host)
    ensures CanShare(s, placed)
  {
  }

  lemma CanShareLater(s: Site, placed: Placed, e: Event)
    requires Enabled(s, placed, e) && !e.Assign? && CanShare(Next(s, placed, e), placed)
    ensures CanShare(s, placed)
  {
    var s' := Next(s, placed, e);
    var es :| NoAssign(es) && EnabledRun(s', placed, es) && !Pool.Exclusive(Run(s', placed, es).host);
    assert ([e] + es)[1..] == es;
    Shares(s, placed, [e] + es);
  }

  lemma StartShares(s: Site, placed: Placed, n: nat, obj: int, cam: int)
    requires AboutToStart(s, n, cam)
    requires s.starts[cam] >= 2 || cam in s.notices
    requires obj in s.status && placed(cam) in s.status[obj]
    requires cam in s.office.cameras && s.office.cameras[cam] == obj
    ensures CanShare(s, placed)
  {
    hide Pool.Happen, Pool.HostOk, Pool.CameraLive, Pool.Exclusive, EnabledRun, Run;
    if s.starts[cam] >= 2 {
      DoubleStartShares(s, placed, n, cam);
      Shares(s, placed, [Obey(cam)] + [Obey(cam)]);
    } else {
      LateNoticeShares(s, placed, n, obj, cam);
      Shares(s, placed, [Obey(cam)] + [Notice(cam)] + [Wake(cam)] + [Obey(cam)]);
    }
  }

  /** Assigning a camera while anything of it is under way lets two objects end up on one ring
      without any further assignment. */
  lemma UnsettledAssignShares(s: Site, placed: Placed, n: nat, obj: int)
    requires Inv(s, placed, n) && n > 0
    requires obj in s.camOf && obj in s.status && placed(s.camOf[obj]) in s.status[obj]
    requires !Settled(s, s.camOf[obj])
    ensures CanShare(Next(s, placed, Assign(obj)), placed)
  {
    hide Pool.Happen, Pool.HostOk, Pool.CameraLive, Pool.Exclusive, EnabledRun, Run, CanShare, Tidy;
    var cam := s.camOf[obj];
    var s1 := Next(s, placed, Assign(obj));
    assert CameraOk(s, placed, cam);
    if Pool.CameraLive(s.host, cam) {
      SecondStartShares(s1, placed, n, cam);
      OneEvent(s1, placed, Obey(cam));
      Shares(s1, placed, [Obey(cam)]);
    } else if s.host.pool.free != [] {
      StartShares(s1, placed, n, obj, cam);
    } else {
      var id := FreeRing(s1, placed, n, cam);
      StartShares(Next(s1, placed, Cleanup(id)), placed, n, obj, cam);
      CanShareLater(s1, placed, Cleanup(id));
    }
  }

  lemma OneEvent(s: Site, placed: Placed, e: Event)
    requires Enabled(s, placed, e)
    ensures EnabledRun(s, placed, [e]) && Run(s, placed, [e]) == Next(s, placed, e)
  {
    assert [] + [e] == [e];
    RunSnoc(s, placed, [], e);
  }
}
