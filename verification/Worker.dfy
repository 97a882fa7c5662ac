/** The delayed restart protocol between the engine's stopped notices and the worker's START
    commands. Camera objects are shared: a camera's main and sub profile belong to one object that
    two workers hold. */
module Worker {
  import opened Options
  import opened StreamProfiles
  import Line = Command

  datatype Status = Blank | Starting | Streaming | Recording | ShmId | Stopped

  /** A command printed to the engine. */
  datatype Command =
    | START(cam: int, profile: Profile, source: string, recording: bool)
    | STOP(cam: int, profile: Profile)

  /** The profiles a camera object has, each with its status. */
  type Profiles = map<Profile, Status>

  /** One worker's tables: the camera object it holds for each camera number, and its sleeping
      restart goroutines. C is the type of camera objects. */
  datatype Office<C> = Office(cameras: map<int, C>, sleeping: multiset<(int, Profile)>)

  /** The object held for a camera, if it has the profile. */
  function Holder<C(==)>(o: Office<C>, st: map<C, Profiles>, cam: int, p: Profile): Option<C> {
    if cam in o.cameras && o.cameras[cam] in st && p in st[o.cameras[cam]]
    then Some(o.cameras[cam]) else None
  }

  function Marked<C(==)>(st: map<C, Profiles>, c: C, p: Profile, status: Status): map<C, Profiles>
    requires c in st
  {
    st[c := st[c][p := status]]
  }

  /** A stopped notice: the profile is marked, and in any case a restart goes to sleep. */
  function StoppedStep<C(==)>(o: Office<C>, st: map<C, Profiles>, cam: int, p: Profile)
      : (Office<C>, map<C, Profiles>)
  {
    (o.(sleeping := o.sleeping + multiset{(cam, p)}),
     match Holder(o, st, cam, p)
     case Some(c) => Marked(st, c, p, Stopped)
     case None => st)
  }

  /** A restart wakes up: it goes ahead only for a held camera whose profile is stopped. */
  function WakeStep<C(==)>(o: Office<C>, st: map<C, Profiles>, cam: int, p: Profile)
      : (Office<C>, map<C, Profiles>, bool)
  {
    var o1 := o.(sleeping := o.sleeping - multiset{(cam, p)});
    match Holder(o, st, cam, p)
    case Some(c) => if st[c][p] == Stopped then (o1, Marked(st, c, p, Starting), true)
                    else (o1, st, false)
    case None => (o1, st, false)
  }

  /** An assignment, refused for an object that lacks the profile. */
  function AssignStep<C(==)>(o: Office<C>, st: map<C, Profiles>, c: C, cam: int, p: Profile)
      : (Office<C>, map<C, Profiles>, bool)
  {
    if c in st && p in st[c]
    then (o.(cameras := o.cameras[cam := c]), Marked(st, c, p, Starting), true)
    else (o, st, false)
  }

  function StopStep<C>(o: Office<C>, cam: int): Office<C> {
    o.(cameras := o.cameras - {cam})
  }

  // ------------------------------------------------------------------ the worker object

  class Camera {
    const id: int
    const source: Profile -> string
    var active: bool
    var status: Profiles

    constructor (id: int, hasSub: bool, source: Profile -> string, active: bool)
      ensures this.id == id && this.source == source && this.active == active
      ensures status == if hasSub then map[Main := Blank, Sub := Blank] else map[Main := Blank]
    {
      this.id, this.source, this.active := id, source, active;
      status := if hasSub then map[Main := Blank, Sub := Blank] else map[Main := Blank];
    }
  }

  /** The START command for one of its profiles. */
  function StartCommand(c: Camera, p: Profile): Command
    reads c`active
  {
    START(c.id, p, c.source(p), c.active)
  }

  function ProfileName(p: StreamProfile): string {
    if p == Main then "main" else "sub"
  }

  /** The command line printed for a command about one of the camera's own profiles. */
  function Printed(c: Command): string
    requires c.profile != OtherName
  {
    match c
    case START(cam, p, source, recording) =>
      Line.PrintStart(Line.StartArgs(cam, ProfileName(p), source, recording))
    case STOP(cam, p) => Line.PrintCamCommand("STOP", cam, ProfileName(p))
  }

  /** A started profile reaches the engine as it is: the camera's number, the profile, its source and
      whether the camera records, exactly when the source has no space and the number fits. */
  lemma EngineReadsStart(c: Camera, p: StreamProfile)
    ensures Line.ReadStart(Line.Parse(Printed(StartCommand(c, p))))
            == Some(Line.StartArgs(c.id, if p == Main then "main" else "sub", c.source(p), c.active))
            <==> Line.Free(c.source(p), ' ') && Line.Int32(c.id)
  {
    Line.StartRoundTrip(Line.StartArgs(c.id, ProfileName(p), c.source(p), c.active));
  }

  /** So does a stop. */
  lemma EngineReadsStop(cam: int, p: StreamProfile)
    ensures var c := Line.Parse(Printed(STOP(cam, p)));
            c.name == "STOP" && Line.ReadCamCommand(c) == Some((cam, ProfileName(p)))
            <==> Line.Int32(cam)
  {
    Line.CamCommandRoundTrip("STOP", cam, ProfileName(p));
  }

  /** The statuses of some camera objects, as a value. */
  ghost function Statuses(cs: set<Camera>): map<Camera, Profiles>
    reads cs
  {
    map c | c in cs :: c.status
  }

  /** The contracts speak of any set of camera objects that includes those the worker holds: other
      workers may hold more. */
  class WorkerProcess {
    var cameras: map<int, Camera>
    var commands: seq<Command>
    var sleeping: multiset<(int, Profile)>

    constructor ()
      ensures View() == Office(map[], multiset{}) && commands == []
    {
      cameras, commands, sleeping := map[], [], multiset{};
    }

    function View(): Office<Camera>
      reads this
    {
      Office(cameras, sleeping)
    }

    method HandleStoppedStream(cam: int, profile: Profile, ghost cs: set<Camera>)
      requires cameras.Values <= cs
      modifies this`sleeping, cameras.Values`status
      ensures (View(), Statuses(cs)) == StoppedStep(old(View()), old(Statuses(cs)), cam, profile)
    {
      if cam in cameras {
        var c := cameras[cam];
        assert c in cs;
        if profile in c.status {
          c.status := c.status[profile := Stopped];
        }
      }
      sleeping := sleeping + multiset{(cam, profile)};
      assert Statuses(cs) == StoppedStep(old(View()), old(Statuses(cs)), cam, profile).1;
    }

    method StartStreamProfile(c: Camera, profile: Profile, ghost cs: set<Camera>)
      requires profile in c.status && c in cs
      modifies c`status, this`commands
      ensures Statuses(cs) == Marked(old(Statuses(cs)), c, profile, Starting)
      ensures commands == old(commands) + [StartCommand(c, profile)]
    {
      c.status := c.status[profile := Starting];
      commands := commands + [StartCommand(c, profile)];
    }

    /** Errors, without any effect, when the camera lacks the profile. */
    method AssignCam(c: Camera, profile: Profile, ghost cs: set<Camera>) returns (ok: bool)
      requires c in cs
      modifies this, c`status
      ensures (View(), Statuses(cs), ok)
              == AssignStep(old(View()), old(Statuses(cs)), c, c.id, profile)
      ensures commands == old(commands) + if ok then [StartCommand(c, profile)] else []
    {
      if profile !in c.status {
        return false;
      }
      cameras := cameras[c.id := c];
      StartStreamProfile(c, profile, cs);
      return true;
    }

    method StopCam(cam: int, profile: Profile)
      modifies this
      ensures View() == StopStep(old(View()), cam)
      ensures commands == old(commands) + [STOP(cam, profile)]
    {
      cameras := cameras - {cam};
      commands := commands + [STOP(cam, profile)];
    }

    /** A sleeping goroutine wakes up; restarted tells whether it printed a START. */
    method RestartCam(cam: int, profile: Profile, ghost cs: set<Camera>) returns (ghost restarted: bool)
      requires (cam, profile) in sleeping && cameras.Values <= cs
      requires cam in cameras ==> cameras[cam].id == cam
      modifies this`sleeping, this`commands, cameras.Values`status
      ensures (View(), Statuses(cs), restarted)
              == WakeStep(old(View()), old(Statuses(cs)), cam, profile)
      ensures commands == old(commands) + if restarted then [StartCommand(cameras[cam], profile)] else []
    {
      restarted := false;
      sleeping := sleeping - multiset{(cam, profile)};
      if cam !in cameras {
        return;
      }
      var c := cameras[cam];
      assert c in cs;
      if profile !in c.status {
        return;
      }
      if c.status[profile] != Stopped {
        return;
      }
      StartStreamProfile(c, profile, cs);
      restarted := true;
    }
  }

  // ------------------------------------------------------------------ all workers together

  /** A stream as one worker names it. */
  datatype Key = Key(worker: int, cam: int, profile: Profile)

  /** What happened: obj and target are the camera object concerned. */
  datatype Entry =
    | Notice(key: Key, target: Option<int>)
    | Restart(key: Key, obj: int)
    | Assigned(key: Key, obj: int)
    | StoppedCam(key: Key)

  /** Camera objects are numbered here: camOf gives each one's camera number, status its profiles. */
  datatype State = State(
    camOf: map<int, int>, status: map<int, Profiles>, offices: map<int, Office<int>>, log: seq<Entry>)

  datatype Event =
    | StoppedNotice(key: Key)
    | Wake(key: Key)
    | Assign(worker: int, obj: int, profile: Profile)
    | Stop(key: Key)
    | Report(key: Key, status: Status)

  function WorkerOf(e: Event): int {
    if e.Assign? then e.worker else e.key.worker
  }

  predicate Enabled(s: State, e: Event) {
    && WorkerOf(e) in s.offices
    && (e.Wake? ==> (e.key.cam, e.key.profile) in s.offices[e.key.worker].sleeping)
    && (e.Assign? ==> e.obj in s.camOf)
    && (e.Report? ==> e.status != Stopped)
  }

  function Next(s: State, e: Event): State
    requires Enabled(s, e)
  {
    var w := WorkerOf(e);
    var o := s.offices[w];
    match e
    case StoppedNotice(k) =>
      var (o1, st) := StoppedStep(o, s.status, k.cam, k.profile);
      State(s.camOf, st, s.offices[w := o1],
            s.log + [Notice(k, Holder(o, s.status, k.cam, k.profile))])
    case Wake(k) =>
      var (o1, st, restarted) := WakeStep(o, s.status, k.cam, k.profile);
      State(s.camOf, st, s.offices[w := o1],
            if restarted then s.log + [Restart(k, o.cameras[k.cam])] else s.log)
    case Assign(_, obj, profile) =>
      var cam := s.camOf[obj];
      var (o1, st, ok) := AssignStep(o, s.status, obj, cam, profile);
      State(s.camOf, st, s.offices[w := o1],
            if ok then s.log + [Assigned(Key(w, cam, profile), obj)] else s.log)
    case Stop(k) =>
      s.(offices := s.offices[w := StopStep(o, k.cam)], log := s.log + [StoppedCam(k)])
    case Report(k, status) =>
      (match Holder(o, s.status, k.cam, k.profile)
       case Some(obj) => s.(status := Marked(s.status, obj, k.profile, status))
       case None => s)
  }

  predicate IsStopped(s: State, obj: int, p: Profile) {
    obj in s.status && p in s.status[obj] && s.status[obj][p] == Stopped
  }

  // ------------------------------------------------------------------ laws of the log

  predicate IsNoticeOf(e: Entry, obj: int, p: Profile) {
    e.Notice? && e.target == Some(obj) && e.key.profile == p
  }

  predicate IsRestartOf(e: Entry, obj: int, p: Profile) {
    e.Restart? && e.obj == obj && e.key.profile == p
  }

  predicate IsStopOf(e: Entry, worker: int, cam: int) {
    e.StoppedCam? && e.key.worker == worker && e.key.cam == cam
  }

  predicate IsAssignOf(e: Entry, worker: int, cam: int, obj: int) {
    e.Assigned? && e.key.worker == worker && e.key.cam == cam && e.obj == obj
  }

  /** A stopped notice for the profile has come since its last restart. */
  ghost predicate Armed(log: seq<Entry>, obj: int, p: Profile) {
    exists j :: 0 <= j < |log| && IsNoticeOf(log[j], obj, p)
      && forall i :: j < i < |log| ==> !IsRestartOf(log[i], obj, p)
  }

  /** The worker was given this camera object and has not been told to stop the camera since. */
  ghost predicate Covered(log: seq<Entry>, worker: int, cam: int, obj: int) {
    exists j :: 0 <= j < |log| && IsAssignOf(log[j], worker, cam, obj)
      && forall i :: j < i < |log| ==> !IsStopOf(log[i], worker, cam)
  }

  /** Every restart in the log was armed and covered when it happened. */
  ghost predicate Lawful(log: seq<Entry>) {
    forall k {:trigger log[..k]} :: 0 <= k < |log| && log[k].Restart? ==>
      && Armed(log[..k], log[k].obj, log[k].key.profile)
      && Covered(log[..k], log[k].key.worker, log[k].key.cam, log[k].obj)
  }

  ghost predicate Inv(s: State) {
    && Lawful(s.log)
    && (forall o, p {:trigger IsStopped(s, o, p)} :: IsStopped(s, o, p) ==> Armed(s.log, o, p))
    && (forall w, c {:trigger s.offices[w].cameras[c]} ::
          w in s.offices && c in s.offices[w].cameras
          ==> Covered(s.log, w, c, s.offices[w].cameras[c]))
  }

  lemma ArmedSnoc(log: seq<Entry>, e: Entry, obj: int, p: Profile)
    ensures Armed(log, obj, p) && !IsRestartOf(e, obj, p) ==> Armed(log + [e], obj, p)
    ensures IsNoticeOf(e, obj, p) ==> Armed(log + [e], obj, p)
  {
    var log' := log + [e];
    if IsNoticeOf(e, obj, p) {
      assert IsNoticeOf(log'[|log|], obj, p);
    } else if Armed(log, obj, p) && !IsRestartOf(e, obj, p) {
      var j :| 0 <= j < |log| && IsNoticeOf(log[j], obj, p)
        && forall i :: j < i < |log| ==> !IsRestartOf(log[i], obj, p);
      assert IsNoticeOf(log'[j], obj, p);
    }
  }

  lemma CoveredSnoc(log: seq<Entry>, e: Entry, w: int, c: int, obj: int)
    ensures Covered(log, w, c, obj) && !IsStopOf(e, w, c) ==> Covered(log + [e], w, c, obj)
    ensures IsAssignOf(e, w, c, obj) ==> Covered(log + [e], w, c, obj)
  {
    var log' := log + [e];
    if IsAssignOf(e, w, c, obj) {
      assert IsAssignOf(log'[|log|], w, c, obj);
    } else if Covered(log, w, c, obj) && !IsStopOf(e, w, c) {
      var j :| 0 <= j < |log| && IsAssignOf(log[j], w, c, obj)
        && forall i :: j < i < |log| ==> !IsStopOf(log[i], w, c);
      assert IsAssignOf(log'[j], w, c, obj);
    }
  }

  lemma LawfulSnoc(log: seq<Entry>, e: Entry)
    requires Lawful(log)
    requires e.Restart? ==>
               Armed(log, e.obj, e.key.profile) && Covered(log, e.key.worker, e.key.cam, e.obj)
    ensures Lawful(log + [e])
  {
    var log' := log + [e];
    forall k | 0 <= k < |log'| && log'[k].Restart?
      ensures Armed(log'[..k], log'[k].obj, log'[k].key.profile)
      ensures Covered(log'[..k], log'[k].key.worker, log'[k].key.cam, log'[k].obj)
    {
      if k < |log| {
        assert log'[..k] == log[..k];
      } else {
        assert log'[..k] == log;
      }
    }
  }

  /** What an event newly stops gets a notice; what it restarts was stopped. */
  lemma NextStatus(s: State, e: Event, o: int, p: Profile)
    requires Enabled(s, e) && IsStopped(Next(s, e), o, p)
    ensures IsStopped(s, o, p)
            || (Next(s, e).log != s.log && IsNoticeOf(Next(s, e).log[|s.log|], o, p))
    ensures Next(s, e).log != s.log ==> !IsRestartOf(Next(s, e).log[|s.log|], o, p)
  {
  }

  /** What a worker holds after an event it held before, or was just assigned; it was not just told
      to stop it. */
  lemma NextHeld(s: State, e: Event, w: int, c: int)
    requires Enabled(s, e)
    requires w in Next(s, e).offices && c in Next(s, e).offices[w].cameras
    ensures w in s.offices
    ensures var obj := Next(s, e).offices[w].cameras[c];
            || (c in s.offices[w].cameras && s.offices[w].cameras[c] == obj)
            || (Next(s, e).log != s.log && IsAssignOf(Next(s, e).log[|s.log|], w, c, obj))
    ensures Next(s, e).log != s.log ==> !IsStopOf(Next(s, e).log[|s.log|], w, c)
  {
  }

  lemma NextKeeps(s: State, e: Event)
    requires Inv(s) && Enabled(s, e)
    ensures Inv(Next(s, e))
  {
    var s' := Next(s, e);
    if s'.log != s.log {
      var entry := s'.log[|s.log|];
      assert s'.log == s.log + [entry];
      if entry.Restart? {
        assert IsStopped(s, entry.obj, entry.key.profile);
        assert s.offices[entry.key.worker].cameras[entry.key.cam] == entry.obj;
      }
      LawfulSnoc(s.log, entry);
      forall o, p | IsStopped(s', o, p)
        ensures Armed(s'.log, o, p)
      {
        NextStatus(s, e, o, p);
        ArmedSnoc(s.log, entry, o, p);
      }
      forall w, c | w in s'.offices && c in s'.offices[w].cameras
        ensures Covered(s'.log, w, c, s'.offices[w].cameras[c])
      {
        NextHeld(s, e, w, c);
        CoveredSnoc(s.log, entry, w, c, s'.offices[w].cameras[c]);
      }
    } else {
      forall o, p | IsStopped(s', o, p)
        ensures Armed(s'.log, o, p)
      {
        NextStatus(s, e, o, p);
      }
      forall w, c | w in s'.offices && c in s'.offices[w].cameras
        ensures Covered(s'.log, w, c, s'.offices[w].cameras[c])
      {
        NextHeld(s, e, w, c);
      }
    }
  }

  predicate EnabledRun(s: State, es: seq<Event>)
    decreases |es|
  {
    es != [] ==> Enabled(s, es[0]) && EnabledRun(Next(s, es[0]), es[1..])
  }

  function Run(s: State, es: seq<Event>): State
    requires EnabledRun(s, es)
    decreases |es|
  {
    if es == [] then s else Run(Next(s, es[0]), es[1..])
  }

  lemma {:induction false} RunKeeps(s: State, es: seq<Event>)
    requires Inv(s) && EnabledRun(s, es)
    ensures Inv(Run(s, es))
    decreases |es|
  {
    if es != [] {
      NextKeeps(s, es[0]);
      RunKeeps(Next(s, es[0]), es[1..]);
    }
  }

  /** Workers and cameras exist, nothing is assigned, no goroutine sleeps, no status says stopped. */
  ghost predicate Idle(s: State) {
    && s.log == [] && (forall w :: w in s.offices ==> s.offices[w] == Office(map[], multiset{}))
    && forall o, p :: !IsStopped(s, o, p)
  }

  function CountRestarts(log: seq<Entry>, obj: int, p: Profile): nat {
    if log == [] then 0
    else CountRestarts(log[..|log| - 1], obj, p)
         + if IsRestartOf(log[|log| - 1], obj, p) then 1 else 0
  }

  function CountNotices(log: seq<Entry>, obj: int, p: Profile): nat {
    if log == [] then 0
    else CountNotices(log[..|log| - 1], obj, p)
         + if IsNoticeOf(log[|log| - 1], obj, p) then 1 else 0
  }

  /** In a lawful log restarts never outnumber notices, and one more notice is there when armed. */
  lemma {:induction false} LawfulCounts(log: seq<Entry>, obj: int, p: Profile)
    requires Lawful(log)
    ensures CountRestarts(log, obj, p) + (if Armed(log, obj, p) then 1 else 0)
            <= CountNotices(log, obj, p)
  {
    if log != [] {
      var n := |log| - 1;
      var before, last := log[..n], log[n];
      assert log == before + [last];
      forall k | 0 <= k < n
        ensures log[..k] == before[..k]
      {
      }
      assert Lawful(before) by {
        forall k | 0 <= k < n && before[k].Restart?
          ensures Armed(before[..k], before[k].obj, before[k].key.profile)
          ensures Covered(before[..k], before[k].key.worker, before[k].key.cam, before[k].obj)
        {
          assert log[..k] == before[..k];
        }
      }
      LawfulCounts(before, obj, p);
      if IsRestartOf(last, obj, p) {
        assert Armed(log[..n], obj, p);
        RestartDisarms(log, obj, p);
      } else if !IsNoticeOf(last, obj, p) {
        ArmedUnsnoc(log, obj, p);
      }
    }
  }

  lemma RestartDisarms(log: seq<Entry>, obj: int, p: Profile)
    requires log != [] && IsRestartOf(log[|log| - 1], obj, p)
    ensures !Armed(log, obj, p)
  {
    forall j | 0 <= j < |log| && IsNoticeOf(log[j], obj, p)
      ensures exists i :: j < i < |log| && IsRestartOf(log[i], obj, p)
    {
      assert j < |log| - 1 < |log| && IsRestartOf(log[|log| - 1], obj, p);
    }
  }

  lemma ArmedUnsnoc(log: seq<Entry>, obj: int, p: Profile)
    requires log != [] && !IsNoticeOf(log[|log| - 1], obj, p)
    ensures Armed(log, obj, p) ==> Armed(log[..|log| - 1], obj, p)
  {
    if Armed(log, obj, p) {
      var before := log[..|log| - 1];
      var j :| 0 <= j < |log| && IsNoticeOf(log[j], obj, p)
        && forall i :: j < i < |log| ==> !IsRestartOf(log[i], obj, p);
      assert IsNoticeOf(before[j], obj, p);
    }
  }

  /** The restart protocol, over every interleaving of notices, waking goroutines, assignments,
      stops and status reports on any number of workers: each restart is preceded by a stopped
      notice with no other restart of that profile in between, happens under an assignment that no
      StopCam has ended, and so restarts never outnumber notices. */
  lemma RestartProtocol(s: State, es: seq<Event>)
    requires Idle(s) && EnabledRun(s, es)
    ensures Lawful(Run(s, es).log)
    ensures forall o, p :: CountRestarts(Run(s, es).log, o, p) <= CountNotices(Run(s, es).log, o, p)
  {
    RunKeeps(s, es);
    var log := Run(s, es).log;
    forall o, p
      ensures CountRestarts(log, o, p) <= CountNotices(log, o, p)
    {
      LawfulCounts(log, o, p);
    }
  }

  // ------------------------------------------------------------------ goroutines

  function CountKey(log: seq<Entry>, k: Key, restarts: bool): nat {
    if log == [] then 0
    else CountKey(log[..|log| - 1], k, restarts)
         + if log[|log| - 1].key == k && (if restarts then log[|log| - 1].Restart?
                                          else log[|log| - 1].Notice?) then 1 else 0
  }

  function Asleep(s: State, k: Key): nat {
    if k.worker in s.offices then s.offices[k.worker].sleeping[(k.cam, k.profile)] else 0
  }

  lemma CountSnoc(log: seq<Entry>, e: Entry, k: Key, restarts: bool)
    ensures CountKey(log + [e], k, restarts)
            == CountKey(log, k, restarts)
               + if e.key == k && (if restarts then e.Restart? else e.Notice?) then 1 else 0
  {
    assert (log + [e])[..|log|] == log;
  }

  lemma NextAsleep(s: State, e: Event, k: Key)
    requires Enabled(s, e)
    ensures Asleep(Next(s, e), k)
            == Asleep(s, k) + (if e == StoppedNotice(k) then 1 else 0) - (if e == Wake(k) then 1 else 0)
  {
    hide Holder, Marked;
    if WorkerOf(e) == k.worker {
      assert s.offices[k.worker].sleeping[(k.cam, k.profile)] == Asleep(s, k);
    }
  }

  /** What an event adds to the log is about its own stream. */
  lemma NextLogs(s: State, e: Event)
    requires Enabled(s, e)
    ensures Next(s, e).log == s.log
            || exists x :: Next(s, e).log == s.log + [x]
                 && (x.Restart? ==> e == Wake(x.key)) && (x.Notice? ==> e == StoppedNotice(x.key))
    ensures e.StoppedNotice? ==> exists t :: Next(s, e).log == s.log + [Notice(e.key, t)]
  {
  }

  lemma NextCounts(s: State, e: Event, k: Key)
    requires Enabled(s, e)
    requires CountKey(s.log, k, true) + Asleep(s, k) <= CountKey(s.log, k, false)
    ensures var s' := Next(s, e);
            CountKey(s'.log, k, true) + Asleep(s', k) <= CountKey(s'.log, k, false)
  {
    NextAsleep(s, e, k);
    NextLogs(s, e);
    var log' := Next(s, e).log;
    if log' != s.log {
      var x := log'[|s.log|];
      CountSnoc(s.log, x, k, true);
      CountSnoc(s.log, x, k, false);
      assert log' == s.log + [x];
    }
  }

  function Happened(es: seq<Event>, e: Event): nat {
    if es == [] then 0 else (if es[0] == e then 1 else 0) + Happened(es[1..], e)
  }

  /** Sleepers are conserved: on every run each notice, of a held camera or not, puts exactly one
      restart to sleep, each wake ends exactly one, and nothing else does either. */
  lemma {:induction false} SleepersConserved(s: State, es: seq<Event>, k: Key)
    requires EnabledRun(s, es)
    ensures Asleep(Run(s, es), k) + Happened(es, Wake(k))
            == Asleep(s, k) + Happened(es, StoppedNotice(k))
    decreases |es|
  {
    if es != [] {
      NextAsleep(s, es[0], k);
      SleepersConserved(Next(s, es[0]), es[1..], k);
    }
  }

  lemma NextStops(s: State, e: Event, k: Key)
    requires Enabled(s, e)
    ensures multiset(Next(s, e).log)[StoppedCam(k)]
            == multiset(s.log)[StoppedCam(k)] + if e == Stop(k) then 1 else 0
  {
  }

  /** Every stop is in the log the law speaks of. */
  lemma {:induction false} StopsAreLogged(s: State, es: seq<Event>, k: Key)
    requires EnabledRun(s, es)
    ensures multiset(Run(s, es).log)[StoppedCam(k)]
            == multiset(s.log)[StoppedCam(k)] + Happened(es, Stop(k))
    decreases |es|
  {
    if es != [] {
      NextStops(s, es[0], k);
      StopsAreLogged(Next(s, es[0]), es[1..], k);
    }
  }

  /** A notice about a profile a worker holds is followed by a restart when its sleeper wakes, whatever
      state the profile was in before, if nothing happens in between. */
  lemma NoticeIsFollowed(s: State, k: Key)
    requires k.worker in s.offices && Holder(s.offices[k.worker], s.status, k.cam, k.profile).Some?
    ensures Enabled(s, StoppedNotice(k)) && Enabled(Next(s, StoppedNotice(k)), Wake(k))
    ensures var obj := s.offices[k.worker].cameras[k.cam];
            var s2 := Next(Next(s, StoppedNotice(k)), Wake(k));
            && s2.log == s.log + [Notice(k, Some(obj))] + [Restart(k, obj)]
            && s2.status[obj][k.profile] == Starting
  {
  }

  /** A status report for the profile comes in time: the sleeper then wakes without a restart. */
  lemma ReportCancelsRestart(s: State, k: Key, status: Status)
    requires Enabled(s, Report(k, status))
    requires Holder(s.offices[k.worker], s.status, k.cam, k.profile).Some?
    requires (k.cam, k.profile) in s.offices[k.worker].sleeping
    ensures var obj := s.offices[k.worker].cameras[k.cam];
            var s2 := Next(Next(s, Report(k, status)), Wake(k));
            s2.log == s.log && s2.status == Marked(s.status, obj, k.profile, status)
  {
  }

  /** The worker assigns itself no object of that camera. */
  predicate NotAssigned(s: State, es: seq<Event>, worker: int, cam: int) {
    forall e :: e in es && e.Assign? && e.worker == worker && e.obj in s.camOf ==> s.camOf[e.obj] != cam
  }

  predicate NoneRestarted(log: seq<Entry>, worker: int, cam: int) {
    forall x :: x in log && x.Restart? ==> !(x.key.worker == worker && x.key.cam == cam)
  }

  lemma StepWithout(s: State, e: Event, worker: int, cam: int)
    requires Enabled(s, e) && worker in s.offices && cam !in s.offices[worker].cameras
    requires NotAssigned(s, [e], worker, cam)
    ensures var s' := Next(s, e);
            && s'.camOf == s.camOf && worker in s'.offices && cam !in s'.offices[worker].cameras
            && s.log <= s'.log && NoneRestarted(s'.log[|s.log|..], worker, cam)
  {
    assert e in [e];
  }

  lemma {:induction false} RunWithout(s: State, es: seq<Event>, worker: int, cam: int)
    requires EnabledRun(s, es) && worker in s.offices && cam !in s.offices[worker].cameras
    requires NotAssigned(s, es, worker, cam)
    ensures s.log <= Run(s, es).log && NoneRestarted(Run(s, es).log[|s.log|..], worker, cam)
    decreases |es|
  {
    if es != [] {
      assert es[0] in es;
      StepWithout(s, es[0], worker, cam);
      var s1 := Next(s, es[0]);
      hide Next;
      assert NotAssigned(s1, es[1..], worker, cam);
      RunWithout(s1, es[1..], worker, cam);
      LogParts(s.log, s1.log, Run(s1, es[1..]).log, worker, cam);
    }
  }

  lemma LogParts(a: seq<Entry>, b: seq<Entry>, c: seq<Entry>, worker: int, cam: int)
    requires a <= b <= c
    requires NoneRestarted(b[|a|..], worker, cam) && NoneRestarted(c[|b|..], worker, cam)
    ensures a <= c && NoneRestarted(c[|a|..], worker, cam)
  {
    assert c[|a|..] == b[|a|..] + c[|b|..];
  }

  /** Told by the events: after a StopCam no sleeper, present or to come, restarts the camera on that
      worker, until it is assigned there again. */
  lemma NoRestartAfterStop(s: State, k: Key, es: seq<Event>)
    requires Enabled(s, Stop(k)) && EnabledRun(Next(s, Stop(k)), es)
    requires NotAssigned(s, es, k.worker, k.cam)
    ensures var stopped := Next(s, Stop(k));
            && stopped.log <= Run(stopped, es).log
            && NoneRestarted(Run(stopped, es).log[|stopped.log|..], k.worker, k.cam)
  {
    RunWithout(Next(s, Stop(k)), es, k.worker, k.cam);
  }

  /** Each notice sends one goroutine to sleep and each wakes once: per worker, camera and profile,
      restarts and goroutines still asleep together never outnumber the notices. */
  lemma {:induction false} OneGoroutinePerNotice(s: State, es: seq<Event>, k: Key)
    requires EnabledRun(s, es)
    requires CountKey(s.log, k, true) + Asleep(s, k) <= CountKey(s.log, k, false)
    ensures var s' := Run(s, es);
            CountKey(s'.log, k, true) + Asleep(s', k) <= CountKey(s'.log, k, false)
    decreases |es|
  {
    if es != [] {
      NextCounts(s, es[0], k);
      OneGoroutinePerNotice(Next(s, es[0]), es[1..], k);
    }
  }
}
