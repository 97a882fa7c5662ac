/** The restart protocol by what the worker itself sees: the START commands it printed, the stopped
    notices it handled, and the STARTs that got no ring. */
module Assignments {
  import opened Supervision
  import Pool = ChannelPool

  /** The books, by camera. */
  datatype Ledger = Ledger(printed: multiset<int>, handled: multiset<int>, refused: multiset<int>)

  const EMPTY: Ledger := Ledger(multiset{}, multiset{}, multiset{})

  function Booked(s: Site, placed: Placed, l: Ledger, e: Event): Ledger
    requires Enabled(s, placed, e)
  {
    match e
    case Assign(obj) =>
      if Next(s, placed, e).starts == s.starts then l
      else l.(printed := l.printed + multiset{s.camOf[obj]})
    case Wake(cam) =>
      if Next(s, placed, e).starts == s.starts then l
      else l.(printed := l.printed + multiset{cam})
    case Notice(cam) => l.(handled := l.handled + multiset{cam})
    case Obey(cam) =>
      if Pool.Acquire(s.host.pool, cam).1 != -1 then l
      else l.(refused := l.refused + multiset{cam})
    case _ => l
  }

  function Books(s: Site, placed: Placed, l: Ledger, es: seq<Event>): Ledger
    requires EnabledRun(s, placed, es)
    decreases |es|
  {
    if es == [] then l
    else Books(Next(s, placed, es[0]), placed, Booked(s, placed, l, es[0]), es[1..])
  }

  /** Every START printed for the camera has been answered by a notice or a refusal. */
  predicate Balanced(l: Ledger, cam: int) {
    l.printed[cam] == l.handled[cam] + l.refused[cam]
  }

  /** What a worker can check before it assigns a camera. */
  predicate Checked(s: Site, l: Ledger, e: Event) {
    e.Assign? && e.obj in s.camOf ==> Balanced(l, s.camOf[e.obj])
  }

  predicate CheckedRun(s: Site, placed: Placed, l: Ledger, es: seq<Event>)
    requires EnabledRun(s, placed, es)
    decreases |es|
  {
    es != [] ==>
      && Checked(s, l, es[0])
      && CheckedRun(Next(s, placed, es[0]), placed, Booked(s, placed, l, es[0]), es[1..])
  }

  // ------------------------------------------------------------------ the balance

  ghost function LiveCount(s: Site, cam: int): nat {
    if Pool.CameraLive(s.host, cam) then 1 else 0
  }

  /** Each START printed is on its way, lives as an object, has its notice to come, or was
      answered. */
  ghost predicate Accounted(s: Site, l: Ledger, cam: int) {
    l.printed[cam]
    == s.starts[cam] + LiveCount(s, cam) + s.notices[cam] + l.handled[cam] + l.refused[cam]
  }

  lemma ObeyAccounts(s: Site, placed: Placed, n: nat, l: Ledger, cam: int, c: int)
    requires Inv(s, placed, n) && Enabled(s, placed, Obey(cam)) && Accounted(s, l, c)
    ensures Accounted(Next(s, placed, Obey(cam)), Booked(s, placed, l, Obey(cam)), c)
  {
    hide Pool.HostOk;
    assert CameraOk(s, placed, cam);
    LiveAfterStart(s.host, s.nextId, cam, c);
    hide Pool.CameraLive, Pool.Happen, Pool.Acquire;
  }

  lemma CleanupAccounts(s: Site, placed: Placed, n: nat, l: Ledger, id: int, c: int)
    requires Inv(s, placed, n) && Enabled(s, placed, Cleanup(id)) && Accounted(s, l, c)
    ensures Accounted(Next(s, placed, Cleanup(id)), Booked(s, placed, l, Cleanup(id)), c)
  {
    assert Pool.CameraLive(s.host, s.host.live[id].0);
    LiveAfterCleanup(s.host, n, id, c);
    hide Pool.CameraLive, Pool.Happen;
  }

  lemma DeskMoves(s: Site, placed: Placed, e: Event, c: int)
    requires Enabled(s, placed, e) && !e.Obey? && !e.Cleanup?
    ensures var s' := Next(s, placed, e);
            && s'.host == s.host
            && s'.notices[c] == s.notices[c] - (if e == Notice(c) then 1 else 0)
            && (s'.starts == s.starts
                || (e.Assign? && s'.starts == s.starts + multiset{s.camOf[e.obj]})
                || (e.Wake? && s'.starts == s.starts + multiset{e.cam}))
  {
  }

  lemma DeskAccounts(s: Site, placed: Placed, l: Ledger, e: Event, c: int)
    requires Enabled(s, placed, e) && !e.Obey? && !e.Cleanup? && Accounted(s, l, c)
    ensures Accounted(Next(s, placed, e), Booked(s, placed, l, e), c)
  {
    hide Pool.CameraLive, Pool.Happen;
    DeskMoves(s, placed, e, c);
    hide Next;
  }

  lemma NextAccounts(s: Site, placed: Placed, n: nat, l: Ledger, e: Event, c: int)
    requires Inv(s, placed, n) && Enabled(s, placed, e) && Accounted(s, l, c)
    ensures Accounted(Next(s, placed, e), Booked(s, placed, l, e), c)
  {
    hide Next, Booked, Accounted, Inv;
    match e
    case Obey(cam) => ObeyAccounts(s, placed, n, l, cam, c);
    case Cleanup(id) => CleanupAccounts(s, placed, n, l, id, c);
    case _ => DeskAccounts(s, placed, l, e, c);
  }

  ghost predicate AllAccounted(s: Site, l: Ledger) {
    forall cam {:trigger Accounted(s, l, cam)} :: Accounted(s, l, cam)
  }

  lemma NextAllAccounted(s: Site, placed: Placed, n: nat, l: Ledger, e: Event)
    requires Inv(s, placed, n) && Enabled(s, placed, e) && AllAccounted(s, l)
    ensures AllAccounted(Next(s, placed, e), Booked(s, placed, l, e))
  {
    hide Next, Booked, Accounted, Inv;
    forall cam
      ensures Accounted(Next(s, placed, e), Booked(s, placed, l, e), cam)
    {
      assert Accounted(s, l, cam);
      NextAccounts(s, placed, n, l, e, cam);
    }
  }

  /** The books tell whether anything of a camera is under way. */
  lemma BalancedIsSettled(s: Site, l: Ledger, cam: int)
    requires Accounted(s, l, cam)
    ensures Balanced(l, cam) <==> Settled(s, cam)
  {
  }

  lemma CheckedIsCareful(s: Site, l: Ledger, e: Event)
    requires AllAccounted(s, l)
    ensures Checked(s, l, e) <==> Careful(s, e)
  {
    if e.Assign? && e.obj in s.camOf {
      assert Accounted(s, l, s.camOf[e.obj]);
      BalancedIsSettled(s, l, s.camOf[e.obj]);
    }
  }

  /** What the worker can check is exactly what has to be checked. */
  lemma {:induction false} CheckedRunIsCareful(s: Site, placed: Placed, n: nat, l: Ledger, es: seq<Event>)
    requires Inv(s, placed, n) && AllAccounted(s, l) && EnabledRun(s, placed, es)
    ensures CheckedRun(s, placed, l, es) <==> CarefulRun(s, placed, es)
    ensures CarefulRun(s, placed, es) ==> AllAccounted(Run(s, placed, es), Books(s, placed, l, es))
    decreases |es|
  {
    hide Next, Booked, AllAccounted, Inv;
    if es != [] {
      CheckedIsCareful(s, l, es[0]);
      if Careful(s, es[0]) {
        NextKeeps(s, placed, n, es[0]);
        NextAllAccounted(s, placed, n, l, es[0]);
        CheckedRunIsCareful(Next(s, placed, es[0]), placed, n, Booked(s, placed, l, es[0]), es[1..]);
      }
    }
  }

  lemma NewAccounted(s: Site, n: nat)
    requires New(s, n)
    ensures AllAccounted(s, EMPTY)
  {
    forall cam
      ensures Accounted(s, EMPTY, cam)
    {
    }
  }

  // ------------------------------------------------------------------ the protocol

  /** After every run with checked assignments the worker's books say exactly which cameras have
      nothing under way: no START on its way, no object, no notice. */
  lemma BooksTellSettled(s: Site, placed: Placed, n: nat, es: seq<Event>, cam: int)
    requires New(s, n) && EnabledRun(s, placed, es) && CheckedRun(s, placed, EMPTY, es)
    ensures Settled(Run(s, placed, es), cam) <==> Balanced(Books(s, placed, EMPTY, es), cam)
  {
    NewIsOk(s, placed, n);
    NewAccounted(s, n);
    CheckedRunIsCareful(s, placed, n, EMPTY, es);
    assert Accounted(Run(s, placed, es), Books(s, placed, EMPTY, es), cam);
    BalancedIsSettled(Run(s, placed, es), Books(s, placed, EMPTY, es), cam);
  }

  /** Over every interleaving of assignments, stops, notices, waking restarts, status reports, the
      engine's starts and clean-ups, and other workers: when the worker assigns a camera only with
      its books for it balanced, every START, a restart's included, finds no live object of its
      camera, every restart that goes ahead finds nothing of it under way, and no two live objects
      ever share a ring. */
  lemma RestartsAreDisciplined(s: Site, placed: Placed, n: nat, es: seq<Event>)
    requires New(s, n) && EnabledRun(s, placed, es) && CheckedRun(s, placed, EMPTY, es)
    ensures StartsDisciplined(s, placed, es) && RestartsSettled(s, placed, es)
    ensures Pool.Exclusive(Run(s, placed, es).host)
  {
    NewIsOk(s, placed, n);
    NewAccounted(s, n);
    CheckedRunIsCareful(s, placed, n, EMPTY, es);
    RunKeeps(s, placed, n, es);
    Pool.HostIsExclusive(Run(s, placed, es).host, n);
  }

  lemma {:induction false} NoAssignIsCareful(s: Site, placed: Placed, es: seq<Event>)
    requires EnabledRun(s, placed, es) && NoAssign(es)
    ensures CarefulRun(s, placed, es)
    decreases |es|
  {
    if es != [] {
      assert es[0] in es;
      NoAssignIsCareful(Next(s, placed, es[0]), placed, es[1..]);
    }
  }

  lemma SettledAssignIsSafe(s: Site, placed: Placed, n: nat, obj: int)
    requires Inv(s, placed, n) && obj in s.camOf && Settled(s, s.camOf[obj])
    ensures !CanShare(Next(s, placed, Assign(obj)), placed)
  {
    hide Next, Inv, Pool.Exclusive, Pool.HostOk;
    var s1 := Next(s, placed, Assign(obj));
    NextKeeps(s, placed, n, Assign(obj));
    forall es | NoAssign(es) && EnabledRun(s1, placed, es)
      ensures Pool.Exclusive(Run(s1, placed, es).host)
    {
      NoAssignIsCareful(s1, placed, es);
      RunKeeps(s1, placed, n, es);
      InvIsExclusive(Run(s1, placed, es), placed, n);
    }
  }

  lemma InvIsExclusive(s: Site, placed: Placed, n: nat)
    requires Inv(s, placed, n)
    ensures Pool.Exclusive(s.host)
  {
    Pool.HostIsExclusive(s.host, n);
  }

  /** The check is exact. After any run with checked assignments, assigning a camera that has the
      profile is safe, that is, without another assignment no continuation ever puts two live objects
      on one ring, if and only if the books for that camera are balanced. */
  lemma AssignExact(s: Site, placed: Placed, n: nat, es: seq<Event>, obj: int)
    requires New(s, n) && n > 0
    requires EnabledRun(s, placed, es) && CheckedRun(s, placed, EMPTY, es)
    requires var s1 := Run(s, placed, es);
             obj in s1.camOf && obj in s1.status && placed(s1.camOf[obj]) in s1.status[obj]
    ensures var s1 := Run(s, placed, es);
            !CanShare(Next(s1, placed, Assign(obj)), placed)
            <==> Balanced(Books(s, placed, EMPTY, es), s1.camOf[obj])
  {
    hide Next, Inv, Pool.Exclusive, CanShare;
    var s1 := Run(s, placed, es);
    NewIsOk(s, placed, n);
    NewAccounted(s, n);
    CheckedRunIsCareful(s, placed, n, EMPTY, es);
    RunKeeps(s, placed, n, es);
    BooksTellSettled(s, placed, n, es, s1.camOf[obj]);
    if Settled(s1, s1.camOf[obj]) {
      SettledAssignIsSafe(s1, placed, n, obj);
    } else {
      UnsettledAssignShares(s1, placed, n, obj);
    }
  }

  // ------------------------------------------------------------------ each number assigned once

  /** No camera number is assigned twice. */
  predicate AssignedOnce(s: Site, es: seq<Event>) {
    forall i, j :: 0 <= i < j < |es| && es[i].Assign? && es[j].Assign?
                   && es[i].obj in s.camOf && es[j].obj in s.camOf ==>
      s.camOf[es[i].obj] != s.camOf[es[j].obj]
  }

  /** The worker does not hold the camera and never printed a START for it. */
  predicate Unused(s: Site, l: Ledger, cam: int) {
    cam !in s.office.cameras && l.printed[cam] == 0
  }

  predicate AllUnused(s: Site, l: Ledger, es: seq<Event>) {
    forall i :: 0 <= i < |es| && es[i].Assign? && es[i].obj in s.camOf ==>
      Unused(s, l, s.camOf[es[i].obj])
  }

  /** Only an assignment adds a camera to the worker's table. */
  lemma NextHolds(s: Site, placed: Placed, e: Event, cam: int)
    requires Enabled(s, placed, e) && cam !in s.office.cameras
    requires e.Assign? ==> s.camOf[e.obj] != cam
    ensures cam !in Next(s, placed, e).office.cameras
  {
    hide Pool.Happen;
  }

  /** A camera the worker does not hold is not restarted. */
  lemma NextPrints(s: Site, placed: Placed, l: Ledger, e: Event, cam: int)
    requires Enabled(s, placed, e) && cam !in s.office.cameras
    requires e.Assign? ==> s.camOf[e.obj] != cam
    ensures Booked(s, placed, l, e).printed[cam] == l.printed[cam]
  {
    if e.Wake? && e.cam == cam {
      assert Next(s, placed, e).starts == s.starts;
    }
    hide Next;
  }

  lemma NextUnused(s: Site, placed: Placed, l: Ledger, e: Event, cam: int)
    requires Enabled(s, placed, e) && Unused(s, l, cam)
    requires e.Assign? ==> s.camOf[e.obj] != cam
    ensures Unused(Next(s, placed, e), Booked(s, placed, l, e), cam)
  {
    hide Next, Booked;
    NextHolds(s, placed, e, cam);
    NextPrints(s, placed, l, e, cam);
  }

  lemma NextAllUnused(s: Site, placed: Placed, l: Ledger, es: seq<Event>)
    requires es != [] && Enabled(s, placed, es[0])
    requires AssignedOnce(s, es) && AllUnused(s, l, es)
    ensures var (s', l') := (Next(s, placed, es[0]), Booked(s, placed, l, es[0]));
            AssignedOnce(s', es[1..]) && AllUnused(s', l', es[1..])
  {
    var e := es[0];
    var s', l' := Next(s, placed, e), Booked(s, placed, l, e);
    NextCamOf(s, placed, e);
    hide Next, Booked, Unused;
    forall i | 0 <= i < |es[1..]| && es[1..][i].Assign? && es[1..][i].obj in s'.camOf
      ensures Unused(s', l', s'.camOf[es[1..][i].obj])
    {
      assert es[1..][i] == es[i + 1];
      NextUnused(s, placed, l, e, s.camOf[es[i + 1].obj]);
    }
  }

  lemma {:induction false} OnceIsChecked(s: Site, placed: Placed, n: nat, l: Ledger, es: seq<Event>)
    requires Inv(s, placed, n) && AllAccounted(s, l) && EnabledRun(s, placed, es)
    requires AssignedOnce(s, es) && AllUnused(s, l, es)
    ensures CheckedRun(s, placed, l, es)
    decreases |es|
  {
    hide Next, Booked, Inv, AssignedOnce;
    if es != [] {
      if es[0].Assign? {
        assert Unused(s, l, s.camOf[es[0].obj]);
        assert Accounted(s, l, s.camOf[es[0].obj]);
      }
      CheckedIsCareful(s, l, es[0]);
      NextKeeps(s, placed, n, es[0]);
      NextAllAccounted(s, placed, n, l, es[0]);
      NextAllUnused(s, placed, l, es);
      OnceIsChecked(Next(s, placed, es[0]), placed, n, Booked(s, placed, l, es[0]), es[1..]);
    }
  }

  /** On a run on which no deleted camera is added again each number is assigned once, at startup or
      when the camera is added. Then every assignment is checked, so the protocol holds. A deleted
      camera that is added again gets its old number back: see ReaddExact. */
  lemma AssignedOnceIsDisciplined(s: Site, placed: Placed, n: nat, es: seq<Event>)
    requires New(s, n) && EnabledRun(s, placed, es) && AssignedOnce(s, es)
    ensures CheckedRun(s, placed, EMPTY, es)
    ensures StartsDisciplined(s, placed, es) && RestartsSettled(s, placed, es)
    ensures Pool.Exclusive(Run(s, placed, es).host)
  {
    NewIsOk(s, placed, n);
    NewAccounted(s, n);
    OnceIsChecked(s, placed, n, EMPTY, es);
    RestartsAreDisciplined(s, placed, n, es);
  }

  // ------------------------------------------------------------------ a camera added again

  lemma {:induction false} BooksSnoc(s: Site, placed: Placed, l: Ledger, es: seq<Event>, e: Event)
    requires EnabledRun(s, placed, es) && Enabled(Run(s, placed, es), placed, e)
    ensures EnabledRun(s, placed, es + [e])
    ensures Run(s, placed, es + [e]) == Next(Run(s, placed, es), placed, e)
    ensures Books(s, placed, l, es + [e])
            == Booked(Run(s, placed, es), placed, Books(s, placed, l, es), e)
    ensures CheckedRun(s, placed, l, es + [e])
            <==> CheckedRun(s, placed, l, es)
                 && Checked(Run(s, placed, es), Books(s, placed, l, es), e)
    decreases |es|
  {
    hide Next, Booked, Checked, Enabled;
    RunSnoc(s, placed, es, e);
    if es == [] {
      assert [e][1..] == [] && es + [e] == [e];
    } else {
      assert (es + [e])[1..] == es[1..] + [e];
      BooksSnoc(Next(s, placed, es[0]), placed, Booked(s, placed, l, es[0]), es[1..], e);
    }
  }

  /** Deleting a camera settles nothing. After any run with checked assignments, deleting a camera and
      adding it again under its old number is safe if and only if its books were balanced before the
      deletion. */
  lemma ReaddExact(s: Site, placed: Placed, n: nat, es: seq<Event>, obj: int)
    requires New(s, n) && n > 0
    requires EnabledRun(s, placed, es) && CheckedRun(s, placed, EMPTY, es)
    requires var s1 := Run(s, placed, es);
             obj in s1.camOf && obj in s1.status && placed(s1.camOf[obj]) in s1.status[obj]
    ensures var s1 := Run(s, placed, es);
            var deleted := Next(s1, placed, StopCam(s1.camOf[obj]));
            && Enabled(deleted, placed, Assign(obj))
            && (!CanShare(Next(deleted, placed, Assign(obj)), placed)
                <==> Balanced(Books(s, placed, EMPTY, es), s1.camOf[obj]))
  {
    hide CanShare, Books, CheckedRun;
    var stop := StopCam(Run(s, placed, es).camOf[obj]);
    BooksSnoc(s, placed, EMPTY, es, stop);
    AssignExact(s, placed, n, es + [stop], obj);
  }

  lemma TwoEvents(s: Site, placed: Placed, n: nat, a: int)
    requires New(s, n) && n > 0
    requires a in s.camOf && a in s.status && placed(s.camOf[a]) in s.status[a]
    ensures var (cam, es) := (s.camOf[a], [Assign(a)] + [Obey(s.camOf[a])]);
            && EnabledRun(s, placed, es) && CheckedRun(s, placed, EMPTY, es)
            && Books(s, placed, EMPTY, es) == Ledger(multiset{cam}, multiset{}, multiset{})
            && Inv(Run(s, placed, es), placed, n) && Pool.CameraLive(Run(s, placed, es).host, cam)
            && Run(s, placed, es).camOf == s.camOf
            && forall o :: o in s.status ==>
                 o in Run(s, placed, es).status && s.status[o].Keys <= Run(s, placed, es).status[o].Keys
  {
    hide Inv, Pool.HostOk, Pool.CameraLive, Pool.Happen, Tidy, CameraOk, Filed;
    var cam := s.camOf[a];
    var s1 := Next(s, placed, Assign(a));
    NewIsOk(s, placed, n);
    NotLiveNew(s, n, cam);
    NextKeeps(s, placed, n, Assign(a));
    FirstAssigned(s, placed, a);
    FirstObeyed(s1, placed, n, cam);
    NextKeeps(s1, placed, n, Obey(cam));
    assert [] + [Assign(a)] == [Assign(a)];
    BooksSnoc(s, placed, EMPTY, [], Assign(a));
    BooksSnoc(s, placed, EMPTY, [Assign(a)], Obey(cam));
  }

  lemma NotLiveNew(s: Site, n: nat, cam: int)
    requires New(s, n)
    ensures !Pool.CameraLive(s.host, cam)
  {
  }

  lemma FirstAssigned(s: Site, placed: Placed, a: int)
    requires a in s.camOf && a in s.status && placed(s.camOf[a]) in s.status[a]
    ensures var s1 := Next(s, placed, Assign(a));
            && s1.starts == s.starts + multiset{s.camOf[a]} && s1.starts != s.starts
            && s1.host == s.host && s1.camOf == s.camOf
            && forall o :: o in s.status ==>
                 o in s1.status && s.status[o].Keys <= s1.status[o].Keys
  {
    assert Next(s, placed, Assign(a)).starts[s.camOf[a]] == s.starts[s.camOf[a]] + 1;
  }

  lemma FirstObeyed(s: Site, placed: Placed, n: nat, cam: int)
    requires s.host == Pool.Fresh(n) && n > 0 && cam in s.starts
    ensures Pool.Acquire(s.host.pool, cam).1 != -1
    ensures var s1 := Next(s, placed, Obey(cam));
            Pool.CameraLive(s1.host, cam) && s1.camOf == s.camOf && s1.status == s.status
  {
    LiveAfterStart(s.host, s.nextId, cam, cam);
  }

  /** The program does not make the check when a deleted camera is added again. On this run it is
      assigned, started and deleted, every assignment checked; added again under its number and
      started, it shares a ring with its old object, which has not cleaned up yet. */
  lemma ReaddedCameraShares(s: Site, placed: Placed, n: nat, a: int, b: int)
    requires New(s, n) && n > 0
    requires a in s.camOf && a in s.status && placed(s.camOf[a]) in s.status[a]
    requires b in s.camOf && b in s.status && placed(s.camOf[b]) in s.status[b]
    requires s.camOf[a] == s.camOf[b]
    ensures var cam := s.camOf[a];
            var es := [Assign(a)] + [Obey(cam)] + [StopCam(cam)];
            && EnabledRun(s, placed, es) && CheckedRun(s, placed, EMPTY, es)
            && !Balanced(Books(s, placed, EMPTY, es), cam)
            && EnabledRun(s, placed, es + [Assign(b)] + [Obey(cam)])
            && !Pool.Exclusive(Run(s, placed, es + [Assign(b)] + [Obey(cam)]).host)
  {
    hide Inv, Pool.HostOk, Pool.CameraLive, Pool.Happen, Pool.Exclusive, Books, CheckedRun, EnabledRun, Run;
    var cam := s.camOf[a];
    var es := [Assign(a)] + [Obey(cam)];
    TwoEvents(s, placed, n, a);
    var s2 := Run(s, placed, es);
    BooksSnoc(s, placed, EMPTY, es, StopCam(cam));
    var s3 := Next(s2, placed, StopCam(cam));
    FirstAssigned(s3, placed, b);
    BooksSnoc(s, placed, EMPTY, es + [StopCam(cam)], Assign(b));
    var s4 := Next(s3, placed, Assign(b));
    InvParts(s2, placed, n);
    SecondStartShares(s4, placed, n, cam);
    BooksSnoc(s, placed, EMPTY, es + [StopCam(cam)] + [Assign(b)], Obey(cam));
  }

  lemma InvParts(s: Site, placed: Placed, n: nat)
    requires Inv(s, placed, n)
    ensures Pool.HostOk(s.host, n) && forall id :: id in s.host.live ==> id < s.nextId
  {
  }

  // ------------------------------------------------------------------ enough rings

  /** Every camera with a START on its way, a ring, or a place in the worker's table is one of cs. */
  predicate Within(s: Site, cs: set<int>) {
    && (forall c :: c in s.starts ==> c in cs)
    && s.host.pool.used.Keys <= cs && s.office.cameras.Keys <= cs
  }

  /** A pool with nothing free has given each of its channels to a camera of its own. */
  lemma {:induction false} AllGiven(p: Pool.Pool, n: nat)
    requires Pool.Partitions(p, n) && p.free == []
    ensures |p.used.Keys| >= n
    decreases n
  {
    if n > 0 {
      assert Pool.Held(p, n - 1);
      var c :| c in p.used && p.used[c] == n - 1;
      var p' := Pool.Pool([], p.used - {c});
      forall ch: nat
        ensures ch < n - 1 <==> Pool.Held(p', ch)
      {
        GivenWithout(p, c, ch);
      }
      AllGiven(p', n - 1);
      assert p'.used.Keys == p.used.Keys - {c};
    }
  }

  lemma GivenWithout(p: Pool.Pool, c: int, ch: nat)
    requires c in p.used
    requires forall a, b :: a in p.used && b in p.used && a != b ==> p.used[a] != p.used[b]
    ensures Pool.Held(Pool.Pool([], p.used - {c}), ch) <==> Pool.Held(p, ch) && ch != p.used[c]
  {
    var p' := Pool.Pool([], p.used - {c});
    if Pool.Held(p', ch) {
      var a :| a in p'.used && p'.used[a] == ch;
      assert a in p.used && p.used[a] == ch;
    }
    if Pool.Held(p, ch) && ch != p.used[c] {
      var a :| a in p.used && p.used[a] == ch;
      assert a in p'.used && p'.used[a] == ch;
    }
  }

  lemma RingForEach(s: Site, placed: Placed, n: nat, cs: set<int>, cam: int)
    requires Pool.Partitions(s.host.pool, n) && Within(s, cs) && |cs| <= n
    requires Enabled(s, placed, Obey(cam))
    ensures Pool.Acquire(s.host.pool, cam).1 != -1
  {
    var p := s.host.pool;
    Pool.AcquireKeeps(p, n, cam);
    if cam !in p.used && p.free == [] {
      AllGiven(p, n);
      Smaller(p.used.Keys, cs, cam);
    }
  }

  lemma Smaller(a: set<int>, b: set<int>, x: int)
    requires a <= b && x in b && x !in a
    ensures |a| < |b|
  {
    var rest := b - a;
    assert a + rest == b && a * rest == {};
    assert rest == {x} + (rest - {x});
  }

  lemma NextPartitions(s: Site, placed: Placed, n: nat, e: Event)
    requires Pool.Partitions(s.host.pool, n) && Enabled(s, placed, e)
    ensures Pool.Partitions(Next(s, placed, e).host.pool, n)
  {
    hide Pool.Partitions;
    match e
    case Obey(cam) => Pool.AcquireKeeps(s.host.pool, n, cam);
    case Cleanup(id) => Pool.ReleaseKeeps(s.host.pool, n, s.host.live[id].0);
    case _ =>
  }

  lemma NextWithin(s: Site, placed: Placed, e: Event, cs: set<int>)
    requires Within(s, cs) && Enabled(s, placed, e) && (e.Assign? ==> s.camOf[e.obj] in cs)
    ensures Within(Next(s, placed, e), cs)
  {
    hide Pool.CameraLive;
    if !e.Obey? && !e.Cleanup? {
      forall c | c in Next(s, placed, e).starts
        ensures c in cs
      {
        DeskMoves(s, placed, e, c);
        DeskHolds(s, placed, e, cs);
      }
      DeskHolds(s, placed, e, cs);
      hide Next;
    }
  }

  /** What the worker's own events do to the table; a restart is always of a camera in it. */
  lemma DeskHolds(s: Site, placed: Placed, e: Event, cs: set<int>)
    requires Enabled(s, placed, e) && !e.Obey? && !e.Cleanup?
    requires s.office.cameras.Keys <= cs && (e.Assign? ==> s.camOf[e.obj] in cs)
    ensures Next(s, placed, e).office.cameras.Keys <= cs && Next(s, placed, e).host == s.host
    ensures e.Wake? && Next(s, placed, e).starts != s.starts ==> e.cam in cs
  {
  }

  /** A worker that is only ever given as many camera numbers as it has rings never has a START
      refused, so its books are the STARTs it printed and the notices it handled. */
  lemma {:induction false} EnoughRings(
      s: Site, placed: Placed, n: nat, l: Ledger, es: seq<Event>, cs: set<int>)
    requires Pool.Partitions(s.host.pool, n) && Within(s, cs) && |cs| <= n
    requires EnabledRun(s, placed, es) && AssignsWithin(s, es, cs)
    ensures Books(s, placed, l, es).refused == l.refused
    decreases |es|
  {
    hide Next, Within, Pool.Partitions;
    if es != [] {
      if es[0].Obey? {
        RingForEach(s, placed, n, cs, es[0].cam);
      }
      NextPartitions(s, placed, n, es[0]);
      NextWithin(s, placed, es[0], cs);
      NextCamOf(s, placed, es[0]);
      EnoughRings(Next(s, placed, es[0]), placed, n, Booked(s, placed, l, es[0]), es[1..], cs);
    }
  }

  predicate AssignsWithin(s: Site, es: seq<Event>, cs: set<int>) {
    forall i :: 0 <= i < |es| && es[i].Assign? && es[i].obj in s.camOf ==> s.camOf[es[i].obj] in cs
  }

  // ------------------------------------------------------------------ notices alone

  /** Every START printed for the camera has been answered by a notice. */
  predicate Answered(l: Ledger, cam: int) {
    l.printed[cam] == l.handled[cam]
  }

  predicate AnsweredRun(s: Site, placed: Placed, l: Ledger, es: seq<Event>)
    requires EnabledRun(s, placed, es)
    decreases |es|
  {
    es != [] ==>
      && (es[0].Assign? && es[0].obj in s.camOf ==> Answered(l, s.camOf[es[0].obj]))
      && AnsweredRun(Next(s, placed, es[0]), placed, Booked(s, placed, l, es[0]), es[1..])
  }

  lemma {:induction false} AnsweredIsChecked(
      s: Site, placed: Placed, n: nat, l: Ledger, es: seq<Event>, cs: set<int>)
    requires Pool.Partitions(s.host.pool, n) && Within(s, cs) && |cs| <= n
    requires EnabledRun(s, placed, es) && AssignsWithin(s, es, cs) && l.refused == multiset{}
    ensures AnsweredRun(s, placed, l, es) <==> CheckedRun(s, placed, l, es)
    decreases |es|
  {
    hide Next, Within, Pool.Partitions;
    if es != [] {
      if es[0].Obey? {
        RingForEach(s, placed, n, cs, es[0].cam);
      }
      NextPartitions(s, placed, n, es[0]);
      NextWithin(s, placed, es[0], cs);
      NextCamOf(s, placed, es[0]);
      AnsweredIsChecked(Next(s, placed, es[0]), placed, n, Booked(s, placed, l, es[0]), es[1..], cs);
    }
  }

  lemma NewWithin(s: Site, n: nat, cs: set<int>)
    requires New(s, n)
    ensures Pool.Partitions(s.host.pool, n) && Within(s, cs)
  {
    Pool.FreshIsOk(n);
  }

  /** What a worker with as many rings as camera numbers can check by itself: it assigns a camera only
      when it has handled as many notices as it printed STARTs. Then the protocol holds. */
  lemma NoticesSuffice(s: Site, placed: Placed, n: nat, es: seq<Event>, cs: set<int>)
    requires New(s, n) && |cs| <= n
    requires EnabledRun(s, placed, es) && AssignsWithin(s, es, cs)
    requires AnsweredRun(s, placed, EMPTY, es)
    ensures StartsDisciplined(s, placed, es) && RestartsSettled(s, placed, es)
    ensures Pool.Exclusive(Run(s, placed, es).host)
  {
    NewWithin(s, n, cs);
    AnsweredIsChecked(s, placed, n, EMPTY, es, cs);
    RestartsAreDisciplined(s, placed, n, es);
  }

  /** And that check is exact. */
  lemma NoticesExact(s: Site, placed: Placed, n: nat, es: seq<Event>, cs: set<int>, obj: int)
    requires New(s, n) && 0 < n && |cs| <= n
    requires EnabledRun(s, placed, es) && AssignsWithin(s, es, cs)
    requires AnsweredRun(s, placed, EMPTY, es)
    requires var s1 := Run(s, placed, es);
             obj in s1.camOf && obj in s1.status && placed(s1.camOf[obj]) in s1.status[obj]
    ensures var s1 := Run(s, placed, es);
            !CanShare(Next(s1, placed, Assign(obj)), placed)
            <==> Answered(Books(s, placed, EMPTY, es), s1.camOf[obj])
  {
    hide CanShare, Within, Next;
    NewWithin(s, n, cs);
    AnsweredIsChecked(s, placed, n, EMPTY, es, cs);
    EnoughRings(s, placed, n, EMPTY, es, cs);
    AssignExact(s, placed, n, es, obj);
  }
}
