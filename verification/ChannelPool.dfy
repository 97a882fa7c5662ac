/** Which ring belongs to which camera: the free stack and the camera map of one worker, the life
    of the ingestion objects that use them, and the placement of streams on workers. */
module ChannelPool {
  import opened StreamProfiles

  datatype Pool = Pool(free: seq<nat>, used: map<int, nat>)

  /** Channels 0..n-1 are each either on the free stack, once, or with one camera. */
  ghost predicate Partitions(p: Pool, n: nat) {
    && (forall i, j :: 0 <= i < j < |p.free| ==> p.free[i] != p.free[j])
    && (forall c, d :: c in p.used && d in p.used && c != d ==> p.used[c] != p.used[d])
    && (forall i, c :: 0 <= i < |p.free| && c in p.used ==> p.free[i] != p.used[c])
    && (forall ch: nat :: ch < n <==> (ch in p.free || Held(p, ch)))
  }

  /** Some camera has the channel. */
  ghost predicate Held(p: Pool, ch: nat) {
    exists c :: c in p.used && p.used[c] == ch
  }

  /** ChannelForCamID: the camera's channel, or the top of the stack, or -1. */
  function Acquire(p: Pool, cam: int): (Pool, int) {
    if cam in p.used then (p, p.used[cam] as int)
    else if p.free == [] then (p, -1)
    else
      var ch := p.free[|p.free| - 1];
      (Pool(p.free[..|p.free| - 1], p.used[cam := ch]), ch as int)
  }

  /** ReleaseChannelForCamID. */
  function Release(p: Pool, cam: int): Pool {
    if cam in p.used then Pool(p.free + [p.used[cam]], p.used - {cam}) else p
  }

  lemma HeldAfter(p: Pool, free: seq<nat>, cam: int, ch0: nat)
    requires cam !in p.used
    ensures forall ch: nat :: Held(Pool(free, p.used[cam := ch0]), ch) <==> Held(p, ch) || ch == ch0
  {
    var p' := Pool(free, p.used[cam := ch0]);
    forall ch: nat
      ensures Held(p', ch) <==> Held(p, ch) || ch == ch0
    {
      if ch == ch0 {
        assert cam in p'.used && p'.used[cam] == ch;
      } else if Held(p, ch) {
        var c :| c in p.used && p.used[c] == ch;
        assert c in p'.used && p'.used[c] == ch;
      }
    }
  }

  lemma PopKeeps(p: Pool, n: nat, cam: int)
    requires Partitions(p, n) && cam !in p.used && p.free != []
    ensures Partitions(Acquire(p, cam).0, n) && Acquire(p, cam).1 < n
    ensures exists ch: nat :: ch < n && !Held(p, ch)
  {
    var top := p.free[|p.free| - 1];
    var p' := Acquire(p, cam).0;
    assert top in p.free && !Held(p, top);
    assert p.free == p'.free + [top];
    HeldAfter(p, p'.free, cam, top);
    forall ch: nat
      ensures ch < n <==> ch in p'.free || Held(p', ch)
    {
      assert Held(Pool(p'.free, p.used[cam := top]), ch) <==> Held(p, ch) || ch == top;
    }
  }

  lemma AcquireKeeps(p: Pool, n: nat, cam: int)
    requires Partitions(p, n)
    ensures Partitions(Acquire(p, cam).0, n)
    ensures Acquire(p, cam).1 == -1 <==> cam !in p.used && forall ch: nat :: ch < n ==> Held(p, ch)
    ensures Acquire(p, cam).1 != -1 ==>
              0 <= Acquire(p, cam).1 < n && cam in Acquire(p, cam).0.used
              && Acquire(p, cam).0.used[cam] == Acquire(p, cam).1
    ensures forall c :: c in p.used ==>
              c in Acquire(p, cam).0.used && Acquire(p, cam).0.used[c] == p.used[c]
  {
    if cam in p.used {
      assert Held(p, p.used[cam]);
    } else if p.free != [] {
      PopKeeps(p, n, cam);
    }
  }

  lemma HeldBefore(p: Pool, cam: int, ch: nat)
    requires cam in p.used
    requires forall c, d :: c in p.used && d in p.used && c != d ==> p.used[c] != p.used[d]
    ensures Held(p, ch) <==> Held(Release(p, cam), ch) || ch == p.used[cam]
  {
    var p' := Release(p, cam);
    if Held(p, ch) {
      var c :| c in p.used && p.used[c] == ch;
      assert c != cam ==> c in p'.used && p'.used[c] == ch;
    }
    if Held(p', ch) {
      var c :| c in p'.used && p'.used[c] == ch;
      assert c in p.used && p.used[c] == ch;
    }
  }

  lemma ReleaseKeeps(p: Pool, n: nat, cam: int)
    requires Partitions(p, n)
    ensures Partitions(Release(p, cam), n)
    ensures Release(p, cam).used == p.used - {cam}
  {
    if cam in p.used {
      var ch0 := p.used[cam];
      var p' := Release(p, cam);
      forall ch: nat
        ensures ch < n <==> ch in p'.free || Held(p', ch)
      {
        HeldBefore(p, cam, ch);
        assert ch in p'.free <==> ch in p.free || ch == ch0;
      }
      forall i, j | 0 <= i < j < |p'.free|
        ensures p'.free[i] != p'.free[j]
      {
        assert p.free[i] != ch0;
      }
    }
  }

  // ------------------------------------------------------------------ ingestion objects

  /** The live ingestion objects of one worker: id to camera and channel. */
  datatype Host = Host(pool: Pool, live: map<int, (int, int)>)

  datatype Event = Start(id: int, cam: int) | Cleanup(id: int)

  /** Starting takes the camera's channel, or fails without one; cleaning up releases the
      camera's channel, whoever else may be using it. */
  function Happen(h: Host, e: Event): Host {
    match e
    case Start(id, cam) =>
      var (pool, ch) := Acquire(h.pool, cam);
      if ch == -1 then h.(pool := pool) else Host(pool, h.live[id := (cam, ch)])
    case Cleanup(id) =>
      if id in h.live then Host(Release(h.pool, h.live[id].0), h.live - {id}) else h
  }

  ghost predicate CameraLive(h: Host, cam: int) {
    exists id :: id in h.live && h.live[id].0 == cam
  }

  /** No ring has two users. */
  ghost predicate Exclusive(h: Host) {
    forall i, j :: i in h.live && j in h.live && i != j ==> h.live[i].1 != h.live[j].1
  }

  ghost predicate HostOk(h: Host, n: nat) {
    && Partitions(h.pool, n)
    && (forall i :: i in h.live ==>
          h.live[i].0 in h.pool.used && h.pool.used[h.live[i].0] == h.live[i].1)
    && (forall i, j :: i in h.live && j in h.live && i != j ==> h.live[i].0 != h.live[j].0)
  }

  /** A fresh object, and none live for the same camera: the old one has reported stopped. */
  ghost predicate Disciplined(h: Host, e: Event) {
    e.Start? ==> e.id !in h.live && !CameraLive(h, e.cam)
  }

  lemma HostIsExclusive(h: Host, n: nat)
    requires HostOk(h, n)
    ensures Exclusive(h)
  {
  }

  lemma HappenKeeps(h: Host, n: nat, e: Event)
    requires HostOk(h, n) && Disciplined(h, e)
    ensures HostOk(Happen(h, e), n)
  {
    match e
    case Start(id, cam) => AcquireKeeps(h.pool, n, cam);
    case Cleanup(id) =>
      if id in h.live {
        ReleaseKeeps(h.pool, n, h.live[id].0);
      }
  }

  function HappenAll(h: Host, es: seq<Event>): Host
    decreases |es|
  {
    if es == [] then h else HappenAll(Happen(h, es[0]), es[1..])
  }

  ghost predicate DisciplinedRun(h: Host, es: seq<Event>)
    decreases |es|
  {
    es != [] ==> Disciplined(h, es[0]) && DisciplinedRun(Happen(h, es[0]), es[1..])
  }

  /** The stack right after Create: the last channel on top. */
  function Fresh(n: nat): Host {
    Host(Pool(seq(n, i requires 0 <= i => i as nat), map[]), map[])
  }

  /** Over any run in which no camera is started while an object for it is live, the channels stay
      partitioned between stack and cameras, and no two live objects share a ring. */
  lemma {:induction false} RingsStayExclusive(h: Host, n: nat, es: seq<Event>)
    requires HostOk(h, n) && DisciplinedRun(h, es)
    ensures HostOk(HappenAll(h, es), n) && Exclusive(HappenAll(h, es))
    decreases |es|
  {
    if es == [] {
      HostIsExclusive(h, n);
    } else {
      HappenKeeps(h, n, es[0]);
      RingsStayExclusive(Happen(h, es[0]), n, es[1..]);
    }
  }

  lemma FreshIsOk(n: nat)
    ensures HostOk(Fresh(n), n)
  {
    var free := Fresh(n).pool.free;
    forall ch: nat
      ensures ch < n <==> ch in free
    {
      if ch < n {
        assert free[ch] == ch;
      }
    }
  }

  /** The discipline is exact: a start that gets a channel keeps the rings exclusive if and only if
      no object for the same camera is live. */
  lemma StartExact(h: Host, n: nat, id: int, cam: int)
    requires HostOk(h, n) && id !in h.live && Acquire(h.pool, cam).1 != -1
    ensures Exclusive(Happen(h, Start(id, cam))) <==> !CameraLive(h, cam)
  {
    var h' := Happen(h, Start(id, cam));
    AcquireKeeps(h.pool, n, cam);
    if CameraLive(h, cam) {
      var i :| i in h.live && h.live[i].0 == cam;
      assert i in h'.live && id in h'.live && h'.live[i].1 == h'.live[id].1;
    } else {
      HappenKeeps(h, n, Start(id, cam));
      HostIsExclusive(h', n);
    }
  }

  /** Restarting a camera before its old object is cleaned up ends with two cameras on one ring:
      the old object's clean-up frees the ring the new one still writes to. */
  lemma EarlyRestartSharesAcrossCameras(n: nat, cam: int, other: int)
    requires n > 0 && cam != other
    ensures var h := HappenAll(Fresh(n), [Start(1, cam), Start(2, cam), Cleanup(1), Start(3, other)]);
            && 2 in h.live && 3 in h.live
            && h.live[2].0 == cam && h.live[3].0 == other && h.live[2].1 == h.live[3].1
  {
    var h0 := Fresh(n);
    var top := h0.pool.free[n - 1];
    var h1 := Happen(h0, Start(1, cam));
    var h2 := Happen(h1, Start(2, cam));
    var h3 := Happen(h2, Cleanup(1));
    var h4 := Happen(h3, Start(3, other));
    assert h2.live[2] == (cam, top);
    assert h3.pool.free == h1.pool.free + [top];
    assert h4.live[3] == (other, top);
    var es := [Start(1, cam), Start(2, cam), Cleanup(1), Start(3, other)];
    assert es[1..] == [Start(2, cam), Cleanup(1), Start(3, other)];
    assert es[1..][1..] == [Cleanup(1), Start(3, other)];
    assert es[1..][1..][1..] == [Start(3, other)];
    assert es[1..][1..][1..][1..] == [];
    assert HappenAll(h3, [Start(3, other)]) == h4;
    assert HappenAll(h2, es[1..][1..]) == h4;
    assert HappenAll(h1, es[1..]) == h4;
  }

  // ------------------------------------------------------------------ placement on workers

  datatype Stream = Stream(cam: nat, profile: StreamProfile)

  /** NewManager's clamp. */
  function WorkerCount(count: int): (n: nat)
    ensures n >= 2 && n >= count && (n == 2 || n == count)
  {
    if count < 2 then 2 else count
  }

  /** Main and sub worker of a camera: round robin by camera number, sub on the next worker. */
  function DecideWorkerAssignIDs(id: nat, len: nat): (ids: (nat, nat))
    requires len > 0
    ensures ids.0 < len && ids.1 < len && (ids.0 != ids.1 <==> len >= 2)
  {
    var wId := id % len;
    var subId := (wId + 1) % len;
    NextModulo(wId, len);
    (wId, subId)
  }

  lemma NextModulo(x: nat, n: nat)
    requires x < n
    ensures (x + 1) % n == if x + 1 == n then 0 else x + 1
  {
  }

  function WorkerOf(s: Stream, workers: nat): (w: nat)
    requires workers > 0
    ensures w < workers
  {
    var ids := DecideWorkerAssignIDs(s.cam, workers);
    if s.profile == Main then ids.0 else ids.1
  }

  function NextWorker(w: nat, n: nat): nat {
    if w + 1 == n then 0 else w + 1
  }

  lemma TimesLess(a: nat, b: nat, n: nat)
    requires a < b
    ensures a * n + n <= b * n
  {
    var d := b - a - 1;
    assert b * n == (a + 1 + d) * n == a * n + n + d * n;
  }

  lemma DivMod(m: nat, n: nat)
    requires n > 0
    ensures m / n * n <= m < m / n * n + n && m % n == m - m / n * n
  {
  }

  lemma QuotientIs(q: nat, n: nat, r: nat)
    requires r < n
    ensures (q * n + r) / n == q && (q * n + r) % n == r
  {
    var m := q * n + r;
    DivMod(m, n);
    if m / n < q {
      TimesLess(m / n, q, n);
    } else if q < m / n {
      TimesLess(q, m / n, n);
    }
  }

  lemma SuccModulo(x: nat, n: nat)
    requires n > 0
    ensures (x + 1) % n == NextWorker(x % n, n)
  {
    var q, r := x / n, x % n;
    DivMod(x, n);
    if r + 1 == n {
      assert x + 1 == (q + 1) * n + 0;
      QuotientIs(q + 1, n, 0);
    } else {
      QuotientIs(q, n, r + 1);
    }
  }

  /** Round robin: camera 0's main stream is on worker 0, the next camera's main stream on the next
      worker, cyclically, and every sub stream on the worker after its main stream's. */
  lemma RoundRobin(cam: nat, n: nat)
    requires n > 0
    ensures WorkerOf(Stream(0, Main), n) == 0
    ensures WorkerOf(Stream(cam + 1, Main), n) == NextWorker(WorkerOf(Stream(cam, Main), n), n)
    ensures WorkerOf(Stream(cam, Sub), n) == NextWorker(WorkerOf(Stream(cam, Main), n), n)
  {
    SuccModulo(cam, n);
    NextModulo(cam % n, n);
    NextModulo(0, n);
  }

  lemma NextStream(cam: nat, p: StreamProfile, n: nat)
    requires n > 0
    ensures WorkerOf(Stream(cam + 1, p), n) == NextWorker(WorkerOf(Stream(cam, p), n), n)
  {
    RoundRobin(cam, n);
    RoundRobin(cam + 1, n);
  }

  /** How many of the cameras first, first + 1, … (k of them) have that stream on worker w. */
  function CountOn(first: nat, k: nat, p: StreamProfile, n: nat, w: nat): nat
    requires n > 0
    decreases k
  {
    if k == 0 then 0
    else (if WorkerOf(Stream(first, p), n) == w then 1 else 0) + CountOn(first + 1, k - 1, p, n, w)
  }

  /** How many cameras after one on worker x the next one on worker w comes. */
  function Ahead(x: nat, w: nat, n: nat): nat
    requires x < n && w < n
  {
    if x <= w then w - x else w + n - x
  }

  lemma {:induction false} CountIs(first: nat, k: nat, p: StreamProfile, n: nat, w: nat)
    requires w < n
    ensures CountOn(first, k, p, n, w) == (k + n - 1 - Ahead(WorkerOf(Stream(first, p), n), w, n)) / n
    decreases k
  {
    var x := WorkerOf(Stream(first, p), n);
    if k == 0 {
      QuotientIs(0, n, n - 1 - Ahead(x, w, n));
    } else {
      NextStream(first, p, n);
      CountIs(first + 1, k - 1, p, n, w);
      if x == w {
        OneMore(k - 1, n);
      }
    }
  }

  lemma OneMore(m: nat, n: nat)
    requires n > 0
    ensures (m + n) / n == m / n + 1
  {
    var q, r := m / n, m % n;
    DivMod(m, n);
    assert m + n == (q + 1) * n + r;
    QuotientIs(q + 1, n, r);
  }

  /** The sharding is balanced: of any block of consecutive cameras, two workers get main streams, and
      sub streams, that differ in number by at most one. */
  lemma ShardingIsBalanced(first: nat, k: nat, p: StreamProfile, n: nat, v: nat, w: nat)
    requires v < n && w < n
    ensures CountOn(first, k, p, n, v) <= CountOn(first, k, p, n, w) + 1
  {
    CountIs(first, k, p, n, v);
    CountIs(first, k, p, n, w);
    var x := WorkerOf(Stream(first, p), n);
    var a, b := k + n - 1 - Ahead(x, v, n), k + n - 1 - Ahead(x, w, n);
    OneMore(b, n);
    QuotientMonotone(a, b + n, n);
  }

  lemma QuotientMonotone(a: nat, b: nat, n: nat)
    requires n > 0 && a <= b
    ensures a / n <= b / n
  {
    DivMod(a, n);
    DivMod(b, n);
    if b / n < a / n {
      TimesLess(b / n, a / n, n);
    }
  }

  /** The camera identifies the stream on each worker exactly when there are two workers or more. */
  lemma CameraIdentifiesStream(workers: nat)
    requires workers > 0
    ensures (forall s: Stream, t: Stream ::
               s != t && WorkerOf(s, workers) == WorkerOf(t, workers) ==> s.cam != t.cam)
            <==> workers >= 2
  {
    if workers == 1 {
      assert WorkerOf(Stream(0, Main), 1) == WorkerOf(Stream(0, Sub), 1);
    }
  }

  /** No two live streams share a ring anywhere: with every worker's pool partitioned and the
      workers counted as the manager counts them, different streams that hold channels hold
      different (worker, channel) pairs. */
  lemma StreamsNeverShareRings(count: int, pools: seq<Pool>, n: nat, s: Stream, t: Stream)
    requires |pools| == WorkerCount(count)
    requires forall w :: 0 <= w < |pools| ==> Partitions(pools[w], n)
    requires s != t
    requires s.cam in pools[WorkerOf(s, |pools|)].used && t.cam in pools[WorkerOf(t, |pools|)].used
    ensures (WorkerOf(s, |pools|), pools[WorkerOf(s, |pools|)].used[s.cam])
         != (WorkerOf(t, |pools|), pools[WorkerOf(t, |pools|)].used[t.cam])
  {
    CameraIdentifiesStream(|pools|);
  }
}
