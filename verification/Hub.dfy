/** Fan-out of one stream to its subscribers: late joiners start from the cached keyframe, slow
    consumers are dropped. */
module Hub {
  import opened Options

  const VIDEO: int := 0

  datatype Packet = Packet(mediaType: int, isKeyFrame: bool, body: int)

  /** A subscriber and its Send channel: everything ever put into the channel, how much of it the
      consumer has taken, the channel's capacity, and how often the channel was closed. */
  datatype Client = Client(capacity: nat, waiting: bool, sent: seq<Packet>, taken: nat, closes: nat) {
    predicate IsFull() {
      |sent| - taken >= capacity
    }

    function Push(p: Packet): Client {
      this.(sent := sent + [p])
    }
  }

  datatype State = State(clients: map<int, Client>, subscribers: set<int>, cache: Option<Packet>)

  datatype Event =
    | Register(id: int, capacity: nat, waiting: bool)
    | Unregister(id: int)
    | Broadcast(packet: Packet)
    | Take(id: int)

  const INITIAL: State := State(map[], {}, None)

  /** One subscriber's turn in a broadcast, and whether it stays subscribed. */
  function Deliver(c: Client, p: Packet, cache: Option<Packet>): (Client, bool) {
    var late := c.waiting && p.mediaType == VIDEO;
    var insert := late && !p.isKeyFrame && cache.Some?;
    if insert && c.IsFull() then (c.(closes := c.closes + 1), false)
    else
      var c1 := if insert then c.Push(cache.value) else c;
      var c2 := if late then c1.(waiting := false) else c1;
      if c2.IsFull() then (c2.(closes := c2.closes + 1), false) else (c2.Push(p), true)
  }

  /** The keyframe cache after a packet: video keyframes always, other packets flagged as keyframes
      only when some subscriber is there. */
  function Cached(cache: Option<Packet>, p: Packet, anySubscriber: bool): Option<Packet> {
    if p.isKeyFrame && (p.mediaType == VIDEO || anySubscriber) then Some(p) else cache
  }

  /** Somebody is subscribed. */
  predicate Listening(h: State) {
    exists id :: id in h.subscribers
  }

  function Served(h: State, p: Packet, id: int): (Client, bool)
    requires id in h.clients
  {
    if id in h.subscribers then Deliver(h.clients[id], p, h.cache) else (h.clients[id], false)
  }

  function Next(h: State, e: Event): State {
    match e
    case Register(id, capacity, waiting) =>
      State(if id in h.clients then h.clients
            else h.clients[id := Client(capacity, waiting, [], 0, 0)],
            h.subscribers + {id}, h.cache)
    case Unregister(id) =>
      if id in h.subscribers && id in h.clients then
        State(h.clients[id := h.clients[id].(closes := h.clients[id].closes + 1)],
              h.subscribers - {id}, h.cache)
      else h
    case Broadcast(p) =>
      State((map id | id in h.clients :: Served(h, p, id).0),
            (set id | id in h.subscribers && id in h.clients && Served(h, p, id).1),
            Cached(h.cache, p, Listening(h)))
    case Take(id) =>
      if id in h.clients && h.clients[id].taken < |h.clients[id].sent| then
        h.(clients := h.clients[id := h.clients[id].(taken := h.clients[id].taken + 1)])
      else h
  }

  /** The set's elements, each once, in some order. */
  predicate Enumerates(order: seq<int>, s: set<int>) {
    && (forall k :: 0 <= k < |order| ==> order[k] in s)
    && (forall id :: id in s ==> id in order)
    && (forall i, j :: 0 <= i < j < |order| ==> order[i] != order[j])
  }

  // ------------------------------------------------------------------ the event loop

  class Hub {
    var clients: map<int, Client>
    var subscribers: set<int>
    var lastIFrame: Option<Packet>

    constructor ()
      ensures View() == INITIAL
    {
      clients, subscribers, lastIFrame := map[], {}, None;
    }

    function View(): State
      reads this
    {
      State(clients, subscribers, lastIFrame)
    }

    predicate Valid()
      reads this
    {
      subscribers <= clients.Keys
    }

    method CacheKeyframe(packet: Packet)
      modifies this`lastIFrame
      ensures lastIFrame == Some(packet)
    {
      lastIFrame := Some(packet);
    }

    /** Puts the packet into the subscriber's channel, or closes it when it is full. */
    method TrySend(id: int, packet: Packet) returns (sent: bool)
      requires id in clients
      modifies this`clients, this`subscribers
      ensures sent <==> !old(clients)[id].IsFull()
      ensures clients == old(clients)[id := if sent then old(clients)[id].Push(packet)
                                            else old(clients)[id].(closes := old(clients)[id].closes + 1)]
      ensures subscribers == if sent then old(subscribers) else old(subscribers) - {id}
    {
      if clients[id].IsFull() {
        clients := clients[id := clients[id].(closes := clients[id].closes + 1)];
        subscribers := subscribers - {id};
        return false;
      }
      clients := clients[id := clients[id].Push(packet)];
      return true;
    }

    /** One subscriber's turn, as the loop body does it. */
    method Serve(id: int, packet: Packet)
      requires id in clients && id in subscribers
      modifies this
      ensures clients == old(clients)[id := Deliver(old(clients)[id], packet, old(lastIFrame)).0]
      ensures subscribers == if Deliver(old(clients)[id], packet, old(lastIFrame)).1
                             then old(subscribers) else old(subscribers) - {id}
      ensures lastIFrame == if packet.isKeyFrame then Some(packet) else old(lastIFrame)
    {
      if clients[id].waiting && packet.mediaType == VIDEO {
        if !packet.isKeyFrame && lastIFrame.Some? {
          var sent := TrySend(id, lastIFrame.value);
          if !sent {
            return;
          }
        }
        clients := clients[id := clients[id].(waiting := false)];
      }
      if packet.isKeyFrame {
        CacheKeyframe(packet);
      }
      var sent := TrySend(id, packet);
    }

    /** The broadcast case, for every order in which the map may yield its subscribers. */
    method Fanout(packet: Packet, order: seq<int>)
      requires Valid() && Enumerates(order, subscribers)
      modifies this
      ensures Valid()
      ensures View() == Next(old(View()), Broadcast(packet))
    {
      hide Next;
      ghost var h := View();
      if packet.mediaType == VIDEO && packet.isKeyFrame {
        CacheKeyframe(packet);
      }
      for i := 0 to |order|
        invariant subscribers <= h.subscribers <= h.clients.Keys == clients.Keys
        invariant Enumerates(order, h.subscribers)
        invariant forall k :: i <= k < |order| ==>
          order[k] in clients && clients[order[k]] == h.clients[order[k]] && order[k] in subscribers
        invariant forall k :: 0 <= k < i ==>
          order[k] in clients && clients[order[k]] == Served(h, packet, order[k]).0
          && (order[k] in subscribers <==> Served(h, packet, order[k]).1)
        invariant forall id :: id in h.clients && id !in h.subscribers ==>
          clients[id] == h.clients[id]
        invariant lastIFrame == Cached(h.cache, packet, i > 0)
      {
        DeliverIgnoresCache(clients[order[i]], packet, lastIFrame, h.cache);
        Serve(order[i], packet);
      }
      FanoutDone(h, packet, order, View());
    }

    method HandleRegister(id: int, capacity: nat, waiting: bool)
      requires Valid()
      modifies this
      ensures Valid()
      ensures View() == Next(old(View()), Register(id, capacity, waiting))
    {
      if id !in clients {
        clients := clients[id := Client(capacity, waiting, [], 0, 0)];
      }
      subscribers := subscribers + {id};
    }

    method HandleUnregister(id: int)
      requires Valid()
      modifies this
      ensures Valid()
      ensures View() == Next(old(View()), Unregister(id))
    {
      if id in subscribers {
        subscribers := subscribers - {id};
        clients := clients[id := clients[id].(closes := clients[id].closes + 1)];
      }
    }
  }

  /** When every subscriber has been served, in whatever order, the broadcast is done. */
  lemma FanoutDone(h: State, p: Packet, order: seq<int>, h': State)
    requires Enumerates(order, h.subscribers)
    requires h'.subscribers <= h.subscribers <= h.clients.Keys == h'.clients.Keys
    requires forall k :: 0 <= k < |order| ==>
               order[k] in h'.clients && h'.clients[order[k]] == Served(h, p, order[k]).0
               && (order[k] in h'.subscribers <==> Served(h, p, order[k]).1)
    requires forall id :: id in h.clients && id !in h.subscribers ==> h'.clients[id] == h.clients[id]
    requires h'.cache == Cached(h.cache, p, order != [])
    ensures h' == Next(h, Broadcast(p))
  {
    assert order != [] ==> order[0] in h.subscribers;
  }

  /** A keyframe is never preceded by the cached one, so the cache it has just replaced is the same
      to every subscriber, whatever their order. */
  lemma DeliverIgnoresCache(c: Client, p: Packet, cache: Option<Packet>, other: Option<Packet>)
    requires p.isKeyFrame || cache == other
    ensures Deliver(c, p, cache) == Deliver(c, p, other)
  {
  }

  // ------------------------------------------------------------------ runs

  function Run(h: State, es: seq<Event>): State
    decreases |es|
  {
    if es == [] then h else Run(Next(h, es[0]), es[1..])
  }

  predicate Wellformed(h: State) {
    && h.subscribers <= h.clients.Keys
    && forall id :: id in h.clients ==>
         h.clients[id].closes == if id in h.subscribers then 0 else 1
  }

  /** Every subscriber registers once: the handlers create it, register it and drop it. */
  predicate RegistersOnce(h: State, es: seq<Event>)
    decreases |es|
  {
    es != [] ==>
      && (es[0].Register? ==> es[0].id !in h.clients)
      && RegistersOnce(Next(h, es[0]), es[1..])
  }

  lemma NextWellformed(h: State, e: Event)
    requires Wellformed(h) && (e.Register? ==> e.id !in h.clients)
    ensures Wellformed(Next(h, e))
  {
  }

  /** On every run each Send channel is closed exactly once its subscriber is out, and never
      before: no channel is closed twice, and nothing is sent to a closed one. */
  lemma {:induction false} ClosedOnce(h: State, es: seq<Event>)
    requires Wellformed(h) && RegistersOnce(h, es)
    ensures Wellformed(Run(h, es))
    decreases |es|
  {
    if es != [] {
      NextWellformed(h, es[0]);
      ClosedOnce(Next(h, es[0]), es[1..]);
    }
  }

  /** A broadcast together with the cache a late joiner would be started from. */
  datatype Cast = Cast(packet: Packet, cache: Option<Packet>)

  function Casts(h: State, es: seq<Event>): seq<Cast>
    decreases |es|
  {
    if es == [] then []
    else if es[0].Broadcast? then
      [Cast(es[0].packet, h.cache)] + Casts(Next(h, es[0]), es[1..])
    else Casts(Next(h, es[0]), es[1..])
  }

  predicate IsVideo(p: Packet) {
    p.mediaType == 0
  }

  /** What a subscriber that is never full receives. */
  function Ideal(waiting: bool, cs: seq<Cast>): seq<Packet>
    decreases |cs|
  {
    if cs == [] then []
    else
      var p := cs[0].packet;
      if waiting && IsVideo(p) then
        (if !p.isKeyFrame && cs[0].cache.Some? then [cs[0].cache.value, p] else [p])
        + Ideal(false, cs[1..])
      else [p] + Ideal(waiting, cs[1..])
  }

  function Packets(cs: seq<Cast>): (ps: seq<Packet>)
    ensures |ps| == |cs|
  {
    seq(|cs|, i requires 0 <= i < |cs| => cs[i].packet)
  }

  /** Where the first video packet is, or the length if there is none. */
  function FirstVideo(cs: seq<Cast>): (k: nat)
    ensures k <= |cs|
    ensures k < |cs| ==> IsVideo(cs[k].packet)
    ensures forall i :: 0 <= i < k ==> !IsVideo(cs[i].packet)
  {
    if cs == [] || IsVideo(cs[0].packet) then 0
    else
      var k := FirstVideo(cs[1..]);
      assert forall i :: 0 < i < k + 1 ==> cs[i] == cs[1..][i - 1];
      k + 1
  }

  lemma {:induction false} IdealOnceStarted(cs: seq<Cast>)
    ensures Ideal(false, cs) == Packets(cs)
  {
    if cs != [] {
      IdealOnceStarted(cs[1..]);
      assert Packets(cs) == [cs[0].packet] + Packets(cs[1..]);
    }
  }

  /** All broadcasts, in order, with one keyframe inserted just before the first video packet
      exactly when that packet is not a keyframe and one was cached. */
  function WithKeyframe(cs: seq<Cast>): seq<Packet> {
    var k, ps := FirstVideo(cs), Packets(cs);
    if k < |cs| && !cs[k].packet.isKeyFrame && cs[k].cache.Some?
    then ps[..k] + [cs[k].cache.value] + ps[k..]
    else ps
  }

  lemma {:induction false} IdealShape(cs: seq<Cast>)
    ensures Ideal(true, cs) == WithKeyframe(cs)
    decreases |cs|
  {
    if cs != [] {
      var ps := Packets(cs);
      var rest := Packets(cs[1..]);
      assert ps == [cs[0].packet] + rest;
      if IsVideo(cs[0].packet) {
        IdealOnceStarted(cs[1..]);
        assert ps[..0] == [] && ps[0..] == ps;
      } else {
        IdealShape(cs[1..]);
        ShapeStep(cs);
      }
    }
  }

  lemma ShapeStep(cs: seq<Cast>)
    requires cs != [] && !IsVideo(cs[0].packet)
    ensures WithKeyframe(cs) == [cs[0].packet] + WithKeyframe(cs[1..])
  {
    var k, p, rest := FirstVideo(cs[1..]), cs[0].packet, Packets(cs[1..]);
    assert Packets(cs) == [p] + rest;
    InsertAfterHead(p, rest, k);
  }

  lemma InsertAfterHead(p: Packet, rest: seq<Packet>, k: nat)
    requires k <= |rest|
    ensures ([p] + rest)[..k + 1] == [p] + rest[..k] && ([p] + rest)[k + 1..] == rest[k..]
    ensures forall x :: [p] + (rest[..k] + [x] + rest[k..]) == [p] + rest[..k] + [x] + rest[k..]
  {
  }

  /** A client out of the subscriber set keeps what it was sent. */
  lemma {:induction false} OutStaysOut(h: State, es: seq<Event>, id: int)
    requires Wellformed(h) && RegistersOnce(h, es)
    requires id in h.clients && id !in h.subscribers
    ensures id in Run(h, es).clients && id !in Run(h, es).subscribers
    ensures Run(h, es).clients[id].sent == h.clients[id].sent
    decreases |es|
  {
    if es != [] {
      NextWellformed(h, es[0]);
      OutStaysOut(Next(h, es[0]), es[1..], id);
    }
  }

  lemma DeliverStep(c: Client, p: Packet, cache: Option<Packet>, rest: seq<Cast>)
    ensures var (c', stays) := Deliver(c, p, cache);
            var all := c.sent + Ideal(c.waiting, [Cast(p, cache)] + rest);
            && (stays ==> c'.sent + Ideal(c'.waiting, rest) == all)
            && (!stays ==> c'.sent <= all)
  {
    var cs := [Cast(p, cache)] + rest;
    assert cs[1..] == rest;
    var (c', stays) := Deliver(c, p, cache);
    if c.waiting && IsVideo(p) && !p.isKeyFrame && cache.Some? {
      var tail := Ideal(false, rest);
      assert c.sent + ([cache.value, p] + tail) == (c.sent + [cache.value]) + [p] + tail;
      assert c.sent <= c.sent + ([cache.value, p] + tail);
    } else {
      var tail := Ideal(c.waiting && !IsVideo(p), rest);
      assert c.sent + ([p] + tail) == (c.sent + [p]) + tail;
    }
  }

  /** Delivery has no holes: from any moment of a subscription on, and along every run, what the
      subscriber is sent is a prefix of the ideal sequence of the broadcasts since then, and all of
      it while it is still subscribed. */
  lemma {:induction false} DeliveryHasNoHoles(h: State, es: seq<Event>, id: int)
    requires Wellformed(h) && RegistersOnce(h, es) && id in h.subscribers
    ensures id in Run(h, es).clients
    ensures var all := h.clients[id].sent + Ideal(h.clients[id].waiting, Casts(h, es));
            && Run(h, es).clients[id].sent <= all
            && (id in Run(h, es).subscribers ==> Run(h, es).clients[id].sent == all)
    decreases |es|
  {
    if es != [] {
      var h1 := Next(h, es[0]);
      NextWellformed(h, es[0]);
      if es[0].Broadcast? {
        var rest := Casts(h1, es[1..]);
        DeliverStep(h.clients[id], es[0].packet, h.cache, rest);
        assert Casts(h, es) == [Cast(es[0].packet, h.cache)] + rest;
      }
      if id in h1.subscribers {
        DeliveryHasNoHoles(h1, es[1..], id);
      } else {
        OutStaysOut(h1, es[1..], id);
      }
    }
  }

  /** The whole life of a subscriber that registers waiting for a keyframe. */
  lemma SubscriberLife(h: State, id: int, capacity: nat, es: seq<Event>)
    requires Wellformed(h) && id !in h.clients
    requires RegistersOnce(Next(h, Register(id, capacity, true)), es)
    ensures var h1 := Next(h, Register(id, capacity, true));
            var (last, cs) := (Run(h1, es), Casts(h1, es));
            var all := WithKeyframe(cs);
            && id in last.clients && last.clients[id].sent <= all
            && (id in last.subscribers ==> last.clients[id].sent == all && last.clients[id].closes == 0)
            && (id !in last.subscribers ==> last.clients[id].closes == 1)
  {
    var h1 := Next(h, Register(id, capacity, true));
    NextWellformed(h, Register(id, capacity, true));
    DeliveryHasNoHoles(h1, es, id);
    IdealShape(Casts(h1, es));
    ClosedOnce(h1, es);
    assert [] + Ideal(true, Casts(h1, es)) == Ideal(true, Casts(h1, es));
  }

  // ------------------------------------------------------------------ keeping up

  /** How many packets a broadcast is due to put into a subscriber's channel. */
  function Due(waiting: bool, c: Cast): nat {
    if waiting && IsVideo(c.packet) && !c.packet.isKeyFrame && c.cache.Some? then 2 else 1
  }

  /** Counted on the events alone: from backlog packets on, every broadcast finds place for what it is
      due, takes make place again, and the subscriber is not unregistered. */
  predicate KeepsUp(h: State, es: seq<Event>, id: int, capacity: nat, waiting: bool, backlog: nat)
    decreases |es|
  {
    es == [] ||
    var (h1, rest) := (Next(h, es[0]), es[1..]);
    match es[0]
    case Broadcast(p) =>
      var now := backlog + Due(waiting, Cast(p, h.cache));
      now <= capacity && KeepsUp(h1, rest, id, capacity, waiting && !IsVideo(p), now)
    case Take(i) =>
      KeepsUp(h1, rest, id, capacity, waiting, if i == id && backlog > 0 then backlog - 1 else backlog)
    case Unregister(i) => i != id && KeepsUp(h1, rest, id, capacity, waiting, backlog)
    case Register(_, _, _) => KeepsUp(h1, rest, id, capacity, waiting, backlog)
  }

  lemma DeliverFits(c: Client, p: Packet, cache: Option<Packet>)
    requires c.taken <= |c.sent|
    ensures var (c', stays) := Deliver(c, p, cache);
            var now := |c.sent| - c.taken + Due(c.waiting, Cast(p, cache));
            && (stays <==> now <= c.capacity)
            && (stays ==> c'.capacity == c.capacity && c'.taken == c.taken <= |c'.sent|
                          && |c'.sent| - c'.taken == now
                          && c'.waiting == (c.waiting && !IsVideo(p)))
  {
  }

  /** A subscriber dropped by a broadcast leaves with its channel full: what fits is still sent. */
  lemma DroppedFull(h: State, p: Packet, id: int)
    requires Wellformed(h) && id in h.subscribers && id !in Next(h, Broadcast(p)).subscribers
    requires h.clients[id].taken <= |h.clients[id].sent| <= h.clients[id].taken + h.clients[id].capacity
    ensures var c := Next(h, Broadcast(p)).clients[id];
            && |c.sent| - c.taken == c.capacity == h.clients[id].capacity
            && h.clients[id].sent <= c.sent
  {
  }

  lemma NextClient(h: State, e: Event, id: int)
    requires Wellformed(h) && id in h.subscribers && (e.Register? ==> e.id !in h.clients)
    ensures id in Next(h, e).clients
    ensures var (c, h1) := (h.clients[id], Next(h, e));
            match e
            case Broadcast(p) =>
              (h1.clients[id], id in h1.subscribers) == Deliver(c, p, h.cache)
            case Take(i) =>
              && id in h1.subscribers
              && h1.clients[id] == if i == id && c.taken < |c.sent| then c.(taken := c.taken + 1) else c
            case Unregister(i) => (id in h1.subscribers <==> i != id) && (i != id ==> h1.clients[id] == c)
            case Register(_, _, _) => id in h1.subscribers && h1.clients[id] == c
  {
    hide Deliver;
  }

  /** A subscriber is dropped exactly when it falls behind: along every run it is still subscribed if
      and only if each broadcast found place for what it was due, the takes counted. */
  lemma {:induction false} DroppedWhenBehind(h: State, es: seq<Event>, id: int)
    requires Wellformed(h) && RegistersOnce(h, es) && id in h.subscribers
    requires h.clients[id].taken <= |h.clients[id].sent|
    ensures var c := h.clients[id];
            id in Run(h, es).subscribers
            <==> KeepsUp(h, es, id, c.capacity, c.waiting, |c.sent| - c.taken)
    decreases |es|
  {
    if es != [] {
      var h1 := Next(h, es[0]);
      NextWellformed(h, es[0]);
      NextClient(h, es[0], id);
      if es[0].Broadcast? {
        DeliverFits(h.clients[id], es[0].packet, h.cache);
      }
      hide Deliver, Next;
      if id in h1.subscribers {
        DroppedWhenBehind(h1, es[1..], id);
      } else {
        OutStaysOut(h1, es[1..], id);
      }
    }
  }

  /** From registration on: a subscriber that keeps up receives the whole ideal sequence and is never
      closed, and one that does not is closed once. */
  lemma KeepingUp(h: State, id: int, capacity: nat, waiting: bool, es: seq<Event>)
    requires Wellformed(h) && id !in h.clients
    requires RegistersOnce(Next(h, Register(id, capacity, waiting)), es)
    ensures var h1 := Next(h, Register(id, capacity, waiting));
            var (last, cs) := (Run(h1, es), Casts(h1, es));
            && id in last.clients
            && (id in last.subscribers <==> KeepsUp(h1, es, id, capacity, waiting, 0))
            && last.clients[id].closes == (if KeepsUp(h1, es, id, capacity, waiting, 0) then 0 else 1)
            && (KeepsUp(h1, es, id, capacity, waiting, 0) ==>
                  last.clients[id].sent == if waiting then WithKeyframe(cs) else Packets(cs))
  {
    var h1 := Next(h, Register(id, capacity, waiting));
    NextWellformed(h, Register(id, capacity, waiting));
    DroppedWhenBehind(h1, es, id);
    DeliveryHasNoHoles(h1, es, id);
    IdealShape(Casts(h1, es));
    IdealOnceStarted(Casts(h1, es));
    ClosedOnce(h1, es);
    assert [] + Ideal(waiting, Casts(h1, es)) == Ideal(waiting, Casts(h1, es));
  }

  /** The last keyframe among the broadcasts, or the one cached before. */
  function LatestKey(cache: Option<Packet>, cs: seq<Cast>): Option<Packet>
    decreases |cs|
  {
    if cs == [] then cache
    else LatestKey(if cs[0].packet.isKeyFrame then Some(cs[0].packet) else cache, cs[1..])
  }

  /** While only video is broadcast, as the engine does, the frame a late joiner is started from is
      the latest keyframe broadcast before, subscribers or not. */
  lemma {:induction false} CacheIsLatestKey(h: State, es: seq<Event>)
    requires forall i :: 0 <= i < |es| && es[i].Broadcast? ==> IsVideo(es[i].packet)
    ensures Run(h, es).cache == LatestKey(h.cache, Casts(h, es))
    ensures forall i :: 0 <= i < |Casts(h, es)| ==>
              Casts(h, es)[i].cache == LatestKey(h.cache, Casts(h, es)[..i])
    decreases |es|
  {
    if es != [] {
      var h1 := Next(h, es[0]);
      CacheIsLatestKey(h1, es[1..]);
      var cs, rest := Casts(h, es), Casts(h1, es[1..]);
      if es[0].Broadcast? {
        assert cs[1..] == rest;
        forall i | 0 <= i < |cs|
          ensures cs[i].cache == LatestKey(h.cache, cs[..i])
        {
          if i > 0 {
            assert cs[i] == rest[i - 1] && cs[..i][1..] == rest[..i - 1];
          }
        }
      }
    }
  }

  /** The broadcasts that enter the cache: video keyframes, and audio packets flagged as keyframes
      while somebody is subscribed. */
  function CacheKeys(h: State, es: seq<Event>): seq<Packet>
    decreases |es|
  {
    if es == [] then []
    else
      var rest := CacheKeys(Next(h, es[0]), es[1..]);
      if es[0].Broadcast? && es[0].packet.isKeyFrame
         && (IsVideo(es[0].packet) || Listening(h))
      then [es[0].packet] + rest else rest
  }

  /** On every run the cache is the latest of those. */
  lemma {:induction false} CacheIsLatest(h: State, es: seq<Event>)
    ensures var keys := CacheKeys(h, es);
            Run(h, es).cache == if keys == [] then h.cache else Some(keys[|keys| - 1])
    decreases |es|
  {
    if es != [] {
      CacheIsLatest(Next(h, es[0]), es[1..]);
    }
  }
}
