/**
 Taking prioritised events: what leaves the rings and what reaches the caller, as functions of the queues.
 */
module EventOrder {
  import opened EventSlots

  type Masks = map<nat, bv32>

  /** An event is handed over if it shares a bit with the mask its socket carries now. */
  predicate Wanted(masks: Masks, e: Event) { e.sockid in masks && masks[e.sockid] & e.events != 0 }

  function Wants(masks: Masks, q: seq<Event>): seq<Event> {
    if q == [] then []
    else Wants(masks, q[..|q| - 1]) + if Wanted(masks, q[|q| - 1]) then [q[|q| - 1]] else []
  }

  lemma {:induction false} WantsAppend(masks: Masks, a: seq<Event>, b: seq<Event>)
    ensures Wants(masks, a + b) == Wants(masks, a) + Wants(masks, b)
  {
    if b == [] {
      assert a + b == a;
    } else {
      WantsAppend(masks, a, b[..|b| - 1]);
      assert (a + b)[..|a + b| - 1] == a + b[..|b| - 1];
    }
  }

  lemma WantsOne(masks: Masks, a: seq<Event>, e: Event)
    ensures Wants(masks, a + [e]) == Wants(masks, a) + if Wanted(masks, e) then [e] else []
  {
    assert (a + [e])[..|a|] == a;
  }

  /** From queue q exactly k entries were taken while the caller had space for room more events: it stops as
      soon as the space or the queue is used up. */
  ghost predicate Takes(masks: Masks, q: seq<Event>, room: nat, k: nat) {
    && k <= |q|
    && |Wants(masks, q[..k])| <= room
    && (k == |q| || |Wants(masks, q[..k])| == room)
    && (k == 0 || |Wants(masks, q[..k - 1])| < room)
  }

  lemma {:induction false} WantsMonotone(masks: Masks, q: seq<Event>, i: nat, j: nat)
    requires i <= j <= |q|
    ensures |Wants(masks, q[..i])| <= |Wants(masks, q[..j])|
  {
    assert q[..j] == q[..i] + q[i..j];
    WantsAppend(masks, q[..i], q[i..j]);
  }

  /** The rule leaves no choice of how many are taken. */
  lemma TakesUnique(masks: Masks, q: seq<Event>, room: nat, k: nat, k': nat)
    requires Takes(masks, q, room, k) && Takes(masks, q, room, k')
    ensures k == k'
  {
    hide Wants;
    if k < k' {
      WantsMonotone(masks, q, k, k' - 1);
      assert false;
    } else if k' < k {
      WantsMonotone(masks, q, k', k - 1);
      assert false;
    }
  }

  datatype Queues = Queues(high: seq<Event>, low: seq<Event>)

  /** How many entries left the two queues of a channel. */
  datatype Count = Count(high: nat, low: nat)

  ghost predicate Within(v: Queues, k: Count) { k.high <= |v.high| && k.low <= |v.low| }

  ghost function Reached(masks: Masks, v: Queues, k: Count): seq<Event>
    requires Within(v, k)
  {
    Wants(masks, v.high[..k.high]) + Wants(masks, v.low[..k.low])
  }

  /** High first: the low queue only gets the space that the high queue leaves. */
  ghost predicate ChannelTakes(masks: Masks, v: Queues, room: nat, k: Count) {
    && Takes(masks, v.high, room, k.high)
    && Takes(masks, v.low, room - |Wants(masks, v.high[..k.high])|, k.low)
  }

  /** A low event leaves only if no high one stays behind, and space is left over only when nothing waits. */
  lemma HighFirst(masks: Masks, v: Queues, room: nat, k: Count)
    requires ChannelTakes(masks, v, room, k)
    ensures k.low > 0 ==> k.high == |v.high|
    ensures |Reached(masks, v, k)| <= room
    ensures |Reached(masks, v, k)| < room ==> k == Count(|v.high|, |v.low|)
  {
  }

  /** What the channels deliver in turn. */
  ghost function AllReached(masks: Masks, vs: seq<Queues>, ks: seq<Count>): seq<Event>
    requires |vs| == |ks| && forall c :: 0 <= c < |vs| ==> Within(vs[c], ks[c])
  {
    if vs == [] then []
    else AllReached(masks, vs[..|vs| - 1], ks[..|ks| - 1]) + Reached(masks, vs[|vs| - 1], ks[|ks| - 1])
  }

  /** Each channel in turn takes by priority into the space that the ones before it left. */
  ghost predicate WaitTakes(masks: Masks, vs: seq<Queues>, ks: seq<Count>, room: nat) {
    && |vs| == |ks| && (forall c :: 0 <= c < |vs| ==> Within(vs[c], ks[c]))
    && |AllReached(masks, vs, ks)| <= room
    && (vs != [] ==>
          var n := |vs| - 1;
          && WaitTakes(masks, vs[..n], ks[..n], room)
          && ChannelTakes(masks, vs[n], room - |AllReached(masks, vs[..n], ks[..n])|, ks[n]))
  }

  lemma {:induction false} WaitTakesOne(masks: Masks, vs: seq<Queues>, ks: seq<Count>, room: nat, v: Queues, k: Count)
    requires WaitTakes(masks, vs, ks, room)
    requires ChannelTakes(masks, v, room - |AllReached(masks, vs, ks)|, k)
    ensures WaitTakes(masks, vs + [v], ks + [k], room)
    ensures AllReached(masks, vs + [v], ks + [k]) == AllReached(masks, vs, ks) + Reached(masks, v, k)
  {
    hide ChannelTakes, Wants;
    assert Within(v, k) by { ChannelWithin(masks, v, room - |AllReached(masks, vs, ks)|, k); }
    assert (vs + [v])[..|vs|] == vs;
    assert (ks + [k])[..|ks|] == ks;
    HighFirst(masks, v, room - |AllReached(masks, vs, ks)|, k);
  }

  /** What a whole wait does: the counts follow the priority rule and the caller gets what they reach. */
  ghost predicate Handed(masks: Masks, vs: seq<Queues>, ks: seq<Count>, room: nat, events: seq<Event>) {
    WaitTakes(masks, vs, ks, room) && events == AllReached(masks, vs, ks)
  }

  /** What stays in the queues of a channel. */
  ghost function Left(v: Queues, k: Count): Queues {
    if Within(v, k) then Queues(v.high[k.high..], v.low[k.low..]) else v
  }

  lemma HandedNone(masks: Masks, room: nat)
    ensures Handed(masks, [], [], room, [])
  {
  }

  lemma HandedOne(masks: Masks, vs: seq<Queues>, ks: seq<Count>, room: nat, events: seq<Event>, v: Queues, k: Count)
    requires Handed(masks, vs, ks, room, events) && |events| <= room && ChannelTakes(masks, v, room - |events|, k)
    ensures Within(v, k) && |events + Reached(masks, v, k)| <= room
    ensures Handed(masks, vs + [v], ks + [k], room, events + Reached(masks, v, k))
  {
    hide ChannelTakes, Reached;
    ChannelWithin(masks, v, room - |events|, k);
    WaitTakesOne(masks, vs, ks, room, v, k);
    HighFirst(masks, v, room - |events|, k);
  }

  lemma ChannelWithin(masks: Masks, v: Queues, room: nat, k: Count)
    requires ChannelTakes(masks, v, room, k)
    ensures Within(v, k)
  {
  }

  /** In every channel no low event is taken while a high one waits, and the caller gets fewer events than it
      asked for only if every queue of every channel is left empty. */
  lemma {:induction false} WaitIsByPriority(masks: Masks, vs: seq<Queues>, ks: seq<Count>, room: nat)
    requires WaitTakes(masks, vs, ks, room)
    ensures forall c :: 0 <= c < |vs| ==> (ks[c].low > 0 ==> ks[c].high == |vs[c].high|)
    ensures |AllReached(masks, vs, ks)| < room ==> forall c :: 0 <= c < |vs| ==> ks[c] == Count(|vs[c].high|, |vs[c].low|)
  {
    hide ChannelTakes, Wants;
    if vs != [] {
      var n := |vs| - 1;
      WaitIsByPriority(masks, vs[..n], ks[..n], room);
      HighFirst(masks, vs[n], room - |AllReached(masks, vs[..n], ks[..n])|, ks[n]);
    }
  }

  lemma LaterMask(masks: Masks, e: Event, f: Event)
    requires e.sockid == f.sockid && e.events & f.events == 0 && f.events != 0
    ensures !Wanted(masks[f.sockid := f.events], e) && Wanted(masks[f.sockid := f.events], f)
  {
    MaskBits(f.events, e.events);
  }

  lemma MaskBits(a: bv32, b: bv32)
    ensures a & a == a && a & b == b & a
  {
  }
}

/**
 The rings in memory, adding to them and waiting on them.
 */
module EventWait {
  import opened EventSlots
  import opened EventOrder

  /** The socket map: for each socket the mask of the events that are wanted. */
  class SocketMap {
    var masks: Masks

    constructor ()
      ensures masks == map[]
    {
      masks := map[];
    }

    /** qepoll_ctl, registering or changing a socket */
    method Register(sockid: nat, mask: bv32)
      modifies this
      ensures masks == old(masks)[sockid := mask]
    {
      masks := masks[sockid := mask];
    }
  }

  class EventQueue {
    const qevent: array<Event>
    var start: nat
    var end: nat

    ghost predicate Valid()
      reads this
    {
      start < qevent.Length && end < qevent.Length
    }

    ghost function Contents(): seq<Event>
      requires Valid()
      reads this, qevent
    {
      Window(qevent[..], start, Used(start, end, qevent.Length))
    }

    constructor (size: nat, blank: Event)
      requires size > 0
      ensures Valid() && fresh(qevent) && qevent.Length == size && Contents() == []
    {
      qevent := new Event[size](_ => blank);
      start, end := 0, 0;
    }

    /** AddTimeEvent: the event's kind becomes its socket's mask, whatever was there; the ring stores the event at
        end and then publishes it, unless all slots but one are in use. */
    method Append(e: Event, sockets: SocketMap) returns (published: bool)
      requires Valid()
      modifies this`end, qevent, sockets
      ensures Valid()
      ensures sockets.masks == old(sockets.masks)[e.sockid := e.events]
      ensures published <==> |old(Contents())| + 1 < qevent.Length
      ensures Contents() == old(Contents()) + if published then [e] else []
    {
      ghost var n := Used(start, end, qevent.Length);
      GapWrite(qevent[..], start, n, e);
      NextSlot(end, qevent.Length);
      UsedNextEnd(start, end, qevent.Length);
      sockets.masks := sockets.masks[e.sockid := e.events];
      qevent[end] := e;
      assert qevent[..] == old(qevent[..])[end := e];
      published := (end + 1) % qevent.Length != start;
      if published {
        end := (end + 1) % qevent.Length;
      }
    }

    /** qepoll_qevent: the oldest event leaves the ring; it is returned if its socket's mask wants it. */
    method QEvent(sockets: SocketMap, events: seq<Event>) returns (events': seq<Event>)
      requires Valid() && start != end
      modifies this`start
      ensures Valid()
      ensures old(Contents()) != [] && Contents() == old(Contents())[1..]
      ensures events' == events + if Wanted(sockets.masks, old(Contents())[0]) then [old(Contents())[0]] else []
    {
      WindowTail(qevent[..], start, Used(start, end, qevent.Length));
      NextSlot(start, qevent.Length);
      UsedNextStart(start, end, qevent.Length);
      var e := qevent[start];
      if Wanted(sockets.masks, e) {
        events' := events + [e];
      } else {
        events' := events;
      }
      start := (start + 1) % qevent.Length;
    }

    /** Take events while there are any and the caller has room. */
    method Drain(sockets: SocketMap, events: seq<Event>, maxevents: nat) returns (events': seq<Event>, ghost k: nat)
      requires Valid() && |events| <= maxevents
      modifies this`start
      ensures Valid()
      ensures Takes(sockets.masks, old(Contents()), maxevents - |events|, k)
      ensures Contents() == old(Contents())[k..]
      ensures events' == events + Wants(sockets.masks, old(Contents())[..k])
    {
      hide Window, Wants, Wanted, Used, Slot;
      ghost var q := Contents();
      events', k := events, 0;
      EmptyQueue();
      EmptyWants(sockets.masks, q);
      while end != start && |events'| < maxevents
        invariant Valid()
        invariant k <= |q| && Contents() == q[k..]
        invariant Contents() == [] <==> start == end
        invariant events' == events + Wants(sockets.masks, q[..k])
        invariant |events'| <= maxevents
        invariant k > 0 ==> |events| + |Wants(sockets.masks, q[..k - 1])| < maxevents
        decreases |q| - k
      {
        events' := QEvent(sockets, events');
        WantsOne(sockets.masks, q[..k], q[k]);
        assert q[..k] + [q[k]] == q[..k + 1];
        k := k + 1;
        EmptyQueue();
      }
    }

    lemma EmptyQueue()
      requires Valid()
      ensures Contents() == [] <==> start == end
    {
    }

    lemma EmptyWants(masks: Masks, q: seq<Event>)
      ensures Wants(masks, q[..0]) == []
    {
    }
  }

  class Channel {
    const high: EventQueue
    const low: EventQueue

    ghost predicate Valid()
      reads high, low
    {
      high != low && high.Valid() && low.Valid()
    }

    ghost function View(): Queues
      requires Valid()
      reads high, low, high.qevent, low.qevent
    {
      Queues(high.Contents(), low.Contents())
    }

    constructor (high: EventQueue, low: EventQueue)
      requires high != low && high.Valid() && low.Valid()
      ensures this.high == high && this.low == low && Valid()
    {
      this.high, this.low := high, low;
    }

    /** One channel of a wait without timeout: the high ring is drained, then after each low event it is
        drained again. */
    method Wait(sockets: SocketMap, events: seq<Event>, maxevents: nat) returns (events': seq<Event>, ghost k: Count)
      requires Valid() && |events| <= maxevents
      modifies high`start, low`start
      ensures Valid()
      ensures ChannelTakes(sockets.masks, old(View()), maxevents - |events|, k)
      ensures Within(old(View()), k) && View() == Left(old(View()), k)
      ensures events' == events + Reached(sockets.masks, old(View()), k)
    {
      hide EventQueue.Contents, Wants, Wanted, Used, Slot;
      ghost var v := View();
      ghost var kh;
      events', kh := high.Drain(sockets, events, maxevents);
      ghost var first := events';
      ghost var kl := 0;
      low.EmptyQueue();
      high.EmptyQueue();
      low.EmptyWants(sockets.masks, v.low);
      while low.end != low.start && |events'| < maxevents
        invariant Valid()
        invariant kl <= |v.low| && low.Contents() == v.low[kl..]
        invariant low.Contents() == [] <==> low.start == low.end
        invariant high.Contents() == v.high[kh..]
        invariant |first| < maxevents ==> high.Contents() == []
        invariant events' == first + Wants(sockets.masks, v.low[..kl])
        invariant |events'| <= maxevents
        invariant kl > 0 ==> |first| + |Wants(sockets.masks, v.low[..kl - 1])| < maxevents
        decreases |v.low| - kl
      {
        events' := low.QEvent(sockets, events');
        WantsOne(sockets.masks, v.low[..kl], v.low[kl]);
        assert v.low[..kl] + [v.low[kl]] == v.low[..kl + 1];
        kl := kl + 1;
        low.EmptyQueue();
        ghost var kk;
        ghost var was := events';
        events', kk := high.Drain(sockets, events', maxevents);
        high.EmptyWants(sockets.masks, []);
        assert events' == was;
      }
      k := Count(kh, kl);
    }
  }

  /** The rings of a wait: every ring belongs to one channel. */
  ghost predicate Separate(chans: seq<Channel>)
    reads set c <- chans :: c.high
    reads set c <- chans :: c.low
  {
    && (forall i :: 0 <= i < |chans| ==> chans[i].Valid())
    && (forall i, j :: 0 <= i < j < |chans| ==> Apart(chans[i], chans[j]))
  }

  ghost predicate Apart(c: Channel, d: Channel) {
    c.high != d.high && c.high != d.low && c.low != d.high && c.low != d.low
  }

  /** qepoll_wait without timeout: for each stack core the channel from the stack and then the one from the
      application. */
  method QepollWait(chans: seq<Channel>, sockets: SocketMap, maxevents: int, ghost vs: seq<Queues>)
    returns (ok: bool, events: seq<Event>, ghost ks: seq<Count>)
    requires Separate(chans) && chans != []
    requires |vs| == |chans| && forall c :: 0 <= c < |chans| ==> chans[c].View() == vs[c]
    modifies (set c <- chans :: c.high)`start, (set c <- chans :: c.low)`start
    ensures Separate(chans)
    ensures ok <==> maxevents > 0
    ensures !ok ==> events == [] && forall c :: 0 <= c < |chans| ==> chans[c].View() == vs[c]
    ensures ok ==> |ks| == |chans| && |events| <= maxevents && Handed(sockets.masks, vs, ks, maxevents, events)
    ensures ok ==> forall c :: 0 <= c < |chans| ==> chans[c].View() == Left(vs[c], ks[c])
  {
    hide EventQueue.Contents, ChannelTakes, Reached, Handed, Left;
    ok, events, ks := maxevents > 0, [], [];
    if ok {
      events, ks := WaitAll(chans, sockets, maxevents, vs);
    }
  }

  /** The n-th channel of a wait; the others are left alone. */
  method WaitOn(chans: seq<Channel>, n: nat, sockets: SocketMap, events: seq<Event>, maxevents: nat)
    returns (events': seq<Event>, ghost k: Count)
    requires Separate(chans) && n < |chans| && |events| <= maxevents
    modifies chans[n].high`start, chans[n].low`start
    ensures Separate(chans)
    ensures ChannelTakes(sockets.masks, old(chans[n].View()), maxevents - |events|, k)
    ensures Within(old(chans[n].View()), k) && chans[n].View() == Left(old(chans[n].View()), k)
    ensures events' == events + Reached(sockets.masks, old(chans[n].View()), k)
    ensures forall c :: 0 <= c < |chans| && c != n ==> chans[c].View() == old(chans[c].View())
  {
    hide EventQueue.Contents, ChannelTakes, Reached, Left;
    events', k := chans[n].Wait(sockets, events, maxevents);
  }

  method WaitAll(chans: seq<Channel>, sockets: SocketMap, maxevents: nat, ghost vs: seq<Queues>)
    returns (events: seq<Event>, ghost ks: seq<Count>)
    requires Separate(chans)
    requires |vs| == |chans| && forall c :: 0 <= c < |chans| ==> chans[c].View() == vs[c]
    modifies (set c <- chans :: c.high)`start, (set c <- chans :: c.low)`start
    ensures Separate(chans)
    ensures |ks| == |chans| && |events| <= maxevents && Handed(sockets.masks, vs, ks, maxevents, events)
    ensures forall c :: 0 <= c < |chans| ==> chans[c].View() == Left(vs[c], ks[c])
  {
    hide EventQueue.Contents, Channel.View, ChannelTakes, Reached, Handed, Left;
    events, ks := [], [];
    HandedNone(sockets.masks, maxevents);
    assert vs[..0] == [];
    for n := 0 to |chans|
      invariant Separate(chans)
      invariant |ks| == n && |events| <= maxevents
      invariant Handed(sockets.masks, vs[..n], ks, maxevents, events)
      invariant forall c :: 0 <= c < n ==> chans[c].View() == Left(vs[c], ks[c])
      invariant forall c :: n <= c < |chans| ==> chans[c].View() == vs[c]
    {
      ghost var k;
      ghost var was := events;
      events, k := WaitOn(chans, n, sockets, events, maxevents);
      HandedOne(sockets.masks, vs[..n], ks, maxevents, was, vs[n], k);
      assert vs[..n] + [vs[n]] == vs[..n + 1];
      ks := ks + [k];
    }
    assert vs[..|chans|] == vs;
  }
}

/**
 The same wait on one channel while the stack keeps publishing: every interleaving, one test, take or publish at
 a time.  Tests and takes act on whole queues because a ring is a FIFO queue under every interleaving.
 */
module EventPriority {
  import opened EventSlots

  datatype Pc =
    | TestHigh   // high ring not empty, and room?
    | TakeHigh
    | TestLow    // low ring not empty, and room?
    | TakeLow
    | Leave

  /** recent: the high events published since the consumer last found the high ring empty; count: events handed
      to the caller. */
  datatype Poll = Poll(pc: Pc, high: seq<Event>, low: seq<Event>, count: nat, recent: seq<Event>)

  datatype Move = PublishHigh(e: Event) | PublishLow(e: Event) | Consume(wanted: bool)

  function Consumed(s: Poll, max: nat, wanted: bool): Poll {
    match s.pc
    case TestHigh =>
      if s.high != [] && s.count < max then s.(pc := TakeHigh)
      else s.(pc := TestLow, recent := if s.high == [] then [] else s.recent)
    case TakeHigh =>
      if s.high == [] then s
      else s.(pc := TestHigh, high := s.high[1..], count := s.count + if wanted then 1 else 0)
    case TestLow =>
      if s.low != [] && s.count < max then s.(pc := TakeLow) else s.(pc := Leave)
    case TakeLow =>
      if s.low == [] then s
      else s.(pc := TestHigh, low := s.low[1..], count := s.count + if wanted then 1 else 0)
    case Leave => s
  }

  function Next(s: Poll, max: nat, m: Move): Poll {
    match m
    case PublishHigh(e) => s.(high := s.high + [e], recent := s.recent + [e])
    case PublishLow(e) => s.(low := s.low + [e])
    case Consume(wanted) => Consumed(s, max, wanted)
  }

  /** About to look at or take a low event: every high event still waiting is a recent one. */
  ghost predicate Inv(s: Poll, max: nat) {
    && s.count <= max
    && (s.pc == TestLow && s.count < max ==> s.high == s.recent)
    && (s.pc == TakeLow ==> s.low != [] && s.count < max && s.high == s.recent)
    && (s.pc == TakeHigh ==> s.high != [] && s.count < max)
  }

  function Play(s: Poll, max: nat, moves: seq<Move>): Poll {
    if moves == [] then s else Next(Play(s, max, moves[..|moves| - 1]), max, moves[|moves| - 1])
  }

  lemma {:induction false} PlayInv(s: Poll, max: nat, moves: seq<Move>)
    requires s.pc == TestHigh && s.count <= max
    ensures Inv(Play(s, max, moves), max)
  {
    if moves != [] {
      PlayInv(s, max, moves[..|moves| - 1]);
    }
  }

  /** Whatever the stack publishes meanwhile, a wait never exceeds the caller's maximum, and when it takes a low
      event every high event still waiting was published after the wait last found the high ring empty: none
      that it could have seen is passed over. */
  lemma NoHighPassedOver(s: Poll, max: nat, moves: seq<Move>)
    requires s.pc == TestHigh && s.count <= max
    ensures Play(s, max, moves).count <= max
    ensures Play(s, max, moves).pc == TakeLow ==> Play(s, max, moves).high == Play(s, max, moves).recent
  {
    PlayInv(s, max, moves);
  }
}
