/**
 What becomes of published events: every run of registering, publishing and taking on a channel, with the socket
 masks that publishing overwrites.
 */
module EventDelivery {
  import opened EventSlots
  import opened EventOrder

  datatype Act =
    | Register(sockid: nat, mask: bv32)    // qepoll_ctl
    | Publish(e: Event, high: bool)        // AddTimeEvent
    | Take(high: bool)                     // qepoll_qevent

  /** An event that left its ring, and whether the caller got it. */
  datatype Outcome = Outcome(e: Event, given: bool)

  datatype Chan = Chan(high: seq<Event>, low: seq<Event>, masks: Masks, log: seq<Outcome>)

  const START := Chan([], [], map[], [])

  /** A ring of `size` slots shows at most size - 1 events; the mask is written even if the ring is full. */
  function Next(s: Chan, size: nat, a: Act): Chan {
    match a
    case Register(sockid, mask) => s.(masks := s.masks[sockid := mask])
    case Publish(e, high) =>
      var s1 := s.(masks := s.masks[e.sockid := e.events]);
      if high then (if |s.high| + 1 < size then s1.(high := s.high + [e]) else s1)
      else if |s.low| + 1 < size then s1.(low := s.low + [e]) else s1
    case Take(high) =>
      if high then
        if s.high == [] then s
        else s.(high := s.high[1..], log := s.log + [Outcome(s.high[0], Wanted(s.masks, s.high[0]))])
      else
        if s.low == [] then s
        else s.(low := s.low[1..], log := s.log + [Outcome(s.low[0], Wanted(s.masks, s.low[0]))])
  }

  function Play(size: nat, acts: seq<Act>): Chan {
    if acts == [] then START else Next(Play(size, acts[..|acts| - 1]), size, acts[|acts| - 1])
  }

  predicate Writes(a: Act, sockid: nat) {
    (a.Register? && a.sockid == sockid) || (a.Publish? && a.e.sockid == sockid)
  }

  function Mask(a: Act): bv32
    requires !a.Take?
  {
    if a.Register? then a.mask else a.e.events
  }

  /** The last mask that was written for a socket, zero if none was. */
  function LastMask(acts: seq<Act>, sockid: nat): bv32 {
    if acts == [] then 0
    else if Writes(acts[|acts| - 1], sockid) then Mask(acts[|acts| - 1])
    else LastMask(acts[..|acts| - 1], sockid)
  }

  lemma {:induction false} MasksAreLast(size: nat, acts: seq<Act>, sockid: nat)
    ensures var m := Play(size, acts).masks; (if sockid in m then m[sockid] else 0) == LastMask(acts, sockid)
  {
    if acts != [] {
      MasksAreLast(size, acts[..|acts| - 1], sockid);
    }
  }

  function Head(s: Chan, high: bool): seq<Event> { if high then s.high else s.low }

  lemma NoBits(b: bv32)
    ensures 0 & b == 0
  {
  }

  /** Over any run, an event that is taken reaches the caller exactly if the last mask written for its socket, by
      whatever registered or published last on it, shares a bit with the event. */
  lemma HandedIff(size: nat, acts: seq<Act>, i: nat)
    requires i < |acts| && acts[i].Take? && Head(Play(size, acts[..i]), acts[i].high) != []
    ensures var s := Play(size, acts[..i]); var e := Head(s, acts[i].high)[0];
            Play(size, acts[..i + 1]).log == s.log + [Outcome(e, LastMask(acts[..i], e.sockid) & e.events != 0)]
  {
    hide Play, LastMask;
    var s := Play(size, acts[..i]);
    var e := Head(s, acts[i].high)[0];
    PlayOne(size, acts, i);
    MasksAreLast(size, acts[..i], e.sockid);
    NoBits(e.events);
  }

  lemma PlayOne(size: nat, acts: seq<Act>, i: nat)
    requires i < |acts|
    ensures Play(size, acts[..i + 1]) == Next(Play(size, acts[..i]), size, acts[i])
  {
    assert acts[..i + 1][..i] == acts[..i];
  }

  /** As long as nobody else writes the socket's mask it is the one the event itself wrote, so the event is handed
      over; a write in between is what can lose it. */
  lemma {:induction false} UndisturbedMask(acts: seq<Act>, j: nat, i: nat, sockid: nat)
    requires j < i <= |acts| && Writes(acts[j], sockid)
    requires forall k :: j < k < i ==> !Writes(acts[k], sockid)
    ensures LastMask(acts[..i], sockid) == Mask(acts[j])
  {
    assert acts[..i][..i - 1] == acts[..i - 1];
    if j < i - 1 {
      UndisturbedMask(acts, j, i - 1, sockid);
    }
  }

  lemma PlayStep(size: nat, acts: seq<Act>, a: Act)
    ensures Play(size, acts + [a]) == Next(Play(size, acts), size, a)
  {
    assert (acts + [a])[..|acts|] == acts;
  }

  /** A run that loses one: a later event of another kind on the same socket replaces the mask, and the earlier event
      is thrown away when it is taken, although its ring had room and kept it. */
  lemma LaterEventHidesEarlier(size: nat, e: Event, f: Event)
    requires size > 2 && e.sockid == f.sockid && e.events & f.events == 0 && f.events != 0
    ensures var acts := [] + [Publish(e, true)] + [Publish(f, true)] + [Take(true)] + [Take(true)];
            Play(size, acts).log == [Outcome(e, false), Outcome(f, true)]
  {
    hide Play, Wanted;
    NoActs(size);
    var a1 := [] + [Publish(e, true)];
    PlayStep(size, [], Publish(e, true));
    var a2 := a1 + [Publish(f, true)];
    PlayStep(size, a1, Publish(f, true));
    var m := START.masks[e.sockid := e.events];
    assert Play(size, a2) == Chan([e, f], [], m[f.sockid := f.events], []);
    LaterMask(m, e, f);
    PlayStep(size, a2, Take(true));
    assert Play(size, a2 + [Take(true)]) == Chan([f], [], m[f.sockid := f.events], [Outcome(e, false)]);
    PlayStep(size, a2 + [Take(true)], Take(true));
  }

  lemma NoActs(size: nat)
    ensures Play(size, []) == START
  {
  }
}

/**
 The same steps on the rings and the socket map in memory.
 */
module EventSteps {
  import opened EventSlots
  import opened EventOrder
  import opened EventWait
  import opened EventDelivery

  /** The state of a channel and the socket map, with what was taken so far. */
  ghost function StateOf(c: Channel, sockets: SocketMap, log: seq<Outcome>): Chan
    requires c.Valid()
    reads c.high, c.low, c.high.qevent, c.low.qevent, sockets
  {
    Chan(c.View().high, c.View().low, sockets.masks, log)
  }

  /** Each operation does to the memory what its step does to the state. */
  method Perform(c: Channel, sockets: SocketMap, size: nat, a: Act, ghost log: seq<Outcome>)
    returns (events: seq<Event>, ghost log': seq<Outcome>)
    requires c.Valid() && c.high.qevent != c.low.qevent
    requires c.high.qevent.Length == c.low.qevent.Length == size
    modifies c.high, c.low, c.high.qevent, c.low.qevent, sockets
    ensures c.Valid()
    ensures StateOf(c, sockets, log') == Next(old(StateOf(c, sockets, log)), size, a)
    ensures events == if a.Take? && |log'| > |log| && log'[|log|].given then [log'[|log|].e] else []
  {
    hide EventQueue.Contents, Wanted;
    events, log' := [], log;
    match a
    case Register(sockid, mask) =>
      sockets.Register(sockid, mask);
    case Publish(e, high) =>
      var published := (if high then c.high else c.low).Append(e, sockets);
    case Take(high) =>
      var q := if high then c.high else c.low;
      q.EmptyQueue();
      if q.start != q.end {
        ghost var e := q.Contents()[0];
        log' := log + [Outcome(e, Wanted(sockets.masks, e))];
        events := q.QEvent(sockets, []);
      }
  }
}
