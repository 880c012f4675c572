/**
 A prioritised event ring of the event framework, as stack and application threads share it: slots, a start
 index that only the consumer moves and an end index that only the producer moves.
 */
module EventSlots {

  datatype Event = Event(sockid: nat, events: bv32, pri: nat, data: int)

  /** The slot n places after start, going round. */
  function Slot(start: nat, n: nat, size: nat): (i: nat)
    requires start < size && n <= size
    ensures i < size
  {
    if start + n < size then start + n else start + n - size
  }

  /** How many published entries lie between start and end. */
  function Used(start: nat, end: nat, size: nat): (n: nat)
    requires start < size && end < size
    ensures n < size && Slot(start, n, size) == end
  {
    if start <= end then end - start else end + size - start
  }

  /** The indices step by one modulo the size, the form the program computes. */
  lemma NextSlot(i: nat, size: nat)
    requires i < size
    ensures (i + 1) % size == Slot(i, 1, size)
  {
    if i + 1 < size {
      SmallMod(i + 1, size);
    }
  }

  lemma SmallMod(a: nat, b: nat)
    requires a < b
    ensures a % b == a
  {
  }

  /** The n entries from start on, oldest first. */
  ghost function Window<T>(buf: seq<T>, start: nat, n: nat): (w: seq<T>)
    requires start < |buf| && n <= |buf|
    ensures |w| == n
  {
    seq(n, k requires 0 <= k < n => buf[Slot(start, k, |buf|)])
  }

  /** The slot under the end index is outside the published window, so it may be written before the ring is
      known to have room. */
  lemma GapWrite<T>(buf: seq<T>, start: nat, n: nat, e: T)
    requires start < |buf| && n < |buf|
    ensures var b := buf[Slot(start, n, |buf|) := e];
            Window(b, start, n) == Window(buf, start, n) && Window(b, start, n + 1) == Window(buf, start, n) + [e]
  {
  }

  lemma WindowTail<T>(buf: seq<T>, start: nat, n: nat)
    requires start < |buf| && 0 < n < |buf|
    ensures Window(buf, start, n)[0] == buf[start]
    ensures Window(buf, Slot(start, 1, |buf|), n - 1) == Window(buf, start, n)[1..]
  {
  }

  /** One more entry is visible when the slot after the window already holds it. */
  lemma WindowGrow<T>(buf: seq<T>, start: nat, n: nat)
    requires start < |buf| && n < |buf|
    ensures Window(buf, start, n + 1) == Window(buf, start, n) + [buf[Slot(start, n, |buf|)]]
  {
  }

  lemma UsedNextEnd(start: nat, end: nat, size: nat)
    requires start < size && end < size
    ensures Slot(end, 1, size) == start <==> Used(start, end, size) == size - 1
    ensures Slot(end, 1, size) != start ==> Used(start, Slot(end, 1, size), size) == Used(start, end, size) + 1
  {
  }

  lemma UsedNextStart(start: nat, end: nat, size: nat)
    requires start < size && end < size && start != end
    ensures Used(Slot(start, 1, size), end, size) == Used(start, end, size) - 1
    ensures Used(start, end, size) > 0
  {
  }
}

/**
 Every interleaving of one producer and one consumer on a ring, one shared access at a time.
 */
module EventRingSteps {
  import opened EventSlots

  datatype Producer =
    | Idle
    | Store(e: Event)      // write the slot at end
    | TestFull(e: Event)   // (end + 1) % size == start ?
    | Publish(e: Event)    // advance end

  datatype Consumer =
    | Poll                 // end != start ?
    | Load                 // read the slot at start
    | Advance(got: Event)  // advance start

  /** published and taken record what the two threads did. */
  datatype Ring = Ring(buf: seq<Event>, start: nat, end: nat, prod: Producer, cons: Consumer,
                       published: seq<Event>, taken: seq<Event>)

  datatype Move = Offer(e: Event) | Produce | Consume

  ghost predicate InRange(r: Ring) { r.start < |r.buf| && r.end < |r.buf| }

  function Produced(r: Ring): (r': Ring)
    requires InRange(r)
    ensures InRange(r')
  {
    match r.prod
    case Idle => r
    case Store(e) => r.(buf := r.buf[r.end := e], prod := TestFull(e))
    case TestFull(e) => r.(prod := if (r.end + 1) % |r.buf| == r.start then Idle else Publish(e))
    case Publish(e) => r.(end := (r.end + 1) % |r.buf|, prod := Idle, published := r.published + [e])
  }

  function Consumed(r: Ring): (r': Ring)
    requires InRange(r)
    ensures InRange(r')
  {
    match r.cons
    case Poll => if r.end != r.start then r.(cons := Load) else r
    case Load => r.(cons := Advance(r.buf[r.start]))
    case Advance(e) => r.(start := (r.start + 1) % |r.buf|, cons := Poll, taken := r.taken + [e])
  }

  function Next(r: Ring, m: Move): (r': Ring)
    requires InRange(r)
    ensures InRange(r')
  {
    match m
    case Offer(e) => if r.prod == Idle then r.(prod := Store(e)) else r
    case Produce => Produced(r)
    case Consume => Consumed(r)
  }

  ghost function Waiting(r: Ring): nat
    requires InRange(r)
  {
    Used(r.start, r.end, |r.buf|)
  }

  /** What was published is what was taken followed by what the ring shows. */
  ghost predicate Inv(r: Ring) {
    && InRange(r)
    && r.published == r.taken + Window(r.buf, r.start, Waiting(r))
    && (r.prod.TestFull? ==> r.buf[r.end] == r.prod.e)
    && (r.prod.Publish? ==> r.buf[r.end] == r.prod.e && Slot(r.end, 1, |r.buf|) != r.start)
    && (!r.cons.Poll? ==> r.start != r.end)
    && (r.cons.Advance? ==> r.cons.got == r.buf[r.start])
  }

  lemma ProducedInv(r: Ring)
    requires Inv(r)
    ensures Inv(Produced(r))
  {
    hide Window, Used;
    var n, size := Waiting(r), |r.buf|;
    NextSlot(r.end, size);
    match r.prod
    case Idle =>
    case Store(e) => GapWrite(r.buf, r.start, n, e);
    case TestFull(e) =>
    case Publish(e) =>
      UsedNextEnd(r.start, r.end, size);
      WindowGrow(r.buf, r.start, n);
      assert r.published + [e] == r.taken + (Window(r.buf, r.start, n) + [e]);
  }

  lemma ConsumedInv(r: Ring)
    requires Inv(r)
    ensures Inv(Consumed(r))
  {
    hide Window, Used;
    if r.cons.Advance? {
      var n, size := Waiting(r), |r.buf|;
      NextSlot(r.start, size);
      UsedNextStart(r.start, r.end, size);
      WindowTail(r.buf, r.start, n);
      var w := Window(r.buf, r.start, n);
      assert r.taken + w == r.taken + [w[0]] + w[1..];
    }
  }

  /** An empty ring with both threads at rest. */
  ghost predicate Fresh(r: Ring) {
    InRange(r) && r.start == r.end && r.prod == Idle && r.cons == Poll && r.published == [] && r.taken == []
  }

  function Play(r: Ring, moves: seq<Move>): (r': Ring)
    requires InRange(r)
    ensures InRange(r')
  {
    if moves == [] then r else Next(Play(r, moves[..|moves| - 1]), moves[|moves| - 1])
  }

  lemma {:induction false} PlayInv(r: Ring, moves: seq<Move>)
    requires Fresh(r)
    ensures Inv(Play(r, moves))
  {
    hide Inv, Produced, Consumed;
    if moves == [] {
      FreshInv(r);
    } else {
      var before := moves[..|moves| - 1];
      PlayInv(r, before);
      OneInv(Play(r, before), moves[|moves| - 1]);
    }
  }

  lemma FreshInv(r: Ring)
    requires Fresh(r)
    ensures Inv(r)
  {
  }

  lemma OneInv(r: Ring, m: Move)
    requires Inv(r)
    ensures Inv(Next(r, m))
  {
    match m
    case Offer(e) =>
    case Produce => ProducedInv(r);
    case Consume => ConsumedInv(r);
  }

  /** First in, first out, exactly once: in every interleaving the consumer has taken exactly the oldest
      published events in order, and the rest still stand in the ring unharmed. */
  lemma FifoOnce(r: Ring, moves: seq<Move>)
    requires Fresh(r)
    ensures var r' := Play(r, moves);
            r'.taken <= r'.published
            && Window(r'.buf, r'.start, Waiting(r')) == r'.published[|r'.taken|..]
            && |r'.published| - |r'.taken| < |r'.buf|
  {
    hide Play, Window;
    PlayInv(r, moves);
  }

  // ----- nothing gets stuck -----

  ghost function Accesses(moves: seq<Move>, m: Move): nat {
    if moves == [] then 0 else Accesses(moves[..|moves| - 1], m) + if moves[|moves| - 1] == m then 1 else 0
  }

  /** An event offered when the ring was r0, after k accesses of the producer. */
  ghost predicate OnItsWay(r0: Ring, e: Event, k: nat, r: Ring)
    requires InRange(r0)
  {
    && Inv(r) && |r.buf| == |r0.buf|
    && (k < 3 ==> Waiting(r) <= Waiting(r0) && r.published == r0.published)
    && (k == 0 ==> r.prod == Store(e)) && (k == 1 ==> r.prod == TestFull(e)) && (k == 2 ==> r.prod == Publish(e))
    && (k >= 3 ==> r.prod == Idle && r.published == r0.published + [e])
  }

  lemma ConsumeOnItsWay(r0: Ring, e: Event, k: nat, r: Ring)
    requires Inv(r0) && OnItsWay(r0, e, k, r)
    ensures OnItsWay(r0, e, k, Consumed(r))
  {
    hide Window;
    ConsumedInv(r);
    NextSlot(r.start, |r.buf|);
    if r.start != r.end {
      UsedNextStart(r.start, r.end, |r.buf|);
    }
  }

  lemma ProduceOnItsWay(r0: Ring, e: Event, k: nat, r: Ring)
    requires Inv(r0) && OnItsWay(r0, e, k, r) && Waiting(r0) + 1 < |r0.buf|
    ensures OnItsWay(r0, e, k + 1, Produced(r))
  {
    hide Window;
    ProducedInv(r);
    NextSlot(r.end, |r.buf|);
  }

  /** An event that is offered while the ring has room is published by the producer's next three accesses, whatever the
      consumer does in between. */
  lemma {:induction false} OfferPublished(r0: Ring, e: Event, moves: seq<Move>)
    requires Inv(r0) && r0.prod == Idle && Waiting(r0) + 1 < |r0.buf|
    requires forall i :: 0 <= i < |moves| ==> moves[i] == Produce || moves[i] == Consume
    ensures OnItsWay(r0, e, Accesses(moves, Produce), Play(Next(r0, Offer(e)), moves))
    ensures Accesses(moves, Produce) >= 3 ==> Play(Next(r0, Offer(e)), moves).published == r0.published + [e]
  {
    hide Inv, Produced, Consumed, Waiting;
    if moves == [] {
      OfferInv(r0, e);
    } else {
      var before := moves[..|moves| - 1];
      OfferPublished(r0, e, before);
      var r, k := Play(Next(r0, Offer(e)), before), Accesses(before, Produce);
      if moves[|moves| - 1] == Produce {
        ProduceOnItsWay(r0, e, k, r);
      } else {
        ConsumeOnItsWay(r0, e, k, r);
      }
    }
  }

  lemma OfferInv(r: Ring, e: Event)
    requires Inv(r) && r.prod == Idle
    ensures OnItsWay(r, e, 0, Next(r, Offer(e)))
  {
  }

  /** A full ring refuses the event: the producer is idle again and nothing else has changed. */
  lemma OfferRefused(r0: Ring, e: Event)
    requires Inv(r0) && r0.prod == Idle && Waiting(r0) + 1 == |r0.buf|
    ensures var r := Produced(Produced(Next(r0, Offer(e))));
            r.prod == Idle && r.published == r0.published && r.taken == r0.taken && r.start == r0.start && r.end == r0.end
  {
    hide Window;
    NextSlot(r0.end, |r0.buf|);
  }

  /** The consumer of a ring that was not empty, after k of its accesses. */
  ghost predicate Taking(r0: Ring, k: nat, r: Ring) {
    && Inv(r) && r0.published <= r.published
    && (k < 3 ==> Waiting(r) > 0 && r.taken == r0.taken)
    && (k == 0 ==> r.cons == Poll) && (k == 1 ==> r.cons == Load) && (k == 2 ==> r.cons.Advance?)
    && (k >= 3 ==> |r.taken| > |r0.taken|)
  }

  lemma ProduceTaking(r0: Ring, k: nat, r: Ring)
    requires Taking(r0, k, r)
    ensures Taking(r0, k, Produced(r))
  {
    hide Window;
    ProducedInv(r);
    NextSlot(r.end, |r.buf|);
    if r.prod.Publish? {
      UsedNextEnd(r.start, r.end, |r.buf|);
    }
  }

  lemma ConsumeTaking(r0: Ring, k: nat, r: Ring)
    requires Taking(r0, k, r)
    ensures Taking(r0, k + 1, Consumed(r))
  {
    hide Window;
    ConsumedInv(r);
  }

  /** From a ring that is not empty the consumer takes the oldest event within its next three accesses, whatever the
      producer does in between. */
  lemma {:induction false} EventTaken(r0: Ring, moves: seq<Move>)
    requires Inv(r0) && r0.cons == Poll && Waiting(r0) > 0
    ensures Taking(r0, Accesses(moves, Consume), Play(r0, moves))
    ensures Accesses(moves, Consume) >= 3 ==>
              var r := Play(r0, moves); |r0.taken| < |r0.published| && r0.taken + [r0.published[|r0.taken|]] <= r.taken
  {
    hide Window, Produced, Consumed, Waiting;
    if moves == [] {
    } else {
      var before := moves[..|moves| - 1];
      EventTaken(r0, before);
      var r, k := Play(r0, before), Accesses(before, Consume);
      match moves[|moves| - 1]
      case Produce => ProduceTaking(r0, k, r);
      case Consume => ConsumeTaking(r0, k, r);
      case Offer(e) => OfferTaking(r0, k, r, e);
    }
    if Accesses(moves, Consume) >= 3 {
      OldestFirst(r0, Play(r0, moves));
    }
  }

  lemma OfferTaking(r0: Ring, k: nat, r: Ring, e: Event)
    requires Taking(r0, k, r)
    ensures Taking(r0, k, Next(r, Offer(e)))
  {
  }

  lemma OldestFirst(r0: Ring, r: Ring)
    requires Inv(r0) && Inv(r) && r0.published <= r.published && |r.taken| > |r0.taken| && Waiting(r0) > 0
    ensures |r0.taken| < |r0.published| && r0.taken + [r0.published[|r0.taken|]] <= r.taken
  {
    var n := |r0.taken|;
    assert r.taken <= r.published && r0.taken <= r0.published;
    assert r.published[..n + 1] == r0.published[..n + 1] == r0.taken + [r0.published[n]];
    assert r.taken[..n + 1] == r.published[..n + 1];
  }
}
