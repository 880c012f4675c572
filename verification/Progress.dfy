/**
 What can still be delivered, with the window the program computes for its flushes: all that was written, as long as
 it fits that window; nothing behind a cut-off, and nothing that was not sent before the FIN.
 */
module Progress {
  import opened SeqNum
  import opened Reassembly
  import opened ReceiveState
  import opened SendState
  import opened Delivery
  import Connection

  // ----- the program's own windows -----

  datatype Net = Net(c: Limits, mss: U16)

  /** Both ends and the sender's congestion control. */
  datatype World = World(sys: Sys, cong: Cong)

  function Window(w: World): nat { FlushWindow(w.cong.cwnd, w.sys.peer.wnd) }

  ghost predicate InFlight(snd: Snd) { snd.uack != [] || snd.retrans != [] }

  /** A step of the program.  A flush uses the window and segment size of the moment and may be cut off; the
      retransmission timer runs while a packet is unacknowledged and can run only while something is in flight; all else
      happens under the conditions of the joint runs. */
  ghost predicate Go(w: World, n: Net, e: Event, w': World) {
    && Next(w.sys, n.c, e, w'.sys)
    && match e
       case FlushOut(window, maxlen) => window == Window(w) && maxlen == n.mss && w'.cong == w.cong
       case Timeout(_) =>
         && May(w.sys, n.c, e) && InFlight(w.sys.snd)
         && w'.cong == AfterTimeout(w.cong, w.sys.peer.wnd, n.mss)
       case AckArrives(_, _, _, _) =>
         && May(w.sys, n.c, e)
         && w'.cong == CongAfter(Sender(w.sys.snd, w.sys.peer), w.cong, n.mss, Arriving(e))
       case _ => May(w.sys, n.c, e) && w'.cong == w.cong
  }

  ghost predicate Course(run: seq<World>, events: seq<Event>, n: Net) {
    |run| == |events| + 1 && forall i :: 0 <= i < |events| ==> Go(run[i], n, events[i], run[i + 1])
  }

  /** What is still to be hoped for: of the first `lost` packets the sender ever sent none arrives any more, and the
      peer offers no window above `wide`. */
  datatype Outlook = Outlook(lost: nat, wide: U32)

  ghost predicate Offers(e: Event, wide: U32) { e.AckArrives? ==> e.offered <= wide }

  /** A step within the outlook, and not a further write. */
  ghost predicate Spares(w: World, e: Event, o: Outlook) {
    && !e.Write? && Offers(e, o.wide)
    && (e.PacketArrives? ==> o.lost <= |w.sys.snd.wire| && e.seg in w.sys.snd.wire[o.lost..])
  }

  ghost predicate Within(run: seq<World>, events: seq<Event>, o: Outlook) {
    |events| <= |run| && forall i :: 0 <= i < |events| ==> Spares(run[i], events[i], o)
  }

  /** Some sequence of such steps leads from w to w'. */
  ghost predicate Leads(w: World, w': World, n: Net, o: Outlook) {
    exists run: seq<World>, events: seq<Event> ::
      Course(run, events, n) && run[0] == w && run[|events|] == w' && Within(run, events, o)
  }

  lemma LeadsOne(w: World, n: Net, o: Outlook, e: Event, w': World)
    requires Go(w, n, e, w') && Spares(w, e, o)
    ensures Leads(w, w', n, o)
  {
    hide Go, Spares;
    assert Course([w, w'], [e], n) && Within([w, w'], [e], o);
  }

  lemma LeadsOn(w: World, w1: World, w2: World, n: Net, o: Outlook)
    requires Leads(w, w1, n, o) && Leads(w1, w2, n, o)
    ensures Leads(w, w2, n, o)
  {
    hide Go, Spares;
    var r: seq<World>, e: seq<Event> :| Course(r, e, n) && r[0] == w && r[|e|] == w1 && Within(r, e, o);
    var r': seq<World>, e': seq<Event> :| Course(r', e', n) && r'[0] == w1 && r'[|e'|] == w2 && Within(r', e', o);
    var run, events := r + r'[1..], e + e';
    forall i | 0 <= i < |events|
      ensures Go(run[i], n, events[i], run[i + 1]) && Spares(run[i], events[i], o)
    {
      if i < |e| {
        assert run[i] == r[i] && run[i + 1] == r[i + 1];
      } else {
        assert events[i] == e'[i - |e|] && run[i] == r'[i - |e|] && run[i + 1] == r'[i - |e| + 1];
      }
    }
    assert Course(run, events, n) && Within(run, events, o);
  }

  // ----- states of the program before the FIN -----

  /** Duplicates that count are of data in flight: without it the count stays below that of a fast retransmission. */
  ghost predicate Calm(s: Sys) { InFlight(s.snd) || s.peer.dups <= 2 }

  /** A state before the FIN in which these are the writes so far. */
  ghost predicate Open(w: World, n: Net, high: seq<Payload>, low: seq<Payload>) {
    SysInv(w.sys, n.c) && !w.sys.finSent && Written(w.sys.snd, high, low) && Calm(w.sys)
  }

  ghost function Added(l: seq<Payload>, e: Event, priority: bool): seq<Payload> {
    l + if e.Write? && e.priority == priority then [e.data] else []
  }

  lemma OpenNext(w: World, n: Net, e: Event, w': World, high: seq<Payload>, low: seq<Payload>)
    requires Open(w, n, high, low) && Next(w.sys, n.c, e, w'.sys) && May(w.sys, n.c, e) && e != FinOut
    ensures Open(w', n, Added(high, e, true), Added(low, e, false))
  {
    hide SysInv, May, Written, Calm;
    NextInv(w.sys, n.c, e, w'.sys);
    NextWritten(w.sys, n.c, e, w'.sys, high, low);
    CalmStep(w.sys, n.c, e, w'.sys);
  }

  lemma OneStep(w: World, n: Net, o: Outlook, e: Event, w': World, high: seq<Payload>, low: seq<Payload>)
    requires Open(w, n, high, low) && Go(w, n, e, w') && May(w.sys, n.c, e) && Spares(w, e, o) && e != FinOut
    ensures Open(w', n, high, low) && Leads(w, w', n, o)
  {
    hide May, Open, Next, CongAfter;
    OpenNext(w, n, e, w', high, low);
    assert Added(high, e, true) == high && Added(low, e, false) == low;
    LeadsOne(w, n, o, e, w');
  }

  lemma CalmStep(s: Sys, c: Limits, e: Event, s': Sys)
    requires SysInv(s, c) && !s.finSent && Calm(s) && May(s, c, e) && Next(s, c, e, s') && e != FinOut
    ensures Calm(s')
  {
    hide ArriveEffect, Third, Fits, Short, Flush, ReceiveAck, Ok, Contiguous, Packets;
    match e
    case AckArrives(_, _, _, _) => CalmAck(s, c, e);
    case FlushOut(window, maxlen) => FlushSends(s.snd, c.sndSize, window, maxlen);
    case _ =>
  }

  /** A flush that is not cut off leaves nothing in flight only if there was nothing. */
  lemma FlushSends(st: Snd, size: nat, window: int, maxlen: nat)
    requires Inv(st, size) && Fits(st, window) && Short(st, maxlen)
    ensures InFlight(st) ==> InFlight(Flush(st, window, maxlen))
  {
    hide Tiled, Consistent, Short;
    PickStep(st, size);
    ShortStep(st, maxlen);
    FlushCalm(st, window, maxlen);
    if Pick(st).Picked? {
      FlushCalm(SendPicked(Pick(st)), window, maxlen);
    }
  }

  lemma {:induction false} FlushCalm(st: Snd, window: int, maxlen: nat)
    ensures st.uack != [] ==> Flush(st, window, maxlen).uack != []
    decreases Pending(st)
  {
    var k := Pick(st);
    if !(st.nxt < st.head || k.Nothing? || Blocked(st, k.data, window) || |k.data| > maxlen) {
      FlushCalm(SendPicked(k), window, maxlen);
    }
  }

  lemma CalmAck(s: Sys, c: Limits, e: Event)
    requires SysInv(s, c) && !s.finSent && Calm(s) && e.AckArrives? && May(s, c, e)
    ensures var r := ReceiveAck(Sender(s.snd, s.peer), Arriving(e)); InFlight(r.st) || r.peer.dups <= 2
  {
    hide Ok, Contiguous, AllCarry, Packets, IsDup, WindowUpdated, Boundary, AckStep, AllHoldData;
    var st, a := s.snd, Arriving(e);
    ListsTile(st, c.sndSize);
    assert IsCut(st, e.ack);
    ReadAckIff(st, e.ack);
    if !Misses(st, e.ack) && IsDup(s.peer, a, Wrap(st.nxt)) {
      DupIsBefore(s.peer, a, st, e.ack);
      if InFlight(st) {
        StaysInFlight(st, c.sndSize, e.ack, Third(s.peer, a, Wrap(st.nxt)));
      } else {
        assert AckStep(st, e.ack, false) == st by { QuietAck(st, e.ack); }
      }
    }
  }

  lemma DupIsBefore(p: Peer, a: AckInfo, st: Snd, ack: int)
    requires a.ack == Wrap(ack) && -HALF <= ack - st.nxt < HALF && IsDup(p, a, Wrap(st.nxt))
    ensures ack < st.nxt
  {
    DiffOfOffsets(ack, st.nxt);
  }

  lemma QuietAck(st: Snd, ack: int)
    requires st.head - HALF < ack <= st.head
    ensures AckStep(st, ack, false) == if ack > st.nxt && !Misses(st, ack) then st.(nxt := ack) else st
  {
  }

  /** An acknowledgement of less than was sent leaves something in flight. */
  lemma StaysInFlight(st: Snd, size: nat, ack: int, fast: bool)
    requires Inv(st, size) && InFlight(st) && st.head - HALF < ack < st.nxt
    ensures InFlight(AckStep(st, ack, fast))
  {
    hide AllCarry;
    if ack > st.head {
      DropTiles(st.uack, st.head, st.nxt, ack);
    }
  }

  // ----- sizes -----

  ghost predicate UpTo(l: seq<Seg>, most: nat) { forall i :: 0 <= i < |l| ==> |l[i].payload| <= most }

  /** No buffer is longer than this, sent or not. */
  ghost predicate Bounded(snd: Snd, most: nat) { UpTo(snd.uack, most) && Short(snd, most) }

  lemma PickOut(st: Snd, most: nat)
    requires Pick(st).Picked? && Bounded(st, most)
    ensures Bounded(SendPicked(Pick(st)), most)
  {
    ShortStep(st, most);
  }

  lemma {:induction false} FlushBounded(st: Snd, size: nat, window: int, maxlen: nat, most: nat)
    requires Tiled(st, size) && Consistent(st) && Fits(st, window) && Short(st, maxlen) && Bounded(st, most)
    ensures Bounded(Flush(st, window, maxlen), most)
    decreases Pending(st)
  {
    hide Tiled, Consistent, Short, Bounded;
    PickStep(st, size);
    ShortStep(st, maxlen);
    if Pick(st).Picked? {
      PickOut(st, most);
      FlushBounded(SendPicked(Pick(st)), size, window, maxlen, most);
    }
  }

  // ----- the receiver reads and takes in -----

  /** The receiver can hold every segment, and its queue all that waits out of order and one more. */
  ghost predicate Holds(w: World, n: Net) { Bounded(w.sys.snd, n.c.rcv.size) && |w.sys.rcv.ooo| < n.c.rcv.cap }

  /** Of every segment in flight a copy was sent after the first `lost` packets. */
  ghost predicate CopyLeft(snd: Snd, lost: nat) {
    lost <= |snd.wire| && FromWire(snd.uack, snd.wire[lost..]) && FromWire(snd.retrans, snd.wire[lost..])
  }

  /** Everything in order was read and the window is as wide as the buffer. */
  ghost predicate Drained(st: Recv, c: Config) { st.queue == [] && st.head == st.merged && st.wnd == c.size }

  lemma {:induction false} Drain(w: World, n: Net, o: Outlook, high: seq<Payload>, low: seq<Payload>) returns (w': World)
    requires Open(w, n, high, low)
    ensures Open(w', n, high, low) && Leads(w, w', n, o) && Drained(w'.sys.rcv, n.c.rcv)
    ensures w' == World(w.sys.(rcv := w'.sys.rcv), w.cong)
    ensures w'.sys.rcv.merged == w.sys.rcv.merged && w'.sys.rcv.ooo == w.sys.rcv.ooo
    decreases |w.sys.rcv.queue|
  {
    hide Open, Leads;
    var s := w.sys;
    var w1 := w.(sys := s.(rcv := AfterRead(s.rcv, n.c.rcv)));
    OneStep(w, n, o, AppReads, w1, high, low);
    if s.rcv.queue == [] {
      NothingUnread(w, n, high, low);
      w' := w1;
    } else {
      w' := Drain(w1, n, o, high, low);
      LeadsOn(w, w1, w', n, o);
    }
  }

  lemma NothingUnread(w: World, n: Net, high: seq<Payload>, low: seq<Payload>)
    requires Open(w, n, high, low) && w.sys.rcv.queue == []
    ensures w.sys.rcv.head == w.sys.rcv.merged
  {
  }

  /** Between two segments there is a next one. */
  lemma {:induction false} SegmentAt(l: seq<Seg>, a: int, b: int, x: int) returns (i: nat)
    requires Tiles(l, a, b) && Boundary(l, a, x) && x < b
    ensures i < |l| && l[i].off == x
  {
    if l == [] {
      assert false;
    } else if x == a {
      i := 0;
    } else {
      var j := SegmentAt(l[1..], End(l[0]), b, x);
      i := j + 1;
    }
  }

  /** A segment that continues the in-order data of a drained receiver is taken in, with all it joins up with. */
  lemma TakeIn(st: Recv, c: Config, g: Seg) returns (st': Recv)
    requires Ok(st, c) && Drained(st, c) && Sized(g) && g.off == st.merged && |g.payload| <= c.size && |st.ooo| < c.cap
    ensures HasRoom(st, c, g) && ArriveEffect(st, c, g, st') && st'.merged > st.merged && |st'.ooo| <= |st.ooo|
  {
    var r := Merge(st.ooo, End(g));
    MergeTiles(st.ooo, End(g), st.head + c.size);
    MergeCount(st.ooo, End(g));
    var l := [g] + r.taken;
    assert l[1..] == r.taken;
    var st1 := st.(merged := r.next, ooo := r.rest, queue := Offered(st.queue, c.cap, l));
    assert PutEffect(st, c, g, st1, 1 + |r.taken|);
    st' := st1.(wnd := st1.head + c.size - st1.merged);
  }

  /** The next packet in line arrives. */
  lemma Advance(w: World, n: Net, o: Outlook, high: seq<Payload>, low: seq<Payload>) returns (w': World)
    requires Open(w, n, high, low) && Holds(w, n) && Drained(w.sys.rcv, n.c.rcv) && w.sys.rcv.merged < Sent(w.sys.snd)
    requires CopyLeft(w.sys.snd, o.lost)
    ensures Open(w', n, high, low) && Leads(w, w', n, o)
    ensures w' == World(w.sys.(rcv := w'.sys.rcv, acks := w'.sys.acks), w.cong)
    ensures w'.sys.rcv.merged > w.sys.rcv.merged && |w'.sys.rcv.ooo| <= |w.sys.rcv.ooo|
  {
    hide Ok, ArriveEffect, HasRoom, Contiguous, Open, Leads;
    var g := NextInLine(w, n, o, high, low);
    var s := w.sys;
    var rcv' := TakeIn(s.rcv, n.c.rcv, g);
    w' := w.(sys := s.(rcv := rcv', acks := s.acks + {rcv'.merged}));
    UnwrapRecovers(s.rcv, g);
    OneStep(w, n, o, PacketArrives(g), w', high, low);
  }

  lemma NextInLine(w: World, n: Net, o: Outlook, high: seq<Payload>, low: seq<Payload>) returns (g: Seg)
    requires Open(w, n, high, low) && Holds(w, n) && w.sys.rcv.merged < Sent(w.sys.snd) && CopyLeft(w.sys.snd, o.lost)
    ensures g in w.sys.snd.wire && g in w.sys.snd.wire[o.lost..] && Sized(g) && g.off == w.sys.rcv.merged && |g.payload| <= n.c.rcv.size
    ensures Ok(w.sys.rcv, n.c.rcv) && |w.sys.rcv.queue| <= n.c.rcv.cap
  {
    hide Ok, Contiguous, AllCarry, Written, AllHoldData;
    var snd := w.sys.snd;
    var l := snd.uack + snd.retrans;
    ListsTile(snd, n.c.sndSize);
    assert IsCut(snd, w.sys.rcv.merged);
    var i := SegmentAt(l, snd.head, Sent(snd), w.sys.rcv.merged);
    g := l[i];
    assert g == if i < |snd.uack| then snd.uack[i] else snd.retrans[i - |snd.uack|];
    QueueBound(w.sys.rcv, n.c.rcv);
  }

  /** All that was sent is taken in and read. */
  lemma {:induction false} Finish(w: World, n: Net, o: Outlook, high: seq<Payload>, low: seq<Payload>) returns (w': World)
    requires Open(w, n, high, low) && Holds(w, n) && CopyLeft(w.sys.snd, o.lost)
    ensures Open(w', n, high, low) && Leads(w, w', n, o) && |w'.sys.rcv.ooo| <= |w.sys.rcv.ooo|
    ensures w' == World(w.sys.(rcv := w'.sys.rcv, acks := w'.sys.acks), w.cong)
    ensures Drained(w'.sys.rcv, n.c.rcv) && w'.sys.rcv.merged == Sent(w.sys.snd)
    decreases Sent(w.sys.snd) - w.sys.rcv.merged
  {
    hide Open, Leads, Bounded;
    w' := Drain(w, n, o, high, low);
    if w'.sys.rcv.merged < Sent(w.sys.snd) {
      var w1 := w';
      var w2 := Advance(w1, n, o, high, low);
      w' := Finish(w2, n, o, high, low);
      LeadsOn(w, w1, w2, n, o);
      LeadsOn(w, w2, w', n, o);
    } else {
      NotBeyond(w', n, high, low);
    }
  }

  lemma NotBeyond(w: World, n: Net, high: seq<Payload>, low: seq<Payload>)
    requires Open(w, n, high, low)
    ensures w.sys.rcv.merged <= Sent(w.sys.snd)
  {
    assert IsCut(w.sys.snd, w.sys.rcv.merged);
  }

  // ----- the sender sends what is pending -----

  /** A flush that fits the program's window. */
  lemma FlushNow(w: World, n: Net, o: Outlook, high: seq<Payload>, low: seq<Payload>) returns (w': World)
    requires Open(w, n, high, low) && Holds(w, n) && Fits(w.sys.snd, Window(w)) && Short(w.sys.snd, n.mss)
    requires o.lost <= |w.sys.snd.wire| && FromWire(w.sys.snd.uack, w.sys.snd.wire[o.lost..])
    ensures Open(w', n, high, low) && Leads(w, w', n, o) && Holds(w', n) && CopyLeft(w'.sys.snd, o.lost)
    ensures w'.sys.snd.high == [] && w'.sys.snd.low == []
  {
    hide Open, Leads, Flush, Inv, Short, Fits, Window, FromWire;
    var s := w.sys;
    OpenInv(w, n, high, low);
    w' := w.(sys := s.(snd := Flush(s.snd, Window(w), n.mss)));
    OneStep(w, n, o, FlushOut(Window(w), n.mss), w', high, low);
    FlushTiled(s.snd, n.c.sndSize, Window(w), n.mss);
    FlushBounded(s.snd, n.c.sndSize, Window(w), n.mss, n.c.rcv.size);
    FlushCopies(s.snd, Window(w), n.mss, o.lost);
    NothingFromWire(w'.sys.snd, o.lost);
  }

  lemma NothingFromWire(st: Snd, lost: nat)
    requires lost <= |st.wire| && st.retrans == []
    ensures FromWire(st.retrans, st.wire[lost..])
  {
  }

  lemma {:induction false} FlushCopies(st: Snd, window: int, maxlen: nat, lost: nat)
    requires lost <= |st.wire| && FromWire(st.uack, st.wire[lost..])
    ensures var st' := Flush(st, window, maxlen); lost <= |st'.wire| && FromWire(st'.uack, st'.wire[lost..])
    decreases Pending(st)
  {
    hide FromWire;
    var k := Pick(st);
    if !(st.nxt < st.head || k.Nothing? || Blocked(st, k.data, window) || |k.data| > maxlen) {
      OneCopy(st.uack, st.wire, Seg(st.nxt, k.data), lost);
      FlushCopies(SendPicked(k), window, maxlen, lost);
    }
  }

  lemma OneCopy(l: seq<Seg>, wire: seq<Seg>, g: Seg, lost: nat)
    requires lost <= |wire| && FromWire(l, wire[lost..])
    ensures FromWire(l + [g], (wire + [g])[lost..])
  {
    assert (wire + [g])[lost..] == wire[lost..] + [g];
    StillFromWire(l, wire[lost..], wire[lost..] + [g]);
    assert (wire[lost..] + [g])[|wire[lost..]|] == g;
  }

  lemma OpenInv(w: World, n: Net, high: seq<Payload>, low: seq<Payload>)
    requires Open(w, n, high, low)
    ensures !w.sys.finSent && Inv(w.sys.snd, n.c.sndSize) && Tiled(w.sys.snd, n.c.sndSize) && Consistent(w.sys.snd)
  {
  }

  /** The congestion window once all that was sent is acknowledged. */
  ghost function AllAcked(w: World, n: Net): Cong {
    var snd := w.sys.snd;
    if Sent(snd) <= snd.head then w.cong else Grown(w.cong, n.mss, Sent(snd) - snd.head)
  }

  /** All that was sent is read and then acknowledged, by a packet that offers the widest window: nothing is in flight
      any more. */
  lemma AckAll(w: World, n: Net, o: Outlook, high: seq<Payload>, low: seq<Payload>) returns (w': World)
    requires Open(w, n, high, low) && Holds(w, n) && CopyLeft(w.sys.snd, o.lost)
    ensures Open(w', n, high, low) && Leads(w, w', n, o) && Holds(w', n)
    ensures var a, b := w.sys.snd, w'.sys.snd;
            && b.uack == [] && b.retrans == [] && b.wire == a.wire && b.next == a.next && b.una == Sent(a)
            && b.high == a.high && b.low == a.low
    ensures w'.cong == AllAcked(w, n) && w'.sys.peer.wnd == o.wide
  {
    hide Open, Leads, Bounded, Inv, ReceiveAck, CongAfter, Third, CopyLeft, Grown;
    var w1 := Finish(w, n, o, high, low);
    var s := w1.sys;
    var e := AckArrives(s.rcv.merged, 0, o.wide, 0);
    var r := ReceiveAck(Sender(s.snd, s.peer), Arriving(e));
    w' := World(s.(snd := r.st, peer := r.peer), CongAfter(Sender(s.snd, s.peer), w1.cong, n.mss, Arriving(e)));
    MayAckAll(w1, n, e, high, low);
    OneStep(w1, n, o, e, w', high, low);
    LeadsOn(w, w1, w', n, o);
    AckedAll(w1, n, e, high, low);
    WidensAll(w1, n, e, high, low);
    BoundedRest(s.snd, r.st, n.c.rcv.size);
  }

  lemma MayAckAll(w: World, n: Net, e: Event, high: seq<Payload>, low: seq<Payload>)
    requires Open(w, n, high, low) && e.AckArrives? && e.ack == w.sys.rcv.merged
    ensures May(w.sys, n.c, e)
  {
    hide Third;
  }

  lemma BoundedRest(st: Snd, st': Snd, most: nat)
    requires Bounded(st, most) && st'.uack == [] && st'.retrans == [] && st'.high == st.high && st'.low == st.low
    ensures Bounded(st', most)
  {
  }

  /** Acknowledging all that was sent frees all that was sent. */
  lemma AckedAll(w: World, n: Net, e: Event, high: seq<Payload>, low: seq<Payload>)
    requires Open(w, n, high, low) && e.AckArrives? && e.ack == w.sys.rcv.merged == Sent(w.sys.snd)
    ensures var a, b := w.sys.snd, ReceiveAck(Sender(w.sys.snd, w.sys.peer), Arriving(e)).st;
            && b.uack == [] && b.retrans == [] && b.wire == a.wire && b.next == a.next && b.una == Sent(a)
            && b.high == a.high && b.low == a.low
  {
    hide Third, Counted, DropAcked, TotalLen, Tiles, AllCarry, AllHoldData, Boundary, Packets;
    var st, ack := w.sys.snd, Sent(w.sys.snd);
    var size := n.c.sndSize;
    ListsTile(st, size);
    ReadAckIff(st, ack);
    var fast := Third(w.sys.peer, Arriving(e), Wrap(st.nxt));
    FreesAll(st, size, fast);
  }

  /** It is no duplicate, and its window is taken over. */
  lemma WidensAll(w: World, n: Net, e: Event, high: seq<Payload>, low: seq<Payload>)
    requires Open(w, n, high, low) && e.AckArrives? && e.ack == Sent(w.sys.snd)
    ensures CongAfter(Sender(w.sys.snd, w.sys.peer), w.cong, n.mss, Arriving(e)) == AllAcked(w, n)
    ensures ReceiveAck(Sender(w.sys.snd, w.sys.peer), Arriving(e)).peer.wnd == e.offered
  {
    hide AckStep, Tiles, AllCarry, AllHoldData, Packets, Grown, Ok, Contiguous, SeqLt;
    var st := w.sys.snd;
    ListsTile(st, n.c.sndSize);
    ReadAckIff(st, e.ack);
    NotBefore(e.ack, st.nxt);
    assert Grown(w.cong, n.mss, 0) == w.cong by { NoGrowth(w.cong, n.mss); }
  }

  lemma NoGrowth(g: Cong, mss: U16)
    ensures Grown(g, mss, 0) == g
  {
  }

  lemma NotBefore(ack: int, nxt: int)
    requires 0 <= ack - nxt < HALF
    ensures !SeqLt(Wrap(ack), Wrap(nxt))
  {
    DiffOfOffsets(ack, nxt);
  }

  lemma FreesAll(st: Snd, size: nat, fast: bool)
    requires Inv(st, size) && IsCut(st, Sent(st))
    ensures !Misses(st, Sent(st))
    ensures var b := AckStep(st, Sent(st), fast);
            && b.uack == [] && b.retrans == [] && b.una == Sent(st) && b.wire == st.wire
            && b.next == st.next && b.high == st.high && b.low == st.low
  {
    ListsTile(st, size);
    TilesForward(st.uack, st.head, st.nxt);
    TilesForward(st.retrans, st.nxt, Sent(st));
    if Sent(st) > st.head {
      DropAll(st.uack, st.head, st.nxt, Sent(st));
      DropAll(st.retrans, st.nxt, Sent(st), Sent(st));
      DropAll(st.uack + st.retrans, st.head, Sent(st), Sent(st));
    }
  }

  lemma {:induction false} DropAll(l: seq<Seg>, a: int, b: int, ack: int)
    requires Tiles(l, a, b) && b <= ack
    ensures DropAcked(l, ack) == []
  {
    if l != [] {
      TilesForward(l[1..], End(l[0]), b);
      DropAll(l[1..], End(l[0]), b, ack);
    }
  }

  // ----- what is lost for good -----

  /** Buffers that were ever transmitted or still wait. */
  ghost function Kept(snd: Snd): nat { |snd.order| + |snd.high| + |snd.low| }

  ghost function WriteCount(events: seq<Event>): nat {
    if events == [] then 0 else WriteCount(events[..|events| - 1]) + if events[|events| - 1].Write? then 1 else 0
  }

  lemma {:induction false} FlushKept(st: Snd, window: int, maxlen: nat)
    ensures Kept(Flush(st, window, maxlen)) <= Kept(st)
    decreases Pending(st)
  {
    var k := Pick(st);
    if !(st.nxt < st.head || k.Nothing? || Blocked(st, k.data, window) || |k.data| > maxlen) {
      FlushKept(SendPicked(k), window, maxlen);
    }
  }

  /** With nothing in flight, a flush that breaks the tiling has dropped a buffer that was never sent. */
  lemma {:induction false} FlushDrops(st: Snd, size: nat, window: int, maxlen: nat)
    requires Tiled(st, size) && Consistent(st) && st.retrans == []
    ensures Tiled(Flush(st, window, maxlen), size) || Kept(Flush(st, window, maxlen)) < Kept(st)
    decreases Pending(st)
  {
    hide Tiled, Consistent;
    PickStep(st, size);
    var k := Pick(st);
    if k.Picked? && !Blocked(st, k.data, window) && |k.data| <= maxlen {
      FlushDrops(SendPicked(k), size, window, maxlen);
    }
  }

  /** No step brings a dropped buffer back. */
  lemma StepKept(s: Sys, c: Limits, e: Event, s': Sys)
    requires Next(s, c, e, s')
    ensures Kept(s'.snd) <= Kept(s.snd) + if e.Write? then 1 else 0
  {
    hide Third, Counted, DropAcked, TotalLen, Flush, ArriveEffect;
    if e.FlushOut? {
      FlushKept(s.snd, e.window, e.maxlen);
    }
  }

  /** More waits than the window lets out, or a buffer is too long. */
  ghost predicate Stuck(snd: Snd, cwnd: U32, wide: U32, mss: U16) {
    snd.next - snd.una > FlushWindow(cwnd, wide) || !Short(snd, mss)
  }

  /** Nothing in flight that could widen the window, and what waits does not fit it. */
  ghost predicate Waiting(w: World, n: Net, cwnd: U32, wide: U32) {
    && SysInv(w.sys, n.c) && !w.sys.finSent && !InFlight(w.sys.snd) && w.sys.peer.dups <= 2
    && w.cong.cwnd == cwnd && w.sys.peer.wnd <= wide && Stuck(w.sys.snd, cwnd, wide, n.mss)
  }

  ghost predicate Queued(snd: Snd) { snd.high != [] || snd.low != [] }

  /** Not all of these many writes will ever be transmitted. */
  ghost predicate Doomed(w: World, n: Net, cwnd: U32, wide: U32, writes: nat) {
    || Kept(w.sys.snd) < writes
    || (Kept(w.sys.snd) <= writes && w.sys.finSent && Queued(w.sys.snd))
    || (Kept(w.sys.snd) <= writes && Waiting(w, n, cwnd, wide))
  }

  lemma WaitingQueued(w: World, n: Net, cwnd: U32, wide: U32)
    requires Waiting(w, n, cwnd, wide)
    ensures Queued(w.sys.snd)
  {
    hide Ok, Contiguous, Tiled, Consistent, Packets;
    if !Queued(w.sys.snd) {
      QuietEnds(w.sys.snd, n.c.sndSize);
    }
  }

  lemma DoomedMeans(w: World, n: Net, cwnd: U32, wide: U32, writes: nat)
    requires Doomed(w, n, cwnd, wide, writes)
    ensures |w.sys.snd.order| < writes
  {
    hide Waiting;
    if Waiting(w, n, cwnd, wide) {
      WaitingQueued(w, n, cwnd, wide);
    }
  }

  /** The flush of a waiting sender is cut off. */
  lemma FlushCut(w: World, n: Net, cwnd: U32, wide: U32)
    requires Waiting(w, n, cwnd, wide)
    ensures Kept(Flush(w.sys.snd, Window(w), n.mss)) < Kept(w.sys.snd)
  {
    hide Ok, Contiguous, AllCarry, Packets, Flush, Tiles, Short;
    var snd := w.sys.snd;
    FlushTiled(snd, n.c.sndSize, Window(w), n.mss);
    FlushDrops(snd, n.c.sndSize, Window(w), n.mss);
    NotAllOut(w, n, cwnd, wide);
  }

  lemma NotAllOut(w: World, n: Net, cwnd: U32, wide: U32)
    requires Waiting(w, n, cwnd, wide)
    ensures !(Fits(w.sys.snd, Window(w)) && Short(w.sys.snd, n.mss))
  {
    hide Ok, Contiguous, AllCarry, Packets, Short;
    assert w.sys.snd.una == w.sys.snd.head == w.sys.snd.nxt;
  }

  /** Acknowledgements that come while nothing is in flight change neither the buffer nor the window. */
  lemma IdleAck(w: World, n: Net, cwnd: U32, wide: U32, e: Event)
    requires Waiting(w, n, cwnd, wide) && e.AckArrives? && May(w.sys, n.c, e)
    ensures var r := ReceiveAck(Sender(w.sys.snd, w.sys.peer), Arriving(e));
            r.st == w.sys.snd && r.peer.dups <= 2 && r.peer.wnd == e.offered
    ensures CongAfter(Sender(w.sys.snd, w.sys.peer), w.cong, n.mss, Arriving(e)).cwnd == cwnd
  {
    hide Ok, Contiguous, AllCarry, Packets, Stuck, IsDup, WindowUpdated, FreeAcked;
    var st, a := w.sys.snd, Arriving(e);
    assert Tiles([], st.head, st.nxt) && Tiles([], st.nxt, Sent(st));
    assert IsCut(st, e.ack);
    ReadAckIff(st, e.ack);
    NoDupAtEnd(w.sys.peer, a, st, e.ack);
    OfferTaken(w.sys.peer, a);
  }

  lemma OfferTaken(p: Peer, a: AckInfo)
    ensures WindowUpdated(Seen(p, a), a).wnd == a.window
  {
  }

  lemma NoDupAtEnd(p: Peer, a: AckInfo, st: Snd, ack: int)
    requires a.ack == Wrap(ack) && st.nxt == st.head
    ensures ack == st.head ==> !IsDup(p, a, Wrap(st.nxt))
  {
    if ack == st.head {
      DiffOfOffsets(ack, st.nxt);
    }
  }

  lemma DoomedStep(w: World, n: Net, cwnd: U32, wide: U32, writes: nat, e: Event, w': World)
    requires Doomed(w, n, cwnd, wide, writes) && Go(w, n, e, w') && Offers(e, wide)
    ensures Doomed(w', n, cwnd, wide, writes + if e.Write? then 1 else 0)
  {
    hide May, Next, SysInv, CongAfter, Stuck, Kept, ReceiveAck;
    StepKept(w.sys, n.c, e, w'.sys);
    if Kept(w.sys.snd) < writes {
    } else if w.sys.finSent {
      AfterFin(w, n, e, w');
    } else {
      WaitingStep(w, n, cwnd, wide, e, w');
    }
  }

  lemma AfterFin(w: World, n: Net, e: Event, w': World)
    requires Go(w, n, e, w') && w.sys.finSent
    ensures w'.sys.finSent && w'.sys.snd.high == w.sys.snd.high && w'.sys.snd.low == w.sys.snd.low
  {
    hide CongAfter, ArriveEffect, Third, Counted, DropAcked, TotalLen, Flush;
    if OfSender(e) {
      SilentStep(w.sys, n.c, e, w'.sys);
    }
  }

  lemma WaitingStep(w: World, n: Net, cwnd: U32, wide: U32, e: Event, w': World)
    requires Waiting(w, n, cwnd, wide) && Go(w, n, e, w') && Offers(e, wide)
    ensures || Kept(w'.sys.snd) < Kept(w.sys.snd)
            || (w'.sys.finSent && Queued(w'.sys.snd))
            || Waiting(w', n, cwnd, wide)
  {
    hide SysInv, CongAfter, Kept, ReceiveAck, Third, Fits, Short, Flush, Unwrap, ArriveEffect, HasRoom;
    match e
    case FlushOut(_, _) => FlushCut(w, n, cwnd, wide);
    case FinOut => WaitingQueued(w, n, cwnd, wide);
    case AckArrives(_, _, _, _) =>
      IdleAck(w, n, cwnd, wide, e);
      NextInv(w.sys, n.c, e, w'.sys);
    case Write(data, priority) =>
      NextInv(w.sys, n.c, e, w'.sys);
      StillStuck(w.sys.snd, cwnd, wide, n.mss, n.c.sndCap, data, priority);
    case Timeout(_) =>
    case _ =>
      NextInv(w.sys, n.c, e, w'.sys);
  }

  lemma StillStuck(snd: Snd, cwnd: U32, wide: U32, mss: U16, cap: nat, data: Payload, priority: bool)
    requires Stuck(snd, cwnd, wide, mss)
    ensures Stuck(PutBytes(snd, cap, data, priority), cwnd, wide, mss)
  {
    var snd' := PutBytes(snd, cap, data, priority);
    if !Short(snd, mss) && Short(snd', mss) {
      assert AllShort(snd.high, mss) by { forall i | 0 <= i < |snd.high| ensures |snd.high[i]| <= mss { assert snd'.high[i] == snd.high[i]; } }
      assert AllShort(snd.low, mss) by { forall i | 0 <= i < |snd.low| ensures |snd.low[i]| <= mss { assert snd'.low[i] == snd.low[i]; } }
    }
  }

  // ----- main results -----

  /** All that was written was transmitted, and read in order. */
  ghost predicate Complete(w: World, high: seq<Payload>, low: seq<Payload>) {
    && Bytes(w.sys.rcv.delivered) == Flat(w.sys.snd.order)
    && Of(w.sys.snd.order, true) == high && Of(w.sys.snd.order, false) == low
  }

  ghost predicate Deliverable(w: World, n: Net, o: Outlook, high: seq<Payload>, low: seq<Payload>) {
    exists w' :: Leads(w, w', n, o) && Complete(w', high, low)
  }

  /** What was never sent can go out once all that was sent is acknowledged: it fits the congestion window of that
      time, with what the peer offers, and no buffer is too long. */
  ghost predicate CanSend(w: World, n: Net, o: Outlook) {
    && w.sys.snd.next - Sent(w.sys.snd) <= FlushWindow(AllAcked(w, n).cwnd, o.wide)
    && AllShort(w.sys.snd.high, n.mss) && AllShort(w.sys.snd.low, n.mss)
  }

  /** From every state before the FIN some continuation delivers all that was written, if of what is in flight a copy
      can still arrive, what was never sent can go out, and the receiver can hold it. */
  lemma AllCanBeDelivered(w: World, n: Net, o: Outlook, high: seq<Payload>, low: seq<Payload>)
    requires Open(w, n, high, low) && Holds(w, n) && CopyLeft(w.sys.snd, o.lost) && CanSend(w, n, o)
    ensures Deliverable(w, n, o, high, low)
  {
    hide Leads, Bounded, Open, Complete, Short, Fits, AllAcked;
    var w1 := AckAll(w, n, o, high, low);
    FitsAfter(w, n, o, w1);
    var w' := FlushAndFinish(w1, n, o, high, low);
    LeadsOn(w, w1, w', n, o);
  }

  lemma FitsAfter(w: World, n: Net, o: Outlook, w1: World)
    requires CanSend(w, n, o) && w1.cong == AllAcked(w, n) && w1.sys.peer.wnd == o.wide
    requires var a, b := w.sys.snd, w1.sys.snd;
             b.uack == [] && b.retrans == [] && b.next == a.next && b.una == Sent(a) && b.high == a.high && b.low == a.low
    ensures Short(w1.sys.snd, n.mss) && Fits(w1.sys.snd, Window(w1))
  {
    hide AllAcked;
  }

  lemma FlushAndFinish(w: World, n: Net, o: Outlook, high: seq<Payload>, low: seq<Payload>) returns (w': World)
    requires Open(w, n, high, low) && Holds(w, n) && Fits(w.sys.snd, Window(w)) && Short(w.sys.snd, n.mss)
    requires o.lost <= |w.sys.snd.wire| && FromWire(w.sys.snd.uack, w.sys.snd.wire[o.lost..])
    ensures Leads(w, w', n, o) && Complete(w', high, low)
  {
    hide Leads, Bounded, Open, Complete, Short, Fits, FromWire;
    var w1 := FlushNow(w, n, o, high, low);
    w' := Finish(w1, n, o, high, low);
    LeadsOn(w, w1, w', n, o);
    AllThere(w', n, high, low);
  }

  /** The window of the next flush, if an unacknowledged packet is lost: its time-out comes first. */
  ghost function ResendWindow(w: World, n: Net): nat {
    if w.sys.snd.uack == [] then Window(w) else FlushWindow(n.mss, w.sys.peer.wnd)
  }

  /** Even if every packet sent so far is lost for good, all that was written can be delivered, if all of it that is not
      acknowledged fits the window of the next flush: that of one segment after a time-out. */
  lemma AllCanBeResent(w: World, n: Net, o: Outlook, high: seq<Payload>, low: seq<Payload>)
    requires Open(w, n, high, low) && Holds(w, n) && Bounded(w.sys.snd, n.mss) && o.lost <= |w.sys.snd.wire|
    requires w.sys.snd.next - w.sys.snd.una <= ResendWindow(w, n)
    ensures Deliverable(w, n, o, high, low)
  {
    hide Leads, Open, Complete, FlushWindow, FromWire, Bounded;
    var s := w.sys;
    NothingFromWire(s.snd.(retrans := []), o.lost);
    if s.snd.uack == [] {
      BoundedShort(s.snd, n.mss);
      var w' := FlushAndFinish(w, n, o, high, low);
    } else {
      var e := Timeout(Connection.Established);
      var w1 := World(s.(snd := RtoStep(s.snd, true)), AfterTimeout(w.cong, s.peer.wnd, n.mss));
      OneStep(w, n, o, e, w1, high, low);
      TimeoutLists(w, n, high, low);
      var w' := FlushAndFinish(w1, n, o, high, low);
      LeadsOn(w, w1, w', n, o);
    }
  }

  lemma BoundedShort(st: Snd, most: nat)
    requires Bounded(st, most)
    ensures Short(st, most)
  {
  }

  lemma TimeoutLists(w: World, n: Net, high: seq<Payload>, low: seq<Payload>)
    requires Open(w, n, high, low)
    ensures var a, b := w.sys.snd, RtoStep(w.sys.snd, true);
            && b.uack == [] && b.wire == a.wire && b.next == a.next && b.una == a.una
            && (forall most :: Bounded(a, most) ==> Bounded(b, most) && Short(b, most))
  {
    hide AllCarry, Tiles, AllHoldData, Packets, Ok, Contiguous;
  }

  lemma AllThere(w: World, n: Net, high: seq<Payload>, low: seq<Payload>)
    requires Open(w, n, high, low) && w.sys.snd.high == [] && w.sys.snd.low == []
    requires Drained(w.sys.rcv, n.c.rcv) && w.sys.rcv.merged == Sent(w.sys.snd)
    ensures Complete(w, high, low)
  {
    hide Ok, Contiguous, Bytes, Flat, Of, Packets;
    DeliveredPrefix(w.sys, n.c);
    var order := w.sys.snd.order;
    assert Of(order, true) + [] == Of(order, true) && Of(order, false) + [] == Of(order, false);
  }

  /** With nothing in flight, what does not fit the window is lost for good: as long as the peer offers no wider one,
      whatever happens, further writes too, not all writes are ever transmitted. */
  lemma {:induction false} LostForGood(run: seq<World>, events: seq<Event>, n: Net, wide: U32, writes: nat, k: nat)
    requires Course(run, events, n) && k < |run| && forall i :: 0 <= i < |events| ==> Offers(events[i], wide)
    requires Waiting(run[0], n, run[0].cong.cwnd, wide) && Kept(run[0].sys.snd) <= writes
    ensures Doomed(run[k], n, run[0].cong.cwnd, wide, writes + WriteCount(events[..k]))
    ensures |run[k].sys.snd.order| < writes + WriteCount(events[..k])
  {
    hide Go, Waiting, Doomed, Offers;
    var cwnd := run[0].cong.cwnd;
    if k == 0 {
      assert Doomed(run[0], n, cwnd, wide, writes) by { DoomedNow(run[0], n, wide, writes); }
    } else {
      LostForGood(run, events, n, wide, writes, k - 1);
      DoomedStep(run[k - 1], n, cwnd, wide, writes + WriteCount(events[..k - 1]), events[k - 1], run[k]);
      assert events[..k][..k - 1] == events[..k - 1];
    }
    DoomedMeans(run[k], n, cwnd, wide, writes + WriteCount(events[..k]));
  }

  lemma DoomedNow(w: World, n: Net, wide: U32, writes: nat)
    requires Waiting(w, n, w.cong.cwnd, wide) && Kept(w.sys.snd) <= writes
    ensures Doomed(w, n, w.cong.cwnd, wide, writes)
  {
  }

  /** With nothing in flight it is exact: all that was written can be delivered if and only if what waits fits the
      congestion window and the widest window of the peer, or the 1500 bytes every flush has, and no buffer is too
      long. */
  lemma QuietIff(w: World, n: Net, o: Outlook, high: seq<Payload>, low: seq<Payload>)
    requires Open(w, n, high, low) && Holds(w, n) && !InFlight(w.sys.snd)
    requires o.lost <= |w.sys.snd.wire| && w.sys.peer.wnd <= o.wide
    ensures Deliverable(w, n, o, high, low) <==>
            w.sys.snd.next - w.sys.snd.una <= FlushWindow(w.cong.cwnd, o.wide) && Short(w.sys.snd, n.mss)
  {
    hide SysInv, Written, Complete, Leads, FlushWindow;
    var snd := w.sys.snd;
    QuietSent(w, n);
    if snd.next - snd.una <= FlushWindow(w.cong.cwnd, o.wide) && Short(snd, n.mss) {
      AllCanBeDelivered(w, n, o, high, low);
    } else {
      QuietLost(w, n, o, high, low);
    }
  }

  lemma QuietLost(w: World, n: Net, o: Outlook, high: seq<Payload>, low: seq<Payload>)
    requires Open(w, n, high, low) && !InFlight(w.sys.snd) && w.sys.peer.wnd <= o.wide
    requires Stuck(w.sys.snd, w.cong.cwnd, o.wide, n.mss)
    ensures !Deliverable(w, n, o, high, low)
  {
    hide SysInv, Written, Complete, Leads, Stuck;
    if Deliverable(w, n, o, high, low) {
      var w' :| Leads(w, w', n, o) && Complete(w', high, low);
      NeverComplete(w, n, o, high, low, w');
    }
  }

  lemma QuietSent(w: World, n: Net)
    requires SysInv(w.sys, n.c) && !w.sys.finSent && !InFlight(w.sys.snd)
    ensures Sent(w.sys.snd) == w.sys.snd.una == w.sys.snd.head
  {
  }

  lemma NeverComplete(w: World, n: Net, o: Outlook, high: seq<Payload>, low: seq<Payload>, w': World)
    requires Waiting(w, n, w.cong.cwnd, o.wide) && Written(w.sys.snd, high, low) && Leads(w, w', n, o)
    ensures !Complete(w', high, low)
  {
    hide Waiting, Go, Of, Flat, Bytes;
    var run: seq<World>, events: seq<Event> :| Course(run, events, n) && run[0] == w && run[|events|] == w' && Within(run, events, o);
    LostForGood(run, events, n, o.wide, Kept(w.sys.snd), |events|);
    assert events[..|events|] == events;
    NoneWritten(run, events, o);
    TwoKinds(w.sys.snd.order);
    TwoKinds(w'.sys.snd.order);
  }

  lemma {:induction false} NoneWritten(run: seq<World>, events: seq<Event>, o: Outlook)
    requires Within(run, events, o)
    ensures WriteCount(events) == 0
  {
    if events != [] {
      NoneWritten(run, events[..|events| - 1], o);
    }
  }

  lemma {:induction false} TwoKinds(l: seq<First>)
    ensures |Of(l, true)| + |Of(l, false)| == |l|
  {
    if l != [] {
      TwoKinds(l[..|l| - 1]);
    }
  }

  /** Every state the program reaches without having lost a buffer is such a state: every flush was whole. */
  lemma {:induction false} CourseOpen(run: seq<World>, events: seq<Event>, n: Net, k: nat)
    requires Course(run, events, n) && Init(run[0].sys, n.c) && run[0].sys.peer.dups == 0
    requires forall i :: 0 <= i < |events| ==> May(run[i].sys, n.c, events[i]) && events[i] != FinOut
    requires k < |run|
    ensures Open(run[k], n, Writes(events[..k], true), Writes(events[..k], false))
  {
    hide May, Init, Go, Next, Open;
    if k == 0 {
      assert events[..0] == [];
      StartOpen(run[0], n);
    } else {
      CourseOpen(run, events, n, k - 1);
      assert Next(run[k - 1].sys, n.c, events[k - 1], run[k].sys) by { GoNext(run[k - 1], n, events[k - 1], run[k]); }
      OpenNext(run[k - 1], n, events[k - 1], run[k], Writes(events[..k - 1], true), Writes(events[..k - 1], false));
      WritesOne(events, k - 1, true);
      WritesOne(events, k - 1, false);
    }
  }

  lemma GoNext(w: World, n: Net, e: Event, w': World)
    requires Go(w, n, e, w')
    ensures Next(w.sys, n.c, e, w'.sys)
  {
  }

  lemma StartOpen(w: World, n: Net)
    requires Init(w.sys, n.c) && w.sys.peer.dups == 0
    ensures Open(w, n, [], [])
  {
    InitInv(w.sys, n.c);
    UnusedWritten(w.sys.snd.base);
  }

  ghost function NewStream(peer: Peer): Sys { Sys(Unused(0), peer, false, Recv(0, 0, 0, 0, [], [], []), {0}) }

  /** A write that the buffer and its queue have room for. */
  lemma WriteGo(w: World, n: Net, data: Payload) returns (w': World)
    requires !w.sys.finSent && 0 < |data| <= MAX_PAYLOAD && |data| <= n.c.sndSize - (w.sys.snd.next - w.sys.snd.head)
    requires |w.sys.snd.low| < n.c.sndCap
    ensures w' == w.(sys := w.sys.(snd := w.sys.snd.(next := w.sys.snd.next + |data|, low := w.sys.snd.low + [data])))
    ensures var e := Write(data, false); Go(w, n, e, w') && May(w.sys, n.c, e) && Next(w.sys, n.c, e, w'.sys)
  {
    w' := w.(sys := w.sys.(snd := PutBytes(w.sys.snd, n.c.sndCap, data, false)));
  }

  /** Such a loss, on every new stream whose congestion window is below 2000 bytes: two buffers of 1000 bytes are written
      before the first flush. */
  lemma TwoWritesLost(n: Net, cong: Cong, peer: Peer, a: Payload, b: Payload)
    requires cong.cwnd < 2000 && |a| == |b| == 1000 && peer.dups == 0
    requires 2000 <= n.c.sndSize < HALF && n.c.sndCap >= 2 && n.c.rcv.size + MAX_PAYLOAD <= HALF
    ensures exists run: seq<World>, events: seq<Event> ::
              && Course(run, events, n) && Init(run[0].sys, n.c) && run[0].cong == cong && run[0].sys.peer == peer
              && |run| == 3 && Open(run[2], n, [], [a, b])
              && (forall o: Outlook :: peer.wnd <= o.wide ==> !Deliverable(run[2], n, o, [], [a, b]))
  {
    hide Open, Deliverable, Go, May, Next, Init;
    var w0 := World(NewStream(peer), cong);
    assert Init(w0.sys, n.c) by { NewStreamInit(n.c, peer); }
    StartOpen(w0, n);
    var w1 := WriteGo(w0, n, a);
    OpenNext(w0, n, Write(a, false), w1, [], []);
    assert Added([], Write(a, false), true) == [] && Added([], Write(a, false), false) == [a];
    var w2 := WriteGo(w1, n, b);
    OpenNext(w1, n, Write(b, false), w2, [], [a]);
    assert Added([], Write(b, false), true) == [] && Added([a], Write(b, false), false) == [a, b];
    forall o: Outlook | peer.wnd <= o.wide ensures !Deliverable(w2, n, o, [], [a, b]) {
      QuietLost(w2, n, o, [], [a, b]);
    }
    assert Course([w0, w1, w2], [Write(a, false), Write(b, false)], n);
  }

  lemma NewStreamInit(c: Limits, peer: Peer)
    requires c.sndSize < HALF && c.rcv.size + MAX_PAYLOAD <= HALF
    ensures Init(NewStream(peer), c)
  {
  }

  /** Once the FIN is out no data packet is sent again: not the bytes that were lost, although time-outs line them up
      for it, and not the bytes that still waited.  The log and the queues stand still for good. */
  lemma {:induction false} SilentAfterFin(run: seq<Sys>, events: seq<Event>, c: Limits, m: nat, n: nat)
    requires IsRun(run, events, c) && m <= n < |run| && run[m].finSent
    ensures var a, b := run[m].snd, run[n].snd;
            run[n].finSent && b.wire == a.wire && b.order == a.order && b.high == a.high && b.low == a.low
  {
    hide SysInv, May, Next;
    if m < n {
      SilentAfterFin(run, events, c, m, n - 1);
      RunInv(run, events, c, n - 1);
      var s, e, s' := run[n - 1], events[n - 1], run[n];
      if OfSender(e) {
        SilentStep(s, c, e, s');
      } else {
        ReceiverStep(s, c, e, s');
      }
    }
  }

  /** So what waits in the queues when the FIN goes out is never delivered: at every later point the bytes read are a
      prefix of what had been sent before the FIN. */
  lemma NothingAfterFin(run: seq<Sys>, events: seq<Event>, c: Limits, m: nat, n: nat)
    requires IsRun(run, events, c) && m <= n < |run| && run[m].finSent
    ensures Bytes(run[n].rcv.delivered) <= Flat(run[m].snd.order)
    ensures Of(run[m].snd.order, true) + run[m].snd.high == Writes(events[..n], true)
    ensures Of(run[m].snd.order, false) + run[m].snd.low == Writes(events[..n], false)
  {
    hide IsRun, Bytes, Flat, Of, Writes;
    SilentAfterFin(run, events, c, m, n);
    ReliableDelivery(run, events, c, n);
  }

  /** Such a run: a byte is written, and the FIN goes out before the next flush. */
  lemma FinOvertakesData(c: Limits, peer: Peer)
    requires 0 < c.sndSize < HALF && c.sndCap > 0 && c.rcv.size + MAX_PAYLOAD <= HALF
    ensures exists run: seq<Sys>, events: seq<Event> :: IsRun(run, events, c) && |run| == 3 && run[2].finSent
              && run[2].snd.low == [[1]] && run[2].snd.order == []
  {
    var s0 := NewStream(peer);
    var s1 := s0.(snd := PutBytes(s0.snd, c.sndCap, [1], false));
    var s2 := s1.(finSent := true, snd := s1.snd.(nxt := 1));
    var run, events := [s0, s1, s2], [Write([1], false), FinOut];
    assert May(s0, c, events[0]) && Next(s0, c, events[0], s1);
    assert IsRun(run, events, c);
  }
}
