/**
 Both ends of a connection and a network that may lose, repeat, delay and reorder packets and
 acknowledgements.
 */
module Delivery {
  import opened SeqNum
  import opened Reassembly
  import opened ReceiveState
  import opened SendState
  import Connection

  datatype Limits = Limits(sndSize: nat, sndCap: nat, rcv: Config)

  /** acks: every acknowledgement the receiver has ever sent; packets in flight are any in snd.wire. */
  datatype Sys = Sys(snd: Snd, peer: Peer, finSent: bool, rcv: Recv, acks: set<int>)

  /** Of an acknowledgement the sequence number, the window and the length of the packet that brings it are
      anything.  maxlen: the longest payload that can be sent, by the peer's maximum segment size at that time. */
  datatype Event =
    | Write(data: Payload, priority: bool)
    | FlushOut(window: int, maxlen: nat)
    | FinOut
    | AckArrives(ack: int, seq32: U32, offered: U32, len: nat)
    | Timeout(state: Connection.TcpState)
    | PacketArrives(seg: Seg)
    | AppReads

  /** What the sender sees of an acknowledgement: 32-bit numbers. */
  function Arriving(e: Event): AckInfo
    requires e.AckArrives?
  {
    AckInfo(e.seq32, Wrap(e.ack), e.offered, e.len)
  }

  ghost predicate Init(s: Sys, c: Limits) {
    var b := s.snd.base;
    && s.snd == Unused(b)
    && s.rcv == Recv(b, b, b, s.rcv.wnd, [], [], []) && 0 <= s.rcv.wnd < HALF
    && s.acks == {b} && !s.finSent
    && c.sndSize < HALF && c.rcv.size + MAX_PAYLOAD <= HALF
  }

  /** What may happen.  The conditions are the exact ones under which each step of the code keeps the
      tilings.  Packets and acknowledgements are asked to be less than 2^31 old, and a stale acknowledgement not to
      be the third duplicate in a row; that acknowledgements cover sent data up to a segment boundary is not asked
      but proved.  Once the FIN is out nothing is written any more and nothing is asked of the sender. */
  ghost predicate May(s: Sys, c: Limits, e: Event) {
    match e
    case Write(data, priority) =>
      && !s.finSent && 0 < |data| <= MAX_PAYLOAD && |data| <= c.sndSize - (s.snd.next - s.snd.head)
      && |if priority then s.snd.high else s.snd.low| < c.sndCap
    case FlushOut(window, maxlen) => s.finSent || (Fits(s.snd, window) && Short(s.snd, maxlen))
    case FinOut => true
    case AckArrives(ack, _, _, _) =>
      || s.finSent
      || (&& ack in s.acks && s.snd.head - HALF < ack
          && (Third(s.peer, Arriving(e), Wrap(s.snd.nxt)) ==> ack >= s.snd.head))
    case Timeout(state) =>
      || s.finSent || s.snd.uack == []
      || state in {Connection.Established, Connection.FinWait1, Connection.Closing, Connection.LastAck}
    case PacketArrives(seg) =>
      seg in s.snd.wire && -HALF <= End(seg) - s.rcv.merged < HALF && HasRoom(s.rcv, c.rcv, seg)
    case AppReads => true
  }

  /** A packet reaches the receiver as 32-bit number and payload only, an acknowledgement the sender as 32-bit
      numbers.  The FIN has the number after the data; sending it takes a number off snd_nxt. */
  ghost predicate Next(s: Sys, c: Limits, e: Event, s': Sys) {
    match e
    case Write(data, priority) => s' == s.(snd := PutBytes(s.snd, c.sndCap, data, priority))
    case FlushOut(window, maxlen) => s' == s.(snd := FlushCall(s.snd, window, maxlen, s.finSent))
    case FinOut => s' == s.(finSent := true, snd := s.snd.(nxt := s.snd.nxt + 1))
    case AckArrives(_, _, _, _) =>
      var r := ReceiveAck(Sender(s.snd, s.peer), Arriving(e));
      s' == s.(snd := r.st, peer := r.peer)
    case Timeout(state) => s' == s.(snd := RtoStep(s.snd, Resets(state, Wrap(s.snd.una), Wrap(s.snd.next))))
    case PacketArrives(seg) =>
      && |s.rcv.queue| <= c.rcv.cap
      && ArriveEffect(s.rcv, c.rcv, Unwrap(s.rcv, ToPacket(seg)), s'.rcv)
      && s' == s.(rcv := s'.rcv, acks := s.acks + {s'.rcv.merged})
    case AppReads => s' == s.(rcv := AfterRead(s.rcv, c.rcv))
  }

  ghost predicate FromWire(l: seq<Seg>, wire: seq<Seg>) {
    forall i :: 0 <= i < |l| ==> l[i] in wire
  }

  /** x lies between segments of the sender: acknowledging up to x frees whole buffers. */
  ghost predicate IsCut(snd: Snd, x: int) {
    x <= Sent(snd) && (x >= snd.head ==> Boundary(snd.uack + snd.retrans, snd.head, x))
  }

  ghost predicate SmallPayloads(l: seq<Payload>) {
    forall i :: 0 <= i < |l| ==> |l[i]| <= MAX_PAYLOAD
  }

  ghost predicate Packets(snd: Snd) {
    && AllSized(snd.wire) && AllSized(snd.uack) && AllSized(snd.retrans)
    && SmallPayloads(snd.high) && SmallPayloads(snd.low)
    && FromWire(snd.uack, snd.wire) && FromWire(snd.retrans, snd.wire)
    && (forall i :: 0 <= i < |snd.wire| ==> IsCut(snd, End(snd.wire[i])))
  }

  ghost predicate SenderOk(snd: Snd, size: nat) {
    Inv(snd, size) && Packets(snd)
  }

  /** A step of the sender forgets neither a packet nor a boundary. */
  ghost predicate Keeps(snd: Snd, snd': Snd) {
    && snd'.base == snd.base && snd.wire <= snd'.wire && snd.stream <= snd'.stream
    && (forall x :: IsCut(snd, x) ==> IsCut(snd', x))
  }

  /** What was sent agrees with one stream, whatever becomes of the sender. */
  ghost predicate WireOk(snd: Snd) { AllCarry(snd.stream, snd.base, snd.wire) && AllSized(snd.wire) }

  ghost predicate ReceiverOk(s: Sys, c: Limits) {
    && Ok(s.rcv, c.rcv) && Contiguous(s.rcv) && s.rcv.base == s.snd.base
    && FromWire(s.rcv.queue, s.snd.wire) && FromWire(s.rcv.ooo, s.snd.wire) && FromWire(s.rcv.delivered, s.snd.wire)
  }

  /** Up to the FIN: acknowledgements lie between segments and do not pass the in-order data. */
  ghost predicate SenderSide(s: Sys, c: Limits) {
    && SenderOk(s.snd, c.sndSize)
    && s.rcv.merged in s.acks && s.snd.head <= s.rcv.merged
    && (forall a :: a in s.acks ==> IsCut(s.snd, a) && a <= s.rcv.merged)
  }

  ghost predicate SysInv(s: Sys, c: Limits) {
    ReceiverOk(s, c) && WireOk(s.snd) && (!s.finSent ==> SenderSide(s, c))
  }

  // ----- segment boundaries of the sender -----

  lemma {:induction false} BoundaryAppend(l: seq<Seg>, s: Seg, a: int, b: int, x: int)
    requires Tiles(l, a, b) && s.off == b
    ensures Boundary(l, a, x) ==> Boundary(l + [s], a, x)
    ensures Boundary(l + [s], a, End(s))
  {
    if l == [] {
      assert (l + [s])[1..] == [];
    } else {
      BoundaryAppend(l[1..], s, End(l[0]), b, x);
      assert (l + [s])[1..] == l[1..] + [s];
    }
  }

  lemma {:induction false} BoundaryDrop(l: seq<Seg>, a: int, b: int, ack: int, x: int)
    requires Tiles(l, a, b) && AllHoldData(l) && Boundary(l, a, x) && a <= ack && Boundary(l, a, ack) && x >= ack
    ensures Boundary(DropAcked(l, ack), ack, x)
  {
    if l != [] && End(l[0]) <= ack {
      if ack != a {
        BoundaryDrop(l[1..], End(l[0]), b, ack, x);
      }
    } else if l != [] && ack != a {
      BoundaryForward(l[1..], End(l[0]), b, ack);
    }
  }

  // ----- steps of the sender -----

  lemma KeepsTrans(a: Snd, b: Snd, d: Snd)
    requires Keeps(a, b) && Keeps(b, d)
    ensures Keeps(a, d)
  {
  }

  /** Sending segment s changes the boundaries at most by adding its end. */
  lemma CutsAfterSend(st: Snd, size: nat, st': Snd, s: Seg)
    requires Tiled(st, size) && s.off == st.nxt
    requires st'.base == st.base && st'.head == st.head && Sent(st') >= Sent(st)
    requires if st.retrans != [] then s == st.retrans[0] && st'.uack + st'.retrans == st.uack + st.retrans
             else st'.uack + st'.retrans == st.uack + st.retrans + [s] && Sent(st') == End(s)
    ensures forall x :: IsCut(st, x) ==> IsCut(st', x)
    ensures IsCut(st', End(s))
  {
    var l := st.uack + st.retrans;
    ListsTile(st, size);
    if st.retrans != [] {
      RetransCut(st, size);
    } else {
      forall x | IsCut(st, x) ensures IsCut(st', x) {
        BoundaryAppend(l, s, st.head, Sent(st), x);
      }
      BoundaryAppend(l, s, st.head, Sent(st), st.head);
    }
  }

  lemma PickKeeps(st: Snd, size: nat)
    requires Tiled(st, size) && Consistent(st) && Packets(st) && Pick(st).Picked?
    ensures Keeps(st, SendPicked(Pick(st))) && Packets(SendPicked(Pick(st)))
  {
    hide IsCut, Tiles, AllHoldData, AllNonEmpty, AllCarry, Total;
    var k := Pick(st);
    var st' := SendPicked(k);
    var s := Seg(st.nxt, k.data);
    PickStep(st, size);
    PickLists(st, size);
    CutsAfterSend(st, size, st', s);
    StillFromWire(st.uack, st.wire, st'.wire);
    StillFromWire(st.retrans, st.wire, st'.wire);
    assert st'.wire[|st.wire|] == s;
    forall i | 0 <= i < |st'.wire| ensures IsCut(st', End(st'.wire[i])) {
      if i < |st.wire| {
        assert st'.wire[i] == st.wire[i];
      }
    }
  }

  lemma PickLists(st: Snd, size: nat)
    requires Tiled(st, size) && Pick(st).Picked?
    ensures var k := Pick(st); var st' := SendPicked(k); var s := Seg(st.nxt, k.data);
            && st'.base == st.base && st'.head == st.head && Sent(st') >= Sent(st) && st'.wire == st.wire + [s]
            && st.stream <= st'.stream
            && (if st.retrans != [] then s == st.retrans[0] && st'.uack + st'.retrans == st.uack + st.retrans
                else st'.uack + st'.retrans == st.uack + st.retrans + [s] && Sent(st') == End(s))
            && st'.uack == st.uack + [s]
  {
  }

  /** The end of the first segment to retransmit is a boundary. */
  lemma RetransCut(st: Snd, size: nat)
    requires Tiled(st, size) && st.retrans != []
    ensures End(st.retrans[0]) <= Sent(st)
    ensures Boundary(st.uack + st.retrans, st.head, End(st.retrans[0]))
  {
    TilesForward(st.retrans[1..], End(st.retrans[0]), Sent(st));
    BoundaryInside(st.uack, st.retrans, st.head, st.nxt);
  }

  lemma {:induction false} BoundaryInside(l: seq<Seg>, m: seq<Seg>, a: int, b: int)
    requires Tiles(l, a, b) && m != []
    ensures Boundary(l + m, a, End(m[0]))
  {
    if l == [] {
      assert l + m == m;
    } else {
      BoundaryInside(l[1..], m, End(l[0]), b);
      assert (l + m)[1..] == l[1..] + m;
    }
  }

  lemma {:induction false} FlushKeeps(st: Snd, size: nat, window: int, maxlen: nat)
    requires Tiled(st, size) && Consistent(st) && Packets(st) && Fits(st, window) && Short(st, maxlen)
    ensures Keeps(st, Flush(st, window, maxlen)) && Packets(Flush(st, window, maxlen))
    decreases Pending(st)
  {
    hide Tiled, Consistent, Packets, Keeps, Short;
    PickStep(st, size);
    ShortStep(st, maxlen);
    var k := Pick(st);
    if k.Nothing? {
      KeepsRefl(st);
    } else {
      PickKeeps(st, size);
      FlushKeeps(SendPicked(k), size, window, maxlen);
      KeepsTrans(st, SendPicked(k), Flush(SendPicked(k), window, maxlen));
    }
  }

  lemma KeepsRefl(st: Snd)
    ensures Keeps(st, st)
  {
  }

  /** Same packets, same boundaries. */
  lemma SameListsKeep(st: Snd, st': Snd)
    requires Packets(st)
    requires st' == st.(nxt := st'.nxt, uack := st'.uack, retrans := st'.retrans)
    requires (st'.uack == st.uack && st'.retrans == st.retrans) || (st'.uack == [] && st'.retrans == st.uack && st.retrans == [])
    ensures Keeps(st, st') && Packets(st')
  {
    assert st'.uack + st'.retrans == st.uack + st.retrans;
    forall x | IsCut(st, x) ensures IsCut(st', x) {
    }
  }

  /** Freeing what ends by `ack`, a boundary, keeps the boundaries beyond it. */
  lemma RecoverKeeps(st: Snd, size: nat, ack: int)
    requires Inv(st, size) && Packets(st) && st.head < ack && IsCut(st, ack)
    ensures Keeps(st, Recover(st, ack)) && Packets(Recover(st, ack))
  {
    var st' := Recover(st, ack);
    var l := st.uack + st.retrans;
    ListsTile(st, size);
    RecoverLists(st, size, ack);
    DropSized(st.uack, ack, st.wire);
    DropSized(st.retrans, ack, st.wire);
    forall x | IsCut(st, x) ensures IsCut(st', x) {
      if x >= ack {
        BoundaryDrop(l, st.head, Sent(st), ack, x);
      }
    }
  }

  lemma {:induction false} DropSized(l: seq<Seg>, ack: int, wire: seq<Seg>)
    requires AllSized(l) && FromWire(l, wire)
    ensures AllSized(DropAcked(l, ack)) && FromWire(DropAcked(l, ack), wire)
  {
    if l != [] && End(l[0]) <= ack {
      DropSized(l[1..], ack, wire);
    }
  }

  lemma RecoverLists(st: Snd, size: nat, ack: int)
    requires Inv(st, size) && st.head < ack && IsCut(st, ack)
    ensures var st' := Recover(st, ack);
            && st'.uack + st'.retrans == DropAcked(st.uack + st.retrans, ack)
            && st'.head == ack && st'.base == st.base && st'.stream == st.stream && st'.wire == st.wire
  {
    hide DropAcked, TotalLen, Boundary, Inv, Tiled, Tiles, Recover, AllHoldData;
    var l := st.uack + st.retrans;
    InvLists(st, size);
    ListsTile(st, size);
    DropTiles(l, st.head, Sent(st), ack);
    DropOneOf(st.uack, st.retrans, ack);
    RecoverFields(st, ack);
  }

  lemma InvLists(st: Snd, size: nat)
    requires Inv(st, size)
    ensures Tiled(st, size) && (st.uack == [] || st.retrans == [])
  {
  }

  lemma RecoverFields(st: Snd, ack: int)
    ensures var st' := Recover(st, ack);
            && st'.uack == DropAcked(st.uack, ack) && st'.retrans == DropAcked(st.retrans, ack)
            && st'.head == st.head + TotalLen(st.uack) - TotalLen(st'.uack) + TotalLen(st.retrans) - TotalLen(st'.retrans)
            && st'.base == st.base && st'.stream == st.stream && st'.wire == st.wire
  {
  }

  lemma DropOneOf(u: seq<Seg>, r: seq<Seg>, ack: int)
    requires u == [] || r == []
    ensures DropAcked(u, ack) + DropAcked(r, ack) == DropAcked(u + r, ack)
    ensures TotalLen(DropAcked(u + r, ack)) == TotalLen(DropAcked(u, ack)) + TotalLen(DropAcked(r, ack))
  {
    if u == [] {
      assert u + r == r;
      assert DropAcked(u, ack) == [];
    } else {
      assert u + r == u;
      assert DropAcked(r, ack) == [];
    }
    TotalLenAppend(DropAcked(u, ack), DropAcked(r, ack));
  }

  /** An acknowledgement the receiver sent is always fine: it ends where a segment ends. */
  lemma AckKeeps(st: Snd, size: nat, ack: int, fast: bool)
    requires SenderOk(st, size) && IsCut(st, ack) && st.head - HALF < ack && (fast ==> ack >= st.head)
    ensures AckFine(st, ack, fast)
    ensures var st' := AckStep(st, ack, fast); SenderOk(st', size) && Keeps(st, st')
  {
    ListsTile(st, size);
    assert ack < st.head + HALF;
    AckInv(st, size, ack, fast);
    TilesForward(st.uack, st.head, st.nxt);
    AckCases(st, ack, fast);
    ResetInv(st, size);
    var st3 := ResetRetrans(st.(nxt := st.head));
    if ack <= st.head {
      SameListsKeep(st, AckStep(st, ack, fast));
    } else if fast && ack < st.nxt {
      SameListsKeep(st, st3);
      RecoverKeeps(st3, size, ack);
      KeepsTrans(st, st3, Recover(st3, ack));
    } else {
      RecoverKeeps(st, size, ack);
    }
  }

  /** As the sender reads it. */
  lemma ReceiveKeeps(s: Sender, size: nat, ack: int, a: AckInfo)
    requires SenderOk(s.st, size) && IsCut(s.st, ack) && s.st.head - HALF < ack && a.ack == Wrap(ack)
    requires Third(s.peer, a, Wrap(s.st.nxt)) ==> ack >= s.st.head
    ensures var st' := ReceiveAck(s, a).st; SenderOk(st', size) && Keeps(s.st, st')
  {
    hide Third, Counted, AckStep, Boundary;
    ListsTile(s.st, size);
    ReadAckIff(s.st, ack);
    AckKeeps(s.st, size, ack, Third(s.peer, a, Wrap(s.st.nxt)));
    KeepsRefl(s.st);
  }

  lemma TimeoutKeeps(st: Snd, size: nat, state: Connection.TcpState)
    requires SenderOk(st, size)
    requires st.uack == [] || state in {Connection.Established, Connection.FinWait1, Connection.Closing, Connection.LastAck}
    ensures var st' := RtoStep(st, Resets(state, Wrap(st.una), Wrap(st.next))); SenderOk(st', size) && Keeps(st, st')
  {
    RtoStates(st, size, state);
    SameListsKeep(st, RtoStep(st, Resets(state, Wrap(st.una), Wrap(st.next))));
  }

  lemma WriteKeeps(st: Snd, size: nat, cap: nat, data: Payload, priority: bool)
    requires SenderOk(st, size) && 0 < |data| <= MAX_PAYLOAD && |data| <= size - (st.next - st.head)
    requires |if priority then st.high else st.low| < cap
    ensures var st' := PutBytes(st, cap, data, priority); SenderOk(st', size) && Keeps(st, st')
  {
    PutInv(st, size, cap, data, priority);
    var st' := PutBytes(st, cap, data, priority);
    forall x | IsCut(st, x) ensures IsCut(st', x) {
    }
  }

  // ----- steps of the receiver -----

  lemma {:induction false} MergeFromWire(l: seq<Seg>, m: int, wire: seq<Seg>)
    requires FromWire(l, wire)
    ensures var r := Merge(l, m);
            && FromWire(r.rest, wire) && FromWire(r.taken, wire)
            && (r.next == m || exists i :: 0 <= i < |l| && r.next == End(l[i]))
  {
    if l == [] || l[0].off > m {
    } else if l[0].off < m {
      MergeFromWire(l[1..], m, wire);
      MergeEnd(l, m);
    } else {
      MergeFromWire(l[1..], End(l[0]), wire);
      MergeEnd(l, End(l[0]));
    }
  }

  lemma MergeEnd(l: seq<Seg>, m: int)
    requires l != []
    ensures forall i :: 0 <= i < |l[1..]| ==> End(l[1..][i]) == End(l[i + 1])
  {
  }

  ghost predicate CutEnds(snd: Snd) { forall i :: 0 <= i < |snd.wire| ==> IsCut(snd, End(snd.wire[i])) }

  lemma PutFromWire(st: Recv, c: Config, s: Seg, st': Recv, ret: int, snd: Snd)
    requires |st.queue| <= c.cap && PutEffect(st, c, s, st', ret)
    requires s in snd.wire && FromWire(st.queue, snd.wire) && FromWire(st.ooo, snd.wire)
    ensures FromWire(st'.queue, snd.wire) && FromWire(st'.ooo, snd.wire)
    ensures CutEnds(snd) ==> st'.merged == st.merged || IsCut(snd, st'.merged)
  {
    hide IsCut;
    if End(s) <= st.head + c.size && s.off == st.merged {
      MergeFromWire(st.ooo, End(s), snd.wire);
    }
  }

  lemma ArriveFromWire(st: Recv, c: Config, s: Seg, st': Recv, snd: Snd)
    requires |st.queue| <= c.cap && ArriveEffect(st, c, s, st')
    requires s in snd.wire && FromWire(st.queue, snd.wire) && FromWire(st.ooo, snd.wire)
    ensures FromWire(st'.queue, snd.wire) && FromWire(st'.ooo, snd.wire)
    ensures CutEnds(snd) ==> st'.merged == st.merged || IsCut(snd, st'.merged)
    ensures st'.base == st.base
  {
    hide IsCut;
    if !(End(s) <= st.merged || End(s) > st.merged + st.wnd) {
      var st1, ret :| PutEffect(st, c, s, st1, ret) && st' == st1.(wnd := st1.head + c.size - st1.merged);
      PutFromWire(st, c, s, st1, ret, snd);
    }
  }

  // ----- whole runs -----

  lemma InitInv(s: Sys, c: Limits)
    requires Init(s, c)
    ensures SysInv(s, c)
  {
  }

  predicate OfSender(e: Event) { !e.PacketArrives? && !e.AppReads? }

  /** The send side while it still sends. */
  lemma SenderStep(s: Sys, c: Limits, e: Event, s': Sys)
    requires SenderSide(s, c) && May(s, c, e) && Next(s, c, e, s') && OfSender(e) && !s.finSent && e != FinOut
    ensures SenderOk(s'.snd, c.sndSize) && Keeps(s.snd, s'.snd)
    ensures s'.snd.head <= s.rcv.merged
  {
    match e
    case Write(data, priority) => WriteKeeps(s.snd, c.sndSize, c.sndCap, data, priority);
    case FlushOut(window, maxlen) =>
      FlushInv(s.snd, c.sndSize, window, maxlen);
      FlushKeeps(s.snd, c.sndSize, window, maxlen);
      FlushEnds(s.snd, window, maxlen);
    case AckArrives(ack, _, _, _) =>
      ReceiveKeeps(Sender(s.snd, s.peer), c.sndSize, ack, Arriving(e));
      ReceiveUna(Sender(s.snd, s.peer), c.sndSize, ack, Arriving(e));
    case Timeout(state) => TimeoutKeeps(s.snd, c.sndSize, state);
  }

  lemma ReceiveUna(s: Sender, size: nat, ack: int, a: AckInfo)
    requires Inv(s.st, size) && Inv(ReceiveAck(s, a).st, size) && s.st.head - HALF < ack < s.st.head + HALF && a.ack == Wrap(ack)
    ensures ReceiveAck(s, a).st.head == s.st.head || ReceiveAck(s, a).st.head == ack
  {
    hide Third, Counted, DropAcked, TotalLen, AllCarry, AllHoldData, Tiles;
    ReadAckIff(s.st, ack);
  }

  /** The receiver, before and after the FIN. */
  lemma ReceiverStep(s: Sys, c: Limits, e: Event, s': Sys)
    requires SysInv(s, c) && May(s, c, e) && Next(s, c, e, s') && !OfSender(e)
    ensures SysInv(s', c) && s'.snd == s.snd && s'.finSent == s.finSent
    ensures s.rcv.delivered <= s'.rcv.delivered && s.rcv.merged <= s'.rcv.merged
  {
    hide SysInv, May, Next;
    match e
    case PacketArrives(seg) => PacketStep(s, c, seg, s');
    case AppReads => ReadStep(s, c, s');
  }

  lemma PacketStep(s: Sys, c: Limits, seg: Seg, s': Sys)
    requires SysInv(s, c) && May(s, c, PacketArrives(seg)) && Next(s, c, PacketArrives(seg), s')
    ensures SysInv(s', c) && s'.snd == s.snd && s'.finSent == s.finSent
    ensures s.rcv.delivered <= s'.rcv.delivered && s.rcv.merged <= s'.rcv.merged
  {
    hide Inv, IsCut, HasRoom, Ok, Contiguous, ArriveEffect, FromWire, AllCarry;
    UnwrapRecovers(s.rcv, seg);
    QueueBound(s.rcv, c.rcv);
    ArriveKeeps(s.rcv, c.rcv, seg, s'.rcv);
    ArriveFromWire(s.rcv, c.rcv, seg, s'.rcv, s.snd);
  }

  lemma QueueBound(st: Recv, c: Config)
    requires Ok(st, c)
    ensures |st.queue| <= c.cap
  {
  }

  lemma ReadStep(s: Sys, c: Limits, s': Sys)
    requires SysInv(s, c) && Next(s, c, AppReads, s')
    ensures SysInv(s', c) && s'.snd == s.snd && s'.finSent == s.finSent
    ensures s.rcv.delivered <= s'.rcv.delivered && s.rcv.merged == s'.rcv.merged
  {
    hide Inv, Packets, IsCut, Ok, Contiguous, AllCarry, AllSized;
    ReadKeeps(s.rcv, c.rcv);
  }

  lemma StillFromWire(l: seq<Seg>, wire: seq<Seg>, wire': seq<Seg>)
    requires FromWire(l, wire) && wire <= wire'
    ensures FromWire(l, wire')
  {
    forall i | 0 <= i < |l| ensures l[i] in wire' {
      var j :| 0 <= j < |wire| && wire[j] == l[i];
      assert wire'[j] == l[i];
    }
  }

  /** Once the FIN is out, or as it goes out, no data is sent: the sender's log and queues stand still. */
  lemma SilentStep(s: Sys, c: Limits, e: Event, s': Sys)
    requires May(s, c, e) && Next(s, c, e, s') && OfSender(e) && (s.finSent || e == FinOut)
    ensures s'.finSent && s'.rcv == s.rcv && s'.acks == s.acks
    ensures var a, b := s.snd, s'.snd;
            b.wire == a.wire && b.stream == a.stream && b.base == a.base && b.order == a.order && b.high == a.high && b.low == a.low
  {
    hide Third, Counted, DropAcked, TotalLen, Flush;
  }

  lemma NextInv(s: Sys, c: Limits, e: Event, s': Sys)
    requires SysInv(s, c) && May(s, c, e) && Next(s, c, e, s')
    ensures SysInv(s', c)
    ensures s.rcv.delivered <= s'.rcv.delivered && s.snd.wire <= s'.snd.wire
  {
    hide Inv, Packets, IsCut, Ok, Contiguous, Third, ReceiveAck, Flush, RtoStep, PutBytes, AllSized, AllCarry, Fits, Short;
    if !OfSender(e) {
      ReceiverStep(s, c, e, s');
    } else if s.finSent || e == FinOut {
      SilentStep(s, c, e, s');
    } else {
      SenderStep(s, c, e, s');
      WireAgrees(s'.snd, c.sndSize);
      StillFromWire(s.rcv.queue, s.snd.wire, s'.snd.wire);
      StillFromWire(s.rcv.ooo, s.snd.wire, s'.snd.wire);
      StillFromWire(s.rcv.delivered, s.snd.wire, s'.snd.wire);
    }
  }

  lemma WireAgrees(snd: Snd, size: nat)
    requires SenderOk(snd, size)
    ensures WireOk(snd)
  {
  }

  ghost predicate IsRun(run: seq<Sys>, events: seq<Event>, c: Limits) {
    && |run| == |events| + 1 && Init(run[0], c)
    && forall i :: 0 <= i < |events| ==> May(run[i], c, events[i]) && Next(run[i], c, events[i], run[i + 1])
  }

  lemma {:induction false} RunInv(run: seq<Sys>, events: seq<Event>, c: Limits, n: nat)
    requires IsRun(run, events, c) && n < |run|
    ensures SysInv(run[n], c)
  {
    hide SysInv, Init, May, Next;
    if n == 0 {
      InitInv(run[0], c);
    } else {
      RunInv(run, events, c, n - 1);
      NextInv(run[n - 1], c, events[n - 1], run[n]);
    }
  }

  // ----- what was written -----

  /** The payloads of one priority that the application wrote, in order. */
  ghost function Writes(events: seq<Event>, priority: bool): seq<Payload> {
    if events == [] then []
    else
      var n := |events| - 1;
      Writes(events[..n], priority)
      + if events[n].Write? && events[n].priority == priority then [events[n].data] else []
  }

  lemma WritesOne(events: seq<Event>, n: nat, priority: bool)
    requires n < |events|
    ensures Writes(events[..n + 1], priority) ==
            Writes(events[..n], priority)
            + if events[n].Write? && events[n].priority == priority then [events[n].data] else []
  {
    assert events[..n + 1][..n] == events[..n];
  }

  lemma AckWritten(s: Sender, a: AckInfo, high: seq<Payload>, low: seq<Payload>)
    requires Written(s.st, high, low)
    ensures Written(ReceiveAck(s, a).st, high, low)
  {
    hide Third, Counted, DropAcked, TotalLen, Of, Flat;
  }

  lemma TimeoutWritten(st: Snd, resets: bool, high: seq<Payload>, low: seq<Payload>)
    requires Written(st, high, low)
    ensures Written(RtoStep(st, resets), high, low)
  {
  }

  lemma FinWritten(st: Snd, high: seq<Payload>, low: seq<Payload>)
    requires Written(st, high, low)
    ensures Written(st.(nxt := st.nxt + 1), high, low)
  {
  }

  lemma NextWritten(s: Sys, c: Limits, e: Event, s': Sys, high: seq<Payload>, low: seq<Payload>)
    requires SysInv(s, c) && May(s, c, e) && Next(s, c, e, s') && Written(s.snd, high, low)
    ensures Written(s'.snd, high + (if e.Write? && e.priority then [e.data] else []),
                    low + (if e.Write? && !e.priority then [e.data] else []))
  {
    hide Short, Fits, Ok, Contiguous, Packets, IsCut, Third, Counted, Resets, Written, ReceiveAck, RtoStep, Flush, PutBytes;
    assert high + [] == high && low + [] == low;
    match e
    case Write(data, priority) => WrittenPut(s.snd, c.sndCap, data, priority, high, low);
    case FlushOut(window, maxlen) =>
      if !s.finSent {
        WrittenFlush(s.snd, c.sndSize, window, maxlen, high, low);
      }
    case FinOut => FinWritten(s.snd, high, low);
    case AckArrives(_, _, _, _) => AckWritten(Sender(s.snd, s.peer), Arriving(e), high, low);
    case Timeout(state) => TimeoutWritten(s.snd, Resets(state, Wrap(s.snd.una), Wrap(s.snd.next)), high, low);
    case _ =>
  }

  lemma {:induction false} RunWritten(run: seq<Sys>, events: seq<Event>, c: Limits, n: nat)
    requires IsRun(run, events, c) && n < |run|
    ensures Written(run[n].snd, Writes(events[..n], true), Writes(events[..n], false))
  {
    hide SysInv, May, Next, Written;
    if n == 0 {
      UnusedWritten(run[0].snd.base);
    } else {
      RunWritten(run, events, c, n - 1);
      RunInv(run, events, c, n - 1);
      NextWritten(run[n - 1], c, events[n - 1], run[n], Writes(events[..n - 1], true), Writes(events[..n - 1], false));
      WritesOne(events, n - 1, true);
      WritesOne(events, n - 1, false);
    }
  }

  lemma UnusedWritten(base: int)
    ensures Written(Unused(base), [], [])
  {
  }

  // ----- main results -----

  /** Reliable in-order delivery, from the writing application to the reading one: at every point of every run the
      bytes read are a prefix of a stream that interleaves the writes of the two priorities.  Each priority's share
      of the stream, followed by what still waits to be sent, is all that was written with it, in order. */
  lemma ReliableDelivery(run: seq<Sys>, events: seq<Event>, c: Limits, n: nat)
    requires IsRun(run, events, c) && n < |run|
    ensures Bytes(run[n].rcv.delivered) <= Flat(run[n].snd.order)
    ensures |Bytes(run[n].rcv.delivered)| == run[n].rcv.head - run[n].rcv.base
    ensures Of(run[n].snd.order, true) + run[n].snd.high == Writes(events[..n], true)
    ensures Of(run[n].snd.order, false) + run[n].snd.low == Writes(events[..n], false)
  {
    hide Flat, Of, Writes, Bytes;
    RunInv(run, events, c, n);
    RunWritten(run, events, c, n);
    DeliveredPrefix(run[n], c);
  }

  lemma DeliveredPrefix(s: Sys, c: Limits)
    requires SysInv(s, c)
    ensures Bytes(s.rcv.delivered) <= s.snd.stream && |Bytes(s.rcv.delivered)| == s.rcv.head - s.rcv.base
  {
    forall i | 0 <= i < |s.rcv.delivered| ensures Carries(s.snd.stream, s.snd.base, s.rcv.delivered[i]) {
      var j :| 0 <= j < |s.snd.wire| && s.snd.wire[j] == s.rcv.delivered[i];
    }
    TilesForward(s.rcv.delivered, s.rcv.base, s.rcv.head);
    TilingSpells(s.snd.stream, s.snd.base, s.rcv.delivered, s.rcv.base, s.rcv.head);
  }

  /** Every acknowledgement the receiver ever sends, while it is less than 2^31 old, is read by the sender as the
      offset it was sent for and is on a segment boundary of sent data, so that the conditions of the send buffer
      hold by themselves: it is fine unless it is stale and the third duplicate. */
  lemma AcksAreFine(run: seq<Sys>, events: seq<Event>, c: Limits, n: nat, ack: int, fast: bool)
    requires IsRun(run, events, c) && n < |run| && !run[n].finSent && ack in run[n].acks && run[n].snd.head - HALF < ack
    ensures ReadAck(run[n].snd, Wrap(ack)) == ack
    ensures AckFine(run[n].snd, ack, fast) <==> !(fast && ack < run[n].snd.head) || Misses(run[n].snd, ack)
  {
    RunInv(run, events, c, n);
    var snd := run[n].snd;
    ListsTile(snd, c.sndSize);
    ReadAckIff(snd, ack);
    if !(fast && ack < snd.head) {
      AckKeeps(snd, c.sndSize, ack, fast);
    }
  }
}
