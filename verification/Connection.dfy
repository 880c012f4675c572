/**
 The connection state machine of a stream: packets, application calls, control packets and timers as
 steps (sections 3.3.2, 3.6 and 3.10.7 of RFC 9293).
 */
module Connection {
  import opened SeqNum

  datatype TcpState = Closed | Listen | SynSent | SynRcvd | Established | FinWait1 | FinWait2 | CloseWait
                    | Closing | LastAck | TimeWait

  /** The state changes the stack makes.  They are those of figure 5 in section 3.3.2 of RFC 9293, except that
      a reset leaves SYN_SENT and ESTABLISHED for CLOSE_WAIT, so that the application closes the stream. */
  predicate Edge(a: TcpState, b: TcpState) {
    match a
    case Listen => (b.SynSent? || b.SynRcvd? || b.Closed?)
    case SynSent => (b.SynRcvd? || b.Established? || b.CloseWait? || b.Closed?)
    case SynRcvd => (b.Established? || b.Closed?)
    case Established => (b.FinWait1? || b.CloseWait? || b.Closed?)
    case FinWait1 => (b.FinWait2? || b.Closing? || b.Closed?)
    case FinWait2 => (b.TimeWait? || b.Closed?)
    case CloseWait => (b.LastAck? || b.Closed?)
    case Closing => (b.TimeWait? || b.Closed?)
    case LastAck => b == Closed
    case TimeWait => b == Closed
    case Closed => false
  }

  ghost predicate IsPath(path: seq<TcpState>) {
    forall i :: 0 <= i < |path| - 1 ==> Edge(path[i], path[i + 1])
  }

  /** The path so far ends in state s. */
  ghost predicate PathOk(path: seq<TcpState>, s: TcpState) {
    |path| > 0 && path[|path| - 1] == s && IsPath(path)
  }

  lemma PathOne(path: seq<TcpState>, a: TcpState, b: TcpState)
    requires PathOk(path, a) && Edge(a, b)
    ensures PathOk(path + [b], b)
  {
  }

  /** A rank every change of state goes up. */
  function Rank(s: TcpState): nat {
    match s
    case Listen => 0
    case SynSent => 1
    case SynRcvd => 2
    case Established => 3
    case FinWait1 => 4
    case CloseWait => 4
    case FinWait2 => 5
    case LastAck => 5
    case Closing => 5
    case TimeWait => 6
    case Closed => 7
  }

  /** States never come back: a later state has a higher rank. */
  lemma {:induction false} PathClimbs(path: seq<TcpState>, i: nat, j: nat)
    requires IsPath(path) && i < j < |path|
    ensures Rank(path[j]) >= Rank(path[i]) + (j - i)
  {
    assert Edge(path[j - 1], path[j]);
    if i < j - 1 {
      PathClimbs(path, i, j - 1);
    }
  }

  /** A connection makes at most seven changes of state. */
  lemma PathIsShort(path: seq<TcpState>)
    requires IsPath(path)
    ensures |path| <= 8
  {
    if |path| > 1 {
      PathClimbs(path, 0, |path| - 1);
    }
  }

  /** Seven do occur: both sides open at once, and we close first. */
  lemma LongestPath()
    ensures IsPath([Listen, SynSent, SynRcvd, Established, FinWait1, FinWait2, TimeWait, Closed])
  {
  }

  /** A received header, with what the buffers made of the packet: merged, the end of the in-order data
      after rb_put; wnd, the window then offered; sndNxt, where the send side goes on after process_tcp_ack;
      acceptRoom, whether the listener's accept queue had room. */
  datatype Header = Header(syn: bool, ack: bool, rst: bool, fin: bool, seq32: U32, ackSeq: U32, len: nat,
                           merged: U32, wnd: U32, sndNxt: U32, acceptRoom: bool)

  datatype Event =
    | PacketIn(h: Header)
    | ControlOut
    | AppWrites(len: nat)
    | AppCloses
    | CloseCall
    | RetransmissionTimer(una: U32)
    | TimeWaitTimer
    | IdleTimer

  const MAX_RTX: nat := 16

  /** The fields of a stream. */
  datatype Conn = Conn(state: TcpState, hasSocket: bool, irs: U32, rcvNxt: U32, mergedNext: U32, rcvWnd: U32,
                       iss: U32, sndNxt: U32, nextSeq: U32, fss: U32, isFinSent: bool, nrtx: nat,
                       closed: bool, onCloseq: bool, haveReset: bool, destroyed: bool)

  /** A stream as tcp_stream_create makes it for an incoming SYN, or for a connect call. */
  function Created(active: bool, hasSocket: bool, seq32: U32, iss: U32): Conn {
    var first := if active then 0 else seq32;
    Conn(if active then SynSent else Listen, hasSocket, first, first, Wrap(first + 1), 14600,
         iss, iss, Wrap(iss + 1), 0, false, 0, false, false, false, false)
  }

  predicate Synchronized(s: TcpState) { !(s.Closed? || s.Listen? || s.SynSent? || s.SynRcvd?) }

  /** check_sequence_validation */
  predicate InWindow(c: Conn, h: Header) {
    SeqGeq(Wrap(h.seq32 + h.len), c.rcvNxt) && SeqLeq(Wrap(h.seq32 + h.len), Wrap(c.rcvNxt + c.rcvWnd))
  }

  /** The packet acknowledges our FIN. */
  predicate AcksFin(c: Conn, h: Header) { h.ack && c.isFinSent && h.ackSeq == Wrap(c.fss + 1) }

  // ----- what a packet does to the fields -----

  function Aborted(c: Conn): Conn { c.(state := Closed, destroyed := true) }

  /** process_tcp_payload as seen by the state machine */
  function PayloadIn(c: Conn, h: Header): Conn {
    var e := Wrap(h.seq32 + h.len);
    if h.len == 0 || SeqLeq(e, c.rcvNxt) || SeqGt(e, Wrap(c.rcvNxt + c.rcvWnd)) then c
    else c.(mergedNext := h.merged, rcvNxt := h.merged, rcvWnd := h.wnd)
  }

  /** A FIN right after the in-order data takes a number and leads to state s. */
  function FinIn(c: Conn, h: Header, s: TcpState): Conn {
    if h.fin && Wrap(h.seq32 + h.len) == c.rcvNxt then c.(rcvNxt := Wrap(c.rcvNxt + 1), state := s) else c
  }

  function OnListen(c: Conn, h: Header): Conn {
    if h.syn && c.state == Listen then c.(rcvNxt := Wrap(c.rcvNxt + 1), state := SynRcvd) else c
  }

  function OnSynSent(c: Conn, h: Header): Conn {
    if h.ack && (SeqLeq(h.ackSeq, c.iss) || SeqGt(h.ackSeq, c.sndNxt)) then c
    else if h.rst then (if h.ack then c.(state := CloseWait, destroyed := !c.hasSocket) else c)
    else if !h.syn then c
    else if h.ack then
      c.(state := Established, irs := h.seq32, sndNxt := h.ackSeq, rcvNxt := Wrap(h.seq32 + 1),
         mergedNext := Wrap(h.seq32 + 1), nrtx := 0, destroyed := !c.hasSocket)
    else c.(state := SynRcvd, sndNxt := c.iss)
  }

  /** The acknowledgement of our SYN. */
  function Opened(c: Conn, h: Header): Conn {
    c.(state := if h.acceptRoom then Established else Closed, sndNxt := h.ackSeq, nrtx := 0, rcvNxt := Wrap(c.irs + 1))
  }

  function OnSynRcvd(c: Conn, h: Header): Conn {
    if !h.ack then c.(sndNxt := c.iss)
    else if h.ackSeq != Wrap(c.iss + 1) then c
    else Opened(c, h)
  }

  function OnEstablished(c: Conn, h: Header): Conn {
    if h.syn then c
    else
      var c1 := PayloadIn(c, h);
      FinIn(if h.ack then c1.(sndNxt := h.sndNxt) else c1, h, CloseWait)
  }

  function OnCloseWait(c: Conn, h: Header): Conn {
    if SeqLt(h.seq32, c.rcvNxt) then c else c.(sndNxt := h.sndNxt)
  }

  function OnLastAck(c: Conn, h: Header): Conn {
    if SeqLt(h.seq32, c.rcvNxt) || !h.ack then c
    else
      var c1 := c.(sndNxt := h.sndNxt);
      if AcksFin(c, h) then Aborted(c1) else c1
  }

  function OnFinWait1(c: Conn, h: Header): Conn {
    if SeqLt(h.seq32, c.rcvNxt) || !h.ack then c
    else if AcksFin(c, h) then FinIn(PayloadIn(c.(sndNxt := h.sndNxt, nrtx := 0, state := FinWait2), h), h, TimeWait)
    else FinIn(PayloadIn(c.(sndNxt := h.sndNxt), h), h, Closing)
  }

  function OnFinWait2(c: Conn, h: Header): Conn {
    if !h.ack then c else FinIn(PayloadIn(c.(sndNxt := h.sndNxt), h), h, TimeWait)
  }

  function OnClosing(c: Conn, h: Header): Conn {
    if !h.ack then c
    else if AcksFin(c, h) then c.(sndNxt := h.ackSeq, state := TimeWait)
    else c.(sndNxt := h.sndNxt)
  }

  /** handle_rst */
  function OnReset(c: Conn, h: Header): Conn {
    if c.state == SynRcvd then (if h.ackSeq == c.sndNxt then Aborted(c) else c)
    else if (c.state.FinWait1? || c.state.FinWait2? || c.state.LastAck? || c.state.Closing? || c.state.TimeWait?) then Aborted(c)
    else if !c.onCloseq && c.state == Established then c.(state := CloseWait)
    else c
  }

  /** The switch over the states, reached unless a reset or the window ended the processing. */
  function Dispatched(c: Conn, h: Header): Conn {
    match c.state
    case Listen => OnListen(c, h)
    case SynSent => OnSynSent(c, h)
    case SynRcvd =>
      if h.syn && h.seq32 == c.irs then OnListen(c, h)
      else
        var c1 := OnSynRcvd(c, h);
        if h.len > 0 && c1.state == Established then OnEstablished(c1, h) else c1
    case Established => OnEstablished(c, h)
    case CloseWait => OnCloseWait(c, h)
    case LastAck => OnLastAck(c, h)
    case FinWait1 => OnFinWait1(c, h)
    case FinWait2 => OnFinWait2(c, h)
    case Closing => OnClosing(c, h)
    case _ => c
  }

  /** process_tcp_packet */
  function OnPacket(c: Conn, h: Header): Conn {
    if Synchronized(c.state) && !InWindow(c, h) then c
    else
      var c1 := if h.rst then c.(haveReset := true) else c;
      if h.rst && !(c.state.Closed? || c.state.Listen? || c.state.SynSent?) then OnReset(c1, h) else Dispatched(c1, h)
  }

  // ----- what that means -----

  /** The packet ends d after rcv_nxt. */
  predicate EndsAfter(c: Conn, h: Header, d: int) { Wrap(h.seq32 + h.len) == Wrap(c.rcvNxt + d) }

  /** A packet is in the window exactly if it ends somewhere from rcv_nxt to the right edge, both included. */
  lemma InWindowIff(c: Conn, h: Header)
    requires c.rcvWnd < HALF
    ensures InWindow(c, h) <==> exists d :: 0 <= d <= c.rcvWnd && EndsAfter(c, h, d)
  {
    hide Wrap, Diff;
    var e := Wrap(h.seq32 + h.len);
    var d := Diff(e, c.rcvNxt);
    assert EndsAfter(c, h, d);
    if InWindow(c, h) {
      DiffOfOffsets(c.rcvNxt + d, c.rcvNxt + c.rcvWnd);
    }
    forall k | 0 <= k <= c.rcvWnd && EndsAfter(c, h, k) ensures InWindow(c, h) {
      DiffOfOffsets(c.rcvNxt + k, c.rcvNxt);
      DiffOfOffsets(c.rcvNxt + k, c.rcvNxt + c.rcvWnd);
      WrapId(c.rcvNxt);
    }
  }

  lemma WrapId(x: U32)
    ensures Wrap(x) == x
  {
  }

  /** A payload is offered to the receive buffer exactly if it ends after rcv_nxt and at most at the right edge; then
      rcv_nxt and the window are what the buffer says, otherwise they stay. */
  lemma PayloadIff(c: Conn, h: Header)
    requires c.rcvWnd < HALF && h.len > 0
    ensures (exists d :: 0 < d <= c.rcvWnd && EndsAfter(c, h, d)) ==>
              PayloadIn(c, h) == c.(mergedNext := h.merged, rcvNxt := h.merged, rcvWnd := h.wnd)
    ensures !(exists d :: 0 < d <= c.rcvWnd && EndsAfter(c, h, d)) ==> PayloadIn(c, h) == c
  {
    hide Wrap, Diff;
    var e := Wrap(h.seq32 + h.len);
    var d := Diff(e, c.rcvNxt);
    assert EndsAfter(c, h, d);
    if 0 < d {
      DiffOfOffsets(c.rcvNxt + d, c.rcvNxt + c.rcvWnd);
    }
    forall k | 0 < k <= c.rcvWnd && EndsAfter(c, h, k) ensures k == d {
      DiffOfOffsets(c.rcvNxt + k, c.rcvNxt);
      WrapId(c.rcvNxt);
    }
  }

  /** The FIN of the packet comes right after the data that is in order once the payload is in. */
  predicate FinNow(c: Conn, h: Header) { h.fin && Wrap(h.seq32 + h.len) == PayloadIn(c, h).rcvNxt }

  /** An acknowledgement of our SYN, as it is looked at in SYN_SENT. */
  predicate AcksSyn(c: Conn, h: Header) { SeqGt(h.ackSeq, c.iss) && SeqLeq(h.ackSeq, c.sndNxt) }

  /** Once our SYN is out, that is the one number after it. */
  lemma AcksSynIff(c: Conn, h: Header)
    requires c.sndNxt == Wrap(c.iss + 1)
    ensures AcksSyn(c, h) <==> h.ackSeq == Wrap(c.iss + 1)
  {
    var d := Diff(h.ackSeq, c.iss);
    WrapId(c.iss);
    if -HALF <= d - 1 {
      DiffOfOffsets(c.iss + d, c.iss + 1);
    }
    DiffOfOffsets(c.iss + 1, c.iss);
  }

  /** Where packets lead before a connection is established, edge by edge. */
  lemma ListenTable(c: Conn, h: Header)
    requires c.state == Listen
    ensures OnPacket(c, h).state == if h.syn then SynRcvd else Listen
  {
  }

  lemma SynSentTable(c: Conn, h: Header)
    requires c.state == SynSent
    ensures var s := OnPacket(c, h).state;
            && (s.SynSent? || s.Established? || s.SynRcvd? || s.CloseWait?)
            && (s == Established <==> h.syn && h.ack && !h.rst && AcksSyn(c, h))
            && (s == SynRcvd <==> h.syn && !h.ack && !h.rst)
            && (s == CloseWait <==> h.rst && h.ack && AcksSyn(c, h))
  {
    hide Wrap;
    var c1 := if h.rst then c.(haveReset := true) else c;
    assert OnPacket(c, h) == OnSynSent(c1, h);
  }

  lemma SynRcvdTable(c: Conn, h: Header)
    requires c.state == SynRcvd && !h.rst
    ensures var s := OnPacket(c, h).state;
            var opens := h.ack && h.ackSeq == Wrap(c.iss + 1) && !(h.syn && h.seq32 == c.irs);
            && (s.SynRcvd? || s.Established? || s.CloseWait? || s.Closed?)
            && (s == SynRcvd <==> !opens) && (s == Closed <==> opens && !h.acceptRoom)
            && (s == CloseWait <==> opens && h.acceptRoom && !h.syn && h.len > 0 && FinNow(Opened(c, h), h))
  {
    hide Wrap, OnEstablished, FinNow, Opened;
    OpenedState(c, h);
    if h.acceptRoom {
      EstablishedFin(Opened(c, h), h);
    }
  }

  lemma OpenedState(c: Conn, h: Header)
    ensures Opened(c, h).state == if h.acceptRoom then Established else Closed
  {
  }

  lemma EstablishedFin(c: Conn, h: Header)
    requires c.state == Established
    ensures OnEstablished(c, h).state == if !h.syn && FinNow(c, h) then CloseWait else Established
  {
    hide Wrap, PayloadIn;
    PayloadKeeps(c, h);
  }

  /** Where packets without a reset lead afterwards, edge by edge: a packet outside the window changes nothing, and each
      edge has its one condition. */
  lemma ClosingTable(c: Conn, h: Header)
    requires Synchronized(c.state)
    ensures !InWindow(c, h) ==> OnPacket(c, h) == c
    ensures InWindow(c, h) && !h.rst ==>
              var s := OnPacket(c, h).state; var live := h.ack && !SeqLt(h.seq32, c.rcvNxt);
              && (c.state == Established ==>
                    (s.Established? || s.CloseWait?) && (s == CloseWait <==> !h.syn && FinNow(c, h)))
              && (c.state == FinWait1 ==>
                    && (s.FinWait1? || s.FinWait2? || s.Closing? || s.TimeWait?)
                    && (s == FinWait2 <==> live && AcksFin(c, h) && !FinNow(c, h))
                    && (s == TimeWait <==> live && AcksFin(c, h) && FinNow(c, h))
                    && (s == Closing <==> live && !AcksFin(c, h) && FinNow(c, h)))
              && (c.state == FinWait2 ==> (s.FinWait2? || s.TimeWait?) && (s == TimeWait <==> h.ack && FinNow(c, h)))
              && (c.state == Closing ==> (s.Closing? || s.TimeWait?) && (s == TimeWait <==> AcksFin(c, h)))
              && (c.state == LastAck ==> (s.LastAck? || s.Closed?) && (s == Closed <==> live && AcksFin(c, h)))
              && (c.state.CloseWait? || c.state.TimeWait? ==> s == c.state)
  {
    hide Wrap, SeqLt, InWindow, FinNow, PayloadIn, OnEstablished, OnFinWait1, OnFinWait2;
    if c.state == Established {
      EstablishedFin(c, h);
    } else if c.state == FinWait1 {
      FinWait1Edges(c, h);
    } else if c.state == FinWait2 {
      FinWait2Edges(c, h);
    }
  }

  lemma FinWait1Edges(c: Conn, h: Header)
    requires c.state == FinWait1
    ensures var live := h.ack && !SeqLt(h.seq32, c.rcvNxt);
            OnFinWait1(c, h).state == if !live then FinWait1
                                      else if AcksFin(c, h) then (if FinNow(c, h) then TimeWait else FinWait2)
                                      else (if FinNow(c, h) then Closing else FinWait1)
  {
    hide Wrap, SeqLt, PayloadIn;
    PayloadKeeps(c, h);
  }

  lemma FinWait2Edges(c: Conn, h: Header)
    requires c.state == FinWait2
    ensures OnFinWait2(c, h).state == if h.ack && FinNow(c, h) then TimeWait else FinWait2
  {
    hide Wrap, PayloadIn;
    PayloadKeeps(c, h);
  }

  /** What a packet in the window does to the numbers, in the states in which data and acknowledgements are taken: rcv_nxt
      follows the payload and counts a FIN that is in order, and snd_nxt follows the acknowledgement. */
  lemma NumbersTable(c: Conn, h: Header)
    requires Synchronized(c.state) && InWindow(c, h) && !h.rst
    ensures var c' := OnPacket(c, h); var live := h.ack && !SeqLt(h.seq32, c.rcvNxt);
            var takes := (c.state == Established && !h.syn) || (c.state == FinWait1 && live) || (c.state == FinWait2 && h.ack);
            var p := PayloadIn(c, h);
            && c'.rcvNxt == (if !takes then c.rcvNxt else if FinNow(c, h) then Wrap(p.rcvNxt + 1) else p.rcvNxt)
            && c'.mergedNext == (if takes then p.mergedNext else c.mergedNext)
            && c'.rcvWnd == (if takes then p.rcvWnd else c.rcvWnd)
            && (c.state == Established ==> c'.sndNxt == if h.ack && !h.syn then h.sndNxt else c.sndNxt)
            && (c.state == CloseWait ==> c'.sndNxt == if SeqLt(h.seq32, c.rcvNxt) then c.sndNxt else h.sndNxt)
            && (c.state == FinWait1 || c.state == LastAck ==> c'.sndNxt == if live then h.sndNxt else c.sndNxt)
            && (c.state == FinWait2 ==> c'.sndNxt == if h.ack then h.sndNxt else c.sndNxt)
            && (c.state == Closing ==> c'.sndNxt == if AcksFin(c, h) then h.ackSeq else if h.ack then h.sndNxt else c.sndNxt)
  {
    hide Wrap, SeqLt, InWindow, SeqLeq, SeqGt, OnFinWait1, OnEstablished, OnFinWait2;
    if c.state == Established {
      EstablishedNumbers(c, h);
    } else if c.state == FinWait1 {
      FinWait1Numbers(c, h);
    } else if c.state == FinWait2 {
      FinWait2Numbers(c, h);
    }
  }

  /** Payload and FIN, taken in by a stream whose other fields have changed before. */
  lemma TakenIn(c: Conn, h: Header, n: U32, k: nat, s: TcpState, to: TcpState)
    ensures var p := PayloadIn(c, h);
            FinIn(PayloadIn(c.(sndNxt := n, nrtx := k, state := s), h), h, to) ==
            if FinNow(c, h) then p.(sndNxt := n, nrtx := k, state := to, rcvNxt := Wrap(p.rcvNxt + 1))
            else p.(sndNxt := n, nrtx := k, state := s)
  {
    hide Wrap, PayloadIn;
    PayloadCommutes(c, h, n, k, s);
  }

  lemma PayloadCommutes(c: Conn, h: Header, n: U32, k: nat, s: TcpState)
    ensures PayloadIn(c.(sndNxt := n, nrtx := k, state := s), h) == PayloadIn(c, h).(sndNxt := n, nrtx := k, state := s)
    ensures PayloadIn(c, h).state == c.state && PayloadIn(c, h).sndNxt == c.sndNxt && PayloadIn(c, h).nrtx == c.nrtx
  {
    hide Wrap, SeqLeq, SeqGt;
    var e := Wrap(h.seq32 + h.len);
    if h.len == 0 || SeqLeq(e, c.rcvNxt) || SeqGt(e, Wrap(c.rcvNxt + c.rcvWnd)) {
      assert PayloadIn(c, h) == c;
    } else {
      assert PayloadIn(c, h) == c.(mergedNext := h.merged, rcvNxt := h.merged, rcvWnd := h.wnd);
    }
  }

  lemma EstablishedNumbers(c: Conn, h: Header)
    requires c.state == Established
    ensures var c' := OnEstablished(c, h); var p := PayloadIn(c, h);
            if h.syn then c' == c
            else c' == p.(state := c'.state, sndNxt := if h.ack then h.sndNxt else c.sndNxt,
                          rcvNxt := if FinNow(c, h) then Wrap(p.rcvNxt + 1) else p.rcvNxt)
  {
    hide Wrap, PayloadIn, FinIn;
    PayloadCommutes(c, h, c.sndNxt, c.nrtx, c.state);
    var p := PayloadIn(c, h);
    if h.ack {
      FinInIs(p.(sndNxt := h.sndNxt), h, CloseWait);
    } else {
      FinInIs(p, h, CloseWait);
    }
  }

  lemma FinInIs(c: Conn, h: Header, s: TcpState)
    ensures FinIn(c, h, s) == if h.fin && Wrap(h.seq32 + h.len) == c.rcvNxt then c.(rcvNxt := Wrap(c.rcvNxt + 1), state := s)
                              else c
  {
  }

  lemma FinWait1Numbers(c: Conn, h: Header)
    requires c.state == FinWait1
    ensures var c' := OnFinWait1(c, h); var p := PayloadIn(c, h);
            if SeqLt(h.seq32, c.rcvNxt) || !h.ack then c' == c
            else c' == p.(state := c'.state, nrtx := c'.nrtx, sndNxt := h.sndNxt,
                          rcvNxt := if FinNow(c, h) then Wrap(p.rcvNxt + 1) else p.rcvNxt)
  {
    hide Wrap, PayloadIn, SeqLt, FinIn, FinNow;
    TakenIn(c, h, h.sndNxt, 0, FinWait2, TimeWait);
    TakenIn(c, h, h.sndNxt, c.nrtx, FinWait1, Closing);
  }

  lemma FinWait2Numbers(c: Conn, h: Header)
    requires c.state == FinWait2
    ensures var c' := OnFinWait2(c, h); var p := PayloadIn(c, h);
            if !h.ack then c' == c
            else c' == p.(state := c'.state, sndNxt := h.sndNxt,
                          rcvNxt := if FinNow(c, h) then Wrap(p.rcvNxt + 1) else p.rcvNxt)
  {
    hide Wrap, PayloadIn, FinIn, FinNow;
    TakenIn(c, h, h.sndNxt, c.nrtx, FinWait2, TimeWait);
    PayloadCommutes(c, h, c.sndNxt, c.nrtx, c.state);
  }

  lemma PayloadKeeps(c: Conn, h: Header)
    ensures PayloadIn(c, h).state == c.state
    ensures forall s, n, k :: PayloadIn(c.(sndNxt := n, nrtx := k, state := s), h).rcvNxt == PayloadIn(c, h).rcvNxt
    ensures forall s, n, k :: PayloadIn(c.(sndNxt := n, nrtx := k, state := s), h).state == s
  {
  }

  /** Where a reset leads: out of every state after the handshake it is the end of the stream, except that the
      application still has to close one that it did not close yet. */
  lemma ResetTable(c: Conn, h: Header)
    requires h.rst && !(c.state.Closed? || c.state.Listen? || c.state.SynSent?) && (Synchronized(c.state) ==> InWindow(c, h))
    ensures var c' := OnPacket(c, h);
            && c'.haveReset
            && ((c.state.FinWait1? || c.state.FinWait2? || c.state.Closing? || c.state.LastAck? || c.state.TimeWait?) ==> c'.state == Closed && c'.destroyed)
            && (c.state == SynRcvd ==> if h.ackSeq == c.sndNxt then c'.state == Closed && c'.destroyed else c'.state == SynRcvd)
            && (c.state == Established && !c.onCloseq ==> c'.state == CloseWait)
            && ((c.state.Established? || c.state.CloseWait?) ==> c'.destroyed == c.destroyed)
            && (c.state == CloseWait || (c.state == Established && c.onCloseq) ==> c'.state == c.state)
  {
    hide InWindow;
  }

  // ----- what other events do -----

  /** send_tcp_control_packet: a FIN goes out. */
  predicate SendsFin(c: Conn) {
    (c.state.LastAck? || c.state.FinWait1?) || (c.state == Closing && (!c.isFinSent || c.sndNxt == c.fss))
  }

  function OnControl(c: Conn): Conn {
    if c.state == SynSent then c.(sndNxt := Wrap(c.sndNxt + 1))
    else if c.state == SynRcvd then c.(sndNxt := Wrap(c.iss + 1))
    else if SendsFin(c) then c.(isFinSent := true, sndNxt := Wrap(c.sndNxt + 1))
    else c
  }

  function OnWrite(c: Conn, len: nat): Conn {
    if (c.state.Established? || c.state.CloseWait?) then c.(nextSeq := Wrap(c.nextSeq + len)) else c
  }

  function OnAppClose(c: Conn): Conn {
    if c.closed then c else c.(closed := true, onCloseq := c.onCloseq || (c.state.Established? || c.state.CloseWait?))
  }

  /** handle_close_call */
  function OnCloseCall(c: Conn): Conn {
    var c1 := c.(fss := c.nextSeq);
    if c.state == Closed then c1
    else if c.haveReset then Aborted(c1)
    else if c.state == Established then c1.(state := FinWait1)
    else if c.state == CloseWait then c1.(state := LastAck)
    else c1
  }

  /** handle_rto */
  function OnRto(c: Conn, una: U32): Conn {
    if c.nrtx < MAX_RTX then c.(nrtx := c.nrtx + 1, sndNxt := una) else OnExpiry(c)
  }

  function OnExpiry(c: Conn): Conn { if c.state == Closed then c else Aborted(c) }

  function OnEvent(c: Conn, e: Event): Conn {
    if c.destroyed then c
    else
      match e
      case PacketIn(h) => OnPacket(c, h)
      case ControlOut => OnControl(c)
      case AppWrites(len) => OnWrite(c, len)
      case AppCloses => OnAppClose(c)
      case CloseCall => if c.onCloseq then OnCloseCall(c) else c
      case RetransmissionTimer(una) => OnRto(c, una)
      case TimeWaitTimer => if c.state == TimeWait then OnExpiry(c) else c
      case IdleTimer => OnExpiry(c)
  }

  ghost function AfterAll(c: Conn, events: seq<Event>): Conn {
    if events == [] then c else OnEvent(AfterAll(c, events[..|events| - 1]), events[|events| - 1])
  }

  // ----- what every event keeps -----

  /** What happened on a stream.  accepts: successful additions to the accept queue; finsConsumed: peer FINs consumed;
      finAcked: an acknowledgement of fss + 1 arrived after our FIN was sent. */
  datatype Marks = Marks(accepts: nat, finsConsumed: nat, finAcked: bool, wasEstablished: bool)

  ghost predicate ReceiveOk(c: Conn, g: Marks) {
    && g.finsConsumed <= 1
    && ((c.state.Listen? || c.state.SynSent? || c.state.SynRcvd?) ==>
          !g.wasEstablished && g.finsConsumed == 0 && g.accepts == 0 && c.mergedNext == Wrap(c.irs + 1))
    && (c.state == SynSent ==> c.rcvNxt == c.irs)
    && ((c.state.CloseWait? || c.state.LastAck?) && !g.wasEstablished ==>
          g.finsConsumed == 0 && c.rcvNxt == c.irs && c.mergedNext == Wrap(c.irs + 1))
    && (g.wasEstablished ==> c.rcvNxt == Wrap(c.mergedNext + g.finsConsumed))
    && ((c.state.Established? || c.state.FinWait1? || c.state.FinWait2?) ==> g.wasEstablished && g.finsConsumed == 0)
    && ((c.state.Closing? || c.state.TimeWait?) ==> g.wasEstablished && g.finsConsumed == 1)
    && g.accepts <= 1
  }

  ghost predicate CloseOk(c: Conn, g: Marks) {
    && ((c.state.FinWait2? || c.state.TimeWait?) ==> c.isFinSent && g.finAcked)
    && ((c.state.FinWait1? || c.state.FinWait2? || c.state.Closing? || c.state.TimeWait? || c.state.LastAck?) ==> c.fss == c.nextSeq)
  }

  ghost predicate Ok(c: Conn, g: Marks) { ReceiveOk(c, g) && CloseOk(c, g) }

  lemma PathBound(path: seq<TcpState>, s: TcpState)
    requires PathOk(path, s)
    ensures |path| <= 8
  {
    PathIsShort(path);
  }

  lemma OkMeans(c: Conn, g: Marks)
    requires Ok(c, g)
    ensures g.accepts <= 1 && g.finsConsumed <= 1
    ensures c.state == TimeWait ==> c.isFinSent && g.finAcked && g.finsConsumed == 1
    ensures c.state.FinWait1? || c.state.FinWait2? || c.state.Closing? || c.state.TimeWait? || c.state.LastAck? ==> c.fss == c.nextSeq
    ensures g.wasEstablished ==> c.rcvNxt == Wrap(c.mergedNext + g.finsConsumed)
  {
  }

  /** Before the payload of a packet is looked at, the stream expects the byte after the in-order data. */
  lemma InOrder(c: Conn, g: Marks)
    requires Ok(c, g) && (c.state.Established? || c.state.FinWait1? || c.state.FinWait2?)
    ensures c.rcvNxt == c.mergedNext && g.wasEstablished && g.finsConsumed == 0
  {
    WrapId(c.mergedNext);
  }

  /** Ok speaks of these fields only. */
  lemma OkSame(c: Conn, c': Conn, g: Marks)
    requires Ok(c, g) && c'.state == c.state && c'.irs == c.irs && c'.rcvNxt == c.rcvNxt && c'.mergedNext == c.mergedNext
    requires (c.isFinSent ==> c'.isFinSent) && c'.fss == c.fss && c'.nextSeq == c.nextSeq
    ensures Ok(c', g)
  {
    hide Wrap;
  }

  lemma PayloadOk(c: Conn, g: Marks, h: Header)
    requires Ok(c, g) && (c.state.Established? || c.state.FinWait1? || c.state.FinWait2?)
    ensures var c' := PayloadIn(c, h); Ok(c', g) && c'.rcvNxt == c'.mergedNext
  {
    hide SeqLeq, SeqGt;
    InOrder(c, g);
    WrapId(h.merged);
  }

  lemma FinOk(c: Conn, g: Marks, s: TcpState)
    requires Ok(c, g) && (c.state.Established? || c.state.FinWait1? || c.state.FinWait2?)
    requires s == if c.state == Established then CloseWait else if c.state == FinWait1 then Closing else TimeWait
    ensures Ok(c.(rcvNxt := Wrap(c.rcvNxt + 1), state := s), g.(finsConsumed := 1))
  {
    hide Wrap;
    InOrder(c, g);
  }

  lemma SndNxtOk(c: Conn, g: Marks, n: U32)
    requires Ok(c, g)
    ensures Ok(c.(sndNxt := n), g)
  {
    hide Ok;
    OkSame(c, c.(sndNxt := n), g);
  }

  lemma ListenOk(c: Conn, g: Marks, h: Header)
    requires Ok(c, g) && (c.state.Listen? || c.state.SynRcvd?)
    ensures Ok(OnListen(c, h), g)
  {
    hide Wrap;
  }

  lemma SynSentOk(c: Conn, g: Marks, h: Header)
    requires Ok(c, g) && c.state == SynSent
    ensures var c' := OnSynSent(c, h); Ok(c', g.(wasEstablished := c'.state == Established)) && !g.wasEstablished
  {
    hide SeqLeq, SeqGt;
    WrapId(Wrap(h.seq32 + 1));
  }

  lemma OpenedOk(c: Conn, g: Marks, h: Header)
    requires Ok(c, g) && c.state == SynRcvd
    ensures !g.wasEstablished && g.accepts == 0 && g.finsConsumed == 0
    ensures Ok(Opened(c, h), g.(wasEstablished := true, accepts := if h.acceptRoom then 1 else 0))
  {
    hide Wrap;
    WrapId(c.mergedNext);
  }

  lemma ClosedOk(c: Conn, c': Conn, g: Marks)
    requires ReceiveOk(c, g) && c'.state == Closed && c'.rcvNxt == c.rcvNxt && c'.mergedNext == c.mergedNext
    ensures Ok(c', g)
  {
    hide Wrap;
  }

  lemma AbortedOk(c: Conn, g: Marks, acked: bool)
    requires Ok(c, g)
    ensures Ok(Aborted(c), g.(finAcked := acked))
  {
    ClosedOk(c, Aborted(c), g.(finAcked := acked));
  }

  lemma FinAckedOk(c: Conn, g: Marks)
    requires Ok(c, g) && c.isFinSent
    ensures c.state == FinWait1 ==> Ok(c.(state := FinWait2, nrtx := 0), g.(finAcked := true))
    ensures c.state == Closing ==> Ok(c.(state := TimeWait), g.(finAcked := true))
  {
    hide Wrap;
  }

  lemma ResetOk(c: Conn, g: Marks, h: Header)
    requires Ok(c, g)
    ensures Ok(OnReset(c, h), g)
  {
    AbortedOk(c, g, g.finAcked);
  }

  lemma MarkOk(c: Conn, g: Marks)
    requires Ok(c, g)
    ensures Ok(c.(haveReset := true), g)
  {
    hide Ok;
    OkSame(c, c.(haveReset := true), g);
  }

  lemma ControlOk(c: Conn, g: Marks)
    requires Ok(c, g)
    ensures Ok(OnControl(c), g)
  {
    hide Ok, Wrap;
    if c.state == SynSent {
      SndNxtOk(c, g, Wrap(c.sndNxt + 1));
    } else if c.state == SynRcvd {
      SndNxtOk(c, g, Wrap(c.iss + 1));
    } else if SendsFin(c) {
      OkSame(c, c.(isFinSent := true, sndNxt := Wrap(c.sndNxt + 1)), g);
    }
  }

  lemma AppCloseOk(c: Conn, g: Marks)
    requires Ok(c, g)
    ensures Ok(OnAppClose(c), g)
  {
    hide Ok;
    OkSame(c, OnAppClose(c), g);
  }

  lemma WriteOk(c: Conn, g: Marks, len: nat)
    requires Ok(c, g)
    ensures Ok(OnWrite(c, len), g)
  {
    hide Wrap;
  }

  lemma CloseCallOk(c: Conn, g: Marks)
    requires Ok(c, g)
    ensures Ok(OnCloseCall(c), g)
  {
    hide Wrap;
    if c.state == Closed || c.haveReset {
      ClosedOk(c, OnCloseCall(c), g);
    }
  }

  lemma TimerOk(c: Conn, g: Marks, una: U32)
    requires Ok(c, g)
    ensures Ok(OnRto(c, una), g) && Ok(OnExpiry(c), g)
  {
    hide Ok;
    AbortedOk(c, g, g.finAcked);
    if c.nrtx < MAX_RTX {
      OkSame(c, OnRto(c, una), g);
    }
  }

  class Stream {
    var c: Conn

    /** States in the order they were entered. */
    ghost var path: seq<TcpState>
    ghost var marks: Marks

    ghost predicate Inv()
      reads this
    {
      PathOk(path, c.state) && Ok(c, marks)
    }

    /** From ESTABLISHED on, rcv_nxt is the end of the in-order data, plus one exactly when the peer's FIN was
        consumed; it is not so on a stream that a reset took from SYN_SENT straight to CLOSE_WAIT. */
    lemma ReceiveEdge()
      requires Inv() && Synchronized(c.state)
      ensures marks.finsConsumed <= 1
      ensures c.rcvNxt == Wrap(c.mergedNext + marks.finsConsumed) <==> marks.wasEstablished
      ensures marks.wasEstablished ==> (c.rcvNxt == Wrap(c.mergedNext + 1) <==> marks.finsConsumed == 1)
      ensures marks.wasEstablished ==> (c.rcvNxt == c.mergedNext <==> marks.finsConsumed == 0)
    {
      WrapAdd(c.irs, 1);
    }

    /** tcp_stream_create for an incoming SYN (passive) or by handle_connect_call (active). */
    constructor (active: bool, hasSocket: bool, seq32: U32, iss: U32)
      ensures Inv() && marks == Marks(0, 0, false, false)
      ensures path == if active then [Listen, SynSent] else [Listen]
      ensures c == Created(active, hasSocket, seq32, iss)
    {
      c := Created(active, hasSocket, seq32, iss);
      path := if active then [Listen, SynSent] else [Listen];
      marks := Marks(0, 0, false, false);
    }

    /** The only way the state changes. */
    method Enter(s: TcpState)
      requires PathOk(path, c.state) && Edge(c.state, s)
      modifies this`c, this`path
      ensures PathOk(path, c.state) && path == old(path) + [s] && c == old(c).(state := s)
    {
      PathOne(path, c.state, s);
      c, path := c.(state := s), path + [s];
    }

    method Abort()
      requires PathOk(path, c.state) && c.state != Closed
      modifies this`c, this`path
      ensures PathOk(path, c.state) && old(path) <= path && c == Aborted(old(c))
    {
      Enter(Closed);
      c := c.(destroyed := true);
    }

    // ----- receiving -----

    /** process_tcp_payload as seen by the state machine. */
    method Payload(h: Header)
      requires Inv() && (c.state.Established? || c.state.FinWait1? || c.state.FinWait2?) && h.len > 0
      modifies this`c
      ensures Inv() && c == PayloadIn(old(c), h) && c.rcvNxt == c.mergedNext
    {
      hide PathOk, Wrap, SeqLeq, SeqGt, Ok;
      PayloadOk(c, marks, h);
      if SeqLeq(Wrap(h.seq32 + h.len), c.rcvNxt) || SeqGt(Wrap(h.seq32 + h.len), Wrap(c.rcvNxt + c.rcvWnd)) {
        return;
      }
      c := c.(mergedNext := h.merged);
      c := c.(rcvNxt := c.mergedNext);
      c := c.(rcvWnd := h.wnd);
    }

    method PayloadIfAny(h: Header)
      requires Inv() && (c.state.Established? || c.state.FinWait1? || c.state.FinWait2?)
      modifies this`c
      ensures Inv() && c == PayloadIn(old(c), h) && c.rcvNxt == c.mergedNext && c.state == old(c).state
    {
      hide PathOk, Ok, Wrap, SeqLeq, SeqGt;
      InOrder(c, marks);
      if h.len > 0 {
        Payload(h);
      }
    }

    method ConsumeFin(s: TcpState)
      requires Inv() && (c.state.Established? || c.state.FinWait1? || c.state.FinWait2?)
      requires s == if c.state == Established then CloseWait else if c.state == FinWait1 then Closing else TimeWait
      modifies this`c, this`path, this`marks
      ensures Inv() && old(path) <= path && marks.finsConsumed == 1
      ensures c == old(c).(rcvNxt := Wrap(old(c).rcvNxt + 1), state := s)
    {
      hide PathOk, Wrap, Ok;
      InOrder(c, marks);
      FinOk(c, marks, s);
      c := c.(rcvNxt := Wrap(c.rcvNxt + 1));
      marks := marks.(finsConsumed := marks.finsConsumed + 1);
      Enter(s);
    }

    method HandleListen(h: Header)
      requires Inv() && (c.state.Listen? || c.state.SynRcvd?)
      modifies this`c, this`path
      ensures Inv() && old(path) <= path && c == OnListen(old(c), h)
    {
      hide PathOk, Ok;
      ListenOk(c, marks, h);
      if h.syn {
        if c.state == Listen {
          c := c.(rcvNxt := Wrap(c.rcvNxt + 1));
          Enter(SynRcvd);
        }
      }
    }

    method HandleSynSent(h: Header)
      requires Inv() && c.state == SynSent && !c.destroyed
      modifies this`c, this`path, this`marks
      ensures Inv() && old(path) <= path && c == OnSynSent(old(c), h)
      ensures path == if c.state == SynSent then old(path) else old(path) + [c.state]
      ensures marks.wasEstablished <==> c.state == Established
    {
      hide PathOk, Wrap, SeqLeq, SeqGt, Ok;
      SynSentOk(c, marks, h);
      if h.ack && (SeqLeq(h.ackSeq, c.iss) || SeqGt(h.ackSeq, c.sndNxt)) {
        return;
      }
      if h.rst {
        if h.ack {
          Enter(CloseWait);
          c := c.(destroyed := !c.hasSocket);
        }
        return;
      }
      if h.syn {
        if h.ack {
          ActiveOpen(h);
          c := c.(destroyed := !c.hasSocket);
        } else {
          Enter(SynRcvd);
          c := c.(sndNxt := c.iss);
        }
      }
    }

    /** handle_active_open */
    method ActiveOpen(h: Header)
      requires PathOk(path, c.state) && c.state == SynSent
      modifies this`c, this`path, this`marks
      ensures PathOk(path, c.state) && path == old(path) + [Established] && marks == old(marks).(wasEstablished := true)
      ensures c == old(c).(state := Established, irs := h.seq32, sndNxt := h.ackSeq,
                                         rcvNxt := Wrap(h.seq32 + 1), mergedNext := Wrap(h.seq32 + 1), nrtx := 0)
    {
      hide PathOk, Wrap;
      c := c.(irs := h.seq32);
      c := c.(sndNxt := h.ackSeq);
      c := c.(rcvNxt := Wrap(c.irs + 1));
      c := c.(mergedNext := c.rcvNxt);
      c := c.(nrtx := 0);
      marks := marks.(wasEstablished := true);
      Enter(Established);
    }

    method HandleSynRcvd(h: Header)
      requires Inv() && c.state == SynRcvd
      modifies this`c, this`path, this`marks
      ensures Inv() && old(path) <= path && c == OnSynRcvd(old(c), h)
      ensures marks.accepts == if c.state == Established then 1 else 0
    {
      hide PathOk, Wrap, Ok;
      OpenedOk(c, marks, h);
      if !h.ack {
        SndNxtOk(c, marks, c.iss);
        c := c.(sndNxt := c.iss);
        return;
      }
      if h.ackSeq != Wrap(c.iss + 1) {
        return;
      }
      Open(h);
    }

    method Open(h: Header)
      requires Inv() && c.state == SynRcvd
      modifies this`c, this`path, this`marks
      ensures Inv() && old(path) <= path && c == Opened(old(c), h)
      ensures marks.accepts == if h.acceptRoom then 1 else 0
    {
      hide PathOk, Wrap, Ok;
      OpenedOk(c, marks, h);
      c := c.(sndNxt := h.ackSeq);
      c := c.(nrtx := 0);
      c := c.(rcvNxt := Wrap(c.irs + 1));
      marks := marks.(wasEstablished := true);
      Enter(Established);
      if h.acceptRoom {
        marks := marks.(accepts := marks.accepts + 1);
      } else {
        Enter(Closed);
      }
    }

    method HandleEstablished(h: Header)
      requires Inv() && c.state == Established
      modifies this`c, this`path, this`marks
      ensures Inv() && old(path) <= path && c == OnEstablished(old(c), h)
      ensures marks.finsConsumed == if c.state == CloseWait then 1 else 0
    {
      hide PathOk, Wrap, SeqLeq, SeqGt, Ok, PayloadIn;
      InOrder(c, marks);
      if h.syn {
        return;
      }
      PayloadIfAny(h);
      if h.ack {
        SndNxtOk(c, marks, h.sndNxt);
        c := c.(sndNxt := h.sndNxt);
      }
      InOrder(c, marks);
      if h.fin && Wrap(h.seq32 + h.len) == c.rcvNxt {
        ConsumeFin(CloseWait);
      }
    }

    method HandleLastAck(h: Header)
      requires Inv() && c.state == LastAck
      modifies this`c, this`path, this`marks
      ensures Inv() && old(path) <= path && c == OnLastAck(old(c), h)
    {
      hide PathOk, Wrap, SeqLt, Ok;
      if SeqLt(h.seq32, c.rcvNxt) || !h.ack {
        return;
      }
      SndNxtOk(c, marks, h.sndNxt);
      c := c.(sndNxt := h.sndNxt);
      if c.isFinSent && h.ackSeq == Wrap(c.fss + 1) {
        AbortedOk(c, marks, true);
        marks := marks.(finAcked := true);
        Abort();
      }
    }

    method HandleFinWait1(h: Header)
      requires Inv() && c.state == FinWait1
      modifies this`c, this`path, this`marks
      ensures Inv() && old(path) <= path && c == OnFinWait1(old(c), h)
    {
      hide PathOk, Wrap, SeqLt, PayloadIn, FinIn, Ok;
      if SeqLt(h.seq32, c.rcvNxt) || !h.ack {
        return;
      }
      SndNxtOk(c, marks, h.sndNxt);
      c := c.(sndNxt := h.sndNxt);
      AckOfFin(h);
      PayloadAndFin(h);
    }

    method AckOfFin(h: Header)
      requires Inv() && c.state == FinWait1
      modifies this`c, this`path, this`marks
      ensures Inv() && old(path) <= path
      ensures c == if c.isFinSent && h.ackSeq == Wrap(c.fss + 1) then old(c).(state := FinWait2, nrtx := 0)
                          else old(c)
    {
      hide PathOk, Ok;
      if c.isFinSent && h.ackSeq == Wrap(c.fss + 1) {
        FinAckedOk(c, marks);
        marks := marks.(finAcked := true);
        c := c.(nrtx := 0);
        Enter(FinWait2);
      }
    }

    method PayloadAndFin(h: Header)
      requires Inv() && (c.state.FinWait1? || c.state.FinWait2?)
      modifies this`c, this`path, this`marks
      ensures Inv() && old(path) <= path
      ensures c == FinIn(PayloadIn(old(c), h), h, if old(c).state == FinWait1 then Closing else TimeWait)
    {
      hide PathOk, Wrap, SeqLeq, SeqGt, Ok, PayloadIn;
      PayloadIfAny(h);
      InOrder(c, marks);
      if h.fin && Wrap(h.seq32 + h.len) == c.rcvNxt {
        ConsumeFin(if c.state == FinWait1 then Closing else TimeWait);
      }
    }

    method HandleFinWait2(h: Header)
      requires Inv() && c.state == FinWait2
      modifies this`c, this`path, this`marks
      ensures Inv() && old(path) <= path && c == OnFinWait2(old(c), h)
    {
      hide PathOk, Wrap, PayloadIn, FinIn, Ok;
      if !h.ack {
        return;
      }
      SndNxtOk(c, marks, h.sndNxt);
      c := c.(sndNxt := h.sndNxt);
      PayloadAndFin(h);
    }

    method HandleClosing(h: Header)
      requires Inv() && c.state == Closing
      modifies this`c, this`path, this`marks
      ensures Inv() && old(path) <= path && c == OnClosing(old(c), h)
    {
      hide PathOk, Wrap, Ok;
      if !h.ack {
        return;
      }
      SndNxtOk(c, marks, h.sndNxt);
      c := c.(sndNxt := h.sndNxt);
      if !c.isFinSent || h.ackSeq != Wrap(c.fss + 1) {
        return;
      }
      marks := marks.(finAcked := true);
      SndNxtOk(c, old(marks), h.ackSeq);
      c := c.(sndNxt := h.ackSeq);
      FinAckedOk(c, old(marks));
      Enter(TimeWait);
    }

    /** handle_rst; a reset ends the processing of the packet. */
    method HandleRst(h: Header)
      requires Inv() && !(c.state.Closed? || c.state.Listen? || c.state.SynSent?)
      modifies this`c, this`path
      ensures Inv() && old(path) <= path && c == OnReset(old(c), h)
    {
      hide PathOk, Ok;
      ResetOk(c, marks, h);
      if c.state == SynRcvd {
        if h.ackSeq == c.sndNxt {
          Abort();
        }
        return;
      }
      if (c.state.FinWait1? || c.state.FinWait2? || c.state.LastAck? || c.state.Closing? || c.state.TimeWait?) {
        Abort();
        return;
      }
      if !c.onCloseq && c.state == Established {
        Enter(CloseWait);
      }
    }

    /** process_tcp_packet; a packet outside the window changes nothing. */
    method ProcessPacket(h: Header)
      requires Inv() && !c.destroyed
      modifies this
      ensures Inv() && old(path) <= path && c == OnPacket(old(c), h)
    {
      hide PathOk, Dispatched, OnReset, InWindow, Ok;
      if !(c.state.Closed? || c.state.Listen? || c.state.SynSent? || c.state.SynRcvd?) {
        if !InWindow(c, h) {
          return;
        }
      }
      if h.rst {
        MarkOk(c, marks);
        c := c.(haveReset := true);
        if !(c.state.Closed? || c.state.Listen? || c.state.SynSent?) {
          HandleRst(h);
          return;
        }
      }
      Dispatch(h);
    }

    /** The switch over the states, reached unless a reset or the window ended the processing. */
    method Dispatch(h: Header)
      requires Inv() && !c.destroyed
      modifies this
      ensures Inv() && old(path) <= path && c == Dispatched(old(c), h)
    {
      hide PathOk, Wrap, Ok, SeqLt, OnSynSent, OnEstablished, OnLastAck, OnFinWait1, OnFinWait2, OnClosing;
      match c.state
      case Listen => HandleListen(h);
      case SynSent => HandleSynSent(h);
      case SynRcvd =>
        if h.syn && h.seq32 == c.irs {
          HandleListen(h);
        } else {
          HandleSynRcvd(h);
          if h.len > 0 && c.state == Established {
            HandleEstablished(h);
          }
        }
      case Established => HandleEstablished(h);
      case CloseWait =>
        if !SeqLt(h.seq32, c.rcvNxt) {
          SndNxtOk(c, marks, h.sndNxt);
          c := c.(sndNxt := h.sndNxt);
        }
      case LastAck => HandleLastAck(h);
      case FinWait1 => HandleFinWait1(h);
      case FinWait2 => HandleFinWait2(h);
      case Closing => HandleClosing(h);
      case TimeWait =>
      case Closed =>
    }

    // ----- sending, application calls, timers -----

    /** send_tcp_control_packet */
    method SendControl()
      requires Inv()
      modifies this`c
      ensures Inv() && c == OnControl(old(c))
    {
      hide PathOk, Wrap, Ok;
      ControlOk(c, marks);
      if c.state == SynSent {
        c := c.(sndNxt := Wrap(c.sndNxt + 1));
      } else if c.state == SynRcvd {
        c := c.(sndNxt := Wrap(c.iss + 1));
      } else if (c.state.LastAck? || c.state.FinWait1?) || (c.state == Closing && (!c.isFinSent || c.sndNxt == c.fss)) {
        c := c.(isFinSent := true);
        c := c.(sndNxt := Wrap(c.sndNxt + 1));
      }
    }

    /** _q_tcp_send: data is taken only in ESTABLISHED and CLOSE_WAIT. */
    method Write(len: nat)
      requires Inv()
      modifies this`c
      ensures Inv() && c == OnWrite(old(c), len)
    {
      hide PathOk, Ok;
      WriteOk(c, marks, len);
      if (c.state.Established? || c.state.CloseWait?) {
        c := c.(nextSeq := Wrap(c.nextSeq + len));
      }
    }

    /** close_stream_socket */
    method AppClose()
      requires Inv()
      modifies this`c
      ensures Inv() && c == OnAppClose(old(c))
    {
      hide PathOk, Ok;
      AppCloseOk(c, marks);
      if c.closed {
        return;
      }
      c := c.(closed := true);
      if (c.state.Established? || c.state.CloseWait?) {
        c := c.(onCloseq := true);
      }
    }

    /** handle_close_call */
    method HandleCloseCall()
      requires Inv() && !c.destroyed
      modifies this`c, this`path
      ensures Inv() && old(path) <= path && c == OnCloseCall(old(c))
    {
      hide PathOk, Ok;
      CloseCallOk(c, marks);
      c := c.(fss := c.nextSeq);
      if c.state == Closed {
      } else if c.haveReset {
        Abort();
      } else if c.state == Established {
        Enter(FinWait1);
      } else if c.state == CloseWait {
        Enter(LastAck);
      }
    }

    /** handle_rto */
    method HandleRto(una: U32)
      requires Inv() && !c.destroyed
      modifies this`c, this`path
      ensures Inv() && old(path) <= path && c == OnRto(old(c), una)
    {
      hide PathOk, Ok;
      TimerOk(c, marks, una);
      if c.nrtx < MAX_RTX {
        c := c.(nrtx := c.nrtx + 1);
        c := c.(sndNxt := una);
      } else if c.state != Closed {
        Abort();
      }
    }

    /** timewait_list_check and timeout_list_check on an expired stream */
    method Expire()
      requires Inv() && !c.destroyed
      modifies this`c, this`path
      ensures Inv() && old(path) <= path && c == OnExpiry(old(c))
    {
      hide PathOk, Ok;
      TimerOk(c, marks, 0);
      if c.state != Closed {
        Abort();
      }
    }

    /** One event.  A destroyed stream takes part in none. */
    method Step(e: Event)
      requires Inv()
      modifies this
      ensures Inv() && old(path) <= path && c == OnEvent(old(c), e)
    {
      hide PathOk, OnPacket, OnControl, OnCloseCall, Ok;
      if c.destroyed {
        return;
      }
      match e
      case PacketIn(h) => ProcessPacket(h);
      case ControlOut => SendControl();
      case AppWrites(len) => Write(len);
      case AppCloses => AppClose();
      case CloseCall => if c.onCloseq { HandleCloseCall(); }
      case RetransmissionTimer(una) => HandleRto(una);
      case TimeWaitTimer => if c.state == TimeWait { Expire(); }
      case IdleTimer => Expire();
    }

    /** Any run of events from any reachable state: at most seven changes of state, one place in the accept queue
        and one FIN consumed; TIME_WAIT only after both FINs; the FIN's number is the end of the data. */
    method Run(events: seq<Event>)
      requires Inv()
      modifies this
      ensures Inv() && old(path) <= path && |path| <= 8 && marks.accepts <= 1 && marks.finsConsumed <= 1
      ensures c.state == TimeWait ==> c.isFinSent && marks.finAcked && marks.finsConsumed == 1
      ensures (c.state.FinWait1? || c.state.FinWait2? || c.state.Closing? || c.state.TimeWait? || c.state.LastAck?) ==> c.fss == c.nextSeq
      ensures marks.wasEstablished ==> c.rcvNxt == Wrap(c.mergedNext + marks.finsConsumed)
      ensures c == AfterAll(old(c), events)
    {
      hide OnEvent, Ok, PathOk;
      PathBound(path, c.state);
      assert events[..0] == [];
      for i := 0 to |events|
        invariant Inv() && old(path) <= path && |path| <= 8
        invariant c == AfterAll(old(c), events[..i])
      {
        Step(events[i]);
        PathBound(path, c.state);
        assert events[..i + 1][..i] == events[..i];
      }
      assert events[..|events|] == events;
      OkMeans(c, marks);
    }
  }

  /** A stream that never was established: a reset that acknowledges our SYN takes it from SYN_SENT to CLOSE_WAIT,
      where its rcv_nxt is not the end of its in-order data. */
  method ResetOfConnect() returns (s: Stream)
    ensures fresh(s) && s.Inv() && s.path == [Listen, SynSent, CloseWait] && !s.marks.wasEstablished
    ensures s.marks.finsConsumed == 0 && s.c.rcvNxt != s.c.mergedNext
  {
    s := new Stream(true, true, 0, 5);
    s.SendControl();
    s.HandleSynSent(Header(false, true, true, false, 0, 6, 0, 0, 0, 0, true));
    s.ReceiveEdge();
  }
}
