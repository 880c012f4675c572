/**
 Two ends of a connection that run the state machine against each other: opening, closing, resets, and packets that
 come twice.
 */
module Handshake {
  import opened SeqNum
  import opened Connection

  /** A control packet on the wire. */
  datatype Segment = Segment(syn: bool, ack: bool, rst: bool, fin: bool, seq32: U32, ackSeq: U32)

  /** What send_tcp_control_packet sends from each state but CLOSED and LISTEN. */
  function ControlPacket(c: Conn): Segment {
    if c.state == SynSent then Segment(true, false, false, false, c.sndNxt, 0)
    else if c.state == SynRcvd then Segment(true, true, false, false, c.iss, c.rcvNxt)
    else if SendsFin(c) then Segment(false, true, false, true, c.fss, c.rcvNxt)
    else Segment(false, true, false, false, c.sndNxt, c.rcvNxt)
  }

  /** The packet as stream c sees it: no payload, an acknowledgement of nothing beyond snd_nxt, room to be accepted. */
  function Seen(p: Segment, c: Conn): Header {
    Header(p.syn, p.ack, p.rst, p.fin, p.seq32, p.ackSeq, 0, c.mergedNext, c.rcvWnd, c.sndNxt, true)
  }

  function Receive(c: Conn, p: Segment): Conn { OnPacket(c, Seen(p, c)) }

  datatype Pair = Pair(a: Conn, b: Conn)

  /** a sends a control packet, and it arrives. */
  function ToB(p: Pair): Pair { Pair(OnControl(p.a), Receive(p.b, ControlPacket(p.a))) }

  function ToA(p: Pair): Pair { Pair(Receive(p.a, ControlPacket(p.b)), OnControl(p.b)) }

  /** The application closes the stream and the stack gets to it. */
  function Close(c: Conn): Conn { OnCloseCall(OnAppClose(c)) }

  /** An established stream on which all was acknowledged, in order, and nothing was closed. */
  predicate Idle(c: Conn) {
    && c.state == Established && c.sndNxt == c.nextSeq && c.rcvNxt == c.mergedNext && c.rcvWnd < HALF
    && !c.isFinSent && !c.closed && !c.onCloseq && !c.haveReset && !c.destroyed
  }

  /** Each end expects what the other sends next. */
  predicate Matched(p: Pair) {
    Idle(p.a) && Idle(p.b) && p.a.sndNxt == p.b.rcvNxt && p.b.sndNxt == p.a.rcvNxt
  }

  // ----- opening -----

  /** A connect call, and the stream its SYN makes at the listener. */
  function Fresh(issA: U32, issB: U32): Pair { Pair(Created(true, true, 0, issA), Created(false, true, issA, issB)) }

  /** SYN, SYN and ACK, ACK establish both ends, with matching numbers, whatever the initial numbers. */
  lemma ThreeWay(issA: U32, issB: U32)
    ensures var p := ToB(ToA(ToB(Fresh(issA, issB)))); Matched(p) && p.a.irs == issB && p.b.irs == issA
  {
    hide Wrap;
    var p0 := Fresh(issA, issB);
    var p1 := ToB(p0);
    assert p1.a == p0.a.(sndNxt := Wrap(issA + 1)) && p1.b == p0.b.(state := SynRcvd, rcvNxt := Wrap(issA + 1));
    var p2 := ToA(p1);
    var h := Seen(ControlPacket(p1.b), p1.a);
    AcksSynIff(p1.a, h);
    assert p2.a == OnSynSent(p1.a, h);
    assert p2.b == p1.b.(sndNxt := Wrap(issB + 1));
    assert p2.a.state == Established && p2.a.rcvNxt == Wrap(issB + 1) && p2.a.sndNxt == Wrap(issA + 1);
    assert ToB(p2).a == p2.a;
    assert ToB(p2).b == Opened(p2.b, Seen(ControlPacket(p2.a), p2.b));
  }

  /** A SYN that comes again changes nothing: the answer to it is only sent again. */
  lemma SynAgain(issA: U32, issB: U32)
    ensures var p0 := Fresh(issA, issB); var p := ToB(p0);
            Receive(p.b, ControlPacket(p0.a)) == p.b && ControlPacket(OnControl(p.b)) == ControlPacket(p.b)
  {
    hide Wrap;
  }

  /** Both ends connect at once: the SYNs cross, then the answers.  Neither end takes the number of the other's SYN, so
      that an end is established only if its own initial number is 2^32 - 1 and the other's is not 0. */
  lemma OpenAtOnce(issA: U32, issB: U32)
    ensures var a0, b0 := OnControl(Created(true, true, 0, issA)), OnControl(Created(true, true, 0, issB));
            var a1 := Receive(a0, ControlPacket(Created(true, true, 0, issB)));
            var b1 := Receive(b0, ControlPacket(Created(true, true, 0, issA)));
            && a1.state == b1.state == SynRcvd
            && (Receive(a1, ControlPacket(b1)).state == Established <==> issA == MODULUS - 1 && issB != 0)
  {
    hide Wrap;
    var a0, b0 := OnControl(Created(true, true, 0, issA)), OnControl(Created(true, true, 0, issB));
    var a1 := Receive(a0, ControlPacket(Created(true, true, 0, issB)));
    var b1 := Receive(b0, ControlPacket(Created(true, true, 0, issA)));
    assert a1 == a0.(state := SynRcvd, sndNxt := issA) && b1 == b0.(state := SynRcvd, sndNxt := issB);
    WrapZero(issA);
    assert ControlPacket(b1) == Segment(true, true, false, false, issB, 0);
    SynRcvdTable(a1, Seen(ControlPacket(b1), a1));
  }

  lemma WrapZero(x: U32)
    ensures Wrap(x + 1) == 0 <==> x == MODULUS - 1
  {
  }

  // ----- closing -----

  /** A packet that ends at rcv_nxt is in the window. */
  lemma AtEdge(c: Conn, h: Header)
    requires h.len == 0 && h.seq32 == c.rcvNxt && c.rcvWnd < HALF
    ensures InWindow(c, h) && !SeqLt(h.seq32, c.rcvNxt) && Wrap(h.seq32 + h.len) == c.rcvNxt
    ensures PayloadIn(c, h) == c
  {
    WrapId(c.rcvNxt);
    DiffOfOffsets(c.rcvNxt, c.rcvNxt);
    DiffOfOffsets(c.rcvNxt, c.rcvNxt + c.rcvWnd);
  }

  /** A FIN at rcv_nxt closes an established stream's receiving side, always. */
  lemma FinCloses(c: Conn, h: Header)
    requires c.state == Established && h.fin && !h.syn && !h.rst && h.len == 0 && h.seq32 == c.rcvNxt && c.rcvWnd < HALF
    ensures OnPacket(c, h) == c.(state := CloseWait, rcvNxt := Wrap(c.rcvNxt + 1), sndNxt := if h.ack then h.sndNxt else c.sndNxt)
  {
    hide Wrap, InWindow, SeqLt, PayloadIn;
    AtEdge(c, h);
  }

  /** A FIN behind a gap is not consumed. */
  lemma FinBehindGap(c: Conn, h: Header)
    requires c.state == Established && h.len == 0 && Wrap(h.seq32) != c.rcvNxt
    ensures OnPacket(c, h).rcvNxt == c.rcvNxt && (!h.rst ==> OnPacket(c, h).state == Established)
  {
    hide Wrap, InWindow;
  }

  /** a closes and sends its FIN; b takes it and acknowledges. */
  lemma HalfClosed(p: Pair)
    requires Matched(p)
    ensures var q := ToA(ToB(Pair(Close(p.a), p.b)));
            && q.a == Close(p.a).(state := FinWait2, nrtx := 0, isFinSent := true, sndNxt := Wrap(p.a.sndNxt + 1))
            && q.b == p.b.(state := CloseWait, rcvNxt := Wrap(p.b.rcvNxt + 1))
  {
    hide Wrap, InWindow, SeqLt, PayloadIn;
    var a1 := Close(p.a);
    assert a1 == p.a.(closed := true, onCloseq := true, fss := p.a.nextSeq, state := FinWait1);
    var fin := ControlPacket(a1);
    FinCloses(p.b, Seen(fin, p.b));
    var q := ToB(Pair(a1, p.b));
    assert q.b == p.b.(state := CloseWait, rcvNxt := Wrap(p.b.rcvNxt + 1));
    assert q.a == a1.(isFinSent := true, sndNxt := Wrap(a1.sndNxt + 1));
    var h := Seen(ControlPacket(q.b), q.a);
    AtEdge(q.a, h);
    AtEdge(q.a.(sndNxt := h.sndNxt, nrtx := 0, state := FinWait2), h);
    assert OnFinWait1(q.a, h) == q.a.(state := FinWait2, nrtx := 0);
  }

  /** The FIN has the number after all that was written; only an open sending side takes data. */
  lemma FinFollowsData(c: Conn, len: nat)
    ensures !c.closed && !c.haveReset && (c.state == Established || c.state == CloseWait) ==>
              var d := Close(OnWrite(c, len));
              SendsFin(d) && ControlPacket(d).fin && ControlPacket(d).seq32 == Wrap(c.nextSeq + len)
    ensures c.state != Established && c.state != CloseWait ==> OnWrite(c, len) == c
  {
    hide Wrap;
  }

  /** One end closes first and the other later: it ends in TIME_WAIT and the other is gone. */
  lemma OrderlyClose(p: Pair)
    requires Matched(p)
    ensures var q := ToA(ToB(Pair(Close(p.a), p.b)));
            var r := ToB(ToA(Pair(q.a, Close(q.b))));
            r.a.state == TimeWait && r.b.state == Closed && r.b.destroyed && !r.a.destroyed
  {
    hide Wrap, InWindow, SeqLt, PayloadIn;
    HalfClosed(p);
    var q := ToA(ToB(Pair(Close(p.a), p.b)));
    SecondClose(q.a, q.b);
  }

  /** The other end closes too. */
  lemma SecondClose(a: Conn, b: Conn)
    requires a.state == FinWait2 && a.rcvWnd < HALF && !a.destroyed && b.state == CloseWait && b.rcvWnd < HALF
    requires !b.closed && !b.onCloseq && !b.haveReset && b.sndNxt == b.nextSeq == a.rcvNxt && a.sndNxt == b.rcvNxt
    ensures var r := ToB(ToA(Pair(a, Close(b))));
            r.a.state == TimeWait && r.b.state == Closed && r.b.destroyed && !r.a.destroyed
  {
    hide Wrap, InWindow, SeqLt, PayloadIn;
    var b1 := Close(b);
    assert b1 == b.(closed := true, onCloseq := true, fss := b.nextSeq, state := LastAck);
    LastFin(a, ControlPacket(b1));
    var r := ToA(Pair(a, b1));
    assert r.b == b1.(isFinSent := true, sndNxt := Wrap(b1.sndNxt + 1));
    LastAcked(r.b, ControlPacket(r.a));
  }

  lemma LastFin(a: Conn, p: Segment)
    requires a.state == FinWait2 && a.rcvWnd < HALF && p.fin && p.ack && !p.rst && p.seq32 == a.rcvNxt
    ensures Receive(a, p) == a.(state := TimeWait, rcvNxt := Wrap(a.rcvNxt + 1))
  {
    hide Wrap, InWindow, SeqLt, PayloadIn;
    var h := Seen(p, a);
    AtEdge(a, h);
    AtEdge(a.(sndNxt := h.sndNxt), h);
  }

  lemma LastAcked(b: Conn, p: Segment)
    requires b.state == LastAck && b.rcvWnd < HALF && b.isFinSent
    requires p == Segment(false, true, false, false, b.rcvNxt, Wrap(b.fss + 1))
    ensures Receive(b, p) == Aborted(b)
  {
    hide Wrap, InWindow, SeqLt;
    AtEdge(b, Seen(p, b));
  }

  /** Both close and their FINs cross. */
  function Crossed(p: Pair): Pair {
    var a, b := Close(p.a), Close(p.b);
    Pair(Receive(OnControl(a), ControlPacket(b)), Receive(OnControl(b), ControlPacket(a)))
  }

  lemma CrossedEnd(c: Conn, p: Segment)
    requires Idle(c) && p == Segment(false, true, false, true, c.rcvNxt, c.sndNxt)
    ensures Receive(OnControl(Close(c)), p) ==
            Close(c).(isFinSent := true, sndNxt := Wrap(c.sndNxt + 1), rcvNxt := Wrap(c.rcvNxt + 1), state := Closing)
  {
    hide Wrap, InWindow, SeqLt, PayloadIn;
    var c1 := Close(c);
    assert c1 == c.(closed := true, onCloseq := true, fss := c.nextSeq, state := FinWait1);
    var c2 := OnControl(c1);
    assert c2 == c1.(isFinSent := true, sndNxt := Wrap(c1.sndNxt + 1));
    var h := Seen(p, c2);
    AtEdge(c2, h);
    NotItsNext(c.sndNxt);
    assert !AcksFin(c2, h);
    assert OnFinWait1(c2, h) == FinIn(PayloadIn(c2.(sndNxt := h.sndNxt), h), h, Closing);
  }

  lemma NotItsNext(x: U32)
    ensures Wrap(x + 1) != x
  {
  }

  /** Closing at once: both ends get to CLOSING and, when the acknowledgements have crossed too, to TIME_WAIT. */
  lemma CloseAtOnce(p: Pair)
    requires Matched(p)
    ensures var q := Crossed(p);
            && q.a.state == q.b.state == Closing
            && Receive(q.a, ControlPacket(q.b)).state == TimeWait && Receive(q.b, ControlPacket(q.a)).state == TimeWait
  {
    hide Wrap, InWindow, SeqLt, PayloadIn, Receive;
    CrossedEnd(p.a, ControlPacket(Close(p.b)));
    CrossedEnd(p.b, ControlPacket(Close(p.a)));
    var q := Crossed(p);
    NotItsNext(p.a.sndNxt);
    NotItsNext(p.b.sndNxt);
    ClosingAcked(q.a, ControlPacket(q.b));
    ClosingAcked(q.b, ControlPacket(q.a));
  }

  lemma ClosingAcked(c: Conn, p: Segment)
    requires c.state == Closing && c.isFinSent && c.rcvWnd < HALF
    requires p == Segment(false, true, false, false, c.rcvNxt, Wrap(c.fss + 1))
    ensures Receive(c, p).state == TimeWait
  {
    hide Wrap, InWindow;
    AtEdge(c, Seen(p, c));
  }

  /** A FIN that comes again is before the window and changes nothing. */
  lemma FinAgain(p: Pair)
    requires Matched(p)
    ensures var q := ToB(Pair(Close(p.a), p.b)); q.b.state == CloseWait && Receive(q.b, ControlPacket(Close(p.a))) == q.b
  {
    hide Wrap, SeqLt, PayloadIn, InWindow;
    var a1 := Close(p.a);
    assert a1 == p.a.(closed := true, onCloseq := true, fss := p.a.nextSeq, state := FinWait1);
    var fin := ControlPacket(a1);
    FinCloses(p.b, Seen(fin, p.b));
    var b1 := Receive(p.b, fin);
    JustBefore(b1, Seen(fin, b1), p.b.rcvNxt);
  }

  lemma JustBefore(c: Conn, h: Header, x: U32)
    requires c.rcvNxt == Wrap(x + 1) && h.seq32 == x && h.len == 0
    ensures !InWindow(c, h)
  {
    WrapId(x);
    DiffOfOffsets(x, x + 1);
  }

  /** A FIN that was lost goes out again under its number after a time-out, whether the other end's FIN came or not. */
  lemma FinResent(c: Conn)
    requires (c.state == FinWait1 || c.state == Closing || c.state == LastAck) && c.nrtx < MAX_RTX
    ensures var d := OnRto(c, c.fss);
            && ControlPacket(d) == Segment(false, true, false, true, c.fss, c.rcvNxt)
            && OnControl(d) == d.(isFinSent := true, sndNxt := Wrap(c.fss + 1))
  {
    hide Wrap;
  }

  // ----- resets and giving up -----

  /** A reset in the window of an idle stream, and then the close call of the application, end it. */
  lemma ResetEnds(c: Conn, h: Header)
    requires Idle(c) && h.rst && h.len == 0 && h.seq32 == c.rcvNxt
    ensures OnPacket(c, h) == c.(state := CloseWait, haveReset := true)
    ensures Close(OnPacket(c, h)).state == Closed && Close(OnPacket(c, h)).destroyed
  {
    hide Wrap, InWindow, SeqLt, PayloadIn;
    AtEdge(c, h);
  }

  /** The retransmission timer goes off again and again. */
  function TimeOuts(c: Conn, unas: seq<U32>): Conn {
    if unas == [] then c else OnRto(TimeOuts(c, unas[..|unas| - 1]), unas[|unas| - 1])
  }

  /** The stream goes back to the unacknowledged data sixteen times and is given up at the next time-out. */
  lemma {:induction false} GivesUp(c: Conn, unas: seq<U32>)
    requires c.nrtx == 0 && c.state != Closed
    ensures |unas| <= MAX_RTX ==> TimeOuts(c, unas) == c.(nrtx := |unas|, sndNxt := if unas == [] then c.sndNxt else unas[|unas| - 1])
    ensures |unas| > MAX_RTX ==> TimeOuts(c, unas).state == Closed && TimeOuts(c, unas).nrtx == MAX_RTX
  {
    if unas != [] {
      GivesUp(c, unas[..|unas| - 1]);
    }
  }
}
