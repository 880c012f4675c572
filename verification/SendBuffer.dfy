/**
 Send side of a stream: the four containers that hold unacknowledged bytes, over absolute offsets.
 */
module SendState {
  import opened Common
  import opened SeqNum
  import opened Reassembly
  import opened ReceiveState
  import Connection

  type Payload = seq<Byte>

  /** A buffer that was transmitted for the first time. */
  datatype First = First(priority: bool, data: Payload)

  /** head: first unacknowledged byte; una: last acknowledgement; nxt: next byte to transmit; next: end of
      what the application wrote.  order: the buffers in the order of their first transmission; stream: their
      bytes; wire: every data packet ever sent. */
  datatype Snd = Snd(base: int, head: int, una: int, nxt: int, next: int,
                     uack: seq<Seg>, retrans: seq<Seg>, high: seq<Payload>, low: seq<Payload>,
                     stream: seq<Byte>, wire: seq<Seg>, order: seq<First>)

  /** A stream on which nothing was written yet. */
  ghost function Unused(base: int): Snd { Snd(base, base, base, base, base, [], [], [], [], [], [], []) }

  ghost function Total(l: seq<Payload>): nat {
    if l == [] then 0 else |l[0]| + Total(l[1..])
  }

  ghost predicate AllNonEmpty(l: seq<Payload>) {
    forall i :: 0 <= i < |l| ==> 0 < |l[i]|
  }

  ghost predicate AllHoldData(l: seq<Seg>) {
    forall i :: 0 <= i < |l| ==> 0 < |l[i].payload|
  }

  ghost function Sent(st: Snd): int { st.base + |st.stream| }

  /** The unacknowledged list tiles [head, nxt), the retransmission list tiles what was sent beyond nxt,
      and the queues hold exactly what was written but never sent. */
  ghost predicate Tiled(st: Snd, size: nat) {
    && size < HALF
    && st.base <= st.head == st.una && st.next - st.head <= size
    && Tiles(st.uack, st.head, st.nxt) && Tiles(st.retrans, st.nxt, Sent(st))
    && Sent(st) + Total(st.high) + Total(st.low) == st.next
    && AllHoldData(st.uack) && AllHoldData(st.retrans) && AllNonEmpty(st.high) && AllNonEmpty(st.low)
  }

  /** Every packet ever sent, and every one that may be sent again, agrees with one byte stream: a
      retransmission repeats the bytes first sent at its sequence number. */
  ghost predicate Consistent(st: Snd) {
    && AllCarry(st.stream, st.base, st.uack) && AllCarry(st.stream, st.base, st.retrans)
    && AllCarry(st.stream, st.base, st.wire)
  }

  ghost predicate Inv(st: Snd, size: nat) {
    Tiled(st, size) && Consistent(st) && (st.uack == [] || st.retrans == [])
  }

  lemma {:induction false} TotalAppend(l: seq<Payload>, m: seq<Payload>)
    ensures Total(l + m) == Total(l) + Total(m)
  {
    if l == [] {
      assert l + m == m;
    } else {
      TotalAppend(l[1..], m);
      assert (l + m)[1..] == l[1..] + m;
    }
  }

  lemma {:induction false} TilesForward(l: seq<Seg>, a: int, b: int)
    requires Tiles(l, a, b)
    ensures a <= b && (AllHoldData(l) ==> (a == b <==> l == []))
  {
    if l != [] {
      TilesForward(l[1..], End(l[0]), b);
    }
  }

  // ----- writing -----

  /** sb_put on a non-full buffer, `take` bytes of the payload fitting: the end of the written data moves
      even if the queue then refuses the buffer. */
  ghost function PutBytes(st: Snd, cap: nat, data: Payload, priority: bool): Snd {
    var st1 := st.(next := st.next + |data|);
    if priority then
      if |st.high| < cap then st1.(high := st.high + [data]) else st1
    else
      if |st.low| < cap then st1.(low := st.low + [data]) else st1
  }

  lemma PutInv(st: Snd, size: nat, cap: nat, data: Payload, priority: bool)
    requires Inv(st, size) && 0 < |data| <= size - (st.next - st.head)
    ensures Inv(PutBytes(st, cap, data, priority), size) <==>
            |if priority then st.high else st.low| < cap
  {
    TotalAppend(st.high, [data]);
    TotalAppend(st.low, [data]);
    assert Total([data]) == |data| + Total([data][1..]);
  }

  // ----- flushing -----

  /** The packet goes out with sequence number nxt, whatever number the buffer carried before. */
  ghost function Transmit(st: Snd, data: Payload): Snd {
    var s := Seg(st.nxt, data);
    st.(nxt := End(s), uack := st.uack + [s], wire := st.wire + [s])
  }

  ghost predicate Blocked(st: Snd, data: Payload, window: int) {
    st.nxt + |data| > st.una + window
  }

  /** First transmission: the payload becomes the next bytes of the stream. */
  ghost function TransmitNew(st: Snd, data: Payload, priority: bool): Snd {
    Transmit(st, data).(stream := st.stream + data, order := st.order + [First(priority, data)])
  }

  datatype Picked = Nothing | Picked(data: Payload, rest: Snd, first: bool, priority: bool)

  /** Retransmissions first, then high priority, then low. */
  ghost function Pick(st: Snd): Picked {
    if st.retrans != [] then Picked(st.retrans[0].payload, st.(retrans := st.retrans[1..]), false, false)
    else if st.high != [] then Picked(st.high[0], st.(high := st.high[1..]), true, true)
    else if st.low != [] then Picked(st.low[0], st.(low := st.low[1..]), true, false)
    else Nothing
  }

  ghost function SendPicked(k: Picked): Snd
    requires k.Picked?
  {
    if k.first then TransmitNew(k.rest, k.data, k.priority) else Transmit(k.rest, k.data)
  }

  ghost function Pending(st: Snd): nat { |st.retrans| + |st.high| + |st.low| }

  /** The longest payload send_tcp_packet takes: the peer's maximum segment size less the options, in 32-bit
      unsigned arithmetic. */
  function MaxPayload(mss: nat, optlen: nat): U32 { Wrap(mss - optlen) }

  /** flush_tcp_sending_buffer: a packet that does not fit the window, or is too long to be sent, is gone from its
      container and the flush ends. */
  ghost function Flush(st: Snd, window: int, maxlen: nat): Snd
    decreases Pending(st)
  {
    var k := Pick(st);
    if st.nxt < st.head || k.Nothing? then st
    else if Blocked(st, k.data, window) || |k.data| > maxlen then k.rest
    else Flush(SendPicked(k), window, maxlen)
  }

  /** The flush ends in a packet that is too long to be sent, and with it the program. */
  ghost predicate Exits(st: Snd, window: int, maxlen: nat)
    decreases Pending(st)
  {
    var k := Pick(st);
    && st.nxt >= st.head && k.Picked? && !Blocked(st, k.data, window)
    && (|k.data| > maxlen || Exits(SendPicked(k), window, maxlen))
  }

  /** All that is pending can go out: there is nothing pending or its end is within the window. */
  ghost predicate Fits(st: Snd, window: int) {
    st.nxt == st.next || st.next <= st.una + window
  }

  ghost predicate AllShort(l: seq<Payload>, maxlen: nat) {
    forall i :: 0 <= i < |l| ==> |l[i]| <= maxlen
  }

  /** No pending buffer is too long to be sent. */
  ghost predicate Short(st: Snd, maxlen: nat) {
    && (forall i :: 0 <= i < |st.retrans| ==> |st.retrans[i].payload| <= maxlen)
    && AllShort(st.high, maxlen) && AllShort(st.low, maxlen)
  }

  lemma ShortStep(st: Snd, maxlen: nat)
    ensures Pick(st).Nothing? ==> Short(st, maxlen)
    ensures Pick(st).Picked? ==>
              (Short(st, maxlen) <==> |Pick(st).data| <= maxlen && Short(SendPicked(Pick(st)), maxlen))
  {
    var k := Pick(st);
    if k.Picked? && |k.data| <= maxlen && Short(SendPicked(k), maxlen) {
      if st.retrans != [] {
        assert st.retrans == [st.retrans[0]] + st.retrans[1..];
      } else if st.high != [] {
        assert st.high == [st.high[0]] + st.high[1..];
      } else {
        assert st.low == [st.low[0]] + st.low[1..];
      }
    }
  }

  lemma Retransmit(st: Snd, size: nat)
    requires Tiled(st, size) && Consistent(st) && st.retrans != []
    ensures var st' := Transmit(st.(retrans := st.retrans[1..]), st.retrans[0].payload);
            Tiled(st', size) && Consistent(st') && st'.nxt > st.nxt && st'.next >= st'.nxt
  {
    var s := st.retrans[0];
    assert Seg(st.nxt, s.payload) == s;
    TilesAppend(st.uack, [s], st.head, st.nxt, End(s));
    assert [s][1..] == [];
    TilesForward(st.retrans[1..], End(s), Sent(st));
  }

  lemma {:induction false} CarryExtends(stream: seq<Byte>, more: seq<Byte>, base: int, l: seq<Seg>)
    requires AllCarry(stream, base, l)
    ensures AllCarry(stream + more, base, l)
  {
    forall i | 0 <= i < |l| ensures Carries(stream + more, base, l[i]) {
      assert Carries(stream, base, l[i]);
    }
  }

  /** st is the state with `data` already taken from its queue. */
  lemma FirstTransmission(st: Snd, size: nat, data: Payload, priority: bool)
    requires Tiled(st.(next := st.next - |data|), size) && Consistent(st)
    requires st.retrans == [] && 0 < |data| && st.next - st.head <= size
    ensures var st' := TransmitNew(st, data, priority);
            Tiled(st', size) && Consistent(st') && st'.next >= st'.nxt
  {
    var s := Seg(st.nxt, data);
    TilesAppend(st.uack, [s], st.head, st.nxt, End(s));
    assert [s][1..] == [];
    TilesForward(st.uack, st.head, st.nxt);
    CarryExtends(st.stream, data, st.base, st.uack);
    CarryExtends(st.stream, data, st.base, st.wire);
    assert Carries(st.stream + data, st.base, s);
  }

  lemma LostRetransmission(st: Snd, size: nat)
    requires Tiled(st, size) && st.retrans != []
    ensures !Tiled(st.(retrans := st.retrans[1..]), size)
    ensures st.nxt + |st.retrans[0].payload| <= st.next
  {
    TilesForward(st.retrans[1..], End(st.retrans[0]), Sent(st));
    TilesLen(st.retrans[1..], End(st.retrans[0]), Sent(st));
    if Tiles(st.retrans[1..], st.nxt, Sent(st)) {
      TilesLen(st.retrans[1..], st.nxt, Sent(st));
    }
  }

  /** Sending what is next keeps the tiling; taking it out without sending it does not. */
  lemma PickStep(st: Snd, size: nat)
    requires Tiled(st, size) && Consistent(st)
    ensures st.head <= st.nxt <= st.next
    ensures Pick(st).Nothing? <==> st.nxt == st.next
    ensures Pick(st).Picked? ==>
              var k := Pick(st);
              && 0 < |k.data| && st.nxt + |k.data| <= st.next
              && Tiled(SendPicked(k), size) && Consistent(SendPicked(k))
              && !Tiled(k.rest, size) && Consistent(k.rest)
  {
    TilesForward(st.uack, st.head, st.nxt);
    TilesForward(st.retrans, st.nxt, Sent(st));
    if st.retrans != [] {
      LostRetransmission(st, size);
      Retransmit(st, size);
    } else if st.high != [] {
      FirstTransmission(st.(high := st.high[1..]), size, st.high[0], true);
    } else if st.low != [] {
      FirstTransmission(st.(low := st.low[1..]), size, st.low[0], false);
    }
  }

  /** A flush keeps the tiling exactly when all that is pending fits the window and no pending buffer is too long;
      it then sends it all.  Inside the window the program exits exactly when some buffer is too long. */
  lemma {:induction false} FlushTiled(st: Snd, size: nat, window: int, maxlen: nat)
    requires Tiled(st, size) && Consistent(st)
    ensures Tiled(Flush(st, window, maxlen), size) <==> Fits(st, window) && Short(st, maxlen)
    ensures Consistent(Flush(st, window, maxlen))
    ensures Fits(st, window) && Short(st, maxlen) ==>
              Pending(Flush(st, window, maxlen)) == 0 && Flush(st, window, maxlen).nxt == st.next
    ensures Fits(st, window) ==> (Exits(st, window, maxlen) <==> !Short(st, maxlen))
    decreases Pending(st)
  {
    hide Tiled, Consistent, Short;
    PickStep(st, size);
    ShortStep(st, maxlen);
    var k := Pick(st);
    if k.Picked? && !Blocked(st, k.data, window) && |k.data| <= maxlen {
      FlushTiled(SendPicked(k), size, window, maxlen);
    }
  }

  lemma FlushInv(st: Snd, size: nat, window: int, maxlen: nat)
    requires Inv(st, size)
    ensures Inv(Flush(st, window, maxlen), size) <==> Fits(st, window) && Short(st, maxlen)
  {
    FlushTiled(st, size, window, maxlen);
  }

  /** Every flush, cut off or not: low-priority data goes only when no high-priority data is left, and new data only when
      nothing is left to send again. */
  lemma {:induction false} FlushPriority(st: Snd, window: int, maxlen: nat)
    ensures var st' := Flush(st, window, maxlen);
            && (st'.low != st.low ==> st'.high == [])
            && (st'.high != st.high || st'.low != st.low ==> st'.retrans == [])
    decreases Pending(st)
  {
    var k := Pick(st);
    if !(st.nxt < st.head || k.Nothing? || Blocked(st, k.data, window) || |k.data| > maxlen) {
      FlushPriority(SendPicked(k), window, maxlen);
      FlushShrinks(SendPicked(k), window, maxlen);
    }
  }

  lemma {:induction false} FlushShrinks(st: Snd, window: int, maxlen: nat)
    ensures var st' := Flush(st, window, maxlen);
            |st'.low| <= |st.low| && |st'.high| <= |st.high| && (st.high == [] ==> st'.high == []) && (st.retrans == [] ==> st'.retrans == [])
    decreases Pending(st)
  {
    var k := Pick(st);
    if !(st.nxt < st.head || k.Nothing? || Blocked(st, k.data, window) || |k.data| > maxlen) {
      FlushShrinks(SendPicked(k), window, maxlen);
    }
  }

  ghost function Payloads(l: seq<Seg>): seq<Payload> { seq(|l|, i requires 0 <= i < |l| => l[i].payload) }

  /** All that is pending, in the order it is to go out. */
  ghost function Line(st: Snd): seq<Payload> { Payloads(st.retrans) + st.high + st.low }

  /** The packets for these payloads, one after the other from offset a on. */
  ghost function Numbered(a: int, l: seq<Payload>): seq<Seg>
    decreases |l|
  {
    if l == [] then [] else [Seg(a, l[0])] + Numbered(a + |l[0]|, l[1..])
  }

  /** Every buffer of l can be sent from offset a on: it ends within the window and is not too long. */
  ghost predicate Sendable(a: int, l: seq<Payload>, edge: int, maxlen: nat)
    decreases |l|
  {
    l == [] || (a + |l[0]| <= edge && |l[0]| <= maxlen && Sendable(a + |l[0]|, l[1..], edge, maxlen))
  }

  /** From st the first n pending buffers went out and the one after them, if there is one, is gone. */
  ghost predicate FlushedTo(st: Snd, st': Snd, n: nat, window: int, maxlen: nat) {
    var l, edge := Line(st), st.una + window;
    && n <= |l| && Sendable(st.nxt, l[..n], edge, maxlen)
    && st'.wire == st.wire + Numbered(st.nxt, l[..n]) && st'.uack == st.uack + Numbered(st.nxt, l[..n])
    && Line(st') == (if n < |l| then l[n + 1..] else [])
    && (n < |l| ==> !Sendable(st.nxt, l[..n + 1], edge, maxlen))
  }

  /** What a flush does, whatever it is given: of all that is pending, retransmissions, high and low priority in this
      order, the longest part that can be sent goes out under consecutive numbers; the buffer after it, if there is one,
      is gone, and the rest still waits. */
  lemma {:induction false} FlushLine(st: Snd, window: int, maxlen: nat) returns (n: nat)
    requires st.head <= st.nxt
    ensures FlushedTo(st, Flush(st, window, maxlen), n, window, maxlen)
    decreases Pending(st)
  {
    hide Flush, FlushedTo, Line;
    var k := Pick(st);
    FlushOnce(st, window, maxlen);
    if k.Nothing? || Blocked(st, k.data, window) || |k.data| > maxlen {
      n := 0;
      FlushedNone(st, window, maxlen);
    } else {
      PickLine(st);
      var m := FlushLine(SendPicked(k), window, maxlen);
      n := m + 1;
      FlushedStep(st, Flush(SendPicked(k), window, maxlen), m, window, maxlen);
    }
  }

  lemma FlushedNone(st: Snd, window: int, maxlen: nat)
    requires var k := Pick(st); k.Nothing? || Blocked(st, k.data, window) || |k.data| > maxlen
    ensures FlushedTo(st, if Pick(st).Nothing? then st else Pick(st).rest, 0, window, maxlen)
  {
    hide Line;
    var k, l := Pick(st), Line(st);
    assert l[..0] == [];
    if k.Nothing? {
      NothingInLine(st);
    } else {
      PickLine(st);
      assert l[..1] == [k.data];
    }
  }

  lemma NothingInLine(st: Snd)
    requires Pick(st).Nothing?
    ensures Line(st) == []
  {
  }

  lemma FlushedStep(st: Snd, st': Snd, m: nat, window: int, maxlen: nat)
    requires Pick(st).Picked? && FlushedTo(SendPicked(Pick(st)), st', m, window, maxlen)
    requires !Blocked(st, Pick(st).data, window) && |Pick(st).data| <= maxlen
    ensures FlushedTo(st, st', m + 1, window, maxlen)
  {
    hide Line, SendPicked, Pick;
    PickLine(st);
    var k, l, r := Pick(st), Line(st), Line(st)[1..];
    assert l[..m + 1][1..] == r[..m] && l[..m + 1][0] == k.data;
    assert m < |r| ==> l[..m + 2][1..] == r[..m + 1] && l[..m + 2][0] == k.data && r[m + 1..] == l[m + 2..];
  }

  lemma FlushOnce(st: Snd, window: int, maxlen: nat)
    requires st.head <= st.nxt
    ensures var k := Pick(st);
            Flush(st, window, maxlen) == if k.Nothing? then st
                                         else if Blocked(st, k.data, window) || |k.data| > maxlen then k.rest
                                         else Flush(SendPicked(k), window, maxlen)
  {
  }

  /** What is taken next is the head of the line. */
  lemma PickLine(st: Snd)
    requires Pick(st).Picked?
    ensures var k := Pick(st); var st' := SendPicked(k); var s := Seg(st.nxt, k.data);
            && Line(st) == [k.data] + Line(k.rest) && Line(st)[1..] == Line(k.rest) == Line(st')
            && k.rest.wire == st.wire && k.rest.uack == st.uack && st'.wire == st.wire + [s] && st'.uack == st.uack + [s]
            && st'.nxt == st.nxt + |k.data| && st'.head == st.head && st'.una == st.una
  {
    var k := Pick(st);
    if st.retrans != [] {
      assert Payloads(st.retrans) == [k.data] + Payloads(st.retrans[1..]);
    } else {
      assert Payloads([]) == [];
      assert Line(st) == st.high + st.low && Line(k.rest) == k.rest.high + k.rest.low;
    }
    assert Line(st) == [k.data] + Line(k.rest);
  }

  ghost function Firsts(q: seq<Payload>, priority: bool): seq<First> {
    seq(|q|, i requires 0 <= i < |q| => First(priority, q[i]))
  }

  /** A flush that fits sends all of the high queue and then all of the low queue, each in its order. */
  lemma {:induction false} FlushOrder(st: Snd, size: nat, window: int, maxlen: nat)
    requires Tiled(st, size) && Consistent(st) && Fits(st, window) && Short(st, maxlen)
    ensures Flush(st, window, maxlen).order == st.order + Firsts(st.high, true) + Firsts(st.low, false)
    decreases Pending(st)
  {
    hide Tiled, Consistent, Short;
    PickStep(st, size);
    ShortStep(st, maxlen);
    var k := Pick(st);
    if k.Nothing? {
      assert Firsts(st.high, true) == [] && Firsts(st.low, false) == [];
    } else {
      FlushOrder(SendPicked(k), size, window, maxlen);
      if k.first {
        FirstsStep(if k.priority then st.high else st.low, k.priority);
        assert !k.priority ==> Firsts(st.high, true) == [];
      }
    }
  }

  lemma FirstsStep(q: seq<Payload>, priority: bool)
    requires q != []
    ensures Firsts(q, priority) == [First(priority, q[0])] + Firsts(q[1..], priority)
  {
  }

  /** The call as a whole: once the FIN is out it does nothing. */
  ghost function FlushCall(st: Snd, window: int, maxlen: nat, finSent: bool): Snd {
    if finSent then st else Flush(st, window, maxlen)
  }

  /** Why the length matters: nothing checks it before the flush.  Any buffer longer than the peer's maximum segment
      size is written without complaint, fits the window, and ends the program when it is to be sent. */
  lemma OversizeExits(data: Payload, mss: nat, window: nat)
    requires mss < |data| <= window && |data| < HALF && mss < 65536
    ensures var st := PutBytes(Unused(0), 1, data, false);
            && Inv(st, |data|) && Fits(st, window)
            && Exits(st, window, MaxPayload(mss, 0)) && !Inv(Flush(st, window, MaxPayload(mss, 0)), |data|)
  {
    PutInv(Unused(0), |data|, 1, data, false);
    var st := PutBytes(Unused(0), 1, data, false);
    assert st.low[0] == data;
    assert MaxPayload(mss, 0) == mss;
    FlushTiled(st, |data|, window, mss);
  }

  /** Such a buffer: 1400 bytes written to a peer that offered 536. */
  lemma OversizeExample()
    ensures exists data: Payload :: |data| == 1400 && Exits(PutBytes(Unused(0), 1, data, false), 1500, MaxPayload(536, 0))
  {
    var data: Payload := seq(1400, _ => 0);
    OversizeExits(data, 536, 1500);
  }

  /** Why the window matters: a flush cut off in the middle of a retransmission loses a buffer, and the next
      flush sends the buffer after it under the lost one's sequence number. */
  lemma CutOffCorrupts()
    ensures exists st, size :: Inv(st, size) && Short(st, 10) && !Fits(st, 0) && !Consistent(Flush(Flush(st, 0, 10), 10, 10))
  {
    var a, b := Seg(0, [1]), Seg(1, [2]);
    var st := Snd(0, 0, 0, 0, 2, [], [a, b], [], [], [1, 2], [a, b], [First(false, [1]), First(false, [2])]);
    assert [a, b][1..] == [b] && [b][1..] == [];
    assert Tiles([b], 1, 2);
    assert [1, 2][0..1] == [1] && [1, 2][1..2] == [2];
    assert Carries(st.stream, 0, a) && Carries(st.stream, 0, b);
    assert Inv(st, 10);
    var st1 := st.(retrans := [b]);
    assert Flush(st, 0, 10) == st1;
    var st2 := Transmit(st.(retrans := []), [2]);
    assert Flush(st1, 10, 10) == Flush(st2, 10, 10) == st2;
    assert st2.wire[2] == Seg(0, [2]) && [1, 2][0] == 1;
    assert !Carries(st2.stream, 0, st2.wire[2]);
  }

  // ----- what was written -----

  ghost function Flat(l: seq<First>): seq<Byte> {
    if l == [] then [] else Flat(l[..|l| - 1]) + l[|l| - 1].data
  }

  /** The buffers of one priority, in order. */
  ghost function Of(l: seq<First>, priority: bool): seq<Payload> {
    if l == [] then []
    else Of(l[..|l| - 1], priority) + if l[|l| - 1].priority == priority then [l[|l| - 1].data] else []
  }

  /** The stream is an interleaving of two sequences of buffers, one of each priority; followed by what waits in its
      queue each is the sequence of all writes of its priority. */
  ghost predicate Written(st: Snd, high: seq<Payload>, low: seq<Payload>) {
    st.stream == Flat(st.order) && Of(st.order, true) + st.high == high && Of(st.order, false) + st.low == low
  }

  lemma LogOne(l: seq<First>, f: First)
    ensures Flat(l + [f]) == Flat(l) + f.data
    ensures Of(l + [f], f.priority) == Of(l, f.priority) + [f.data] && Of(l + [f], !f.priority) == Of(l, !f.priority)
  {
    assert (l + [f])[..|l|] == l;
    assert Of(l, !f.priority) + [] == Of(l, !f.priority);
  }

  lemma WrittenPut(st: Snd, cap: nat, data: Payload, priority: bool, high: seq<Payload>, low: seq<Payload>)
    requires Written(st, high, low) && |if priority then st.high else st.low| < cap
    ensures Written(PutBytes(st, cap, data, priority), if priority then high + [data] else high,
                    if priority then low else low + [data])
  {
    assert Of(st.order, true) + (st.high + [data]) == Of(st.order, true) + st.high + [data];
    assert Of(st.order, false) + (st.low + [data]) == Of(st.order, false) + st.low + [data];
  }

  lemma MoveToLog(order: seq<First>, q: seq<Payload>, priority: bool)
    requires q != []
    ensures Of(order + [First(priority, q[0])], priority) + q[1..] == Of(order, priority) + q
  {
    LogOne(order, First(priority, q[0]));
    assert q == [q[0]] + q[1..];
  }

  lemma WrittenPick(st: Snd, high: seq<Payload>, low: seq<Payload>)
    requires Written(st, high, low) && Pick(st).Picked?
    ensures Written(SendPicked(Pick(st)), high, low)
  {
    hide Of, Flat;
    var k := Pick(st);
    if k.first {
      LogOne(st.order, First(k.priority, k.data));
      MoveToLog(st.order, if k.priority then st.high else st.low, k.priority);
    }
  }

  /** A flush that is not cut off loses no write and changes no order within a priority. */
  lemma {:induction false} WrittenFlush(st: Snd, size: nat, window: int, maxlen: nat, high: seq<Payload>, low: seq<Payload>)
    requires Tiled(st, size) && Consistent(st) && Fits(st, window) && Short(st, maxlen) && Written(st, high, low)
    ensures Written(Flush(st, window, maxlen), high, low)
    decreases Pending(st)
  {
    hide Tiled, Consistent, Short, Written;
    PickStep(st, size);
    ShortStep(st, maxlen);
    if Pick(st).Picked? {
      WrittenPick(st, high, low);
      WrittenFlush(SendPicked(Pick(st)), size, window, maxlen, high, low);
    }
  }

  // ----- acknowledgements -----

  /** What is left of a list when every segment that ends by `ack` is freed. */
  ghost function DropAcked(l: seq<Seg>, ack: int): seq<Seg> {
    if l != [] && End(l[0]) <= ack then DropAcked(l[1..], ack) else l
  }

  /** x is where the list starts or where one of its segments ends. */
  ghost predicate Boundary(l: seq<Seg>, a: int, x: int) {
    x == a || (l != [] && Boundary(l[1..], End(l[0]), x))
  }

  lemma {:induction false} DropTiles(l: seq<Seg>, a: int, b: int, ack: int)
    requires Tiles(l, a, b) && AllHoldData(l) && a <= ack
    ensures var r := DropAcked(l, ack); var h := a + TotalLen(l) - TotalLen(r);
            && |r| <= |l| && r == l[|l| - |r|..]
            && Tiles(r, h, b) && a <= h <= ack
            && (h == ack <==> Boundary(l, a, ack))
            && (ack <= b ==> (r == [] ==> h == b)) && (b <= ack ==> r == [])
  {
    TilesForward(l, a, b);
    if l != [] && End(l[0]) <= ack {
      DropTiles(l[1..], End(l[0]), b, ack);
    } else if l != [] {
      TilesForward(l[1..], End(l[0]), b);
      if Boundary(l[1..], End(l[0]), ack) {
        BoundaryForward(l[1..], End(l[0]), b, ack);
      }
    }
  }

  lemma {:induction false} BoundaryForward(l: seq<Seg>, a: int, b: int, x: int)
    requires Tiles(l, a, b) && Boundary(l, a, x)
    ensures a <= x <= b
  {
    TilesForward(l, a, b);
    if x != a {
      BoundaryForward(l[1..], End(l[0]), b, x);
    }
  }

  /** sb_reset_retrans: refused when nothing is unacknowledged or a retransmission is under way. */
  ghost function ResetRetrans(st: Snd): Snd {
    if st.uack == [] || st.retrans != [] then st else st.(retrans := st.uack, uack := [])
  }

  /** Where transmission goes on: a fast retransmission restarts at the acknowledgement, and an
      acknowledgement beyond nxt (recovery after a loss) moves it there. */
  ghost function AckNext(st: Snd, ack: int, fast: bool): Snd {
    var st1 := if fast && ack < st.nxt then ResetRetrans(st.(nxt := ack)) else st;
    if ack > st1.nxt then st1.(nxt := ack) else st1
  }

  /** sb_remove_acked */
  ghost function FreeAcked(st: Snd, ack: int): Snd {
    var uack', retrans' := DropAcked(st.uack, ack), DropAcked(st.retrans, ack);
    st.(uack := uack', retrans := retrans', una := ack,
        head := st.head + TotalLen(st.uack) - TotalLen(uack') + TotalLen(st.retrans) - TotalLen(retrans'))
  }

  /** In 32-bit comparison the acknowledgement is beyond what was written. */
  ghost predicate Misses(st: Snd, ack: int) { ack > st.next || ack < st.next - HALF }

  /** The part of process_tcp_ack that touches the send buffer, for an acknowledgement read as an offset from
      head - 2^31 on; fast: the third duplicate has arrived.  At exactly 2^31 behind, head does not compare as later. */
  ghost function AckStep(st: Snd, ack: int, fast: bool): Snd {
    if Misses(st, ack) then st
    else
      var st' := AckNext(st, ack, fast);
      if st'.head - HALF < ack <= st'.head then st' else FreeAcked(st', ack)
  }

  /** The acknowledgement covers sent data only and ends where a segment ends; an old one does not reach the
      duplicate count of a fast retransmission. */
  ghost predicate AckFine(st: Snd, ack: int, fast: bool) {
    || Misses(st, ack)
    || (st.head - HALF < ack <= st.head && (fast ==> ack == st.head))
    || (st.head < ack <= Sent(st) && Boundary(st.uack + st.retrans, st.head, ack))
  }

  lemma ResetInv(st: Snd, size: nat)
    requires Inv(st, size)
    ensures Inv(ResetRetrans(st.(nxt := st.head)), size)
    ensures var st' := ResetRetrans(st.(nxt := st.head));
            st'.uack + st'.retrans == st.uack + st.retrans && st'.uack == [] && st'.nxt == st.head
            && st' == st.(nxt := st'.nxt, uack := st'.uack, retrans := st'.retrans)
  {
    TilesForward(st.uack, st.head, st.nxt);
  }

  /** In every state: no buffer of either list is lost, and the order is kept. */
  lemma ResetKeepsAll(st: Snd)
    ensures var st' := ResetRetrans(st); st'.uack + st'.retrans == st.uack + st.retrans
    ensures st.retrans == [] ==> ResetRetrans(st).uack == []
  {
  }

  /** The lists together tile [head, sent). */
  lemma ListsTile(st: Snd, size: nat)
    requires Tiled(st, size)
    ensures Tiles(st.uack + st.retrans, st.head, Sent(st)) && AllHoldData(st.uack + st.retrans)
    ensures TotalLen(st.uack + st.retrans) == TotalLen(st.uack) + TotalLen(st.retrans)
    ensures st.head <= st.nxt <= Sent(st) <= st.next
  {
    TilesAppend(st.uack, st.retrans, st.head, st.nxt, Sent(st));
    TotalLenAppend(st.uack, st.retrans);
    TilesForward(st.uack, st.head, st.nxt);
    TilesForward(st.retrans, st.nxt, Sent(st));
  }

  /** FreeAcked after the recovery move of nxt. */
  ghost function Recover(st: Snd, ack: int): Snd {
    FreeAcked(if ack > st.nxt then st.(nxt := ack) else st, ack)
  }

  lemma SuffixKeeps(stream: seq<Byte>, base: int, l: seq<Seg>, r: seq<Seg>)
    requires |r| <= |l| && r == l[|l| - |r|..] && AllHoldData(l)
    ensures AllHoldData(r) && (AllCarry(stream, base, l) ==> AllCarry(stream, base, r))
  {
  }

  lemma FreeFromRetrans(st: Snd, size: nat, ack: int)
    requires Inv(st, size) && st.head < ack <= st.next && st.uack == []
    ensures Inv(Recover(st, ack), size) <==> ack <= Sent(st) && Boundary(st.retrans, st.head, ack)
  {
    hide AllHoldData, AllCarry, Boundary;
    ListsTile(st, size);
    TilesForward(st.uack, st.head, st.nxt);
    DropTiles(st.retrans, st.nxt, Sent(st), ack);
    SuffixKeeps(st.stream, st.base, st.retrans, DropAcked(st.retrans, ack));
  }

  lemma FreeFromUack(st: Snd, size: nat, ack: int)
    requires Inv(st, size) && st.head < ack <= st.next && st.retrans == []
    ensures Inv(Recover(st, ack), size) <==> ack <= Sent(st) && Boundary(st.uack, st.head, ack)
  {
    ListsTile(st, size);
    DropTiles(st.uack, st.head, st.nxt, ack);
    SuffixKeeps(st.stream, st.base, st.uack, DropAcked(st.uack, ack));
  }

  /** Freeing what an acknowledgement of new data covers. */
  lemma FreeInv(st: Snd, size: nat, ack: int)
    requires Inv(st, size) && st.head < ack <= st.next
    ensures Inv(Recover(st, ack), size) <==>
            ack <= Sent(st) && Boundary(st.uack + st.retrans, st.head, ack)
  {
    if st.uack == [] {
      assert st.uack + st.retrans == st.retrans;
      FreeFromRetrans(st, size, ack);
    } else {
      assert st.uack + st.retrans == st.uack;
      FreeFromUack(st, size, ack);
    }
  }

  /** An old duplicate that triggers a fast retransmission moves nxt before the buffer. */
  lemma StaleFastRetransmit(st: Snd, size: nat, ack: int)
    requires ack < st.head
    ensures !Inv(ResetRetrans(st.(nxt := ack)), size)
  {
    var st' := ResetRetrans(st.(nxt := ack));
    if Tiles(st'.uack, st'.head, st'.nxt) {
      TilesForward(st'.uack, st'.head, st'.nxt);
    }
  }

  /** An acknowledgement keeps the invariant exactly when it is fine. */
  lemma AckInv(st: Snd, size: nat, ack: int, fast: bool)
    requires Inv(st, size) && st.head - HALF <= ack < st.head + HALF
    ensures Inv(AckStep(st, ack, fast), size) <==> AckFine(st, ack, fast)
  {
    ListsTile(st, size);
    TilesForward(st.uack, st.head, st.nxt);
    var st3 := ResetRetrans(st.(nxt := st.head));
    ResetInv(st, size);
    AckCases(st, ack, fast);
    if ack == st.head - HALF {
      HalfwayBehind(st, size, fast);
    } else {
      AckInvRest(st, size, ack, fast);
    }
  }

  lemma AckInvRest(st: Snd, size: nat, ack: int, fast: bool)
    requires Inv(st, size) && st.head - HALF < ack < st.head + HALF
    ensures Inv(AckStep(st, ack, fast), size) <==> AckFine(st, ack, fast)
  {
    ListsTile(st, size);
    TilesForward(st.uack, st.head, st.nxt);
    var st3 := ResetRetrans(st.(nxt := st.head));
    ResetInv(st, size);
    AckCases(st, ack, fast);
    hide Inv, Boundary;
    if Misses(st, ack) {
    } else if ack <= st.head {
      if ack < st.head {
        StaleFastRetransmit(st, size, ack);
      }
    } else {
      FreeInv(st, size, ack);
      FreeInv(st3, size, ack);
    }
  }

  /** An acknowledgement exactly 2^31 behind an empty buffer is taken for new, and moves snd_una there. */
  lemma HalfwayBehind(st: Snd, size: nat, fast: bool)
    requires Inv(st, size)
    ensures Misses(st, st.head - HALF) || !Inv(AckStep(st, st.head - HALF, fast), size)
    ensures Misses(st, st.head - HALF) <==> st.next > st.head
  {
    ListsTile(st, size);
  }

  lemma AckCases(st: Snd, ack: int, fast: bool)
    requires st.head <= st.nxt <= st.next && (st.uack == [] || st.retrans == []) && (st.uack == [] ==> st.nxt == st.head)
    ensures Misses(st, ack) ==> AckStep(st, ack, fast) == st
    ensures !Misses(st, ack) && st.head - HALF < ack < st.head && fast ==> AckStep(st, ack, fast) == ResetRetrans(st.(nxt := ack))
    ensures st.head - HALF < ack <= st.head && !fast ==> AckStep(st, ack, fast) == st
    ensures ack == st.head && fast && !Misses(st, ack) ==>
              AckStep(st, ack, fast) == if ack < st.nxt then ResetRetrans(st.(nxt := st.head)) else st
    ensures st.head < ack && !Misses(st, ack) ==>
              AckStep(st, ack, fast) ==
              if fast && ack < st.nxt then Recover(ResetRetrans(st.(nxt := st.head)), ack) else Recover(st, ack)
  {
  }

  // ----- counting duplicates -----

  /** The header fields process_tcp_ack reads; window: the peer's window, scaled. */
  datatype AckInfo = AckInfo(seq32: U32, ack: U32, window: U32, len: nat)

  /** What the sender remembers of the peer: the last window update (snd_wl1, snd_wl2), the window of the last packet
      (peer_wnd), the last acknowledgement and how often it was repeated, an 8-bit counter. */
  datatype Peer = Peer(wl1: U32, wl2: U32, wnd: U32, lastAck: U32, dups: nat)

  /** process_tcp_packet stores the window of every packet before the packet is looked at further. */
  function Seen(p: Peer, a: AckInfo): Peer { p.(wnd := a.window) }

  /** The window update of process_tcp_ack, on what process_tcp_packet left. */
  function WindowUpdated(p: Peer, a: AckInfo): Peer {
    if SeqLt(p.wl1, a.seq32) || (p.wl1 == a.seq32 && SeqLt(p.wl2, a.ack)) || (p.wl2 == a.ack && a.window > p.wnd)
    then p.(wl1 := a.seq32, wl2 := a.ack, wnd := a.window)
    else p
  }

  /** An acknowledgement counts as a duplicate if it is old, repeats the last one, carries no data and leaves the
      right edge of the window where it was. */
  predicate IsDup(p: Peer, a: AckInfo, sndNxt: U32) {
    var q := Seen(p, a);
    && SeqLt(a.ack, sndNxt) && a.ack == q.lastAck && a.len == 0
    && Wrap(WindowUpdated(q, a).wl2 + WindowUpdated(q, a).wnd) == Wrap(q.wl2 + q.wnd)
  }

  function Counted(p: Peer, a: AckInfo, sndNxt: U32): Peer {
    var q := WindowUpdated(Seen(p, a), a);
    if IsDup(p, a, sndNxt) then q.(dups := (p.dups + 1) % 256) else q.(dups := 0, lastAck := a.ack)
  }

  predicate Third(p: Peer, a: AckInfo, sndNxt: U32) {
    IsDup(p, a, sndNxt) && Counted(p, a, sndNxt).dups == 3
  }

  /** The packet does not move snd_wl2: it is not newer than the last update, or repeats its number. */
  predicate Steady(p: Peer, a: AckInfo) {
    a.ack == p.wl2 || !(SeqLt(p.wl1, a.seq32) || (p.wl1 == a.seq32 && SeqLt(p.wl2, a.ack)))
  }

  /** The window update takes place exactly for a newer packet: the packet's own window was stored before, so that a
      packet with the same number never offers more. */
  lemma UpdateIff(p: Peer, a: AckInfo)
    ensures WindowUpdated(Seen(p, a), a) ==
            if SeqLt(p.wl1, a.seq32) || (p.wl1 == a.seq32 && SeqLt(p.wl2, a.ack))
            then p.(wl1 := a.seq32, wl2 := a.ack, wnd := a.window) else p.(wnd := a.window)
  {
    hide SeqLt;
  }

  /** Since the packet's own window is on both sides of the comparison, what the test of the right edge sees is
      whether snd_wl2 moved: windows that change do not keep packets from being counted. */
  lemma DupIff(p: Peer, a: AckInfo, sndNxt: U32)
    ensures IsDup(p, a, sndNxt) <==> SeqLt(a.ack, sndNxt) && a.ack == p.lastAck && a.len == 0 && Steady(p, a)
    ensures Steady(p, a) <==> WindowUpdated(Seen(p, a), a).wl2 == p.wl2
  {
    hide SeqLt, Wrap;
    SameSum(WindowUpdated(Seen(p, a), a).wl2, p.wl2, a.window);
  }

  lemma SameSum(x: U32, y: U32, w: U32)
    ensures Wrap(x + w) == Wrap(y + w) <==> x == y
  {
    if Wrap(x + w) == Wrap(y + w) {
      WrapCancel(x + w, y, w);
      WrapCancel(x + w, x, w);
    }
  }

  datatype Sender = Sender(st: Snd, peer: Peer)

  /** The offset nearest to head that a 32-bit number stands for. */
  ghost function ReadAck(st: Snd, ack: U32): int { st.head + Diff(ack, Wrap(st.head)) }

  /** A packet with an acknowledgement: its window is stored, its number read against head, duplicates are counted and
      the buffer is updated. */
  ghost function ReceiveAck(s: Sender, a: AckInfo): Sender {
    var ack := ReadAck(s.st, a.ack);
    if Misses(s.st, ack) then Sender(s.st, Seen(s.peer, a))
    else Sender(AckStep(s.st, ack, Third(s.peer, a, Wrap(s.st.nxt))), Counted(s.peer, a, Wrap(s.st.nxt)))
  }

  /** Which packets keep the invariant: exactly those whose number is fine in view of the duplicates counted. */
  lemma ReceiveAckInv(s: Sender, size: nat, a: AckInfo)
    requires Inv(s.st, size)
    ensures Inv(ReceiveAck(s, a).st, size) <==>
            AckFine(s.st, ReadAck(s.st, a.ack), Third(s.peer, a, Wrap(s.st.nxt)))
  {
    hide Inv, Third, Counted, Boundary;
    AckInv(s.st, size, ReadAck(s.st, a.ack), Third(s.peer, a, Wrap(s.st.nxt)));
  }

  /** A number is read as the offset that was sent exactly if that is less than 2^31 away from head. */
  lemma ReadAckIff(st: Snd, ack: int)
    ensures ReadAck(st, Wrap(ack)) == ack <==> -HALF <= ack - st.head < HALF
  {
    if -HALF <= ack - st.head < HALF {
      DiffOfOffsets(ack, st.head);
    }
  }

  /** An acknowledgement one turn of the 32-bit numbers old frees what it does not cover: it has the effect of the
      new one with the same number. */
  lemma OldAckReadsAsNew(s: Sender, ack: int, a: AckInfo)
    requires s.st.head < ack < s.st.head + HALF && a.ack == Wrap(ack - MODULUS)
    ensures ReadAck(s.st, a.ack) == ack
    ensures ReceiveAck(s, a) == ReceiveAck(s, a.(ack := Wrap(ack)))
  {
    ReadAckIff(s.st, ack);
    WrapTurn(ack);
  }

  /** A stale packet in the sense of this sender: its number is before head and compares so. */
  ghost predicate Stale(st: Snd, a: AckInfo) {
    var ack := ReadAck(st, a.ack);
    st.next - HALF <= ack < st.head && st.head - HALF < ack && a.len == 0
  }

  /** An old acknowledgement that comes four times in a row without data, whatever windows the packets carry: the first
      is remembered, and unless a newer packet among the others moves snd_wl2 the fourth is the third duplicate and
      starts a fast retransmission before the buffer. */
  lemma StaleDuplicatesBreak(s: Sender, size: nat, a: AckInfo, b: AckInfo, c: AckInfo, d: AckInfo)
    requires Inv(s.st, size) && Stale(s.st, a) && s.peer.lastAck != a.ack
    requires b.ack == c.ack == d.ack == a.ack && b.len == c.len == d.len == 0
    requires var s1 := ReceiveAck(s, a); var s2 := ReceiveAck(s1, b); var s3 := ReceiveAck(s2, c);
             Steady(s1.peer, b) && Steady(s2.peer, c) && Steady(s3.peer, d)
    ensures var s3 := ReceiveAck(ReceiveAck(ReceiveAck(s, a), b), c);
            s3.st == s.st && !Inv(ReceiveAck(s3, d).st, size)
  {
    hide Inv, ReceiveAck, Wrap, Diff, SeqLt, Steady, Misses;
    StaleUnlessThird(s, size, a);
    var s1 := ReceiveAck(s, a);
    StaleUnlessThird(s1, size, b);
    var s2 := ReceiveAck(s1, b);
    StaleUnlessThird(s2, size, c);
    var s3 := ReceiveAck(s2, c);
    StaleUnlessThird(s3, size, d);
    ReceiveAckInv(s3, size, d);
  }

  /** A stale acknowledgement only changes the count, unless it is the third duplicate. */
  lemma StaleUnlessThird(s: Sender, size: nat, a: AckInfo)
    requires Inv(s.st, size) && Stale(s.st, a)
    ensures !Misses(s.st, ReadAck(s.st, a.ack))
    ensures IsDup(s.peer, a, Wrap(s.st.nxt)) <==> a.ack == s.peer.lastAck && Steady(s.peer, a)
    ensures !Third(s.peer, a, Wrap(s.st.nxt)) ==>
              && ReceiveAck(s, a).st == s.st && ReceiveAck(s, a).peer.lastAck == a.ack
              && ReceiveAck(s, a).peer.dups == if IsDup(s.peer, a, Wrap(s.st.nxt)) then (s.peer.dups + 1) % 256 else 0
  {
    hide FreeAcked, Boundary, IsDup, Steady;
    ListsTile(s.st, size);
    OldIsBefore(s.st, a.ack);
    DupIff(s.peer, a, Wrap(s.st.nxt));
  }

  lemma OldIsBefore(st: Snd, ack: U32)
    requires st.head <= st.nxt <= st.next && st.next - HALF <= ReadAck(st, ack) < st.head
    ensures SeqLt(ack, Wrap(st.nxt))
  {
    var x := ReadAck(st, ack);
    WrapAdd(st.head, Diff(ack, Wrap(st.head)));
    DiffOfOffsets(x, st.nxt);
  }

  /** Such a run: one byte unacknowledged at 10, and acknowledgement 5 coming four times with windows that grow. */
  lemma StaleExample()
    ensures exists s: Sender, size: nat :: Inv(s.st, size)
              && !Inv(ReceiveAck(ReceiveAck(ReceiveAck(ReceiveAck(s, AckInfo(0, 5, 101, 0)), AckInfo(0, 5, 102, 0)),
                                            AckInfo(0, 5, 103, 0)), AckInfo(0, 5, 104, 0)).st, size)
  {
    hide Inv, ReceiveAck, OneByteOut, Stale;
    OneByteInv();
    var s := Sender(OneByteOut(), Peer(0, 5, 100, 10, 0));
    var a, b, c, d := AckInfo(0, 5, 101, 0), AckInfo(0, 5, 102, 0), AckInfo(0, 5, 103, 0), AckInfo(0, 5, 104, 0);
    FiveIsStale(101);
    SteadyAt(s, a);
    var s1 := ReceiveAck(s, a);
    SteadyAt(s1, b);
    var s2 := ReceiveAck(s1, b);
    SteadyAt(s2, c);
    StaleDuplicatesBreak(s, 100, a, b, c, d);
  }

  /** Bytes 5 to 9 were sent and acknowledged, byte 10 was sent. */
  ghost function OneByteOut(): Snd {
    var five: Payload := [0, 0, 0, 0, 0];
    Snd(5, 10, 10, 11, 11, [Seg(10, [1])], [], [], [], five + [1], [Seg(5, five), Seg(10, [1])],
        [First(false, five), First(false, [1])])
  }

  lemma OneByteInv()
    ensures Inv(OneByteOut(), 100)
  {
    hide Inv, Flush, AckStep;
    var five: Payload := [0, 0, 0, 0, 0];
    UnusedInv(5, 100);
    var st0 := SendOne(Unused(5), 100, five);
    assert [] + five == five;
    FiveAcked(st0);
    AckInv(st0, 100, 10, false);
    var st := SendOne(AckStep(st0, 10, false), 100, [1]);
    assert st == OneByteOut();
  }

  /** Writing and flushing one buffer when nothing waits. */
  lemma SendOne(st: Snd, size: nat, data: Payload) returns (st': Snd)
    requires Inv(st, size) && st.uack == [] && st.retrans == [] && st.high == [] && st.low == []
    requires 0 < |data| <= size - (st.next - st.head) && |data| <= 1460
    ensures Inv(st', size)
    ensures st' == TransmitNew(st.(next := st.next + |data|), data, false)
  {
    hide Inv, Flush;
    PutInv(st, size, 1, data, false);
    var st1 := PutBytes(st, 1, data, false);
    QuietEnds(st, size);
    FlushInv(st1, size, 1500, 1460);
    FlushOne(st1, data, 1500, 1460);
    ShortOne(st1, data);
    st' := TransmitNew(st1.(low := []), data, false);
  }

  /** With nothing in flight or waiting all numbers agree. */
  lemma QuietEnds(st: Snd, size: nat)
    requires Inv(st, size) && st.uack == [] && st.retrans == [] && st.high == [] && st.low == []
    ensures st.head == st.una == st.nxt == st.next
  {
  }

  lemma ShortOne(st: Snd, data: Payload)
    requires st.retrans == [] && st.high == [] && st.low == [data] && |data| <= 1460
    ensures Short(st, 1460)
  {
  }

  lemma FiveAcked(st: Snd)
    requires st == TransmitNew(Unused(5).(next := 10), [0, 0, 0, 0, 0], false)
    ensures AckFine(st, 10, false)
    ensures AckStep(st, 10, false) == st.(uack := [], head := 10, una := 10)
  {
    var g := Seg(5, [0, 0, 0, 0, 0]);
    assert st.uack == [g] && [g][1..] == [] && st.uack + st.retrans == [g];
    assert DropAcked([g], 10) == [] && TotalLen([g]) == 5 + TotalLen([]);
    assert Boundary([], 10, 10);
  }

  lemma FiveIsStale(window: U32)
    ensures Stale(OneByteOut(), AckInfo(0, 5, window, 0))
  {
    DiffOfOffsets(5, 10);
  }

  /** A number that snd_wl2 already has stays there. */
  lemma SteadyAt(s: Sender, a: AckInfo)
    requires s.peer.wl2 == a.ack
    ensures ReceiveAck(s, a).peer.wl2 == a.ack
  {
  }

  // ----- the congestion window -----

  type U16 = x: int | 0 <= x < 65536 witness 0

  const SEND_WINDOW_MIN: nat := 1500

  datatype Cong = Cong(cwnd: U32, ssthresh: U32)

  function Min(a: nat, b: nat): nat { if a < b then a else b }

  /** The window of a flush: that of congestion control or of the peer, but at least one packet. */
  function FlushWindow(cwnd: U32, peerWnd: U32): nat {
    var w := Min(cwnd, peerWnd);
    if w < SEND_WINDOW_MIN then SEND_WINDOW_MIN else w
  }

  /** The slow start threshold after a loss. */
  function Halved(g: Cong, peerWnd: U32, mss: U16): U32 {
    var h := Min(g.cwnd, peerWnd) / 2;
    if h < 2 * mss then 2 * mss else h
  }

  function AfterTimeout(g: Cong, peerWnd: U32, mss: U16): Cong { Cong(mss, Halved(g, peerWnd, mss)) }

  /** Growth by acknowledged bytes: slow start below the threshold, congestion avoidance above, in 32-bit
      arithmetic. */
  function Grown(g: Cong, mss: U16, acked: nat): Cong {
    if acked == 0 || mss == 0 || g.cwnd == 0 then g
    else
      var packets := acked / mss % 65536;
      if g.cwnd < g.ssthresh then
        if Wrap(g.cwnd + mss) > g.cwnd then g.(cwnd := Wrap(g.cwnd + mss * packets)) else g
      else
        var cwnd := Wrap(g.cwnd + Wrap(packets * mss * mss) / g.cwnd);
        if cwnd > g.cwnd then g.(cwnd := cwnd) else g
  }

  /** The third duplicate sets the window anew, later ones inflate it. */
  function Inflated(g: Cong, peerWnd: U32, mss: U16, third: bool, dups: nat): Cong {
    if third then Cong(Wrap(Halved(g, peerWnd, mss) + 3 * mss), Halved(g, peerWnd, mss))
    else if dups > 3 && Wrap(g.cwnd + mss) > g.cwnd then g.(cwnd := Wrap(g.cwnd + mss))
    else g
  }

  /** The bytes an acknowledgement newly covers, as the program subtracts. */
  ghost function NewlyAcked(st: Snd, ack: int): nat {
    if st.head - HALF < ack <= st.head then 0 else Wrap(ack - st.head)
  }

  /** What a packet with an acknowledgement does to the congestion window. */
  ghost function CongAfter(s: Sender, g: Cong, mss: U16, a: AckInfo): Cong {
    var ack, n := ReadAck(s.st, a.ack), Wrap(s.st.nxt);
    if Misses(s.st, ack) then g
    else Grown(Inflated(g, a.window, mss, Third(s.peer, a, n), Counted(s.peer, a, n).dups), mss, NewlyAcked(s.st, ack))
  }

  /** After a loss the threshold is half the smaller window, rounded down, but at least two segments. */
  lemma HalvedIs(g: Cong, peerWnd: U32, mss: U16)
    ensures var h, w := Halved(g, peerWnd, mss), Min(g.cwnd, peerWnd);
            h >= 2 * mss && 2 * h + 1 >= w && (h == 2 * mss || 2 * h <= w)
    ensures AfterTimeout(g, peerWnd, mss) == Cong(mss, Halved(g, peerWnd, mss))
  {
  }

  /** Slow start: when a window of k whole segments is acknowledged, it doubles. */
  lemma SlowStartDoubles(g: Cong, mss: U16, k: nat)
    requires mss > 0 && 0 < k < 65536 && g.cwnd == k * mss < g.ssthresh && 2 * g.cwnd < MODULUS
    ensures Grown(g, mss, g.cwnd) == g.(cwnd := 2 * g.cwnd)
  {
    Whole(k, mss, g.cwnd);
    Below(k, mss);
    Small(g.cwnd + mss);
    Small(g.cwnd + g.cwnd);
    hide Wrap;
    GrownBy(g, mss, g.cwnd, k);
  }

  /** Congestion avoidance: when a window of k whole segments is acknowledged, it grows by one segment, as long as the
      product the program computes stays below 2^32. */
  lemma AvoidanceAddsOne(g: Cong, mss: U16, k: nat)
    requires mss > 0 && 0 < k < 65536 && g.cwnd == k * mss >= g.ssthresh && k * mss * mss < MODULUS && g.cwnd + mss < MODULUS
    ensures Grown(g, mss, g.cwnd) == g.(cwnd := g.cwnd + mss)
  {
    Whole(k, mss, g.cwnd);
    Below(k, mss);
    assert k * mss * mss == mss * g.cwnd;
    Whole(mss, g.cwnd, k * mss * mss);
    Small(k * mss * mss);
    Small(g.cwnd + mss);
    hide Wrap;
    GrownBy(g, mss, g.cwnd, k);
  }

  /** Growth in whole segments. */
  lemma GrownBy(g: Cong, mss: U16, acked: nat, packets: nat)
    requires mss > 0 && g.cwnd > 0 && acked > 0 && acked / mss == packets < 65536
    ensures Grown(g, mss, acked) ==
            if g.cwnd < g.ssthresh then
              (if Wrap(g.cwnd + mss) > g.cwnd then g.(cwnd := Wrap(g.cwnd + mss * packets)) else g)
            else
              var cwnd := Wrap(g.cwnd + Wrap(packets * mss * mss) / g.cwnd);
              if cwnd > g.cwnd then g.(cwnd := cwnd) else g
  {
    hide Wrap;
    assert packets % 65536 == packets;
  }

  lemma Small(x: nat)
    requires x < MODULUS
    ensures Wrap(x) == x
  {
  }

  lemma Below(k: nat, m: nat)
    requires k > 0
    ensures m <= k * m
  {
  }

  /** x is k times m. */
  lemma Whole(k: nat, m: nat, x: nat)
    requires m > 0 && x == k * m
    ensures x / m == k
  {
    var d := k - x / m;
    assert d * m == x % m;
    Multiple(d, m);
  }

  lemma Multiple(d: int, m: nat)
    ensures (d >= 1 ==> d * m >= m) && (d <= -1 ==> d * m + m <= 0)
  {
  }

  /** Less than a segment acknowledged does not move the window. */
  lemma SmallAck(g: Cong, mss: U16, acked: nat)
    requires acked < mss
    ensures Grown(g, mss, acked) == g
  {
    if acked > 0 && g.cwnd > 0 {
      NoWhole(acked, mss);
      Small(g.cwnd);
      Small(0);
      hide Wrap;
      GrownBy(g, mss, acked, 0);
      assert Wrap(g.cwnd + mss * 0) == Wrap(g.cwnd) && 0 * mss * mss == 0 && 0 / g.cwnd == 0;
    }
  }

  lemma NoWhole(x: nat, m: nat)
    requires x < m
    ensures x / m == 0
  {
  }

  /** The third duplicate sets threshold and window anew; each further one opens the window by a segment. */
  lemma DuplicatesOpen(s: Sender, g: Cong, mss: U16, a: AckInfo)
    requires var ack := ReadAck(s.st, a.ack); !Misses(s.st, ack) && s.st.head - HALF < ack <= s.st.head
    ensures var third, dups := Third(s.peer, a, Wrap(s.st.nxt)), Counted(s.peer, a, Wrap(s.st.nxt)).dups;
            var g', h := CongAfter(s, g, mss, a), Halved(g, a.window, mss);
            && (third ==> g' == Cong(Wrap(h + 3 * mss), h))
            && (dups > 3 && g.cwnd + mss < MODULUS ==> g' == g.(cwnd := g.cwnd + mss))
            && (dups < 3 ==> g' == g)
  {
    hide Third, Counted, Halved;
    ThirdIsThree(s.peer, a, Wrap(s.st.nxt));
  }

  lemma ThirdIsThree(p: Peer, a: AckInfo, sndNxt: U32)
    ensures Third(p, a, sndNxt) ==> Counted(p, a, sndNxt).dups == 3
  {
  }

  /** The length test of send_tcp_packet: payload and options have to fit the segment size, but a segment size smaller
      than the options lets every payload pass. */
  lemma LengthTest(mss: U16, optlen: nat, len: nat)
    requires optlen <= 40 && len < HALF
    ensures len <= MaxPayload(mss, optlen) <==> len + optlen <= mss || mss < optlen
  {
  }

  // ----- retransmission timeout -----

  /** handle_rto: transmission restarts at una; the unacknowledged list is moved only in the states that
      `resets` stands for. */
  ghost function RtoStep(st: Snd, resets: bool): Snd {
    var st1 := st.(nxt := st.una);
    if resets then ResetRetrans(st1) else st1
  }

  lemma RtoInv(st: Snd, size: nat, resets: bool)
    requires Inv(st, size)
    ensures Inv(RtoStep(st, resets), size) <==> resets || st.uack == []
  {
    ResetInv(st, size);
    TilesForward(st.uack, st.head, st.nxt);
    if Tiles(st.uack, st.head, st.head) {
      TilesForward(st.uack, st.head, st.head);
    }
  }

  /** After a time-out the congestion window is one segment, so the flush that follows keeps the invariant exactly if
      all that is outstanding and waiting fits the window of one segment and no buffer is too long.  With more than
      that outstanding every time-out loses a buffer. */
  lemma FlushAfterTimeout(st: Snd, size: nat, g: Cong, mss: U16, peerWnd: U32)
    requires Inv(st, size)
    ensures var st1, w := RtoStep(st, true), FlushWindow(AfterTimeout(g, peerWnd, mss).cwnd, peerWnd);
            && Inv(st1, size)
            && (Inv(Flush(st1, w, mss), size) <==> st.next - st.una <= w && Short(st1, mss))
  {
    hide Flush, Short;
    RtoInv(st, size, true);
    var st1 := RtoStep(st, true);
    FlushInv(st1, size, FlushWindow(mss, peerWnd), mss);
  }

  /** All that is unacknowledged is lined up to be sent again from the first unacknowledged byte on. */
  ghost function GoneBack(st: Snd): Snd { st.(nxt := st.head, retrans := st.uack, uack := []) }

  /** What starts it: the third duplicate of the acknowledgement of head, and a time-out in the states that reset. */
  lemma GoesBack(s: Sender, size: nat, a: AckInfo)
    requires Inv(s.st, size) && s.st.uack != []
    ensures a.ack == Wrap(s.st.head) && IsDup(s.peer, a, Wrap(s.st.nxt)) && s.peer.dups == 2 ==>
              ReceiveAck(s, a).st == GoneBack(s.st)
    ensures RtoStep(s.st, true) == GoneBack(s.st)
  {
    hide IsDup, WindowUpdated, FreeAcked, AllCarry;
    var st := s.st;
    ListsTile(st, size);
    TilesForward(st.uack, st.head, st.nxt);
    ReadAckIff(st, st.head);
    AckCases(st, st.head, true);
  }

  /** A flush that fits then sends every unacknowledged packet again, as it was, and after them all that waits. */
  lemma ResendsAll(st: Snd, size: nat, window: int, maxlen: nat)
    requires Inv(st, size) && st.uack != [] && Fits(GoneBack(st), window) && Short(GoneBack(st), maxlen)
    ensures var st' := Flush(GoneBack(st), window, maxlen);
            st'.wire == st.wire + st.uack + Numbered(Sent(st), st.high + st.low)
  {
    hide Flush, FlushedTo, Short, Fits, Inv, Tiled;
    var st1 := GoneBack(st);
    BackInv(st, size);
    var n := FlushLine(st1, window, maxlen);
    AllOut(st1, Flush(st1, window, maxlen), n, size, window, maxlen);
    assert Line(st1) == Payloads(st.uack) + (st.high + st.low);
    NumberedTiling(st.uack, st.high + st.low, st.head, st.nxt);
  }

  lemma BackInv(st: Snd, size: nat)
    requires Inv(st, size) && st.uack != []
    ensures Inv(GoneBack(st), size) && Tiled(GoneBack(st), size) && Consistent(GoneBack(st))
    ensures Tiles(st.uack, st.head, st.nxt) && Sent(st) == st.nxt && GoneBack(st).head <= GoneBack(st).nxt
  {
    ResetInv(st, size);
    TilesForward(st.uack, st.head, st.nxt);
  }

  /** All that is pending goes out if it fits. */
  lemma AllOut(st: Snd, st': Snd, n: nat, size: nat, window: int, maxlen: nat)
    requires Tiled(st, size) && Fits(st, window) && Short(st, maxlen) && FlushedTo(st, st', n, window, maxlen)
    ensures n == |Line(st)| && st'.wire == st.wire + Numbered(st.nxt, Line(st))
  {
    hide Tiled, Short, Line, Sendable;
    var l := Line(st);
    LineTotal(st, size, maxlen);
    assert l[..|l|] == l;
    if n < |l| {
      var k := l[..n + 1];
      TotalAppend(k, l[n + 1..]);
      assert k + l[n + 1..] == l;
      AllSendable(st.nxt, k, st.una + window, maxlen);
    }
  }

  lemma LineTotal(st: Snd, size: nat, maxlen: nat)
    requires Tiled(st, size) && Short(st, maxlen)
    ensures Total(Line(st)) == st.next - st.nxt && AllShort(Line(st), maxlen) && (st.nxt == st.next ==> Line(st) == [])
  {
    TotalAppend(Payloads(st.retrans) + st.high, st.low);
    TotalAppend(Payloads(st.retrans), st.high);
    PayloadTotal(st.retrans);
    TilesLen(st.retrans, st.nxt, Sent(st));
    TilesForward(st.retrans, st.nxt, Sent(st));
  }

  lemma {:induction false} PayloadTotal(l: seq<Seg>)
    ensures Total(Payloads(l)) == TotalLen(l)
  {
    if l != [] {
      PayloadTotal(l[1..]);
      assert Payloads(l)[1..] == Payloads(l[1..]);
    }
  }

  lemma {:induction false} AllSendable(a: int, l: seq<Payload>, edge: int, maxlen: nat)
    requires AllShort(l, maxlen) && (l == [] || a + Total(l) <= edge)
    ensures Sendable(a, l, edge, maxlen)
    decreases |l|
  {
    if l != [] {
      AllSendable(a + |l[0]|, l[1..], edge, maxlen);
    }
  }

  /** Numbering the payloads of a tiling from its start gives the tiling back. */
  lemma {:induction false} NumberedTiling(l: seq<Seg>, more: seq<Payload>, a: int, b: int)
    requires Tiles(l, a, b)
    ensures Numbered(a, Payloads(l) + more) == l + Numbered(b, more)
  {
    var p := Payloads(l) + more;
    if l == [] {
      assert p == more && l + Numbered(b, more) == Numbered(b, more);
    } else {
      NumberedTiling(l[1..], more, End(l[0]), b);
      assert p[0] == l[0].payload && p[1..] == Payloads(l[1..]) + more;
      assert [l[0]] + (l[1..] + Numbered(b, more)) == l + Numbered(b, more);
    }
  }

  /** Such a loss: two buffers of 1000 bytes in flight, and a time-out. */
  lemma TimeoutLoses(a: Payload, b: Payload, g: Cong)
    requires |a| == |b| == 1000
    ensures var st := Flush(PutBytes(PutBytes(Unused(0), 2, a, false), 2, b, false), 14600, 1460);
            var window := FlushWindow(AfterTimeout(g, 65535, 1460).cwnd, 65535);
            Inv(st, 2000) && !Inv(Flush(RtoStep(st, true), window, 1460), 2000)
  {
    hide Inv, Flush, RtoStep;
    UnusedInv(0, 2000);
    PutInv(Unused(0), 2000, 2, a, false);
    var st1 := PutBytes(Unused(0), 2, a, false);
    PutInv(st1, 2000, 2, b, false);
    var st2 := PutBytes(st1, 2, b, false);
    FlushInv(st2, 2000, 14600, 1460);
    FlushEnds(st2, 14600, 1460);
    FlushAfterTimeout(Flush(st2, 14600, 1460), 2000, g, 1460, 65535);
  }

  lemma {:induction false} FlushEnds(st: Snd, window: int, maxlen: nat)
    ensures var st' := Flush(st, window, maxlen); st'.head == st.head && st'.una == st.una && st'.next == st.next
    decreases Pending(st)
  {
    var k := Pick(st);
    if !(st.nxt < st.head || k.Nothing? || Blocked(st, k.data, window) || |k.data| > maxlen) {
      FlushEnds(SendPicked(k), window, maxlen);
    }
  }

  /** The states in which a time-out resets the lists: ESTABLISHED always, and while data before the FIN is
      unacknowledged FIN_WAIT_1, CLOSING and LAST_ACK. */
  predicate Resets(state: Connection.TcpState, una: U32, fss: U32) {
    || state == Connection.Established
    || (state in {Connection.FinWait1, Connection.Closing, Connection.LastAck} && SeqLt(una, fss))
  }

  /** With the FIN at the end of the data, a time-out keeps the invariant exactly in these four states or when
      nothing is unacknowledged. */
  lemma RtoStates(st: Snd, size: nat, state: Connection.TcpState)
    requires Inv(st, size)
    ensures Inv(RtoStep(st, Resets(state, Wrap(st.una), Wrap(st.next))), size) <==>
            || st.uack == []
            || state in {Connection.Established, Connection.FinWait1, Connection.Closing, Connection.LastAck}
  {
    RtoInv(st, size, Resets(state, Wrap(st.una), Wrap(st.next)));
    ListsTile(st, size);
    TilesForward(st.uack, st.head, st.nxt);
    DiffOfOffsets(st.una, st.next);
  }

  lemma UnusedInv(base: int, size: nat)
    requires size < HALF
    ensures Inv(Unused(base), size)
  {
  }

  /** A flush of a single buffer that was not sent before. */
  lemma FlushOne(st: Snd, data: Payload, window: int, maxlen: nat)
    requires st.head <= st.nxt && st.retrans == [] && st.high == [] && st.low == [data]
    requires st.nxt + |data| <= st.una + window && |data| <= maxlen
    ensures Flush(st, window, maxlen) == TransmitNew(st.(low := []), data, false)
  {
    var st' := TransmitNew(st.(low := []), data, false);
    assert st.low[1..] == [];
    assert Flush(st', window, maxlen) == st';
  }

  /** Why the state matters: in CLOSE_WAIT the application may still write.  After a time-out there the next write
      goes out under the sequence number of the byte that was not acknowledged. */
  lemma CloseWaitTimeoutCorrupts()
    ensures var st := Flush(PutBytes(Unused(0), 10, [1], false), 100, 1460);
            var st1 := RtoStep(st, Resets(Connection.CloseWait, Wrap(st.una), 0));
            Inv(st, 10) && !Inv(st1, 10) && !Consistent(Flush(PutBytes(st1, 10, [2], false), 100, 1460))
  {
    hide Flush, Inv, Tiles;
    UnusedInv(0, 10);
    PutInv(Unused(0), 10, 10, [1], false);
    var st0 := PutBytes(Unused(0), 10, [1], false);
    FlushInv(st0, 10, 100, 1460);
    FlushOne(st0, [1], 100, 1460);
    var st := TransmitNew(st0.(low := []), [1], false);
    RtoInv(st, 10, false);
    var st2 := PutBytes(st.(nxt := 0), 10, [2], false);
    FlushOne(st2, [2], 100, 1460);
    var st3 := TransmitNew(st2.(low := []), [2], false);
    assert st3.wire[1] == Seg(0, [2]) && st3.stream[0..1] == [1];
    assert !Carries(st3.stream, 0, st3.wire[1]);
  }
}

module SendBuffer {
  import opened SeqNum
  import opened Reassembly
  import opened SendState
  import Connection

  const FAILED: int := -2

  /** The loop of sb_remove_acked over one list: head_seq moves over every buffer that is freed. */
  method RemoveAcked(list: seq<Packet>, head: U32, ack: U32, ghost l: seq<Seg>, ghost h: int, ghost a: int, ghost lo: int)
    returns (list': seq<Packet>, head': U32)
    requires list == ToPackets(l) && head == Wrap(h) && ack == Wrap(a)
    requires lo < a <= lo + HALF && (forall i :: 0 <= i < |l| ==> lo < End(l[i]) <= lo + HALF)
    ensures list' == ToPackets(DropAcked(l, a))
    ensures head' == Wrap(h + TotalLen(l) - TotalLen(DropAcked(l, a)))
  {
    hide Wrap, SeqLeq;
    list', head' := list, head;
    ghost var lg, hg := l, h;
    while list' != [] && SeqLeq(Wrap(list'[0].tcpSeq + |list'[0].payload|), ack)
      invariant list' == ToPackets(lg) && head' == Wrap(hg)
      invariant forall i :: 0 <= i < |lg| ==> lo < End(lg[i]) <= lo + HALF
      invariant DropAcked(lg, a) == DropAcked(l, a) && hg + TotalLen(lg) == h + TotalLen(l)
      decreases |list'|
    {
      WrapAdd(lg[0].off, |lg[0].payload|);
      CompareOffsets(End(lg[0]), a, lo, lo + HALF);
      WrapAdd(hg, |lg[0].payload|);
      head' := Wrap(head' + |list'[0].payload|);
      list' := list'[1..];
      hg, lg := hg + |lg[0].payload|, lg[1..];
    }
    if lg != [] {
      WrapAdd(lg[0].off, |lg[0].payload|);
      CompareOffsets(End(lg[0]), a, lo, lo + HALF);
    }
  }

  lemma {:induction false} TilingEnds(l: seq<Seg>, a: int, b: int)
    requires Tiles(l, a, b) && AllHoldData(l)
    ensures forall i :: 0 <= i < |l| ==> a < End(l[i]) <= b
  {
    if l != [] {
      TilingEnds(l[1..], End(l[0]), b);
      TilesForward(l[1..], End(l[0]), b);
    }
  }

  class SndBuff {
    const size: nat
    const cap: nat
    const optlen: nat           // options of a data packet
    var mss: U16                // what the peer's last SYN offered
    var isFinSent: bool
    var cong: Cong
    var headSeq: U32
    var nextSeq: U32
    var sndNxt: U32
    var sndUna: U32
    var usndQ: seq<Payload>
    var husndQ: seq<Payload>
    var uackList: seq<Packet>
    var retransList: seq<Packet>
    var peer: Peer

    ghost var st: Snd

    /** The fields are the 32-bit form of the state. */
    ghost predicate Represents()
      reads this
    {
      && headSeq == Wrap(st.head) && nextSeq == Wrap(st.next) && sndNxt == Wrap(st.nxt) && sndUna == Wrap(st.una)
      && usndQ == st.low && husndQ == st.high
      && uackList == ToPackets(st.uack) && retransList == ToPackets(st.retrans)
    }

    constructor (iss: U32, size: nat, cap: nat, mss: U16, optlen: nat, peer: Peer, cong: Cong)
      requires size < HALF
      ensures Represents() && Inv(st, size) && this.size == size && this.cap == cap
      ensures this.mss == mss && this.optlen == optlen && this.peer == peer && this.cong == cong
      ensures !isFinSent && st == Unused(iss + 1)
    {
      isFinSent, this.cong := false, cong;
      this.size, this.cap, this.mss, this.optlen, this.peer := size, cap, mss, optlen, peer;
      headSeq, nextSeq, sndNxt, sndUna := Wrap(iss + 1), Wrap(iss + 1), Wrap(iss + 1), Wrap(iss + 1);
      usndQ, husndQ, uackList, retransList := [], [], [], [];
      st := Unused(iss + 1);
    }

    method Space() returns (n: nat)
      requires Represents() && st.head <= st.next <= st.head + size && size < HALF
      ensures n == size - (st.next - st.head)
    {
      WrapSub(st.next, st.head);
      n := Wrap(size - Wrap(nextSeq - headSeq));
    }

    method Enqueue(mbuf: Payload, priority: bool) returns (ok: bool)
      requires Represents()
      modifies this`usndQ, this`husndQ, this`st
      ensures Represents()
      ensures st == PutBytes(old(st), cap, mbuf, priority).(next := old(st).next)
      ensures ok <==> |if priority then old(st).high else old(st).low| < cap
    {
      if priority {
        ok := |husndQ| < cap;
        if ok {
          husndQ := husndQ + [mbuf];
          st := st.(high := st.high + [mbuf]);
        }
      } else {
        ok := |usndQ| < cap;
        if ok {
          usndQ := usndQ + [mbuf];
          st := st.(low := st.low + [mbuf]);
        }
      }
    }

    /** sb_put; `taken` is as much of the data as the buffer has space for. */
    method SbPut(data: Payload, priority: bool) returns (ret: int, ghost taken: Payload)
      requires Represents() && Inv(st, size)
      modifies this`nextSeq, this`usndQ, this`husndQ, this`st
      ensures Represents()
      ensures var space := size - (old(st).next - old(st).head);
              0 <= space && taken == data[..if |data| <= space then |data| else space]
      ensures st == if taken == [] then old(st) else PutBytes(old(st), cap, taken, priority)
      ensures ret == if taken != [] && |if priority then old(st).high else old(st).low| < cap
                     then |taken| else FAILED
    {
      hide Inv, Wrap;
      ListEnds(st, size);
      var space := Space();
      var toPut := if |data| <= space then |data| else space;
      taken := data[..toPut];
      if toPut == 0 {
        return FAILED, taken;
      }
      var mbuf := data[..toPut];
      WrapAdd(st.next, toPut);
      nextSeq := Wrap(nextSeq + toPut);
      st := st.(next := st.next + toPut);
      var ok := Enqueue(mbuf, priority);
      if !ok {
        return FAILED, taken;
      }
      return toPut, taken;
    }

    /** send_tcp_packet for data: the packet takes the sequence number snd_nxt, unless it is longer than the maximum
        segment size less the options. */
    method Send(data: Payload, ghost first: bool, ghost priority: bool) returns (ok: bool)
      requires Represents()
      modifies this`sndNxt, this`uackList, this`st
      ensures ok <==> |data| <= MaxPayload(mss, optlen)
      ensures !ok ==> st == old(st)
      ensures ok ==> st == if first then TransmitNew(old(st), data, priority) else Transmit(old(st), data)
      ensures Represents()
    {
      if |data| > MaxPayload(mss, optlen) {
        return false;
      }
      WrapAdd(st.nxt, |data|);
      uackList := uackList + [Packet(sndNxt, data)];
      sndNxt := Wrap(sndNxt + |data|);
      st := if first then TransmitNew(st, data, priority) else Transmit(st, data);
      return true;
    }

    /** The window test of the flush. */
    method OutOfWindow(len: nat, window: nat) returns (b: bool)
      requires Represents() && window < HALF
      requires 0 <= st.nxt + len - st.una < HALF
      ensures b <==> st.nxt + len > st.una + window
    {
      WrapAdd(st.nxt, len);
      WrapAdd(st.una, window);
      DiffOfOffsets(st.nxt + len, st.una + window);
      b := SeqGt(Wrap(sndNxt + len), Wrap(sndUna + window));
    }

    method TakeNext() returns (found: bool, data: Payload)
      requires Represents()
      modifies this`retransList, this`husndQ, this`usndQ, this`st
      ensures Represents()
      ensures found <==> Pick(old(st)).Picked?
      ensures if found then data == Pick(old(st)).data && st == Pick(old(st)).rest else st == old(st)
    {
      if retransList != [] {
        found, data := true, retransList[0].payload;
        retransList := retransList[1..];
        st := st.(retrans := st.retrans[1..]);
      } else if husndQ != [] {
        found, data := true, husndQ[0];
        husndQ := husndQ[1..];
        st := st.(high := st.high[1..]);
      } else if usndQ != [] {
        found, data := true, usndQ[0];
        usndQ := usndQ[1..];
        st := st.(low := st.low[1..]);
      } else {
        found, data := false, [];
      }
    }

    /** One round of the flush up to the window test: a packet that fails the test is gone. */
    method TakeReady(window: nat) returns (data: Payload, ready: bool)
      requires Represents() && window < HALF
      requires st.una == st.head <= st.nxt <= st.next < st.head + HALF
      requires Pick(st).Picked? ==> st.nxt + |Pick(st).data| <= st.next
      modifies this`retransList, this`husndQ, this`usndQ, this`st
      ensures Represents()
      ensures ready <==> Pick(old(st)).Picked? && !Blocked(old(st), Pick(old(st)).data, window)
      ensures st == if Pick(old(st)).Picked? then Pick(old(st)).rest else old(st)
      ensures ready ==> data == Pick(old(st)).data
    {
      PickPending(st);
      hide Pick;
      DiffOfOffsets(st.nxt, st.head);
      if SeqLt(sndNxt, headSeq) {
        // the flush would end here; snd_nxt is never before the buffer
        assert false;
      }
      var found;
      found, data := TakeNext();
      if !found {
        return data, false;
      }
      var cut := OutOfWindow(|data|, window);
      ready := !cut;
    }

    /** A SYN of the peer, also one that comes again later, sets the maximum segment size. */
    method ParseMss(mss: U16)
      modifies this`mss
      ensures this.mss == mss
    {
      this.mss := mss;
    }

    /** The FIN goes out, with a number of its own. */
    method SendFin()
      requires Represents()
      modifies this`sndNxt, this`isFinSent, this`st
      ensures Represents() && isFinSent && st == old(st).(nxt := old(st).nxt + 1)
    {
      WrapAdd(st.nxt, 1);
      sndNxt, isFinSent := Wrap(sndNxt + 1), true;
      st := st.(nxt := st.nxt + 1);
    }

    /** flush_tcp_sending_buffer; exits: the program ends in it. */
    method FlushBuffer() returns (packets: nat, exits: bool)
      requires Represents() && peer.wnd < HALF && (isFinSent || Inv(st, size))
      modifies this`sndNxt, this`uackList, this`retransList, this`husndQ, this`usndQ, this`st
      ensures Represents()
      ensures st == FlushCall(old(st), FlushWindow(cong.cwnd, peer.wnd), MaxPayload(mss, optlen), isFinSent)
      ensures exits <==> !isFinSent && Exits(old(st), FlushWindow(cong.cwnd, peer.wnd), MaxPayload(mss, optlen))
      ensures packets == |st.wire| - |old(st).wire|
    {
      if isFinSent {
        return 0, false;
      }
      packets, exits := FlushOpen(FlushWindow(cong.cwnd, peer.wnd));
    }

    method FlushOpen(window: nat) returns (packets: nat, exits: bool)
      requires Represents() && Inv(st, size) && window < HALF
      modifies this`sndNxt, this`uackList, this`retransList, this`husndQ, this`usndQ, this`st
      ensures Represents()
      ensures st == Flush(old(st), window, MaxPayload(mss, optlen))
      ensures exits <==> Exits(old(st), window, MaxPayload(mss, optlen))
      ensures packets == |st.wire| - |old(st).wire|
    {
      hide Inv, Tiled, Consistent, Wrap, Pick, MaxPayload;
      ghost var st0, maxlen := st, MaxPayload(mss, optlen);
      packets, exits := 0, false;
      InvParts(st, size);
      PickStep(st, size);
      SizeBound(st, size);
      WrapSub(st.next, st.head);
      if Wrap(nextSeq - headSeq) == 0 {
        return;
      }
      while true
        invariant Represents() && Tiled(st, size) && Consistent(st)
        invariant !exits
        invariant Flush(st, window, maxlen) == Flush(st0, window, maxlen)
        invariant Exits(st, window, maxlen) <==> Exits(st0, window, maxlen)
        invariant packets == |st.wire| - |st0.wire|
        decreases Pending(st)
      {
        PickStep(st, size);
        SizeBound(st, size);
        PickPending(st);
        ghost var k := Pick(st);
        var data, ready := TakeReady(window);
        if !ready {
          break;
        }
        var ok := Send(data, k.first, k.priority);
        if !ok {
          exits := true;
          break;
        }
        packets := packets + 1;
      }
    }

    // ----- acknowledgement and timeout -----

    method SbResetRetrans()
      requires Represents()
      modifies this`uackList, this`retransList, this`st
      ensures Represents() && st == ResetRetrans(old(st))
    {
      if uackList == [] || retransList != [] {
        return;
      }
      retransList, uackList := uackList, [];
      st := ResetRetrans(st);
    }

    /** sb_remove_acked */
    method SbRemoveAcked(ackSeq: U32, ghost ack: int)
      requires Represents() && ackSeq == Wrap(ack)
      requires st.head < ack < st.head + HALF || (st.uack == [] && st.retrans == [])
      requires forall i :: 0 <= i < |st.uack| ==> st.head < End(st.uack[i]) <= st.head + HALF
      requires forall i :: 0 <= i < |st.retrans| ==> st.head < End(st.retrans[i]) <= st.head + HALF
      modifies this`headSeq, this`uackList, this`retransList, this`sndUna, this`st
      ensures Represents()
      ensures st == FreeAcked(old(st), ack)
    {
      hide Wrap, DropAcked, TotalLen;
      if uackList == [] && retransList == [] {
        // neither loop is entered
        FreeNothing(st, ack);
        sndUna := ackSeq;
        st := st.(una := ack);
        return;
      }
      ghost var u, r := DropAcked(st.uack, ack), DropAcked(st.retrans, ack);
      ghost var h := st.head + TotalLen(st.uack) - TotalLen(u);
      uackList, headSeq := RemoveAcked(uackList, headSeq, ackSeq, st.uack, st.head, ack, st.head);
      retransList, headSeq := RemoveAcked(retransList, headSeq, ackSeq, st.retrans, h, ack, st.head);
      sndUna := ackSeq;
      st := st.(uack := u, retrans := r, una := ack, head := h + TotalLen(st.retrans) - TotalLen(r));
    }

    method AcksTooMuch(ackSeq: U32, ghost ack: int) returns (b: bool)
      requires Represents() && ackSeq == Wrap(ack)
      requires st.head <= st.next < st.head + HALF && st.head - HALF <= ack < st.head + HALF
      ensures b <==> Misses(st, ack)
    {
      WrapSub(st.next, st.head);
      WrapAdd(st.head, st.next - st.head);
      FarCompare(ack, st.next);
      b := SeqGt(ackSeq, Wrap(headSeq + Wrap(nextSeq - headSeq)));
    }

    method MoveNext(ackSeq: U32, fast: bool, ghost ack: int)
      requires Represents() && ackSeq == Wrap(ack)
      requires -HALF <= ack - st.nxt < HALF
      modifies this`sndNxt, this`uackList, this`retransList, this`st
      ensures Represents() && st == AckNext(old(st), ack, fast)
    {
      DiffOfOffsets(ack, st.nxt);
      hide Wrap;
      if fast && SeqLt(ackSeq, sndNxt) {
        sndNxt := ackSeq;
        st := st.(nxt := ack);
        SbResetRetrans();
      }
      DiffOfOffsets(ack, st.nxt);
      if SeqGt(ackSeq, sndNxt) {
        sndNxt := ackSeq;
        st := st.(nxt := ack);
      }
    }

    /** The send-buffer part of process_tcp_packet and process_tcp_ack, before our FIN. */
    method ProcessAck(a: AckInfo)
      requires Represents() && Inv(st, size)
      modifies this
      ensures Represents() && isFinSent == old(isFinSent) && mss == old(mss)
      ensures Sender(st, peer) == ReceiveAck(Sender(old(st), old(peer)), a)
      ensures cong == CongAfter(Sender(old(st), old(peer)), old(cong), mss, a)
    {
      hide Inv, Wrap, Diff, AckStep, NewlyAcked, IsDup, Counted, Third, Grown, Inflated;
      ghost var ack := ReadAck(st, a.ack);
      WrapAdd(st.head, Diff(a.ack, headSeq));
      ListEnds(st, size);
      ghost var peer0 := peer;
      peer := peer.(wnd := a.window);
      var tooMuch := AcksTooMuch(a.ack, ack);
      if tooMuch {
        return;
      }
      SeenTwice(peer0, a, sndNxt);
      var fast := Third(peer, a, sndNxt);
      peer := Counted(peer, a, sndNxt);
      cong := Inflated(cong, a.window, mss, fast, peer.dups);
      Acknowledge(a.ack, fast, ack);
    }

    /** From the fast retransmission on. */
    method Acknowledge(ackSeq: U32, fast: bool, ghost ack: int)
      requires Represents() && Inv(st, size) && ackSeq == Wrap(ack) && -HALF <= ack - st.head < HALF && !Misses(st, ack)
      modifies this`sndNxt, this`uackList, this`retransList, this`headSeq, this`sndUna, this`cong, this`st
      ensures Represents() && st == AckStep(old(st), ack, fast)
      ensures cong == Grown(old(cong), mss, NewlyAcked(old(st), ack))
    {
      hide Inv, Wrap, FreeAcked, AckNext, Grown;
      ListEnds(st, size);
      AckNextLists(st, ack, fast);
      MoveNext(ackSeq, fast, ack);
      var acked := CountNew(ackSeq, ack);
      cong := Grown(cong, mss, acked);
      FreeIfNew(ackSeq, ack);
    }

    /** The bytes that are acknowledged for the first time. */
    method CountNew(ackSeq: U32, ghost ack: int) returns (acked: nat)
      requires Represents() && ackSeq == Wrap(ack) && -HALF <= ack - st.head < HALF
      ensures acked == NewlyAcked(st, ack)
    {
      FarCompare(st.head, ack);
      WrapDiff(ack, st.head);
      acked := if SeqGeq(headSeq, ackSeq) then 0 else Wrap(ackSeq - headSeq);
    }

    method FreeIfNew(ackSeq: U32, ghost ack: int)
      requires Represents() && ackSeq == Wrap(ack) && -HALF <= ack - st.head < HALF
      requires ack == st.head - HALF ==> st.uack == [] && st.retrans == []
      requires forall i :: 0 <= i < |st.uack| ==> st.head < End(st.uack[i]) <= st.head + HALF
      requires forall i :: 0 <= i < |st.retrans| ==> st.head < End(st.retrans[i]) <= st.head + HALF
      modifies this`headSeq, this`uackList, this`retransList, this`sndUna, this`st
      ensures Represents()
      ensures st == if old(st).head - HALF < ack <= old(st).head then old(st) else FreeAcked(old(st), ack)
    {
      hide FreeAcked;
      FarCompare(st.head, ack);
      if SeqGeq(headSeq, ackSeq) {
        return;
      }
      SbRemoveAcked(ackSeq, ack);
    }

    /** handle_rto below the retransmission limit */
    method HandleRto(state: Connection.TcpState, fss: U32)
      requires Represents()
      modifies this`sndNxt, this`uackList, this`retransList, this`cong, this`st
      ensures Represents() && st == RtoStep(old(st), Resets(state, Wrap(old(st).una), fss))
      ensures cong == AfterTimeout(old(cong), peer.wnd, mss)
    {
      cong := AfterTimeout(cong, peer.wnd, mss);
      sndNxt := sndUna;
      st := st.(nxt := st.una);
      if state == Connection.Established {
        SbResetRetrans();
      } else if state in {Connection.FinWait1, Connection.Closing, Connection.LastAck} {
        if SeqLt(sndNxt, fss) {
          SbResetRetrans();
        }
      }
    }
  }

  lemma WrapDiff(a: int, b: int)
    ensures Wrap(Wrap(a) - Wrap(b)) == Wrap(a - b)
  {
    hide Wrap;
    var r := Wrap(b) as int;
    WrapAdd(a, -r);
    var d := Wrap(a - r);
    WrapAdd(a - r, r);
    WrapAdd(b, a - b);
    WrapAdd(r, a - b);
    assert Wrap(a) == Wrap(d + r) == Wrap(r + (a - b));
    WrapCancel(r + (a - b), d, r);
  }

  lemma SeenTwice(p: Peer, a: AckInfo, sndNxt: U32)
    ensures Third(Seen(p, a), a, sndNxt) == Third(p, a, sndNxt) && Counted(Seen(p, a), a, sndNxt) == Counted(p, a, sndNxt)
  {
  }

  lemma FreeNothing(st: Snd, ack: int)
    requires st.uack == [] && st.retrans == []
    ensures FreeAcked(st, ack) == st.(una := ack)
  {
  }

  /** The signed difference of offsets up to 2^32 apart: beyond 2^31 its sign turns. */
  lemma FarCompare(a: int, b: int)
    requires -MODULUS < a - b < MODULUS
    ensures SeqGt(Wrap(a), Wrap(b)) <==> 0 < a - b < HALF || a - b < -HALF
    ensures SeqGeq(Wrap(a), Wrap(b)) <==> 0 <= a - b < HALF || a - b < -HALF
  {
    hide Wrap, Diff;
    WrapTurn(a);
    if -HALF <= a - b < HALF {
      DiffOfOffsets(a, b);
    } else if a - b >= HALF {
      DiffOfOffsets(a - MODULUS, b);
    } else {
      DiffOfOffsets(a + MODULUS, b);
    }
  }

  lemma AckNextLists(st: Snd, ack: int, fast: bool)
    requires forall i :: 0 <= i < |st.uack| ==> st.head < End(st.uack[i]) <= st.head + HALF
    requires forall i :: 0 <= i < |st.retrans| ==> st.head < End(st.retrans[i]) <= st.head + HALF
    ensures var st' := AckNext(st, ack, fast);
            && st'.head == st.head && (st.uack == [] && st.retrans == [] ==> st'.uack == [] && st'.retrans == [])
            && (forall i :: 0 <= i < |st'.uack| ==> st.head < End(st'.uack[i]) <= st.head + HALF)
            && (forall i :: 0 <= i < |st'.retrans| ==> st.head < End(st'.retrans[i]) <= st.head + HALF)
  {
  }

  lemma ListEnds(st: Snd, size: nat)
    requires Inv(st, size)
    ensures st.una == st.head <= st.nxt <= st.next <= st.head + size && size < HALF
    ensures st.next == st.head ==> st.uack == [] && st.retrans == []
    ensures forall i :: 0 <= i < |st.uack| ==> st.head < End(st.uack[i]) <= st.head + HALF
    ensures forall i :: 0 <= i < |st.retrans| ==> st.head < End(st.retrans[i]) <= st.head + HALF
  {
    ListsTile(st, size);
    TilingEnds(st.uack, st.head, st.nxt);
    TilingEnds(st.retrans, st.nxt, Sent(st));
  }

  lemma InvParts(st: Snd, size: nat)
    requires Inv(st, size)
    ensures Tiled(st, size) && Consistent(st)
  {
  }

  lemma SizeBound(st: Snd, size: nat)
    requires Tiled(st, size)
    ensures st.una == st.head && st.next <= st.head + size && size < HALF
  {
  }

  lemma PickPending(st: Snd)
    ensures Pick(st).Picked? ==> var k := Pick(st);
            && Pending(k.rest) < Pending(st) && Pending(SendPicked(k)) < Pending(st)
            && k.rest.nxt == st.nxt && k.rest.una == st.una && k.rest.wire == st.wire
            && SendPicked(k).wire == st.wire + [Seg(st.nxt, k.data)]
  {
  }
}
