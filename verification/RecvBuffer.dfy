/**
 Receive side of a stream: out-of-order segments are merged into an in-order queue.
 Low-priority segments only, up to the first rb_clear.
 */
module Reassembly {
  import opened Common
  import opened SeqNum

  const MAX_PAYLOAD: int := 65535

  /** A received packet: its 32-bit sequence number and its payload. */
  datatype Packet = Packet(tcpSeq: U32, payload: seq<Byte>)

  /** The same segment at its absolute place in the byte stream. */
  datatype Seg = Seg(off: int, payload: seq<Byte>)

  function End(s: Seg): int { s.off + |s.payload| }

  function ToPacket(s: Seg): Packet { Packet(Wrap(s.off), s.payload) }

  ghost predicate Sized(s: Seg) { 0 < |s.payload| <= MAX_PAYLOAD }

  ghost predicate AllSized(l: seq<Seg>) { forall i :: 0 <= i < |l| ==> Sized(l[i]) }

  ghost function ToPackets(l: seq<Seg>): (r: seq<Packet>)
    ensures |r| == |l|
    ensures forall i :: 0 <= i < |l| ==> r[i] == ToPacket(l[i])
  {
    seq(|l|, i requires 0 <= i < |l| => ToPacket(l[i]))
  }

  /** The segments follow each other from offset a to offset b with no gap and no repeat. */
  ghost predicate Tiles(l: seq<Seg>, a: int, b: int) {
    if l == [] then a == b else l[0].off == a && Tiles(l[1..], End(l[0]), b)
  }

  ghost function TotalLen(l: seq<Seg>): nat {
    if l == [] then 0 else |l[0].payload| + TotalLen(l[1..])
  }

  lemma {:induction false} TilesAppend(l: seq<Seg>, m: seq<Seg>, a: int, b: int, c: int)
    requires Tiles(l, a, b)
    ensures Tiles(l + m, a, c) <==> Tiles(m, b, c)
  {
    if l == [] {
      assert l + m == m;
    } else {
      TilesAppend(l[1..], m, End(l[0]), b, c);
      assert (l + m)[1..] == l[1..] + m;
    }
  }

  lemma {:induction false} TilesLen(l: seq<Seg>, a: int, b: int)
    requires Tiles(l, a, b)
    ensures TotalLen(l) == b - a
  {
    if l != [] {
      TilesLen(l[1..], End(l[0]), b);
    }
  }

  lemma {:induction false} TotalLenAppend(l: seq<Seg>, m: seq<Seg>)
    ensures TotalLen(l + m) == TotalLen(l) + TotalLen(m)
  {
    if l == [] {
      assert l + m == m;
    } else {
      TotalLenAppend(l[1..], m);
      assert (l + m)[1..] == l[1..] + m;
    }
  }

  /** A prefix of a tiling that leaves out sized segments does not tile the whole range. */
  lemma TruncatedTiling(l: seq<Seg>, m: seq<Seg>, k: nat, a: int, b: int, c: int)
    requires Tiles(l, a, b) && Tiles(m, b, c) && AllSized(m) && k <= |m|
    ensures Tiles(l + m[..k], a, c) <==> k == |m|
  {
    TilesAppend(l, m[..k], a, b, c);
    if k == |m| {
      assert m[..k] == m;
    } else {
      assert m == m[..k] + m[k..];
      TotalLenAppend(m[..k], m[k..]);
      TilesLen(m, b, c);
      if Tiles(m[..k], b, c) {
        TilesLen(m[..k], b, c);
      }
    }
  }

  // ----- the out-of-order list -----

  ghost predicate SortedDisjoint(l: seq<Seg>) {
    forall i, j :: 0 <= i < j < |l| ==> End(l[i]) <= l[j].off
  }

  /** All segments lie in (lo, hi]. */
  ghost predicate Within(l: seq<Seg>, lo: int, hi: int) {
    forall i :: 0 <= i < |l| ==> lo < l[i].off && End(l[i]) <= hi
  }

  ghost predicate Overlaps(s: Seg, t: Seg) {
    s.off < End(t) && t.off < End(s)
  }

  /** The 32-bit comparison is the comparison of offsets that are not 2^31 apart. */
  lemma CompareOffsets(a: int, b: int, lo: int, hi: int)
    requires lo < a <= hi && lo < b <= hi && hi - lo <= HALF
    ensures SeqLeq(Wrap(a), Wrap(b)) <==> a <= b
  {
    DiffOfOffsets(a, b);
  }

  /** TCP_SEQ_LEQ(p->tcp_seq + p->payload_len, q->tcp_seq) */
  predicate EndsBefore(p: Packet, q: Packet) {
    SeqLeq(Wrap(p.tcpSeq + |p.payload|), q.tcpSeq)
  }

  lemma EndsBeforeMeans(s: Seg, t: Seg, lo: int, hi: int)
    requires lo < s.off && End(s) <= hi && lo < t.off && End(t) <= hi && hi - lo <= HALF
    ensures EndsBefore(ToPacket(s), ToPacket(t)) <==> End(s) <= t.off
  {
    WrapAdd(s.off, |s.payload|);
    CompareOffsets(End(s), t.off, lo, hi);
  }

  /** A segment the receiver may hold while `merged` bytes are in order and the buffer ends at hi: it ends after the
      in-order data and inside the buffer, but may start before it. */
  ghost predicate Holdable(s: Seg, merged: int, hi: int) {
    Sized(s) && merged < End(s) <= hi
  }

  /** Whether the 32-bit comparisons of ooo_insert order all the segments a buffer of this size may hold: exactly if
      the buffer and one longest segment before it span no more than 2^31. */
  lemma OrderIsExact(size: nat)
    requires 0 < size < HALF
    ensures (forall s, t :: Holdable(s, 0, size) && Holdable(t, 0, size) ==>
               (EndsBefore(ToPacket(s), ToPacket(t)) <==> End(s) <= t.off))
            <==> size + MAX_PAYLOAD <= HALF
  {
    hide EndsBefore;
    if size + MAX_PAYLOAD <= HALF {
      forall s, t | Holdable(s, 0, size) && Holdable(t, 0, size)
        ensures EndsBefore(ToPacket(s), ToPacket(t)) <==> End(s) <= t.off
      {
        EndsBeforeMeans(s, t, -MAX_PAYLOAD, size);
      }
    } else {
      Misordered(size);
    }
  }

  /** In a larger buffer the last byte compares as ending before a segment that starts as early as possible. */
  lemma Misordered(size: nat)
    requires 0 < size < HALF < size + MAX_PAYLOAD
    ensures exists s, t :: Holdable(s, 0, size) && Holdable(t, 0, size)
              && EndsBefore(ToPacket(s), ToPacket(t)) && !(End(s) <= t.off)
  {
    var s, t := Seg(size - 1, [0]), Seg(1 - MAX_PAYLOAD, seq(MAX_PAYLOAD, _ => 0));
    assert Holdable(s, 0, size) && Holdable(t, 0, size);
    DiffOfOffsets(size - MODULUS, t.off);
    WrapTurn(size);
    WrapAdd(s.off, 1);
    assert EndsBefore(ToPacket(s), ToPacket(t));
  }

  ghost predicate FitsAt(l: seq<Seg>, s: Seg, k: nat) {
    && k <= |l|
    && (k > 0 ==> End(l[k - 1]) <= s.off)
    && (k < |l| ==> End(s) <= l[k].off)
  }

  lemma FitIsDisjoint(l: seq<Seg>, s: Seg, k: nat)
    requires SortedDisjoint(l) && AllSized(l) && Sized(s) && FitsAt(l, s, k)
    ensures SortedDisjoint(l[..k] + [s] + l[k..])
    ensures forall i :: 0 <= i < |l| ==> !Overlaps(s, l[i])
  {
    hide AllSized, Overlaps, SortedDisjoint;
    Around(l, s, k);
    var m := l[..k] + [s] + l[k..];
    forall i, j | 0 <= i < j < |m| ensures End(m[i]) <= m[j].off {
      var a, b := if i < k then i else i - 1, if j < k then j else j - 1;
      if i != k && j != k {
        InOrder(l, a, b);
      }
    }
    SortedMeans(m);
    forall i | 0 <= i < |l| ensures !Overlaps(s, l[i]) {
      ApartMeans(s, l[i]);
    }
  }

  lemma InOrder(l: seq<Seg>, i: nat, j: nat)
    requires SortedDisjoint(l) && i < j < |l|
    ensures End(l[i]) <= l[j].off
  {
  }

  lemma SortedMeans(m: seq<Seg>)
    requires forall i, j :: 0 <= i < j < |m| ==> End(m[i]) <= m[j].off
    ensures SortedDisjoint(m)
  {
  }

  lemma ApartMeans(s: Seg, t: Seg)
    requires End(s) <= t.off || End(t) <= s.off
    ensures !Overlaps(s, t)
  {
  }

  /** Everything before place k ends before s, everything from it on starts after s. */
  lemma Around(l: seq<Seg>, s: Seg, k: nat)
    requires SortedDisjoint(l) && AllSized(l) && FitsAt(l, s, k)
    ensures forall i :: 0 <= i < |l| ==> if i < k then End(l[i]) <= s.off else End(s) <= l[i].off
  {
    forall i | 0 <= i < |l| ensures if i < k then End(l[i]) <= s.off else End(s) <= l[i].off {
      if i < k - 1 {
        InOrder(l, i, k - 1);
      } else if i > k {
        InOrder(l, k, i);
      }
    }
  }

  /** If the segment fits nowhere it overlaps the last list member that starts before its end. */
  lemma {:induction false} NoFitOverlaps(l: seq<Seg>, s: Seg, j: nat)
    requires j < |l| && (forall k :: 0 <= k <= |l| ==> !FitsAt(l, s, k))
    requires j + 1 < |l| ==> End(s) <= l[j + 1].off
    ensures exists i :: 0 <= i < |l| && Overlaps(s, l[i])
    decreases j
  {
    assert !FitsAt(l, s, j + 1);
    if l[j].off < End(s) {
      assert Overlaps(s, l[j]);
    } else if j > 0 {
      NoFitOverlaps(l, s, j - 1);
    } else {
      assert FitsAt(l, s, 0);
    }
  }

  /** The walk of ooo_insert: empty list, tail, head, then the gaps from the head on. */
  method Search(ooo: seq<Packet>, p: Packet, ghost l: seq<Seg>, ghost s: Seg) returns (k: int)
    requires ooo == ToPackets(l)
    requires forall i :: 0 <= i < |l| ==> (EndsBefore(ooo[i], p) <==> End(l[i]) <= s.off)
    requires forall i :: 0 <= i < |l| ==> (EndsBefore(p, ooo[i]) <==> End(s) <= l[i].off)
    ensures -1 <= k <= |l|
    ensures if k >= 0 then FitsAt(l, s, k) else forall j :: 0 <= j <= |l| ==> !FitsAt(l, s, j)
  {
    hide EndsBefore;
    var n := |ooo|;
    if n == 0 {
      return 0;
    }
    if EndsBefore(ooo[n - 1], p) {
      return n;
    }
    if EndsBefore(p, ooo[0]) {
      return 0;
    }
    var i := 0;
    while i + 1 < n
      invariant 0 <= i < n
      invariant forall j :: 0 <= j <= i ==> !FitsAt(l, s, j)
    {
      if EndsBefore(ooo[i], p) && EndsBefore(p, ooo[i + 1]) {
        return i + 1;
      }
      i := i + 1;
    }
    return -1;
  }

  /** Where ooo_insert links the packet: k is the number of list members before it, -1 if refused.
      It is refused exactly when it overlaps a segment already held. */
  method FindPlace(ooo: seq<Packet>, p: Packet, ghost l: seq<Seg>, ghost s: Seg, ghost lo: int, ghost hi: int)
    returns (k: int)
    requires ooo == ToPackets(l) && p == ToPacket(s)
    requires AllSized(l) && Sized(s) && SortedDisjoint(l)
    requires Within(l, lo, hi) && lo < s.off && End(s) <= hi && hi - lo <= HALF
    ensures -1 <= k <= |l|
    ensures k == -1 <==> exists i :: 0 <= i < |l| && Overlaps(s, l[i])
    ensures k >= 0 ==> SortedDisjoint(l[..k] + [s] + l[k..])
  {
    hide EndsBefore;
    forall i | 0 <= i < |l|
      ensures EndsBefore(ooo[i], p) <==> End(l[i]) <= s.off
      ensures EndsBefore(p, ooo[i]) <==> End(s) <= l[i].off
    {
      EndsBeforeMeans(l[i], s, lo, hi);
      EndsBeforeMeans(s, l[i], lo, hi);
    }
    k := Search(ooo, p, l, s);
    if k >= 0 {
      FitIsDisjoint(l, s, k);
    } else {
      assert !FitsAt(l, s, 0);
      NoFitOverlaps(l, s, |l| - 1);
    }
  }

  // ----- merging -----

  datatype Merged = Merged(rest: seq<Seg>, taken: seq<Seg>, next: int)

  /** What merging the list does when the in-order data ends at m: segments that start before the end
      of the data are out of date and dropped. */
  ghost function Merge(l: seq<Seg>, m: int): Merged {
    if l == [] || l[0].off > m then Merged(l, [], m)
    else if l[0].off < m then Merge(l[1..], m)
    else
      var r := Merge(l[1..], End(l[0]));
      r.(taken := [l[0]] + r.taken)
  }

  lemma {:induction false} MergeTiles(l: seq<Seg>, m: int, hi: int)
    requires SortedDisjoint(l) && AllSized(l) && m <= hi && (forall i :: 0 <= i < |l| ==> End(l[i]) <= hi)
    ensures var r := Merge(l, m);
            && Tiles(r.taken, m, r.next) && AllSized(r.taken) && m <= r.next <= hi
            && |r.rest| <= |l| && r.rest == l[|l| - |r.rest|..]
            && (forall i :: 0 <= i < |r.rest| ==> r.next < r.rest[i].off)
  {
    if l == [] || l[0].off > m {
    } else if l[0].off < m {
      MergeTiles(l[1..], m, hi);
    } else {
      MergeTiles(l[1..], End(l[0]), hi);
      var r := Merge(l[1..], End(l[0]));
      assert ([l[0]] + r.taken)[1..] == r.taken;
    }
  }

  lemma {:induction false} MergeCount(l: seq<Seg>, m: int)
    ensures |Merge(l, m).taken| + |Merge(l, m).rest| <= |l|
  {
    if l == [] || l[0].off > m {
    } else if l[0].off < m {
      MergeCount(l[1..], m);
    } else {
      MergeCount(l[1..], End(l[0]));
    }
  }

  /** What a queue with room for `cap` holds after the segments of l were offered to it in turn. */
  ghost function Offered(q: seq<Seg>, cap: nat, l: seq<Seg>): seq<Seg>
    requires |q| <= cap
  {
    q + l[..if |l| <= cap - |q| then |l| else cap - |q|]
  }

  lemma OfferedStep(q: seq<Seg>, cap: nat, s: Seg, l: seq<Seg>)
    requires |q| <= cap
    ensures |Offered(q, cap, [s])| <= cap
    ensures Offered(Offered(q, cap, [s]), cap, l) == Offered(q, cap, [s] + l)
    ensures Offered(q, cap, [s]) == if |q| < cap then q + [s] else q
  {
    if |q| < cap {
      assert q + [s] + l[..0] == q + [s];
      var k := if |l| <= cap - |q| - 1 then |l| else cap - |q| - 1;
      assert ([s] + l)[..k + 1] == [s] + l[..k];
      assert q + [s] + l[..k] == q + ([s] + l[..k]);
    }
  }

  /** try_merge_ooo.  The test of the enqueue result takes the failure code for success, so the end of
      the in-order data moves on even when the queue is full and the segment is not stored. */
  method TryMerge(ooo: seq<Packet>, q: seq<Packet>, next: U32, cap: nat,
                  ghost l: seq<Seg>, ghost aq: seq<Seg>, ghost m: int, ghost lo: int, ghost hi: int)
    returns (ooo': seq<Packet>, q': seq<Packet>, next': U32, count: nat)
    requires ooo == ToPackets(l) && q == ToPackets(aq) && next == Wrap(m) && |q| <= cap
    requires SortedDisjoint(l) && AllSized(l) && Within(l, lo, hi) && lo < m <= hi && hi - lo <= HALF
    ensures var r := Merge(l, m);
            && ooo' == ToPackets(r.rest) && next' == Wrap(r.next)
            && q' == ToPackets(Offered(aq, cap, r.taken))
            && count == |r.taken|
  {
    hide Wrap, SeqLeq, Offered;
    ghost var lg, ag, mg := l, aq, m;
    ooo', q', next', count := ooo, q, next, 0;
    while ooo' != [] && SeqLeq(ooo'[0].tcpSeq, next')
      invariant ooo' == ToPackets(lg) && q' == ToPackets(ag) && next' == Wrap(mg) && |q'| <= cap
      invariant SortedDisjoint(lg) && AllSized(lg) && Within(lg, lo, hi) && lo < mg <= hi
      invariant Merge(lg, mg).rest == Merge(l, m).rest && Merge(lg, mg).next == Merge(l, m).next
      invariant count + |Merge(lg, mg).taken| == |Merge(l, m).taken|
      invariant Offered(ag, cap, Merge(lg, mg).taken) == Offered(aq, cap, Merge(l, m).taken)
      decreases |ooo'|
    {
      CompareOffsets(lg[0].off, mg, lo, hi);
      var mbuf := ooo'[0];
      ooo' := ooo'[1..];
      if mbuf.tcpSeq != next' {
        lg := lg[1..];
        continue;
      }
      WrapInjective(lg[0].off, mg, lo, hi);
      WrapAdd(mg, |mbuf.payload|);
      OfferedStep(ag, cap, lg[0], Merge(lg[1..], End(lg[0])).taken);
      if |q'| < cap {
        q' := q' + [mbuf];
      }
      next' := Wrap(next' + |mbuf.payload|);
      count := count + 1;
      lg, ag, mg := lg[1..], Offered(ag, cap, [lg[0]]), End(lg[0]);
    }
    if lg != [] {
      CompareOffsets(lg[0].off, mg, lo, hi);
    }
    OfferedNone(ag, cap);
  }

  lemma OfferedNone(q: seq<Seg>, cap: nat)
    requires |q| <= cap
    ensures Offered(q, cap, []) == q
  {
  }

  lemma WrapInjective(a: int, b: int, lo: int, hi: int)
    requires lo < a <= hi && lo < b <= hi && hi - lo <= HALF
    ensures Wrap(a) == Wrap(b) <==> a == b
  {
  }
}

/** The receive side as a state over absolute offsets: what the 32-bit code is proved to do. */
module ReceiveState {
  import opened Common
  import opened SeqNum
  import opened Reassembly

  /** head: end of what the application has read; merged: end of the in-order data; wnd: the window offered. */
  datatype Recv = Recv(base: int, head: int, merged: int, wnd: int,
                       queue: seq<Seg>, ooo: seq<Seg>, delivered: seq<Seg>)

  datatype Config = Config(size: nat, cap: nat)

  const FAILED: int := -2

  const TCP_INITIAL_WINDOW: U32 := 14600

  ghost predicate Ok(st: Recv, c: Config) {
    && c.size + MAX_PAYLOAD <= HALF
    && st.base <= st.head <= st.merged <= st.head + c.size
    && 0 <= st.wnd < HALF
    && |st.queue| <= c.cap && AllSized(st.queue) && TotalLen(st.queue) <= st.merged - st.head
    && AllSized(st.ooo) && SortedDisjoint(st.ooo)
    && Within(st.ooo, st.merged - MAX_PAYLOAD, st.head + c.size)
    && (forall i :: 0 <= i < |st.ooo| ==> st.merged < End(st.ooo[i]))
  }

  /** Everything accepted so far is either read or waiting, in order and without a gap. */
  ghost predicate Contiguous(st: Recv) {
    Tiles(st.delivered, st.base, st.head) && Tiles(st.queue, st.head, st.merged)
  }

  ghost predicate OverlapsHeld(st: Recv, s: Seg) {
    exists i :: 0 <= i < |st.ooo| && Overlaps(s, st.ooo[i])
  }

  /** l with s linked in at a place that keeps it sorted. */
  ghost predicate Linked(l: seq<Seg>, s: Seg, l': seq<Seg>) {
    exists k :: 0 <= k <= |l| && l' == l[..k] + [s] + l[k..] && SortedDisjoint(l')
  }

  /** Effect of rb_put on a segment that ends after the in-order data. */
  ghost predicate PutEffect(st: Recv, c: Config, s: Seg, st': Recv, ret: int)
    requires |st.queue| <= c.cap
  {
    if End(s) > st.head + c.size then
      st' == st && ret == FAILED
    else if s.off == st.merged then
      var r := Merge(st.ooo, End(s));
      && st' == st.(merged := r.next, ooo := r.rest, queue := Offered(st.queue, c.cap, [s] + r.taken))
      && ret == 1 + |r.taken|
    else if OverlapsHeld(st, s) then
      st' == st && ret == FAILED
    else
      st' == st.(ooo := st'.ooo) && Linked(st.ooo, s, st'.ooo) && ret == 0
  }

  /** The queue has a place for the segment and for all it lets in from the out-of-order list. */
  ghost predicate HasRoom(st: Recv, c: Config, s: Seg) {
    End(s) <= st.head + c.size && s.off == st.merged ==>
      |st.queue| + 1 + |Merge(st.ooo, End(s)).taken| <= c.cap
  }

  lemma PutKeepsOk(st: Recv, c: Config, s: Seg, st': Recv, ret: int)
    requires Ok(st, c) && Sized(s) && st.merged < End(s) && PutEffect(st, c, s, st', ret)
    ensures Ok(st', c)
    ensures st'.merged >= st.merged
  {
    if End(s) <= st.head + c.size && s.off == st.merged {
      PutInOrderOk(st, c, s, st', ret);
    }
  }

  lemma PutInOrderOk(st: Recv, c: Config, s: Seg, st': Recv, ret: int)
    requires Ok(st, c) && Sized(s) && st.merged < End(s) && PutEffect(st, c, s, st', ret)
    requires End(s) <= st.head + c.size && s.off == st.merged
    ensures Ok(st', c) && st'.merged >= st.merged
  {
    hide Overlaps, Linked;
    var r := Merge(st.ooo, End(s));
    MergeTiles(st.ooo, End(s), st.head + c.size);
    var l := [s] + r.taken;
    assert l[1..] == r.taken;
    OfferedLen(st.queue, c.cap, l);
    TilesLen(l, st.merged, r.next);
  }

  lemma OfferedLen(q: seq<Seg>, cap: nat, l: seq<Seg>)
    requires |q| <= cap
    ensures TotalLen(Offered(q, cap, l)) <= TotalLen(q) + TotalLen(l)
  {
    var k := if |l| <= cap - |q| then |l| else cap - |q|;
    TotalLenAppend(q, l[..k]);
    TotalLenAppend(l[..k], l[k..]);
    assert l[..k] + l[k..] == l;
  }

  /** In-order delivery survives a put exactly when the queue had room for what the put made in-order. */
  lemma PutContiguous(st: Recv, c: Config, s: Seg, st': Recv, ret: int)
    requires Ok(st, c) && Sized(s) && st.merged < End(s) && PutEffect(st, c, s, st', ret)
    requires Contiguous(st)
    ensures Contiguous(st') <==> HasRoom(st, c, s)
  {
    if End(s) <= st.head + c.size && s.off == st.merged {
      var r := Merge(st.ooo, End(s));
      MergeTiles(st.ooo, End(s), st.head + c.size);
      var l := [s] + r.taken;
      assert l[1..] == r.taken;
      var k := if |l| <= c.cap - |st.queue| then |l| else c.cap - |st.queue|;
      TruncatedTiling(st.queue, l, k, st.head, st.merged, r.next);
    }
  }

  /** Why the room matters: a one-place queue holding byte 0 loses byte 1 and still counts it as received. */
  lemma FullQueueLoses()
    ensures exists st, c, s, st', ret ::
              && Ok(st, c) && Contiguous(st) && Sized(s) && st.merged < End(s)
              && PutEffect(st, c, s, st', ret) && ret == 1 && !Contiguous(st')
  {
    var a, s := Seg(0, [7]), Seg(1, [9]);
    var st, c := Recv(0, 0, 1, 99, [a], [], []), Config(100, 1);
    assert [a][1..] == [];
    var st' := st.(merged := 2);
    assert Merge([], 2) == Merged([], [], 2);
    assert [s] + [] == [s] && Offered([a], 1, [s]) == [a];
    assert PutEffect(st, c, s, st', 1);
    PutContiguous(st, c, s, st', 1);
  }

  // ----- packets and reads -----

  /** The absolute segment a packet stands for: the one whose end is within 2^31 of the in-order data. */
  ghost function Unwrap(st: Recv, p: Packet): Seg {
    Seg(st.merged + Diff(Wrap(p.tcpSeq + |p.payload|), Wrap(st.merged)) - |p.payload|, p.payload)
  }

  lemma UnwrapIsPacket(st: Recv, p: Packet)
    ensures ToPacket(Unwrap(st, p)) == p
    ensures -HALF <= End(Unwrap(st, p)) - st.merged < HALF
  {
    hide SeqNum.Wrap, SeqNum.Diff;
    var d := Diff(Wrap(p.tcpSeq + |p.payload|), Wrap(st.merged));
    WrapAdd(st.merged, d);
    WrapCancel(st.merged + d, p.tcpSeq, |p.payload|);
  }

  /** A packet is read back as the segment that was sent exactly if that ends less than 2^31 away from the in-order
      data. */
  lemma UnwrapRecovers(st: Recv, s: Seg)
    ensures Unwrap(st, ToPacket(s)) == s <==> -HALF <= End(s) - st.merged < HALF
  {
    hide SeqNum.Wrap, SeqNum.Diff;
    WrapAdd(s.off, |s.payload|);
    UnwrapIsPacket(st, ToPacket(s));
    if -HALF <= End(s) - st.merged < HALF {
      DiffOfOffsets(End(s), st.merged);
    }
  }

  /** A packet one turn of the 32-bit numbers old is read as a new one with old bytes. */
  lemma OldPacketReadsAsNew(st: Recv, s: Seg)
    requires -HALF <= End(s) + MODULUS - st.merged < HALF
    ensures Unwrap(st, ToPacket(s)) == Seg(s.off + MODULUS, s.payload)
  {
    WrapTurn(s.off);
    UnwrapRecovers(st, Seg(s.off + MODULUS, s.payload));
    assert ToPacket(Seg(s.off + MODULUS, s.payload)) == ToPacket(s);
  }

  /** The segment is put in the buffer and the window recomputed. */
  ghost predicate AcceptEffect(st: Recv, c: Config, s: Seg, st': Recv)
    requires |st.queue| <= c.cap
  {
    exists st1, ret :: PutEffect(st, c, s, st1, ret) && st' == st1.(wnd := st1.head + c.size - st1.merged)
  }

  /** Effect of process_tcp_payload: old and overlong segments are ignored. */
  ghost predicate ArriveEffect(st: Recv, c: Config, s: Seg, st': Recv)
    requires |st.queue| <= c.cap
  {
    if End(s) <= st.merged || End(s) > st.merged + st.wnd then st' == st else AcceptEffect(st, c, s, st')
  }

  /** Effect of q_recv. */
  ghost function AfterRead(st: Recv, c: Config): Recv {
    var st1 := if st.queue == [] then st
               else st.(queue := st.queue[1..], head := st.head + |st.queue[0].payload|,
                        delivered := st.delivered + [st.queue[0]]);
    st1.(wnd := st1.head + c.size - st1.merged)
  }

  /** The offered window ends where the buffer ends. */
  ghost predicate WindowSynced(st: Recv, c: Config) {
    st.merged + st.wnd == st.head + c.size
  }

  lemma ReadKeeps(st: Recv, c: Config)
    requires Ok(st, c)
    ensures Ok(AfterRead(st, c), c)
    ensures Contiguous(st) ==> Contiguous(AfterRead(st, c))
  {
    if st.queue != [] && Contiguous(st) {
      TilesAppend(st.delivered, [st.queue[0]], st.base, st.head, End(st.queue[0]));
      assert [st.queue[0]][1..] == [];
    }
  }

  lemma ArriveKeeps(st: Recv, c: Config, s: Seg, st': Recv)
    requires Ok(st, c) && Contiguous(st) && Sized(s) && ArriveEffect(st, c, s, st')
    requires HasRoom(st, c, s)
    ensures Ok(st', c) && Contiguous(st') && st'.delivered == st.delivered && st'.merged >= st.merged
  {
    if !(End(s) <= st.merged || End(s) > st.merged + st.wnd) {
      var st1, ret :| PutEffect(st, c, s, st1, ret) && st' == st1.(wnd := st1.head + c.size - st1.merged);
      PutKeepsOk(st, c, s, st1, ret);
      PutContiguous(st, c, s, st1, ret);
    }
  }

  /** The right edge of the window is the end of the buffer after every accepted segment and every read,
      and once it is there it never moves left (section 3.8.6 of RFC 9293). */
  lemma WindowEdge(st: Recv, c: Config, s: Seg, st': Recv)
    requires Ok(st, c) && Sized(s) && ArriveEffect(st, c, s, st')
    ensures st' == st || WindowSynced(st', c)
    ensures WindowSynced(st, c) ==> WindowSynced(st', c) && st'.merged + st'.wnd >= st.merged + st.wnd
    ensures WindowSynced(AfterRead(st, c), c)
    ensures WindowSynced(st, c) ==>
              AfterRead(st, c).merged + AfterRead(st, c).wnd >= st.merged + st.wnd
  {
  }

  // ----- the byte stream -----

  ghost predicate Carries(stream: seq<Byte>, base: int, s: Seg) {
    base <= s.off && End(s) - base <= |stream| && s.payload == stream[s.off - base..End(s) - base]
  }

  ghost predicate AllCarry(stream: seq<Byte>, base: int, l: seq<Seg>) {
    forall i :: 0 <= i < |l| ==> Carries(stream, base, l[i])
  }

  ghost function Bytes(l: seq<Seg>): seq<Byte> {
    if l == [] then [] else l[0].payload + Bytes(l[1..])
  }

  lemma CarryFirst(stream: seq<Byte>, base: int, l: seq<Seg>)
    requires AllCarry(stream, base, l) && l != []
    ensures Carries(stream, base, l[0]) && AllCarry(stream, base, l[1..])
  {
  }

  lemma JoinSlices(s: seq<Byte>, i: nat, j: nat, k: nat)
    requires i <= j <= k <= |s|
    ensures s[i..k] == s[i..j] + s[j..k]
  {
  }

  lemma FirstOfTiling(l: seq<Seg>, a: int, b: int)
    requires Tiles(l, a, b)
    ensures if l == [] then a == b && Bytes(l) == []
            else l[0].off == a && Tiles(l[1..], End(l[0]), b) && Bytes(l) == l[0].payload + Bytes(l[1..])
  {
  }

  /** The first window is a constant.  The right edge it offers is taken back by the first accepted segment or read
      exactly if the buffer is smaller. */
  lemma FirstWindow(base: int, c: Config, s: Seg, st': Recv)
    requires c.size + MAX_PAYLOAD <= HALF && Sized(s)
    requires var st := Recv(base, base, base, TCP_INITIAL_WINDOW, [], [], []); ArriveEffect(st, c, s, st') && st' != st
    ensures st'.merged + st'.wnd < base + TCP_INITIAL_WINDOW <==> c.size < TCP_INITIAL_WINDOW
    ensures var r := AfterRead(Recv(base, base, base, TCP_INITIAL_WINDOW, [], [], []), c);
            r.merged + r.wnd < base + TCP_INITIAL_WINDOW <==> c.size < TCP_INITIAL_WINDOW
  {
  }

  /** A tiling by true segments spells the stream. */
  lemma {:induction false} TilingSpells(stream: seq<Byte>, base: int, l: seq<Seg>, a: int, b: int)
    requires Tiles(l, a, b) && AllCarry(stream, base, l) && base <= a
    requires l != [] || b - base <= |stream|
    ensures a <= b && b - base <= |stream|
    ensures Bytes(l) == stream[a - base..b - base]
  {
    hide AllCarry, Tiles, Bytes;
    FirstOfTiling(l, a, b);
    if l != [] {
      CarryFirst(stream, base, l);
      var m := End(l[0]);
      TilingSpells(stream, base, l[1..], m, b);
      JoinSlices(stream, a - base, m - base, b - base);
    }
  }
}

/** Arrival order does not matter: what is held and what becomes in-order data, whatever order segments come in. */
module ArrivalOrder {
  import opened Common
  import opened SeqNum
  import opened Reassembly
  import opened ReceiveState

  // ----- tilings and sorted lists -----

  lemma {:induction false} TilingSorted(l: seq<Seg>, a: int, b: int)
    requires Tiles(l, a, b) && AllSized(l)
    ensures SortedDisjoint(l) && a <= b && forall i :: 0 <= i < |l| ==> a <= l[i].off && End(l[i]) <= b
  {
    if l != [] {
      TilingSorted(l[1..], End(l[0]), b);
      forall i, j | 0 <= i < j < |l| ensures End(l[i]) <= l[j].off {
        assert l[j] == l[1..][j - 1];
        if i > 0 {
          InOrder(l[1..], i - 1, j - 1);
        }
      }
      forall i | 0 <= i < |l| ensures a <= l[i].off && End(l[i]) <= b {
        if i > 0 {
          assert l[i] == l[1..][i - 1];
        }
      }
    }
  }

  lemma InRest(l: seq<Seg>, x: Seg)
    requires SortedDisjoint(l) && AllSized(l) && l != [] && x in l
    ensures x == l[0] || (x in l[1..] && x != l[0] && End(l[0]) <= x.off)
  {
    var i :| 0 <= i < |l| && l[i] == x;
    if i > 0 {
      InOrder(l, 0, i);
      assert l[1..][i - 1] == x;
    }
  }

  lemma RestSorted(l: seq<Seg>)
    requires SortedDisjoint(l) && AllSized(l) && l != []
    ensures SortedDisjoint(l[1..]) && AllSized(l[1..]) && l[0] !in l[1..] && forall x :: x in l[1..] ==> x in l
  {
    forall i | 0 <= i < |l[1..]| ensures l[1..][i] != l[0] {
      InOrder(l, 0, i + 1);
    }
  }

  // ----- one put -----

  /** A segment that overlaps nothing held and lies beyond the in-order data, inside the buffer, is held, and nothing
      held before is lost. */
  lemma PutHolds(st: Recv, c: Config, t: Seg, st': Recv, ret: int)
    requires Ok(st, c) && Sized(t) && PutEffect(st, c, t, st', ret)
    requires st.merged < t.off && End(t) <= st.head + c.size && forall x :: x in st.ooo ==> !Overlaps(t, x)
    ensures ret == 0 && st'.merged == st.merged && st'.queue == st.queue
    ensures multiset(st'.ooo) == multiset(st.ooo) + multiset{t}
  {
    var k :| 0 <= k <= |st.ooo| && st'.ooo == st.ooo[..k] + [t] + st.ooo[k..];
    assert st.ooo == st.ooo[..k] + st.ooo[k..];
  }

  /** Merging: a held segment that starts where the in-order data comes to end joins it, one beyond stays held, and
      exactly the segments that join make the data grow. */
  lemma {:induction false} MergeKeeps(l: seq<Seg>, m: int, x: Seg)
    requires SortedDisjoint(l) && AllSized(l) && x in l
    ensures var r := Merge(l, m); (x in r.rest <==> r.next < x.off) && x.off != r.next
    ensures x.off == m ==> var r := Merge(l, m); End(x) <= r.next && r.taken != [] && r.taken[0] == x
  {
    RestSorted(l);
    InRest(l, x);
    if l[0].off > m {
      if x != l[0] {
        InRest(l, x);
      }
    } else {
      var m' := if l[0].off < m then m else End(l[0]);
      MergeNext(l[1..], m');
      if x != l[0] {
        MergeKeeps(l[1..], m', x);
      } else {
        MergeRest(l[1..], m', x);
      }
    }
  }

  lemma {:induction false} MergeNext(l: seq<Seg>, m: int)
    ensures Merge(l, m).next >= m
  {
    if l == [] || l[0].off > m {
    } else if l[0].off < m {
      MergeNext(l[1..], m);
    } else {
      MergeNext(l[1..], End(l[0]));
    }
  }

  lemma {:induction false} MergeRest(l: seq<Seg>, m: int, x: Seg)
    requires x !in l
    ensures x !in Merge(l, m).rest && x !in Merge(l, m).taken
  {
    if l == [] || l[0].off > m {
    } else if l[0].off < m {
      MergeRest(l[1..], m, x);
    } else {
      MergeRest(l[1..], End(l[0]), x);
    }
  }

  /** No put takes a segment off the list that starts at or after the end of the in-order data. */
  lemma NothingLost(st: Recv, c: Config, s: Seg, st': Recv, ret: int, x: Seg)
    requires Ok(st, c) && Sized(s) && st.merged < End(s) && PutEffect(st, c, s, st', ret) && x in st.ooo
    ensures x.off >= st'.merged ==> x in st'.ooo
    ensures s.off != st.merged ==> x in st'.ooo
  {
    if End(s) <= st.head + c.size && s.off == st.merged {
      MergeKeeps(st.ooo, End(s), x);
    } else if End(s) <= st.head + c.size && !OverlapsHeld(st, s) {
      var k :| 0 <= k <= |st.ooo| && st'.ooo == st.ooo[..k] + [s] + st.ooo[k..];
      assert st.ooo == st.ooo[..k] + st.ooo[k..];
    }
  }

  /** Two segments that come in the wrong order: the later one is held, and the one that fills the gap before it makes
      both in-order data. */
  lemma GapFilled(st: Recv, c: Config, t: Seg, st1: Recv, ret1: int, s: Seg, st2: Recv, ret2: int)
    requires Ok(st, c) && Contiguous(st) && Sized(t) && Sized(s) && |st.queue| + |st.ooo| + 2 <= c.cap
    requires st.merged < t.off && End(t) <= st.head + c.size && forall x :: x in st.ooo ==> !Overlaps(t, x)
    requires s.off == st.merged && End(s) == t.off
    requires PutEffect(st, c, t, st1, ret1) && |st1.queue| <= c.cap && PutEffect(st1, c, s, st2, ret2)
    ensures st2.merged >= End(t) && Contiguous(st2)
    ensures st.queue + [s, t] <= st2.queue && Bytes(st.queue) + s.payload + t.payload <= Bytes(st2.queue)
  {
    PutHolds(st, c, t, st1, ret1);
    assert t in multiset(st1.ooo);
    assert |st1.ooo| == |multiset(st1.ooo)| == |st.ooo| + 1;
    PutKeepsOk(st, c, t, st1, ret1);
    MergeKeeps(st1.ooo, End(s), t);
    MergeCount(st1.ooo, End(s));
    PutContiguous(st1, c, s, st2, ret2);
    var l := [s] + Merge(st1.ooo, End(s)).taken;
    assert l[..|l|] == l && l[..2] == [s, t];
    BytesPair(st.queue, s, t, l);
  }

  lemma BytesPair(q: seq<Seg>, s: Seg, t: Seg, l: seq<Seg>)
    requires |l| >= 2 && l[0] == s && l[1] == t
    ensures q + [s, t] <= q + l && Bytes(q) + s.payload + t.payload <= Bytes(q + l)
  {
    BytesAppend(q, l);
    hide Bytes;
    BytesStep(l);
    BytesStep(l[1..]);
    var rest := Bytes(l[1..][1..]);
    Regroup(s.payload, t.payload, rest);
    Regroup(Bytes(q), s.payload, t.payload);
    Regroup(Bytes(q), s.payload + t.payload, rest);
    assert l[..2] == [s, t] && q + l == q + [s, t] + l[2..];
  }

  lemma {:induction false} BytesAppend(l: seq<Seg>, m: seq<Seg>)
    ensures Bytes(l + m) == Bytes(l) + Bytes(m)
  {
    hide Bytes;
    if l == [] {
      assert l + m == m;
      BytesStep(l);
    } else {
      BytesAppend(l[1..], m);
      assert (l + m)[1..] == l[1..] + m;
      BytesStep(l);
      BytesStep(l + m);
      Regroup(l[0].payload, Bytes(l[1..]), Bytes(m));
    }
  }

  lemma BytesStep(l: seq<Seg>)
    ensures Bytes(l) == if l == [] then [] else l[0].payload + Bytes(l[1..])
  {
  }

  lemma Regroup(a: seq<Byte>, b: seq<Byte>, c: seq<Byte>)
    ensures a + (b + c) == a + b + c
  {
  }

  // ----- any order -----

  /** Of the segments of tiling l that were seen, exactly those beyond the first one missing are held. */
  ghost predicate HeldOf(ooo: seq<Seg>, m: seq<Seg>, seen: set<Seg>) {
    forall x :: x in ooo <==> x in m && x in seen
  }

  /** Merging takes what follows without a gap, and leaves the rest. */
  lemma {:induction false} MergeSeen(ooo: seq<Seg>, m: seq<Seg>, a: int, b: int, seen: set<Seg>) returns (j: nat)
    requires Tiles(m, a, b) && AllSized(m) && SortedDisjoint(ooo) && AllSized(ooo) && HeldOf(ooo, m, seen)
    ensures j <= |m| && Merge(ooo, a).taken == m[..j] && Tiles(m[..j], a, Merge(ooo, a).next)
    ensures (forall i :: 0 <= i < j ==> m[i] in seen) && (j < |m| ==> m[j] !in seen)
    ensures HeldOf(Merge(ooo, a).rest, m[j..], seen)
  {
    hide Merge, HeldOf, SortedDisjoint, AllSized;
    TilingSorted(m, a, b);
    if m != [] && m[0] in seen {
      FirstHeld(ooo, m, a, b, seen);
      RestHeld(ooo, m, seen);
      RestSorted(ooo);
      RestSorted(m);
      MergeFirst(ooo, a);
      var i := MergeSeen(ooo[1..], m[1..], End(m[0]), b, seen);
      OneMore(m, i);
      j := i + 1;
    } else {
      j := 0;
      assert m[..0] == [] && m[0..] == m;
      NoneToMerge(ooo, m, a, b, seen);
    }
  }

  lemma MergeFirst(ooo: seq<Seg>, a: int)
    requires ooo != [] && ooo[0].off == a
    ensures var r := Merge(ooo[1..], End(ooo[0])); Merge(ooo, a) == r.(taken := [ooo[0]] + r.taken)
  {
  }

  lemma OneMore(m: seq<Seg>, j: nat)
    requires m != [] && j <= |m| - 1
    ensures m[..j + 1] == [m[0]] + m[1..][..j] && m[..j + 1][1..] == m[1..][..j] && m[j + 1..] == m[1..][j..]
    ensures forall i :: 0 < i <= j ==> m[i] == m[1..][i - 1]
    ensures j + 1 < |m| ==> m[j + 1] == m[1..][j]
  {
  }

  /** If the first segment is missing, nothing held joins. */
  lemma NoneToMerge(ooo: seq<Seg>, m: seq<Seg>, a: int, b: int, seen: set<Seg>)
    requires Tiles(m, a, b) && AllSized(m) && SortedDisjoint(m) && HeldOf(ooo, m, seen) && (m != [] ==> m[0] !in seen)
    ensures Merge(ooo, a) == Merged(ooo, [], a)
  {
    if ooo != [] {
      assert ooo[0] in m;
      InRest(m, ooo[0]);
    }
  }

  lemma FirstHeld(ooo: seq<Seg>, m: seq<Seg>, a: int, b: int, seen: set<Seg>)
    requires m != [] && Tiles(m, a, b) && AllSized(m) && SortedDisjoint(m) && SortedDisjoint(ooo) && AllSized(ooo)
    requires HeldOf(ooo, m, seen) && m[0] in seen
    ensures ooo != [] && ooo[0] == m[0] && m[0].off == a
  {
    assert m[0] in ooo;
    assert ooo[0] in m;
    InRest(ooo, m[0]);
    InRest(m, ooo[0]);
  }

  lemma RestHeld(ooo: seq<Seg>, m: seq<Seg>, seen: set<Seg>)
    requires m != [] && ooo != [] && ooo[0] == m[0] && HeldOf(ooo, m, seen)
    requires SortedDisjoint(ooo) && AllSized(ooo) && SortedDisjoint(m) && AllSized(m)
    ensures HeldOf(ooo[1..], m[1..], seen)
  {
    RestSorted(ooo);
    RestSorted(m);
    forall x ensures x in ooo[1..] <==> x in m[1..] && x in seen {
      if x in ooo[1..] {
        InRest(m, x);
      }
      if x in m[1..] && x in seen {
        InRest(ooo, x);
      }
    }
  }

  /** Of the segments of l, those in `seen` have come: the first k make up the in-order data, segment k is missing, the
      others are held. */
  ghost predicate Received(st: Recv, q: seq<Seg>, l: seq<Seg>, a: int, seen: set<Seg>, k: nat) {
    && k <= |l| && st.queue == q + l[..k] && Tiles(l[..k], a, st.merged)
    && (forall i :: 0 <= i < k ==> l[i] in seen) && (k < |l| ==> l[k] !in seen)
    && HeldOf(st.ooo, l[k..], seen)
  }

  /** A receiver that waits for the segments of tiling l and has room for them. */
  ghost predicate Ready(st: Recv, c: Config, q: seq<Seg>, l: seq<Seg>, a: int, b: int) {
    && Ok(st, c) && WindowSynced(st, c) && Tiles(l, a, b) && AllSized(l) && b <= st.head + c.size && |q| + |l| <= c.cap
  }

  lemma SplitTiling(l: seq<Seg>, k: nat, a: int, m: int, b: int)
    requires k <= |l| && Tiles(l, a, b) && AllSized(l) && Tiles(l[..k], a, m)
    ensures Tiles(l[k..], m, b) && AllSized(l[k..]) && SortedDisjoint(l)
    ensures forall i :: 0 <= i < k ==> End(l[i]) <= m
    ensures forall i :: k <= i < |l| ==> m <= l[i].off
  {
    assert l == l[..k] + l[k..];
    TilesAppend(l[..k], l[k..], a, m, b);
    TilingSorted(l, a, b);
    TilingSorted(l[..k], a, m);
    TilingSorted(l[k..], m, b);
    forall i | 0 <= i < k ensures End(l[i]) <= m { assert l[i] == l[..k][i]; }
    forall i | k <= i < |l| ensures m <= l[i].off { assert l[i] == l[k..][i - k]; }
  }

  /** Segments that were merged or are held already change nothing. */
  lemma SeenAgain(st: Recv, c: Config, q: seq<Seg>, l: seq<Seg>, a: int, b: int, seen: set<Seg>, k: nat, s: Seg, st': Recv)
    requires Ready(st, c, q, l, a, b) && Received(st, q, l, a, seen, k) && s in l && s in seen
    requires |st.queue| <= c.cap && ArriveEffect(st, c, s, st')
    ensures st' == st
  {
    hide Ok, Merge;
    SplitTiling(l, k, a, st.merged, b);
    var i :| 0 <= i < |l| && l[i] == s;
    if i >= k {
      assert l[k..][i - k] == s;
      assert s in st.ooo;
      var j :| 0 <= j < |st.ooo| && st.ooo[j] == s;
      assert Overlaps(s, st.ooo[j]);
      if i == k {
        assert false;
      }
      InOrder(l, k, i);
    }
  }

  /** A segment beyond the one that is missing is held. */
  lemma HoldAhead(st: Recv, c: Config, q: seq<Seg>, l: seq<Seg>, a: int, b: int, seen: set<Seg>, k: nat, i: nat, st': Recv)
    requires Ready(st, c, q, l, a, b) && Received(st, q, l, a, seen, k) && k < i < |l| && l[i] !in seen
    requires |st.queue| <= c.cap && ArriveEffect(st, c, l[i], st')
    ensures Ready(st', c, q, l, a, b) && Received(st', q, l, a, seen + {l[i]}, k)
  {
    var s := l[i];
    SplitTiling(l, k, a, st.merged, b);
    TilingSorted(l, a, b);
    InOrder(l, k, i);
    Apart(l, k, i, st.ooo, seen);
    var st1, ret :| PutEffect(st, c, s, st1, ret) && st' == st1.(wnd := st1.head + c.size - st1.merged);
    PutHolds(st, c, s, st1, ret);
    PutKeepsOk(st, c, s, st1, ret);
    HeldMore(st.ooo, st1.ooo, l[k..], seen, s, i - k);
    InOrder(l, k, i);
  }

  lemma Apart(l: seq<Seg>, k: nat, i: nat, ooo: seq<Seg>, seen: set<Seg>)
    requires SortedDisjoint(l) && k <= i < |l| && l[i] !in seen && HeldOf(ooo, l[k..], seen)
    ensures forall x :: x in ooo ==> !Overlaps(l[i], x)
  {
    forall x | x in ooo ensures !Overlaps(l[i], x) {
      assert x in l[k..];
      var j :| 0 <= j < |l[k..]| && l[k..][j] == x;
      if k + j < i {
        InOrder(l, k + j, i);
      } else if i < k + j {
        InOrder(l, i, k + j);
      }
    }
  }

  lemma HeldMore(ooo: seq<Seg>, ooo': seq<Seg>, m: seq<Seg>, seen: set<Seg>, s: Seg, i: nat)
    requires HeldOf(ooo, m, seen) && i < |m| && m[i] == s && multiset(ooo') == multiset(ooo) + multiset{s}
    ensures HeldOf(ooo', m, seen + {s})
  {
    forall x ensures x in ooo' <==> x in m && x in seen + {s} {
      assert x in ooo' <==> x in multiset(ooo');
      assert x in ooo <==> x in multiset(ooo);
    }
  }

  /** The missing segment comes: all that follow it without a gap become in-order data. */
  lemma FillNext(st: Recv, c: Config, q: seq<Seg>, l: seq<Seg>, a: int, b: int, seen: set<Seg>, k: nat, st': Recv) returns (k': nat)
    requires Ready(st, c, q, l, a, b) && Received(st, q, l, a, seen, k) && k < |l|
    requires |st.queue| <= c.cap && ArriveEffect(st, c, l[k], st')
    ensures Ready(st', c, q, l, a, b) && Received(st', q, l, a, seen + {l[k]}, k')
  {
    hide Ok, Merge, Offered, HeldOf, AllSized, SortedDisjoint, ArriveEffect, Tiles;
    var s := l[k];
    SplitTiling(l, k, a, st.merged, b);
    NextOf(l, k, st.merged, b);
    HeldAfter(st.ooo, l[k..], seen);
    OkSorted(st, c);
    var r := l[k + 1..];
    var j := MergeSeen(st.ooo, r, End(s), b, seen + {s});
    JoinFields(st, c, s, st');
    OfferedAll(st.queue, c.cap, [s] + r[..j]);
    k' := k + 1 + j;
    Grown(l, q, k, r, j, a, st.merged, st'.merged, seen + {s});
  }

  /** The segment that continues the in-order data arrives. */
  lemma JoinFields(st: Recv, c: Config, s: Seg, st': Recv)
    requires Ok(st, c) && WindowSynced(st, c) && Sized(s) && s.off == st.merged && End(s) <= st.head + c.size
    requires |st.queue| <= c.cap && ArriveEffect(st, c, s, st')
    ensures Ok(st', c) && WindowSynced(st', c) && st'.head == st.head
    ensures var r := Merge(st.ooo, End(s));
            st'.merged == r.next && st'.ooo == r.rest && st'.queue == Offered(st.queue, c.cap, [s] + r.taken)
  {
    hide Ok, Merge, Offered;
    var st1, ret :| PutEffect(st, c, s, st1, ret) && st' == st1.(wnd := st1.head + c.size - st1.merged);
    PutKeepsOk(st, c, s, st1, ret);
    StillOk(st1, c);
  }

  lemma StillOk(st: Recv, c: Config)
    requires Ok(st, c)
    ensures Ok(st.(wnd := st.head + c.size - st.merged), c)
  {
  }

  lemma OkSorted(st: Recv, c: Config)
    requires Ok(st, c)
    ensures SortedDisjoint(st.ooo) && AllSized(st.ooo)
  {
  }

  lemma OfferedAll(q: seq<Seg>, cap: nat, l: seq<Seg>)
    requires |q| + |l| <= cap
    ensures Offered(q, cap, l) == q + l
  {
    assert l[..|l|] == l;
  }

  lemma NextOf(l: seq<Seg>, k: nat, m: int, b: int)
    requires k < |l| && Tiles(l[k..], m, b) && AllSized(l[k..])
    ensures l[k..][0] == l[k] && l[k..][1..] == l[k + 1..] && Sized(l[k]) && l[k].off == m < End(l[k]) <= b
    ensures Tiles(l[k + 1..], End(l[k]), b) && AllSized(l[k + 1..]) && SortedDisjoint(l[k..])
  {
    assert l[k..][0] == l[k] && l[k..][1..] == l[k + 1..];
    TilingSorted(l[k..], m, b);
  }

  /** The in-order part after segment k and the j segments behind it have joined. */
  lemma Grown(l: seq<Seg>, q: seq<Seg>, k: nat, r: seq<Seg>, j: nat, a: int, m: int, m': int, seen: set<Seg>)
    requires k < |l| && r == l[k + 1..] && j <= |r| && Tiles(l[..k], a, m) && l[k].off == m && Tiles(r[..j], End(l[k]), m')
    requires (forall i :: 0 <= i < k ==> l[i] in seen) && l[k] in seen
    requires (forall i :: 0 <= i < j ==> r[i] in seen) && (j < |r| ==> r[j] !in seen)
    ensures var k' := k + 1 + j;
            && q + l[..k] + ([l[k]] + r[..j]) == q + l[..k'] && Tiles(l[..k'], a, m')
            && (forall i :: 0 <= i < k' ==> l[i] in seen) && (k' < |l| ==> l[k'] !in seen)
            && r[j..] == l[k'..]
  {
    JoinRun(l, q, k, j);
    TilesAppend(l[..k], [l[k]] + r[..j], a, m, m');
    assert ([l[k]] + r[..j])[1..] == r[..j];
    forall i | 0 <= i < k + 1 + j ensures l[i] in seen {
      if i > k {
        assert l[i] == r[i - k - 1];
      }
    }
  }

  lemma HeldAfter(ooo: seq<Seg>, m: seq<Seg>, seen: set<Seg>)
    requires m != [] && SortedDisjoint(m) && AllSized(m) && HeldOf(ooo, m, seen) && m[0] !in seen
    ensures HeldOf(ooo, m[1..], seen + {m[0]})
  {
    RestSorted(m);
    forall x ensures x in ooo <==> x in m[1..] && x in seen + {m[0]} {
      if x in m {
        InRest(m, x);
      }
    }
  }

  lemma JoinRun(l: seq<Seg>, q: seq<Seg>, k: nat, j: nat)
    requires k < |l| && j <= |l| - k - 1
    ensures q + l[..k] + ([l[k]] + l[k + 1..][..j]) == q + l[..k + 1 + j]
    ensures l[..k] + ([l[k]] + l[k + 1..][..j]) == l[..k + 1 + j]
  {
  }

  /** The arrivals up to some point. */
  ghost function Seen(arrivals: seq<Seg>): set<Seg> { set x | x in arrivals }

  ghost predicate Arrivals(run: seq<Recv>, c: Config, arrivals: seq<Seg>) {
    && |run| == |arrivals| + 1
    && forall i :: 0 <= i < |arrivals| ==> |run[i].queue| <= c.cap && ArriveEffect(run[i], c, arrivals[i], run[i + 1])
  }

  lemma {:induction false} AnyOrderSoFar(run: seq<Recv>, c: Config, l: seq<Seg>, b: int, arrivals: seq<Seg>, n: nat) returns (k: nat)
    requires Arrivals(run, c, arrivals) && n <= |arrivals| && forall i :: 0 <= i < |arrivals| ==> arrivals[i] in l
    requires Ready(run[0], c, run[0].queue, l, run[0].merged, b) && run[0].ooo == []
    ensures Ready(run[n], c, run[0].queue, l, run[0].merged, b)
    ensures Received(run[n], run[0].queue, l, run[0].merged, Seen(arrivals[..n]), k)
  {
    hide Ready, Received, ArriveEffect;
    var q, a := run[0].queue, run[0].merged;
    if n == 0 {
      k := 0;
      NothingSeen(run[0], l);
      assert arrivals[..0] == [];
    } else {
      var st, s, seen := run[n - 1], arrivals[n - 1], Seen(arrivals[..n - 1]);
      k := AnyOrderSoFar(run, c, l, b, arrivals, n - 1);
      assert Seen(arrivals[..n]) == seen + {s} by { assert arrivals[..n] == arrivals[..n - 1] + [s]; }
      k := OneArrival(st, c, q, l, a, b, seen, k, s, run[n]);
    }
  }

  lemma NothingSeen(st: Recv, l: seq<Seg>)
    requires st.ooo == []
    ensures Received(st, st.queue, l, st.merged, Seen([]), 0)
  {
    assert l[..0] == [];
  }

  lemma OneArrival(st: Recv, c: Config, q: seq<Seg>, l: seq<Seg>, a: int, b: int, seen: set<Seg>, k: nat, s: Seg, st': Recv)
    returns (k': nat)
    requires Ready(st, c, q, l, a, b) && Received(st, q, l, a, seen, k) && s in l
    requires |st.queue| <= c.cap && ArriveEffect(st, c, s, st')
    ensures Ready(st', c, q, l, a, b) && Received(st', q, l, a, seen + {s}, k')
  {
    hide Ready, ArriveEffect;
    k' := k;
    if s in seen {
      SeenAgain(st, c, q, l, a, b, seen, k, s, st');
      assert seen + {s} == seen;
    } else {
      var i :| 0 <= i < |l| && l[i] == s;
      if i == k {
        k' := FillNext(st, c, q, l, a, b, seen, k, st');
      } else {
        HoldAhead(st, c, q, l, a, b, seen, k, i, st');
      }
    }
  }

  lemma NothingHeld(ooo: seq<Seg>, seen: set<Seg>)
    ensures HeldOf(ooo, [], seen) <==> ooo == []
  {
    if ooo != [] {
      assert ooo[0] in ooo;
    }
  }

  /** The segments of a tiling may come in any order, any number of times: once each has come, all of them are in-order
      data, in their order, and nothing is held any more. */
  lemma AnyOrder(run: seq<Recv>, c: Config, l: seq<Seg>, b: int, arrivals: seq<Seg>)
    requires Arrivals(run, c, arrivals) && forall i :: 0 <= i < |arrivals| ==> arrivals[i] in l
    requires Ready(run[0], c, run[0].queue, l, run[0].merged, b) && run[0].ooo == []
    requires forall i :: 0 <= i < |l| ==> l[i] in arrivals
    ensures var st := run[|arrivals|];
            st.merged == b && st.ooo == [] && st.queue == run[0].queue + l && Bytes(st.queue) == Bytes(run[0].queue) + Bytes(l)
  {
    hide ArriveEffect, Ok;
    var k := AnyOrderSoFar(run, c, l, b, arrivals, |arrivals|);
    assert arrivals[..|arrivals|] == arrivals;
    assert l[..|l|] == l && l[|l|..] == [];
    BytesAppend(run[0].queue, l);
    var st := run[|arrivals|];
    TilesLen(l, run[0].merged, b);
    TilesLen(l, run[0].merged, st.merged);
    NothingHeld(st.ooo, Seen(arrivals));
  }
}

module RecvBuffer {
  import opened Common
  import opened SeqNum
  import opened Reassembly
  import opened ReceiveState

  /** The receive buffer of an established stream with the stream fields that follow it. */
  class RcvBuff {
    const size: nat
    const cap: nat
    var headSeq: U32
    var mergedNext: U32
    var mergedQ: seq<Packet>
    var oooList: seq<Packet>
    var rcvNxt: U32
    var rcvWnd: U32

    ghost var st: Recv

    ghost function Cfg(): Config { Config(size, cap) }

    /** The buffer fields are the 32-bit form of the state. */
    ghost predicate Represents()
      reads this
    {
      && headSeq == Wrap(st.head) && mergedNext == Wrap(st.merged)
      && mergedQ == ToPackets(st.queue) && oooList == ToPackets(st.ooo)
    }

    ghost predicate Valid()
      reads this
    {
      Ok(st, Cfg()) && Represents() && rcvNxt == mergedNext && rcvWnd == st.wnd
    }

    constructor (initSeq: U32, size: nat, cap: nat)
      requires size + MAX_PAYLOAD <= HALF
      ensures Valid() && Contiguous(st)
      ensures this.size == size && this.cap == cap
      ensures st == Recv(initSeq, initSeq, initSeq, TCP_INITIAL_WINDOW, [], [], [])
    {
      this.size, this.cap := size, cap;
      headSeq, mergedNext, rcvNxt := initSeq, initSeq, initSeq;
      rcvWnd := TCP_INITIAL_WINDOW;
      mergedQ, oooList := [], [];
      st := Recv(initSeq, initSeq, initSeq, TCP_INITIAL_WINDOW, [], [], []);
    }

    method RbPut(p: Packet) returns (ret: int)
      requires Ok(st, Cfg()) && Represents()
      requires 0 < |p.payload| <= MAX_PAYLOAD && st.merged < End(Unwrap(st, p))
      modifies this`mergedNext, this`mergedQ, this`oooList, this`st
      ensures Represents()
      ensures PutEffect(old(st), Cfg(), Unwrap(old(st), p), st, ret)
    {
      ghost var s := Unwrap(st, p);
      ghost var lo, hi := st.merged - MAX_PAYLOAD, st.head + size;
      UnwrapIsPacket(st, p);
      var next := Wrap(p.tcpSeq + |p.payload|);
      WrapAdd(s.off, |s.payload|);
      WrapAdd(st.head, size);
      DiffOfOffsets(End(s), hi);
      if SeqGt(next, Wrap(headSeq + size)) {
        return FAILED;
      }
      WrapInjective(s.off, st.merged, lo, hi);
      if p.tcpSeq == mergedNext {
        ret := PutInOrder(p, s);
      } else {
        ret := PutOutOfOrder(p, s);
      }
    }

    method PutInOrder(p: Packet, ghost s: Seg) returns (ret: int)
      requires Ok(st, Cfg()) && Represents() && Sized(s) && p == ToPacket(s)
      requires s.off == st.merged && End(s) <= st.head + size
      modifies this`mergedNext, this`mergedQ, this`oooList, this`st
      ensures Represents()
      ensures PutEffect(old(st), Cfg(), s, st, ret)
    {
      hide Ok, Wrap, Merge, Offered, SortedDisjoint, AllSized, Within;
      ghost var lo, hi := st.merged - MAX_PAYLOAD, st.head + size;
      OooFacts(st, Cfg());
      ghost var r := Merge(st.ooo, End(s));
      OfferedStep(st.queue, cap, s, r.taken);
      WrapAdd(s.off, |s.payload|);
      if |mergedQ| < cap {
        mergedQ := mergedQ + [p];
      }
      mergedNext := Wrap(p.tcpSeq + |p.payload|);
      var count;
      oooList, mergedQ, mergedNext, count :=
        TryMerge(oooList, mergedQ, mergedNext, cap, st.ooo, Offered(st.queue, cap, [s]), End(s), lo, hi);
      st := st.(merged := r.next, ooo := r.rest, queue := Offered(st.queue, cap, [s] + r.taken));
      return 1 + count;
    }

    method PutOutOfOrder(p: Packet, ghost s: Seg) returns (ret: int)
      requires Ok(st, Cfg()) && Represents() && Sized(s) && p == ToPacket(s)
      requires s.off != st.merged && st.merged < End(s) <= st.head + size
      modifies this`oooList, this`st
      ensures Represents()
      ensures PutEffect(old(st), Cfg(), s, st, ret)
    {
      hide Ok, Wrap, SortedDisjoint;
      ghost var lo, hi := st.merged - MAX_PAYLOAD, st.head + size;
      OooFacts(st, Cfg());
      var k := FindPlace(oooList, p, st.ooo, s, lo, hi);
      if k < 0 {
        return FAILED;
      }
      LinkPackets(st.ooo, s, k);
      oooList := oooList[..k] + [p] + oooList[k..];
      ghost var l' := st.ooo[..k] + [s] + st.ooo[k..];
      assert Linked(st.ooo, s, l');
      st := st.(ooo := l');
      return 0;
    }

    /** process_tcp_payload: positive exactly when new in-order data became available. */
    method ProcessPayload(p: Packet) returns (ret: int)
      requires Valid() && 0 < |p.payload| <= MAX_PAYLOAD
      modifies this
      ensures Valid()
      ensures ArriveEffect(old(st), Cfg(), Unwrap(old(st), p), st)
      ensures ret > 0 <==> st.merged > old(st).merged
      ensures var e := End(Unwrap(old(st), p));
              ret == FAILED <==> e <= old(st).merged || e > old(st).merged + old(st).wnd
    {
      hide AcceptEffect;
      ghost var s := Unwrap(st, p);
      UnwrapIsPacket(st, p);
      WrapAdd(s.off, |s.payload|);
      DiffOfOffsets(End(s), st.merged);
      if SeqLeq(Wrap(p.tcpSeq + |p.payload|), rcvNxt) {
        return FAILED;
      }
      WrapAdd(st.merged, rcvWnd);
      DiffOfOffsets(End(s), st.merged + rcvWnd);
      if SeqGt(Wrap(p.tcpSeq + |p.payload|), Wrap(rcvNxt + rcvWnd)) {
        return FAILED;
      }
      ret := Accept(p);
    }

    method Accept(p: Packet) returns (ret: int)
      requires Valid() && 0 < |p.payload| <= MAX_PAYLOAD && st.merged < End(Unwrap(st, p))
      modifies this
      ensures Valid()
      ensures AcceptEffect(old(st), Cfg(), Unwrap(old(st), p), st)
      ensures ret >= 0 && (ret > 0 <==> st.merged > old(st).merged)
    {
      hide PutEffect, Wrap;
      ghost var st0, s := st, Unwrap(st, p);
      var prev := rcvNxt;
      ret := RbPut(p);
      ghost var st1 := st;
      PutKeepsOk(st0, Cfg(), s, st1, ret);
      PutAdvances(st0, Cfg(), s, st1, ret);
      WindowArithmetic(st1.head, st1.merged, size);
      rcvNxt := mergedNext;
      rcvWnd := Wrap(size - Wrap(mergedNext - headSeq));
      st := st1.(wnd := st1.head + size - st1.merged);
      assert PutEffect(st0, Cfg(), s, st1, ret);
      DiffOfOffsets(st1.merged, st0.merged);
      if SeqLeq(rcvNxt, prev) {
        ret := 0;
      }
    }

    /** q_recv on a connected stream. */
    method QRecv() returns (p: Option<Packet>)
      requires Valid()
      modifies this
      ensures Valid()
      ensures st == AfterRead(old(st), Cfg())
      ensures p == if old(st).queue == [] then None else Some(ToPacket(old(st).queue[0]))
    {
      hide Ok, SeqNum.Wrap;
      ReadKeeps(st, Cfg());
      ghost var st1 := AfterRead(st, Cfg());
      OkBounds(st1, Cfg());
      if mergedQ == [] {
        p := None;
      } else {
        p := Some(mergedQ[0]);
        WrapAdd(st.head, |mergedQ[0].payload|);
        headSeq := Wrap(headSeq + |mergedQ[0].payload|);
        mergedQ := mergedQ[1..];
      }
      WindowArithmetic(st1.head, st1.merged, size);
      rcvWnd := Wrap(size - Wrap(mergedNext - headSeq));
      st := st1;
    }
  }

  lemma OkBounds(st: Recv, c: Config)
    requires Ok(st, c)
    ensures c.size + MAX_PAYLOAD <= HALF && st.head <= st.merged <= st.head + c.size
  {
  }

  lemma OooFacts(st: Recv, c: Config)
    requires Ok(st, c)
    ensures AllSized(st.ooo) && SortedDisjoint(st.ooo) && |st.queue| <= c.cap
    ensures Within(st.ooo, st.merged - MAX_PAYLOAD, st.head + c.size)
    ensures st.head + c.size - (st.merged - MAX_PAYLOAD) <= HALF
  {
  }

  lemma LinkPackets(l: seq<Seg>, s: Seg, k: nat)
    requires k <= |l|
    ensures ToPackets(l[..k] + [s] + l[k..]) == ToPackets(l)[..k] + [ToPacket(s)] + ToPackets(l)[k..]
  {
  }

  lemma WindowArithmetic(head: int, merged: int, size: nat)
    requires head <= merged <= head + size && size < HALF
    ensures Wrap(size - Wrap(Wrap(merged) - Wrap(head))) == head + size - merged
  {
    WrapSub(merged, head);
  }

  lemma PutAdvances(st: Recv, c: Config, s: Seg, st': Recv, ret: int)
    requires Ok(st, c) && Sized(s) && st.merged < End(s) && PutEffect(st, c, s, st', ret)
    ensures st.merged <= st'.merged < st.merged + HALF
    ensures ret > 0 <==> st'.merged > st.merged
  {
    if End(s) <= st.head + c.size && s.off == st.merged {
      MergeTiles(st.ooo, End(s), st.head + c.size);
    }
  }
}
