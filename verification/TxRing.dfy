/**
 Handing packets to the network card: a staging array in front of the card, filled from the high and then the
 low queue, drained by bursts of which the card accepts any part.
 */
module TxRing {

  datatype Slot = Null | Mbuf(packet: nat)

  const MAX_PKT_BURST: nat := 256      // slots of the staging array
  const MAX_PKT_TX_BURST: nat := 64        // packets staged before a burst is due
  const MAX_TX_CHECK_BATCH: nat := 5      // bursts in one call while draining the high queue

  function Max(a: nat, b: nat): nat { if a < b then b else a }

  /** A card that accepts nothing. */
  ghost predicate Refuses(card: nat -> nat) { forall i :: card(i) == 0 }

  /** A card that accepts whatever the array can hold. */
  ghost predicate Generous(card: nat -> nat) { forall i :: card(i) >= MAX_PKT_BURST }

  /** What a call sends to such a card, from an empty array: five full bursts of the high queue, or all of it and of the
      low queue what fills up the last burst. */
  ghost function Capacity(high: nat, low: nat): nat {
    var most := MAX_TX_CHECK_BATCH * MAX_PKT_TX_BURST;
    if high >= most then most
    else
      var space := MAX_PKT_TX_BURST - high % MAX_PKT_TX_BURST;
      high + if low < space then low else space
  }

  lemma CapacityAll(high: nat, low: nat)
    ensures high + low <= MAX_PKT_TX_BURST ==> Capacity(high, low) == high + low
  {
  }

  lemma Remaining(high: nat, bursts: nat, staged: nat)
    requires high == MAX_PKT_TX_BURST * bursts + staged && staged < MAX_PKT_TX_BURST
    ensures high % MAX_PKT_TX_BURST == staged
  {
  }

  /** Since burst n a full burst was offered. */
  ghost predicate FullBurst(offers: seq<nat>, n: nat) {
    exists i :: n <= i < |offers| && offers[i] >= MAX_PKT_TX_BURST
  }

  lemma FullBurstStays(offers: seq<nat>, n: nat, offers': seq<nat>, m: nat)
    requires m <= n && offers <= offers'
    ensures FullBurst(offers, n) ==> FullBurst(offers', m)
  {
    if FullBurst(offers, n) {
      var i :| n <= i < |offers| && offers[i] >= MAX_PKT_TX_BURST;
      assert offers'[i] == offers[i];
    }
  }

  /** A packet that was staged, with the queue it came from. */
  datatype Taken = Taken(high: bool, slot: Slot)

  ghost function Slots(l: seq<Taken>): seq<Slot> {
    if l == [] then [] else Slots(l[..|l| - 1]) + [l[|l| - 1].slot]
  }

  /** The packets from one queue, in order. */
  ghost function From(l: seq<Taken>, high: bool): seq<Slot> {
    if l == [] then [] else From(l[..|l| - 1], high) + if l[|l| - 1].high == high then [l[|l| - 1].slot] else []
  }

  lemma TakenOne(l: seq<Taken>, x: Taken)
    ensures Slots(l + [x]) == Slots(l) + [x.slot]
    ensures From(l + [x], x.high) == From(l, x.high) + [x.slot] && From(l + [x], !x.high) == From(l, !x.high)
  {
    assert (l + [x])[..|l|] == l;
    assert From(l, !x.high) + [] == From(l, !x.high);
  }

  /** Staging the head of a queue. */
  lemma TakeHead(l: seq<Taken>, q: seq<Slot>, high: bool)
    requires q != []
    ensures From(l + [Taken(high, q[0])], high) + q[1..] == From(l, high) + q
    ensures From(l + [Taken(high, q[0])], !high) == From(l, !high)
    ensures Slots(l + [Taken(high, q[0])]) == Slots(l) + [q[0]]
  {
    TakenOne(l, Taken(high, q[0]));
    assert q == [q[0]] + q[1..];
  }

  lemma SnocStaged(sent: seq<Slot>, staged: seq<Slot>, s: Slot)
    ensures sent + (staged + [s]) == (sent + staged) + [s]
  {
  }

  lemma MoveOver(x: seq<Slot>, q: seq<Slot>)
    requires q != []
    ensures (x + [q[0]]) + q[1..] == x + q
  {
    assert q == [q[0]] + q[1..];
  }

  lemma SplitAt(s: seq<Slot>, sent: seq<Slot>, k: nat)
    requires k <= |s|
    ensures (sent + s[..k]) + s[k..] == sent + s
  {
    assert s == s[..k] + s[k..];
  }

  class Port {
    const burst: array<Slot>
    var num: nat              // tx_num
    var high: seq<Slot>
    var low: seq<Slot>
    var sent: seq<Slot>       // what the card accepted, in order
    var calls: nat            // bursts so far
    var overrun: bool         // a packet was to be staged behind the end of the array

    /** All packets ever staged, in order, and all ever put in the queues. */
    ghost var taken: seq<Taken>
    /** How many packets each burst offered to the card. */
    ghost var offers: seq<nat>
    ghost var allHigh: seq<Slot>
    ghost var allLow: seq<Slot>

    ghost predicate Sized()
      reads this
    {
      burst.Length == MAX_PKT_BURST && num <= MAX_PKT_BURST
    }

    ghost function Staged(): seq<Slot>
      requires Sized()
      reads this, burst
    {
      burst[..num]
    }

    /** Sent and then staged packets are those that were staged, in order; with what waits in its queue, each
        queue's share of them is all that was ever put in it. */
    ghost predicate Valid()
      reads this, burst
    {
      && Sized() && Slots(taken) == sent + Staged() && |offers| == calls
      && From(taken, true) + high == allHigh && From(taken, false) + low == allLow
    }

    /** What is staged is what the last burst offered and the card did not accept. */
    ghost predicate Refused(card: nat -> nat)
      reads this
    {
      calls > 0 && |offers| == calls && num == offers[calls - 1] - card(calls - 1)
    }

    /** Everything in the order it is to go out. */
    ghost function Line(): seq<Slot>
      requires Sized()
      reads this, burst
    {
      sent + Staged() + high + low
    }

    constructor (high: seq<Slot>, low: seq<Slot>)
      ensures Valid() && fresh(burst) && num == 0 && !overrun
      ensures this.high == high && this.low == low && sent == [] && calls == 0
      ensures allHigh == high && allLow == low
    {
      burst := new Slot[MAX_PKT_BURST](_ => Null);
      num, sent, calls, overrun := 0, [], 0, false;
      this.high, this.low := high, low;
      taken, allHigh, allLow, offers := [], high, low, [];
    }

    /** The stack puts packets in the queues. */
    method Enqueue(more: seq<Slot>, moreLow: seq<Slot>)
      requires Valid()
      modifies this`high, this`low, this`allHigh, this`allLow
      ensures Valid()
      ensures high == old(high) + more && low == old(low) + moreLow
      ensures allHigh == old(allHigh) + more && allLow == old(allLow) + moreLow
    {
      hide Slots, From;
      high, low := high + more, low + moreLow;
      allHigh, allLow := allHigh + more, allLow + moreLow;
    }

    /** The packets behind the accepted ones move to the front of the array. */
    method Shift(accepted: nat, left: nat)
      requires burst.Length == MAX_PKT_BURST && accepted + left <= MAX_PKT_BURST
      modifies burst
      ensures burst[..left] == old(burst[accepted..accepted + left])
      ensures forall j :: left <= j < MAX_PKT_BURST ==> burst[j] == old(burst[j])
    {
      var i := 0;
      while i < left
        invariant 0 <= i <= left
        invariant burst[..i] == old(burst[accepted..accepted + i])
        invariant forall j :: i <= j < MAX_PKT_BURST ==> burst[j] == old(burst[j])
      {
        burst[i] := burst[i + accepted];
        i := i + 1;
      }
    }

    method Clear(accepted: nat)
      requires accepted <= burst.Length
      modifies burst
      ensures burst[accepted..] == old(burst[accepted..])
      ensures forall j :: 0 <= j < accepted ==> burst[j] == Null
    {
      var i := 0;
      while i < accepted
        invariant 0 <= i <= accepted
        invariant forall j :: accepted <= j < burst.Length ==> burst[j] == old(burst[j])
        invariant forall j :: 0 <= j < i ==> burst[j] == Null
      {
        burst[i] := Null;
        i := i + 1;
      }
    }

    /** One burst: the card takes as many of the staged packets as it is willing to.  The last burst of a call also
        clears the slots of the packets that went out before the rest moves. */
    method Burst(card: nat -> nat, clear: bool) returns (accepted: nat)
      requires Valid()
      modifies this`num, this`sent, this`calls, this`offers, burst
      ensures Valid()
      ensures sent + Staged() == old(sent + Staged())
      ensures accepted == (if card(old(calls)) <= old(num) then card(old(calls)) else old(num))
      ensures num == old(num) - accepted && |sent| == |old(sent)| + accepted
      ensures clear ==> forall j :: num <= j < accepted ==> burst[j] == Null
      ensures calls == old(calls) + 1 && offers == old(offers) + [old(num)]
    {
      hide Slots, From;
      accepted := if card(calls) <= num then card(calls) else num;
      calls, offers := calls + 1, offers + [num];
      ghost var all := burst[..num];
      SplitAt(all, sent, accepted);
      assert all[..accepted] == burst[..accepted] && all[accepted..] == burst[accepted..num];
      sent := sent + burst[..accepted];
      Compact(accepted, num - accepted, clear);
      num := num - accepted;
    }

    /** The rest moves over the accepted packets, whose slots may be cleared before. */
    method Compact(accepted: nat, left: nat, clear: bool)
      requires burst.Length == MAX_PKT_BURST && accepted + left <= MAX_PKT_BURST
      modifies burst
      ensures burst[..left] == old(burst[accepted..accepted + left])
      ensures clear ==> forall j :: left <= j < accepted ==> burst[j] == Null
    {
      ghost var rest := burst[accepted..accepted + left];
      assert rest == burst[accepted..][..left];
      if clear {
        Clear(accepted);
        assert burst[accepted..accepted + left] == burst[accepted..][..left];
      }
      Shift(accepted, left);
    }

    /** Stage the packet at the head of the high queue, or of the low queue, which is only taken from when the high
        queue is empty. */
    method Stage(fromHigh: bool)
      requires Valid() && num < MAX_PKT_BURST
      requires if fromHigh then high != [] else high == [] && low != []
      modifies this`num, this`high, this`low, this`taken, burst
      ensures Valid() && num == old(num) + 1
      ensures if fromHigh then high == old(high)[1..] && low == old(low) else low == old(low)[1..] && high == []
      ensures Line() == old(Line())
    {
      hide Slots, From;
      TakeHead(taken, if fromHigh then high else low, fromHigh);
      ghost var staged := Staged();
      var s := if fromHigh then high[0] else low[0];
      SnocStaged(sent, staged, s);
      MoveOver(sent + staged, if fromHigh then high else low);
      burst[num] := s;
      num := num + 1;
      assert Staged() == staged + [s];
      taken := taken + [Taken(fromHigh, s)];
      if fromHigh {
        high := high[1..];
      } else {
        assert sent + Staged() + [] == sent + Staged() && sent + staged + [] == sent + staged;
        low := low[1..];
      }
    }

    /** A full staging array is offered to the card until it is empty or the batch is spent. */
    method BurstUntilEmpty(card: nat -> nat, loops: nat) returns (total: nat, loops': nat, stop: bool)
      requires Valid() && loops < MAX_TX_CHECK_BATCH && num > 0
      modifies this`num, this`sent, this`calls, this`offers, burst
      ensures Valid()
      ensures sent + Staged() == old(sent + Staged())
      ensures |sent| == |old(sent)| + total && num + total == old(num)
      ensures loops < loops' <= MAX_TX_CHECK_BATCH && calls == old(calls) + (loops' - loops)
      ensures stop <==> loops' == MAX_TX_CHECK_BATCH
      ensures !stop ==> num == 0
      ensures Refuses(card) ==> total == 0
      ensures num > 0 ==> Refused(card)
      ensures old(offers) + [old(num)] <= offers
      ensures Generous(card) ==> num == 0 && loops' == loops + 1
    {
      hide Slots, From;
      total, loops', stop := 0, loops, false;
      while num > 0
        invariant Valid()
        invariant sent + Staged() == old(sent + Staged())
        invariant |sent| == |old(sent)| + total && num + total == old(num)
        invariant loops <= loops' < MAX_TX_CHECK_BATCH && calls == old(calls) + (loops' - loops)
        invariant num > 0 || loops < loops'
        invariant !stop
        invariant Refuses(card) ==> total == 0
        invariant if loops == loops' then offers == old(offers) && num == old(num) else old(offers) + [old(num)] <= offers
        invariant Generous(card) ==> loops == loops' || (num == 0 && loops' == loops + 1)
        decreases MAX_TX_CHECK_BATCH - loops'
      {
        var accepted := Burst(card, false);
        total, loops' := total + accepted, loops' + 1;
        if loops' >= MAX_TX_CHECK_BATCH {
          stop := true;
          return;
        }
      }
    }

    /** One packet of the high queue is staged; a full burst is offered to the card. */
    method HighOne(card: nat -> nat, loops: nat) returns (t: nat, loops': nat, stop: bool)
      requires Valid() && num < MAX_PKT_BURST && high != [] && loops < MAX_TX_CHECK_BATCH
      modifies this`num, this`sent, this`calls, this`offers, this`high, this`low, this`taken, burst
      ensures Valid() && Line() == old(Line()) && high == old(high)[1..] && low == old(low)
      ensures |sent| == |old(sent)| + t && num + t == old(num) + 1
      ensures old(num) + 1 < MAX_PKT_TX_BURST ==> t == 0 && !stop && loops' == loops
      ensures old(num) + 1 >= MAX_PKT_TX_BURST && !stop ==> num == 0
      ensures loops <= loops' <= MAX_TX_CHECK_BATCH && calls == old(calls) + (loops' - loops) && (stop <==> loops' == MAX_TX_CHECK_BATCH)
      ensures Refuses(card) ==> t == 0
      ensures stop && num > 0 ==> Refused(card)
      ensures old(offers) <= offers && (old(num) + 1 >= MAX_PKT_TX_BURST ==> FullBurst(offers, old(calls)))
      ensures Generous(card) && old(num) + 1 >= MAX_PKT_TX_BURST ==> num == 0 && loops' == loops + 1
    {
      hide Slots, From;
      t, loops', stop := 0, loops, false;
      Stage(true);
      if num >= MAX_PKT_TX_BURST {
        t, loops', stop := BurstUntilEmpty(card, loops);
        assert offers[old(calls)] >= MAX_PKT_TX_BURST;
      }
    }

    /** Draining the high queue.  With the array full, the first packet would go behind its end. */
    method DrainHigh(card: nat -> nat) returns (total: nat, stop: bool)
      requires Valid() && !overrun
      modifies this`num, this`sent, this`calls, this`offers, this`high, this`low, this`taken, this`overrun, burst
      ensures Valid()
      ensures Line() == old(Line()) && low == old(low)
      ensures |sent| == |old(sent)| + total
      ensures overrun <==> old(num) == MAX_PKT_BURST && old(high) != []
      ensures overrun ==> stop
      ensures old(high) == [] ==> !stop
      ensures overrun || old(high) == [] ==> num == old(num) && high == old(high)
      ensures !overrun ==> num <= Max(old(num) + 1, MAX_PKT_TX_BURST)
      ensures !stop ==> high == [] && num <= Max(old(num), MAX_PKT_TX_BURST - 1)
      ensures old(calls) <= calls <= old(calls) + MAX_TX_CHECK_BATCH
      ensures Refuses(card) ==> total == 0
      ensures Refuses(card) && !overrun && old(high) != [] && old(num) + |old(high)| >= MAX_PKT_TX_BURST ==>
                num == Max(old(num) + 1, MAX_PKT_TX_BURST)
      ensures old(offers) <= offers
      ensures stop && !overrun ==> calls == old(calls) + MAX_TX_CHECK_BATCH && FullBurst(offers, old(calls)) && (num > 0 ==> Refused(card))
      ensures Generous(card) && stop && !overrun ==> num == 0 && total > 0
      ensures Generous(card) && !stop ==> num + total == old(num) + |old(high)|
      ensures Generous(card) && old(num) == 0 ==>
                if stop then |old(high)| >= MAX_TX_CHECK_BATCH * MAX_PKT_TX_BURST == total
                else |old(high)| < MAX_TX_CHECK_BATCH * MAX_PKT_TX_BURST && num == |old(high)| % MAX_PKT_TX_BURST
    {
      hide Slots, From;
      total, stop := 0, false;
      var loops := 0;
      if num == MAX_PKT_BURST && high != [] {
        overrun, stop := true, true;
        return;
      }
      while high != []
        invariant Valid()
        invariant Line() == old(Line()) && low == old(low)
        invariant |sent| == |old(sent)| + total
        invariant num < MAX_PKT_BURST || high == []
        invariant num <= Max(old(num), MAX_PKT_TX_BURST - 1)
        invariant loops < MAX_TX_CHECK_BATCH && calls == old(calls) + loops
        invariant !stop && !overrun
        invariant Refuses(card) ==> total == 0 && num + |high| == old(num) + |old(high)|
        invariant old(high) == [] ==> num == old(num) && high == []
        invariant Refuses(card) ==> old(num) <= num && (old(num) + 1 >= MAX_PKT_TX_BURST ==> num == old(num))
        invariant old(offers) <= offers
        invariant num + total + |high| == old(num) + |old(high)|
        invariant Generous(card) && old(num) == 0 ==>
                    total == MAX_PKT_TX_BURST * loops && num < MAX_PKT_TX_BURST
        decreases |high|
      {
        var t;
        t, loops, stop := HighOne(card, loops);
        total := total + t;
        if stop {
          return;
        }
      }
      if Generous(card) && old(num) == 0 {
        Remaining(|old(high)|, loops, num);
      }
    }

    method DrainLow(card: nat -> nat) returns (total: nat)
      requires Valid() && !overrun && high == []
      modifies this`num, this`sent, this`calls, this`offers, this`high, this`low, this`taken, this`overrun, burst
      ensures Valid()
      ensures Line() == old(Line()) && high == []
      ensures |sent| == |old(sent)| + total
      ensures overrun <==> old(num) == MAX_PKT_BURST && old(low) != []
      ensures overrun ==> num == old(num) && low == old(low)
      ensures !overrun ==> num <= Max(old(num) + 1, MAX_PKT_TX_BURST)
      ensures old(low) == [] ==> num == old(num) && low == []
      ensures calls <= old(calls) + 1
      ensures Refuses(card) ==> total == 0
      ensures old(offers) <= offers && (low != [] && !overrun ==> FullBurst(offers, old(calls)))
      ensures !overrun ==> num + total + |low| == old(num) + |old(low)|
      ensures !overrun && low != [] && Generous(card) ==> total > 0
      ensures !overrun && old(num) < MAX_PKT_TX_BURST ==>
                |low| == if old(num) + |old(low)| <= MAX_PKT_TX_BURST then 0 else old(num) + |old(low)| - MAX_PKT_TX_BURST
    {
      hide Slots, From;
      total := 0;
      if num == MAX_PKT_BURST && low != [] {
        overrun := true;
        return;
      }
      while low != []
        invariant Valid()
        invariant Line() == old(Line()) && high == []
        invariant |sent| == |old(sent)| && total == 0
        invariant num < MAX_PKT_BURST || low == []
        invariant num <= Max(old(num), MAX_PKT_TX_BURST - 1)
        invariant calls == old(calls) && !overrun
        invariant old(low) == [] ==> num == old(num) && low == []
        invariant offers == old(offers) && num + |low| == old(num) + |old(low)|
        decreases |low|
      {
        Stage(false);
        if num >= MAX_PKT_TX_BURST {
          total := Burst(card, false);
          assert offers[old(calls)] >= MAX_PKT_TX_BURST;
          break;
        }
      }
    }

    /** One call: whatever parts of its bursts the card accepts, no packet is lost, doubled or overtaken, the
        staging array grows by one at most once it holds a full burst, and the card is called at most seven times.
        What is still staged was offered in the last burst and not accepted; a packet waits in the high queue only
        after five bursts, in the low queue only after a full one.  The call stays inside the array exactly if the array has a free place or the queues are empty. */
    method CheckTxRing(card: nat -> nat) returns (total: nat)
      requires Valid() && !overrun
      modifies this`num, this`sent, this`calls, this`offers, this`high, this`low, this`taken, this`overrun, burst
      ensures Valid()
      ensures overrun <==> old(num) == MAX_PKT_BURST && (old(high) != [] || old(low) != [])
      ensures Line() == old(Line())
      ensures old(sent) <= sent && |sent| == |old(sent)| + total
      ensures low != old(low) ==> high == []
      ensures overrun ==> num == old(num)
      ensures !overrun ==> num <= Max(old(num) + 1, MAX_PKT_TX_BURST)
      ensures old(calls) <= calls <= old(calls) + MAX_TX_CHECK_BATCH + 2
      ensures Refuses(card) ==> total == 0
      ensures Refuses(card) && !overrun && old(num) + |old(high)| >= MAX_PKT_TX_BURST && old(high) != [] ==>
                num == Max(old(num) + 1, MAX_PKT_TX_BURST) && |high| == old(num) + |old(high)| - num
      ensures !overrun && num > 0 ==> calls > old(calls) && Refused(card)
      ensures !overrun && high != [] ==> calls == old(calls) + MAX_TX_CHECK_BATCH
      ensures !overrun && low != [] ==> FullBurst(offers, old(calls))
      ensures Generous(card) && !overrun ==>
                num == 0 && (total > 0 <==> old(num) > 0 || old(high) != [] || old(low) != [])
      ensures Generous(card) && old(num) == 0 ==> total == Capacity(|old(high)|, |old(low)|)
    {
      hide Slots, From;
      ghost var s0, rest := sent, Staged() + high + low;
      LineOf(sent, Staged(), high, low);
      total := CheckQueues(card);
      LineOf(sent, Staged(), high, low);
      PrefixOf(s0, rest, sent, Staged() + high + low);
    }

    method CheckQueues(card: nat -> nat) returns (total: nat)
      requires Valid() && !overrun
      modifies this`num, this`sent, this`calls, this`offers, this`high, this`low, this`taken, this`overrun, burst
      ensures Valid()
      ensures overrun <==> old(num) == MAX_PKT_BURST && (old(high) != [] || old(low) != [])
      ensures Line() == old(Line()) && |sent| == |old(sent)| + total
      ensures low != old(low) ==> high == []
      ensures overrun ==> num == old(num)
      ensures !overrun ==> num <= Max(old(num) + 1, MAX_PKT_TX_BURST)
      ensures old(calls) <= calls <= old(calls) + MAX_TX_CHECK_BATCH + 2
      ensures Refuses(card) ==> total == 0
      ensures Refuses(card) && !overrun && old(num) + |old(high)| >= MAX_PKT_TX_BURST && old(high) != [] ==>
                num == Max(old(num) + 1, MAX_PKT_TX_BURST) && |high| == old(num) + |old(high)| - num
      ensures !overrun && num > 0 ==> calls > old(calls) && Refused(card)
      ensures !overrun && high != [] ==> calls == old(calls) + MAX_TX_CHECK_BATCH
      ensures !overrun && low != [] ==> FullBurst(offers, old(calls))
      ensures Generous(card) && !overrun ==>
                num == 0 && (total > 0 <==> old(num) > 0 || old(high) != [] || old(low) != [])
      ensures Generous(card) && old(num) == 0 ==> total == Capacity(|old(high)|, |old(low)|)
    {
      hide Slots, From;
      var stop;
      total, stop := DrainHigh(card);
      if stop {
        return;
      }
      ghost var n := calls;
      var t := DrainRest(card);
      FullBurstStays(offers, n, offers, old(calls));
      total := total + t;
    }

    /** The low queue, and the burst that ends a call. */
    method DrainRest(card: nat -> nat) returns (total: nat)
      requires Valid() && !overrun && high == []
      modifies this`num, this`sent, this`calls, this`offers, this`high, this`low, this`taken, this`overrun, burst
      ensures Valid()
      ensures Line() == old(Line()) && high == [] && |sent| == |old(sent)| + total
      ensures overrun <==> old(num) == MAX_PKT_BURST && old(low) != []
      ensures overrun ==> num == old(num)
      ensures !overrun ==> num <= Max(old(num) + 1, MAX_PKT_TX_BURST)
      ensures old(calls) <= calls <= old(calls) + 2
      ensures Refuses(card) ==> total == 0 && (old(low) == [] ==> num == old(num) && low == [])
      ensures !overrun && num > 0 ==> calls > old(calls) && Refused(card)
      ensures !overrun && low != [] ==> FullBurst(offers, old(calls))
      ensures Generous(card) && !overrun ==> num == 0 && total + |low| == old(num) + |old(low)|
      ensures !overrun && old(num) < MAX_PKT_TX_BURST ==>
                |low| == if old(num) + |old(low)| <= MAX_PKT_TX_BURST then 0 else old(num) + |old(low)| - MAX_PKT_TX_BURST
      ensures !overrun && low != [] && Generous(card) ==> total > 0
      ensures !overrun && num > 0 ==> forall j :: num <= j < MAX_PKT_BURST && j < offers[calls - 1] - num ==> burst[j] == Null
    {
      hide Slots, From;
      total := DrainLow(card);
      if overrun {
        return;
      }
      if num != 0 {
        ghost var mid := offers;
        var t := Burst(card, true);
        FullBurstStays(mid, old(calls), offers, old(calls));
        total := total + t;
      }
    }

    /** Packets come in and a call is made. */
    method Serve(r: Round)
      requires Valid() && !overrun
      modifies this, burst
      ensures Valid()
      ensures allHigh == old(allHigh) + r.high && allLow == old(allLow) + r.low
      ensures overrun ==> old(num) == MAX_PKT_BURST && num == MAX_PKT_BURST
      ensures !overrun ==> num <= Max(old(num) + 1, MAX_PKT_TX_BURST)
      ensures calls >= old(calls) && (!overrun && num > 0 ==> calls > old(calls) && Refused(r.card))
      ensures Spare(r) && old(num == 0 && high == [] && low == []) ==> num == 0 && high == [] && low == []
    {
      hide Slots, From, Capacity;
      Enqueue(r.high, r.low);
      CapacityAll(|r.high|, |r.low|);
      ghost var n := |Line()|;
      var total := CheckTxRing(r.card);
      assert |Line()| == n;
    }
  }

  lemma LineOf(s: seq<Slot>, staged: seq<Slot>, h: seq<Slot>, l: seq<Slot>)
    ensures s + staged + h + l == s + (staged + h + l)
  {
  }

  lemma PrefixOf(a: seq<Slot>, x: seq<Slot>, b: seq<Slot>, y: seq<Slot>)
    requires a + x == b + y && |a| <= |b|
    ensures a <= b
  {
    assert a == (a + x)[..|a|];
    assert b == (b + y)[..|b|];
  }

  /** What the stack puts in the queues before a call, and how the card behaves in it. */
  datatype Round = Round(high: seq<Slot>, low: seq<Slot>, card: nat -> nat)

  /** No more than a burst comes in, and the card accepts it. */
  ghost predicate Spare(r: Round) { Generous(r.card) && |r.high| + |r.low| <= MAX_PKT_TX_BURST }

  ghost function Given(rounds: seq<Round>, high: bool): seq<Slot> {
    if rounds == [] then []
    else Given(rounds[..|rounds| - 1], high) + if high then rounds[|rounds| - 1].high else rounds[|rounds| - 1].low
  }

  lemma GivenOne(rounds: seq<Round>, n: nat, high: bool)
    requires n < |rounds|
    ensures Given(rounds[..n + 1], high) == Given(rounds[..n], high) + if high then rounds[n].high else rounds[n].low
  {
    assert rounds[..n + 1][..n] == rounds[..n];
  }

  lemma NothingGiven()
    ensures Given([], true) == [] && Given([], false) == []
  {
  }

  /** Any run of calls with packets put in the queues in between, until a call would leave the array: what was sent
      and what is staged interleaves the packets of the two queues, each in its order; with what still waits they are
      all that was ever put in, so that none is lost or doubled.  Each call grows a staging array that holds a full
      burst by one at most.  What is staged was refused by the card in the last call; as long as no more than a burst
      comes in before each call and the card accepts it, nothing is left behind. */
  method Run(p: Port, rounds: seq<Round>) returns (n: nat)
    requires p.Valid() && !p.overrun
    modifies p, p.burst
    ensures p.Valid() && n <= |rounds| && (n < |rounds| ==> p.overrun)
    ensures p.allHigh == old(p.allHigh) + Given(rounds[..n], true)
    ensures p.allLow == old(p.allLow) + Given(rounds[..n], false)
    ensures old(p.num) + |rounds| <= MAX_PKT_BURST && |rounds| <= MAX_PKT_BURST - MAX_PKT_TX_BURST + 1 ==> n == |rounds| && !p.overrun
    ensures n > 0 && !p.overrun && p.num > 0 ==> p.calls > old(p.calls) && p.Refused(rounds[n - 1].card)
    ensures (forall i :: 0 <= i < |rounds| ==> Spare(rounds[i])) && old(p.num == 0 && p.high == [] && p.low == []) ==>
              p.num == 0 && p.high == [] && p.low == []
  {
    hide Port.Valid, Given, Spare, Port.Refused;
    n := 0;
    assert rounds[..0] == [];
    NothingGiven();
    while n < |rounds| && !p.overrun
      invariant p.Valid() && n <= |rounds|
      invariant p.allHigh == old(p.allHigh) + Given(rounds[..n], true)
      invariant p.allLow == old(p.allLow) + Given(rounds[..n], false)
      invariant !p.overrun ==> p.num <= Max(old(p.num) + n, MAX_PKT_TX_BURST - 1 + n)
      invariant p.calls >= old(p.calls)
      invariant n > 0 && !p.overrun && p.num > 0 ==> p.calls > old(p.calls) && p.Refused(rounds[n - 1].card)
      invariant (forall i :: 0 <= i < |rounds| ==> Spare(rounds[i])) && old(p.num == 0 && p.high == [] && p.low == []) ==>
                  p.num == 0 && p.high == [] && p.low == []
      invariant old(p.num) + |rounds| <= MAX_PKT_BURST && |rounds| <= MAX_PKT_BURST - MAX_PKT_TX_BURST + 1 ==> !p.overrun
      decreases |rounds| - n
    {
      GivenOne(rounds, n, true);
      GivenOne(rounds, n, false);
      p.Serve(rounds[n]);
      n := n + 1;
    }
  }

  /** Why the free place matters: with a card that accepts nothing, each call stages one packet more, and the call
      after the array is full goes behind its end. */
  method StuckCard(packets: seq<Slot>, card: nat -> nat) returns (p: Port)
    requires Refuses(card) && |packets| > MAX_PKT_BURST
    ensures fresh(p) && p.Valid() && p.overrun && p.num == MAX_PKT_BURST && p.sent == []
  {
    hide Slots, From;
    p := new Port(packets, []);
    var total := p.CheckTxRing(card);
    while p.num < MAX_PKT_BURST
      invariant fresh(p) && fresh(p.burst) && p.Valid() && !p.overrun
      invariant MAX_PKT_TX_BURST <= p.num <= MAX_PKT_BURST && p.num + |p.high| == |packets| && p.low == []
      invariant p.sent == []
      decreases MAX_PKT_BURST - p.num
    {
      total := p.CheckTxRing(card);
    }
    total := p.CheckTxRing(card);
  }
}
