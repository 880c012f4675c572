/**
 The time-wait list and the simple retransmission list, which link streams through the same field.
 */
module TimerLists {
  import opened Common
  import opened SeqNum

  const TIMEWAIT: nat := 5000
  const MAX_RTO_BATCH: nat := 5

  type Id = nat

  /** The streams of the list are those of the set, each once. */
  ghost predicate Holds(l: seq<Id>, s: set<Id>) {
    Distinct(l) && forall id :: id in l <==> id in s
  }

  lemma HoldsCons(a: Id, l: seq<Id>, s: set<Id>)
    requires Holds([a] + l, s)
    ensures a in s && a !in l && Holds(l, s - {a})
  {
    var m := [a] + l;
    assert m[0] in m;
    forall i | 0 <= i < |l| ensures l[i] != a {
      assert m[i + 1] == l[i];
    }
    forall i, j | 0 <= i < j < |l| ensures l[i] != l[j] {
      assert m[i + 1] != m[j + 1];
    }
    forall id ensures id in l <==> id in s - {a} {
      assert id in m <==> id == a || id in l;
    }
  }

  lemma HoldsAppend(l: seq<Id>, s: set<Id>, id: Id)
    requires Holds(l, s) && id !in s
    ensures Holds(l + [id], s + {id})
  {
    assert forall x :: x in l + [id] <==> x in l || x == id;
  }

  // ----- order of expiry -----

  /** Every stream has a known time and the times do not decrease along the list. */
  ghost predicate Ordered(l: seq<Id>, t: map<Id, int>) {
    && (forall i :: 0 <= i < |l| ==> l[i] in t)
    && (forall i, j :: 0 <= i < j < |l| ==> t[l[i]] <= t[l[j]])
  }

  ghost predicate Between(l: seq<Id>, t: map<Id, int>, lo: int, hi: int) {
    forall i :: 0 <= i < |l| ==> l[i] in t && lo < t[l[i]] <= hi
  }

  lemma {:induction false} WithoutKeeps(l: seq<Id>, s: set<Id>, t: map<Id, int>, id: Id, lo: int, hi: int)
    requires Holds(l, s) && Ordered(l, t) && Between(l, t, lo, hi)
    ensures var r := Without(l, id);
            Holds(r, s - {id}) && Ordered(r, t) && Between(r, t, lo, hi)
  {
    if l != [] {
      assert l == [l[0]] + l[1..];
      HoldsCons(l[0], l[1..], s);
      if l[0] != id {
        WithoutKeeps(l[1..], s - {l[0]}, t, id, lo, hi);
        var r := Without(l[1..], id);
        assert Holds(r, s - {l[0]} - {id});
        assert Without(l, id) == [l[0]] + r;
        ConsHolds(l[0], r, s - {id});
        forall i | 0 <= i < |r| ensures t[l[0]] <= t[r[i]] {
          assert r[i] in r;
          var j :| 0 <= j < |l[1..]| && l[1..][j] == r[i];
          assert l[j + 1] == r[i];
        }
      }
    }
  }

  lemma ConsHolds(a: Id, l: seq<Id>, s: set<Id>)
    requires a in s && Holds(l, s - {a})
    ensures Holds([a] + l, s)
  {
    var m := [a] + l;
    forall i | 0 <= i < |l| ensures l[i] != a {
      assert l[i] in l;
    }
    forall id ensures id in m <==> id in s {
      assert id in m <==> id == a || id in l;
    }
  }

  /** The walk with its early break: the streams at the front whose time has come. */
  ghost function DuePrefix(l: seq<Id>, t: map<Id, int>, cur: int): nat {
    if l == [] || l[0] !in t || t[l[0]] > cur then 0 else 1 + DuePrefix(l[1..], t, cur)
  }

  /** No stream whose time has come stands behind one whose time has not. */
  ghost predicate DueFirst(l: seq<Id>, t: map<Id, int>, cur: int) {
    forall i, j :: 0 <= i < j < |l| && l[i] in t && l[j] in t && t[l[j]] <= cur ==> t[l[i]] <= cur
  }

  /** The early break skips no due stream exactly when the due streams come first. */
  lemma {:induction false} BreakIsExact(l: seq<Id>, t: map<Id, int>, cur: int)
    requires forall i :: 0 <= i < |l| ==> l[i] in t
    ensures DuePrefix(l, t, cur) <= |l|
    ensures forall i :: 0 <= i < DuePrefix(l, t, cur) ==> t[l[i]] <= cur
    ensures (forall i :: DuePrefix(l, t, cur) <= i < |l| ==> t[l[i]] > cur) <==> DueFirst(l, t, cur)
  {
    if l != [] && t[l[0]] <= cur {
      BreakIsExact(l[1..], t, cur);
      var n := DuePrefix(l[1..], t, cur);
      assert forall i :: 0 <= i < |l| - 1 ==> l[1..][i] == l[i + 1];
      if forall i :: n <= i < |l| - 1 ==> t[l[1..][i]] > cur {
        forall i | n + 1 <= i < |l| ensures t[l[i]] > cur {
          assert l[1..][i - 1] == l[i];
        }
      }
    }
  }

  lemma OrderedIsDueFirst(l: seq<Id>, t: map<Id, int>, cur: int)
    requires Ordered(l, t)
    ensures DueFirst(l, t, cur)
  {
  }

  ghost predicate Stamped(s: set<Id>, t: map<Id, int>, ts: map<Id, U32>) {
    forall id :: id in s ==> id in t && id in ts && ts[id] == Wrap(t[id])
  }

  /** A list, the set of streams flagged as on it, and their times. */
  ghost predicate ListOk(l: seq<Id>, s: set<Id>, t: map<Id, int>, ts: map<Id, U32>) {
    Holds(l, s) && Stamped(s, t, ts)
  }

  ghost predicate WaitOk(l: seq<Id>, s: set<Id>, t: map<Id, int>, ts: map<Id, U32>, lo: int, hi: int) {
    ListOk(l, s, t, ts) && Ordered(l, t) && Between(l, t, lo, hi)
  }

  lemma WaitOut(l: seq<Id>, s: set<Id>, t: map<Id, int>, ts: map<Id, U32>, lo: int, hi: int, id: Id)
    requires WaitOk(l, s, t, ts, lo, hi)
    ensures WaitOk(Without(l, id), s - {id}, t, ts, lo, hi)
  {
    WithoutKeeps(l, s, t, id, lo, hi);
  }

  /** Appending a stream that expires last keeps the order. */
  lemma WaitIn(l: seq<Id>, s: set<Id>, t: map<Id, int>, ts: map<Id, U32>, lo: int, hi: int, id: Id, e: int)
    requires WaitOk(l, s, t, ts, lo, hi) && id !in s && lo < e && hi <= e
    ensures WaitOk(l + [id], s + {id}, t[id := e], ts[id := Wrap(e)], lo, e)
  {
    hide Wrap;
    HoldsAppend(l, s, id);
    forall i | 0 <= i < |l| ensures l[i] != id {
      assert l[i] in l;
    }
  }

  lemma {:induction false} ListOut(l: seq<Id>, s: set<Id>, t: map<Id, int>, ts: map<Id, U32>, id: Id)
    requires ListOk(l, s, t, ts)
    ensures ListOk(Without(l, id), s - {id}, t, ts)
  {
    HoldsWithout(l, s, id);
  }

  lemma {:induction false} HoldsWithout(l: seq<Id>, s: set<Id>, id: Id)
    requires Holds(l, s)
    ensures Holds(Without(l, id), s - {id})
  {
    if l != [] {
      assert l == [l[0]] + l[1..];
      HoldsCons(l[0], l[1..], s);
      if l[0] != id {
        HoldsWithout(l[1..], s - {l[0]}, id);
        assert s - {l[0]} - {id} == s - {id} - {l[0]};
        ConsHolds(l[0], Without(l[1..], id), s - {id});
      }
    }
  }

  lemma ListIn(l: seq<Id>, s: set<Id>, t: map<Id, int>, ts: map<Id, U32>, id: Id, e: int)
    requires ListOk(l, s, t, ts) && id !in s
    ensures ListOk(l + [id], s + {id}, t[id := e], ts[id := Wrap(e)])
  {
    hide Wrap;
    HoldsAppend(l, s, id);
  }

  class Timers {
    var timewait: seq<Id>
    var rtoList: seq<Id>
    var onTimewait: set<Id>
    var onRto: set<Id>
    var tsExpire: map<Id, U32>
    var tsRto: map<Id, U32>

    ghost var expire: map<Id, int>
    ghost var rtoDue: map<Id, int>
    /** Latest time seen and time of the last look through the time-wait list. */
    ghost var clock: int
    ghost var lastCheck: int

    ghost predicate Valid()
      reads this
    {
      && lastCheck <= clock
      && WaitOk(timewait, onTimewait, expire, tsExpire, lastCheck, clock + TIMEWAIT)
      && ListOk(rtoList, onRto, rtoDue, tsRto)
      && onTimewait !! onRto
    }

    constructor (ghost start: int)
      ensures Valid() && clock == lastCheck == start && timewait == [] && rtoList == []
    {
      timewait, rtoList, onTimewait, onRto := [], [], {}, {};
      tsExpire, tsRto, expire, rtoDue := map[], map[], map[], map[];
      clock, lastCheck := start, start;
    }

    /** timewait_list_add: the stream goes to the tail, off the retransmission list if it was there. */
    method TimewaitAdd(id: Id, curTs: U32, ghost cur: int)
      requires Valid() && clock <= cur && curTs == Wrap(cur)
      modifies this
      ensures Valid() && clock == cur && lastCheck == old(lastCheck)
      ensures timewait == Without(old(timewait), id) + [id] && expire == old(expire)[id := cur + TIMEWAIT]
      ensures onTimewait == old(onTimewait) + {id}
      ensures onRto == old(onRto) - {id} && rtoList == Without(old(rtoList), id)
    {
      hide WaitOk, ListOk, Wrap, Without;
      WrapAdd(cur, TIMEWAIT);
      Wider(timewait, onTimewait, expire, tsExpire, lastCheck, clock + TIMEWAIT, cur + TIMEWAIT);
      WaitOut(timewait, onTimewait, expire, tsExpire, lastCheck, cur + TIMEWAIT, id);
      WaitIn(Without(timewait, id), onTimewait - {id}, expire, tsExpire, lastCheck, cur + TIMEWAIT, id, cur + TIMEWAIT);
      ListOut(rtoList, onRto, rtoDue, tsRto, id);
      tsExpire := tsExpire[id := Wrap(curTs + TIMEWAIT)];
      expire := expire[id := cur + TIMEWAIT];
      clock := cur;
      if id in onTimewait {
        NotThere(rtoList, onRto, rtoDue, tsRto, id);
      } else {
        rtoList, onRto := Without(rtoList, id), onRto - {id};
      }
      timewait := Without(timewait, id) + [id];
      assert onTimewait - {id} + {id} == onTimewait + {id};
      onTimewait := onTimewait + {id};
      assert onRto == old(onRto) - {id};
    }

    /** timewait_list_remove */
    method TimewaitRemove(id: Id) returns (ret: int)
      requires Valid()
      modifies this`timewait, this`onTimewait
      ensures Valid() && onTimewait == old(onTimewait) - {id} && timewait == Without(old(timewait), id)
      ensures ret == if id in old(onTimewait) then 0 else 1
    {
      hide WaitOk, ListOk, Without;
      WaitOut(timewait, onTimewait, expire, tsExpire, lastCheck, clock + TIMEWAIT, id);
      if id !in onTimewait {
        NotWaiting(timewait, onTimewait, expire, tsExpire, lastCheck, clock + TIMEWAIT, id);
        assert onTimewait == onTimewait - {id};
        return 1;
      }
      timewait, onTimewait := Without(timewait, id), onTimewait - {id};
      return 0;
    }

    /** timewait_list_check: closes exactly the streams that have expired. */
    method TimewaitCheck(curTs: U32, ghost cur: int) returns (closed: seq<Id>)
      requires Valid() && clock <= cur < lastCheck + HALF && curTs == Wrap(cur)
      modifies this`timewait, this`onTimewait, this`clock, this`lastCheck
      ensures Valid() && clock == lastCheck == cur
      ensures old(timewait) == closed + timewait
      ensures forall i :: 0 <= i < |closed| ==> closed[i] in expire && expire[closed[i]] <= cur
      ensures forall i :: 0 <= i < |timewait| ==> timewait[i] in expire && cur < expire[timewait[i]]
    {
      hide ListOk, WaitOk, Wrap, Diff;
      closed := [];
      ghost var lo, hi := lastCheck, cur + TIMEWAIT;
      Wider(timewait, onTimewait, expire, tsExpire, lo, clock + TIMEWAIT, hi);
      HeadStamped(timewait, onTimewait, expire, tsExpire, lo, hi);
      while timewait != [] && Diff(curTs, tsExpire[timewait[0]]) >= 0
        invariant WaitOk(timewait, onTimewait, expire, tsExpire, lo, hi)
        invariant timewait != [] ==> timewait[0] in tsExpire
        invariant onTimewait <= old(onTimewait)
        invariant old(timewait) == closed + timewait
        invariant forall i :: 0 <= i < |closed| ==> closed[i] in expire && expire[closed[i]] <= cur
        decreases |timewait|
      {
        FirstWaiting(timewait, onTimewait, expire, tsExpire, lo, hi, cur);
        closed := closed + [timewait[0]];
        onTimewait := onTimewait - {timewait[0]};
        timewait := timewait[1..];
      }
      if timewait != [] {
        FirstWaiting(timewait, onTimewait, expire, tsExpire, lo, hi, cur);
      } else {
        NoneWaiting(timewait, onTimewait, expire, tsExpire, lo, cur, hi);
      }
      clock, lastCheck := cur, cur;
    }

    /** rto_list_add */
    method RtoAdd(id: Id, curTs: U32, rto: U32, ghost cur: int) returns (ret: int)
      requires Valid() && curTs == Wrap(cur)
      modifies this`rtoList, this`onRto, this`tsRto, this`rtoDue
      ensures Valid()
      ensures ret == if id in old(onRto) || id in onTimewait then 1 else 0
      ensures onRto == if id in onTimewait then old(onRto) else old(onRto) + {id}
      ensures ret == 0 ==> rtoList == old(rtoList) + [id] && rtoDue == old(rtoDue)[id := cur + rto]
      ensures ret != 0 ==> rtoList == old(rtoList)
    {
      hide WaitOk, ListOk, Wrap;
      WrapAdd(cur, rto);
      if id in onRto {
        assert onRto + {id} == onRto;
        return 1;
      }
      ListIn(rtoList, onRto, rtoDue, tsRto, id, cur + rto);
      RestampOut(rtoList, onRto, rtoDue, tsRto, id, cur + rto);
      tsRto, rtoDue := tsRto[id := Wrap(curTs + rto)], rtoDue[id := cur + rto];
      if id in onTimewait {
        return 1;
      }
      onRto, rtoList := onRto + {id}, rtoList + [id];
      return 0;
    }

    /** rto_list_remove */
    method RtoRemove(id: Id) returns (ret: int)
      requires Valid()
      modifies this`rtoList, this`onRto
      ensures Valid() && onRto == old(onRto) - {id} && rtoList == Without(old(rtoList), id)
      ensures ret == if id in old(onRto) then 0 else 1
    {
      hide WaitOk, ListOk, Without;
      ListOut(rtoList, onRto, rtoDue, tsRto, id);
      if id !in onRto {
        NotThere(rtoList, onRto, rtoDue, tsRto, id);
        assert onRto == onRto - {id};
        return 1;
      }
      rtoList, onRto := Without(rtoList, id), onRto - {id};
      return 0;
    }

    /** rto_list_check: at most five streams, up to the first that is not due. */
    method RtoCheck(curTs: U32, ghost cur: int) returns (fired: seq<Id>)
      requires Valid() && curTs == Wrap(cur)
      requires forall id :: id in onRto && id in rtoDue ==> -HALF < cur - rtoDue[id] < HALF
      modifies this`rtoList, this`onRto
      ensures Valid() && old(rtoList) == fired + rtoList
      ensures |fired| == var n := DuePrefix(old(rtoList), rtoDue, cur); if n < MAX_RTO_BATCH then n else MAX_RTO_BATCH
    {
      hide WaitOk, ListOk, Wrap, Diff, DuePrefix;
      fired := [];
      RtoHead(rtoList, onRto, rtoDue, tsRto, cur);
      while rtoList != [] && |fired| < MAX_RTO_BATCH && Diff(curTs, tsRto[rtoList[0]]) >= 0
        invariant ListOk(rtoList, onRto, rtoDue, tsRto) && onRto <= old(onRto)
        invariant rtoList != [] ==> rtoList[0] in tsRto && rtoList[0] in rtoDue
        invariant rtoList != [] ==> (Diff(curTs, tsRto[rtoList[0]]) >= 0 <==> rtoDue[rtoList[0]] <= cur)
        invariant |fired| <= MAX_RTO_BATCH
        invariant old(rtoList) == fired + rtoList
        invariant DuePrefix(old(rtoList), rtoDue, cur) == |fired| + DuePrefix(rtoList, rtoDue, cur)
        decreases |rtoList|
      {
        RtoTail(rtoList, onRto, rtoDue, tsRto);
        DueStep(rtoList, rtoDue, cur);
        RtoHead(rtoList[1..], onRto - {rtoList[0]}, rtoDue, tsRto, cur);
        fired := fired + [rtoList[0]];
        onRto := onRto - {rtoList[0]};
        rtoList := rtoList[1..];
      }
      DueStep(rtoList, rtoDue, cur);
    }
  }

  lemma DueStep(l: seq<Id>, t: map<Id, int>, cur: int)
    ensures l == [] ==> DuePrefix(l, t, cur) == 0
    ensures l != [] && l[0] in t ==> DuePrefix(l, t, cur) == if t[l[0]] <= cur then 1 + DuePrefix(l[1..], t, cur) else 0
  {
  }

  lemma RtoHead(l: seq<Id>, s: set<Id>, t: map<Id, int>, ts: map<Id, U32>, cur: int)
    requires ListOk(l, s, t, ts) && (forall id :: id in s && id in t ==> -HALF < cur - t[id] < HALF)
    ensures l != [] ==> l[0] in ts && l[0] in t && (Diff(Wrap(cur), ts[l[0]]) >= 0 <==> t[l[0]] <= cur)
  {
    if l != [] {
      assert l[0] in l;
      DiffOfOffsets(cur, t[l[0]]);
    }
  }

  lemma RtoTail(l: seq<Id>, s: set<Id>, t: map<Id, int>, ts: map<Id, U32>)
    requires ListOk(l, s, t, ts) && l != []
    ensures ListOk(l[1..], s - {l[0]}, t, ts)
  {
    assert l == [l[0]] + l[1..];
    HoldsCons(l[0], l[1..], s);
  }

  lemma Wider(l: seq<Id>, s: set<Id>, t: map<Id, int>, ts: map<Id, U32>, lo: int, hi: int, hi': int)
    requires WaitOk(l, s, t, ts, lo, hi) && hi <= hi'
    ensures WaitOk(l, s, t, ts, lo, hi')
  {
  }

  lemma {:induction false} AbsentStays(l: seq<Id>, id: Id)
    requires id !in l
    ensures Without(l, id) == l
  {
    if l != [] {
      AbsentStays(l[1..], id);
    }
  }

  lemma NotThere(l: seq<Id>, s: set<Id>, t: map<Id, int>, ts: map<Id, U32>, id: Id)
    requires ListOk(l, s, t, ts) && id !in s
    ensures Without(l, id) == l
  {
    AbsentStays(l, id);
  }

  lemma NotWaiting(l: seq<Id>, s: set<Id>, t: map<Id, int>, ts: map<Id, U32>, lo: int, hi: int, id: Id)
    requires WaitOk(l, s, t, ts, lo, hi) && id !in s
    ensures Without(l, id) == l
  {
    AbsentStays(l, id);
  }

  lemma RestampOut(l: seq<Id>, s: set<Id>, t: map<Id, int>, ts: map<Id, U32>, id: Id, e: int)
    requires ListOk(l, s, t, ts) && id !in s
    ensures ListOk(l, s, t[id := e], ts[id := Wrap(e)])
  {
    hide Wrap;
  }

  lemma HeadStamped(l: seq<Id>, s: set<Id>, t: map<Id, int>, ts: map<Id, U32>, lo: int, hi: int)
    requires WaitOk(l, s, t, ts, lo, hi)
    ensures l != [] ==> l[0] in ts
  {
  }

  lemma NoneWaiting(l: seq<Id>, s: set<Id>, t: map<Id, int>, ts: map<Id, U32>, lo: int, lo': int, hi: int)
    requires WaitOk(l, s, t, ts, lo, hi) && l == []
    ensures WaitOk(l, s, t, ts, lo', hi)
  {
  }

  /** The test of the first stream is right, and if it has not expired no other has. */
  lemma FirstWaiting(l: seq<Id>, s: set<Id>, t: map<Id, int>, ts: map<Id, U32>, lo: int, hi: int, cur: int)
    requires WaitOk(l, s, t, ts, lo, hi) && l != [] && lo <= cur < lo + HALF && hi < cur + HALF
    ensures l[0] in ts && l[0] in t && (Diff(Wrap(cur), ts[l[0]]) >= 0 <==> t[l[0]] <= cur)
    ensures t[l[0]] > cur ==> forall i :: 0 <= i < |l| ==> l[i] in t && cur < t[l[i]]
    ensures WaitOk(l[1..], s - {l[0]}, t, ts, lo, hi)
    ensures |l| > 1 ==> l[1] in ts
    ensures t[l[0]] > cur ==> WaitOk(l, s, t, ts, cur, hi)
  {
    assert l[0] in l && l == [l[0]] + l[1..];
    DiffOfOffsets(cur, t[l[0]]);
    HoldsCons(l[0], l[1..], s);
    if |l| > 1 {
      assert l[1] in l;
    }
  }

  /** In the retransmission list the time-outs of the streams differ, so a due stream can be skipped: stream 0, added
      at 0 with time-out 1000, hides stream 1, added at 100 with time-out 500, at time 700. */
  method RetransmissionBreakSkips() returns (t: Timers, fired: seq<Id>)
    ensures fresh(t) && t.Valid() && t.rtoList == [0, 1] && fired == []
    ensures 1 in t.rtoDue && t.rtoDue[1] <= 700
  {
    t := new Timers(0);
    var ret := t.RtoAdd(0, 0, 1000, 0);
    ret := t.RtoAdd(1, 100, 500, 100);
    assert t.rtoList == [0, 1];
    DueStep(t.rtoList, t.rtoDue, 700);
    fired := t.RtoCheck(700, 700);
  }
}
