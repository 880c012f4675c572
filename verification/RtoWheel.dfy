/**
 The retransmission timing wheel: 3000 one-tick slots and an overflow list that is looked through
 whenever the 32-bit tick count is a multiple of 1000.
 */
module RtoWheel {
  import opened Common
  import opened SeqNum

  const SLOTS: nat := 3000
  const ADJUST_PERIOD: nat := 1000

  type Id = nat

  type Lists = seq<seq<Id>>

  /** on gives the list each stream is on; a stream is on no list if it is not in the map. */
  ghost predicate Filed(lists: Lists, on: map<Id, nat>) {
    && |lists| == SLOTS + 1
    && (forall k :: 0 <= k <= SLOTS ==> Distinct(lists[k]))
    && (forall id :: id in on ==> on[id] <= SLOTS && id in lists[on[id]])
    && (forall k, id :: 0 <= k <= SLOTS && id in lists[k] ==> id in on && on[id] == k)
  }

  /** A stream in a slot is due within 3000 ticks, at the tick when the wheel reaches the slot; one in the
      overflow list is due at least 3000 ticks after the last multiple of 1000. */
  ghost predicate InTime(k: nat, due: int, now: int, idx: nat) {
    if k < SLOTS then 0 <= due - now < SLOTS && (due - now + idx) % SLOTS == k
    else SLOTS - Wrap(now) % ADJUST_PERIOD <= due - now < HALF
  }

  ghost predicate Timed(on: map<Id, nat>, due: map<Id, int>, now: int, idx: nat) {
    forall id :: id in on ==> id in due && InTime(on[id], due[id], now, idx)
  }

  /** A slot holds what is due when the wheel gets there, and nothing else is due then. */
  lemma SlotIsDue(k: nat, due: int, now: int, idx: nat)
    requires InTime(k, due, now, idx) && idx < SLOTS
    ensures k == idx <==> due == now
  {
  }

  /** One tick: what was not due stays in its place. */
  lemma TickKeeps(k: nat, due: int, now: int, idx: nat)
    requires InTime(k, due, now, idx) && idx < SLOTS && due != now
    requires k < SLOTS || Wrap(now + 1) % ADJUST_PERIOD != 0
    ensures InTime(k, due, now + 1, (idx + 1) % SLOTS)
  {
    if k < SLOTS {
      TickSlot(due - now, idx);
    } else {
      TickOverflow(now);
    }
  }

  lemma TickSlot(left: int, idx: nat)
    requires 0 < left < SLOTS && idx < SLOTS
    ensures (left - 1 + (idx + 1) % SLOTS) % SLOTS == (left + idx) % SLOTS
  {
    if idx + 1 < SLOTS {
      assert (idx + 1) % SLOTS == idx + 1;
    } else {
      assert (idx + 1) % SLOTS == 0;
      assert left + idx == left - 1 + SLOTS;
    }
  }

  lemma TickOverflow(now: int)
    requires Wrap(now + 1) % ADJUST_PERIOD != 0
    ensures Wrap(now + 1) % ADJUST_PERIOD == Wrap(now) % ADJUST_PERIOD + 1
  {
    hide Wrap;
    WrapNext(now);
    PeriodNext(Wrap(now));
  }

  lemma WrapNext(now: int)
    ensures Wrap(now + 1) == if Wrap(now) == MODULUS - 1 then 0 else Wrap(now) + 1
  {
    WrapAdd(now, 1);
  }

  lemma PeriodNext(x: nat)
    ensures (x + 1) % ADJUST_PERIOD == 0 || (x + 1) % ADJUST_PERIOD == x % ADJUST_PERIOD + 1
    ensures 0 % ADJUST_PERIOD == 0
  {
  }

  /** The slot for a time difference: 32-bit unsigned arithmetic, then the remainder. */
  function SlotFor(diff: int, idx: nat): nat {
    Wrap(diff + idx) % SLOTS
  }

  lemma SlotForInTime(due: int, now: int, idx: nat)
    requires 0 <= due - now < SLOTS && idx < SLOTS
    ensures InTime(SlotFor(due - now, idx), due, now, idx) && SlotFor(due - now, idx) < SLOTS
  {
  }

  // ----- filing -----

  lemma DistinctCons(a: Id, l: seq<Id>)
    requires Distinct(l)
    ensures Distinct([a] + l) <==> a !in l
  {
    if a in l {
      var i :| 0 <= i < |l| && l[i] == a;
      assert ([a] + l)[i + 1] == ([a] + l)[0];
    }
  }

  lemma {:induction false} WithoutOne(l: seq<Id>, id: Id)
    requires Distinct(l)
    ensures Distinct(Without(l, id))
    ensures forall x :: x in Without(l, id) <==> x in l && x != id
  {
    if l != [] {
      assert l == [l[0]] + l[1..];
      DistinctCons(l[0], l[1..]);
      if l[0] != id {
        WithoutOne(l[1..], id);
        DistinctCons(l[0], Without(l[1..], id));
      }
    }
  }

  lemma OneMore(on: map<Id, nat>, id: Id, k: nat)
    requires id !in on
    ensures |on[id := k]| == |on| + 1
  {
    assert on[id := k].Keys == on.Keys + {id};
  }

  lemma OneLess(on: map<Id, nat>, id: Id)
    requires id in on
    ensures |on - {id}| == |on| - 1
  {
    assert (on - {id}).Keys == on.Keys - {id};
  }

  lemma FileIn(lists: Lists, on: map<Id, nat>, id: Id, k: nat)
    requires Filed(lists, on) && id !in on && k <= SLOTS
    ensures Filed(lists[k := lists[k] + [id]], on[id := k])
    ensures |on[id := k]| == |on| + 1
  {
    hide Distinct;
    OneMore(on, id, k);
    var lists', on' := lists[k := lists[k] + [id]], on[id := k];
    assert id !in lists[k];
    DistinctSnoc(lists[k], id);
    forall x | x in on' ensures on'[x] <= SLOTS && x in lists'[on'[x]] {
    }
    forall j, x | 0 <= j <= SLOTS && x in lists'[j] ensures x in on' && on'[x] == j {
      assert x == id || x in lists[j];
    }
  }

  /** l' is list k with id taken out of it. */
  ghost predicate TakenFrom(lists: Lists, on: map<Id, nat>, id: Id, l': seq<Id>) {
    && |lists| == SLOTS + 1 && id in on && on[id] <= SLOTS && Distinct(l')
    && (forall x :: x in l' <==> x in lists[on[id]] && x != id)
  }

  lemma OutStays(lists: Lists, on: map<Id, nat>, id: Id, l': seq<Id>, x: Id)
    requires Filed(lists, on) && TakenFrom(lists, on, id, l') && x in on && x != id
    ensures on[x] <= SLOTS && x in lists[on[id] := l'][on[x]]
  {
    hide Distinct;
  }

  lemma OutOwned(lists: Lists, on: map<Id, nat>, id: Id, l': seq<Id>, k: nat, x: Id)
    requires Filed(lists, on) && TakenFrom(lists, on, id, l') && k <= SLOTS && x in lists[on[id] := l'][k]
    ensures x in on && x != id && on[x] == k
  {
    hide Distinct;
    assert x in lists[k];
  }

  lemma FileOut(lists: Lists, on: map<Id, nat>, id: Id, l': seq<Id>)
    requires Filed(lists, on) && id in on
    requires Distinct(l') && (forall x :: x in l' <==> x in lists[on[id]] && x != id)
    ensures Filed(lists[on[id] := l'], on - {id})
    ensures |on - {id}| == |on| - 1
  {
    hide Distinct;
    OneLess(on, id);
    assert TakenFrom(lists, on, id, l');
    FileOutParts(lists, on, id, l');
  }

  lemma FileOutParts(lists: Lists, on: map<Id, nat>, id: Id, l': seq<Id>)
    requires Filed(lists, on) && TakenFrom(lists, on, id, l')
    ensures Filed(lists[on[id] := l'], on - {id})
  {
    hide Distinct, TakenFrom;
    assert id in on && |lists| == SLOTS + 1 && on[id] <= SLOTS && Distinct(l') by { TakenParts(lists, on, id, l'); }
    var lists', on' := lists[on[id] := l'], on - {id};
    forall x | x in on' ensures on'[x] <= SLOTS && x in lists'[on'[x]] {
      OutStays(lists, on, id, l', x);
    }
    forall k, x | 0 <= k <= SLOTS && x in lists'[k] ensures x in on' && on'[x] == k {
      OutOwned(lists, on, id, l', k, x);
    }
  }

  lemma TakenParts(lists: Lists, on: map<Id, nat>, id: Id, l': seq<Id>)
    requires TakenFrom(lists, on, id, l')
    ensures id in on && |lists| == SLOTS + 1 && on[id] <= SLOTS && Distinct(l')
  {
  }

  ghost predicate Stamped(on: map<Id, nat>, due: map<Id, int>, tsRto: map<Id, U32>) {
    forall id :: id in on ==> id in tsRto && id in due && tsRto[id] == Wrap(due[id])
  }

  ghost predicate Sound(lists: Lists, on: map<Id, nat>, due: map<Id, int>, tsRto: map<Id, U32>, now: int, idx: nat) {
    Filed(lists, on) && Timed(on, due, now, idx) && Stamped(on, due, tsRto)
  }

  function PlaceFor(diff: int, idx: nat): nat {
    if diff < SLOTS then SlotFor(diff, idx) else SLOTS
  }

  lemma PlaceIff(diff: int, now: int, idx: nat)
    requires -HALF <= diff < HALF && idx < SLOTS
    ensures PlaceFor(diff, idx) <= SLOTS
    ensures InTime(PlaceFor(diff, idx), now + diff, now, idx) <==> diff >= 0
  {
    if 0 <= diff < SLOTS {
      SlotForInTime(now + diff, now, idx);
    }
  }

  lemma TimedIn(on: map<Id, nat>, due: map<Id, int>, now: int, idx: nat, id: Id, k: nat, d: int)
    requires Timed(on, due, now, idx) && id !in on
    ensures Timed(on[id := k], due[id := d], now, idx) <==> InTime(k, d, now, idx)
  {
    var on', due' := on[id := k], due[id := d];
    assert id in on' && on'[id] == k && due'[id] == d;
  }

  lemma SoundIn(lists: Lists, on: map<Id, nat>, due: map<Id, int>, tsRto: map<Id, U32>, now: int, idx: nat,
                id: Id, ts: U32, diff: int)
    requires Sound(lists, on, due, tsRto, now, idx) && id !in on && idx < SLOTS
    requires -HALF <= diff < HALF && ts == Wrap(now + diff)
    ensures var k := PlaceFor(diff, idx);
            && k <= SLOTS && |lists| == SLOTS + 1 && |on[id := k]| == |on| + 1
            && (Sound(lists[k := lists[k] + [id]], on[id := k], due[id := now + diff], tsRto[id := ts], now, idx)
                <==> diff >= 0)
  {
    hide InTime, Wrap;
    var k := PlaceFor(diff, idx);
    PlaceIff(diff, now, idx);
    FileIn(lists, on, id, k);
    TimedIn(on, due, now, idx, id, k, now + diff);
  }

  lemma SoundOut(lists: Lists, on: map<Id, nat>, due: map<Id, int>, tsRto: map<Id, U32>, now: int, idx: nat,
                 id: Id, l': seq<Id>)
    requires Sound(lists, on, due, tsRto, now, idx) && id in on && |lists| == SLOTS + 1 && on[id] <= SLOTS
    requires Distinct(l') && (forall x :: x in l' <==> x in lists[on[id]] && x != id)
    ensures Sound(lists[on[id] := l'], on - {id}, due, tsRto, now, idx)
    ensures |on - {id}| == |on| - 1
  {
    FileOut(lists, on, id, l');
  }

  datatype Firing = Firing(id: Id, at: int, due: int)

  ghost function Ids(f: seq<Firing>): set<Id> {
    set i | 0 <= i < |f| :: f[i].id
  }

  lemma IdsOne(x: Firing)
    ensures Ids([x]) == {x.id}
  {
    assert [x][0].id in Ids([x]);
  }

  lemma IdsAppend(f: seq<Firing>, g: seq<Firing>)
    ensures Ids(f + g) == Ids(f) + Ids(g)
  {
    forall y | y in Ids(f) + Ids(g) ensures y in Ids(f + g) {
      if y in Ids(f) {
        var i :| 0 <= i < |f| && f[i].id == y;
        assert (f + g)[i].id == y;
      } else {
        var i :| 0 <= i < |g| && g[i].id == y;
        assert (f + g)[|f| + i].id == y;
      }
    }
  }

  /** The streams that left the wheel are those that fired, each once and each at its deadline. */
  ghost predicate FiredOnTime(on: map<Id, nat>, on': map<Id, nat>, due: map<Id, int>, f: seq<Firing>) {
    && on'.Keys <= on.Keys && Ids(f) == on.Keys - on'.Keys && |f| == |on| - |on'|
    && forall i :: 0 <= i < |f| ==> f[i].id in due && f[i].at == f[i].due == due[f[i].id]
  }

  lemma FiredAppend(on0: map<Id, nat>, on1: map<Id, nat>, on2: map<Id, nat>, due: map<Id, int>,
                    f: seq<Firing>, g: seq<Firing>)
    requires FiredOnTime(on0, on1, due, f) && FiredOnTime(on1, on2, due, g)
    ensures FiredOnTime(on0, on2, due, f + g)
  {
    IdsAppend(f, g);
  }

  /** Between a tick that is a multiple of 1000 and the look through the overflow list. */
  ghost predicate Loose(on: map<Id, nat>, due: map<Id, int>, now: int, idx: nat) {
    forall id :: id in on ==>
      id in due && (if on[id] == SLOTS then SLOTS - ADJUST_PERIOD <= due[id] - now < HALF
                    else InTime(on[id], due[id], now, idx))
  }

  lemma TickTimed(lists: Lists, on: map<Id, nat>, due: map<Id, int>, now: int, idx: nat)
    requires Filed(lists, on) && Timed(on, due, now, idx) && idx < SLOTS && lists[idx] == []
    ensures Loose(on, due, now + 1, (idx + 1) % SLOTS)
    ensures Wrap(now + 1) % ADJUST_PERIOD != 0 ==> Timed(on, due, now + 1, (idx + 1) % SLOTS)
  {
    hide InTime;
    forall id | id in on
      ensures if on[id] == SLOTS then SLOTS - ADJUST_PERIOD <= due[id] - (now + 1) < HALF
              else InTime(on[id], due[id], now + 1, (idx + 1) % SLOTS)
      ensures Wrap(now + 1) % ADJUST_PERIOD != 0 ==> InTime(on[id], due[id], now + 1, (idx + 1) % SLOTS)
    {
      TickOne(on[id], due[id], now, idx);
    }
  }

  lemma TickOne(k: nat, d: int, now: int, idx: nat)
    requires InTime(k, d, now, idx) && idx < SLOTS && k != idx && k <= SLOTS
    ensures if k == SLOTS then SLOTS - ADJUST_PERIOD <= d - (now + 1) < HALF
            else InTime(k, d, now + 1, (idx + 1) % SLOTS)
    ensures Wrap(now + 1) % ADJUST_PERIOD != 0 ==> InTime(k, d, now + 1, (idx + 1) % SLOTS)
  {
    SlotIsDue(k, d, now, idx);
    if k < SLOTS || Wrap(now + 1) % ADJUST_PERIOD != 0 {
      TickKeeps(k, d, now, idx);
    }
    if k == SLOTS {
      OverflowAfterTick(d, now, idx);
    }
  }

  lemma OverflowAfterTick(d: int, now: int, idx: nat)
    requires InTime(SLOTS, d, now, idx)
    ensures SLOTS - ADJUST_PERIOD <= d - (now + 1) < HALF
  {
  }

  class Wheel {
    var nowIdx: nat
    var nowTs: U32
    var count: nat
    var lists: Lists
    var on: map<Id, nat>
    var tsRto: map<Id, U32>
    var nrtx: map<Id, nat>

    ghost var now: int
    ghost var due: map<Id, int>
    ghost var fired: seq<Firing>

    ghost predicate Valid()
      reads this
    {
      && nowIdx < SLOTS && nowTs == Wrap(now) && count == |on|
      && Sound(lists, on, due, tsRto, now, nowIdx)
    }

    constructor ()
      ensures Valid() && on == map[] && tsRto == map[] && fired == []
    {
      nowIdx, nowTs, count, now := 0, 0, 0, 0;
      lists := seq(SLOTS + 1, _ => []);
      on, tsRto, nrtx, due, fired := map[], map[], map[], map[], [];
    }

    /** rto_list_add.  An empty wheel restarts at the stream's previous deadline; the new deadline is then
        filed by its distance from the wheel, which works exactly when it is not before the wheel. */
    method Add(id: Id, curTs: U32, rto: U32, onTimewait: bool) returns (ret: int)
      requires Valid()
      modifies this
      ensures fired == old(fired)
      ensures old(on) != map[] ==> nowTs == old(nowTs) && now == old(now)
      ensures old(on) == map[] ==> nowTs == now == if id in old(tsRto) then old(tsRto)[id] else 0
      ensures id in old(on) || onTimewait ==> Valid() && on == old(on)
      ensures ret == if id !in old(on) && onTimewait then 1 else 0
      ensures id !in old(on) && !onTimewait ==>
                && on.Keys == old(on).Keys + {id} && id in tsRto && tsRto[id] == Wrap(curTs + rto)
                && id in due && due[id] == now + Diff(Wrap(curTs + rto), nowTs)
                && (Valid() <==> Diff(Wrap(curTs + rto), nowTs) >= 0)
      ensures due == if id in old(on) || onTimewait then old(due) else old(due)[id := due[id]]
    {
      hide Sound, Wrap, Diff, PlaceFor;
      if count == 0 {
        Restart(if id in tsRto then tsRto[id] else 0);
      }
      if id in on {
        return 0;
      }
      if onTimewait {
        return 1;
      }
      File(id, Wrap(curTs + rto));
      return 0;
    }

    method File(id: Id, ts: U32)
      requires Valid() && id !in on
      modifies this`lists, this`on, this`count, this`tsRto, this`due
      ensures on.Keys == old(on).Keys + {id} && id in tsRto && tsRto[id] == ts
      ensures due == old(due)[id := now + Diff(ts, nowTs)]
      ensures Valid() <==> Diff(ts, nowTs) >= 0
    {
      hide Sound, Wrap, Diff, PlaceFor;
      var diff := Diff(ts, nowTs);
      WrapAdd(now, diff);
      SoundIn(lists, on, due, tsRto, now, nowIdx, id, ts, diff);
      due := due[id := now + diff];
      tsRto := tsRto[id := ts];
      var k := PlaceFor(diff, nowIdx);
      lists := lists[k := lists[k] + [id]];
      on := on[id := k];
      count := count + 1;
    }

    method Restart(ts: U32)
      requires Valid() && on == map[]
      modifies this`nowIdx, this`nowTs, this`now
      ensures Valid() && nowIdx == 0 && nowTs == ts && now == ts
    {
      nowIdx, nowTs, now := 0, ts, ts;
    }

    /** rto_list_remove */
    method Remove(id: Id) returns (ret: int)
      requires Valid()
      modifies this`lists, this`on, this`count, this`nrtx
      ensures Valid() && on == old(on) - {id}
      ensures ret == if id in old(on) then 0 else 1
      ensures nrtx == if id in old(on) then old(nrtx)[id := 0] else old(nrtx)
    {
      hide Sound, Without, Wrap;
      if id !in on {
        assert on - {id} == on;
        return 1;
      }
      TakenOut(lists, on, due, tsRto, now, nowIdx, id);
      lists := lists[on[id] := Without(lists[on[id]], id)];
      on := on - {id};
      count := count - 1;
      nrtx := nrtx[id := 0];
      return 0;
    }

    /** The first stream of the current slot fires. */
    method FireOne()
      requires Valid() && |lists| == SLOTS + 1 && lists[nowIdx] != []
      modifies this`lists, this`on, this`count, this`fired
      ensures Valid() && |lists| == SLOTS + 1
      ensures |fired| == |old(fired)| + 1 && old(fired) <= fired && fired[|old(fired)|].at == now
      ensures FiredOnTime(old(on), on, due, [fired[|old(fired)|]])
      ensures count == old(count) - 1
    {
      hide Sound, Wrap;
      var id := lists[nowIdx][0];
      HeadOut(lists, on, due, tsRto, now, nowIdx);
      lists := lists[nowIdx := lists[nowIdx][1..]];
      count := count - 1;
      on := on - {id};
      fired := fired + [Firing(id, now, now)];
      IdsOne(Firing(id, now, now));
    }

    /** The inner loop of rto_list_check: every stream in the current slot fires. */
    method FireSlot(ghost on0: map<Id, nat>, ghost f0: seq<Firing>) returns (n: nat)
      requires Valid()
      requires |f0| <= |fired| && FiredOnTime(on0, on, due, fired[|f0|..])
      modifies this`lists, this`on, this`count, this`fired
      ensures Valid() && |lists| == SLOTS + 1 && lists[nowIdx] == []
      ensures old(fired) <= fired && n == |fired| - |old(fired)|
      ensures FiredOnTime(on0, on, due, fired[|f0|..])
      ensures forall i :: |old(fired)| <= i < |fired| ==> fired[i].at == now
    {
      hide Sound, FiredOnTime, Wrap;
      n := 0;
      ListsShape();
      while lists[nowIdx] != []
        invariant Valid() && |lists| == SLOTS + 1
        invariant old(fired) <= fired && n == |fired| - |old(fired)|
        invariant FiredOnTime(on0, on, due, fired[|f0|..])
        invariant forall i :: |old(fired)| <= i < |fired| ==> fired[i].at == now
        decreases count
      {
        ghost var f, on1 := fired, on;
        FireOne();
        FiredAppend(on0, on1, on, due, f[|f0|..], [fired[|f|]]);
        assert fired[|f0|..] == f[|f0|..] + [fired[|f|]];
        n := n + 1;
      }
    }

    ghost predicate Adjusting(todo: seq<Id>)
      reads this
    {
      && Filed(lists, on) && Stamped(on, due, tsRto) && Loose(on, due, now, nowIdx)
      && Settled(on, due, now, todo)
    }

    /** An overflow stream less than 3000 ticks away goes to its slot. */
    method AdjustOne(id: Id, ghost todo: seq<Id>)
      requires nowIdx < SLOTS && nowTs == Wrap(now) && |lists| == SLOTS + 1
      requires Adjusting([id] + todo) && id in on && on[id] == SLOTS
      modifies this`lists, this`on
      ensures Adjusting(todo) && |lists| == SLOTS + 1
      ensures on.Keys == old(on).Keys && forall x :: x in on && x != id ==> on[x] == old(on)[x]
    {
      hide Filed, Loose, Stamped, Settled, Wrap, Diff, Without, SlotFor;
      StampOf(on, due, tsRto, now, nowIdx, id);
      var diff := Diff(tsRto[id], nowTs);
      if diff < SLOTS {
        var k := SlotFor(diff, nowIdx);
        MoveIn(lists, on, due, tsRto, now, nowIdx, id);
        SettledMove(on, due, now, todo, id, k);
        var rest := lists[SLOTS := Without(lists[SLOTS], id)];
        lists := rest[k := rest[k] + [id]];
        on := on[id := k];
      } else {
        SettledStay(on, due, now, todo, id);
      }
    }

    /** adjust_backup_store */
    method Adjust()
      requires nowIdx < SLOTS && nowTs == Wrap(now) && count == |on| && nowTs % ADJUST_PERIOD == 0
      requires Filed(lists, on) && Stamped(on, due, tsRto) && Loose(on, due, now, nowIdx)
      modifies this`lists, this`on
      ensures Valid() && on.Keys == old(on).Keys
    {
      hide Filed, Loose, Stamped, Settled, Wrap;
      FiledShape(lists, on, SLOTS);
      var walk := lists[SLOTS];
      StartSettled(lists, on, due, now);
      var i := 0;
      assert walk[i..] == walk;
      while i < |walk|
        invariant 0 <= i <= |walk| && |lists| == SLOTS + 1
        invariant Adjusting(walk[i..]) && on.Keys == old(on).Keys
        invariant forall j :: i <= j < |walk| ==> walk[j] in on && on[walk[j]] == SLOTS
      {
        assert walk[i..] == [walk[i]] + walk[i + 1..];
        AdjustOne(walk[i], walk[i + 1..]);
        i := i + 1;
      }
      assert walk[i..] == [];
      AllSettled(lists, on, due, tsRto, now, nowIdx);
      assert |on| == |on.Keys| && |old(on)| == |old(on).Keys|;
    }

    /** One tick of rto_list_check. */
    method Tick(ghost on0: map<Id, nat>, ghost f0: seq<Firing>) returns (n: nat)
      requires Valid()
      requires |f0| <= |fired| && FiredOnTime(on0, on, due, fired[|f0|..])
      modifies this`lists, this`on, this`count, this`fired, this`nowIdx, this`nowTs, this`now
      ensures Valid() && now == old(now) + 1
      ensures old(fired) <= fired && n == |fired| - |old(fired)|
      ensures FiredOnTime(on0, on, due, fired[|f0|..])
      ensures forall i :: |old(fired)| <= i < |fired| ==> fired[i].at == old(now)
    {
      hide Sound, FiredOnTime, Wrap;
      n := FireSlot(on0, f0);
      ghost var on1 := on;
      Turn();
      SameKeysFired(on0, on1, on, due, fired[|f0|..]);
    }

    /** The wheel turns to the next slot; every thousand ticks the overflow list is looked through. */
    method Turn()
      requires Valid() && |lists| == SLOTS + 1 && lists[nowIdx] == []
      modifies this`lists, this`on, this`nowIdx, this`nowTs, this`now
      ensures Valid() && now == old(now) + 1 && on.Keys == old(on).Keys
    {
      hide Filed, Timed, Loose, Stamped, Wrap;
      AfterFiring(lists, on, due, tsRto, now, nowIdx);
      WrapAdd(now, 1);
      nowIdx := (nowIdx + 1) % SLOTS;
      nowTs := Wrap(nowTs + 1);
      now := now + 1;
      if nowTs % ADJUST_PERIOD == 0 {
        Adjust();
      }
    }

    /** rto_list_check: exactly the streams whose deadline has come by curTs fire, each once and at its tick. */
    method Check(curTs: U32) returns (n: nat)
      requires Valid()
      modifies this`lists, this`on, this`count, this`fired, this`nowIdx, this`nowTs, this`now
      ensures Valid() && old(fired) <= fired && n == |fired| - |old(fired)|
      ensures FiredOnTime(old(on), on, due, fired[|old(fired)|..])
      ensures forall id :: id in old(on) ==> id in due && (id in on <==> due[id] > old(now) + Diff(curTs, old(nowTs)))
      ensures var ahead := Diff(curTs, old(nowTs));
              now == if old(count) == 0 || ahead < 0 then old(now) else old(now) + ahead + 1
    {
      hide Sound, FiredOnTime, Wrap, Diff;
      n := 0;
      assert fired[|fired|..] == [];
      NoneFired(on, due);
      if count == 0 {
        assert on == map[];
        return;
      }
      ghost var cur := now + Diff(curTs, nowTs);
      WrapAdd(now, Diff(curTs, nowTs));
      while Diff(curTs, nowTs) >= 0
        invariant Valid() && curTs == Wrap(cur) && Diff(curTs, nowTs) == cur - now
        invariant old(fired) <= fired && n == |fired| - |old(fired)|
        invariant FiredOnTime(old(on), on, due, fired[|old(fired)|..])
        invariant forall i :: |old(fired)| <= i < |fired| ==> fired[i].at <= cur
        invariant now == old(now) || (old(now) < now <= cur + 1)
        decreases cur - now
      {
        var k := Tick(old(on), old(fired));
        n := n + k;
        DiffOfOffsets(cur, now);
      }
      FiredExactly(lists, old(on), on, due, tsRto, now, nowIdx, fired[|old(fired)|..], cur);
    }

    lemma ListsShape()
      requires Valid()
      ensures |lists| == SLOTS + 1
    {
    }
  }

  lemma AfterFiring(lists: Lists, on: map<Id, nat>, due: map<Id, int>, tsRto: map<Id, U32>, now: int, idx: nat)
    requires Sound(lists, on, due, tsRto, now, idx) && idx < SLOTS && |lists| == SLOTS + 1 && lists[idx] == []
    ensures Filed(lists, on) && Stamped(on, due, tsRto) && Loose(on, due, now + 1, (idx + 1) % SLOTS)
    ensures Wrap(now + 1) % ADJUST_PERIOD != 0 ==> Timed(on, due, now + 1, (idx + 1) % SLOTS)
  {
    TickTimed(lists, on, due, now, idx);
  }

  lemma SameKeysFired(on0: map<Id, nat>, on1: map<Id, nat>, on2: map<Id, nat>, due: map<Id, int>, f: seq<Firing>)
    requires FiredOnTime(on0, on1, due, f) && on1.Keys == on2.Keys
    ensures FiredOnTime(on0, on2, due, f)
  {
    assert |on1| == |on1.Keys| && |on2| == |on2.Keys|;
  }

  lemma NoneFired(on: map<Id, nat>, due: map<Id, int>)
    ensures FiredOnTime(on, on, due, [])
  {
  }

  /** Nothing on the wheel is overdue and nothing fired early. */
  lemma FiredExactly(lists: Lists, on0: map<Id, nat>, on: map<Id, nat>, due: map<Id, int>, tsRto: map<Id, U32>,
                     now: int, idx: nat, f: seq<Firing>, cur: int)
    requires Sound(lists, on, due, tsRto, now, idx) && FiredOnTime(on0, on, due, f) && cur < now
    requires forall i :: 0 <= i < |f| ==> f[i].at <= cur
    ensures forall id :: id in on0 ==> id in due && (id in on <==> due[id] > cur)
  {
    forall id | id in on0 ensures id in due && (id in on <==> due[id] > cur) {
      if id in on {
        assert InTime(on[id], due[id], now, idx);
      } else {
        assert id in Ids(f);
      }
    }
  }

  lemma FiledShape(lists: Lists, on: map<Id, nat>, k: nat)
    requires Filed(lists, on) && k <= SLOTS
    ensures |lists| == SLOTS + 1 && Distinct(lists[k])
    ensures forall j :: 0 <= j < |lists[k]| ==> lists[k][j] in on && on[lists[k][j]] == k
    ensures forall id :: id in on && on[id] == k ==> id in lists[k]
  {
  }

  /** What is still in the overflow list is yet to be looked at or far enough away. */
  ghost predicate Settled(on: map<Id, nat>, due: map<Id, int>, now: int, todo: seq<Id>) {
    forall id :: id in on && id in due && on[id] == SLOTS ==> id in todo || due[id] - now >= SLOTS
  }

  lemma StartSettled(lists: Lists, on: map<Id, nat>, due: map<Id, int>, now: int)
    requires Filed(lists, on)
    ensures Settled(on, due, now, lists[SLOTS])
  {
  }

  lemma SettledMove(on: map<Id, nat>, due: map<Id, int>, now: int, todo: seq<Id>, id: Id, k: nat)
    requires Settled(on, due, now, [id] + todo) && k < SLOTS
    ensures Settled(on[id := k], due, now, todo)
  {
  }

  lemma SettledStay(on: map<Id, nat>, due: map<Id, int>, now: int, todo: seq<Id>, id: Id)
    requires Settled(on, due, now, [id] + todo) && id in due && due[id] - now >= SLOTS
    ensures Settled(on, due, now, todo)
  {
  }

  lemma AllSettled(lists: Lists, on: map<Id, nat>, due: map<Id, int>, tsRto: map<Id, U32>, now: int, idx: nat)
    requires Filed(lists, on) && Stamped(on, due, tsRto) && Loose(on, due, now, idx) && Settled(on, due, now, [])
    requires Wrap(now) % ADJUST_PERIOD == 0
    ensures Sound(lists, on, due, tsRto, now, idx)
  {
  }

  lemma StampOf(on: map<Id, nat>, due: map<Id, int>, tsRto: map<Id, U32>, now: int, idx: nat, id: Id)
    requires Stamped(on, due, tsRto) && Loose(on, due, now, idx) && id in on && on[id] == SLOTS
    ensures id in tsRto && id in due && Diff(tsRto[id], Wrap(now)) == due[id] - now >= SLOTS - ADJUST_PERIOD
  {
    DiffOfOffsets(due[id], now);
  }

  /** A stream moves from the overflow list to its slot. */
  lemma MoveIn(lists: Lists, on: map<Id, nat>, due: map<Id, int>, tsRto: map<Id, U32>, now: int, idx: nat, id: Id)
    requires Filed(lists, on) && Stamped(on, due, tsRto) && Loose(on, due, now, idx) && idx < SLOTS
    requires id in on && on[id] == SLOTS && id in due && due[id] - now < SLOTS && |lists| == SLOTS + 1
    ensures var k := SlotFor(due[id] - now, idx);
            var lists1 := lists[SLOTS := Without(lists[SLOTS], id)];
            && k < SLOTS && Filed(lists1[k := lists1[k] + [id]], on[id := k])
            && Stamped(on[id := k], due, tsRto) && Loose(on[id := k], due, now, idx)
  {
    hide InTime, Wrap;
    var k := SlotFor(due[id] - now, idx);
    SlotForInTime(due[id], now, idx);
    MoveFiled(lists, on, id, k);
  }

  lemma MoveFiled(lists: Lists, on: map<Id, nat>, id: Id, k: nat)
    requires Filed(lists, on) && id in on && on[id] == SLOTS && k < SLOTS
    ensures var lists1 := lists[SLOTS := Without(lists[SLOTS], id)];
            Filed(lists1[k := lists1[k] + [id]], on[id := k])
  {
    var l' := Without(lists[SLOTS], id);
    WithoutOne(lists[SLOTS], id);
    FileOut(lists, on, id, l');
    FileIn(lists[SLOTS := l'], on - {id}, id, k);
    assert (on - {id})[id := k] == on[id := k];
  }

  lemma TakenOut(lists: Lists, on: map<Id, nat>, due: map<Id, int>, tsRto: map<Id, U32>, now: int, idx: nat, id: Id)
    requires Sound(lists, on, due, tsRto, now, idx) && id in on
    ensures |lists| == SLOTS + 1 && on[id] <= SLOTS && |on - {id}| == |on| - 1
    ensures Sound(lists[on[id] := Without(lists[on[id]], id)], on - {id}, due, tsRto, now, idx)
  {
    WithoutOne(lists[on[id]], id);
    SoundOut(lists, on, due, tsRto, now, idx, id, Without(lists[on[id]], id));
  }

  lemma HeadOut(lists: Lists, on: map<Id, nat>, due: map<Id, int>, tsRto: map<Id, U32>, now: int, idx: nat)
    requires Sound(lists, on, due, tsRto, now, idx) && |lists| == SLOTS + 1 && idx < SLOTS && lists[idx] != []
    ensures var id := lists[idx][0];
            && id in on && id in due && due[id] == now
            && Sound(lists[idx := lists[idx][1..]], on - {id}, due, tsRto, now, idx)
            && |on - {id}| == |on| - 1
  {
    var l := lists[idx];
    assert l == [l[0]] + l[1..];
    assert l[0] in l;
    DistinctCons(l[0], l[1..]);
    SlotIsDue(on[l[0]], due[l[0]], now, idx);
    SoundOut(lists, on, due, tsRto, now, idx, l[0], l[1..]);
  }

  /** A deadline before the wheel: the wheel starts at 0 for a stream that never had a deadline, and at time 2^31 a
      deadline is as far behind that as ahead.  It is filed where the wheel does not find it in time. */
  method FirstStreamLate() returns (w: Wheel)
    ensures fresh(w) && 7 in w.on && 7 in w.tsRto && w.tsRto[7] == 0x8000_01F4 && w.nowTs == 0 && !w.Valid()
  {
    w := new Wheel();
    var ret := w.Add(7, 0x8000_0000, 500, false);
  }
}
