/**
 The flow table of the stack: a two-choice cuckoo hash with eight entries a bucket, a key store
 addressed by slot number, and a ring of the slot numbers that are free.  Single-writer mode.
 */
module CuckooTable {

  const BUCKET_ENTRIES: nat := 8
  const EMPTY_SLOT: nat := 0

  /** One entry of a bucket: the signature that chose this bucket, the signature of the other bucket
      the key may live in, and the slot of the key store. */
  datatype Entry = Entry(cur: bv32, alt: bv32, idx: nat)

  datatype Pos = Pos(b: nat, i: nat)

  type Table = seq<seq<Entry>>

  type Flags = seq<seq<bool>>

  /** The entry as it reads after it has been pushed to its other bucket. */
  function Moved(e: Entry): Entry {
    Entry(e.alt, e.cur, e.idx)
  }

  function SecondaryHash(primary: bv32): bv32 {
    primary ^ (((primary >> 12) + 1) * 0x5bd1e995)
  }

  /** The two signatures of a key differ, so no pair is (0, 0) and an empty entry never matches. */
  lemma SecondaryDiffers(s: bv32)
    ensures SecondaryHash(s) != s
  {
  }

  function Remainder(n: nat, d: nat): (r: nat)
    requires d > 0
    ensures r < d
  {
    n % d
  }

  /** sig & bucket_bitmask, the number of buckets being a power of two. */
  function BucketOf(sig: bv32, numBuckets: nat): (b: nat)
    requires numBuckets > 0
    ensures b < numBuckets
  {
    Remainder(sig as nat, numBuckets)
  }

  ghost predicate Shape(t: Table) {
    |t| > 0 && forall b :: 0 <= b < |t| ==> |t[b]| == BUCKET_ENTRIES
  }

  ghost predicate FlagShape(f: Flags, t: Table) {
    |f| == |t| && forall b :: 0 <= b < |f| ==> |f[b]| == BUCKET_ENTRIES
  }

  ghost predicate InTable(t: Table, p: Pos) {
    p.b < |t| && p.i < BUCKET_ENTRIES
  }

  function At(t: Table, p: Pos): Entry
    requires Shape(t) && InTable(t, p)
  {
    t[p.b][p.i]
  }

  function Put(t: Table, p: Pos, e: Entry): (t': Table)
    requires Shape(t) && InTable(t, p)
    ensures Shape(t') && |t'| == |t|
    ensures forall q :: InTable(t, q) ==> At(t', q) == if q == p then e else At(t, q)
  {
    t[p.b := t[p.b][p.i := e]]
  }

  function Marked(f: Flags, t: Table, p: Pos): bool
    requires FlagShape(f, t) && InTable(t, p)
  {
    f[p.b][p.i]
  }

  function Mark(f: Flags, t: Table, p: Pos, v: bool): (f': Flags)
    requires FlagShape(f, t) && InTable(t, p)
    ensures FlagShape(f', t)
    ensures forall q :: InTable(t, q) ==> Marked(f', t, q) == if q == p then v else Marked(f, t, q)
  {
    f[p.b := f[p.b][p.i := v]]
  }

  /** `loc` gives for each used slot the place of its entry: exactly the entries outside `holes`. */
  ghost predicate Located(t: Table, loc: map<nat, Pos>, holes: set<Pos>)
    requires Shape(t)
  {
    && (forall idx :: idx in loc ==>
          idx != EMPTY_SLOT && InTable(t, loc[idx]) && loc[idx] !in holes && At(t, loc[idx]).idx == idx)
    && (forall p :: InTable(t, p) && p !in holes && At(t, p).idx != EMPTY_SLOT ==>
          At(t, p).idx in loc && loc[At(t, p).idx] == p)
  }

  /** Each entry is in the bucket its current signature names. */
  ghost predicate Homed(t: Table, loc: map<nat, Pos>)
    requires Shape(t)
  {
    forall idx :: idx in loc && InTable(t, loc[idx]) ==>
      BucketOf(At(t, loc[idx]).cur, |t|) == loc[idx].b
  }

  ghost predicate SameOrMoved(e: Entry, e': Entry) {
    e' == e || e' == Moved(e)
  }

  /** Entries may have moved between their two buckets, but none was lost, added or altered. */
  ghost predicate Preserved(t: Table, loc: map<nat, Pos>, t': Table, loc': map<nat, Pos>)
    requires Shape(t) && Shape(t')
  {
    && |t| == |t'|
    && loc.Keys == loc'.Keys
    && forall idx :: idx in loc && InTable(t, loc[idx]) && InTable(t', loc'[idx]) ==>
         SameOrMoved(At(t, loc[idx]), At(t', loc'[idx]))
  }

  lemma PreservedTrans(t0: Table, l0: map<nat, Pos>, t1: Table, l1: map<nat, Pos>, h1: set<Pos>,
                       t2: Table, l2: map<nat, Pos>)
    requires Shape(t0) && Shape(t1) && Shape(t2)
    requires Located(t1, l1, h1)
    requires Preserved(t0, l0, t1, l1) && Preserved(t1, l1, t2, l2)
    ensures Preserved(t0, l0, t2, l2)
  {
  }

  /** Copying entry p, signatures swapped, over the hole q of its alternative bucket makes p the hole. */
  lemma PushKeeps(t: Table, loc: map<nat, Pos>, p: Pos, q: Pos)
    requires Shape(t) && InTable(t, p) && InTable(t, q) && p != q
    requires Located(t, loc, {q}) && Homed(t, loc)
    requires At(t, p).idx != EMPTY_SLOT
    requires q.b == BucketOf(At(t, p).alt, |t|)
    ensures var t' := Put(t, q, Moved(At(t, p)));
            var loc' := loc[At(t, p).idx := q];
            Located(t', loc', {p}) && Homed(t', loc') && Preserved(t, loc, t', loc')
  {
    var e := At(t, p);
    var t' := Put(t, q, Moved(e));
    var loc' := loc[e.idx := q];
    assert loc.Keys == loc'.Keys;
    forall idx | idx in loc'
      ensures InTable(t', loc'[idx]) && loc'[idx] != p && At(t', loc'[idx]).idx == idx
      ensures BucketOf(At(t', loc'[idx]).cur, |t|) == loc'[idx].b
      ensures SameOrMoved(At(t, loc[idx]), At(t', loc'[idx]))
    {
    }
  }

  ghost predicate BucketFull(t: Table, b: nat)
    requires Shape(t) && b < |t|
  {
    forall j :: 0 <= j < BUCKET_ENTRIES ==> At(t, Pos(b, j)).idx != EMPTY_SLOT
  }

  /** No entry of bucket b can be pushed directly. */
  ghost predicate NoRoomFrom(t: Table, b: nat)
    requires Shape(t) && b < |t|
  {
    forall i :: 0 <= i < BUCKET_ENTRIES ==> BucketFull(t, BucketOf(At(t, Pos(b, i)).alt, |t|))
  }

  /** An entry is flagged only in a full bucket whose alternatives were all found full. */
  ghost predicate FlagsExplored(t: Table, f: Flags)
    requires Shape(t) && FlagShape(f, t)
  {
    forall p :: InTable(t, p) && Marked(f, t, p) ==> BucketFull(t, p.b) && NoRoomFrom(t, p.b)
  }

  /** What a successful eviction leaves: entry h may be overwritten because what it held, like every
      other entry, is stored elsewhere in one of its two buckets; flagged entries were not touched. */
  ghost predicate SpaceMade(t: Table, loc: map<nat, Pos>, f: Flags, t': Table, loc': map<nat, Pos>, h: Pos)
    requires Shape(t) && FlagShape(f, t)
  {
    && Shape(t') && |t'| == |t| && InTable(t, h)
    && !Marked(f, t, h)
    && Located(t', loc', {h}) && Homed(t', loc') && Preserved(t, loc, t', loc')
    && (forall p :: InTable(t, p) && (p == h || Marked(f, t, p) || At(t', p).idx == EMPTY_SLOT) ==>
          At(t', p) == At(t, p))
  }

  lemma SpaceShape(t: Table, loc: map<nat, Pos>, f: Flags, t': Table, loc': map<nat, Pos>, h: Pos)
    requires Shape(t) && FlagShape(f, t) && SpaceMade(t, loc, f, t', loc', h)
    ensures Shape(t') && |t'| == |t| && FlagShape(f, t') && InTable(t', h)
    ensures Located(t', loc', {h}) && Homed(t', loc') && loc'.Keys == loc.Keys
  {
    hide Located, Homed;
  }

  /** A revisited bucket is never the end of an eviction path. */
  lemma RoomMeansUnflagged(t: Table, f: Flags, p: Pos, q: Pos)
    requires Shape(t) && FlagShape(f, t) && InTable(t, p) && InTable(t, q)
    requires FlagsExplored(t, f)
    requires At(t, q).idx == EMPTY_SLOT && q.b == BucketOf(At(t, p).alt, |t|)
    ensures !Marked(f, t, p) && !Marked(f, t, q)
  {
    assert At(t, Pos(q.b, q.i)) == At(t, q) && At(t, Pos(p.b, p.i)) == At(t, p);
    assert !BucketFull(t, q.b);
    assert !NoRoomFrom(t, p.b);
  }

  /** The end of an eviction path: entry p goes to the empty entry q. */
  lemma PushToEmpty(t: Table, loc: map<nat, Pos>, f: Flags, p: Pos, q: Pos)
    requires Shape(t) && FlagShape(f, t) && InTable(t, p) && InTable(t, q)
    requires Located(t, loc, {}) && Homed(t, loc) && !Marked(f, t, p) && !Marked(f, t, q)
    requires At(t, p).idx != EMPTY_SLOT && At(t, q).idx == EMPTY_SLOT
    requires q.b == BucketOf(At(t, p).alt, |t|)
    ensures SpaceMade(t, loc, f, Put(t, q, Moved(At(t, p))), loc[At(t, p).idx := q], p)
  {
    assert Located(t, loc, {q});
    PushKeeps(t, loc, p, q);
  }

  /** One step back along the path: room was made at q with p flagged, now p goes to q. */
  lemma PushBack(t: Table, loc: map<nat, Pos>, f: Flags, t1: Table, loc1: map<nat, Pos>, p: Pos, q: Pos)
    requires Shape(t) && FlagShape(f, t) && InTable(t, p) && !Marked(f, t, p)
    requires At(t, p).idx != EMPTY_SLOT && q.b == BucketOf(At(t, p).alt, |t|)
    requires SpaceMade(t, loc, Mark(f, t, p, true), t1, loc1, q)
    ensures SpaceMade(t, loc, f, Put(t1, q, Moved(At(t1, p))), loc1[At(t1, p).idx := q], p)
  {
    var f1 := Mark(f, t, p, true);
    assert Marked(f1, t, p) && !Marked(f1, t, q);
    assert At(t1, p) == At(t, p);
    PushKeeps(t1, loc1, p, q);
    PreservedTrans(t, loc, t1, loc1, {q}, Put(t1, q, Moved(At(t1, p))), loc1[At(t1, p).idx := q]);
  }

  lemma MarkTwice(f: Flags, t: Table, p: Pos)
    requires FlagShape(f, t) && InTable(t, p) && !Marked(f, t, p)
    ensures Mark(Mark(f, t, p, true), t, p, false) == f
  {
    assert f[p.b][p.i := true][p.i := false] == f[p.b];
  }

  /** Flagging an entry of a bucket with no room keeps FlagsExplored. */
  lemma MarkExplored(t: Table, f: Flags, p: Pos)
    requires Shape(t) && FlagShape(f, t) && InTable(t, p)
    requires FlagsExplored(t, f) && BucketFull(t, p.b) && NoRoomFrom(t, p.b)
    ensures FlagsExplored(t, Mark(f, t, p, true))
  {
  }
}

/** The path an eviction tries: which entries it visits, and when it comes to nothing. */
module CuckooWalk {
  import opened CuckooTable

  const MAX_PUSHES: nat := 100

  function OtherBucket(t: Table, p: Pos): (b: nat)
    requires Shape(t) && InTable(t, p)
    ensures b < |t|
  {
    BucketOf(At(t, p).alt, |t|)
  }

  ghost predicate AllIn(t: Table, walk: seq<Pos>) { forall k :: 0 <= k < |walk| ==> InTable(t, walk[k]) }

  /** The bucket a walk from bucket b has come to. */
  ghost function EndOf(t: Table, b: nat, walk: seq<Pos>): (e: nat)
    requires Shape(t) && b < |t| && AllIn(t, walk)
    ensures e < |t|
  {
    if walk == [] then b else OtherBucket(t, walk[|walk| - 1])
  }

  /** p is the first entry of bucket b that is not on the walk. */
  ghost predicate FirstOff(walk: seq<Pos>, b: nat, p: Pos) {
    p.b == b && p !in walk && forall j: nat :: j < p.i ==> Pos(b, j) in walk
  }

  /** A full bucket none of whose entries can be pushed directly. */
  ghost predicate Blocked(t: Table, b: nat)
    requires Shape(t) && b < |t|
  {
    BucketFull(t, b) && NoRoomFrom(t, b)
  }

  /** From bucket b on, each step takes the first entry of a blocked bucket that was not taken yet and goes to that
      entry's other bucket. */
  ghost predicate IsWalk(t: Table, b: nat, walk: seq<Pos>)
    requires Shape(t) && b < |t|
  {
    && AllIn(t, walk)
    && forall k :: 0 <= k < |walk| ==> FirstOff(walk[..k], EndOf(t, b, walk[..k]), walk[k]) && Blocked(t, walk[k].b)
  }

  /** The walk takes more pushes than are allowed, or comes to a blocked bucket all of whose entries it has taken. */
  ghost predicate DeadEnd(t: Table, b: nat, walk: seq<Pos>)
    requires Shape(t) && b < |t|
  {
    && IsWalk(t, b, walk)
    && (|| |walk| > MAX_PUSHES
        || var e := EndOf(t, b, walk); Blocked(t, e) && forall j: nat :: j < BUCKET_ENTRIES ==> Pos(e, j) in walk)
  }

  /** Within the allowed pushes the walk comes to a bucket with an entry that can be pushed directly. */
  ghost predicate Escape(t: Table, b: nat, walk: seq<Pos>)
    requires Shape(t) && b < |t|
  {
    IsWalk(t, b, walk) && |walk| <= MAX_PUSHES && !NoRoomFrom(t, EndOf(t, b, walk))
  }

  ghost predicate Stuck(t: Table, b: nat) {
    Shape(t) && b < |t| && exists walk :: DeadEnd(t, b, walk)
  }

  lemma WalkOne(t: Table, b: nat, walk: seq<Pos>, p: Pos)
    requires Shape(t) && b < |t| && IsWalk(t, b, walk) && InTable(t, p)
    requires FirstOff(walk, EndOf(t, b, walk), p) && Blocked(t, p.b)
    ensures IsWalk(t, b, walk + [p]) && EndOf(t, b, walk + [p]) == OtherBucket(t, p)
  {
    hide FirstOff, Blocked;
    var w := walk + [p];
    forall k | 0 <= k < |w| ensures FirstOff(w[..k], EndOf(t, b, w[..k]), w[k]) && Blocked(t, w[k].b) {
      assert w[..k] == walk[..k];
      assert w[..|walk|] == walk && walk[..|walk|] == walk;
    }
  }

  lemma WalkAt(t: Table, b: nat, walk: seq<Pos>, k: nat)
    requires Shape(t) && b < |t| && IsWalk(t, b, walk) && k < |walk|
    ensures InTable(t, walk[k]) && AllIn(t, walk[..k]) && Blocked(t, walk[k].b)
    ensures FirstOff(walk[..k], EndOf(t, b, walk[..k]), walk[k])
  {
    hide FirstOff, Blocked;
  }

  lemma FirstOffUnique(walk: seq<Pos>, b: nat, p: Pos, q: Pos)
    requires FirstOff(walk, b, p) && FirstOff(walk, b, q)
    ensures p == q
  {
    assert p == Pos(b, p.i) && q == Pos(b, q.i);
  }

  /** There is no choice on a walk. */
  lemma {:induction false} WalkUnique(t: Table, b: nat, v: seq<Pos>, w: seq<Pos>, n: nat)
    requires Shape(t) && b < |t| && IsWalk(t, b, v) && IsWalk(t, b, w) && n <= |v| && n <= |w|
    ensures v[..n] == w[..n]
  {
    hide IsWalk, FirstOff, Shape, EndOf, Blocked;
    if n > 0 {
      WalkUnique(t, b, v, w, n - 1);
      WalkAt(t, b, v, n - 1);
      WalkAt(t, b, w, n - 1);
      FirstOffUnique(v[..n - 1], EndOf(t, b, v[..n - 1]), v[n - 1], w[n - 1]);
      assert v[..n] == v[..n - 1] + [v[n - 1]] && w[..n] == w[..n - 1] + [w[n - 1]];
    }
  }

  /** Where a longer walk goes on. */
  lemma GoesOn(t: Table, b: nat, v: seq<Pos>, w: seq<Pos>) returns (i: nat)
    requires Shape(t) && b < |t| && IsWalk(t, b, v) && IsWalk(t, b, w) && |v| < |w|
    ensures AllIn(t, v) && Blocked(t, EndOf(t, b, v)) && i < BUCKET_ENTRIES && Pos(EndOf(t, b, v), i) !in v
  {
    hide Shape, EndOf, Blocked;
    WalkUnique(t, b, v, w, |v|);
    assert v[..|v|] == v;
    WalkAt(t, b, w, |v|);
    i := w[|v|].i;
  }

  /** A bucket from which a walk escapes is not stuck. */
  lemma EscapeIsExact(t: Table, b: nat, walk: seq<Pos>)
    requires Shape(t) && b < |t| && Escape(t, b, walk)
    ensures !Stuck(t, b)
  {
    hide BucketFull, NoRoomFrom, Shape, EndOf, IsWalk;
    forall d | DeadEnd(t, b, d) ensures false {
      if |walk| < |d| {
        var i := GoesOn(t, b, walk, d);
      } else if |d| < |walk| {
        var i := GoesOn(t, b, d, walk);
      } else {
        WalkUnique(t, b, walk, d, |d|);
        SamePrefix(walk, d);
      }
    }
  }

  lemma SamePrefix(v: seq<Pos>, w: seq<Pos>)
    requires |v| == |w| && v[..|w|] == w[..|w|]
    ensures v == w
  {
    assert v[..|w|] == v && w[..|w|] == w;
  }

  // ----- flags -----

  /** Exactly the entries on the walk are flagged. */
  ghost predicate Flagged(f: Flags, t: Table, walk: seq<Pos>) {
    FlagShape(f, t) && forall p :: InTable(t, p) ==> (Marked(f, t, p) <==> p in walk)
  }

  lemma FlaggedExplored(f: Flags, t: Table, b: nat, walk: seq<Pos>)
    requires Shape(t) && b < |t| && IsWalk(t, b, walk) && Flagged(f, t, walk)
    ensures FlagsExplored(t, f)
  {
    forall p | InTable(t, p) && Marked(f, t, p) ensures BucketFull(t, p.b) && NoRoomFrom(t, p.b) {
      var k :| 0 <= k < |walk| && walk[k] == p;
      assert FirstOff(walk[..k], EndOf(t, b, walk[..k]), walk[k]);
    }
  }

  lemma RoomLeft(t: Table, b: nat, i: nat, j: nat)
    requires Shape(t) && b < |t| && i < BUCKET_ENTRIES && j < BUCKET_ENTRIES
    requires At(t, Pos(OtherBucket(t, Pos(b, i)), j)).idx == EMPTY_SLOT
    ensures !NoRoomFrom(t, b)
  {
    assert !BucketFull(t, OtherBucket(t, Pos(b, i)));
  }

  lemma AllFlagged(f: Flags, t: Table, b: nat, walk: seq<Pos>)
    requires Flagged(f, t, walk) && b < |t|
    requires forall k :: 0 <= k < BUCKET_ENTRIES ==> Marked(f, t, Pos(b, k))
    ensures forall j: nat :: j < BUCKET_ENTRIES ==> Pos(b, j) in walk
  {
  }

  lemma NotFlagged(f: Flags, t: Table, p: Pos, walk: seq<Pos>)
    requires Flagged(f, t, walk) && InTable(t, p) && !Marked(f, t, p)
    requires forall k :: 0 <= k < p.i ==> Marked(f, t, Pos(p.b, k))
    ensures FirstOff(walk, p.b, p)
  {
  }

  lemma MarkFlagged(f: Flags, t: Table, p: Pos, walk: seq<Pos>)
    requires Flagged(f, t, walk) && InTable(t, p)
    ensures Flagged(Mark(f, t, p, true), t, walk + [p])
  {
  }

  lemma StuckBy(t: Table, b: nat, walk: seq<Pos>)
    requires Shape(t) && b < |t| && DeadEnd(t, b, walk)
    ensures Stuck(t, b)
  {
  }

  /** A stuck bucket is full and none of its entries can be pushed directly. */
  lemma StuckIsBlocked(t: Table, b: nat)
    requires Stuck(t, b)
    ensures Blocked(t, b)
  {
    hide Blocked;
    var walk :| DeadEnd(t, b, walk);
    if walk != [] {
      assert FirstOff(walk[..0], EndOf(t, b, walk[..0]), walk[0]);
    }
  }
}

/** What the table holds: keys, their slots, and the slots that are free. */
module CuckooContents {
  import opened Common
  import opened CuckooTable

  /** The two ways the source accepts an entry whose current signature matches: add compares the other
      signature as well, delete checks that the entry is in use, lookup does the one and then the other. */
  datatype Scan = ByPair | ByUse

  predicate Accepts(scan: Scan, e: Entry, cur: bv32, alt: bv32) {
    e.cur == cur && (if scan.ByPair? then e.alt == alt else e.idx != EMPTY_SLOT)
  }

  ghost predicate SigPair(e: Entry, sig: bv32) {
    || (e.cur == sig && e.alt == SecondaryHash(sig))
    || (e.cur == SecondaryHash(sig) && e.alt == sig)
  }

  /** Every entry carries the two signatures of the key in its slot. */
  ghost predicate Signed<Key>(t: Table, loc: map<nat, Pos>, keys: seq<Key>, hash: Key -> bv32)
    requires Shape(t)
  {
    forall idx :: idx in loc && InTable(t, loc[idx]) ==>
      idx < |keys| && SigPair(At(t, loc[idx]), hash(keys[idx]))
  }

  ghost predicate EmptyIsZero(t: Table)
    requires Shape(t)
  {
    forall p :: InTable(t, p) && At(t, p).idx == EMPTY_SLOT ==> At(t, p) == Entry(0, 0, EMPTY_SLOT)
  }

  /** `index` and `loc` agree: one slot for each key, one entry for each slot. */
  ghost predicate Indexed<Key>(loc: map<nat, Pos>, keys: seq<Key>, index: map<Key, nat>) {
    && (forall k :: k in index ==> index[k] in loc && index[k] < |keys| && keys[index[k]] == k)
    && (forall idx :: idx in loc ==> idx < |keys| && keys[idx] in index && index[keys[idx]] == idx)
  }

  ghost predicate Stored<Key>(t: Table, loc: map<nat, Pos>, keys: seq<Key>, index: map<Key, nat>,
                              hash: Key -> bv32)
  {
    && Shape(t) && Located(t, loc, {}) && Homed(t, loc) && |keys| > 0
    && Signed(t, loc, keys, hash) && EmptyIsZero(t) && Indexed(loc, keys, index)
  }

  /** A key in the table is in one of its two buckets, under the matching signature. */
  lemma WhereKeyIs<Key>(t: Table, loc: map<nat, Pos>, keys: seq<Key>, index: map<Key, nat>,
                        hash: Key -> bv32, key: Key)
    requires Stored(t, loc, keys, index, hash) && key in index
    ensures var p := loc[index[key]];
            var sig := hash(key);
            && InTable(t, p) && At(t, p).idx == index[key] != EMPTY_SLOT
            && (|| (p.b == BucketOf(sig, |t|) && At(t, p) == Entry(sig, SecondaryHash(sig), index[key]))
                || (p.b == BucketOf(SecondaryHash(sig), |t|)
                    && At(t, p) == Entry(SecondaryHash(sig), sig, index[key])))
  {
    var p := loc[index[key]];
    assert SigPair(At(t, p), hash(keys[index[key]]));
  }

  /** An entry that a scan accepts really is the entry of the key: never an empty or stale one. */
  lemma MatchIsKey<Key>(t: Table, loc: map<nat, Pos>, keys: seq<Key>, index: map<Key, nat>,
                        hash: Key -> bv32, key: Key, p: Pos)
    requires Stored(t, loc, keys, index, hash) && InTable(t, p)
    requires At(t, p).idx < |keys| && keys[At(t, p).idx] == key
    requires At(t, p).idx != EMPTY_SLOT || SigPair(At(t, p), hash(key))
    ensures key in index && loc[index[key]] == p && At(t, p).idx == index[key]
  {
    SecondaryDiffers(hash(key));
  }

  ghost predicate InStore<Key>(t: Table, keys: seq<Key>)
    requires Shape(t)
  {
    forall p :: InTable(t, p) ==> At(t, p).idx < |keys|
  }

  lemma EntriesInStore<Key>(t: Table, loc: map<nat, Pos>, keys: seq<Key>, index: map<Key, nat>,
                            hash: Key -> bv32)
    requires Stored(t, loc, keys, index, hash)
    ensures InStore(t, keys)
  {
  }

  ghost predicate Hit<Key>(t: Table, p: Pos, cur: bv32, alt: bv32, scan: Scan, keys: seq<Key>, key: Key)
    requires Shape(t) && InStore(t, keys) && InTable(t, p)
  {
    Accepts(scan, At(t, p), cur, alt) && keys[At(t, p).idx] == key
  }

  /** What a scan of either bucket meets is the key's entry. */
  lemma HitIsKey<Key>(t: Table, loc: map<nat, Pos>, keys: seq<Key>, index: map<Key, nat>,
                      hash: Key -> bv32, key: Key, cur: bv32, alt: bv32, scan: Scan, p: Pos)
    requires Stored(t, loc, keys, index, hash) && InStore(t, keys) && InTable(t, p)
    requires (cur == hash(key) && alt == SecondaryHash(hash(key))) || (alt == hash(key) && cur == SecondaryHash(hash(key)))
    requires Hit(t, p, cur, alt, scan, keys, key)
    ensures key in index && index[key] in loc && loc[index[key]] == p && At(t, p).idx == index[key] != EMPTY_SLOT
  {
    hide Located, Homed, Signed, EmptyIsZero, SecondaryHash;
    MatchIsKey(t, loc, keys, index, hash, key, p);
    WhereKeyIs(t, loc, keys, index, hash, key);
  }

  /** A key in the table is met by the scan of the bucket it is in, whichever way the scan compares. */
  lemma PresentIsHit<Key>(t: Table, loc: map<nat, Pos>, keys: seq<Key>, index: map<Key, nat>,
                          hash: Key -> bv32, key: Key, first: Scan, second: Scan)
    requires Stored(t, loc, keys, index, hash) && InStore(t, keys) && key in index
    ensures var sig := hash(key); var alt := SecondaryHash(sig);
            var p := loc[index[key]];
            && InTable(t, p)
            && (|| (p.b == BucketOf(sig, |t|) && Hit(t, p, sig, alt, first, keys, key))
                || (p.b == BucketOf(alt, |t|) && Hit(t, p, alt, sig, second, keys, key)))
  {
    WhereKeyIs(t, loc, keys, index, hash, key);
  }

  /** Eight different keys that have bucket b as one of their two. */
  ghost predicate Crowd<Key>(ks: seq<Key>, keys: set<Key>, hash: Key -> bv32, buckets: nat, b: nat)
    requires buckets > 0
  {
    && |ks| == BUCKET_ENTRIES && (forall i, j :: 0 <= i < j < |ks| ==> ks[i] != ks[j])
    && (forall i :: 0 <= i < |ks| ==>
          && ks[i] in keys
          && (BucketOf(hash(ks[i]), buckets) == b || BucketOf(SecondaryHash(hash(ks[i])), buckets) == b))
  }

  ghost predicate Crowded<Key(!new)>(keys: set<Key>, hash: Key -> bv32, buckets: nat, b: nat)
    requires buckets > 0
  {
    exists ks :: Crowd(ks, keys, hash, buckets, b)
  }

  /** Bucket b is full and there is no way out of it: eight keys that belong to it, and both buckets of each of them
      have eight keys that belong there. */
  ghost predicate Jammed<Key(!new)>(keys: set<Key>, hash: Key -> bv32, buckets: nat, b: nat)
    requires buckets > 0
  {
    exists ks :: Crowd(ks, keys, hash, buckets, b) && forall i :: 0 <= i < |ks| ==>
      && Crowded(keys, hash, buckets, BucketOf(hash(ks[i]), buckets))
      && Crowded(keys, hash, buckets, BucketOf(SecondaryHash(hash(ks[i])), buckets))
  }

  /** The stored key of an entry. */
  lemma EntryKey<Key>(t: Table, loc: map<nat, Pos>, keys: seq<Key>, index: map<Key, nat>, hash: Key -> bv32, p: Pos)
    requires Stored(t, loc, keys, index, hash) && InTable(t, p) && At(t, p).idx != EMPTY_SLOT
    ensures var e := At(t, p);
            && e.idx in loc && loc[e.idx] == p && e.idx < |keys| && keys[e.idx] in index && index[keys[e.idx]] == e.idx
            && SigPair(e, hash(keys[e.idx])) && BucketOf(e.cur, |t|) == p.b
  {
    hide SecondaryHash, BucketOf, SigPair;
  }

  /** A full bucket is full of different stored keys that belong there. */
  lemma FullIsCrowd<Key>(t: Table, loc: map<nat, Pos>, keys: seq<Key>, index: map<Key, nat>, hash: Key -> bv32, b: nat)
    returns (ks: seq<Key>)
    requires Stored(t, loc, keys, index, hash) && b < |t| && BucketFull(t, b)
    ensures Crowd(ks, index.Keys, hash, |t|, b)
    ensures forall i :: 0 <= i < BUCKET_ENTRIES ==>
              At(t, Pos(b, i)).idx < |keys| && ks[i] == keys[At(t, Pos(b, i)).idx]
  {
    hide SecondaryHash, BucketOf, Located, Homed, Signed, Indexed, EmptyIsZero;
    forall i | 0 <= i < BUCKET_ENTRIES
      ensures var e := At(t, Pos(b, i));
              && e.idx in loc && loc[e.idx] == Pos(b, i) && e.idx < |keys| && keys[e.idx] in index && index[keys[e.idx]] == e.idx
              && SigPair(e, hash(keys[e.idx])) && BucketOf(e.cur, |t|) == b
    {
      EntryKey(t, loc, keys, index, hash, Pos(b, i));
    }
    ks := seq(BUCKET_ENTRIES, i requires 0 <= i < BUCKET_ENTRIES => keys[At(t, Pos(b, i)).idx]);
  }

  lemma FullIsCrowded<Key(!new)>(t: Table, loc: map<nat, Pos>, keys: seq<Key>, index: map<Key, nat>, hash: Key -> bv32, b: nat)
    requires Stored(t, loc, keys, index, hash) && b < |t| && BucketFull(t, b)
    ensures Crowded(index.Keys, hash, |t|, b)
  {
    hide Stored, Crowd;
    var ks := FullIsCrowd(t, loc, keys, index, hash, b);
  }

  /** If no entry of a full bucket can be moved either, all keys around it are in its way. */
  lemma NoRoomIsJammed<Key(!new)>(t: Table, loc: map<nat, Pos>, keys: seq<Key>, index: map<Key, nat>, hash: Key -> bv32, b: nat)
    requires Stored(t, loc, keys, index, hash) && b < |t| && BucketFull(t, b) && NoRoomFrom(t, b)
    ensures Jammed(index.Keys, hash, |t|, b)
  {
    hide Located, Homed, Signed, Indexed, EmptyIsZero, Crowd, Crowded, SecondaryHash, BucketOf, BucketFull;
    var ks := FullIsCrowd(t, loc, keys, index, hash, b);
    CrowdSize(ks, index.Keys, hash, |t|, b);
    forall i | 0 <= i < |ks|
      ensures Crowded(index.Keys, hash, |t|, BucketOf(hash(ks[i]), |t|))
      ensures Crowded(index.Keys, hash, |t|, BucketOf(SecondaryHash(hash(ks[i])), |t|))
    {
      FullEntry(t, b, i);
      EntryKey(t, loc, keys, index, hash, Pos(b, i));
      FullIsCrowded(t, loc, keys, index, hash, b);
      FullIsCrowded(t, loc, keys, index, hash, BucketOf(At(t, Pos(b, i)).alt, |t|));
    }
  }

  lemma CrowdSize<Key>(ks: seq<Key>, keys: set<Key>, hash: Key -> bv32, buckets: nat, b: nat)
    requires buckets > 0 && Crowd(ks, keys, hash, buckets, b)
    ensures |ks| == BUCKET_ENTRIES
  {
  }

  lemma FullEntry(t: Table, b: nat, i: nat)
    requires Shape(t) && b < |t| && i < BUCKET_ENTRIES && BucketFull(t, b)
    ensures InTable(t, Pos(b, i)) && At(t, Pos(b, i)).idx != EMPTY_SLOT
  {
  }

  /** Slots and keys correspond one to one. */
  lemma {:induction false} AsManyKeysAsSlots<Key>(index: map<Key, nat>)
    requires forall k, l :: k in index && l in index && index[k] == index[l] ==> k == l
    ensures |index.Values| == |index|
  {
    if index != map[] {
      var k :| k in index;
      var rest := index - {k};
      AsManyKeysAsSlots(rest);
      assert index.Values == rest.Values + {index[k]};
      assert index.Keys == rest.Keys + {k};
    } else {
      assert index.Values == {};
    }
  }

  /** The ring is empty exactly if there are as many keys as slots. */
  lemma RingEmptyIff<Key>(free: seq<nat>, loc: map<nat, Pos>, all: set<nat>, keys: seq<Key>, index: map<Key, nat>)
    requires SlotsPartitioned(free, loc.Keys, all) && Indexed(loc, keys, index)
    ensures free == [] <==> |index| == |all|
  {
    AsManyKeysAsSlots(index);
    assert index.Values == loc.Keys;
    DistinctCount(free);
    assert |all| == |Elements(free)| + |loc.Keys|;
  }

  /** The finite map a table stands for: slot and data of each key. */
  ghost function ContentsOf<Key, Data>(index: map<Key, nat>, pdata: seq<Data>): map<Key, (nat, Data)> {
    map k | k in index && index[k] < |pdata| :: (index[k], pdata[index[k]])
  }

  /** An eviction changes where keys are, not which keys there are. */
  lemma EvictionKeeps<Key>(t: Table, loc: map<nat, Pos>, f: Flags, t': Table, loc': map<nat, Pos>, h: Pos,
                           keys: seq<Key>, index: map<Key, nat>, hash: Key -> bv32)
    requires Stored(t, loc, keys, index, hash) && FlagShape(f, t)
    requires SpaceMade(t, loc, f, t', loc', h)
    ensures Signed(t', loc', keys, hash) && Indexed(loc', keys, index)
    ensures forall p :: InTable(t', p) && At(t', p).idx == EMPTY_SLOT ==> At(t', p) == Entry(0, 0, EMPTY_SLOT)
  {
    assert Indexed(loc', keys, index);
    SignedStays(t, loc, t', loc', h, keys, hash);
  }

  lemma SignedStays<Key>(t: Table, loc: map<nat, Pos>, t': Table, loc': map<nat, Pos>, h: Pos,
                         keys: seq<Key>, hash: Key -> bv32)
    requires Shape(t) && Shape(t') && Located(t, loc, {}) && Signed(t, loc, keys, hash)
    requires Located(t', loc', {h}) && Preserved(t, loc, t', loc')
    ensures Signed(t', loc', keys, hash)
  {
    forall idx | idx in loc'
      ensures idx < |keys| && InTable(t', loc'[idx]) && SigPair(At(t', loc'[idx]), hash(keys[idx]))
    {
      assert SameOrMoved(At(t, loc[idx]), At(t', loc'[idx]));
      assert SigPair(At(t, loc[idx]), hash(keys[idx]));
    }
  }

  lemma InsertLocated(t: Table, loc: map<nat, Pos>, h: Pos, e: Entry)
    requires Shape(t) && InTable(t, h) && Located(t, loc, {h}) && Homed(t, loc)
    requires e.idx !in loc && e.idx != EMPTY_SLOT && h.b == BucketOf(e.cur, |t|)
    ensures Located(Put(t, h, e), loc[e.idx := h], {}) && Homed(Put(t, h, e), loc[e.idx := h])
  {
    var t', loc' := Put(t, h, e), loc[e.idx := h];
    forall j | j in loc'
      ensures j != EMPTY_SLOT && InTable(t', loc'[j]) && At(t', loc'[j]).idx == j
      ensures BucketOf(At(t', loc'[j]).cur, |t|) == loc'[j].b
    {
    }
  }

  lemma InsertSigned<Key>(t: Table, loc: map<nat, Pos>, keys: seq<Key>, hash: Key -> bv32,
                          h: Pos, e: Entry, key: Key)
    requires Shape(t) && InTable(t, h) && Located(t, loc, {h}) && Signed(t, loc, keys, hash)
    requires e.idx !in loc && e.idx < |keys| && SigPair(e, hash(key))
    ensures Signed(Put(t, h, e), loc[e.idx := h], keys[e.idx := key], hash)
  {
    var t', loc', keys' := Put(t, h, e), loc[e.idx := h], keys[e.idx := key];
    forall j | j in loc'
      ensures j < |keys'| && InTable(t', loc'[j]) && SigPair(At(t', loc'[j]), hash(keys'[j]))
    {
      if j != e.idx {
        assert SigPair(At(t, loc[j]), hash(keys[j]));
      }
    }
  }

  lemma InsertIndexed<Key>(loc: map<nat, Pos>, keys: seq<Key>, index: map<Key, nat>, h: Pos, idx: nat, key: Key)
    requires Indexed(loc, keys, index)
    requires idx !in loc && idx < |keys| && key !in index
    ensures Indexed(loc[idx := h], keys[idx := key], index[key := idx])
  {
  }

  /** Writing a new entry over the hole h of its primary bucket adds its key and nothing else. */
  lemma InsertKeeps<Key>(t: Table, loc: map<nat, Pos>, keys: seq<Key>, index: map<Key, nat>,
                         hash: Key -> bv32, h: Pos, idx: nat, key: Key)
    requires Shape(t) && InTable(t, h) && Located(t, loc, {h}) && Homed(t, loc)
    requires Signed(t, loc, keys, hash) && EmptyIsZero(t) && Indexed(loc, keys, index)
    requires idx !in loc && idx != EMPTY_SLOT && idx < |keys| && key !in index
    requires h.b == BucketOf(hash(key), |t|)
    ensures Stored(Put(t, h, Entry(hash(key), SecondaryHash(hash(key)), idx)), loc[idx := h],
                   keys[idx := key], index[key := idx], hash)
  {
    var e := Entry(hash(key), SecondaryHash(hash(key)), idx);
    InsertLocated(t, loc, h, e);
    InsertSigned(t, loc, keys, hash, h, e, key);
    InsertIndexed(loc, keys, index, h, idx, key);
  }

  lemma RemoveLocated(t: Table, loc: map<nat, Pos>, idx: nat)
    requires Shape(t) && Located(t, loc, {}) && Homed(t, loc) && idx in loc
    ensures InTable(t, loc[idx])
    ensures var t' := Put(t, loc[idx], Entry(0, 0, EMPTY_SLOT));
            Located(t', loc - {idx}, {}) && Homed(t', loc - {idx})
  {
    var t', loc' := Put(t, loc[idx], Entry(0, 0, EMPTY_SLOT)), loc - {idx};
    forall j | j in loc'
      ensures j != EMPTY_SLOT && InTable(t', loc'[j]) && At(t', loc'[j]) == At(t, loc[j])
    {
    }
  }

  lemma RemoveSigned<Key>(t: Table, loc: map<nat, Pos>, keys: seq<Key>, hash: Key -> bv32, idx: nat)
    requires Shape(t) && Located(t, loc, {}) && Signed(t, loc, keys, hash) && idx in loc
    ensures Signed(Put(t, loc[idx], Entry(0, 0, EMPTY_SLOT)), loc - {idx}, keys, hash)
  {
    var t', loc' := Put(t, loc[idx], Entry(0, 0, EMPTY_SLOT)), loc - {idx};
    forall j | j in loc'
      ensures j < |keys| && InTable(t', loc'[j]) && SigPair(At(t', loc'[j]), hash(keys[j]))
    {
      assert SigPair(At(t, loc[j]), hash(keys[j]));
    }
  }

  lemma RemoveIndexed<Key>(loc: map<nat, Pos>, keys: seq<Key>, index: map<Key, nat>, key: Key)
    requires Indexed(loc, keys, index) && key in index
    ensures Indexed(loc - {index[key]}, keys, index - {key})
  {
  }

  /** Clearing the entry of a key removes that key and nothing else. */
  lemma RemoveKeeps<Key>(t: Table, loc: map<nat, Pos>, keys: seq<Key>, index: map<Key, nat>,
                         hash: Key -> bv32, key: Key)
    requires Stored(t, loc, keys, index, hash) && key in index
    ensures InTable(t, loc[index[key]])
    ensures Stored(Put(t, loc[index[key]], Entry(0, 0, EMPTY_SLOT)), loc - {index[key]}, keys,
                   index - {key}, hash)
  {
    RemoveLocated(t, loc, index[key]);
    RemoveSigned(t, loc, keys, hash, index[key]);
    RemoveIndexed(loc, keys, index, key);
  }

  // ----- free slots -----

  ghost function Elements(s: seq<nat>): set<nat> {
    set i | 0 <= i < |s| :: s[i]
  }

  /** Every slot is in the ring of free slots or used by an entry, and never both or twice. */
  ghost predicate SlotsPartitioned(free: seq<nat>, used: set<nat>, all: set<nat>) {
    Distinct(free) && Elements(free) !! used && Elements(free) + used == all
  }

  lemma NoElements()
    ensures Elements([]) == {}
  {
  }

  lemma LastElement(s: seq<nat>)
    requires Distinct(s) && s != []
    ensures var t := s[..|s| - 1]; var x := s[|s| - 1];
            Distinct(t) && x !in Elements(t) && Elements(s) == Elements(t) + {x}
  {
  }

  lemma {:induction false} DistinctCount(s: seq<nat>)
    requires Distinct(s)
    ensures |Elements(s)| == |s|
  {
    hide Distinct, Elements;
    if s == [] {
      NoElements();
    } else {
      LastElement(s);
      DistinctCount(s[..|s| - 1]);
    }
  }

  lemma {:induction false} SubsetSize(a: set<nat>, b: set<nat>)
    requires a <= b
    ensures |a| <= |b|
  {
    if a != {} {
      var x :| x in a;
      SubsetSize(a - {x}, b - {x});
    }
  }

  /** A slot taken from the head of the ring is no longer free; it may be put to use. */
  lemma TakeSlot(free: seq<nat>, used: set<nat>, all: set<nat>)
    requires SlotsPartitioned(free, used, all) && free != []
    ensures free[0] !in used && free[0] in all
    ensures SlotsPartitioned(free[1..], used + {free[0]}, all)
  {
    assert free[0] in Elements(free);
    assert Elements(free) == Elements(free[1..]) + {free[0]} by {
      forall x | x in Elements(free) ensures x in Elements(free[1..]) + {free[0]} {
        var i :| 0 <= i < |free| && free[i] == x;
        if i > 0 {
          assert free[1..][i - 1] == x;
        }
      }
    }
  }

  lemma ElementsAppend(s: seq<nat>, x: nat)
    ensures Elements(s + [x]) == Elements(s) + {x}
  {
    forall y | y in Elements(s) ensures y in Elements(s + [x]) {
      var i :| 0 <= i < |s| && s[i] == y;
      assert (s + [x])[i] == y;
    }
    assert (s + [x])[|s|] == x;
  }

  /** A used slot can be put back: the ring has room for every slot. */
  lemma GiveSlot(free: seq<nat>, used: set<nat>, all: set<nat>, idx: nat)
    requires SlotsPartitioned(free, used, all) && idx in used
    ensures SlotsPartitioned(free + [idx], used - {idx}, all)
    ensures |free| < |all|
  {
    ElementsAppend(free, idx);
    forall i | 0 <= i < |free| ensures free[i] != idx {
      assert free[i] in Elements(free);
    }
    DistinctCount(free + [idx]);
    SubsetSize(Elements(free + [idx]), all);
  }

  /** The bounded ring: an element offered to a full ring is dropped. */
  function RingAdd(ring: seq<nat>, size: nat, x: nat): seq<nat> {
    if |ring| + 1 < size then ring + [x] else ring
  }

  ghost predicate NoFlags(f: Flags, t: Table) {
    FlagShape(f, t) && forall p :: InTable(t, p) ==> !Marked(f, t, p)
  }

  lemma NoFlagsStays(f: Flags, t: Table, t': Table)
    requires Shape(t) && NoFlags(f, t) && |t'| == |t|
    ensures NoFlags(f, t')
  {
    forall p | InTable(t', p) ensures !Marked(f, t', p) {
      assert InTable(t, p) && !Marked(f, t, p);
    }
  }

  lemma EmptyIsHole(t: Table, loc: map<nat, Pos>, h: Pos)
    requires Shape(t) && InTable(t, h) && Located(t, loc, {}) && At(t, h).idx == EMPTY_SLOT
    ensures Located(t, loc, {h})
  {
  }

  ghost predicate SlotsOk(free: seq<nat>, used: set<nat>, all: set<nat>, ringSize: nat, keyCount: nat) {
    && SlotsPartitioned(free, used, all) && |all| < ringSize
    && forall idx :: idx in all ==> EMPTY_SLOT < idx < keyCount
  }

  /** Deleting a key: its slot goes back to the ring. */
  lemma RemoveSlots(free: seq<nat>, loc: map<nat, Pos>, all: set<nat>, ringSize: nat, keyCount: nat, idx: nat)
    requires SlotsOk(free, loc.Keys, all, ringSize, keyCount) && idx in loc
    ensures SlotsOk(RingAdd(free, ringSize, idx), (loc - {idx}).Keys, all, ringSize, keyCount)
    ensures RingAdd(free, ringSize, idx) == free + [idx]
  {
    GiveSlot(free, loc.Keys, all, idx);
    assert (loc - {idx}).Keys == loc.Keys - {idx};
  }

  /** Putting a slot to use: it was at the head of the ring. */
  lemma InsertSlots(free: seq<nat>, loc: map<nat, Pos>, all: set<nat>, ringSize: nat, keyCount: nat, h: Pos)
    requires SlotsOk(free, loc.Keys, all, ringSize, keyCount) && free != []
    ensures free[0] !in loc && EMPTY_SLOT < free[0] < keyCount
    ensures SlotsOk(free[1..], loc[free[0] := h].Keys, all, ringSize, keyCount)
  {
    TakeSlot(free, loc.Keys, all);
    assert loc[free[0] := h].Keys == loc.Keys + {free[0]};
  }

  /** A slot taken and given straight back only moves to the tail of the ring. */
  lemma RotateSlots(free: seq<nat>, used: set<nat>, all: set<nat>, ringSize: nat, keyCount: nat)
    requires SlotsOk(free, used, all, ringSize, keyCount) && free != []
    ensures free[0] !in used && EMPTY_SLOT < free[0] < keyCount
    ensures SlotsOk(RingAdd(free[1..], ringSize, free[0]), used, all, ringSize, keyCount)
    ensures RingAdd(free[1..], ringSize, free[0]) == free[1..] + [free[0]]
  {
    TakeSlot(free, used, all);
    GiveSlot(free[1..], used + {free[0]}, all, free[0]);
    assert used + {free[0]} - {free[0]} == used;
  }

  lemma ContentsRemove<Key, Data>(index: map<Key, nat>, pdata: seq<Data>, key: Key)
    ensures ContentsOf(index - {key}, pdata) == ContentsOf(index, pdata) - {key}
  {
  }

  /** Data is written only to the slot of the key, so no other key sees it. */
  lemma ContentsWrite<Key, Data>(loc: map<nat, Pos>, keys: seq<Key>, index: map<Key, nat>, pdata: seq<Data>,
                                 key: Key, idx: nat, data: Data)
    requires Indexed(loc, keys, index) && |pdata| == |keys| && idx < |pdata|
    requires if key in index then idx == index[key] else idx !in loc
    ensures ContentsOf(index[key := idx], pdata[idx := data]) == ContentsOf(index, pdata)[key := (idx, data)]
  {
    forall k | k in index && k != key ensures index[k] != idx {
      assert keys[index[k]] == k;
    }
  }

  lemma FreeWriteKeeps<Key>(t: Table, loc: map<nat, Pos>, keys: seq<Key>, index: map<Key, nat>,
                            hash: Key -> bv32, idx: nat, key: Key)
    requires Stored(t, loc, keys, index, hash) && idx < |keys| && idx !in loc
    ensures Stored(t, loc, keys[idx := key], index, hash)
  {
  }

  /** A failed add may have written a key and data to a slot that stays free. */
  lemma ContentsFreeWrite<Key, Data>(loc: map<nat, Pos>, keys: seq<Key>, index: map<Key, nat>, pdata: seq<Data>,
                                     idx: nat, key: Key, data: Data)
    requires Indexed(loc, keys, index) && |pdata| == |keys| && idx < |pdata| && idx !in loc
    ensures ContentsOf(index, pdata[idx := data]) == ContentsOf(index, pdata)
    ensures Indexed(loc, keys[idx := key], index)
  {
  }
}

module CuckooHash {
  import opened Common
  import opened CuckooTable
  import opened CuckooWalk
  import opened CuckooContents

  const ENOENT: int := -2
  const ENOSPC: int := -28

  /** The least power of two that is at least n, starting the search at p. */
  function AlignPow2(n: nat, p: nat): (r: nat)
    requires 0 < p
    ensures n <= r && p <= r && (r == p || r < 2 * n)
    decreases n - p
  {
    if n <= p then p else AlignPow2(n, 2 * p)
  }

  /** The slot of each key. */
  ghost function SlotsOf<Key, Data>(m: map<Key, (nat, Data)>): map<Key, nat> { map k | k in m :: m[k].0 }

  /** A way to lay out keys in buckets. */
  datatype Layout<Key> = Layout(t: Table, loc: map<nat, Pos>, keys: seq<Key>)

  ghost predicate Holds<Key>(l: Layout<Key>, index: map<Key, nat>, hash: Key -> bv32, buckets: nat) {
    Stored(l.t, l.loc, l.keys, index, hash) && |l.t| == buckets
  }

  /** The keys of the map can lie in their buckets so that every eviction from the bucket of key k comes to a dead end. */
  ghost predicate NoWayOut<Key(!new), Data>(m: map<Key, (nat, Data)>, hash: Key -> bv32, buckets: nat, k: Key)
    requires buckets > 0
  {
    exists l :: Holds(l, SlotsOf(m), hash, buckets) && Stuck(l.t, BucketOf(hash(k), buckets))
  }

  /** Then eight keys belong to that bucket, and both buckets of each of them have eight keys that belong there. */
  lemma NoWayOutIsJammed<Key(!new), Data>(m: map<Key, (nat, Data)>, hash: Key -> bv32, buckets: nat, k: Key)
    requires buckets > 0 && NoWayOut(m, hash, buckets, k)
    ensures Jammed(m.Keys, hash, buckets, BucketOf(hash(k), buckets))
  {
    hide Stored, Stuck, Jammed, BucketFull, NoRoomFrom, BucketOf;
    var l :| Holds(l, SlotsOf(m), hash, buckets) && Stuck(l.t, BucketOf(hash(k), buckets));
    var b := BucketOf(hash(k), buckets);
    StuckIsBlocked(l.t, b);
    assert SlotsOf(m).Keys == m.Keys;
    NoRoomIsJammed(l.t, l.loc, l.keys, SlotsOf(m), hash, b);
  }

  class QingHash<Key(==, !new), Data> {
    var slots: Table
    var flag: Flags
    var keys: seq<Key>
    var pdata: seq<Data>
    var freeSlots: seq<nat>
    const ringSize: nat
    const hash: Key -> bv32

    /** The slots put in the ring when the table was created. */
    ghost const allSlots: set<nat>
    /** Where the entry of each used slot is. */
    ghost var loc: map<nat, Pos>
    /** The slot of each key in the table. */
    ghost var index: map<Key, nat>

    ghost predicate Valid()
      reads this
    {
      && Stored(slots, loc, keys, index, hash)
      && NoFlags(flag, slots)
      && |pdata| == |keys|
      && SlotsOk(freeSlots, loc.Keys, allSlots, ringSize, |keys|)
    }

    ghost function Contents(): (m: map<Key, (nat, Data)>)
      reads this
    {
      ContentsOf(index, pdata)
    }

    constructor (entries: nat, hash: Key -> bv32, zeroKey: Key, zeroData: Data)
      requires BUCKET_ENTRIES <= entries
      ensures Valid() && Contents() == map[]
      ensures this.hash == hash
      ensures ringSize == AlignPow2(entries, 1)
      ensures forall i :: i in allSlots <==> 1 <= i <= entries && i < ringSize
    {
      var size := AlignPow2(entries, 1);
      var n := size / BUCKET_ENTRIES;
      this.ringSize := size;
      this.hash := hash;
      this.slots := seq(n, _ => seq(BUCKET_ENTRIES, _ => Entry(0, 0, EMPTY_SLOT)));
      this.flag := seq(n, _ => seq(BUCKET_ENTRIES, _ => false));
      this.keys := seq(entries + 1, _ => zeroKey);
      this.pdata := seq(entries + 1, _ => zeroData);
      this.loc := map[];
      this.index := map[];
      var free: seq<nat> := [];
      for i := 1 to entries + 1
        invariant |free| == if i <= size then i - 1 else size - 1
        invariant forall k :: 0 <= k < |free| ==> free[k] == k + 1
      {
        if |free| + 1 < size {
          free := free + [i];
        }
      }
      this.freeSlots := free;
      this.allSlots := Elements(free);
      RingSlots(free, entries, size);
    }

    static lemma RingSlots(free: seq<nat>, entries: nat, size: nat)
      requires entries <= size
      requires |free| == if entries < size then entries else size - 1
      requires forall k :: 0 <= k < |free| ==> free[k] == k + 1
      ensures forall i :: i in Elements(free) <==> 1 <= i <= entries && i < size
      ensures |Elements(free)| == |free|
    {
      DistinctCount(free);
      forall i | 1 <= i <= entries && i < size ensures i in Elements(free) {
        assert free[i - 1] == i;
      }
    }

    lemma IndexIsContents()
      requires Valid()
      ensures forall k :: k in Contents() <==> k in index
      ensures Contents().Keys == index.Keys
      ensures forall k :: k in index ==> Contents()[k].0 == index[k] > 0
    {
    }

    // ----- lookup -----

    lemma Occupancy()
      requires Valid()
      ensures freeSlots == [] <==> |Contents()| == |allSlots|
    {
      hide Located, Homed, Signed, EmptyIsZero, SlotsPartitioned, Indexed, NoFlags, ContentsOf;
      RingEmptyIff(freeSlots, loc, allSlots, keys, index);
      IndexIsContents();
    }

    /** The layout of the table shows why an add of the key fails. */
    lemma StuckLayout(key: Key)
      requires Valid()
      ensures |slots| > 0 && (KeyStuck(key) ==> NoWayOut(Contents(), hash, |slots|, key))
    {
      hide Located, Homed, Signed, EmptyIsZero, SlotsPartitioned, Indexed, NoFlags, ContentsOf, Stuck, BucketOf;
      IndexIsContents();
      assert index == SlotsOf(Contents());
      if KeyStuck(key) {
        assert Holds(Layout(slots, loc, keys), SlotsOf(Contents()), hash, |slots|);
      }
    }

    method ScanBucket(b: nat, cur: bv32, alt: bv32, scan: Scan, key: Key) returns (i: nat)
      requires Shape(slots) && InStore(slots, keys) && b < |slots|
      ensures i <= BUCKET_ENTRIES
      ensures i < BUCKET_ENTRIES ==> Hit(slots, Pos(b, i), cur, alt, scan, keys, key)
      ensures forall k :: 0 <= k < i ==> !Hit(slots, Pos(b, k), cur, alt, scan, keys, key)
    {
      i := 0;
      while i < BUCKET_ENTRIES
        invariant i <= BUCKET_ENTRIES
        invariant forall k :: 0 <= k < i ==> !Hit(slots, Pos(b, k), cur, alt, scan, keys, key)
      {
        var e := At(slots, Pos(b, i));
        if Accepts(scan, e, cur, alt) && keys[e.idx] == key {
          return;
        }
        i := i + 1;
      }
    }

    /** Scans the primary and then the secondary bucket: finds the entry exactly when there is one. */
    method Find(key: Key, first: Scan, second: Scan) returns (found: bool, p: Pos)
      requires Stored(slots, loc, keys, index, hash)
      ensures found <==> key in index
      ensures found ==> InTable(slots, p) && p == loc[index[key]] && At(slots, p).idx == index[key] != EMPTY_SLOT
    {
      hide Located, Homed, Signed, EmptyIsZero, Hit, SecondaryHash, BucketOf, InStore;
      var sig := hash(key);
      var alt := SecondaryHash(sig);
      EntriesInStore(slots, loc, keys, index, hash);
      var b := BucketOf(sig, |slots|);
      var i := ScanBucket(b, sig, alt, first, key);
      if i < BUCKET_ENTRIES {
        HitIsKey(slots, loc, keys, index, hash, key, sig, alt, first, Pos(b, i));
        return true, Pos(b, i);
      }
      b := BucketOf(alt, |slots|);
      i := ScanBucket(b, alt, sig, second, key);
      if i < BUCKET_ENTRIES {
        HitIsKey(slots, loc, keys, index, hash, key, alt, sig, second, Pos(b, i));
        return true, Pos(b, i);
      }
      if key in index {
        PresentIsHit(slots, loc, keys, index, hash, key, first, second);
      }
      return false, Pos(0, 0);
    }

    method Lookup(key: Key) returns (ret: int, data: Option<Data>)
      requires Valid()
      ensures key in Contents() <==> key in index
      ensures key in Contents() ==> ret == Contents()[key].0 - 1 && data == Some(Contents()[key].1)
      ensures key !in Contents() ==> ret == ENOENT && data == None
    {
      var found, p := Find(key, ByUse, ByPair);
      if found {
        var idx := At(slots, p).idx;
        return idx - 1, Some(pdata[idx]);
      }
      return ENOENT, None;
    }

    // ----- delete -----

    method Delete(key: Key) returns (ret: int)
      requires Valid()
      modifies this`slots, this`freeSlots, this`loc, this`index
      ensures Valid() && |slots| == old(|slots|)
      ensures Contents() == old(Contents()) - {key}
      ensures ret == if key in old(index) then old(index)[key] - 1 else ENOENT
      ensures freeSlots == old(freeSlots) + if key in old(index) then [old(index)[key]] else []
    {
      hide Located, Homed, Signed, EmptyIsZero, SlotsPartitioned, ContentsOf;
      ContentsRemove(index, pdata, key);
      var found, p := Find(key, ByUse, ByUse);
      if !found {
        assert index - {key} == index;
        return ENOENT;
      }
      var idx := At(slots, p).idx;
      RemoveKeeps(slots, loc, keys, index, hash, key);
      RemoveSlots(freeSlots, loc, allSlots, ringSize, |keys|, idx);
      NoFlagsStays(flag, slots, Put(slots, p, Entry(0, 0, EMPTY_SLOT)));
      slots := Put(slots, p, Entry(0, 0, EMPTY_SLOT));
      loc, index := loc - {idx}, index - {key};
      freeSlots := RingAdd(freeSlots, ringSize, idx);
      return idx - 1;
    }

    // ----- eviction -----

    /** Finds an entry of bucket b whose alternative bucket has a free entry; i == 8 if there is none. */
    method FindRoom(b: nat) returns (i: nat, j: nat)
      requires Shape(slots) && b < |slots|
      ensures i <= BUCKET_ENTRIES
      ensures i < BUCKET_ENTRIES ==>
                && j < BUCKET_ENTRIES
                && At(slots, Pos(BucketOf(At(slots, Pos(b, i)).alt, |slots|), j)).idx == EMPTY_SLOT
      ensures i == BUCKET_ENTRIES ==> NoRoomFrom(slots, b)
    {
      i, j := 0, 0;
      while i < BUCKET_ENTRIES
        invariant i <= BUCKET_ENTRIES
        invariant forall k :: 0 <= k < i ==> BucketFull(slots, BucketOf(At(slots, Pos(b, k)).alt, |slots|))
      {
        var next := BucketOf(slots[b][i].alt, |slots|);
        j := 0;
        while j < BUCKET_ENTRIES && slots[next][j].idx != EMPTY_SLOT
          invariant j <= BUCKET_ENTRIES
          invariant forall k :: 0 <= k < j ==> At(slots, Pos(next, k)).idx != EMPTY_SLOT
        {
          j := j + 1;
        }
        if j != BUCKET_ENTRIES {
          return;
        }
        i := i + 1;
      }
    }

    method FirstUnflagged(b: nat) returns (i: nat)
      requires FlagShape(flag, slots) && b < |slots|
      ensures i <= BUCKET_ENTRIES
      ensures i < BUCKET_ENTRIES ==> !Marked(flag, slots, Pos(b, i))
      ensures forall k :: 0 <= k < i ==> Marked(flag, slots, Pos(b, k))
    {
      i := 0;
      while i < BUCKET_ENTRIES && flag[b][i]
        invariant i <= BUCKET_ENTRIES
        invariant forall k :: 0 <= k < i ==> Marked(flag, slots, Pos(b, k))
      {
        i := i + 1;
      }
    }

    /** Makes one entry of the full bucket b free to overwrite, pushing entries along a path of
        alternatives.  The path may come back to a bucket; an entry already on it is flagged.
        start, walk: where the eviction began and the entries flagged since. */
    method MakeSpace(b: nat, pushes: nat, ghost start: nat, ghost walk: seq<Pos>)
      returns (ret: int, pushes': nat, ghost walked: seq<Pos>)
      requires Shape(slots) && FlagShape(flag, slots) && start < |slots| && IsWalk(slots, start, walk)
      requires b == EndOf(slots, start, walk) && |walk| == pushes <= MAX_PUSHES && Flagged(flag, slots, walk)
      requires Located(slots, loc, {}) && Homed(slots, loc) && BucketFull(slots, b)
      modifies this`slots, this`flag, this`loc
      ensures pushes <= pushes' <= MAX_PUSHES + 1
      ensures flag == old(flag)
      ensures ret == ENOSPC || 0 <= ret < BUCKET_ENTRIES
      ensures ret == ENOSPC ==> loc == old(loc) && slots == old(slots) && DeadEnd(slots, start, walked)
      ensures ret >= 0 ==> SpaceMade(old(slots), old(loc), flag, slots, loc, Pos(b, ret)) && Escape(old(slots), start, walked)
      decreases MAX_PUSHES - pushes
    {
      hide Located, Homed, Preserved, IsWalk, FlagsExplored, SpaceMade, Shape, Flagged, BucketOf;
      FlaggedExplored(flag, slots, start, walk);
      walked := walk;
      var i, j := FindRoom(b);
      if i != BUCKET_ENTRIES {
        var e := At(slots, Pos(b, i));
        var q := Pos(BucketOf(e.alt, |slots|), j);
        RoomLeft(slots, b, i, j);
        RoomMeansUnflagged(slots, flag, Pos(b, i), q);
        PushToEmpty(slots, loc, flag, Pos(b, i), q);
        slots, loc := Put(slots, q, Moved(e)), loc[e.idx := q];
        return i, pushes, walk;
      }
      i := FirstUnflagged(b);
      if i == BUCKET_ENTRIES {
        AllFlagged(flag, slots, b, walk);
        return ENOSPC, pushes, walk;
      }
      var p := Pos(b, i);
      NotFlagged(flag, slots, p, walk);
      WalkOne(slots, start, walk, p);
      walked := walk + [p];
      pushes' := pushes + 1;
      if pushes' > MAX_PUSHES {
        return ENOSPC, pushes', walked;
      }
      var next := BucketOf(At(slots, p).alt, |slots|);
      MarkFlagged(flag, slots, p, walk);
      MarkTwice(flag, slots, p);
      flag := Mark(flag, slots, p, true);
      ret, pushes', walked := MakeSpace(next, pushes', start, walked);
      if ret >= 0 {
        SpaceShape(old(slots), old(loc), flag, slots, loc, Pos(next, ret));
      }
      flag := Mark(flag, slots, p, false);
      if ret >= 0 {
        var e := At(slots, p);
        var q := Pos(next, ret);
        PushBack(old(slots), old(loc), old(flag), slots, loc, p, q);
        slots, loc := Put(slots, q, Moved(e)), loc[e.idx := q];
        ret := i;
      }
    }

    // ----- add -----

    /** No eviction makes space in the key's primary bucket. */
    ghost predicate KeyStuck(key: Key)
      reads this
    {
      |slots| > 0 && Stuck(slots, BucketOf(hash(key), |slots|))
    }

    method FirstEmpty(b: nat) returns (i: nat)
      requires Shape(slots) && b < |slots|
      ensures i <= BUCKET_ENTRIES
      ensures i < BUCKET_ENTRIES ==> At(slots, Pos(b, i)).idx == EMPTY_SLOT
      ensures i == BUCKET_ENTRIES <==> BucketFull(slots, b)
    {
      i := 0;
      while i < BUCKET_ENTRIES && slots[b][i].idx != EMPTY_SLOT
        invariant i <= BUCKET_ENTRIES
        invariant forall k :: 0 <= k < i ==> At(slots, Pos(b, k)).idx != EMPTY_SLOT
      {
        i := i + 1;
      }
    }

    /** Finds or makes a place for a new entry in bucket b. */
    method Reserve(b: nat) returns (ret: int)
      requires Stored(slots, loc, keys, index, hash) && NoFlags(flag, slots) && b < |slots|
      modifies this`slots, this`flag, this`loc
      ensures NoFlags(flag, slots) && loc.Keys == old(loc).Keys && |slots| == old(|slots|)
      ensures ret == ENOSPC || 0 <= ret < BUCKET_ENTRIES
      ensures ret == ENOSPC <==> Stuck(old(slots), b)
      ensures ret == ENOSPC ==> slots == old(slots) && loc == old(loc)
      ensures ret >= 0 ==>
                && Shape(slots) && Located(slots, loc, {Pos(b, ret)}) && Homed(slots, loc)
                && Signed(slots, loc, keys, hash) && EmptyIsZero(slots) && Indexed(loc, keys, index)
    {
      hide Located, Homed, Signed, Indexed, Stuck, DeadEnd, Escape, SpaceMade;
      var i := FirstEmpty(b);
      if i != BUCKET_ENTRIES {
        EmptyIsHole(slots, loc, Pos(b, i));
        if Stuck(slots, b) {
          StuckIsBlocked(slots, b);
        }
        return i;
      }
      var pushes;
      ghost var walk;
      ret, pushes, walk := MakeSpace(b, 0, b, []);
      if ret < 0 {
        StuckBy(slots, b, walk);
      } else {
        SpaceShape(old(slots), old(loc), flag, slots, loc, Pos(b, ret));
        NoFlagsStays(flag, old(slots), slots);
        EscapeIsExact(old(slots), b, walk);
        EvictionKeeps(old(slots), old(loc), flag, slots, loc, Pos(b, ret), keys, index, hash);
      }
    }

    /** Adds a key or updates its data.  Fails when the ring holds no free slot, even if the key is
        present, or when no place can be made in the primary bucket. */
    method Add(key: Key, data: Data) returns (ret: int)
      requires Valid()
      modifies this
      ensures Valid() && |slots| == old(|slots|)
      ensures ret == ENOSPC || ret >= 0
      ensures ret == ENOSPC ==> Contents() == old(Contents()) && index == old(index)
      ensures ret >= 0 ==> Contents() == old(Contents())[key := (ret + 1, data)]
      ensures old(freeSlots) == [] ==> ret == ENOSPC
      ensures freeSlots == if old(freeSlots) == [] then []
                           else old(freeSlots)[1..] + if key in old(index) || ret == ENOSPC then [old(freeSlots)[0]] else []
      ensures old(freeSlots) != [] && key in old(index) ==> ret + 1 == old(index)[key]
      ensures old(freeSlots) != [] && key !in old(index) ==>
                if old(KeyStuck(key)) then ret == ENOSPC else ret + 1 == old(freeSlots)[0]
    {
      hide Located, Homed, Signed, EmptyIsZero, SlotsPartitioned, ContentsOf;
      if freeSlots == [] {
        return ENOSPC;
      }
      var idx := freeSlots[0];
      var found, p := Find(key, ByPair, ByPair);
      RotateSlots(freeSlots, loc.Keys, allSlots, ringSize, |keys|);
      if found {
        var k := At(slots, p).idx;
        ContentsWrite(loc, keys, index, pdata, key, k, data);
        assert index[key := k] == index;
        freeSlots := RingAdd(freeSlots[1..], ringSize, idx);
        pdata := pdata[k := data];
        return k - 1;
      }
      ret := AddNew(key, data);
    }

    method AddNew(key: Key, data: Data) returns (ret: int)
      requires Valid() && key !in index && freeSlots != []
      modifies this
      ensures ret == ENOSPC <==> old(KeyStuck(key))
      ensures ret >= 0 ==> ret + 1 == old(freeSlots)[0]
      ensures freeSlots == old(freeSlots)[1..] + if ret == ENOSPC then [old(freeSlots)[0]] else []
      ensures Valid() && |slots| == old(|slots|)
      ensures ret == ENOSPC || ret >= 0
      ensures ret == ENOSPC ==> Contents() == old(Contents()) && index == old(index)
      ensures ret >= 0 ==> Contents() == old(Contents())[key := (ret + 1, data)]
    {
      hide Located, Homed, Signed, EmptyIsZero, SlotsPartitioned, SlotsOk, NoFlags, Indexed, ContentsOf;
      var idx := freeSlots[0];
      var sig := hash(key);
      RotateSlots(freeSlots, loc.Keys, allSlots, ringSize, |keys|);
      ContentsWrite(loc, keys, index, pdata, key, idx, data);
      ContentsFreeWrite(loc, keys, index, pdata, idx, key, data);
      var b := BucketOf(sig, |slots|);
      ret := Reserve(b);
      if ret >= 0 {
        var h := Pos(b, ret);
        InsertKeeps(slots, loc, keys, index, hash, h, idx, key);
        InsertSlots(freeSlots, loc, allSlots, ringSize, |keys|, h);
        NoFlagsStays(flag, slots, Put(slots, h, Entry(sig, SecondaryHash(sig), idx)));
        slots := Put(slots, h, Entry(sig, SecondaryHash(sig), idx));
        loc, index := loc[idx := h], index[key := idx];
        freeSlots := freeSlots[1..];
        keys, pdata := keys[idx := key], pdata[idx := data];
        return idx - 1;
      }
      FreeWriteKeeps(slots, loc, keys, index, hash, idx, key);
      freeSlots := RingAdd(freeSlots[1..], ringSize, idx);
      keys, pdata := keys[idx := key], pdata[idx := data];
    }
  }

  // ----- whole runs -----

  datatype Op<Key, Data> = AddKey(key: Key, data: Data) | DeleteKey(key: Key) | LookupKey(key: Key)

  datatype Answer<Data> = Answer(ret: int, data: Option<Data>)

  /** What an operation that answered `a` does to a plain finite map: a failed add does nothing. */
  function Apply<Key, Data>(m: map<Key, (nat, Data)>, op: Op<Key, Data>, a: Answer<Data>): map<Key, (nat, Data)> {
    match op
    case AddKey(k, d) => if a.ret >= 0 then m[k := (a.ret + 1, d)] else m
    case DeleteKey(k) => m - {k}
    case LookupKey(_) => m
  }

  /** How many keys there are slots for, and which buckets keys belong to. */
  datatype Dims<!Key> = Dims(slots: nat, buckets: nat, hash: Key -> bv32)

  /** Why an add may fail: all slots are in use, or the key is new and no eviction makes space for it. */
  ghost predicate MayFail<Key(!new), Data>(d: Dims<Key>, m: map<Key, (nat, Data)>, k: Key) {
    |m| == d.slots || (k !in m && d.buckets > 0 && NoWayOut(m, d.hash, d.buckets, k))
  }

  /** The answers a finite map of that size allows. */
  ghost predicate Allowed<Key(!new), Data>(d: Dims<Key>, m: map<Key, (nat, Data)>, op: Op<Key, Data>, a: Answer<Data>) {
    match op
    case AddKey(k, _) =>
      && a.data == None
      && (a.ret == ENOSPC || (a.ret >= 0 && |m| != d.slots && (k in m ==> a.ret + 1 == m[k].0)))
      && (a.ret == ENOSPC ==> MayFail(d, m, k))
    case DeleteKey(k) => a == Answer(if k in m then m[k].0 - 1 else ENOENT, None)
    case LookupKey(k) => a == if k in m then Answer((m[k].0 as int) - 1, Some(m[k].1)) else Answer(ENOENT, None)
  }

  ghost function Replay<Key, Data>(m: map<Key, (nat, Data)>, ops: seq<Op<Key, Data>>, answers: seq<Answer<Data>>):
    map<Key, (nat, Data)>
    requires |ops| == |answers|
  {
    if ops == [] then m
    else
      var n := |ops| - 1;
      Apply(Replay(m, ops[..n], answers[..n]), ops[n], answers[n])
  }

  /** Every answer is one the plain map allows after the operations before it. */
  ghost predicate Agrees<Key(!new), Data>(d: Dims<Key>, m: map<Key, (nat, Data)>, ops: seq<Op<Key, Data>>,
                                    answers: seq<Answer<Data>>)
    requires |ops| == |answers|
  {
    ops == [] ||
    var n := |ops| - 1;
    Agrees(d, m, ops[..n], answers[..n]) && Allowed(d, Replay(m, ops[..n], answers[..n]), ops[n], answers[n])
  }

  lemma ReplayStep<Key(!new), Data>(d: Dims<Key>, m: map<Key, (nat, Data)>, ops: seq<Op<Key, Data>>, i: nat, answers: seq<Answer<Data>>,
                              a: Answer<Data>)
    requires i < |ops| && |answers| == i
    ensures Replay(m, ops[..i + 1], answers + [a]) == Apply(Replay(m, ops[..i], answers), ops[i], a)
    ensures Agrees(d, m, ops[..i + 1], answers + [a]) ==
            (Agrees(d, m, ops[..i], answers) && Allowed(d, Replay(m, ops[..i], answers), ops[i], a))
  {
    assert ops[..i + 1][..i] == ops[..i];
    assert (answers + [a])[..i] == answers;
  }

  ghost function DimsOf<Key(!new), Data>(h: QingHash<Key, Data>): Dims<Key>
    reads h
  {
    Dims(|h.allSlots|, |h.slots|, h.hash)
  }

  /** The table is a finite map: over any run of operations every answer is one the plain map allows,
      and the table ends up holding what the plain map holds.  An add fails if all slots are in use, and otherwise only
      for a new key into whose bucket no eviction makes space. */
  method Run<Key(!new), Data>(h: QingHash<Key, Data>, ops: seq<Op<Key, Data>>) returns (answers: seq<Answer<Data>>)
    requires h.Valid()
    modifies h
    ensures h.Valid() && |answers| == |ops|
    ensures h.Contents() == Replay(old(h.Contents()), ops, answers)
    ensures DimsOf(h) == old(DimsOf(h)) && Agrees(DimsOf(h), old(h.Contents()), ops, answers)
  {
    hide QingHash.Valid, QingHash.Contents, Apply, Allowed, DimsOf;
    answers := [];
    ghost var m, d := h.Contents(), DimsOf(h);
    for i := 0 to |ops|
      invariant h.Valid() && |answers| == i && DimsOf(h) == d
      invariant h.Contents() == Replay(m, ops[..i], answers) && Agrees(d, m, ops[..i], answers)
    {
      var a := Perform(h, ops[i]);
      ReplayStep(d, m, ops, i, answers, a);
      answers := answers + [a];
    }
    assert ops[..|ops|] == ops;
  }

  method Perform<Key(!new), Data>(h: QingHash<Key, Data>, op: Op<Key, Data>) returns (a: Answer<Data>)
    requires h.Valid()
    modifies h
    ensures h.Valid()
    ensures h.Contents() == Apply(old(h.Contents()), op, a)
    ensures DimsOf(h) == old(DimsOf(h)) && Allowed(DimsOf(h), old(h.Contents()), op, a)
  {
    hide Stored, SlotsOk, NoFlags, QingHash.Contents;
    match op
    case AddKey(k, d) => a := PerformAdd(h, k, d);
    case DeleteKey(k) =>
      h.IndexIsContents();
      var ret := h.Delete(k);
      a := Answer(ret, None);
    case LookupKey(k) =>
      h.IndexIsContents();
      var ret, data := h.Lookup(k);
      a := Answer(ret, data);
  }

  method PerformAdd<Key(!new), Data>(h: QingHash<Key, Data>, k: Key, d: Data) returns (a: Answer<Data>)
    requires h.Valid()
    modifies h
    ensures h.Valid()
    ensures h.Contents() == Apply(old(h.Contents()), AddKey(k, d), a)
    ensures DimsOf(h) == old(DimsOf(h)) && Allowed(DimsOf(h), old(h.Contents()), AddKey(k, d), a)
  {
    hide Stored, SlotsOk, NoFlags, NoWayOut, QingHash.KeyStuck, QingHash.Contents;
    h.IndexIsContents();
    h.Occupancy();
    h.StuckLayout(k);
    var ret := h.Add(k, d);
    a := Answer(ret, None);
  }
}
