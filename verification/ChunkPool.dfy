/**
 Where every chunk of the two-tier allocator is, independent of how lists are linked.
 */
module ChunkBook {
  import opened Common

  type Chunk = nat

  datatype Place =
    | InPrivate(core: nat)   // a core's own pool
    | InPublic               // the shared pool
    | OnLocal(core: nat)     // taken from the shared pool in bulk, not handed out yet
    | OnReturn(core: nat)    // freed to the shared pool, not given back yet
    | Held                   // with the caller

  datatype Book = Book(at: map<Place, seq<Chunk>>, owner: map<Chunk, Place>)

  /** Every chunk is in the place its owner entry names, there once, and nowhere else. */
  ghost predicate Kept(b: Book) {
    && (forall x :: x in b.owner ==> b.owner[x] in b.at && x in b.at[b.owner[x]])
    && (forall p, x :: p in b.at && x in b.at[p] ==> x in b.owner && b.owner[x] == p)
    && (forall p :: p in b.at ==> Distinct(b.at[p]))
  }

  function RemoveAt(s: seq<Chunk>, i: nat): seq<Chunk>
    requires i < |s|
  {
    s[..i] + s[i + 1..]
  }

  /** The i-th chunk of one place moves to the end of another. */
  ghost function Move(b: Book, from: Place, i: nat, to: Place): (b': Book)
    requires from in b.at && to in b.at && from != to && i < |b.at[from]|
  {
    var x := b.at[from][i];
    Book(b.at[from := RemoveAt(b.at[from], i)][to := b.at[to] + [x]], b.owner[x := to])
  }

  lemma RemoveAtDistinct(s: seq<Chunk>, i: nat)
    requires i < |s| && Distinct(s)
    ensures Distinct(RemoveAt(s, i))
    ensures forall x :: x in RemoveAt(s, i) <==> x in s && x != s[i]
  {
    forall x | x in s && x != s[i]
      ensures x in RemoveAt(s, i)
    {
      var j :| 0 <= j < |s| && s[j] == x;
      assert RemoveAt(s, i)[if j < i then j else j - 1] == x;
    }
  }

  /** Moving a chunk loses and doubles none. */
  lemma MoveKeeps(b: Book, from: Place, i: nat, to: Place)
    requires from in b.at && to in b.at && from != to && i < |b.at[from]|
    requires Kept(b)
    ensures Kept(Move(b, from, i, to))
    ensures Move(b, from, i, to).owner.Keys == b.owner.Keys
  {
    hide RemoveAt, Distinct;
    var x := b.at[from][i];
    assert x in b.at[from] && b.owner[x] == from;
    assert x !in b.at[to];
    RemoveAtDistinct(b.at[from], i);
    DistinctSnoc(b.at[to], x);
  }

  datatype Home = Private(core: nat) | Public

  /** Chunks of a private pool rest only there; chunks of the shared pool never enter a private one. */
  predicate Fits(h: Home, p: Place) {
    match p
    case InPrivate(c) => h == Private(c)
    case InPublic => h == Public
    case OnLocal(c) => h == Public
    case OnReturn(c) => h == Public
    case Held => true
  }

  ghost predicate AtHome(b: Book, home: Chunk -> Home) { forall x :: x in b.owner ==> Fits(home(x), b.owner[x]) }

  // ----- lists linked through the chunks themselves -----

  /** A list as the allocator keeps it: first and last chunk and a counter. */
  datatype Fifo = Fifo(head: Option<Chunk>, tail: Option<Chunk>, len: nat)

  type Links = map<Chunk, Option<Chunk>>

  ghost predicate Linked(next: Links, f: Fifo, s: seq<Chunk>) {
    && f.len == |s|
    && (s == [] <==> f.head == None)
    && (s != [] ==> f.head == Some(s[0]) && f.tail == Some(s[|s| - 1]))
    && forall i :: 0 <= i < |s| ==> LinkAt(next, s, i)
  }

  ghost predicate LinkAt(next: Links, s: seq<Chunk>, i: nat)
    requires i < |s|
  {
    s[i] in next && next[s[i]] == if i + 1 < |s| then Some(s[i + 1]) else None
  }

  /** Append by the counter, as both lists do: an empty list gets new ends, another is extended at its tail. */
  function Append(next: Links, f: Fifo, x: Chunk): (r: (Links, Fifo)) {
    if f.len == 0 then (next[x := None], Fifo(Some(x), Some(x), 1))
    else
      var linked := if f.tail.Some? then next[f.tail.value := Some(x)] else next;
      (linked[x := None], Fifo(f.head, Some(x), f.len + 1))
  }

  lemma AppendLinks(next: Links, f: Fifo, s: seq<Chunk>, x: Chunk)
    requires Linked(next, f, s) && Distinct(s) && x !in s
    ensures Linked(Append(next, f, x).0, Append(next, f, x).1, s + [x])
  {
    forall i | 0 <= i <= |s|
      ensures LinkAt(Append(next, f, x).0, s + [x], i)
    {
      assert i < |s| ==> LinkAt(next, s, i);
    }
  }

  /** Linking x into one list leaves every other list alone. */
  lemma AppendFrame(next: Links, f: Fifo, s: seq<Chunk>, x: Chunk, g: Fifo, t: seq<Chunk>)
    requires Linked(next, f, s) && Linked(next, g, t) && x !in t && (forall y :: y in s ==> y !in t)
    ensures Linked(Append(next, f, x).0, g, t)
  {
    if s != [] {
      assert s[|s| - 1] in s;
    }
    forall i | 0 <= i < |t|
      ensures LinkAt(Append(next, f, x).0, t, i)
    {
      assert LinkAt(next, t, i);
    }
  }

  lemma PopLinks(next: Links, f: Fifo, s: seq<Chunk>)
    requires Linked(next, f, s) && s != []
    ensures s[0] in next && Linked(next, Fifo(next[s[0]], f.tail, f.len - 1), s[1..])
  {
    assert LinkAt(next, s, 0);
    forall i | 0 <= i < |s| - 1
      ensures LinkAt(next, s[1..], i)
    {
      assert LinkAt(next, s, i + 1);
    }
  }

  // ----- the allocator's whole memory -----

  datatype Mem = Mem(priv: seq<seq<Chunk>>, pub: seq<Chunk>, next: Links, local: seq<Fifo>, back: seq<Fifo>)

  ghost predicate Places(cores: nat, b: Book) {
    && InPublic in b.at && Held in b.at
    && forall c :: 0 <= c < cores ==> InPrivate(c) in b.at && OnLocal(c) in b.at && OnReturn(c) in b.at
  }

  ghost predicate CoreGood(m: Mem, b: Book, cores: nat, c: nat)
    requires c < cores && Places(cores, b) && |m.priv| == |m.local| == |m.back| == cores
  {
    && m.priv[c] == b.at[InPrivate(c)]
    && Linked(m.next, m.local[c], b.at[OnLocal(c)])
    && Linked(m.next, m.back[c], b.at[OnReturn(c)])
  }

  /** Pools, lists and counters show exactly the chunks that are there. */
  ghost predicate Good(m: Mem, b: Book, home: Chunk -> Home, cores: nat) {
    && Places(cores, b) && |m.priv| == |m.local| == |m.back| == cores
    && Kept(b) && AtHome(b, home)
    && m.pub == b.at[InPublic]
    && forall c :: 0 <= c < cores ==> CoreGood(m, b, cores, c)
  }

  lemma HomeMove(b: Book, home: Chunk -> Home, from: Place, i: nat, to: Place)
    requires from in b.at && to in b.at && from != to && i < |b.at[from]|
    requires AtHome(b, home) && Fits(home(b.at[from][i]), to)
    ensures AtHome(Move(b, from, i, to), home)
  {
    hide Fits, RemoveAt;
  }

  /** Different places share no chunk. */
  lemma Apart(b: Book, p: Place, q: Place)
    requires Kept(b) && p in b.at && q in b.at && p != q
    ensures forall x :: x in b.at[p] ==> x !in b.at[q]
  {
    forall x | x in b.at[p]
      ensures x !in b.at[q]
    {
      assert b.owner[x] == p;
    }
  }

  /** The first chunk of a private pool goes to the caller. */
  lemma TakePrivateGood(m: Mem, b: Book, home: Chunk -> Home, cores: nat, c: nat)
    requires Good(m, b, home, cores) && c < cores && m.priv[c] != []
    ensures b.at[InPrivate(c)] == m.priv[c]
    ensures Good(m.(priv := m.priv[c := m.priv[c][1..]]), Move(b, InPrivate(c), 0, Held), home, cores)
    ensures Move(b, InPrivate(c), 0, Held).owner.Keys == b.owner.Keys
  {
    hide Kept, AtHome, Linked;
    assert CoreGood(m, b, cores, c);
    var m' := m.(priv := m.priv[c := m.priv[c][1..]]);
    assert RemoveAt(m.priv[c], 0) == m.priv[c][1..];
    MoveKeeps(b, InPrivate(c), 0, Held);
    HomeMove(b, home, InPrivate(c), 0, Held);
    forall d | 0 <= d < cores
      ensures CoreGood(m', Move(b, InPrivate(c), 0, Held), cores, d)
    {
      assert CoreGood(m, b, cores, d);
    }
  }

  /** The head of a local list goes to the caller. */
  lemma PopLocalGood(m: Mem, b: Book, home: Chunk -> Home, cores: nat, c: nat)
    requires Good(m, b, home, cores) && c < cores && m.local[c].head.Some?
    ensures var x := m.local[c].head.value;
            && b.at[OnLocal(c)] != [] && b.at[OnLocal(c)][0] == x && x in m.next && m.local[c].len > 0
            && Good(m.(local := m.local[c := Fifo(m.next[x], m.local[c].tail, m.local[c].len - 1)]),
                    Move(b, OnLocal(c), 0, Held), home, cores)
    ensures Move(b, OnLocal(c), 0, Held).owner.Keys == b.owner.Keys
  {
    hide Kept, AtHome;
    assert CoreGood(m, b, cores, c);
    var x := m.local[c].head.value;
    var s := b.at[OnLocal(c)];
    PopLinks(m.next, m.local[c], s);
    hide Linked;
    assert RemoveAt(s, 0) == s[1..];
    var m' := m.(local := m.local[c := Fifo(m.next[x], m.local[c].tail, m.local[c].len - 1)]);
    MoveKeeps(b, OnLocal(c), 0, Held);
    HomeMove(b, home, OnLocal(c), 0, Held);
    forall d | 0 <= d < cores
      ensures CoreGood(m', Move(b, OnLocal(c), 0, Held), cores, d)
    {
      assert CoreGood(m, b, cores, d);
    }
  }

  ghost function Local(m: Mem, c: nat, x: Chunk): Mem
    requires c < |m.local|
  {
    var (next, f) := Append(m.next, m.local[c], x);
    m.(next := next, local := m.local[c := f])
  }

  ghost function Back(m: Mem, c: nat, x: Chunk): Mem
    requires c < |m.back|
  {
    var (next, f) := Append(m.next, m.back[c], x);
    m.(next := next, back := m.back[c := f])
  }

  /** A chunk of the caller's is linked to the end of a core's local list. */
  lemma PushLocalGood(m: Mem, b: Book, home: Chunk -> Home, cores: nat, c: nat, i: nat)
    requires Good(m, b, home, cores) && c < cores && i < |b.at[Held]| && home(b.at[Held][i]) == Public
    ensures Good(Local(m, c, b.at[Held][i]), Move(b, Held, i, OnLocal(c)), home, cores)
    ensures Move(b, Held, i, OnLocal(c)).owner.Keys == b.owner.Keys
  {
    hide AtHome, Linked, Append;
    var x, s := b.at[Held][i], b.at[OnLocal(c)];
    MoveKeeps(b, Held, i, OnLocal(c));
    HomeMove(b, home, Held, i, OnLocal(c));
    assert x in b.at[Held];
    Apart(b, Held, OnLocal(c));
    assert CoreGood(m, b, cores, c);
    AppendLinks(m.next, m.local[c], s, x);
    forall d | 0 <= d < cores
      ensures CoreGood(Local(m, c, x), Move(b, Held, i, OnLocal(c)), cores, d)
    {
      assert CoreGood(m, b, cores, d);
      OtherList(m.next, m.local[c], b, OnLocal(c), x, m.back[d], OnReturn(d));
      if d != c {
        OtherList(m.next, m.local[c], b, OnLocal(c), x, m.local[d], OnLocal(d));
      }
    }
  }

  lemma OtherList(next: Links, f: Fifo, b: Book, p: Place, x: Chunk, g: Fifo, q: Place)
    requires Kept(b) && Held in b.at && p in b.at && q in b.at && p != q && q != Held && x in b.at[Held]
    requires Linked(next, f, b.at[p]) && Linked(next, g, b.at[q])
    ensures Linked(Append(next, f, x).0, g, b.at[q])
  {
    hide Kept, Linked, Append;
    Apart(b, p, q);
    Apart(b, Held, q);
    AppendFrame(next, f, b.at[p], x, g, b.at[q]);
  }

  /** A chunk of the caller's is linked to the end of a core's return list. */
  lemma PushReturnGood(m: Mem, b: Book, home: Chunk -> Home, cores: nat, c: nat, i: nat)
    requires Good(m, b, home, cores) && c < cores && i < |b.at[Held]| && home(b.at[Held][i]) == Public
    ensures Good(Back(m, c, b.at[Held][i]), Move(b, Held, i, OnReturn(c)), home, cores)
    ensures Move(b, Held, i, OnReturn(c)).owner.Keys == b.owner.Keys
  {
    hide AtHome, Linked, Append;
    var x, s := b.at[Held][i], b.at[OnReturn(c)];
    MoveKeeps(b, Held, i, OnReturn(c));
    HomeMove(b, home, Held, i, OnReturn(c));
    assert x in b.at[Held];
    Apart(b, Held, OnReturn(c));
    assert CoreGood(m, b, cores, c);
    AppendLinks(m.next, m.back[c], s, x);
    forall d | 0 <= d < cores
      ensures CoreGood(Back(m, c, x), Move(b, Held, i, OnReturn(c)), cores, d)
    {
      assert CoreGood(m, b, cores, d);
      OtherList(m.next, m.back[c], b, OnReturn(c), x, m.local[d], OnLocal(d));
      if d != c {
        OtherList(m.next, m.back[c], b, OnReturn(c), x, m.back[d], OnReturn(d));
      }
    }
  }

  /** A private chunk goes back to the pool it came from, whichever core frees it. */
  lemma PutPrivateGood(m: Mem, b: Book, home: Chunk -> Home, cores: nat, i: nat)
    requires Good(m, b, home, cores) && i < |b.at[Held]|
    requires home(b.at[Held][i]).Private? && home(b.at[Held][i]).core < cores
    ensures var x := b.at[Held][i]; var c := home(x).core;
            Good(m.(priv := m.priv[c := m.priv[c] + [x]]), Move(b, Held, i, InPrivate(c)), home, cores)
    ensures Move(b, Held, i, InPrivate(home(b.at[Held][i]).core)).owner.Keys == b.owner.Keys
  {
    hide Kept, AtHome, Linked;
    var x := b.at[Held][i];
    var c := home(x).core;
    var m' := m.(priv := m.priv[c := m.priv[c] + [x]]);
    MoveKeeps(b, Held, i, InPrivate(c));
    HomeMove(b, home, Held, i, InPrivate(c));
    forall d | 0 <= d < cores
      ensures CoreGood(m', Move(b, Held, i, InPrivate(c)), cores, d)
    {
      assert CoreGood(m, b, cores, d);
    }
  }

  /** The first n chunks of one place move to the end of another, in order. */
  ghost function MoveMany(b: Book, from: Place, n: nat, to: Place): (b': Book)
    requires from in b.at && to in b.at && from != to && n <= |b.at[from]|
    ensures b'.at.Keys == b.at.Keys
    ensures b'.at == b.at[from := b.at[from][n..]][to := b.at[to] + b.at[from][..n]]
  {
    if n == 0 then
      assert b.at[from][0..] == b.at[from] && b.at[to] + b.at[from][..0] == b.at[to];
      b
    else
      var b1 := MoveMany(b, from, n - 1, to);
      assert RemoveAt(b1.at[from], 0) == b.at[from][n..];
      assert b1.at[to] + [b1.at[from][0]] == b.at[to] + b.at[from][..n];
      Move(b1, from, 0, to)
  }

  lemma MoveNone(b: Book, from: Place, to: Place)
    requires from in b.at && to in b.at && from != to
    ensures MoveMany(b, from, 0, to) == b
  {
  }

  lemma MoveOneMore(b: Book, from: Place, n: nat, to: Place)
    requires from in b.at && to in b.at && from != to && 0 < n <= |b.at[from]|
    ensures MoveMany(b, from, n, to) == Move(MoveMany(b, from, n - 1, to), from, 0, to)
  {
  }

  lemma FitsThere(b: Book, home: Chunk -> Home, p: Place)
    requires Kept(b) && AtHome(b, home) && p in b.at && b.at[p] != []
    ensures Fits(home(b.at[p][0]), p)
  {
    assert b.at[p][0] in b.at[p];
  }

  lemma {:induction false} MoveManyKeeps(b: Book, home: Chunk -> Home, from: Place, n: nat, to: Place)
    requires from in b.at && to in b.at && from != to && n <= |b.at[from]|
    requires Kept(b) && AtHome(b, home) && (forall x :: Fits(home(x), from) ==> Fits(home(x), to))
    ensures Kept(MoveMany(b, from, n, to)) && AtHome(MoveMany(b, from, n, to), home)
    ensures MoveMany(b, from, n, to).owner.Keys == b.owner.Keys
  {
    hide Fits, RemoveAt, Kept, AtHome, Move, MoveMany;
    if n == 0 {
      MoveNone(b, from, to);
    } else {
      MoveManyKeeps(b, home, from, n - 1, to);
      MoveOneMore(b, from, n, to);
      var b1 := MoveMany(b, from, n - 1, to);
      FitsThere(b1, home, from);
      assert b1.at[from][0] in b1.at[from];
      MoveKeeps(b1, from, 0, to);
      HomeMove(b1, home, from, 0, to);
    }
  }

  /** A bulk request takes n chunks out of the shared pool. */
  lemma TakePublicGood(m: Mem, b: Book, home: Chunk -> Home, cores: nat, n: nat)
    requires Good(m, b, home, cores) && n <= |m.pub|
    ensures Good(m.(pub := m.pub[n..]), MoveMany(b, InPublic, n, Held), home, cores)
    ensures MoveMany(b, InPublic, n, Held).owner.Keys == b.owner.Keys
  {
    hide Kept, AtHome, Linked, MoveMany;
    MoveManyKeeps(b, home, InPublic, n, Held);
    hide MoveMany, Fits;
    var m', b' := m.(pub := m.pub[n..]), MoveMany(b, InPublic, n, Held);
    forall d | 0 <= d < cores
      ensures CoreGood(m', b', cores, d)
    {
      assert CoreGood(m, b, cores, d);
    }
  }

  lemma NothingLinked(next: Links)
    ensures Linked(next, Fifo(None, None, 0), [])
  {
  }

  /** A whole return list goes back to the shared pool. */
  lemma GiveBackGood(m: Mem, b: Book, home: Chunk -> Home, cores: nat, c: nat)
    requires Good(m, b, home, cores) && c < cores
    ensures var s := b.at[OnReturn(c)];
            Good(m.(pub := m.pub + s, back := m.back[c := Fifo(None, None, 0)]),
                 MoveMany(b, OnReturn(c), |s|, InPublic), home, cores)
    ensures MoveMany(b, OnReturn(c), |b.at[OnReturn(c)]|, InPublic).owner.Keys == b.owner.Keys
  {
    hide Kept, AtHome, Linked, MoveMany;
    var s := b.at[OnReturn(c)];
    var m' := m.(pub := m.pub + s, back := m.back[c := Fifo(None, None, 0)]);
    var b' := MoveMany(b, OnReturn(c), |s|, InPublic);
    MoveManyKeeps(b, home, OnReturn(c), |s|, InPublic);
    hide MoveMany, Fits;
    NothingLinked(m.next);
    forall d | 0 <= d < cores
      ensures CoreGood(m', b', cores, d)
    {
      assert CoreGood(m, b, cores, d);
    }
  }

  /** What the counters and heads of a core's lists tell. */
  lemma CoreFacts(m: Mem, b: Book, home: Chunk -> Home, cores: nat, c: nat)
    requires Good(m, b, home, cores) && c < cores
    ensures Places(cores, b) && m.priv[c] == b.at[InPrivate(c)] && m.pub == b.at[InPublic]
    ensures m.local[c].len == |b.at[OnLocal(c)]| && (m.local[c].head == None <==> m.local[c].len == 0)
    ensures Linked(m.next, m.back[c], b.at[OnReturn(c)])
  {
    assert CoreGood(m, b, cores, c);
  }

  lemma BookPlaces(m: Mem, b: Book, home: Chunk -> Home, cores: nat)
    requires Good(m, b, home, cores)
    ensures InPublic in b.at && Held in b.at && b.at[InPublic] == m.pub
  {
  }

  /** The caller's chunks are exactly those whose owner entry says so. */
  lemma HeldOwner(m: Mem, b: Book, home: Chunk -> Home, cores: nat, x: Chunk)
    requires Good(m, b, home, cores)
    ensures Held in b.at && Distinct(b.at[Held])
    ensures x in b.at[Held] <==> x in b.owner && b.owner[x] == Held
    ensures x in m.pub ==> home(x) == Public
  {
    if x in m.pub {
      assert b.owner[x] == InPublic;
    }
  }

  // ----- the state at creation -----

  /** Each pool holds chunks of its own, each once. */
  ghost predicate Stocked(priv: seq<seq<Chunk>>, pub: seq<Chunk>, home: Chunk -> Home) {
    && Distinct(pub) && (forall x :: x in pub ==> home(x) == Public)
    && (forall c :: 0 <= c < |priv| ==> Distinct(priv[c]))
    && (forall c, x :: 0 <= c < |priv| && x in priv[c] ==> home(x) == Private(c))
  }

  ghost function Initially(priv: seq<seq<Chunk>>, pub: seq<Chunk>, p: Place): seq<Chunk> {
    match p
    case InPrivate(c) => if c < |priv| then priv[c] else []
    case InPublic => pub
    case _ => []
  }

  ghost function InitialBook(priv: seq<seq<Chunk>>, pub: seq<Chunk>, home: Chunk -> Home): Book {
    var places := {InPublic, Held} + (set c | 0 <= c < |priv| :: InPrivate(c))
                + (set c | 0 <= c < |priv| :: OnLocal(c)) + (set c | 0 <= c < |priv| :: OnReturn(c));
    var chunks := (set x | x in pub) + (set c, x | 0 <= c < |priv| && x in priv[c] :: x);
    Book(map p | p in places :: Initially(priv, pub, p),
         map x | x in chunks :: match home(x) case Private(c) => InPrivate(c) case Public => InPublic)
  }

  ghost function NoLists(n: nat): seq<Fifo> { seq(n, _ => Fifo(None, None, 0)) }

  lemma InitialKept(priv: seq<seq<Chunk>>, pub: seq<Chunk>, home: Chunk -> Home)
    requires Stocked(priv, pub, home)
    ensures Kept(InitialBook(priv, pub, home))
  {
    hide Distinct, InitialBook;
    InitialOwners(priv, pub, home);
    InitialPlaces(priv, pub, home);
  }

  lemma InitialOwners(priv: seq<seq<Chunk>>, pub: seq<Chunk>, home: Chunk -> Home)
    requires Stocked(priv, pub, home)
    ensures var b := InitialBook(priv, pub, home);
            forall x :: x in b.owner ==> b.owner[x] in b.at && x in b.at[b.owner[x]]
  {
    hide Distinct;
  }

  lemma InitialPlaces(priv: seq<seq<Chunk>>, pub: seq<Chunk>, home: Chunk -> Home)
    requires Stocked(priv, pub, home)
    ensures var b := InitialBook(priv, pub, home);
            && (forall p, x :: p in b.at && x in b.at[p] ==> x in b.owner && b.owner[x] == p)
            && (forall p :: p in b.at ==> Distinct(b.at[p]))
  {
    hide Distinct;
    NoneDistinct();
  }

  lemma NoneDistinct()
    ensures Distinct([])
  {
  }

  lemma InitialGood(priv: seq<seq<Chunk>>, pub: seq<Chunk>, home: Chunk -> Home)
    requires Stocked(priv, pub, home)
    ensures Good(Mem(priv, pub, map[], NoLists(|priv|), NoLists(|priv|)), InitialBook(priv, pub, home), home, |priv|)
  {
    hide Distinct, Kept, Linked;
    var b := InitialBook(priv, pub, home);
    var m := Mem(priv, pub, map[], NoLists(|priv|), NoLists(|priv|));
    InitialKept(priv, pub, home);
    NothingLinked(map[]);
    assert Places(|priv|, b);
    forall c | 0 <= c < |priv|
      ensures CoreGood(m, b, |priv|, c)
    {
    }
  }
}

/**
 The two-tier chunk allocator: per-core private pools, one shared pool that is only touched 1024 chunks at a
 time, and per core a list of chunks taken from it and a list of chunks to give back.
 */
module ChunkPool {
  import opened Common
  import opened ChunkBook

  const ALLOC_NUM: nat := 1024

  class Mempool {
    const cores: nat
    const home: Chunk -> Home
    var priv: seq<seq<Chunk>>   // mempool_p
    var pub: seq<Chunk>         // mempool_s
    var next: Links
    var local: seq<Fifo>        // l_hpkt, l_pkt, l_len
    var back: seq<Fifo>         // s_hpkt, s_pkt, s_len
    ghost var book: Book

    ghost function State(): Mem
      reads this
    {
      Mem(priv, pub, next, local, back)
    }

    /** A return list is given back as soon as it holds a full bulk. */
    ghost predicate Short()
      reads this
    {
      |back| == cores && forall c :: 0 <= c < cores ==> back[c].len < ALLOC_NUM
    }

    ghost predicate Valid()
      reads this
    {
      && |priv| == |local| == cores && Short()
      && Good(State(), book, home, cores)
    }

    /** The caller's chunks, in the order they were handed out. */
    ghost function Out(): seq<Chunk>
      reads this
    {
      if Held in book.at then book.at[Held] else []
    }

    ghost function On(p: Place): seq<Chunk>
      reads this
    {
      if p in book.at then book.at[p] else []
    }

    constructor (priv: seq<seq<Chunk>>, pub: seq<Chunk>, home: Chunk -> Home)
      requires Stocked(priv, pub, home)
      ensures Valid() && this.cores == |priv| && this.home == home && this.pub == pub && this.priv == priv
      ensures book == InitialBook(priv, pub, home)
    {
      hide Good;
      this.cores, this.home := |priv|, home;
      this.priv, this.pub := priv, pub;
      next, local := map[], seq(|priv|, _ => Fifo(None, None, 0));
      back := seq(|priv|, _ => Fifo(None, None, 0));
      book := InitialBook(priv, pub, home);
      InitialGood(priv, pub, home);
    }

    /** The private pool first, then the list of chunks already taken from the shared pool. */
    method AllocPrivate(core: nat) returns (r: Option<Chunk>)
      requires Valid() && core < cores
      modifies this`priv, this`local, this`book
      ensures Valid() && book.owner.Keys == old(book.owner.Keys)
      ensures r == None <==> old(priv[core]) == [] && old(local[core].len) == 0
      ensures r == None ==> State() == old(State()) && book == old(book)
      ensures r.Some? ==> Out() == old(Out()) + [r.value]
      ensures r.Some? ==> r.value == if old(priv[core]) != [] then old(priv[core])[0] else old(On(OnLocal(core)) + [0])[0]
    {
      hide Good, Kept;
      CoreFacts(State(), book, home, cores, core);
      if priv[core] != [] {
        TakePrivateGood(State(), book, home, cores, core);
        r := Some(priv[core][0]);
        priv := priv[core := priv[core][1..]];
        book := Move(book, InPrivate(core), 0, Held);
      } else if local[core].head == None {
        r := None;
      } else {
        PopLocalGood(State(), book, home, cores, core);
        r := local[core].head;
        local := local[core := Fifo(next[r.value], local[core].tail, local[core].len - 1)];
        book := Move(book, OnLocal(core), 0, Held);
      }
    }

    /** One chunk of a bulk, the i-th of those outside, joins the core's local list. */
    method PushLocal(core: nat, x: Chunk, ghost i: nat)
      requires Valid() && core < cores && i < |Out()| && Out()[i] == x && home(x) == Public
      modifies this`next, this`local, this`book
      ensures Valid() && book.owner.Keys == old(book.owner.Keys)
      ensures Out() == RemoveAt(old(Out()), i) && On(OnLocal(core)) == old(On(OnLocal(core))) + [x]
    {
      hide Good, Kept, Append;
      CoreFacts(State(), book, home, cores, core);
      PushLocalGood(State(), book, home, cores, core, i);
      var (n, f) := Append(next, local[core], x);
      next, local := n, local[core := f];
      book := Move(book, Held, i, OnLocal(core));
    }

    /** A bulk leaves the shared pool. */
    method TakeBulk() returns (objs: seq<Chunk>)
      requires Valid() && |pub| >= ALLOC_NUM
      modifies this`pub, this`book
      ensures Valid() && book.owner.Keys == old(book.owner.Keys)
      ensures objs == old(pub)[..ALLOC_NUM] && pub == old(pub)[ALLOC_NUM..] && Out() == old(Out()) + objs
      ensures forall i :: 0 <= i < ALLOC_NUM ==> home(objs[i]) == Public
      ensures forall c :: On(OnLocal(c)) == old(On(OnLocal(c)))
    {
      hide Good, Kept, Move, MoveMany;
      objs := pub[..ALLOC_NUM];
      forall i | 0 <= i < ALLOC_NUM
        ensures home(objs[i]) == Public
      {
        assert objs[i] in pub;
        HeldOwner(State(), book, home, cores, objs[i]);
      }
      BookPlaces(State(), book, home, cores);
      TakePublicGood(State(), book, home, cores, ALLOC_NUM);
      pub := pub[ALLOC_NUM..];
      book := MoveMany(book, InPublic, ALLOC_NUM, Held);
    }

    /** A bulk from the shared pool, or nothing if it has less: all but the last go on the core's local list. */
    method AllocPublic(core: nat) returns (r: Option<Chunk>)
      requires Valid() && core < cores
      modifies this`pub, this`next, this`local, this`book
      ensures Valid() && book.owner.Keys == old(book.owner.Keys)
      ensures r == None <==> |old(pub)| < ALLOC_NUM
      ensures r == None ==> State() == old(State()) && book == old(book)
      ensures r.Some? ==> pub == old(pub)[ALLOC_NUM..]
      ensures r.Some? ==> Out() == old(Out()) + [r.value] && r.value == old(pub)[ALLOC_NUM - 1]
      ensures r.Some? ==> On(OnLocal(core)) == old(On(OnLocal(core))) + old(pub)[..ALLOC_NUM - 1]
    {
      hide Mempool.Valid, Mempool.On, Mempool.Out;
      if |pub| < ALLOC_NUM {
        return None;
      }
      ghost var out := Out();
      var objs := TakeBulk();
      var i := 0;
      while i < ALLOC_NUM - 1
        invariant 0 <= i < ALLOC_NUM
        invariant Valid() && book.owner.Keys == old(book.owner.Keys)
        invariant Out() == out + objs[i..] && pub == old(pub)[ALLOC_NUM..]
        invariant On(OnLocal(core)) == old(On(OnLocal(core))) + objs[..i]
      {
        assert Out()[|out|] == objs[i];
        assert RemoveAt(Out(), |out|) == out + objs[i + 1..];
        PushLocal(core, objs[i], |out|);
        i := i + 1;
      }
      r := Some(objs[ALLOC_NUM - 1]);
    }

    /** A chunk that was not outside before, unless the core's own pool and list are empty and the shared pool
        holds less than a bulk. */
    method Alloc(core: nat) returns (r: Option<Chunk>)
      requires Valid() && core < cores
      modifies this`priv, this`pub, this`next, this`local, this`book
      ensures Valid() && book.owner.Keys == old(book.owner.Keys)
      ensures r == None <==> old(priv[core]) == [] && old(local[core].len) == 0 && |old(pub)| < ALLOC_NUM
      ensures r == None ==> State() == old(State()) && book == old(book)
      ensures r.Some? ==> r.value !in old(Out()) && Out() == old(Out()) + [r.value]
      ensures |pub| == |old(pub)| || |pub| == |old(pub)| - ALLOC_NUM
    {
      hide Good, Kept;
      r := AllocPrivate(core);
      if r == None {
        r := AllocPublic(core);
      }
      if r.Some? {
        HeldOwner(State(), book, home, cores, r.value);
        LastIsNew(old(Out()), r.value);
      }
    }

    lemma LastIsNew(s: seq<Chunk>, x: Chunk)
      requires Distinct(s + [x])
      ensures x !in s
    {
      forall i | 0 <= i < |s|
        ensures s[i] != x
      {
        assert (s + [x])[i] != (s + [x])[|s|];
      }
    }

    /** The chunks of a return list, by following the links. */
    method CollectReturn(core: nat) returns (all: seq<Chunk>)
      requires Good(State(), book, home, cores) && core < cores && |back| == cores
      ensures all == On(OnReturn(core))
    {
      hide Good, Kept;
      CoreFacts(State(), book, home, cores, core);
      ghost var s := book.at[OnReturn(core)];
      var point := back[core].head;
      all := [];
      for i := 0 to back[core].len
        invariant all == s[..i]
        invariant point == if i < |s| then Some(s[i]) else None
      {
        assert LinkAt(next, s, i);
        all := all + [point.value];
        point := next[point.value];
      }
    }

    /** A full return list goes back to the shared pool. */
    method GiveBack(core: nat)
      requires Good(State(), book, home, cores) && core < cores && |back| == cores && back[core].len == ALLOC_NUM
      requires |priv| == |local| == cores && forall c :: 0 <= c < cores && c != core ==> back[c].len < ALLOC_NUM
      modifies this`pub, this`back, this`book
      ensures Valid() && book.owner.Keys == old(book.owner.Keys)
      ensures Out() == old(Out()) && |pub| == |old(pub)| + ALLOC_NUM
      ensures pub == old(pub) + old(On(OnReturn(core))) && On(OnReturn(core)) == []
    {
      hide Good, Kept, Move, MoveMany, LinkAt;
      var all := CollectReturn(core);
      CoreFacts(State(), book, home, cores, core);
      GiveBackGood(State(), book, home, cores, core);
      pub, back := pub + all, back[core := Fifo(None, None, 0)];
      book := MoveMany(book, OnReturn(core), ALLOC_NUM, InPublic);
    }

    method FreePrivate(chunk: Chunk, ghost i: nat)
      requires Valid() && i < |Out()| && Out()[i] == chunk
      requires home(chunk).Private? && home(chunk).core < cores
      modifies this`priv, this`book
      ensures Valid() && book.owner.Keys == old(book.owner.Keys)
      ensures Out() == RemoveAt(old(Out()), i)
      ensures priv[home(chunk).core] == old(priv)[home(chunk).core] + [chunk]
    {
      hide Good, Kept, RemoveAt;
      var c := home(chunk).core;
      CoreFacts(State(), book, home, cores, c);
      PutPrivateGood(State(), book, home, cores, i);
      priv := priv[c := priv[c] + [chunk]];
      book := Move(book, Held, i, InPrivate(c));
    }

    method FreePublic(chunk: Chunk, core: nat, ghost i: nat)
      requires Valid() && core < cores && i < |Out()| && Out()[i] == chunk && home(chunk) == Public
      modifies this`pub, this`next, this`back, this`book
      ensures Valid() && book.owner.Keys == old(book.owner.Keys)
      ensures Out() == RemoveAt(old(Out()), i)
      ensures old(back)[core].len + 1 < ALLOC_NUM ==>
                pub == old(pub) && On(OnReturn(core)) == old(On(OnReturn(core))) + [chunk]
      ensures old(back)[core].len + 1 == ALLOC_NUM ==>
                |pub| == |old(pub)| + ALLOC_NUM && pub == old(pub) + (old(On(OnReturn(core))) + [chunk]) && On(OnReturn(core)) == []
    {
      hide Good, Kept, RemoveAt;
      CoreFacts(State(), book, home, cores, core);
      PushReturnGood(State(), book, home, cores, core, i);
      var (n, f) := Append(next, back[core], chunk);
      next, back := n, back[core := f];
      book := Move(book, Held, i, OnReturn(core));
      if back[core].len == ALLOC_NUM {
        GiveBack(core);
      }
    }

    /** Freeing a chunk: a private one goes back to its own pool; a shared one joins the freeing core's return
        list, and the list goes back to the shared pool when it holds a full bulk. */
    method Free(chunk: Chunk, core: nat, ghost i: nat)
      requires Valid() && core < cores && i < |Out()| && Out()[i] == chunk
      requires home(chunk).Private? ==> home(chunk).core < cores
      modifies this`priv, this`pub, this`next, this`back, this`book
      ensures Valid() && book.owner.Keys == old(book.owner.Keys)
      ensures Out() == RemoveAt(old(Out()), i)
      ensures |pub| == |old(pub)| || |pub| == |old(pub)| + ALLOC_NUM
    {
      hide Good, Kept, RemoveAt, Mempool.On, Mempool.Out;
      if home(chunk) == Public {
        FreePublic(chunk, core, i);
      } else {
        FreePrivate(chunk, i);
      }
    }
  }
}
