/**
 The Internet checksum of ICMP messages: a 32-bit sum of little-endian words, folded twice and complemented,
 against one's complement addition word by word (section 1 of RFC 1071).
 */
module Checksum {

  import opened Common

  const TWO_TO_16: int := 65536
  const TWO_TO_32: int := 4294967296

  function WordCount(b: seq<Byte>): nat { (|b| + 1) / 2 }

  /** The k-th 16-bit word; a last single byte is padded with zero. */
  function Word(b: seq<Byte>, k: nat): (w: nat)
    requires k < WordCount(b)
    ensures w < TWO_TO_16
  {
    (b[2 * k] as int) + 256 * if 2 * k + 1 < |b| then b[2 * k + 1] as int else 0
  }

  function Sum(b: seq<Byte>, n: nat): (s: nat)
    requires n <= WordCount(b)
    ensures s <= n * 65535
  {
    if n == 0 then 0 else Sum(b, n - 1) + Word(b, n - 1)
  }

  // ----- one's complement addition -----

  /** Addition with the carry brought round to the low end. */
  function AddRound(x: nat, y: nat): (z: nat)
    requires x < TWO_TO_16 && y < TWO_TO_16
    ensures z < TWO_TO_16
  {
    if x + y < TWO_TO_16 then x + y else x + y - 65535
  }

  function RoundSum(b: seq<Byte>, n: nat): (z: nat)
    requires n <= WordCount(b)
    ensures z < TWO_TO_16
  {
    if n == 0 then 0 else AddRound(RoundSum(b, n - 1), Word(b, n - 1))
  }

  /** x stands for the sum s: equal modulo 65535, and zero only for zero. */
  ghost predicate Stands(x: nat, s: nat) { x < TWO_TO_16 && (x == 0 <==> s == 0) && exists q: nat :: s == x + 65535 * q }

  lemma StandsUnique(x: nat, y: nat, s: nat)
    requires Stands(x, s) && Stands(y, s)
    ensures x == y
  {
  }

  lemma StandsAdd(x: nat, s: nat, w: nat)
    requires Stands(x, s) && w < TWO_TO_16
    ensures Stands(AddRound(x, w), s + w)
  {
    var q: nat :| s == x + 65535 * q;
    if x + w < TWO_TO_16 {
      assert s + w == AddRound(x, w) + 65535 * q;
    } else {
      assert s + w == AddRound(x, w) + 65535 * (q + 1);
    }
  }

  lemma {:induction false} RoundSumStands(b: seq<Byte>, n: nat)
    requires n <= WordCount(b)
    ensures Stands(RoundSum(b, n), Sum(b, n))
  {
    hide Stands;
    if n == 0 {
      assert Stands(0, 0) by { ZeroStands(); }
    } else {
      RoundSumStands(b, n - 1);
      StandsAdd(RoundSum(b, n - 1), Sum(b, n - 1), Word(b, n - 1));
    }
  }

  lemma ZeroStands()
    ensures Stands(0, 0)
  {
    assert 0 == 0 + 65535 * 0;
  }

  /** Two folds of a 32-bit sum, and only the low half kept. */
  function Fold(s: nat): nat
    requires s < TWO_TO_32
  {
    var s1 := s / TWO_TO_16 + s % TWO_TO_16;
    (s1 + s1 / TWO_TO_16) % TWO_TO_16
  }

  /** Two folds suffice for every 32-bit sum. */
  lemma FoldStands(s: nat)
    requires s < TWO_TO_32
    ensures Stands(Fold(s), s)
  {
    var hi, lo := s / TWO_TO_16, s % TWO_TO_16;
    var s1 := hi + lo;
    assert s == hi * TWO_TO_16 + lo == s1 + 65535 * hi;
    if s1 < TWO_TO_16 {
      assert Fold(s) == s1;
    } else {
      assert s1 / TWO_TO_16 == 1;
      assert Fold(s) == s1 - 65535;
      assert s == Fold(s) + 65535 * (hi + 1);
    }
  }

  /** What a sender puts in the field and a receiver expects to be zero. */
  function Value(b: seq<Byte>): (c: nat)
    ensures c < TWO_TO_16
  {
    65535 - RoundSum(b, WordCount(b))
  }

  /** The accumulating loop on 32 bits: at most 65537 words cannot overflow it. */
  method WordSum(b: seq<Byte>) returns (sum: nat)
    requires |b| <= 131074
    ensures sum == Sum(b, WordCount(b)) && sum < TWO_TO_32
  {
    sum := 0;
    var len: int := |b|;
    var i: nat := 0;
    while len > 1
      invariant 0 <= len <= |b| && len == |b| - 2 * i && i <= WordCount(b)
      invariant sum == Sum(b, i) && sum < TWO_TO_32
    {
      sum := (sum + Word(b, i)) % TWO_TO_32;
      NoOverflow(b, i + 1);
      i, len := i + 1, len - 2;
    }
    if len == 1 {
      sum := (sum + b[2 * i]) % TWO_TO_32;
      NoOverflow(b, i + 1);
    }
  }

  /** icmp_checksum: folding the 32-bit sum twice and complementing it gives the complement of the one's complement
      sum. */
  method IcmpChecksum(b: seq<Byte>) returns (ret: nat)
    requires |b| <= 131074
    ensures ret == Value(b)
  {
    hide Stands, Sum, RoundSum, Fold;
    var sum := WordSum(b);
    FoldStands(sum);
    RoundSumStands(b, WordCount(b));
    StandsUnique(Fold(sum), RoundSum(b, WordCount(b)), sum);
    FoldComplement(sum);
    sum := sum / TWO_TO_16 + sum % TWO_TO_16;
    sum := sum + sum / TWO_TO_16;
    ret := (TWO_TO_32 - 1 - sum) % TWO_TO_16;
  }

  /** The complement of the 32-bit word, cut to 16 bits. */
  lemma FoldComplement(s: nat)
    requires s < TWO_TO_32
    ensures var s1 := s / TWO_TO_16 + s % TWO_TO_16;
            (TWO_TO_32 - 1 - (s1 + s1 / TWO_TO_16)) % TWO_TO_16 == 65535 - Fold(s)
  {
    var s1 := s / TWO_TO_16 + s % TWO_TO_16;
    var s2 := s1 + s1 / TWO_TO_16;
    assert TWO_TO_32 - 1 - s2 == TWO_TO_16 * (65535 - s2 / TWO_TO_16) + (65535 - s2 % TWO_TO_16);
  }

  lemma NoOverflow(b: seq<Byte>, n: nat)
    requires n <= WordCount(b) && n <= 65537
    ensures Sum(b, n) < TWO_TO_32
  {
  }

  // ----- sender and receiver -----

  /** A receiver accepts exactly the messages whose word sum is a positive multiple of 65535. */
  lemma AcceptedIff(b: seq<Byte>)
    ensures Value(b) == 0 <==> Sum(b, WordCount(b)) > 0 && Sum(b, WordCount(b)) % 65535 == 0
  {
    var s, x := Sum(b, WordCount(b)), RoundSum(b, WordCount(b));
    RoundSumStands(b, WordCount(b));
    var q: nat :| s == x + 65535 * q;
    ModStep(x, q);
  }

  lemma ModStep(x: nat, q: nat)
    requires x <= 65535
    ensures (x + 65535 * q) % 65535 == if x == 65535 then 0 else x
  {
    if x == 65535 {
      assert x + 65535 * q == 65535 * (q + 1);
    }
  }

  /** Messages that agree outside word k differ in their sums by that word. */
  lemma {:induction false} OneWord(b: seq<Byte>, c: seq<Byte>, k: nat, n: nat)
    requires |b| == |c| && k < n <= WordCount(b)
    requires forall i :: 0 <= i < |b| && i != 2 * k && i != 2 * k + 1 ==> b[i] == c[i]
    ensures Sum(c, n) - Word(c, k) == Sum(b, n) - Word(b, k)
  {
    if n == k + 1 {
      SameBefore(b, c, k);
    } else {
      OneWord(b, c, k, n - 1);
      assert Word(b, n - 1) == Word(c, n - 1);
    }
  }

  lemma {:induction false} SameBefore(b: seq<Byte>, c: seq<Byte>, k: nat)
    requires |b| == |c| && k <= WordCount(b)
    requires forall i :: 0 <= i < |b| && i < 2 * k ==> b[i] == c[i]
    ensures Sum(c, k) == Sum(b, k)
  {
    if k > 0 {
      SameBefore(b, c, k - 1);
    }
  }

  /** The checksum field is the second word of the header. */
  function WithField(b: seq<Byte>, c: nat): (r: seq<Byte>)
    requires |b| >= 4 && c < TWO_TO_16
    ensures |r| == |b| && Word(r, 1) == c
  {
    b[2 := c % 256][3 := c / 256]
  }

  lemma FieldSum(b: seq<Byte>, c: nat)
    requires |b| >= 4 && c < TWO_TO_16
    ensures Sum(WithField(b, c), WordCount(b)) == Sum(WithField(b, 0), WordCount(b)) + c
  {
    OneWord(WithField(b, 0), WithField(b, c), 1, WordCount(b));
  }

  /** A message whose field holds the value computed with the field zeroed is accepted. */
  lemma FilledIsAccepted(b: seq<Byte>)
    requires |b| >= 4
    ensures Value(WithField(b, Value(WithField(b, 0)))) == 0
  {
    var blank := WithField(b, 0);
    var c, n := Value(blank), WordCount(b);
    var x, s := RoundSum(blank, n), Sum(blank, n);
    FieldSum(b, c);
    RoundSumStands(blank, n);
    var q: nat :| s == x + 65535 * q;
    assert s + c == 65535 + 65535 * q;
    ModStep(65535, q);
    AcceptedIff(WithField(b, c));
  }

  /** A receiver accepts one field value, except that all ones pass for zero. */
  lemma AcceptedFields(b: seq<Byte>, d: nat)
    requires |b| >= 4 && d < TWO_TO_16
    ensures var c := Value(WithField(b, 0));
            Value(WithField(b, d)) == 0 <==> d == c || (d == 65535 && c == 0)
  {
    hide Sum, RoundSum, WithField;
    var blank := WithField(b, 0);
    var n := WordCount(b);
    var x, s := RoundSum(blank, n), Sum(blank, n);
    FieldSum(b, d);
    RoundSumStands(blank, n);
    var q: nat :| s == x + 65535 * q;
    AcceptedIff(WithField(b, d));
    MultipleIff(x, q, d);
  }

  lemma MultipleIff(x: nat, q: nat, d: nat)
    requires x <= 65535 && d <= 65535 && (x == 0 ==> q == 0)
    ensures var s := x + 65535 * q + d;
            s > 0 && s % 65535 == 0 <==> d == 65535 - x || (d == 65535 && x == 65535)
  {
    if x + d <= 65535 {
      ModStep(x + d, q);
    } else {
      assert x + 65535 * q + d == (x + d - 65535) + 65535 * (q + 1);
      ModStep(x + d - 65535, q + 1);
    }
  }

  /** Damage to a single word of an accepted message is always noticed, except that a zero word and an all-ones
      word pass for each other. */
  lemma OneWordDamage(b: seq<Byte>, c: seq<Byte>, k: nat)
    requires |b| == |c| && k < WordCount(b) && Value(b) == 0
    requires forall i :: 0 <= i < |b| && i != 2 * k && i != 2 * k + 1 ==> b[i] == c[i]
    requires Word(b, k) != Word(c, k)
    ensures Value(c) == 0 <==> {Word(b, k), Word(c, k)} == {0, 65535} && Sum(c, WordCount(c)) > 0
  {
    hide Sum, Value;
    var n := WordCount(b);
    OneWord(b, c, k, n);
    AcceptedIff(b);
    AcceptedIff(c);
    if Value(c) == 0 {
      SameRest(Sum(b, n), Sum(c, n));
      assert {Word(b, k), Word(c, k)} == {0, 65535};
    } else if {Word(b, k), Word(c, k)} == {0, 65535} {
      assert 0 in {Word(b, k), Word(c, k)} && 65535 in {Word(b, k), Word(c, k)};
      assert Sum(c, n) == Sum(b, n) + 65535 || Sum(c, n) == Sum(b, n) - 65535;
    }
  }

  lemma SameRest(s: nat, t: nat)
    requires s % 65535 == 0 && t % 65535 == 0 && s != t && -65535 <= t - s <= 65535
    ensures t - s == 65535 || s - t == 65535
  {
  }

  // ----- echo -----

  const ICMP_ECHOREPLY: Byte := 0

  /** Overread: the reply is to copy this many bytes of data from behind a header that is not all there. */
  datatype Answer = Error | Reply(message: seq<Byte>) | Overread(len: nat)

  /** icmp_output: the header is filled with the checksum field zero, then the field is set. */
  method IcmpOutput(kind: Byte, code: Byte, rest: seq<Byte>) returns (m: seq<Byte>)
    requires 4 <= |rest| <= 65531
    ensures |m| == |rest| + 4 && m[0] == kind && m[1] == code && m[4..] == rest
    ensures Value(m) == 0
  {
    m := [kind, code, 0, 0] + rest;
    assert WithField(m, 0) == m;
    FilledIsAccepted(m);
    var c := IcmpChecksum(m);
    m := WithField(m, c);
  }

  /** process_icmp_echo_request: exactly the requests with a good checksum are answered, and the answer returns
      identifier, sequence number and data under a good checksum of its own.  The length of the data is computed in
      16 bits without a look at the length of the request, so this holds exactly for requests with a whole header. */
  method EchoRequest(m: seq<Byte>) returns (a: Answer)
    requires |m| <= 65535
    ensures a.Error? <==> !(Sum(m, WordCount(m)) > 0 && Sum(m, WordCount(m)) % 65535 == 0)
    ensures !a.Error? ==> (a.Reply? <==> |m| >= 8)
    ensures a.Overread? ==> a.len == 65528 + |m|
    ensures a.Reply? ==> |a.message| == |m| && a.message[..2] == [ICMP_ECHOREPLY, 0] && a.message[4..] == m[4..]
                         && Value(a.message) == 0
  {
    hide Sum, Value;
    var c := IcmpChecksum(m);
    AcceptedIff(m);
    var len := (|m| - 8) % TWO_TO_16;
    if c != 0 {
      a := Error;
    } else if len > |m| {
      a := Overread(len);
    } else {
      var r := IcmpOutput(ICMP_ECHOREPLY, 0, m[4..]);
      assert r[..2] == [r[0], r[1]];
      a := Reply(r);
    }
  }

  /** Such a request: two bytes of ones. */
  lemma ShortRequest()
    ensures Value([255, 255]) == 0
  {
    var b: seq<Byte> := [255, 255];
    assert Sum(b, 1) == Sum(b, 0) + Word(b, 0);
    AcceptedIff(b);
  }
}
