/**
 The 16-bit register and the constant table.
 */
module CrcTable {

  // ----- the register, bit by bit -----

  /** The register takes in one zero bit. */
  function Step(c: bv16): bv16 { if c & 0x8000 != 0 then (c << 1) ^ 0x1021 else c << 1 }

  function Step8(c: bv16): bv16 { Step(Step(Step(Step(Step(Step(Step(Step(c)))))))) }

  // ----- the constant table, a function of the index; entry i is what eight steps make of i in the high byte -----

  function Table0(i: bv16): (e: bv16)
    requires i < 32
    ensures e == Step8(i << 8)
  {
    match i
    case 0x00 => 0x0000 case 0x01 => 0x1021 case 0x02 => 0x2042 case 0x03 => 0x3063
    case 0x04 => 0x4084 case 0x05 => 0x50a5 case 0x06 => 0x60c6 case 0x07 => 0x70e7
    case 0x08 => 0x8108 case 0x09 => 0x9129 case 0x0a => 0xa14a case 0x0b => 0xb16b
    case 0x0c => 0xc18c case 0x0d => 0xd1ad case 0x0e => 0xe1ce case 0x0f => 0xf1ef
    case 0x10 => 0x1231 case 0x11 => 0x0210 case 0x12 => 0x3273 case 0x13 => 0x2252
    case 0x14 => 0x52b5 case 0x15 => 0x4294 case 0x16 => 0x72f7 case 0x17 => 0x62d6
    case 0x18 => 0x9339 case 0x19 => 0x8318 case 0x1a => 0xb37b case 0x1b => 0xa35a
    case 0x1c => 0xd3bd case 0x1d => 0xc39c case 0x1e => 0xf3ff case _ => 0xe3de
  }

  function Table1(i: bv16): (e: bv16)
    requires 32 <= i < 64
    ensures e == Step8(i << 8)
  {
    match i
    case 0x20 => 0x2462 case 0x21 => 0x3443 case 0x22 => 0x0420 case 0x23 => 0x1401
    case 0x24 => 0x64e6 case 0x25 => 0x74c7 case 0x26 => 0x44a4 case 0x27 => 0x5485
    case 0x28 => 0xa56a case 0x29 => 0xb54b case 0x2a => 0x8528 case 0x2b => 0x9509
    case 0x2c => 0xe5ee case 0x2d => 0xf5cf case 0x2e => 0xc5ac case 0x2f => 0xd58d
    case 0x30 => 0x3653 case 0x31 => 0x2672 case 0x32 => 0x1611 case 0x33 => 0x0630
    case 0x34 => 0x76d7 case 0x35 => 0x66f6 case 0x36 => 0x5695 case 0x37 => 0x46b4
    case 0x38 => 0xb75b case 0x39 => 0xa77a case 0x3a => 0x9719 case 0x3b => 0x8738
    case 0x3c => 0xf7df case 0x3d => 0xe7fe case 0x3e => 0xd79d case _ => 0xc7bc
  }

  function Table2(i: bv16): (e: bv16)
    requires 64 <= i < 96
    ensures e == Step8(i << 8)
  {
    match i
    case 0x40 => 0x48c4 case 0x41 => 0x58e5 case 0x42 => 0x6886 case 0x43 => 0x78a7
    case 0x44 => 0x0840 case 0x45 => 0x1861 case 0x46 => 0x2802 case 0x47 => 0x3823
    case 0x48 => 0xc9cc case 0x49 => 0xd9ed case 0x4a => 0xe98e case 0x4b => 0xf9af
    case 0x4c => 0x8948 case 0x4d => 0x9969 case 0x4e => 0xa90a case 0x4f => 0xb92b
    case 0x50 => 0x5af5 case 0x51 => 0x4ad4 case 0x52 => 0x7ab7 case 0x53 => 0x6a96
    case 0x54 => 0x1a71 case 0x55 => 0x0a50 case 0x56 => 0x3a33 case 0x57 => 0x2a12
    case 0x58 => 0xdbfd case 0x59 => 0xcbdc case 0x5a => 0xfbbf case 0x5b => 0xeb9e
    case 0x5c => 0x9b79 case 0x5d => 0x8b58 case 0x5e => 0xbb3b case _ => 0xab1a
  }

  function Table3(i: bv16): (e: bv16)
    requires 96 <= i < 128
    ensures e == Step8(i << 8)
  {
    match i
    case 0x60 => 0x6ca6 case 0x61 => 0x7c87 case 0x62 => 0x4ce4 case 0x63 => 0x5cc5
    case 0x64 => 0x2c22 case 0x65 => 0x3c03 case 0x66 => 0x0c60 case 0x67 => 0x1c41
    case 0x68 => 0xedae case 0x69 => 0xfd8f case 0x6a => 0xcdec case 0x6b => 0xddcd
    case 0x6c => 0xad2a case 0x6d => 0xbd0b case 0x6e => 0x8d68 case 0x6f => 0x9d49
    case 0x70 => 0x7e97 case 0x71 => 0x6eb6 case 0x72 => 0x5ed5 case 0x73 => 0x4ef4
    case 0x74 => 0x3e13 case 0x75 => 0x2e32 case 0x76 => 0x1e51 case 0x77 => 0x0e70
    case 0x78 => 0xff9f case 0x79 => 0xefbe case 0x7a => 0xdfdd case 0x7b => 0xcffc
    case 0x7c => 0xbf1b case 0x7d => 0xaf3a case 0x7e => 0x9f59 case _ => 0x8f78
  }

  function Table4(i: bv16): (e: bv16)
    requires 128 <= i < 160
    ensures e == Step8(i << 8)
  {
    match i
    case 0x80 => 0x9188 case 0x81 => 0x81a9 case 0x82 => 0xb1ca case 0x83 => 0xa1eb
    case 0x84 => 0xd10c case 0x85 => 0xc12d case 0x86 => 0xf14e case 0x87 => 0xe16f
    case 0x88 => 0x1080 case 0x89 => 0x00a1 case 0x8a => 0x30c2 case 0x8b => 0x20e3
    case 0x8c => 0x5004 case 0x8d => 0x4025 case 0x8e => 0x7046 case 0x8f => 0x6067
    case 0x90 => 0x83b9 case 0x91 => 0x9398 case 0x92 => 0xa3fb case 0x93 => 0xb3da
    case 0x94 => 0xc33d case 0x95 => 0xd31c case 0x96 => 0xe37f case 0x97 => 0xf35e
    case 0x98 => 0x02b1 case 0x99 => 0x1290 case 0x9a => 0x22f3 case 0x9b => 0x32d2
    case 0x9c => 0x4235 case 0x9d => 0x5214 case 0x9e => 0x6277 case _ => 0x7256
  }

  function Table5(i: bv16): (e: bv16)
    requires 160 <= i < 192
    ensures e == Step8(i << 8)
  {
    match i
    case 0xa0 => 0xb5ea case 0xa1 => 0xa5cb case 0xa2 => 0x95a8 case 0xa3 => 0x8589
    case 0xa4 => 0xf56e case 0xa5 => 0xe54f case 0xa6 => 0xd52c case 0xa7 => 0xc50d
    case 0xa8 => 0x34e2 case 0xa9 => 0x24c3 case 0xaa => 0x14a0 case 0xab => 0x0481
    case 0xac => 0x7466 case 0xad => 0x6447 case 0xae => 0x5424 case 0xaf => 0x4405
    case 0xb0 => 0xa7db case 0xb1 => 0xb7fa case 0xb2 => 0x8799 case 0xb3 => 0x97b8
    case 0xb4 => 0xe75f case 0xb5 => 0xf77e case 0xb6 => 0xc71d case 0xb7 => 0xd73c
    case 0xb8 => 0x26d3 case 0xb9 => 0x36f2 case 0xba => 0x0691 case 0xbb => 0x16b0
    case 0xbc => 0x6657 case 0xbd => 0x7676 case 0xbe => 0x4615 case _ => 0x5634
  }

  function Table6(i: bv16): (e: bv16)
    requires 192 <= i < 224
    ensures e == Step8(i << 8)
  {
    match i
    case 0xc0 => 0xd94c case 0xc1 => 0xc96d case 0xc2 => 0xf90e case 0xc3 => 0xe92f
    case 0xc4 => 0x99c8 case 0xc5 => 0x89e9 case 0xc6 => 0xb98a case 0xc7 => 0xa9ab
    case 0xc8 => 0x5844 case 0xc9 => 0x4865 case 0xca => 0x7806 case 0xcb => 0x6827
    case 0xcc => 0x18c0 case 0xcd => 0x08e1 case 0xce => 0x3882 case 0xcf => 0x28a3
    case 0xd0 => 0xcb7d case 0xd1 => 0xdb5c case 0xd2 => 0xeb3f case 0xd3 => 0xfb1e
    case 0xd4 => 0x8bf9 case 0xd5 => 0x9bd8 case 0xd6 => 0xabbb case 0xd7 => 0xbb9a
    case 0xd8 => 0x4a75 case 0xd9 => 0x5a54 case 0xda => 0x6a37 case 0xdb => 0x7a16
    case 0xdc => 0x0af1 case 0xdd => 0x1ad0 case 0xde => 0x2ab3 case _ => 0x3a92
  }

  function Table7(i: bv16): (e: bv16)
    requires 224 <= i < 256
    ensures e == Step8(i << 8)
  {
    match i
    case 0xe0 => 0xfd2e case 0xe1 => 0xed0f case 0xe2 => 0xdd6c case 0xe3 => 0xcd4d
    case 0xe4 => 0xbdaa case 0xe5 => 0xad8b case 0xe6 => 0x9de8 case 0xe7 => 0x8dc9
    case 0xe8 => 0x7c26 case 0xe9 => 0x6c07 case 0xea => 0x5c64 case 0xeb => 0x4c45
    case 0xec => 0x3ca2 case 0xed => 0x2c83 case 0xee => 0x1ce0 case 0xef => 0x0cc1
    case 0xf0 => 0xef1f case 0xf1 => 0xff3e case 0xf2 => 0xcf5d case 0xf3 => 0xdf7c
    case 0xf4 => 0xaf9b case 0xf5 => 0xbfba case 0xf6 => 0x8fd9 case 0xf7 => 0x9ff8
    case 0xf8 => 0x6e17 case 0xf9 => 0x7e36 case 0xfa => 0x4e55 case 0xfb => 0x5e74
    case 0xfc => 0x2e93 case 0xfd => 0x3eb2 case 0xfe => 0x0ed1 case _ => 0x1ef0
  }

  function Table(i: bv16): (e: bv16)
    requires i < 256
    ensures e == Step8(i << 8)
  {
    if i < 32 then Table0(i) else if i < 64 then Table1(i) else if i < 96 then Table2(i) else if i < 128 then Table3(i)
    else if i < 160 then Table4(i) else if i < 192 then Table5(i) else if i < 224 then Table6(i) else Table7(i)
  }

  // ----- a byte at a time -----

  /** Addition of registers: exclusive or. */
  function Sum(x: bv16, y: bv16): bv16 { x ^ y }

  lemma StepSum(x: bv16, y: bv16)
    ensures Step(Sum(x, y)) == Sum(Step(x), Step(y))
  {
    ShiftXor(x, y);
    TopXor(x, y);
    Regroup(x << 1, y << 1, 0x1021);
  }

  lemma ShiftXor(x: bv16, y: bv16)
    ensures (x ^ y) << 1 == (x << 1) ^ (y << 1)
  {
  }

  lemma TopXor(x: bv16, y: bv16)
    ensures (x ^ y) & 0x8000 == (x & 0x8000) ^ (y & 0x8000)
    ensures x & 0x8000 == 0 || x & 0x8000 == 0x8000
    ensures y & 0x8000 == 0 || y & 0x8000 == 0x8000
  {
  }

  lemma Regroup(a: bv16, b: bv16, g: bv16)
    ensures (a ^ g) ^ b == (a ^ b) ^ g && a ^ (b ^ g) == (a ^ b) ^ g && (a ^ g) ^ (b ^ g) == a ^ b
  {
  }

  lemma Step8Sum(x: bv16, y: bv16)
    ensures Step8(Sum(x, y)) == Sum(Step8(x), Step8(y))
  {
    hide Step, Sum;
    StepSum(x, y);
    var x1, y1 := Step(x), Step(y);
    StepSum(x1, y1);
    var x2, y2 := Step(x1), Step(y1);
    StepSum(x2, y2);
    var x3, y3 := Step(x2), Step(y2);
    StepSum(x3, y3);
    var x4, y4 := Step(x3), Step(y3);
    StepSum(x4, y4);
    var x5, y5 := Step(x4), Step(y4);
    StepSum(x5, y5);
    var x6, y6 := Step(x5), Step(y5);
    StepSum(x6, y6);
    StepSum(Step(x6), Step(y6));
  }

  lemma LowByte(x: bv16)
    requires x < 256
    ensures Step8(x) == x << 8
  {
  }

  /** The table index for a register and a byte. */
  function Index(c: bv16, b: bv16): (i: bv16)
    ensures i < 256
  {
    ((c >> 8) ^ b) & 0xff
  }

  lemma Halves(c: bv16, b: bv16)
    requires b < 256
    ensures Sum(c, b << 8) == Sum(Index(c, b) << 8, c & 0xff)
    ensures c & 0xff < 256 && (c & 0xff) << 8 == c << 8
  {
  }

  lemma SumSwap(x: bv16, y: bv16)
    ensures Sum(x, y) == Sum(y, x)
  {
  }

  /** The table lookup does to the register what eight single steps do. */
  lemma ByteUpdate(c: bv16, b: bv16)
    requires b < 256
    ensures Sum(c << 8, Table(Index(c, b))) == Step8(Sum(c, b << 8))
  {
    hide Step8, Table, Sum, Index;
    Halves(c, b);
    Step8Sum(Index(c, b) << 8, c & 0xff);
    LowByte(c & 0xff);
    SumSwap(c << 8, Step8(Index(c, b) << 8));
  }
}

/**
 Division of bit strings by x^16 + x^12 + x^5 + 1 over the two-element field, most significant bit first.
 */
module Divisor {

  datatype Bit = O | I

  /** The bits of x^16 + x^12 + x^5 + 1. */
  const G: seq<Bit> := [I, O, O, O, I, O, O, O, O, O, O, I, O, O, O, O, I]

  function Plus(a: Bit, b: Bit): Bit { if a == b then O else I }

  function Xor(a: seq<Bit>, b: seq<Bit>): (r: seq<Bit>)
    requires |a| == |b|
    ensures |r| == |a| && forall i :: 0 <= i < |a| ==> r[i] == Plus(a[i], b[i])
  {
    seq(|a|, i requires 0 <= i < |a| => Plus(a[i], b[i]))
  }

  const ZEROS: seq<Bit> := [O, O, O, O, O, O, O, O, O, O, O, O, O, O, O, O]

  /** The 17 bits under the divisor, with the divisor added if t is set. */
  function Mix(w: seq<Bit>, t: Bit): (r: seq<Bit>)
    requires |w| == 17
    ensures |r| == 17
  {
    if t == I then Xor(w, G) else w
  }

  /** The product of q and the divisor: long multiplication, one bit of q after the other.  Each bit shifts the
      product by one place and adds the divisor at its low end if the bit is set. */
  function Times(q: seq<Bit>): (p: seq<Bit>)
    ensures |p| == |q| + 16
  {
    if q == [] then ZEROS
    else
      var n := |q| - 1;
      var p := Times(q[..n]);
      p[..n] + Mix(p[n..] + [O], q[n])
  }

  lemma TimesOne(q: seq<Bit>, t: Bit)
    ensures Times(q + [t]) == Times(q)[..|q|] + Mix(Times(q)[|q|..] + [O], t)
  {
    hide Mix;
    assert (q + [t])[..|q|] == q;
  }

  /** m followed by the 16 bits r is a multiple of the divisor. */
  ghost predicate Divides(m: seq<Bit>, r: seq<Bit>) {
    |r| == 16 && exists q :: |q| == |m| && Times(q) == m + r
  }

  lemma MixHead(w: seq<Bit>, t: Bit)
    requires |w| == 17
    ensures Mix(w, t)[0] == Plus(w[0], t)
  {
  }

  /** Division leaves one remainder: the leading bits of a product give its quotient away. */
  lemma {:induction false} QuotientUnique(q: seq<Bit>, q': seq<Bit>)
    requires |q| == |q'| && Times(q)[..|q|] == Times(q')[..|q|]
    ensures q == q'
  {
    hide Times, Mix;
    if q != [] {
      var n := |q| - 1;
      var a, a' := q[..n], q'[..n];
      assert q == a + [q[n]] && q' == a' + [q'[n]];
      TimesOne(a, q[n]);
      TimesOne(a', q'[n]);
      assert Times(a)[..n] == Times(q)[..|q|][..n] == Times(q')[..|q|][..n] == Times(a')[..n];
      QuotientUnique(a, a');
      var w := Times(a)[n..] + [O];
      MixHead(w, q[n]);
      MixHead(w, q'[n]);
      assert Mix(w, q[n])[0] == Times(q)[..|q|][n] == Times(q')[..|q|][n] == Mix(w, q'[n])[0];
    }
  }

  lemma RemainderUnique(m: seq<Bit>, r: seq<Bit>, r': seq<Bit>)
    requires Divides(m, r) && Divides(m, r')
    ensures r == r'
  {
    var q :| |q| == |m| && Times(q) == m + r;
    var q' :| |q'| == |m| && Times(q') == m + r';
    assert (m + r)[..|m|] == m == (m + r')[..|m|];
    QuotientUnique(q, q');
    assert r == (m + r)[|m|..] && r' == (m + r')[|m|..];
  }
}


/**
 The table-driven CRC of the key hash, and what its value is.
 */
module Crc16 {
  import opened Divisor
  import opened CrcTable

  function Top(c: bv16): Bit { if c & 0x8000 != 0 then I else O }

  /** One place up. */
  function Up(c: bv16): bv16 { c << 1 }

  /** The n leading bits of a register. */
  function Leading(c: bv16, n: nat): (s: seq<Bit>)
    ensures |s| == n
    decreases n
  {
    if n == 0 then [] else [Top(c)] + Leading(Up(c), n - 1)
  }

  function Bits(c: bv16): (s: seq<Bit>)
    ensures |s| == 16
  {
    Leading(c, 16)
  }

  /** The register takes in the message bit b. */
  function BitStep(c: bv16, b: Bit): bv16 { if Top(c) != b then Sum(Up(c), 0x1021) else Up(c) }

  /** The register after the bits of a message. */
  function BitCrc(m: seq<Bit>): bv16 {
    if m == [] then 0 else BitStep(BitCrc(m[..|m| - 1]), m[|m| - 1])
  }

  function Shifted(c: bv16, n: nat): bv16
    decreases n
  {
    if n == 0 then c else Shifted(Up(c), n - 1)
  }

  lemma {:induction false} LeadingLast(c: bv16, n: nat)
    ensures Leading(c, n + 1) == Leading(c, n) + [Top(Shifted(c, n))]
    decreases n
  {
    hide Top, Up;
    if n > 0 {
      LeadingLast(Up(c), n - 1);
    }
  }

  lemma LeadingStep(c: bv16, n: nat)
    ensures Leading(c, n + 1) == [Top(c)] + Leading(Up(c), n) && Shifted(c, n + 1) == Shifted(Up(c), n)
  {
    hide Top, Up;
  }

  function Four(c: bv16): seq<Bit> { [Top(c), Top(Up(c)), Top(Up(Up(c))), Top(Up(Up(Up(c))))] }

  function Up4(c: bv16): bv16 { Up(Up(Up(Up(c)))) }

  /** Four bits at a time. */
  lemma FourBits(c: bv16, n: nat)
    ensures Leading(c, n + 4) == Four(c) + Leading(Up4(c), n)
    ensures Shifted(c, n + 4) == Shifted(Up4(c), n)
  {
    hide Top, Leading, Shifted, Up;
    LeadingStep(c, n + 3);
    LeadingStep(Up(c), n + 2);
    LeadingStep(Up(Up(c)), n + 1);
    LeadingStep(Up(Up(Up(c))), n);
  }

  lemma SixteenBits(c: bv16)
    ensures Leading(c, 16) == Four(c) + Four(Up4(c)) + Four(Up4(Up4(c))) + Four(Up4(Up4(Up4(c))))
    ensures Shifted(c, 16) == Up4(Up4(Up4(Up4(c))))
  {
    hide Four, Up4, Leading, Shifted;
    FourBits(c, 12);
    FourBits(Up4(c), 8);
    FourBits(Up4(Up4(c)), 4);
    FourBits(Up4(Up4(Up4(c))), 0);
    NoBits(Up4(Up4(Up4(Up4(c)))));
  }

  lemma NoBits(c: bv16)
    ensures Leading(c, 0) == [] && Shifted(c, 0) == c
  {
  }

  lemma AllOut(c: bv16)
    ensures Up4(Up4(Up4(Up4(c)))) == 0 && Up4(Up4(c << 8)) == 0
  {
  }

  lemma NothingLeft(c: bv16)
    ensures Top(Shifted(c, 16)) == O
  {
    hide Shifted, Up4;
    SixteenBits(c);
    AllOut(c);
  }

  lemma ShiftBits(c: bv16)
    ensures Bits(c) + [O] == [Top(c)] + Bits(Up(c))
  {
    hide Top, Up, Leading, Shifted;
    LeadingLast(c, 16);
    LeadingStep(c, 16);
    NothingLeft(c);
  }

  lemma TopSum(x: bv16, y: bv16)
    ensures Top(Sum(x, y)) == Plus(Top(x), Top(y)) && Up(Sum(x, y)) == Sum(Up(x), Up(y))
  {
    TopXor(x, y);
    ShiftXor(x, y);
  }

  lemma {:induction false} LeadingSum(x: bv16, y: bv16, n: nat)
    ensures Leading(Sum(x, y), n) == Xor(Leading(x, n), Leading(y, n))
    decreases n
  {
    hide Top, Sum, Up;
    if n > 0 {
      TopSum(x, y);
      LeadingSum(Up(x), Up(y), n - 1);
    }
  }

  lemma PolyBits()
    ensures G == [I] + Bits(0x1021)
  {
    hide Leading, Four, Up4;
    SixteenBits(0x1021);
    PolyNibbles();
  }

  lemma PolyNibbles()
    ensures Up4(0x1021) == 0x0210 && Up4(0x0210) == 0x2100 && Up4(0x2100) == 0x1000
    ensures Four(0x1021) == [O, O, O, I] && Four(0x0210) == [O, O, O, O]
    ensures Four(0x2100) == [O, O, I, O] && Four(0x1000) == [O, O, O, I]
  {
  }

  lemma AddBits(a: Bit, c: bv16)
    ensures Xor([a] + Bits(c), G) == [Plus(a, I)] + Bits(Sum(c, 0x1021))
  {
    hide Top, Sum, Leading;
    PolyBits();
    LeadingSum(c, 0x1021, 16);
  }

  /** Taking in b is one step of long division: the divisor is added exactly if that makes the leading bit b. */
  lemma DivisionStep(c: bv16, b: Bit)
    ensures Mix(Bits(c) + [O], Plus(Top(c), b)) == [b] + Bits(BitStep(c, b))
  {
    hide Bits, Top, Xor, Up;
    ShiftBits(c);
    AddBits(Top(c), Up(c));
  }

  /** The quotient that goes with the register. */
  ghost function Quotient(m: seq<Bit>): (q: seq<Bit>)
    ensures |q| == |m|
  {
    if m == [] then []
    else
      var n := |m| - 1;
      Quotient(m[..n]) + [Plus(Top(BitCrc(m[..n])), m[n])]
  }

  lemma DivideOne(q: seq<Bit>, a: seq<Bit>, c: bv16, b: Bit)
    requires |q| == |a| && Times(q) == a + Bits(c)
    ensures Times(q + [Plus(Top(c), b)]) == (a + [b]) + Bits(BitStep(c, b))
  {
    hide Mix, Bits, BitStep, Top, Times, Plus;
    TimesOne(q, Plus(Top(c), b));
    assert Times(q)[..|a|] == a && Times(q)[|a|..] == Bits(c);
    DivisionStep(c, b);
    assert a + ([b] + Bits(BitStep(c, b))) == (a + [b]) + Bits(BitStep(c, b));
  }

  /** Long division: the register is what is left when the quotient's multiple of the divisor is taken away. */
  lemma {:induction false} BitCrcDivides(m: seq<Bit>)
    ensures Times(Quotient(m)) == m + Bits(BitCrc(m))
  {
    hide Mix, Bits, BitStep, Top, Plus;
    if m == [] {
      assert Bits(0) == ZEROS by { ZeroBits(); }
    } else {
      var n := |m| - 1;
      BitCrcDivides(m[..n]);
      assert m == m[..n] + [m[n]];
      DivideOne(Quotient(m[..n]), m[..n], BitCrc(m[..n]), m[n]);
    }
  }

  lemma ZeroBits()
    ensures Bits(0) == ZEROS
  {
    hide Leading;
    SixteenBits(0);
    assert Up4(0) == 0 && Four(0) == [O, O, O, O];
  }

  /** The register is the remainder: a message followed by r is a multiple of the divisor exactly if r is the
      register's value. */
  lemma BitCrcIsRemainder(m: seq<Bit>, r: seq<Bit>)
    ensures Divides(m, r) <==> r == Bits(BitCrc(m))
  {
    hide Bits, BitCrc, Times;
    BitCrcDivides(m);
    assert Divides(m, Bits(BitCrc(m)));
    if Divides(m, r) {
      RemainderUnique(m, r, Bits(BitCrc(m)));
    }
  }

  // ----- bytes -----

  /** The register after n more bits, read off x from the top. */
  function Feed(c: bv16, x: bv16, n: nat): bv16
    decreases n
  {
    if n == 0 then c else Feed(BitStep(c, Top(x)), Up(x), n - 1)
  }

  function Steps(c: bv16, n: nat): bv16
    decreases n
  {
    if n == 0 then c else Steps(Step(c), n - 1)
  }

  lemma StepTop(c: bv16)
    ensures Step(c) == if Top(c) == I then Sum(Up(c), 0x1021) else Up(c)
  {
  }

  lemma SumRegroup(a: bv16, b: bv16, g: bv16)
    ensures Sum(Sum(a, g), b) == Sum(Sum(a, b), g)
  {
    Regroup(a, b, g);
  }

  lemma StepIsBitStep(c: bv16, x: bv16)
    ensures Step(Sum(c, x)) == Sum(BitStep(c, Top(x)), Up(x))
  {
    hide Sum, Top, Step, Up;
    TopSum(c, x);
    StepTop(Sum(c, x));
    SumRegroup(Up(c), Up(x), 0x1021);
  }

  /** Message bits may be added to the register all at once before it steps. */
  lemma {:induction false} FeedAhead(c: bv16, x: bv16, n: nat)
    ensures Steps(Sum(c, x), n) == Sum(Feed(c, x, n), Shifted(x, n))
    decreases n
  {
    hide Step, BitStep, Top, Sum, Up;
    if n > 0 {
      StepIsBitStep(c, x);
      FeedAhead(BitStep(c, Top(x)), Up(x), n - 1);
    }
  }

  /** The eight bits of a byte. */
  function ByteBits(b: bv8): (s: seq<Bit>)
    ensures |s| == 8
  {
    Leading((b as bv16) << 8, 8)
  }

  function MessageBits(m: seq<bv8>): seq<Bit> {
    if m == [] then [] else MessageBits(m[..|m| - 1]) + ByteBits(m[|m| - 1])
  }

  lemma {:induction false} BitCrcFeed(m: seq<Bit>, x: bv16, n: nat)
    ensures BitCrc(m + Leading(x, n)) == Feed(BitCrc(m), x, n)
    decreases n
  {
    hide BitStep, Top, Up;
    if n == 0 {
      assert m + [] == m;
    } else {
      var m1 := m + [Top(x)];
      assert m1[..|m|] == m;
      assert m + Leading(x, n) == m1 + Leading(Up(x), n - 1);
      BitCrcFeed(m1, Up(x), n - 1);
    }
  }

  lemma EightSteps(c: bv16)
    ensures Steps(c, 8) == Step8(c)
  {
    hide Step;
    var c4 := Step(Step(Step(Step(c))));
    assert Steps(c, 8) == Steps(c4, 4) by { FourSteps(c, 4); }
    FourSteps(c4, 0);
  }

  lemma FourSteps(c: bv16, n: nat)
    ensures Steps(c, n + 4) == Steps(Step(Step(Step(Step(c)))), n)
  {
    hide Step;
    assert Steps(c, n + 4) == Steps(Step(c), n + 3) == Steps(Step(Step(c)), n + 2) == Steps(Step(Step(Step(c))), n + 1);
  }

  lemma ByteGone(b: bv8)
    ensures Shifted((b as bv16) << 8, 8) == 0 && (b as bv16) < 256
  {
    hide Leading, Shifted, Up4;
    var x := (b as bv16) << 8;
    FourBits(x, 4);
    FourBits(Up4(x), 0);
    NoBits(Up4(Up4(x)));
    AllOut(b as bv16);
  }

  lemma SumZero(x: bv16)
    ensures Sum(x, 0) == x
  {
  }

  /** One lookup in the table takes in the eight bits of a byte. */
  lemma LookupIsByte(m: seq<bv8>, b: bv8)
    ensures Sum(BitCrc(MessageBits(m)) << 8, Table(Index(BitCrc(MessageBits(m)), b as bv16))) == BitCrc(MessageBits(m + [b]))
  {
    hide Step8, Step, Table, Sum, Index, BitCrc, Leading, Feed, Steps, Shifted;
    assert (m + [b])[..|m|] == m;
    var c, x := BitCrc(MessageBits(m)), (b as bv16) << 8;
    BitCrcFeed(MessageBits(m), x, 8);
    ByteGone(b);
    ByteUpdate(c, b as bv16);
    EightSteps(Sum(c, x));
    FeedAhead(c, x, 8);
    SumZero(Feed(c, x, 8));
  }

  /** crc16: the table-driven loop. */
  method ComputeCrc16(buf: seq<bv8>) returns (crc: bv16)
    ensures crc == BitCrc(MessageBits(buf))
    ensures forall r :: Divides(MessageBits(buf), r) <==> r == Bits(crc)
  {
    hide Step8, Step, Table, Sum, Index, BitCrc, MessageBits, Divides, Bits;
    crc := 0;
    NoBytes();
    assert buf[..0] == [];
    for counter := 0 to |buf|
      invariant crc == BitCrc(MessageBits(buf[..counter]))
    {
      LookupIsByte(buf[..counter], buf[counter]);
      assert buf[..counter] + [buf[counter]] == buf[..counter + 1];
      crc := Sum(crc << 8, Table(Index(crc, buf[counter] as bv16)));
    }
    assert buf[..|buf|] == buf;
    forall r
      ensures Divides(MessageBits(buf), r) <==> r == Bits(crc)
    {
      BitCrcIsRemainder(MessageBits(buf), r);
    }
  }

  lemma NoBytes()
    ensures BitCrc(MessageBits([])) == 0
  {
  }
}
