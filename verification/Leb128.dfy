/** The LEB128 decoders of the CPU backend, on 64-bit vectors with an advancing
    cursor (section 7.6 of the DWARF Debugging Information Format, Version 5).
    The original shifts by at most 63 for encodings of up to ten bytes, which
    is the range these results are about; C++ leaves longer shifts undefined,
    and here they shift everything out. */
module Leb128 {

  // ---- Bits ----

  function Or(a: bv64, b: bv64): bv64 { a | b }
  function Twice(a: bv64): bv64 { a << 1 }
  function Neg(a: bv64): bv64 { 0 - a }

  const Ones: bv64 := 0xFFFF_FFFF_FFFF_FFFF

  function Shl(v: bv64, n: nat): bv64 {
    if n == 0 then v else Twice(Shl(v, n - 1))
  }

  lemma OrAssoc(a: bv64, b: bv64, c: bv64)
    ensures Or(Or(a, b), c) == Or(a, Or(b, c))
  {
  }

  lemma OrZero(a: bv64)
    ensures Or(a, 0) == a && Or(0, a) == a
  {
  }

  lemma TwiceOr(a: bv64, b: bv64)
    ensures Twice(Or(a, b)) == Or(Twice(a), Twice(b))
  {
  }

  lemma TwiceZero()
    ensures Twice(0) == 0
  {
  }

  lemma TwiceNeg(a: bv64)
    ensures Twice(Neg(a)) == Neg(Twice(a))
  {
  }

  lemma {:induction false} ShlOr(a: bv64, b: bv64, n: nat)
    ensures Shl(Or(a, b), n) == Or(Shl(a, n), Shl(b, n))
  {
    hide Or, Twice;
    if n > 0 {
      ShlOr(a, b, n - 1);
      TwiceOr(Shl(a, n - 1), Shl(b, n - 1));
    }
  }

  lemma {:induction false} ShlTwice(v: bv64, m: nat, n: nat)
    ensures Shl(Shl(v, m), n) == Shl(v, m + n)
  {
    hide Twice;
    if n > 0 {
      ShlTwice(v, m, n - 1);
    }
  }

  lemma {:induction false} ShlZero(n: nat)
    ensures Shl(0, n) == 0
  {
    hide Twice;
    if n > 0 {
      ShlZero(n - 1);
      TwiceZero();
    }
  }

  /** The sign mask of the original: minus one shifted up. */
  lemma {:induction false} NegativePower(n: nat)
    ensures Neg(Shl(1, n)) == Shl(Ones, n)
  {
    if n == 0 {
      assert Neg(1) == Ones;
    } else {
      hide Neg, Twice;
      NegativePower(n - 1);
      TwiceNeg(Shl(1, n - 1));
    }
  }

  function By7(v: bv64): bv64 { v << 7 }

  lemma SevenTimes(v: bv64)
    ensures Twice(Twice(Twice(Twice(Twice(Twice(Twice(v))))))) == By7(v)
  {
  }

  lemma ShlOne(v: bv64)
    ensures Shl(v, 0) == v && Shl(v, 1) == Twice(v)
  {
    hide Twice;
    assert Shl(v, 0) == v;
  }

  lemma Shl7(v: bv64)
    ensures Shl(v, 7) == By7(v)
  {
    SevenTimes(v);
    hide Twice, By7;
    ShlOne(v);
    var a := Twice(Twice(v));
    assert Shl(v, 2) == a;
    var b := Twice(a);
    assert Shl(v, 3) == b;
    var c := Twice(b);
    assert Shl(v, 4) == c;
    var d := Twice(c);
    assert Shl(v, 5) == d;
    assert Shl(v, 6) == Twice(d);
  }

  function By7s(v: bv64, k: nat): bv64 {
    if k == 0 then v else By7(By7s(v, k - 1))
  }

  lemma {:induction false} Shl7s(v: bv64, k: nat)
    ensures Shl(v, 7 * k) == By7s(v, k)
  {
    hide Twice, By7;
    if k == 0 {
      ShlOne(v);
    } else {
      Shl7s(v, k - 1);
      Shl7(By7s(v, k - 1));
      ShlTwice(v, 7 * (k - 1), 7);
    }
  }

  lemma TopBitLeaves(v: bv64)
    ensures Twice(By7(By7(By7(By7(By7(By7(By7(By7(By7(v)))))))))) == 0
  {
  }

  /** From 64 bits on nothing is left, which is why the original need not apply
      its sign mask there. */
  lemma ShiftedOut(v: bv64, n: nat)
    requires n >= 64
    ensures Shl(v, n) == 0
  {
    TopBitLeaves(v);
    hide Shl, Twice, By7;
    Shl7s(v, 9);
    var a := By7(By7(By7(v)));
    assert By7s(v, 3) == a by {
      assert By7s(v, 0) == v;
      assert By7s(v, 1) == By7(v);
    }
    var b := By7(By7(By7(a)));
    assert By7s(v, 6) == b by {
      assert By7s(v, 4) == By7(a);
      assert By7s(v, 5) == By7(By7(a));
    }
    assert By7s(v, 7) == By7(b);
    assert By7s(v, 8) == By7(By7(b));
    ShlOne(Shl(v, 63));
    ShlTwice(v, 63, 1);
    ShlTwice(v, 64, n - 64);
    ShlZero(n - 64);
  }

  // ---- What an encoding denotes ----

  function Group(b: bv8): bv64 { (b & 0x7f) as bv64 }

  predicate Continues(b: bv8) { b & 0x80 != 0 }

  predicate SignBit(b: bv8) { b & 0x40 != 0 }

  function SignMask(b: bv8, n: nat): bv64 { if SignBit(b) then Shl(Ones, n) else 0 }

  /** Seven bits a byte, least significant group first. */
  function Unsigned(bs: seq<bv8>): bv64 {
    if bs == [] then 0 else Or(Group(bs[0]), Shl(Unsigned(bs[1..]), 7))
  }

  /** The same, the last group's top bit being the sign of all the bits above. */
  function Signed(bs: seq<bv8>): bv64 {
    if bs == [] then 0
    else if |bs| == 1 then Or(Group(bs[0]), SignMask(bs[0], 7))
    else Or(Group(bs[0]), Shl(Signed(bs[1..]), 7))
  }

  /** How many bytes a decoder takes: up to the first without the continuation
      bit, or all there are. */
  function Taken(s: seq<bv8>): (n: nat)
    ensures n <= |s|
    ensures forall i | 0 <= i < n - 1 :: Continues(s[i])
    ensures n < |s| ==> n > 0 && !Continues(s[n - 1])
  {
    if s == [] then 0 else if Continues(s[0]) then 1 + Taken(s[1..]) else 1
  }

  lemma {:induction false} TakenIs(s: seq<bv8>, n: nat)
    requires n <= |s| && forall i | 0 <= i < n - 1 :: Continues(s[i])
    requires if n == 0 || Continues(s[n - 1]) then n == |s| else true
    ensures Taken(s) == n
  {
    hide Continues;
    if n > 1 {
      TakenIs(s[1..], n - 1);
    } else if n == 1 && Continues(s[0]) {
      assert s[1..] == [];
    }
  }

  /** One more byte adds its group above those already there. */
  lemma {:induction false} UnsignedGrows(bs: seq<bv8>, b: bv8)
    ensures Unsigned(bs + [b]) == Or(Unsigned(bs), Shl(Group(b), 7 * |bs|))
  {
    hide Or, Shl, Group;
    if bs == [] {
      assert bs + [b] == [b] && [b][1..] == [];
      ShlZero(7);
      OrZero(Group(b));
      ShlNothing(Group(b));
    } else {
      var rest := bs[1..];
      UnsignedGrows(rest, b);
      assert (bs + [b])[1..] == rest + [b];
      ShlOr(Unsigned(rest), Shl(Group(b), 7 * |rest|), 7);
      ShlTwice(Group(b), 7 * |rest|, 7);
      OrAssoc(Group(bs[0]), Shl(Unsigned(rest), 7), Shl(Group(b), 7 * |bs|));
    }
  }

  lemma ShlNothing(v: bv64)
    ensures Shl(v, 0) == v
  {
  }

  /** Sign extension at the end is sign extension of the last group. */
  lemma {:induction false} SignedIsExtended(bs: seq<bv8>)
    requires bs != []
    ensures Signed(bs) == Or(Unsigned(bs), SignMask(bs[|bs| - 1], 7 * |bs|))
  {
    hide Or, Shl, Group, SignBit;
    if |bs| == 1 {
      assert bs[1..] == [];
      ShlZero(7);
      OrZero(Group(bs[0]));
    } else {
      var rest := bs[1..];
      SignedIsExtended(rest);
      var last := bs[|bs| - 1];
      assert rest[|rest| - 1] == last;
      ShlOr(Unsigned(rest), SignMask(last, 7 * |rest|), 7);
      ShlTwice(Ones, 7 * |rest|, 7);
      ShlZero(7);
      OrAssoc(Group(bs[0]), Shl(Unsigned(rest), 7), SignMask(last, 7 * |bs|));
    }
  }

  // ---- The decoders ----

  /** The cursor stops after the encoding, or at the end of a truncated one, and
      the value is what the bytes passed denote. */
  method DecodeUleb128(expr: seq<bv8>, start: nat) returns (result: bv64, p: nat)
    requires start <= |expr|
    ensures p == start + Taken(expr[start..])
    ensures result == Unsigned(expr[start..p])
  {
    hide Or, Shl, Group, Continues, Taken;
    result, p := 0, start;
    var shift := 0;
    var more := true;
    while more && p < |expr|
      invariant start <= p <= |expr| && (more ==> shift == 7 * (p - start))
      invariant result == Unsigned(expr[start..p])
      invariant forall i | start <= i < p - 1 :: Continues(expr[i])
      invariant p == start ==> more
      invariant p > start ==> (more <==> Continues(expr[p - 1]))
      decreases |expr| - p
    {
      var byte := expr[p];
      UnsignedGrows(expr[start..p], byte);
      assert expr[start..p] + [byte] == expr[start..p + 1];
      p := p + 1;
      result := Or(result, Shl(Group(byte), shift));
      more := Continues(byte);
      if more {
        shift := shift + 7;
      }
    }
    TakenIs(expr[start..], p - start);
  }

  method DecodeSleb128(expr: seq<bv8>, start: nat) returns (result: bv64, p: nat)
    requires start <= |expr|
    ensures p == start + Taken(expr[start..])
    ensures result == Signed(expr[start..p])
  {
    hide Or, Shl, Group, Continues, Taken, Neg;
    result, p := 0, start;
    var shift := 0;
    var byte: bv8 := 0;
    var more := true;
    while more && p < |expr|
      invariant start <= p <= |expr| && shift == 7 * (p - start)
      invariant result == Unsigned(expr[start..p])
      invariant forall i | start <= i < p - 1 :: Continues(expr[i])
      invariant p == start ==> byte == 0 && more
      invariant p > start ==> byte == expr[p - 1] && (more <==> Continues(byte))
      decreases |expr| - p
    {
      byte := expr[p];
      UnsignedGrows(expr[start..p], byte);
      assert expr[start..p] + [byte] == expr[start..p + 1];
      p := p + 1;
      result := Or(result, Shl(Group(byte), shift));
      shift := shift + 7;
      more := Continues(byte);
    }
    TakenIs(expr[start..], p - start);
    var bits := result;
    if shift < 64 && SignBit(byte) {
      result := Or(result, Neg(Shl(1, shift)));
    }
    ExtendsSign(expr[start..p], byte, bits, result);
  }

  lemma ExtendsSign(bs: seq<bv8>, byte: bv8, bits: bv64, result: bv64)
    requires bits == Unsigned(bs) && if bs == [] then byte == 0 else byte == bs[|bs| - 1]
    requires result == if 7 * |bs| < 64 && SignBit(byte) then Or(bits, Neg(Shl(1, 7 * |bs|))) else bits
    ensures result == Signed(bs)
  {
    if bs == [] {
      assert !SignBit(0);
    } else {
      hide Or, Shl, Group, Neg, SignBit, Unsigned;
      SignedIsExtended(bs);
      NegativePower(7 * |bs|);
      OrZero(bits);
      if 7 * |bs| >= 64 {
        ShiftedOut(Ones, 7 * |bs|);
      }
    }
  }

  // ---- Encodings ----

  function Low7(v: bv64): bv64 { v & 0x7f }
  function Byte(v: bv64): bv8 { (v & 0x7f) as bv8 }
  function Marked(b: bv8): bv8 { b | 0x80 }

  lemma ByteOf(v: bv64)
    ensures Group(Byte(v)) == Low7(v) && !Continues(Byte(v))
    ensures SignBit(Byte(v)) <==> v & 0x40 != 0
  {
  }

  lemma MarkedOf(b: bv8)
    ensures Group(Marked(b)) == Group(b) && Continues(Marked(b)) && (SignBit(Marked(b)) <==> SignBit(b))
  {
  }

  lemma LowAndHigh(v: bv64)
    ensures Or(Low7(v), By7(v >> 7)) == v
    ensures v >= 0x80 ==> v >> 7 < v
    ensures v < 0x80 ==> Low7(v) == v
  {
  }

  /** The canonical unsigned encoding. */
  function EncodeUnsigned(v: bv64): (bs: seq<bv8>)
    ensures bs != []
    decreases v
  {
    LowAndHigh(v);
    if v < 0x80 then [Byte(v)] else [Marked(Byte(v))] + EncodeUnsigned(v >> 7)
  }

  predicate Negative(v: bv64) { v & 0x8000_0000_0000_0000 != 0 }

  function Asr7(v: bv64): bv64 { if Negative(v) then (v >> 7) | 0xFE00_0000_0000_0000 else v >> 7 }

  function Magnitude(v: bv64): bv64 { if Negative(v) then !v else v }

  /** What is left after the low seven bits is only the sign, and the seventh bit
      already shows it. */
  predicate OnlySign(v: bv64) {
    (Asr7(v) == 0 && v & 0x40 == 0) || (Asr7(v) == Ones && v & 0x40 != 0)
  }

  lemma SplitBits(v: bv64, a: bv64)
    requires a == v >> 7 || a == (v >> 7) | 0xFE00_0000_0000_0000
    ensures (v & 0x7f) | (a << 7) == v
  {
  }

  lemma SignedSplit(v: bv64)
    ensures Or(Low7(v), By7(Asr7(v))) == v
  {
    var a := Asr7(v);
    SplitBits(v, a);
    hide Asr7;
  }

  lemma NegativeBits(v: bv64)
    ensures v & 0x8000_0000_0000_0000 != 0 ==> ((v >> 7) | 0xFE00_0000_0000_0000) & 0x8000_0000_0000_0000 != 0
    ensures v & 0x8000_0000_0000_0000 != 0 ==> !((v >> 7) | 0xFE00_0000_0000_0000) == (!v) >> 7
    ensures (v >> 7) & 0x8000_0000_0000_0000 == 0
  {
  }

  lemma AsrKeepsSign(v: bv64)
    ensures Negative(Asr7(v)) <==> Negative(v)
    ensures if Negative(v) then !Asr7(v) == Drop7(!v) else Asr7(v) == Drop7(v)
  {
    NegativeBits(v);
  }

  lemma MagnitudeShifts(v: bv64)
    ensures Magnitude(Asr7(v)) == Drop7(Magnitude(v))
  {
    hide Negative, Asr7, Drop7;
    AsrKeepsSign(v);
  }

  lemma SmallBits(v: bv64)
    ensures v < 0x40 ==> v >> 7 == 0 && v & 0x40 == 0
    ensures !v < 0x40 ==> (v >> 7) | 0xFE00_0000_0000_0000 == 0xFFFF_FFFF_FFFF_FFFF && v & 0x40 != 0
  {
  }

  lemma SmallIsOnlySign(v: bv64)
    requires Magnitude(v) < 0x40
    ensures OnlySign(v)
  {
    SmallBits(v);
  }

  lemma SignedLast(v: bv64)
    requires OnlySign(v)
    ensures v == if v & 0x40 != 0 then Or(Low7(v), By7(Ones)) else Low7(v)
  {
    SignedSplit(v);
    hide Or, Low7, By7, Asr7;
    if v & 0x40 == 0 {
      ByNothing(v);
    }
  }

  lemma ByNothing(v: bv64)
    ensures By7(0) == 0 && Or(Low7(v), 0) == Low7(v)
  {
  }

  /** The signed encoding of a two's complement value in at most k + 1 groups,
      if that is room enough; ten groups always are. */
  function EncodeSignedIn(v: bv64, k: nat): (bs: seq<bv8>)
    ensures 0 < |bs| <= k + 1
    decreases k
  {
    if k == 0 || OnlySign(v) then [Byte(v)] else [Marked(Byte(v))] + EncodeSignedIn(Asr7(v), k - 1)
  }

  function EncodeSigned(v: bv64): seq<bv8> { EncodeSignedIn(v, 9) }

  function Drop7(m: bv64): bv64 { m >> 7 }

  function Drop7s(m: bv64, k: nat): bv64 {
    if k == 0 then m else Drop7s(Drop7(m), k - 1)
  }

  /** Dropping k groups of seven bits leaves less than the limit. */
  predicate Room(m: bv64, k: nat, limit: bv64) { Drop7s(m, k) < limit }

  lemma NineGroups(m: bv64)
    ensures m >> 7 >> 7 >> 7 >> 7 >> 7 >> 7 >> 7 >> 7 >> 7 < 0x80
    ensures m & 0x8000_0000_0000_0000 == 0 ==> m >> 7 >> 7 >> 7 >> 7 >> 7 >> 7 >> 7 >> 7 >> 7 < 0x40
    ensures m & 0x8000_0000_0000_0000 != 0 ==> !m >> 7 >> 7 >> 7 >> 7 >> 7 >> 7 >> 7 >> 7 >> 7 < 0x40
  {
  }

  lemma ThreeDrops(m: bv64, k: nat)
    requires k >= 3
    ensures Drop7s(m, k) == Drop7s(Drop7(Drop7(Drop7(m))), k - 3)
  {
    hide Drop7;
    assert Drop7s(Drop7(m), k - 1) == Drop7s(Drop7(Drop7(m)), k - 2);
  }

  lemma NineDrops(m: bv64)
    ensures Drop7s(m, 9) == m >> 7 >> 7 >> 7 >> 7 >> 7 >> 7 >> 7 >> 7 >> 7
  {
    hide Drop7s;
    var a := Drop7(Drop7(Drop7(m)));
    var b := Drop7(Drop7(Drop7(a)));
    ThreeDrops(m, 9);
    ThreeDrops(a, 6);
    ThreeDrops(b, 3);
    NoDrops(Drop7(Drop7(Drop7(b))));
  }

  lemma NoDrops(m: bv64)
    ensures Drop7s(m, 0) == m
  {
  }

  lemma AlwaysRoom(v: bv64)
    ensures Room(v, 9, 0x80) && Room(Magnitude(v), 9, 0x40)
  {
    hide Drop7s;
    NineGroups(v);
    NineDrops(v);
    NineDrops(Magnitude(v));
  }

  predicate WellFormed(bs: seq<bv8>) {
    bs != [] && !Continues(bs[|bs| - 1]) && forall i | 0 <= i < |bs| - 1 :: Continues(bs[i])
  }

  lemma LastByte(b: bv8)
    requires !Continues(b)
    ensures WellFormed([b]) && Unsigned([b]) == Group(b) && Signed([b]) == Or(Group(b), SignMask(b, 7))
  {
    hide Or, Group, Continues, Shl, SignMask;
    assert [b][1..] == [];
    ShlZero(7);
    OrZero(Group(b));
  }

  lemma FirstByte(b: bv8, rest: seq<bv8>)
    requires Continues(b) && WellFormed(rest)
    ensures WellFormed([b] + rest)
    ensures Unsigned([b] + rest) == Or(Group(b), Shl(Unsigned(rest), 7))
    ensures Signed([b] + rest) == Or(Group(b), Shl(Signed(rest), 7))
  {
    hide Or, Group, Continues, Shl, SignMask;
    assert ([b] + rest)[1..] == rest;
  }

  lemma {:induction false} EncodesUnsigned(v: bv64)
    ensures var bs := EncodeUnsigned(v); WellFormed(bs) && Unsigned(bs) == v
    decreases v
  {
    hide Or, Low7, By7, Byte, Marked, Group, Continues, Shl, SignBit;
    LowAndHigh(v);
    ByteOf(v);
    MarkedOf(Byte(v));
    if v < 0x80 {
      LastByte(Byte(v));
    } else {
      EncodesUnsigned(v >> 7);
      Shl7(v >> 7);
      FirstByte(Marked(Byte(v)), EncodeUnsigned(v >> 7));
    }
  }

  lemma {:induction false} EncodesSignedIn(v: bv64, k: nat)
    requires Room(Magnitude(v), k, 0x40)
    ensures var bs := EncodeSignedIn(v, k); WellFormed(bs) && Signed(bs) == v
    decreases k
  {
    hide Or, Low7, By7, Byte, Marked, Group, Continues, Shl, SignBit, OnlySign, Asr7, Magnitude, Drop7;
    ByteOf(v);
    MarkedOf(Byte(v));
    SignedSplit(v);
    if k == 0 {
      SmallIsOnlySign(v);
    }
    if k == 0 || OnlySign(v) {
      LastByte(Byte(v));
      SignedLast(v);
      Shl7(Ones);
      ByNothing(v);
    } else {
      MagnitudeShifts(v);
      EncodesSignedIn(Asr7(v), k - 1);
      Shl7(Asr7(v));
      FirstByte(Marked(Byte(v)), EncodeSignedIn(Asr7(v), k - 1));
    }
  }

  lemma {:induction false} UnsignedLength(v: bv64, k: nat)
    requires Room(v, k, 0x80)
    ensures |EncodeUnsigned(v)| <= k + 1
  {
    hide Byte, Marked;
    if v >= 0x80 {
      UnsignedLength(v >> 7, k - 1);
    }
  }

  // ---- Padding ----

  /** Padding an encoding by one group: 0x80 bits on, and a group that repeats
      the sign. */
  function Pad(bs: seq<bv8>, fill: bv8): seq<bv8>
    requires bs != []
  {
    bs[..|bs| - 1] + [Marked(bs[|bs| - 1]), fill]
  }

  /** A zero group on top changes no unsigned value. */
  lemma {:induction false} PaddedUnsigned(bs: seq<bv8>)
    requires WellFormed(bs)
    ensures WellFormed(Pad(bs, 0)) && Unsigned(Pad(bs, 0)) == Unsigned(bs)
  {
    hide Or, Marked, Group, Continues, Shl;
    var last := bs[|bs| - 1];
    MarkedOf(last);
    ZeroByte();
    if |bs| == 1 {
      LastByte(0);
      FirstByte(Marked(last), [0]);
      assert Pad(bs, 0) == [Marked(last)] + [0];
      assert bs[1..] == [];
    } else {
      PaddedUnsigned(bs[1..]);
      assert Pad(bs, 0) == [bs[0]] + Pad(bs[1..], 0);
      FirstByte(bs[0], Pad(bs[1..], 0));
    }
  }

  lemma ZeroByte()
    ensures Group(0) == 0 && !Continues(0) && !SignBit(0)
  {
  }

  lemma FullByte()
    ensures Or(Group(0x7f), Shl(Ones, 7)) == Ones && !Continues(0x7f) && SignBit(0x7f)
  {
    Shl7(Ones);
    hide Shl;
    assert Group(0x7f) == 0x7f;
  }

  /** A group that repeats the sign changes no signed value. */
  lemma {:induction false} PaddedSigned(bs: seq<bv8>)
    requires WellFormed(bs)
    ensures var fill: bv8 := if SignBit(bs[|bs| - 1]) then 0x7f else 0;
      WellFormed(Pad(bs, fill)) && Signed(Pad(bs, fill)) == Signed(bs)
  {
    hide Or, Marked, Group, Continues, Shl, SignBit;
    var last := bs[|bs| - 1];
    var fill: bv8 := if SignBit(last) then 0x7f else 0;
    MarkedOf(last);
    ZeroByte();
    FullByte();
    if |bs| == 1 {
      LastByte(fill);
      FirstByte(Marked(last), [fill]);
      assert Pad(bs, fill) == [Marked(last)] + [fill];
      OrZero(0);
      ShlZero(7);
    } else {
      PaddedSigned(bs[1..]);
      assert Pad(bs, fill) == [bs[0]] + Pad(bs[1..], fill);
      FirstByte(bs[0], Pad(bs[1..], fill));
    }
  }

  /** Padded by n groups. */
  function PadN(bs: seq<bv8>, n: nat, fill: bv8): seq<bv8>
    requires bs != []
    decreases n
  {
    if n == 0 then bs else PadN(Pad(bs, fill), n - 1, fill)
  }

  lemma {:induction false} PadsUnsigned(bs: seq<bv8>, n: nat)
    requires WellFormed(bs)
    ensures var r := PadN(bs, n, 0); WellFormed(r) && Unsigned(r) == Unsigned(bs) && |r| == |bs| + n
    decreases n
  {
    hide Continues, Unsigned, Marked;
    if n > 0 {
      assert |Pad(bs, 0)| == |bs| + 1;
      PaddedUnsigned(bs);
      PadsUnsigned(Pad(bs, 0), n - 1);
    }
  }

  lemma {:induction false} PadsSigned(bs: seq<bv8>, n: nat, fill: bv8)
    requires WellFormed(bs) && fill == if SignBit(bs[|bs| - 1]) then 0x7f else 0
    ensures var r := PadN(bs, n, fill); WellFormed(r) && Signed(r) == Signed(bs) && |r| == |bs| + n
    decreases n
  {
    hide Continues, Signed, Marked, SignBit;
    if n > 0 {
      var r := Pad(bs, fill);
      assert |r| == |bs| + 1 && r[|r| - 1] == fill;
      ZeroByte();
      FullByte();
      PaddedSigned(bs);
      PadsSigned(r, n - 1, fill);
    }
  }

  // ---- Round trips ----

  /** Whatever follows an encoding, a decoder takes exactly the encoding. */
  lemma DecoderStops(bs: seq<bv8>, suffix: seq<bv8>)
    requires WellFormed(bs)
    ensures Taken(bs + suffix) == |bs| && (bs + suffix)[..|bs|] == bs
  {
    hide Continues;
    TakenIs(bs + suffix, |bs|);
  }

  /** Every 64-bit unsigned value is encoded in at most ten bytes, and from that
      encoding, padded up to any length and whatever follows it, the decoder
      returns the value and leaves the cursor at what follows. */
  lemma UnsignedRoundTrip(v: bv64, n: nat, suffix: seq<bv8>)
    ensures var bs := PadN(EncodeUnsigned(v), n, 0);
      && |EncodeUnsigned(v)| <= 10 && |bs| == |EncodeUnsigned(v)| + n
      && Taken(bs + suffix) == |bs| && Unsigned((bs + suffix)[..|bs|]) == v
  {
    hide Unsigned, WellFormed, EncodeUnsigned, PadN;
    AlwaysRoom(v);
    UnsignedLength(v, 9);
    EncodesUnsigned(v);
    PadsUnsigned(EncodeUnsigned(v), n);
    DecoderStops(PadN(EncodeUnsigned(v), n, 0), suffix);
  }

  lemma SignedRoundTrip(v: bv64, n: nat, suffix: seq<bv8>)
    ensures var canonical := EncodeSigned(v);
      var bs := PadN(canonical, n, if SignBit(canonical[|canonical| - 1]) then 0x7f else 0);
      && |canonical| <= 10 && |bs| == |canonical| + n
      && Taken(bs + suffix) == |bs| && Signed((bs + suffix)[..|bs|]) == v
  {
    hide Signed, WellFormed, PadN, SignBit, Magnitude;
    var canonical := EncodeSigned(v);
    var fill: bv8 := if SignBit(canonical[|canonical| - 1]) then 0x7f else 0;
    AlwaysRoom(v);
    EncodesSignedIn(v, 9);
    PadsSigned(canonical, n, fill);
    DecoderStops(PadN(canonical, n, fill), suffix);
  }
}
