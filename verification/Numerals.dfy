/** Numbers as digits base 256, in both byte orders: what the fixed-width fields hold, said without naming them. */
module Numerals {
  import opened Base
  import opened Endian

  /** The value of some digits, lowest first. */
  function LowFirst(s: bytes): (v: nat) {
    if s == [] then 0 else s[0] + 0x100 * LowFirst(s[1..])
  }

  /** The n digits of a number, lowest first. */
  function Low(v: nat, n: nat): (s: bytes)
    ensures |s| == n
  {
    if n == 0 then [] else [v % 0x100] + Low(v / 0x100, n - 1)
  }

  /** The value of some digits, highest first. */
  function HighFirst(s: bytes): (v: nat) {
    if s == [] then 0 else 0x100 * HighFirst(s[..|s| - 1]) + s[|s| - 1]
  }

  /** The n digits of a number, highest first. */
  function High(v: nat, n: nat): (s: bytes)
    ensures |s| == n
  {
    if n == 0 then [] else High(v / 0x100, n - 1) + [v % 0x100]
  }

  /** The number that stands for a signed one in 32 bits. */
  function TwosComplement(v: i32): u32 {
    if v < 0 then v + 0x1_0000_0000 else v
  }

  lemma {:induction false} LowOf(s: bytes)
    ensures Low(LowFirst(s), |s|) == s
  {
    if s != [] {
      LowOf(s[1..]);
      Digits(LowFirst(s[1..]), s[0], 0x100);
    }
  }

  lemma {:induction false} HighOf(s: bytes)
    ensures High(HighFirst(s), |s|) == s
  {
    if s != [] {
      var n := |s| - 1;
      HighOf(s[..n]);
      Digits(HighFirst(s[..n]), s[n], 0x100);
    }
  }

  lemma LowTwo(s: bytes)
    requires |s| == 2
    ensures var lo: int, hi: int := s[0], s[1]; LowFirst(s) == lo + 0x100 * hi
  {
    assert s[1..] == [s[1]];
    assert LowFirst([s[1]]) == s[1];
  }

  lemma HighTwo(s: bytes)
    requires |s| == 2
    ensures var hi: int, lo: int := s[0], s[1]; HighFirst(s) == 0x100 * hi + lo
  {
    assert s[..1] == [s[0]];
    assert HighFirst([s[0]]) == s[0];
  }

  function Power(n: nat): nat {
    if n == 0 then 1 else 0x100 * Power(n - 1)
  }

  lemma LowHead(s: bytes)
    requires s != []
    ensures LowFirst(s) == s[0] as int + 0x100 * LowFirst(s[1..])
  {
  }

  lemma HighTail(s: bytes)
    requires s != []
    ensures HighFirst(s) == 0x100 * HighFirst(s[..|s| - 1]) + s[|s| - 1] as int
  {
  }

  lemma {:induction false} LowJoin(a: bytes, b: bytes)
    ensures LowFirst(a + b) == LowFirst(a) + Power(|a|) * LowFirst(b)
  {
    if a == [] {
      assert a + b == b;
    } else {
      hide LowFirst;
      LowJoin(a[1..], b);
      LowHead(a);
      LowHead(a + b);
      assert (a + b)[1..] == a[1..] + b;
      Scale(Power(|a| - 1), LowFirst(b));
    }
  }

  lemma {:induction false} HighJoin(a: bytes, b: bytes)
    ensures HighFirst(a + b) == Power(|b|) * HighFirst(a) + HighFirst(b)
  {
    if b == [] {
      assert a + b == a;
    } else {
      hide HighFirst;
      var n := |b| - 1;
      HighJoin(a, b[..n]);
      HighTail(b);
      HighTail(a + b);
      assert (a + b)[..|a| + n] == a + b[..n];
      Scale(Power(n), HighFirst(a));
    }
  }

  lemma Scale(p: nat, v: nat)
    ensures 0x100 * (p * v) == (0x100 * p) * v
  {
  }

  lemma Powers()
    ensures Power(2) == 0x1_0000 && Power(4) == 0x1_0000_0000
  {
    assert Power(1) == 0x100;
    assert Power(3) == 0x100_0000;
  }

  /** The readers of little-endian fields give the value of the digits. */
  lemma ReadsLow(s: bytes)
    ensures |s| == 2 ==> GetU16Le(s) == LowFirst(s)
    ensures |s| == 4 ==> GetU32Le(s) == LowFirst(s)
    ensures |s| == 8 ==> GetU64Le(s) == LowFirst(s)
  {
    hide LowFirst, Power;
    Powers();
    if |s| == 2 {
      LowTwo(s);
    } else if |s| == 4 {
      LowTwo(s[..2]);
      LowTwo(s[2..]);
      LowJoin(s[..2], s[2..]);
      assert s == s[..2] + s[2..];
    } else if |s| == 8 {
      ReadsLow(s[..4]);
      ReadsLow(s[4..]);
      LowJoin(s[..4], s[4..]);
      assert s == s[..4] + s[4..];
    }
  }

  /** The readers of big-endian fields give the value of the digits. */
  lemma ReadsHigh(s: bytes)
    ensures |s| == 2 ==> GetU16Be(s) == HighFirst(s)
    ensures |s| == 4 ==> GetU32Be(s) == HighFirst(s)
  {
    hide HighFirst, Power;
    Powers();
    if |s| == 2 {
      HighTwo(s);
    } else if |s| == 4 {
      HighTwo(s[..2]);
      HighTwo(s[2..]);
      HighJoin(s[..2], s[2..]);
      assert s == s[..2] + s[2..];
    }
  }

  /** The writers of little-endian fields give the digits. */
  lemma WritesLow(v: u64)
    ensures v < 0x1_0000 ==> PutU16Le(v) == Low(v, 2)
    ensures v < 0x1_0000_0000 ==> PutU32Le(v) == Low(v, 4)
    ensures PutU64Le(v) == Low(v, 8)
  {
    hide PutU16Le, PutU32Le, PutU64Le, GetU16Le, GetU32Le, GetU64Le, Low, LowFirst;
    if v < 0x1_0000 {
      U16Le(v);
      ReadsLow(PutU16Le(v));
      LowOf(PutU16Le(v));
    }
    if v < 0x1_0000_0000 {
      U32Le(v);
      ReadsLow(PutU32Le(v));
      LowOf(PutU32Le(v));
    }
    U64Le(v);
    ReadsLow(PutU64Le(v));
    LowOf(PutU64Le(v));
  }

  /** The writers of big-endian fields give the digits, a signed number in two's complement. */
  lemma WritesHigh(v: u32)
    ensures v < 0x1_0000 ==> PutU16Be(v) == High(v, 2)
    ensures PutU32Be(v) == High(v, 4)
  {
    hide PutU16Be, PutU32Be, GetU16Be, GetU32Be, High, HighFirst;
    if v < 0x1_0000 {
      U16Be(v);
      ReadsHigh(PutU16Be(v));
      HighOf(PutU16Be(v));
    }
    U32Be(v);
    ReadsHigh(PutU32Be(v));
    HighOf(PutU32Be(v));
  }

  lemma WritesSigned(v: i32)
    ensures PutI32Be(v) == High(TwosComplement(v), 4)
  {
    hide PutU32Be, High;
    WritesHigh(TwosComplement(v));
  }

  lemma ReadsSigned(s: bytes)
    requires |s| == 4
    ensures TwosComplement(GetI32Be(s)) == HighFirst(s)
    ensures GetI32Be(s) < 0 <==> HighFirst(s) >= 0x8000_0000
  {
    hide HighFirst, GetU32Be;
    ReadsHigh(s);
  }
}
