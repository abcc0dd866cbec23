/**
 The fixed-width integer fields of the two byte orders in use: little-endian
 for the session's own frames, big-endian for the USB/IP messages they carry.
 */
module Endian {
  import opened Base

  function PutU16Le(v: u16): (s: bytes)
    ensures |s| == 2
  {
    [v % 0x100, v / 0x100]
  }

  function GetU16Le(s: bytes): u16
    requires |s| == 2
  {
    var lo: int, hi: int := s[0], s[1];
    lo + 0x100 * hi
  }

  function PutU32Le(v: u32): (s: bytes)
    ensures |s| == 4
  {
    PutU16Le(v % 0x1_0000) + PutU16Le(v / 0x1_0000)
  }

  function GetU32Le(s: bytes): u32
    requires |s| == 4
  {
    GetU16Le(s[..2]) + 0x1_0000 * GetU16Le(s[2..])
  }

  function PutU64Le(v: u64): (s: bytes)
    ensures |s| == 8
  {
    PutU32Le(v % 0x1_0000_0000) + PutU32Le(v / 0x1_0000_0000)
  }

  function GetU64Le(s: bytes): u64
    requires |s| == 8
  {
    GetU32Le(s[..4]) + 0x1_0000_0000 * GetU32Le(s[4..])
  }

  function PutU16Be(v: u16): (s: bytes)
    ensures |s| == 2
  {
    [v / 0x100, v % 0x100]
  }

  function GetU16Be(s: bytes): u16
    requires |s| == 2
  {
    var hi: int, lo: int := s[0], s[1];
    0x100 * hi + lo
  }

  function PutU32Be(v: u32): (s: bytes)
    ensures |s| == 4
  {
    PutU16Be(v / 0x1_0000) + PutU16Be(v % 0x1_0000)
  }

  function GetU32Be(s: bytes): u32
    requires |s| == 4
  {
    0x1_0000 * GetU16Be(s[..2]) + GetU16Be(s[2..])
  }

  // A signed field holds the two's complement of its value.
  function PutI32Be(v: i32): (s: bytes)
    ensures |s| == 4
  {
    PutU32Be(if v < 0 then v + 0x1_0000_0000 else v)
  }

  function GetI32Be(s: bytes): i32
    requires |s| == 4
  {
    var u := GetU32Be(s);
    if u < 0x8000_0000 then u else u - 0x1_0000_0000
  }

  lemma Digits(hi: int, lo: int, base: int)
    requires base == 0x100 || base == 0x1_0000 || base == 0x1_0000_0000
    requires 0 <= lo < base
    ensures (base * hi + lo) / base == hi && (base * hi + lo) % base == lo
  {
  }

  lemma U16Le(v: u16)
    ensures GetU16Le(PutU16Le(v)) == v
  {
  }

  lemma U32Le(v: u32)
    ensures GetU32Le(PutU32Le(v)) == v
  {
    Seam(PutU16Le(v % 0x1_0000), PutU16Le(v / 0x1_0000));
  }

  lemma U64Le(v: u64)
    ensures GetU64Le(PutU64Le(v)) == v
  {
    Seam(PutU32Le(v % 0x1_0000_0000), PutU32Le(v / 0x1_0000_0000));
    U32Le(v % 0x1_0000_0000);
    U32Le(v / 0x1_0000_0000);
  }

  lemma U16Be(v: u16)
    ensures GetU16Be(PutU16Be(v)) == v
  {
  }

  lemma U32Be(v: u32)
    ensures GetU32Be(PutU32Be(v)) == v
  {
    Seam(PutU16Be(v / 0x1_0000), PutU16Be(v % 0x1_0000));
  }

  lemma I32Be(v: i32)
    ensures GetI32Be(PutI32Be(v)) == v
  {
    U32Be(if v < 0 then v + 0x1_0000_0000 else v);
  }

  lemma U16LeBytes(s: bytes)
    requires |s| == 2
    ensures PutU16Le(GetU16Le(s)) == s
  {
  }

  lemma U32LeBytes(s: bytes)
    requires |s| == 4
    ensures PutU32Le(GetU32Le(s)) == s
  {
    U16LeBytes(s[..2]);
    U16LeBytes(s[2..]);
    Digits(GetU16Le(s[2..]), GetU16Le(s[..2]), 0x1_0000);
    assert s == s[..2] + s[2..];
  }

  lemma U64LeBytes(s: bytes)
    requires |s| == 8
    ensures PutU64Le(GetU64Le(s)) == s
  {
    U32LeBytes(s[..4]);
    U32LeBytes(s[4..]);
    Digits(GetU32Le(s[4..]), GetU32Le(s[..4]), 0x1_0000_0000);
    assert s == s[..4] + s[4..];
  }

  lemma U16BeBytes(s: bytes)
    requires |s| == 2
    ensures PutU16Be(GetU16Be(s)) == s
  {
  }

  lemma U32BeBytes(s: bytes)
    requires |s| == 4
    ensures PutU32Be(GetU32Be(s)) == s
  {
    U16BeBytes(s[..2]);
    U16BeBytes(s[2..]);
    Digits(GetU16Be(s[..2]), GetU16Be(s[2..]), 0x1_0000);
    assert s == s[..2] + s[2..];
  }

  lemma I32BeBytes(s: bytes)
    requires |s| == 4
    ensures PutI32Be(GetI32Be(s)) == s
  {
    U32BeBytes(s);
  }
}
