/** Integers in network byte order. */
module BigEndian {
  import opened Base

  function PutU16(v: u16): (s: seq<byte>)
    ensures |s| == 2
  {
    [v / 0x100, v % 0x100]
  }

  function PutU32(v: u32): (s: seq<byte>)
    ensures |s| == 4
  {
    PutU16(v / 0x1_0000) + PutU16(v % 0x1_0000)
  }

  function PutU64(v: u64): (s: seq<byte>)
    ensures |s| == 8
  {
    PutU32(v / 0x1_0000_0000) + PutU32(v % 0x1_0000_0000)
  }

  function GetU16(s: seq<byte>): u16
    requires |s| == 2
  {
    (s[0] as int) * 0x100 + s[1]
  }

  function GetU32(s: seq<byte>): u32
    requires |s| == 4
  {
    (GetU16(s[..2]) as int) * 0x1_0000 + GetU16(s[2..])
  }

  function GetU64(s: seq<byte>): u64
    requires |s| == 8
  {
    (GetU32(s[..4]) as int) * 0x1_0000_0000 + GetU32(s[4..])
  }

  lemma U16RoundTrip(v: u16)
    ensures GetU16(PutU16(v)) == v
  {
  }

  lemma U32RoundTrip(v: u32)
    ensures GetU32(PutU32(v)) == v
  {
    var s := PutU32(v);
    assert s[..2] == PutU16(v / 0x1_0000) && s[2..] == PutU16(v % 0x1_0000);
  }

  lemma U64RoundTrip(v: u64)
    ensures GetU64(PutU64(v)) == v
  {
    var s := PutU64(v);
    assert s[..4] == PutU32(v / 0x1_0000_0000) && s[4..] == PutU32(v % 0x1_0000_0000);
    U32RoundTrip(v / 0x1_0000_0000);
    U32RoundTrip(v % 0x1_0000_0000);
  }

  lemma U16Canonical(s: seq<byte>)
    requires |s| == 2
    ensures PutU16(GetU16(s)) == s
  {
  }

  lemma U32Canonical(s: seq<byte>)
    requires |s| == 4
    ensures PutU32(GetU32(s)) == s
  {
    U16Canonical(s[..2]);
    U16Canonical(s[2..]);
    assert s == s[..2] + s[2..];
  }

  lemma PutHalves(high: u32, low: u32)
    ensures PutU64(high as int * 0x1_0000_0000 + low) == PutU32(high) + PutU32(low)
  {
    var v: u64 := high as int * 0x1_0000_0000 + low;
    assert v / 0x1_0000_0000 == high && v % 0x1_0000_0000 == low;
  }

  lemma U64Canonical(s: seq<byte>)
    requires |s| == 8
    ensures PutU64(GetU64(s)) == s
  {
    var high, low := s[..4], s[4..];
    assert s == high + low;
    assert PutU64(GetU64(s)) == PutU32(GetU32(high)) + PutU32(GetU32(low)) by {
      PutHalves(GetU32(high), GetU32(low));
    }
    U32Canonical(high);
    U32Canonical(low);
  }
}
