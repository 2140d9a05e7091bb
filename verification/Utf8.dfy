/**
  UTF-8 as section 4 of RFC 3629 defines it, the three recognisers of the source and the
  truncating sanitiser of the log writer.

  `WellFormed` is the grammar of section 4. `EncodeAll` is the encoding table of section 3;
  `GrammarIsEncoding` ties the two, so that the recognisers below are judged against the set of
  encodings of Unicode scalar values and not against one another.
*/
module Utf8 {
  import opened Base

  predicate Tail(b: byte) {
    0x80 <= b <= 0xBF
  }

  /** The length of the UTF8-char that starts `s`, or 0 when none does. */
  function CharLength(s: seq<byte>): (n: nat)
    ensures n <= 4 && n <= |s|
  {
    if |s| == 0 then 0
    else if s[0] <= 0x7F then 1
    else if 0xC2 <= s[0] <= 0xDF then
      if |s| >= 2 && Tail(s[1]) then 2 else 0
    else if 0xE0 <= s[0] <= 0xEF then
      if |s| >= 3 && Tail(s[1]) && Tail(s[2])
         && (s[0] == 0xE0 ==> 0xA0 <= s[1]) && (s[0] == 0xED ==> s[1] <= 0x9F) then 3 else 0
    else if 0xF0 <= s[0] <= 0xF4 then
      if |s| >= 4 && Tail(s[1]) && Tail(s[2]) && Tail(s[3])
         && (s[0] == 0xF0 ==> 0x90 <= s[1]) && (s[0] == 0xF4 ==> s[1] <= 0x8F) then 4 else 0
    else 0
  }

  /** UTF8-octets = *( UTF8-char ) */
  predicate WellFormed(s: seq<byte>) {
    |s| == 0 || (CharLength(s) > 0 && WellFormed(s[CharLength(s)..]))
  }

  // ---------- The encoding table, and the grammar as its image ----------

  type Scalar = c: int | 0 <= c <= 0x10FFFF && !(0xD800 <= c <= 0xDFFF)

  function High(c: int): int { c / 0x40 }
  function Low(c: int): (b: byte) ensures Tail(b) { 0x80 + c % 0x40 }
  function Join(high: int, tail: int): int { high * 0x40 + (tail - 0x80) }

  lemma JoinSplits(c: int)
    ensures Join(High(c), Low(c)) == c
  {
  }

  function Encode(c: Scalar): (s: seq<byte>)
    ensures 1 <= |s| <= 4
  {
    if c < 0x80 then [c]
    else if c < 0x800 then [0xC0 + High(c), Low(c)]
    else if c < 0x1_0000 then [0xE0 + High(High(c)), Low(High(c)), Low(c)]
    else [0xF0 + High(High(High(c))), Low(High(High(c))), Low(High(c)), Low(c)]
  }

  function EncodeAll(cs: seq<Scalar>): seq<byte> {
    if |cs| == 0 then [] else Encode(cs[0]) + EncodeAll(cs[1..])
  }

  lemma EncodeAllCons(c: Scalar, cs: seq<Scalar>)
    ensures EncodeAll([c] + cs) == Encode(c) + EncodeAll(cs)
  {
    assert ([c] + cs)[1..] == cs;
  }

  // ---------- From bytes to scalar values ----------

  lemma Peel(c: int, high: int, tail: byte)
    requires c == Join(high, tail) && Tail(tail)
    ensures High(c) == high && Low(c) == tail
  {
  }

  lemma TwoBytes(a: byte, b: byte) returns (c: Scalar)
    requires 0xC2 <= a <= 0xDF && Tail(b)
    ensures 0x80 <= c < 0x800 && 0xC0 + High(c) == a && Low(c) == b
  {
    c := Join((a as int) - 0xC0, b);
    Peel(c, (a as int) - 0xC0, b);
  }

  lemma ThreeBytes(a: byte, b: byte, c: byte) returns (d: Scalar)
    requires 0xE0 <= a <= 0xEF && Tail(b) && Tail(c)
    requires (a == 0xE0 ==> 0xA0 <= b) && (a == 0xED ==> b <= 0x9F)
    ensures 0x800 <= d < 0x1_0000
    ensures 0xE0 + High(High(d)) == a && Low(High(d)) == b && Low(d) == c
  {
    var high := Join((a as int) - 0xE0, b);
    d := Join(high, c);
    Peel(high, (a as int) - 0xE0, b);
    Peel(d, high, c);
  }

  lemma FourBytes(a: byte, b: byte, c: byte, d: byte) returns (e: Scalar)
    requires 0xF0 <= a <= 0xF4 && Tail(b) && Tail(c) && Tail(d)
    requires (a == 0xF0 ==> 0x90 <= b) && (a == 0xF4 ==> b <= 0x8F)
    ensures 0x1_0000 <= e
    ensures 0xF0 + High(High(High(e))) == a && Low(High(High(e))) == b && Low(High(e)) == c && Low(e) == d
  {
    var top := Join((a as int) - 0xF0, b);
    var high := Join(top, c);
    e := Join(high, d);
    Peel(top, (a as int) - 0xF0, b);
    Peel(high, top, c);
    Peel(e, high, d);
  }

  /** Each character of the grammar encodes a scalar value. */
  lemma FirstScalar(s: seq<byte>) returns (c: Scalar)
    requires CharLength(s) > 0
    ensures Encode(c) == s[..CharLength(s)]
  {
    var n := CharLength(s);
    if n == 1 {
      c := s[0];
      assert s[..1] == [s[0]];
    } else if n == 2 {
      c := TwoBytes(s[0], s[1]);
      assert s[..2] == [s[0], s[1]];
    } else if n == 3 {
      c := ThreeBytes(s[0], s[1], s[2]);
      assert s[..3] == [s[0], s[1], s[2]];
    } else {
      c := FourBytes(s[0], s[1], s[2], s[3]);
      assert s[..4] == [s[0], s[1], s[2], s[3]];
    }
  }

  lemma {:induction false} SomeScalars(s: seq<byte>) returns (cs: seq<Scalar>)
    requires WellFormed(s)
    ensures EncodeAll(cs) == s
    decreases |s|
  {
    if |s| == 0 {
      cs := [];
    } else {
      var n := CharLength(s);
      var c := FirstScalar(s);
      var rest := SomeScalars(s[n..]);
      cs := [c] + rest;
      EncodeAllCons(c, rest);
      assert s == s[..n] + s[n..];
    }
  }

  // ---------- And back ----------

  lemma EncodeIsChar(c: Scalar)
    ensures CharLength(Encode(c)) == |Encode(c)|
  {
    JoinSplits(c);
    JoinSplits(High(c));
    JoinSplits(High(High(c)));
  }

  lemma EncodeStartsText(c: Scalar, rest: seq<byte>)
    ensures CharLength(Encode(c) + rest) == |Encode(c)|
    ensures (Encode(c) + rest)[..|Encode(c)|] == Encode(c)
    ensures (Encode(c) + rest)[|Encode(c)|..] == rest
  {
    EncodeIsChar(c);
    CharLengthExtends(Encode(c), rest);
  }

  lemma EncodeIsInjective(c: Scalar, d: Scalar)
    requires Encode(c) == Encode(d)
    ensures c == d
  {
    JoinSplits(c);
    JoinSplits(d);
    JoinSplits(High(c));
    JoinSplits(High(d));
    JoinSplits(High(High(c)));
    JoinSplits(High(High(d)));
    assert |Encode(c)| == |Encode(d)|;
    assert forall i | 0 <= i < |Encode(c)| :: Encode(c)[i] == Encode(d)[i];
  }

  lemma {:induction false} EncodeAllIsWellFormed(cs: seq<Scalar>)
    ensures WellFormed(EncodeAll(cs))
  {
    if |cs| > 0 {
      EncodeStartsText(cs[0], EncodeAll(cs[1..]));
      EncodeAllIsWellFormed(cs[1..]);
    }
  }

  lemma {:induction false} EncodeAllIsInjective(cs: seq<Scalar>, ds: seq<Scalar>)
    requires EncodeAll(cs) == EncodeAll(ds)
    ensures cs == ds
    decreases |cs|
  {
    if |cs| > 0 && |ds| > 0 {
      var c, d := cs[0], ds[0];
      EncodeStartsText(c, EncodeAll(cs[1..]));
      EncodeStartsText(d, EncodeAll(ds[1..]));
      EncodeIsInjective(c, d);
      EncodeAllIsInjective(cs[1..], ds[1..]);
      assert cs == [c] + cs[1..] && ds == [d] + ds[1..];
    }
  }

  /** The grammar accepts exactly the encodings of sequences of scalar values, each one once. */
  lemma GrammarIsEncoding(s: seq<byte>)
    ensures WellFormed(s) <==> exists cs :: EncodeAll(cs) == s
    ensures forall cs, ds :: EncodeAll(cs) == s && EncodeAll(ds) == s ==> cs == ds
  {
    if WellFormed(s) {
      var cs := SomeScalars(s);
    }
    forall cs, ds | EncodeAll(cs) == s && EncodeAll(ds) == s
      ensures WellFormed(s) && cs == ds
    {
      EncodeAllIsWellFormed(cs);
      EncodeAllIsInjective(cs, ds);
    }
  }

  // ---------- Concatenation ----------

  lemma CharLengthExtends(a: seq<byte>, b: seq<byte>)
    requires CharLength(a) > 0
    ensures CharLength(a + b) == CharLength(a)
    ensures (a + b)[CharLength(a)..] == a[CharLength(a)..] + b
  {
  }

  lemma CharAlone(s: seq<byte>)
    requires CharLength(s) > 0
    ensures WellFormed(s[..CharLength(s)])
  {
    var c := s[..CharLength(s)];
    assert CharLength(c) == |c|;
    assert c[|c|..] == [];
  }

  lemma {:induction false} WellFormedAppend(a: seq<byte>, b: seq<byte>)
    requires WellFormed(a)
    ensures WellFormed(a + b) <==> WellFormed(b)
  {
    if |a| == 0 {
      assert a + b == b;
    } else {
      CharLengthExtends(a, b);
      WellFormedAppend(a[CharLength(a)..], b);
    }
  }

  // ---------- The recogniser that computes code points ----------

  /** The code point collected after `k` continuation bytes. */
  ghost function Collected(first: int, s: seq<byte>, k: nat): int
    requires k < |s|
  {
    if k == 0 then first else Collected(first, s, k - 1) * 0x40 + s[k] % 0x40
  }

  ghost predicate Tails(s: seq<byte>, k: nat)
    requires k < |s|
  {
    k == 0 || (Tail(s[k]) && Tails(s, k - 1))
  }

  /** What the lead byte says: continuation count, payload bits and least code point. */
  ghost predicate Lead(first: byte, count: nat, bits: int, minimum: int) {
    || (count == 1 && 0xC0 <= first <= 0xDF && bits == first % 0x20 && minimum == 0x80)
    || (count == 2 && 0xE0 <= first <= 0xEF && bits == first % 0x10 && minimum == 0x800)
    || (count == 3 && 0xF0 <= first <= 0xF7 && bits == first % 0x08 && minimum == 0x1_0000)
  }

  function ReadLead(first: byte): (r: (nat, int, int))
    requires first > 0x7F
    ensures r.0 > 0 ==> Lead(first, r.0, r.1, r.2)
    ensures r.0 == 0 ==> first < 0xC0 || first > 0xF7
  {
    if first / 0x20 == 0x06 then (1, first % 0x20, 0x80)
    else if first / 0x10 == 0x0E then (2, first % 0x10, 0x800)
    else if first / 0x08 == 0x1E then (3, first % 0x08, 0x1_0000)
    else (0, 0, 0)
  }

  ghost predicate CodePointAccepts(s: seq<byte>, count: nat, bits: int, minimum: int) {
    && count < |s|
    && Tails(s, count)
    && minimum <= Collected(bits, s, count) <= 0x10FFFF
    && !(0xD800 <= Collected(bits, s, count) <= 0xDFFF)
  }

  lemma CodePointTestTwo(s: seq<byte>, bits: int)
    requires |s| > 0 && Lead(s[0], 1, bits, 0x80)
    ensures CharLength(s) == if CodePointAccepts(s, 1, bits, 0x80) then 2 else 0
  {
    if 1 < |s| {
      assert Tails(s, 0) && Collected(bits, s, 0) == bits;
      assert Tails(s, 1) <==> Tail(s[1]);
      assert Collected(bits, s, 1) == bits * 0x40 + s[1] % 0x40;
    }
  }

  lemma CodePointTestThree(s: seq<byte>, bits: int)
    requires |s| > 0 && Lead(s[0], 2, bits, 0x800)
    ensures CharLength(s) == if CodePointAccepts(s, 2, bits, 0x800) then 3 else 0
  {
    if 2 < |s| {
      assert Collected(bits, s, 1) == bits * 0x40 + s[1] % 0x40;
      assert Tails(s, 0);
      assert Tails(s, 1) <==> Tail(s[1]);
      assert Tails(s, 2) <==> Tail(s[2]) && Tails(s, 1);
    }
  }

  lemma CodePointTestFour(s: seq<byte>, bits: int)
    requires |s| > 0 && Lead(s[0], 3, bits, 0x1_0000)
    ensures CharLength(s) == if CodePointAccepts(s, 3, bits, 0x1_0000) then 4 else 0
  {
    if 3 < |s| {
      assert Collected(bits, s, 1) == bits * 0x40 + s[1] % 0x40;
      assert Collected(bits, s, 2) == Collected(bits, s, 1) * 0x40 + s[2] % 0x40;
      assert Tails(s, 0);
      assert Tails(s, 1) <==> Tail(s[1]);
      assert Tails(s, 2) <==> Tail(s[2]) && Tails(s, 1);
      assert Tails(s, 3) <==> Tail(s[3]) && Tails(s, 2);
    }
  }

  /** The test of one sequence by its code point is the grammar's test. */
  lemma CodePointTest(s: seq<byte>, count: nat, bits: int, minimum: int)
    requires |s| > 0 && Lead(s[0], count, bits, minimum)
    ensures CharLength(s) == if CodePointAccepts(s, count, bits, minimum) then count + 1 else 0
  {
    if count == 1 {
      CodePointTestTwo(s, bits);
    } else if count == 2 {
      CodePointTestThree(s, bits);
    } else {
      CodePointTestFour(s, bits);
    }
  }

  lemma {:induction false} TailsBelow(s: seq<byte>, k: nat, n: nat)
    requires k <= n < |s| && Tails(s, n)
    ensures Tails(s, k)
  {
    if k < n {
      TailsBelow(s, k, n - 1);
    }
  }

  /** Reading on after one character loses nothing. */
  lemma Advance(s: seq<byte>, i: nat)
    requires i < |s|
    ensures CharLength(s[i..]) > 0 ==>
              (WellFormed(s[i..]) <==> WellFormed(s[i + CharLength(s[i..])..]))
    ensures CharLength(s[i..]) == 0 ==> !WellFormed(s[i..])
  {
    var n := CharLength(s[i..]);
    assert s[i..][n..] == s[i + n..];
  }

  /** Collects the continuation bytes of one sequence and checks its code point. */
  method CheckSequence(value: seq<byte>, index: nat, count: nat, bits: int, minimum: int)
    returns (ok: bool)
    requires index < |value|
    ensures ok <==> CodePointAccepts(value[index..], count, bits, minimum)
  {
    if index + count >= |value| {
      return false;
    }
    ghost var here := value[index..];
    var codePoint := bits;
    var offset := 1;
    while offset <= count
      invariant 1 <= offset <= count + 1
      invariant codePoint == Collected(bits, here, offset - 1)
      invariant Tails(here, offset - 1)
    {
      var continuation := value[index + offset];
      assert continuation == here[offset];
      if continuation / 0x40 != 0x02 {
        if Tails(here, count) {
          TailsBelow(here, offset, count);
        }
        return false;
      }
      codePoint := codePoint * 0x40 + continuation % 0x40;
      offset := offset + 1;
    }
    return minimum <= codePoint <= 0x10FFFF && !(0xD800 <= codePoint <= 0xDFFF);
  }

  /** `is_valid_utf8` of the wire codec: masks, collected code point and minimum. */
  method IsValidByCodePoint(value: seq<byte>) returns (valid: bool)
    ensures valid <==> WellFormed(value)
  {
    var index := 0;
    assert value[0..] == value;
    while index < |value|
      invariant 0 <= index <= |value|
      invariant WellFormed(value) <==> WellFormed(value[index..])
    {
      var first := value[index];
      Advance(value, index);
      if first <= 0x7F {
        index := index + 1;
        continue;
      }
      var (count, bits, minimum) := ReadLead(first);
      if count == 0 {
        return false;
      }
      CodePointTest(value[index..], count, bits, minimum);
      var ok := CheckSequence(value, index, count, bits, minimum);
      if !ok {
        return false;
      }
      index := index + count + 1;
    }
    return true;
  }

  // ---------- The recogniser that compares byte ranges ----------

  /** `is_valid_utf8` of the IPC protocol. */
  method IsValidByRanges(input: seq<byte>) returns (valid: bool)
    ensures valid <==> WellFormed(input)
  {
    var index := 0;
    assert input[0..] == input;
    while index < |input|
      invariant 0 <= index <= |input|
      invariant WellFormed(input) <==> WellFormed(input[index..])
    {
      Advance(input, index);
      var first := input[index];
      if first <= 0x7F {
        index := index + 1;
      } else if 0xC2 <= first <= 0xDF {
        if index + 1 >= |input| || !Tail(input[index + 1]) {
          return false;
        }
        index := index + 2;
      } else if 0xE0 <= first <= 0xEF {
        if index + 2 >= |input| {
          return false;
        }
        var second := input[index + 1];
        var third := input[index + 2];
        var secondValid := if first == 0xE0 then 0xA0 <= second <= 0xBF
                           else if first == 0xED then 0x80 <= second <= 0x9F
                           else Tail(second);
        if !secondValid || !Tail(third) {
          return false;
        }
        index := index + 3;
      } else if 0xF0 <= first <= 0xF4 {
        if index + 3 >= |input| {
          return false;
        }
        var second := input[index + 1];
        var third := input[index + 2];
        var fourth := input[index + 3];
        var secondValid := if first == 0xF0 then 0x90 <= second <= 0xBF
                           else if first == 0xF4 then 0x80 <= second <= 0x8F
                           else Tail(second);
        if !secondValid || !Tail(third) || !Tail(fourth) {
          return false;
        }
        index := index + 4;
      } else {
        return false;
      }
    }
    return true;
  }

  // ---------- The recogniser of one sequence, and the sanitiser ----------

  /** `valid_utf8_sequence_length` of the log writer. */
  function SequenceLength(value: seq<byte>, offset: nat): (n: nat)
    requires offset < |value|
    ensures n == CharLength(value[offset..])
  {
    var first := value[offset];
    if first <= 0x7F then 1
    else if 0xC2 <= first <= 0xDF then
      if offset + 1 < |value| && value[offset + 1] / 0x40 == 2 then 2 else 0
    else if 0xE0 <= first <= 0xEF then
      if offset + 2 >= |value| || value[offset + 2] / 0x40 != 2 then 0
      else
        var second := value[offset + 1];
        if || (first == 0xE0 && 0xA0 <= second <= 0xBF)
           || (first == 0xED && 0x80 <= second <= 0x9F)
           || ((0xE1 <= first <= 0xEC || 0xEE <= first <= 0xEF) && second / 0x40 == 2)
        then 3 else 0
    else if 0xF0 <= first <= 0xF4 then
      if offset + 3 >= |value| || value[offset + 2] / 0x40 != 2 || value[offset + 3] / 0x40 != 2
      then 0
      else
        var second := value[offset + 1];
        if || (first == 0xF0 && 0x90 <= second <= 0xBF)
           || (first == 0xF4 && 0x80 <= second <= 0x8F)
           || (0xF1 <= first <= 0xF3 && second / 0x40 == 2)
        then 4 else 0
    else 0
  }

  /** U+FFFD, which stands for one byte that starts no character. */
  const REPLACEMENT: seq<byte> := [0xEF, 0xBF, 0xBD]

  /** What the sanitiser writes for the text `s` within `room` bytes. */
  function Sanitized(s: seq<byte>, room: nat): seq<byte> {
    if |s| == 0 || room == 0 then []
    else if CharLength(s) == 0 then
      if |REPLACEMENT| > room then [] else REPLACEMENT + Sanitized(s[1..], room - |REPLACEMENT|)
    else if CharLength(s) > room then []
    else s[..CharLength(s)] + Sanitized(s[CharLength(s)..], room - CharLength(s))
  }

  /** `written` is what the sanitiser has produced so far, `value[offset..]` what is left. */
  ghost predicate Underway(written: seq<byte>, value: seq<byte>, offset: nat, maxBytes: nat) {
    && offset <= |value| && |written| <= maxBytes
    && written + Sanitized(value[offset..], maxBytes - |written|) == Sanitized(value, maxBytes)
  }

  lemma Starts(value: seq<byte>, maxBytes: nat)
    ensures Underway([], value, 0, maxBytes)
  {
    assert value[0..] == value;
    assert [] + Sanitized(value, maxBytes) == Sanitized(value, maxBytes);
  }

  lemma Replaces(written: seq<byte>, value: seq<byte>, offset: nat, maxBytes: nat)
    requires Underway(written, value, offset, maxBytes) && offset < |value|
    requires CharLength(value[offset..]) == 0 && |REPLACEMENT| <= maxBytes - |written|
    ensures Underway(written + REPLACEMENT, value, offset + 1, maxBytes)
  {
    var rest, room := value[offset..], maxBytes - |written|;
    assert rest[1..] == value[offset + 1..];
    assert Sanitized(rest, room) == REPLACEMENT + Sanitized(rest[1..], room - |REPLACEMENT|);
    Associative(written, REPLACEMENT, Sanitized(rest[1..], room - |REPLACEMENT|));
  }

  lemma Copies(written: seq<byte>, value: seq<byte>, offset: nat, n: nat, maxBytes: nat)
    requires Underway(written, value, offset, maxBytes) && offset < |value|
    requires 0 < n == CharLength(value[offset..]) <= maxBytes - |written|
    ensures Underway(written + value[offset..offset + n], value, offset + n, maxBytes)
  {
    var rest, room := value[offset..], maxBytes - |written|;
    assert rest[n..] == value[offset + n..] && rest[..n] == value[offset..offset + n];
    assert Sanitized(rest, room) == rest[..n] + Sanitized(rest[n..], room - n);
    Associative(written, rest[..n], Sanitized(rest[n..], room - n));
  }

  /** There is no room for what comes next. */
  lemma Ends(written: seq<byte>, value: seq<byte>, offset: nat, maxBytes: nat)
    requires Underway(written, value, offset, maxBytes)
    requires var room := maxBytes - |written|;
             || offset == |value| || room == 0
             || (if CharLength(value[offset..]) == 0 then |REPLACEMENT| > room
                 else CharLength(value[offset..]) > room)
    ensures written == Sanitized(value, maxBytes)
  {
    assert Sanitized(value[offset..], maxBytes - |written|) == [];
    assert written + [] == written;
  }

  /** `bounded_valid_utf8`. */
  method BoundedValidUtf8(value: seq<byte>, maxBytes: nat) returns (result: seq<byte>)
    ensures result == Sanitized(value, maxBytes)
  {
    result := [];
    var offset := 0;
    Starts(value, maxBytes);
    while offset < |value| && |result| < maxBytes
      invariant 0 <= offset <= |value| && Underway(result, value, offset, maxBytes)
    {
      var length := SequenceLength(value, offset);
      if length == 0 {
        if |REPLACEMENT| > maxBytes - |result| {
          break;
        }
        Replaces(result, value, offset, maxBytes);
        result := result + REPLACEMENT;
        offset := offset + 1;
        continue;
      }
      if length > maxBytes - |result| {
        break;
      }
      Copies(result, value, offset, length, maxBytes);
      result := result + value[offset..offset + length];
      offset := offset + length;
    }
    Ends(result, value, offset, maxBytes);
  }

  lemma ReplacementIsWellFormed()
    ensures WellFormed(REPLACEMENT)
  {
    assert CharLength(REPLACEMENT) == 3 && REPLACEMENT[3..] == [];
  }

  lemma Prepended(first: seq<byte>, rest: seq<byte>, all: seq<byte>, room: nat)
    requires WellFormed(first) && WellFormed(rest) && all == first + rest
    requires |first| <= room && |rest| <= room - |first|
    ensures WellFormed(all) && |all| <= room
  {
    WellFormedAppend(first, rest);
  }

  lemma {:induction false} SanitizedIsWellFormed(s: seq<byte>, room: nat)
    ensures WellFormed(Sanitized(s, room)) && |Sanitized(s, room)| <= room
  {
    var n := CharLength(s);
    if |s| == 0 || room == 0 || (if n == 0 then |REPLACEMENT| else n) > room {
      assert Sanitized(s, room) == [];
    } else if n == 0 {
      SanitizedIsWellFormed(s[1..], room - |REPLACEMENT|);
      ReplacementIsWellFormed();
      Prepended(REPLACEMENT, Sanitized(s[1..], room - |REPLACEMENT|), Sanitized(s, room), room);
    } else {
      SanitizedIsWellFormed(s[n..], room - n);
      CharAlone(s);
      Prepended(s[..n], Sanitized(s[n..], room - n), Sanitized(s, room), room);
    }
  }

  /** `p` is made of whole characters of `s`, and no longer such prefix fits. */
  ghost predicate LongestFittingPrefix(p: seq<byte>, s: seq<byte>, room: nat) {
    && p <= s
    && WellFormed(p)
    && |p| <= room
    && forall q :: q <= s && WellFormed(q) && |q| <= room ==> |q| <= |p|
  }

  /** A non-empty well-formed prefix of `s` starts with the character that starts `s`. */
  lemma PrefixStartsWithChar(q: seq<byte>, s: seq<byte>)
    requires q <= s && WellFormed(q) && |q| > 0
    ensures CharLength(s) == CharLength(q) > 0
    ensures q[CharLength(s)..] <= s[CharLength(s)..]
  {
    var n := CharLength(q);
    CharLengthExtends(q, s[|q|..]);
    assert s == q + s[|q|..];
    assert q[n..] == s[n..][..|q| - n];
  }

  lemma LongestAfterChar(p: seq<byte>, s: seq<byte>, room: nat)
    requires CharLength(s) > 0 && CharLength(s) <= room
    requires LongestFittingPrefix(p, s[CharLength(s)..], room - CharLength(s))
    ensures LongestFittingPrefix(s[..CharLength(s)] + p, s, room)
  {
    var n := CharLength(s);
    var whole := s[..n] + p;
    assert whole <= s by {
      assert s == s[..n] + s[n..];
    }
    CharAlone(s);
    WellFormedAppend(s[..n], p);
    forall q | q <= s && WellFormed(q) && |q| <= room
      ensures |q| <= |whole|
    {
      if |q| > 0 {
        PrefixStartsWithChar(q, s);
        assert WellFormed(q[n..]) && |q[n..]| <= room - n;
      }
    }
  }

  /** On well-formed text nothing is replaced, and as many whole characters as fit are kept. */
  lemma {:induction false} SanitizedIsLongest(s: seq<byte>, room: nat)
    requires WellFormed(s)
    ensures LongestFittingPrefix(Sanitized(s, room), s, room)
  {
    if |s| > 0 && CharLength(s) <= room {
      SanitizedIsLongest(s[CharLength(s)..], room - CharLength(s));
      LongestAfterChar(Sanitized(s[CharLength(s)..], room - CharLength(s)), s, room);
    } else {
      forall q | q <= s && WellFormed(q) && |q| <= room
        ensures |q| <= 0
      {
        if |q| > 0 {
          PrefixStartsWithChar(q, s);
        }
      }
    }
  }

  /** Sanitising twice changes nothing: log text may pass through more than one bound. */
  lemma SanitizedIsIdempotent(s: seq<byte>, room: nat)
    ensures Sanitized(Sanitized(s, room), room) == Sanitized(s, room)
  {
    var p := Sanitized(s, room);
    SanitizedIsWellFormed(s, room);
    SanitizedIsLongest(p, room);
    assert p <= p;
    var q := Sanitized(p, room);
    assert q <= p && |q| == |p|;
  }
}
