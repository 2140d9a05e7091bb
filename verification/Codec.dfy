/** Fields of message payloads: what they look like on the wire, and the payload writer and reader. */
module Codec {
  import opened Base
  import opened BigEndian
  import Utf8

  const MAX_PAYLOAD: nat := 0x1_0000 - 24

  datatype Value = Byte(b: byte) | Short(s: u16) | Word(w: u32) | Long(l: u64) | Blob(bytes: seq<byte>)

  /** What a reader expects next. */
  datatype Shape = OneByte | TwoBytes | FourBytes | EightBytes | Text(limit: nat) | Fixed(size: nat)

  /** Text is UTF-8 without NUL. */
  predicate IsText(bytes: seq<byte>) {
    Utf8.WellFormed(bytes) && 0 !in bytes
  }

  predicate Fits(v: Value, shape: Shape) {
    match shape
    case OneByte => v.Byte?
    case TwoBytes => v.Short?
    case FourBytes => v.Word?
    case EightBytes => v.Long?
    case Text(limit) => v.Blob? && |v.bytes| <= limit && |v.bytes| <= 0xFFFF && IsText(v.bytes)
    case Fixed(size) => v.Blob? && |v.bytes| == size <= 0xFFFF
  }

  predicate Writable(v: Value) {
    v.Blob? ==> |v.bytes| <= 0xFFFF
  }

  function Image(v: Value): seq<byte>
    requires Writable(v)
  {
    match v
    case Byte(b) => [b]
    case Short(s) => PutU16(s)
    case Word(w) => PutU32(w)
    case Long(l) => PutU64(l)
    case Blob(bytes) => PutU16(|bytes|) + bytes
  }

  type Reading = Option<(Value, seq<byte>)>

  function ReadBlob(input: seq<byte>, limit: nat): Reading {
    if |input| < 2 || GetU16(input[..2]) > limit || |input| - 2 < GetU16(input[..2]) then None
    else
      var end := 2 + GetU16(input[..2]) as int;
      Some((Blob(input[2..end]), input[end..]))
  }

  /** Reads one field; none if the payload ends too early or the field is not acceptable. */
  function Read(shape: Shape, input: seq<byte>): Reading {
    match shape
    case OneByte => if |input| < 1 then None else Some((Byte(input[0]), input[1..]))
    case TwoBytes => if |input| < 2 then None else Some((Short(GetU16(input[..2])), input[2..]))
    case FourBytes => if |input| < 4 then None else Some((Word(GetU32(input[..4])), input[4..]))
    case EightBytes => if |input| < 8 then None else Some((Long(GetU64(input[..8])), input[8..]))
    case Text(limit) =>
      var r := ReadBlob(input, limit);
      if r.Some? && IsText(r.value.0.bytes) then r else None
    case Fixed(size) =>
      var r := ReadBlob(input, size);
      if r.Some? && |r.value.0.bytes| == size then r else None
  }

  lemma BlobImage(bytes: seq<byte>, limit: nat, rest: seq<byte>)
    requires |bytes| <= limit && |bytes| <= 0xFFFF
    ensures ReadBlob(PutU16(|bytes|) + bytes + rest, limit) == Some((Blob(bytes), rest))
  {
    var input := PutU16(|bytes|) + bytes + rest;
    assert input[..2] == PutU16(|bytes|);
    U16RoundTrip(|bytes|);
    assert input[2..2 + |bytes|] == bytes && input[2 + |bytes|..] == rest;
  }

  lemma BlobCanonical(input: seq<byte>, limit: nat)
    requires ReadBlob(input, limit).Some?
    ensures var (v, rest) := ReadBlob(input, limit).value;
            v.Blob? && |v.bytes| <= limit && |v.bytes| <= 0xFFFF && input == Image(v) + rest
  {
    U16Canonical(input[..2]);
    var end := 2 + GetU16(input[..2]) as int;
    assert input == input[..2] + input[2..end] + input[end..];
  }

  /** Reading what was written. */
  lemma ReadImage(v: Value, shape: Shape, rest: seq<byte>)
    requires Fits(v, shape)
    ensures Read(shape, Image(v) + rest) == Some((v, rest))
  {
    var input := Image(v) + rest;
    match v
    case Byte(b) =>
    case Short(s) =>
      assert input[..2] == PutU16(s) && input[2..] == rest;
      U16RoundTrip(s);
    case Word(w) =>
      assert input[..4] == PutU32(w) && input[4..] == rest;
      U32RoundTrip(w);
    case Long(l) =>
      assert input[..8] == PutU64(l) && input[8..] == rest;
      U64RoundTrip(l);
    case Blob(bytes) =>
      BlobImage(bytes, if shape.Text? then shape.limit else shape.size, rest);
  }

  /** What can be read was written that way. */
  lemma ReadCanonical(shape: Shape, input: seq<byte>)
    requires Read(shape, input).Some?
    ensures var (v, rest) := Read(shape, input).value;
            Fits(v, shape) && input == Image(v) + rest
  {
    match shape
    case OneByte =>
    case TwoBytes => U16Canonical(input[..2]);
    case FourBytes => U32Canonical(input[..4]);
    case EightBytes => U64Canonical(input[..8]);
    case Text(limit) => BlobCanonical(input, limit);
    case Fixed(size) => BlobCanonical(input, size);
  }

  // ---------- Several fields ----------

  ghost predicate FitsAll(vs: seq<Value>, shapes: seq<Shape>) {
    |vs| == |shapes| && forall i | 0 <= i < |vs| :: Fits(vs[i], shapes[i])
  }

  predicate AllWritable(vs: seq<Value>) {
    forall i | 0 <= i < |vs| :: Writable(vs[i])
  }

  function Images(vs: seq<Value>): seq<byte>
    requires AllWritable(vs)
  {
    if |vs| == 0 then [] else Image(vs[0]) + Images(vs[1..])
  }

  function ReadAll(shapes: seq<Shape>, input: seq<byte>): Option<(seq<Value>, seq<byte>)>
    decreases |shapes|
  {
    if |shapes| == 0 then Some(([], input))
    else
      var first := Read(shapes[0], input);
      if first.None? then None
      else
        var rest := ReadAll(shapes[1..], first.value.1);
        if rest.None? then None else Some(([first.value.0] + rest.value.0, rest.value.1))
  }

  lemma {:induction false} ReadAllImages(vs: seq<Value>, shapes: seq<Shape>, rest: seq<byte>)
    requires FitsAll(vs, shapes)
    ensures AllWritable(vs) && ReadAll(shapes, Images(vs) + rest) == Some((vs, rest))
    decreases |vs|
  {
    if |vs| == 0 {
      assert Images(vs) + rest == rest;
    } else {
      var tail := vs[1..];
      ReadAllImages(tail, shapes[1..], rest);
      Associative(Image(vs[0]), Images(tail), rest);
      ReadImage(vs[0], shapes[0], Images(tail) + rest);
      assert [vs[0]] + tail == vs;
    }
  }

  lemma {:induction false} ImagesAppend(a: seq<Value>, b: seq<Value>)
    requires AllWritable(a) && AllWritable(b)
    ensures AllWritable(a + b) && Images(a + b) == Images(a) + Images(b)
    decreases |a|
  {
    if |a| == 0 {
      assert a + b == b;
    } else {
      assert (a + b)[0] == a[0] && (a + b)[1..] == a[1..] + b;
      ImagesAppend(a[1..], b);
      Associative(Image(a[0]), Images(a[1..]), Images(b));
    }
  }

  lemma ImageAlone(v: Value)
    requires Writable(v)
    ensures Images([v]) == Image(v)
  {
    assert Images([v]) == Image(v) + Images([]);
    assert Image(v) + [] == Image(v);
  }

  /** What a writer accepts as a field: blobs are text. */
  predicate Acceptable(v: Value) {
    v.Blob? ==> |v.bytes| <= 0xFFFF && IsText(v.bytes)
  }

  predicate AllAcceptable(vs: seq<Value>) {
    forall i | 0 <= i < |vs| :: Acceptable(vs[i])
  }

  lemma ImagesStep(vs: seq<Value>, i: nat)
    requires i < |vs| && AllWritable(vs)
    ensures Images(vs[..i + 1]) == Images(vs[..i]) + Image(vs[i])
  {
    assert vs[..i + 1] == vs[..i] + [vs[i]];
    ImagesAppend(vs[..i], [vs[i]]);
    ImageAlone(vs[i]);
  }

  lemma PrefixIsShorter(vs: seq<Value>, i: nat)
    requires i <= |vs| && AllWritable(vs)
    ensures |Images(vs[..i])| <= |Images(vs)|
  {
    assert vs == vs[..i] + vs[i..];
    ImagesAppend(vs[..i], vs[i..]);
  }

  lemma {:induction false} ReadAllCanonical(shapes: seq<Shape>, input: seq<byte>)
    requires ReadAll(shapes, input).Some?
    ensures var (vs, rest) := ReadAll(shapes, input).value;
            FitsAll(vs, shapes) && AllWritable(vs) && input == Images(vs) + rest
    decreases |shapes|
  {
    if |shapes| == 0 {
      assert input == [] + input;
    } else {
      var first := Read(shapes[0], input);
      var rest := ReadAll(shapes[1..], first.value.1);
      ReadCanonical(shapes[0], input);
      ReadAllCanonical(shapes[1..], first.value.1);
      var vs := [first.value.0] + rest.value.0;
      assert vs[1..] == rest.value.0;
      Associative(Image(vs[0]), Images(vs[1..]), rest.value.1);
    }
  }

  // ---------- The writer and the reader ----------

  /** Appends fields; after a failure nothing more is appended and the first error stays. */
  class PayloadWriter {
    const maximum: nat
    var bytes: seq<byte>
    var failure: Option<ErrorCode>

    ghost predicate Valid()
      reads this
    {
      |bytes| <= maximum <= MAX_PAYLOAD
    }

    constructor (requested: nat)
      ensures Valid() && bytes == [] && failure == None && maximum == Min(requested, MAX_PAYLOAD)
    {
      maximum, bytes, failure := Min(requested, MAX_PAYLOAD), [], None;
    }

    method Append(chunk: seq<byte>) returns (ok: bool)
      requires Valid()
      modifies this
      ensures Valid() && ok == failure.None?
      ensures ok <==> old(failure).None? && |old(bytes)| + |chunk| <= maximum
      ensures bytes == if ok then old(bytes) + chunk else old(bytes)
      ensures old(failure).Some? ==> failure == old(failure)
    {
      if failure.Some? {
        return false;
      }
      if |chunk| > maximum - |bytes| {
        failure := Some(FrameTooLarge);
        return false;
      }
      bytes := bytes + chunk;
      return true;
    }

    /** Writes one field; `text` says whether a blob must be text. */
    method Write(v: Value, text: bool) returns (ok: bool)
      requires Valid()
      modifies this
      ensures Valid() && ok == failure.None?
      ensures ok <==> && old(failure).None? && Writable(v) && (text && v.Blob? ==> IsText(v.bytes))
                      && |old(bytes)| + |Image(v)| <= maximum
      ensures ok ==> bytes == old(bytes) + Image(v)
      ensures old(failure).Some? ==> failure == old(failure)
    {
      match v
      case Byte(b) => ok := Append([b]);
      case Short(s) => ok := Append(PutU16(s));
      case Word(w) => ok := Append(PutU32(w));
      case Long(l) => ok := Append(PutU64(l));
      case Blob(blob) => ok := WriteBlob(blob, text);
    }

    method WriteBlob(blob: seq<byte>, text: bool) returns (ok: bool)
      requires Valid()
      modifies this
      ensures Valid() && ok == failure.None?
      ensures ok <==> && old(failure).None? && |blob| <= 0xFFFF && (text ==> IsText(blob))
                      && |old(bytes)| + 2 + |blob| <= maximum
      ensures ok ==> bytes == old(bytes) + (PutU16(|blob|) + blob)
      ensures old(failure).Some? ==> failure == old(failure)
    {
      if (text && !IsText(blob)) || |blob| > 0xFFFF {
        failure := if failure.Some? then failure else Some(InvalidArgument);
        return false;
      }
      ok := Append(PutU16(|blob|));
      if ok {
        ok := Append(blob);
        Associative(old(bytes), PutU16(|blob|), blob);
      }
    }

    /** Writes fields in order, and stops at the first that fails. */
    method WriteAll(vs: seq<Value>) returns (ok: bool)
      requires Valid() && failure.None?
      modifies this
      ensures Valid()
      ensures ok <==> AllAcceptable(vs) && |old(bytes)| + |Images(vs)| <= maximum
      ensures ok ==> bytes == old(bytes) + Images(vs)
    {
      for i := 0 to |vs|
        invariant Valid() && failure.None? && AllAcceptable(vs[..i])
        invariant bytes == old(bytes) + Images(vs[..i])
      {
        ok := Write(vs[i], true);
        assert vs[..i + 1] == vs[..i] + [vs[i]];
        if AllAcceptable(vs) {
          ImagesStep(vs, i);
          PrefixIsShorter(vs, i + 1);
        }
        if !ok {
          return;
        }
        ImagesStep(vs[..i + 1], i);
        assert vs[..i + 1][..i] == vs[..i] && vs[..i + 1][..i + 1] == vs[..i + 1];
        Associative(old(bytes), Images(vs[..i]), Image(vs[i]));
      }
      assert vs[..|vs|] == vs;
      ok := true;
    }
  }

  lemma Slices(bytes: seq<byte>, offset: nat, n: nat)
    requires offset + n <= |bytes|
    ensures bytes[offset..][..n] == bytes[offset..offset + n]
    ensures bytes[offset..][n..] == bytes[offset + n..]
  {
  }

  /** Walks through a payload. */
  class PayloadReader {
    const bytes: seq<byte>
    var offset: nat

    ghost predicate Valid()
      reads this
    {
      offset <= |bytes|
    }

    ghost function Rest(): seq<byte>
      requires Valid()
      reads this
    {
      bytes[offset..]
    }

    constructor (payload: seq<byte>)
      ensures Valid() && bytes == payload && Rest() == payload
    {
      bytes, offset := payload, 0;
    }

    method ReadBytes(limit: nat) returns (v: Option<Value>)
      requires Valid()
      modifies this
      ensures Valid()
      ensures var r := ReadBlob(old(Rest()), limit);
              if r.Some? then v == Some(r.value.0) && Rest() == r.value.1
              else v == None && Rest() == old(Rest())
    {
      var remaining := |bytes| - offset;
      ghost var rest := Rest();
      if remaining < 2 {
        return None;
      }
      assert rest[..2] == bytes[offset..offset + 2];
      var length := GetU16(bytes[offset..offset + 2]);
      if length > limit || remaining - 2 < length {
        return None;
      }
      var begin := offset + 2;
      v := Some(Blob(bytes[begin..begin + length]));
      offset := begin + length;
      assert rest[2..2 + length] == v.value.bytes && rest[2 + length..] == Rest();
    }

    method TakeBytes(n: nat) returns (chunk: seq<byte>)
      requires Valid() && n <= |Rest()|
      modifies this`offset
      ensures Valid() && chunk == old(Rest())[..n] && Rest() == old(Rest())[n..]
    {
      Slices(bytes, offset, n);
      chunk, offset := bytes[offset..offset + n], offset + n;
    }

    /** A failed read leaves the position alone, except that a blob of the wrong kind is passed. */
    method ReadField(shape: Shape) returns (v: Option<Value>)
      requires Valid()
      modifies this
      ensures Valid()
      ensures v.Some? <==> Read(shape, old(Rest())).Some?
      ensures v.Some? ==> Read(shape, old(Rest())) == Some((v.value, Rest()))
    {
      var remaining := |bytes| - offset;
      match shape
      case OneByte =>
        if remaining < 1 {
          return None;
        }
        var chunk := TakeBytes(1);
        v := Some(Byte(chunk[0]));
      case TwoBytes =>
        if remaining < 2 {
          return None;
        }
        var chunk := TakeBytes(2);
        v := Some(Short(GetU16(chunk)));
      case FourBytes =>
        if remaining < 4 {
          return None;
        }
        var chunk := TakeBytes(4);
        v := Some(Word(GetU32(chunk)));
      case EightBytes =>
        if remaining < 8 {
          return None;
        }
        var chunk := TakeBytes(8);
        v := Some(Long(GetU64(chunk)));
      case Text(limit) =>
        v := ReadBytes(limit);
        if v.Some? && !IsText(v.value.bytes) {
          return None;
        }
      case Fixed(size) =>
        v := ReadBytes(size);
        if v.Some? && |v.value.bytes| != size {
          return None;
        }
    }

    method AtEnd() returns (yes: bool)
      requires Valid()
      ensures yes <==> Rest() == []
    {
      return offset == |bytes|;
    }
  }
}
