/**
 The cursor of src/wal/byte_reader.rs. Each read is specified by a function on the bytes that are
 still unread, and each of those functions has a printer as its inverse.
 */
module ByteReading {
  import opened Basics
  import opened Utf8

  datatype PgOutputError =
    | Truncated(ctx: string)
    | InvalidUtf8(ctx: string)
    | UnsupportedTupleKind(kind: Byte)
    | UnknownMessageTag(tag: Byte)

  /** What reading from a byte string yields: a value and the bytes left, or an error. */
  datatype Parsed<+T> = Done(value: T, rest: seq<Byte>) | Fail(error: PgOutputError) {
    predicate IsFailure() {
      Fail?
    }

    function PropagateFailure<U>(): Parsed<U>
      requires Fail?
    {
      Fail(error)
    }

    function Extract(): (T, seq<Byte>)
      requires Done?
    {
      (value, rest)
    }
  }

  /** A cursor operation returned `r` and left `after` unread, as the reading `p` prescribes. */
  ghost predicate Agrees<T>(r: Result<T, PgOutputError>, after: seq<Byte>, p: Parsed<T>) {
    match p
    case Done(v, rest) => r == Success(v) && after == rest
    case Fail(e) => r == Failure(e)
  }

  /**
   More input `x` arrived behind the bytes that gave `p`, and the reading is now `q`: a value already
   read is kept, and so is every error other than running out of bytes.
   */
  ghost predicate Extends<T>(p: Parsed<T>, q: Parsed<T>, x: seq<Byte>) {
    match p
    case Done(v, rest) => q == Done(v, rest + x)
    case Fail(e) => e.Truncated? || q == p
  }

  // ---------- readings ----------

  function TakeBytes(s: seq<Byte>, n: nat, ctx: string): (p: Parsed<seq<Byte>>)
    ensures p.Done? ==> |p.rest| + n == |s|
  {
    if |s| < n then Fail(Truncated(ctx)) else Done(s[..n], s[n..])
  }

  function TakeU8(s: seq<Byte>, ctx: string): (p: Parsed<Byte>)
    ensures p.Done? ==> |p.rest| < |s|
  {
    var (b, s1) :- TakeBytes(s, 1, ctx);
    Done(b[0], s1)
  }

  function TakeU16(s: seq<Byte>, ctx: string): (p: Parsed<U16>)
    ensures p.Done? ==> |p.rest| < |s|
  {
    var (b, s1) :- TakeBytes(s, 2, ctx);
    Done(BigEndian16(b), s1)
  }

  function TakeU32(s: seq<Byte>, ctx: string): (p: Parsed<U32>)
    ensures p.Done? ==> |p.rest| < |s|
  {
    var (b, s1) :- TakeBytes(s, 4, ctx);
    Done(BigEndian32(b), s1)
  }

  function BigEndian16(b: seq<Byte>): U16
    requires |b| == 2
  {
    0x100 * b[0] as int + b[1]
  }

  function BigEndian32(b: seq<Byte>): U32
    requires |b| == 4
  {
    0x100_0000 * b[0] as int + 0x1_0000 * b[1] as int + 0x100 * b[2] as int + b[3]
  }

  /** The number in the first four bytes, the most significant one first. */
  ghost predicate Reads32(n: int, s: seq<Byte>) {
    |s| >= 4 && n == 0x100_0000 * (s[0] as int) + 0x1_0000 * (s[1] as int) + 0x100 * (s[2] as int) + s[3]
  }

  /** Two's complement: the upper half of the 32-bit words stands for the negative numbers. */
  function Signed32(n: U32): I32 {
    if n < TWO_TO_31 then n else n - TWO_TO_32
  }

  function TakeI32(s: seq<Byte>, ctx: string): (p: Parsed<I32>)
    ensures p.Done? ==> |p.rest| < |s|
  {
    var (n, s1) :- TakeU32(s, ctx);
    Done(Signed32(n), s1)
  }

  /** The position of the first NUL byte. */
  function FirstNul(s: seq<Byte>): (n: nat)
    requires 0 in s
    ensures n < |s| && s[n] == 0 && 0 !in s[..n]
  {
    if s[0] == 0 then 0 else
      var m := FirstNul(s[1..]);
      assert s[..m + 1] == [s[0]] + s[1..][..m];
      m + 1
  }

  lemma {:induction false} FirstNulIs(s: seq<Byte>, n: nat)
    requires n < |s| && s[n] == 0 && 0 !in s[..n]
    ensures FirstNul(s) == n
  {
  }

  function TakeCString(s: seq<Byte>, ctx: string): (p: Parsed<Str>)
    ensures p.Done? ==> |p.rest| < |s|
  {
    if 0 !in s then Fail(Truncated(ctx))
    else
      var n := FirstNul(s);
      if ValidUtf8(s[..n]) then Done(s[..n], s[n + 1..]) else Fail(InvalidUtf8(ctx))
  }

  // ---------- printers: each writes its value in front of `tail` ----------

  function PutU16(n: U16, tail: seq<Byte>): seq<Byte> {
    [n / 0x100, n % 0x100] + tail
  }

  function PutU32(n: U32, tail: seq<Byte>): seq<Byte> {
    PutU16(n / 0x1_0000, PutU16(n % 0x1_0000, tail))
  }

  function PutI32(n: I32, tail: seq<Byte>): seq<Byte> {
    PutU32(if n < 0 then n + TWO_TO_32 else n, tail)
  }

  function PutCString(s: Str, tail: seq<Byte>): seq<Byte> {
    s + ([0] + tail)
  }

  /** The strings that have a printed form. */
  predicate IsCString(s: Str) {
    0 !in s && ValidUtf8(s)
  }

  // ---------- reading undoes printing ----------

  lemma U16Complete(n: U16, tail: seq<Byte>, ctx: string)
    ensures TakeU16(PutU16(n, tail), ctx) == Done(n, tail)
  {
  }

  lemma U32Complete(n: U32, tail: seq<Byte>, ctx: string)
    ensures TakeU32(PutU32(n, tail), ctx) == Done(n, tail)
  {
  }

  lemma I32Complete(n: I32, tail: seq<Byte>, ctx: string)
    ensures TakeI32(PutI32(n, tail), ctx) == Done(n, tail)
  {
  }

  lemma BytesComplete(b: seq<Byte>, tail: seq<Byte>, ctx: string)
    ensures TakeBytes(b + tail, |b|, ctx) == Done(b, tail)
  {
  }

  lemma CStringComplete(s: Str, tail: seq<Byte>, ctx: string)
    requires IsCString(s)
    ensures TakeCString(PutCString(s, tail), ctx) == Done(s, tail)
  {
    var t := PutCString(s, tail);
    assert t[..|s|] == s && t[|s|] == 0;
    FirstNulIs(t, |s|);
    assert t[|s| + 1..] == tail;
  }

  // ---------- printing undoes reading ----------

  lemma U8Sound(s: seq<Byte>, ctx: string)
    ensures var p := TakeU8(s, ctx); p.Done? ==> s == [p.value] + p.rest
  {
  }

  lemma U16Sound(s: seq<Byte>, ctx: string)
    ensures var p := TakeU16(s, ctx); p.Done? ==> s == PutU16(p.value, p.rest)
  {
  }

  lemma U32Sound(s: seq<Byte>, ctx: string)
    ensures var p := TakeU32(s, ctx); p.Done? ==> s == PutU32(p.value, p.rest)
  {
    if |s| >= 4 {
      var n := BigEndian32(s[..4]);
      var hi: int, lo: int := BigEndian16(s[..2]), BigEndian16(s[2..4]);
      assert n == 0x1_0000 * hi + lo;
      assert n / 0x1_0000 == hi && n % 0x1_0000 == lo;
      assert hi / 0x100 == s[0] && hi % 0x100 == s[1];
      assert lo / 0x100 == s[2] && lo % 0x100 == s[3];
      assert s[..4] == [s[0], s[1], s[2], s[3]];
    }
  }

  lemma I32Sound(s: seq<Byte>, ctx: string)
    ensures var p := TakeI32(s, ctx); p.Done? ==> s == PutI32(p.value, p.rest)
  {
    U32Sound(s, ctx);
  }

  lemma CStringSound(s: seq<Byte>, ctx: string)
    ensures var p := TakeCString(s, ctx); p.Done? ==> IsCString(p.value) && s == PutCString(p.value, p.rest)
  {
  }

  // ---------- more input ----------

  lemma BytesExtend(s: seq<Byte>, x: seq<Byte>, n: nat, ctx: string)
    ensures Extends(TakeBytes(s, n, ctx), TakeBytes(s + x, n, ctx), x)
  {
    if n <= |s| {
      assert (s + x)[..n] == s[..n];
      assert (s + x)[n..] == s[n..] + x;
    }
  }

  lemma U8Extend(s: seq<Byte>, x: seq<Byte>, ctx: string)
    ensures Extends(TakeU8(s, ctx), TakeU8(s + x, ctx), x)
  {
  }

  lemma U16Extend(s: seq<Byte>, x: seq<Byte>, ctx: string)
    ensures Extends(TakeU16(s, ctx), TakeU16(s + x, ctx), x)
  {
  }

  lemma U32Extend(s: seq<Byte>, x: seq<Byte>, ctx: string)
    ensures Extends(TakeU32(s, ctx), TakeU32(s + x, ctx), x)
  {
  }

  lemma I32Extend(s: seq<Byte>, x: seq<Byte>, ctx: string)
    ensures Extends(TakeI32(s, ctx), TakeI32(s + x, ctx), x)
  {
  }

  lemma CStringExtend(s: seq<Byte>, x: seq<Byte>, ctx: string)
    ensures Extends(TakeCString(s, ctx), TakeCString(s + x, ctx), x)
  {
    if 0 in s {
      var n := FirstNul(s);
      assert (s + x)[n] == 0 && (s + x)[..n] == s[..n];
      FirstNulIs(s + x, n);
      assert (s + x)[n + 1..] == s[n + 1..] + x;
    }
  }

  // ---------- the cursor ----------

  class ByteReader {
    const data: seq<Byte>
    var pos: nat

    ghost predicate Valid()
      reads this
    {
      pos <= |data|
    }

    /** The bytes not read yet. */
    ghost function Rest(): seq<Byte>
      requires Valid()
      reads this
    {
      data[pos..]
    }

    constructor (data: seq<Byte>)
      ensures Valid() && this.data == data && Rest() == data
    {
      this.data := data;
      pos := 0;
    }

    predicate IsEmpty()
      requires Valid()
      reads this
    {
      pos >= |data|
    }

    method ReadBytes(len: nat, ctx: string) returns (r: Result<seq<Byte>, PgOutputError>)
      requires Valid()
      modifies this
      ensures Valid()
      ensures Agrees(r, Rest(), TakeBytes(old(Rest()), len, ctx))
      ensures r.Failure? ==> pos == old(pos)
      ensures r.Success? ==> |r.value| == len
    {
      if pos + len > |data| {
        return Failure(Truncated(ctx));
      }
      var bytes := data[pos..pos + len];
      assert bytes == Rest()[..len];
      pos := pos + len;
      return Success(bytes);
    }

    method ReadU8(ctx: string) returns (r: Result<Byte, PgOutputError>)
      requires Valid()
      modifies this
      ensures Valid()
      ensures Agrees(r, Rest(), TakeU8(old(Rest()), ctx))
      ensures r.Failure? ==> pos == old(pos)
    {
      var bytes :- ReadBytes(1, ctx);
      return Success(bytes[0]);
    }

    method ReadU16(ctx: string) returns (r: Result<U16, PgOutputError>)
      requires Valid()
      modifies this
      ensures Valid()
      ensures Agrees(r, Rest(), TakeU16(old(Rest()), ctx))
      ensures r.Success? ==> r.value == 0x100 * (old(Rest())[0] as int) + old(Rest())[1]
      ensures r.Failure? ==> pos == old(pos)
    {
      var bytes :- ReadBytes(2, ctx);
      return Success(BigEndian16(bytes));
    }

    method ReadU32(ctx: string) returns (r: Result<U32, PgOutputError>)
      requires Valid()
      modifies this
      ensures Valid()
      ensures Agrees(r, Rest(), TakeU32(old(Rest()), ctx))
      ensures r.Success? ==> Reads32(r.value, old(Rest()))
      ensures r.Failure? ==> pos == old(pos)
    {
      var bytes :- ReadBytes(4, ctx);
      return Success(BigEndian32(bytes));
    }

    method ReadI32(ctx: string) returns (r: Result<I32, PgOutputError>)
      requires Valid()
      modifies this
      ensures Valid()
      ensures Agrees(r, Rest(), TakeI32(old(Rest()), ctx))
      ensures r.Success? ==> Reads32(if r.value < 0 then r.value + 0x1_0000_0000 else r.value, old(Rest()))
      ensures r.Failure? ==> pos == old(pos)
    {
      var bytes :- ReadBytes(4, ctx);
      return Success(Signed32(BigEndian32(bytes)));
    }

    /** A string with a NUL but bad UTF-8 is consumed before the error is reported. */
    method ReadCString(ctx: string) returns (r: Result<Str, PgOutputError>)
      requires Valid()
      modifies this
      ensures Valid()
      ensures Agrees(r, Rest(), TakeCString(old(Rest()), ctx))
      ensures pos == if 0 in old(Rest()) then old(pos) + FirstNul(old(Rest())) + 1 else old(pos)
    {
      var start := pos;
      var end := start;
      while end < |data| && data[end] != 0
        invariant start <= end <= |data|
        invariant forall i :: start <= i < end ==> data[i] != 0
      {
        end := end + 1;
      }
      if end == |data| {
        return Failure(Truncated(ctx));
      }
      var bytes := data[start..end];
      pos := end + 1;
      ghost var s := old(Rest());
      assert s[end - start] == 0 && bytes == s[..end - start];
      FirstNulIs(s, end - start);
      if !ValidUtf8(bytes) {
        return Failure(InvalidUtf8(ctx));
      }
      return Success(bytes);
    }
  }
}
