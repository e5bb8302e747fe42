/** Types shared by every module: optional values, results, bytes and machine integers. */
module Basics {

  datatype Option<+T> = None | Some(value: T)

  datatype Result<+T, +E> = Success(value: T) | Failure(error: E) {
    predicate IsFailure() {
      Failure?
    }

    function PropagateFailure<U>(): Result<U, E>
      requires Failure?
    {
      Failure(error)
    }

    function Extract(): T
      requires Success?
    {
      value
    }
  }

  type Byte = b: int | 0 <= b < 256

  /** A string of the program: the bytes of its UTF-8 encoding. */
  type Str = seq<Byte>

  const TWO_TO_16: int := 0x1_0000
  const TWO_TO_31: int := 0x8000_0000
  const TWO_TO_32: int := 0x1_0000_0000
  const TWO_TO_64: int := 0x1_0000_0000_0000_0000

  type U16 = n: int | 0 <= n < TWO_TO_16
  type U32 = n: int | 0 <= n < TWO_TO_32
  type I32 = n: int | -TWO_TO_31 <= n < TWO_TO_31
  type U64 = n: int | 0 <= n < TWO_TO_64

  /** `AtomicU64::fetch_add(1)`: the counters of the program wrap around. */
  function Bump(n: U64): U64 {
    (n + 1) % TWO_TO_64
  }

  ghost predicate NoDuplicates<T>(s: seq<T>) {
    forall i, j :: 0 <= i < j < |s| ==> s[i] != s[j]
  }

  /** A sequence without repetition is no longer than any set that holds its elements. */
  lemma {:induction false} DistinctWithin<T>(s: seq<T>, bound: set<T>)
    requires NoDuplicates(s) && forall x :: x in s ==> x in bound
    ensures |s| <= |bound|
  {
    if s != [] {
      var k := |s| - 1;
      forall x | x in s[..k] ensures x in bound - {s[k]} {
      }
      DistinctWithin(s[..k], bound - {s[k]});
    }
  }
}
