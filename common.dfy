/** Small value types shared by every module of the model. */
module Common {

  /** An 8-bit byte, as Go's `byte`. */
  type byte = b: int | 0 <= b < 256

  /** Go's `int64`. */
  type int64 = x: int | -0x8000_0000_0000_0000 <= x < 0x8000_0000_0000_0000

  /** A nil-able value: Go's pointers and nil slices where only presence matters. */
  datatype Option<+T> = None | Some(value: T)

  /** A Go `(value, error)` pair where exactly one half is meaningful. */
  datatype Result<+T, +E> = Ok(value: T) | Err(error: E)

  /** Go's `time.Time`, as a value: an instant and the name of its location. */
  datatype Time = Time(unixNano: int, location: string)

  function Min(a: int, b: int): (m: int)
    ensures m <= a && m <= b && (m == a || m == b)
  {
    if a <= b then a else b
  }

  // ---------------------------------------------------------------------------
  // Regrouping sequence concatenations, stated once for the proofs that need it
  // ---------------------------------------------------------------------------

  lemma Assoc<T>(a: seq<T>, b: seq<T>, c: seq<T>)
    ensures (a + b) + c == a + (b + c)
  {
  }

  lemma SplitAt<T>(a: seq<T>, k: nat)
    requires k <= |a|
    ensures a == a[..k] + a[k..]
  {
  }

  lemma FirstThree<T>(a: seq<T>)
    requires |a| >= 3
    ensures a == [a[0], a[1], a[2]] + a[3..]
  {
  }

  lemma Regroup<T>(all: seq<T>, w: seq<T>, tail: seq<T>, g: seq<T>, rest: seq<T>, w': seq<T>)
    requires all == w + tail && tail == g + rest && w' == w + g
    ensures all == w' + rest
  {
  }

  lemma SliceOfSuffix<T>(a: seq<T>, s: nat, k: nat)
    requires s + k <= |a|
    ensures a[s..][..k] == a[s..s + k] && a[s..][k..] == a[s + k..]
  {
  }
}
