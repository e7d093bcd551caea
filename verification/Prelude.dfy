/** Machine types and the small datatypes shared by every layer. */
module Prelude {
  type byte = x: int | 0 <= x < 256
  type u16 = x: int | 0 <= x < 0x1_0000
  type bytes = seq<byte>

  datatype Option<+T> = None | Some(value: T)

  datatype Result<+T, +E> = Success(value: T) | Failure(error: E)

  /** All the chunks of a byte stream, joined. */
  function Concat(parts: seq<bytes>): bytes {
    if parts == [] then [] else parts[0] + Concat(parts[1..])
  }

  lemma {:induction false} ConcatAppend(a: seq<bytes>, b: seq<bytes>)
    ensures Concat(a + b) == Concat(a) + Concat(b)
  {
    if a == [] {
      assert a + b == b;
    } else {
      assert (a + b)[1..] == a[1..] + b;
      ConcatAppend(a[1..], b);
    }
  }

  lemma ConcatOne(x: bytes)
    ensures Concat([x]) == x
  {
    var one := [x];
    assert one[1..] == [];
  }

  function Repeat<T>(x: T, n: nat): (r: seq<T>)
    ensures |r| == n
    ensures forall i :: 0 <= i < n ==> r[i] == x
  {
    seq(n, _ => x)
  }

  lemma RepeatSnoc<T>(x: T, n: nat)
    ensures Repeat(x, n + 1) == Repeat(x, n) + [x]
  {
  }

  /** Index of the first `b` in `s`, or `|s|` when there is none. */
  function IndexOf(s: bytes, b: byte): (k: nat)
    ensures k <= |s|
    ensures k < |s| ==> s[k] == b
    ensures forall i :: 0 <= i < k ==> s[i] != b
  {
    if s == [] || s[0] == b then 0 else 1 + IndexOf(s[1..], b)
  }

  /** The first occurrence is the only index with these two properties. */
  lemma IndexOfUnique(s: bytes, b: byte, k: nat)
    requires k <= |s|
    requires k < |s| ==> s[k] == b
    requires forall i :: 0 <= i < k ==> s[i] != b
    ensures IndexOf(s, b) == k
  {
    var j := IndexOf(s, b);
    assert j < |s| ==> s[j] == b;
    assert forall i :: 0 <= i < j ==> s[i] != b;
  }
}
