/**
 * Fletcher-16, the modulo-255 variant of the wire format.
 *
 * `Checksum` is the arithmetic meaning of the checksum: the byte sum and the
 * position-weighted byte sum, each modulo 255. `Fletcher16` is the packed
 * accumulator loop, proved to compute exactly that.
 */
module Fletcher {
  import opened Prelude

  function Sum(s: bytes): nat {
    if s == [] then 0 else s[0] + Sum(s[1..])
  }

  /** The first byte weighs |s|, the last byte weighs 1. */
  function Weighted(s: bytes): nat {
    if s == [] then 0 else |s| * s[0] + Weighted(s[1..])
  }

  function Low(s: bytes): byte {
    Sum(s) % 255
  }

  function High(s: bytes): byte {
    Weighted(s) % 255
  }

  function Checksum(s: bytes): u16 {
    High(s) * 256 + Low(s)
  }

  lemma {:induction false} SumAppend(a: bytes, b: bytes)
    ensures Sum(a + b) == Sum(a) + Sum(b)
  {
    if a == [] {
      assert a + b == b;
    } else {
      assert (a + b)[1..] == a[1..] + b;
      SumAppend(a[1..], b);
    }
  }

  lemma {:induction false} WeightedAppend(a: bytes, b: bytes)
    ensures Weighted(a + b) == Weighted(a) + |b| * Sum(a) + Weighted(b)
  {
    if a == [] {
      assert a + b == b;
    } else {
      assert (a + b)[1..] == a[1..] + b;
      WeightedAppend(a[1..], b);
      Regroup(|a|, |b|, a[0], Sum(a[1..]));
    }
  }

  lemma Regroup(m: int, n: int, x: int, y: int)
    ensures (m + n) * x + n * y == m * x + n * (x + y)
  {
  }

  lemma MultipleOf255(n: int, k: int)
    requires n % 255 == 0
    ensures (k * n) % 255 == 0
  {
    var q := n / 255;
    assert k * n == 255 * (k * q);
  }

  lemma SameResidue(x: int, y: int)
    ensures x % 255 == y % 255 <==> (x - y) % 255 == 0
  {
  }

  lemma AddResidue(x: int, y: int)
    ensures (x % 255 + y % 255) % 255 == (x + y) % 255
  {
  }

  /** Checksum of a concatenation from the checksums of its halves. */
  lemma AppendLaw(a: bytes, b: bytes)
    ensures Low(a + b) == (Low(a) + Low(b)) % 255
    ensures High(a + b) == (High(a) + |b| * Low(a) + High(b)) % 255
  {
    hide Sum, Weighted;
    SumAppend(a, b);
    WeightedAppend(a, b);
    AddResidue(Sum(a), Sum(b));
    LinearResidue(Weighted(a), |b|, Sum(a), Weighted(b));
  }

  lemma LinearResidue(x: nat, k: nat, y: nat, z: nat)
    ensures (x + k * y + z) % 255 == (x % 255 + k * (y % 255) + z % 255) % 255
  {
    ScaleResidue(k, y);
    AddThreeResidues(x, k * y, k * (y % 255), z);
  }

  lemma ScaleResidue(k: nat, x: int)
    ensures (k * (x % 255)) % 255 == (k * x) % 255
  {
    var q, r := x / 255, x % 255;
    calc {
      k * x;
      k * (255 * q + r);
      255 * (k * q) + k * r;
    }
    AddMultiple(k * r, k * q);
  }

  lemma AddMultiple(x: int, m: int)
    ensures (x + 255 * m) % 255 == x % 255
  {
  }

  lemma AddThreeResidues(x: int, m: int, n: int, z: int)
    requires m % 255 == n % 255
    ensures (x + m + z) % 255 == (x % 255 + n + z % 255) % 255
  {
    AddMultiple(x % 255 + n + z % 255, x / 255 + m / 255 - n / 255 + z / 255);
  }

  /** The accumulator loop; every intermediate value fits in 16 bits. */
  method Fletcher16(buf: bytes) returns (cs: u16)
    ensures cs == Checksum(buf)
  {
    hide Sum, Weighted, High, Low;
    NoBytes();
    cs := 0;
    for i := 0 to |buf|
      invariant cs / 256 == High(buf[..i])
      invariant cs % 256 == Low(buf[..i])
    {
      var lowSum: u16 := cs % 256 + buf[i];
      var csLow: u16 := lowSum % 255;
      var highSum: u16 := cs / 256 + csLow;
      cs := highSum % 255 * 256 + csLow;
      assert buf[..i + 1] == buf[..i] + [buf[i]];
      Snoc(buf[..i], buf[i]);
    }
    assert buf[..|buf|] == buf;
  }

  lemma NoBytes()
    ensures High([]) == 0 && Low([]) == 0
  {
  }

  lemma Singleton(b: byte)
    ensures Sum([b]) == b && Weighted([b]) == b
  {
    assert [b][1..] == [];
  }

  lemma Snoc(s: bytes, b: byte)
    ensures Low(s + [b]) == (Low(s) + b) % 255
    ensures High(s + [b]) == (High(s) + Low(s + [b])) % 255
  {
    hide Sum, Weighted;
    Singleton(b);
    SumAppend(s, [b]);
    WeightedAppend(s, [b]);
    AddResidueLeft(Sum(s), b);
    SnocResidues(Weighted(s), Sum(s), b);
  }

  lemma SnocResidues(w: int, x: int, b: int)
    ensures (w + 1 * x + b) % 255 == (w % 255 + (x + b) % 255) % 255
  {
    AddResidue(w, x + b);
  }

  lemma AddResidueLeft(x: int, y: int)
    ensures (x % 255 + y) % 255 == (x + y) % 255
  {
    AddMultiple(x % 255 + y, x / 255);
  }

  /** Effect of overwriting one byte on the two sums. */
  lemma {:induction false} Overwrite(s: bytes, i: nat, v: byte)
    requires i < |s|
    ensures Sum(s[i := v]) == Sum(s) + (v - s[i])
    ensures Weighted(s[i := v]) == Weighted(s) + (|s| - i) * (v - s[i])
  {
    var a, b := s[..i], s[i + 1..];
    assert s == a + ([s[i]] + b);
    assert s[i := v] == a + ([v] + b);
    SumAppend(a, [s[i]] + b);
    SumAppend(a, [v] + b);
    WeightedAppend(a, [s[i]] + b);
    WeightedAppend(a, [v] + b);
    assert ([s[i]] + b)[1..] == b && ([v] + b)[1..] == b;
    assert (|s| - i) * v - (|s| - i) * s[i] == (|s| - i) * (v - s[i]);
  }

  /** 0x00 and 0xFF are the only two distinct byte values equal modulo 255. */
  predicate BlindPair(x: byte, y: byte) {
    (x == 0 && y == 255) || (x == 255 && y == 0)
  }

  /** Overwriting one byte goes unnoticed exactly for the blind pair. */
  lemma OverwriteUndetected(s: bytes, i: nat, v: byte)
    requires i < |s| && v != s[i]
    ensures Checksum(s[i := v]) == Checksum(s) <==> BlindPair(s[i], v)
  {
    hide Sum, Weighted;
    Overwrite(s, i, v);
    var t := s[i := v];
    SameResidue(Sum(t), Sum(s));
    SameResidue(Weighted(t), Weighted(s));
    if BlindPair(s[i], v) {
      MultipleOf255(v - s[i], |s| - i);
      assert (Weighted(t) - Weighted(s)) % 255 == 0;
    } else {
      assert (v - s[i]) % 255 != 0;
    }
  }

  function Swap(s: bytes, i: nat, j: nat): (t: bytes)
    requires i < j < |s|
    ensures |t| == |s|
  {
    s[i := s[j]][j := s[i]]
  }

  /** Exchanging two bytes at distance d goes unnoticed exactly when 255 | d * (x - y). */
  lemma SwapUndetected(s: bytes, i: nat, j: nat)
    requires i < j < |s|
    ensures Checksum(Swap(s, i, j)) == Checksum(s) <==> ((j - i) * (s[i] as int - s[j] as int)) % 255 == 0
  {
    hide Sum, Weighted;
    SwapTwice(s, i, j, s[i := s[j]], Swap(s, i, j), s[i], s[j]);
    SameResidue(Weighted(s), Weighted(Swap(s, i, j)));
  }

  lemma SwapTwice(s: bytes, i: nat, j: nat, t: bytes, u: bytes, x: byte, y: byte)
    requires i < j < |s| && x == s[i] && y == s[j]
    requires t == s[i := y] && u == t[j := x]
    ensures Sum(u) == Sum(s)
    ensures Weighted(s) - Weighted(u) == (j - i) * (x as int - y as int)
  {
    hide Sum, Weighted;
    Overwrite(s, i, y);
    assert t[j] == y && |t| == |s|;
    Overwrite(t, j, x);
    ShiftWeights(|s|, i, j, x, y);
  }

  lemma ShiftWeights(n: int, i: int, j: int, x: int, y: int)
    ensures (n - i) * (y - x) + (n - j) * (x - y) == -((j - i) * (x - y))
  {
  }
}
