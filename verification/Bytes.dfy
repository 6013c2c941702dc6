/** Bytes, optional values and byte-string helpers shared by every component. */
module Bytes {

  type Byte = b: int | 0 <= b < 256

  datatype Option<+T> = None | Some(value: T)

  function Min(a: int, b: int): (m: int)
    ensures m <= a && m <= b && (m == a || m == b)
  {
    if a < b then a else b
  }

  function B2N(b: bool): nat {
    if b then 1 else 0
  }

  /** The list without `x`, in order. */
  function Without(q: seq<nat>, x: nat): (r: seq<nat>)
    ensures forall y :: y in r <==> y in q && y != x
  {
    if q == [] then []
    else
      var last, front := q[|q| - 1], q[..|q| - 1];
      assert q == front + [last];
      if last == x then Without(front, x) else Without(front, x) + [last]
  }

  predicate Distinct(q: seq<nat>) {
    forall i, j :: 0 <= i < j < |q| ==> q[i] != q[j]
  }

  lemma {:induction false} WithoutDistinct(q: seq<nat>, x: nat)
    requires Distinct(q)
    ensures Distinct(Without(q, x))
  {
    if q != [] {
      var last, front := q[|q| - 1], q[..|q| - 1];
      WithoutDistinct(front, x);
      assert last !in front by {
        assert forall y <- front :: exists i :: 0 <= i < |front| && q[i] == y;
      }
      assert Without(q, x) == if last == x then Without(front, x) else Without(front, x) + [last];
    }
  }

  /** Concatenation of a list of byte strings. */
  function Flat(q: seq<seq<Byte>>): seq<Byte> {
    if q == [] then [] else q[0] + Flat(q[1..])
  }

  lemma Assoc(a: seq<Byte>, b: seq<Byte>, c: seq<Byte>)
    ensures (a + b) + c == a + (b + c)
    ensures [] + a == a
  {}

  lemma TakeJoin(s: seq<Byte>, i: nat, j: nat)
    requires i + j <= |s|
    ensures s[..i] + s[i..][..j] == s[..i + j]
  {
    assert s[i..][..j] == s[i..i + j];
  }

  /** The bytes of a literal. */
  function Ascii(s: string): (b: seq<Byte>)
    ensures |b| == |s|
  {
    seq(|s|, i requires 0 <= i < |s| => if s[i] as int < 256 then s[i] as int else 0)
  }

  // ---------------------------------------------------------------- little-endian numbers

  function Pow256(k: nat): (p: nat)
    ensures p > 0
  {
    if k == 0 then 1 else 256 * Pow256(k - 1)
  }

  /** The `k` low bytes of `n`, lowest first. */
  function Le(n: nat, k: nat): (s: seq<Byte>)
    ensures |s| == k
  {
    if k == 0 then [] else [n % 256] + Le(n / 256, k - 1)
  }

  function UnLe(s: seq<Byte>): nat {
    if s == [] then 0 else (s[0] as int) + 256 * UnLe(s[1..])
  }

  /** Lowest first: the byte at `i` counts 256 to the `i`. */
  lemma {:induction false} LeDigit(n: nat, k: nat, i: nat)
    requires i < k
    ensures Le(n, k)[i] == n / Pow256(i) % 256
  {
    if i > 0 {
      LeDigit(n / 256, k - 1, i - 1);
      DivTwice(n, Pow256(i - 1));
    }
  }

  lemma DivTwice(n: nat, p: nat)
    requires p > 0
    ensures n / (256 * p) == n / 256 / p
  {
    var q, r := n / 256 / p, n / 256 % p;
    assert n == 256 * (p * q + r) + n % 256;
    assert 256 * (p * q + r) == (256 * p) * q + 256 * r;
    assert 0 <= 256 * r + n % 256 < 256 * p by { assert r <= p - 1; assert 256 * r <= 256 * (p - 1); }
    DivUnique(n, 256 * p, q, 256 * r + n % 256);
  }

  /** What the fields of two and of four bytes say. */
  lemma UnLeIs(s: seq<Byte>)
    ensures |s| == 2 ==> UnLe(s) == s[0] as int + 0x100 * s[1] as int
    ensures |s| == 4 ==>
      UnLe(s) == s[0] as int + 0x100 * s[1] as int + 0x1_0000 * s[2] as int + 0x100_0000 * s[3] as int
  {
    if |s| == 2 {
      assert s[1..][1..] == [];
    } else if |s| == 4 {
      assert s[1..][1..] == s[2..] && s[2..][1..] == s[3..] && s[3..][1..] == [];
      assert UnLe(s[3..]) == s[3] as int;
    }
  }

  lemma ModSplit(n: nat, p: nat)
    requires p > 0
    ensures n % (256 * p) == n % 256 + 256 * ((n / 256) % p)
  {
    var q, r := (n / 256) / p, (n / 256) % p;
    assert n == 256 * (p * q + r) + n % 256;
    assert 256 * (p * q + r) == (256 * p) * q + 256 * r;
    assert 0 <= 256 * r + n % 256 < 256 * p by { assert r <= p - 1; assert 256 * r <= 256 * (p - 1); }
    DivUnique(n, 256 * p, q, 256 * r + n % 256);
  }

  lemma DivUnique(n: nat, d: nat, q: nat, r: nat)
    requires d > 0 && n == d * q + r && r < d
    ensures n % d == r && n / d == q
  {
    var q1, r1 := n / d, n % d;
    assert d * (q1 - q) == r - r1;
    Nearer(d, q1 - q);
  }

  /** A multiple of `d` strictly between -d and d is zero. */
  lemma Nearer(d: int, k: int)
    requires d > 0 && -d < d * k < d
    ensures k == 0
  {
    assert k >= 1 ==> d * k == d + d * (k - 1);
    assert k <= -1 ==> d * k == d * (k + 1) - d;
  }

  lemma {:induction false} LeRoundTrip(n: nat, k: nat)
    ensures UnLe(Le(n, k)) == n % Pow256(k)
  {
    if k > 0 {
      LeRoundTrip(n / 256, k - 1);
      ModSplit(n, Pow256(k - 1));
      assert Le(n, k)[1..] == Le(n / 256, k - 1);
    }
  }

  lemma {:induction false} UnLeBound(s: seq<Byte>)
    ensures UnLe(s) < Pow256(|s|)
  {
    if s != [] {
      UnLeBound(s[1..]);
    }
  }

  lemma Powers()
    ensures Pow256(1) == 0x100 && Pow256(2) == 0x1_0000 && Pow256(4) == 0x1_0000_0000
  {
    assert Pow256(3) == 256 * Pow256(2);
  }

  // ---------------------------------------------------------------- C strings and zeroed buffers

  function Zeros(n: nat): (s: seq<Byte>)
    ensures |s| == n && forall i :: 0 <= i < n ==> s[i] == 0
  {
    seq(n, _ => 0)
  }

  /** A zeroed buffer of `p` bytes with `s` copied to its start. */
  function Pad(s: seq<Byte>, p: nat): (r: seq<Byte>)
    requires |s| <= p
    ensures |r| == p && r[..|s|] == s && forall i :: |s| <= i < p ==> r[i] == 0
  {
    s + Zeros(p - |s|)
  }

  /** The C string at the start of `s`. */
  function CString(s: seq<Byte>): (r: seq<Byte>)
    ensures |r| <= |s| && r == s[..|r|]
    ensures |r| < |s| ==> s[|r|] == 0
  {
    if s == [] || s[0] == 0 then [] else [s[0]] + CString(s[1..])
  }

  lemma {:induction false} CStringPlain(s: seq<Byte>)
    ensures forall i :: 0 <= i < |CString(s)| ==> CString(s)[i] != 0
  {
    if s != [] && s[0] != 0 {
      CStringPlain(s[1..]);
    }
  }

  lemma {:induction false} CStringIs(s: seq<Byte>, k: nat)
    requires k <= |s| && (k < |s| ==> s[k] == 0) && forall i :: 0 <= i < k ==> s[i] != 0
    ensures CString(s) == s[..k]
  {
    if k > 0 {
      CStringIs(s[1..], k - 1);
      assert s[..k] == [s[0]] + s[1..][..k - 1];
    }
  }
}
