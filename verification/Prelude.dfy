/** Small vocabulary shared by the models. */
module Prelude {

  datatype Option<+T> = None | Some(value: T)

  datatype Result<+T, +E> = Ok(value: T) | Err(error: E)

  type Positive = n: nat | 0 < n witness 1

  /** The number of elements of a tensor of the given shape. */
  function Numel(shape: seq<nat>): nat {
    if shape == [] then 1 else shape[0] * Numel(shape[1..])
  }

  function Min(a: int, b: int): int {
    if a <= b then a else b
  }

  lemma MulMono(x: int, y: int, b: nat)
    ensures x <= y ==> x * b <= y * b
  {
  }

  lemma DivUnique(x: nat, d: nat, q: nat, r: nat)
    requires 0 < d && x == d * q + r && r < d
    ensures x / d == q && x % d == r
  {
    var p := x / d;
    assert x == d * p + x % d;
    assert d * (p - q) == r - x % d;
    MulMono(p + 1, q, d);
    MulMono(q + 1, p, d);
  }

  lemma DivOfMultiple(d: nat, q: nat)
    requires 0 < d
    ensures (d * q) / d == q && (d * q) % d == 0
  {
    DivUnique(d * q, d, q, 0);
  }

  lemma ModOfItself(d: nat)
    requires 0 < d
    ensures d % d == 0
  {
    DivUnique(d, d, 1, 0);
  }

  lemma ModOfSum(x: nat, y: nat, d: nat)
    requires 0 < d && x % d == 0 && y % d == 0
    ensures (x + y) % d == 0
  {
    DivUnique(x + y, d, x / d + y / d, 0);
  }

  lemma ModOfDifference(x: nat, y: nat, d: nat)
    requires 0 < d && y <= x && x % d == 0 && y % d == 0
    ensures (x - y) % d == 0
  {
    MulMono(y / d, x / d, d);
    MulMono(x / d + 1, y / d, d);
    DivUnique(x - y, d, x / d - y / d, 0);
  }

  lemma ModOfMultiple(x: nat, d: nat, m: nat)
    requires 0 < d && 0 < m && x % d == 0 && d % m == 0
    ensures x % m == 0
  {
    var p, q := x / d, d / m;
    assert x == p * d && d == q * m;
    MulAssociates(p, q, m);
    DivUnique(x, m, p * q, 0);
  }

  lemma MulAssociates(x: int, y: int, z: int)
    ensures x * (y * z) == x * y * z
  {
  }

  /** a / b rounded up. */
  function CeilDiv(a: nat, b: nat): nat
    requires 0 < b
  {
    (a + b - 1) / b
  }

  lemma CeilDivBounds(a: nat, b: nat)
    requires 0 < b
    ensures CeilDiv(a, b) * b >= a
    ensures 0 < a ==> 0 < CeilDiv(a, b) && (CeilDiv(a, b) - 1) * b < a
  {
    var q := CeilDiv(a, b);
    assert a + b - 1 == q * b + (a + b - 1) % b;
    assert (q - 1) * b == q * b - b;
    MulMono(q, 0, b);
  }

  lemma CeilDivIs(a: nat, b: nat, q: nat)
    requires 0 < b && q * b >= a && (0 < q ==> (q - 1) * b < a)
    ensures CeilDiv(a, b) == q
  {
    CeilDivBounds(a, b);
    var p := CeilDiv(a, b);
    MulMono(p + 1, q, b);
    MulMono(q + 1, p, b);
  }

  lemma CeilDivIsLeast(a: nat, b: nat, m: nat)
    requires 0 < b
    ensures CeilDiv(a, b) <= m <==> a <= m * b
  {
    var q := CeilDiv(a, b);
    assert a + b - 1 == q * b + (a + b - 1) % b;
    if q <= m {
      assert q * b <= m * b;
    } else {
      assert (m + 1) * b <= q * b;
      assert (m + 1) * b == m * b + b;
    }
  }

  lemma TakeOneMore<T>(s: seq<T>, n: nat)
    requires 0 < n <= |s|
    ensures s[..n] == s[..n - 1] + [s[n - 1]]
  {
  }

  /** The numbers 0 .. n-1, and how many they are. */
  function Indices(n: nat): (r: set<nat>)
    ensures forall i: nat :: i in r <==> i < n
    ensures |r| == n
  {
    if n == 0 then {} else Indices(n - 1) + {n - 1}
  }
}
