/** Chains of modular operations, and linear forms over them (src/generator.py). */
module ChainArithmetic {
  import opened Prelude

  // -------------------------------------------------------------- congruence

  /** x and y are equal modulo m. */
  predicate Cong(x: int, y: int, m: nat)
    requires 0 < m
  {
    x % m == y % m
  }

  lemma MultipleIsLarge(m: nat, d: int)
    ensures d >= 1 ==> m * d >= m
    ensures d <= -1 ==> m * d <= 0 - m
  {
    if d >= 1 {
      assert m * d == m * (d - 1) + m;
    } else if d <= -1 {
      assert m * d == m * (d + 1) - m;
      assert m * (d + 1) <= 0;
    }
  }

  lemma SmallMultiple(m: nat, d: int)
    requires 0 < m && 0 - m < m * d < m
    ensures d == 0
  {
    MultipleIsLarge(m, d);
  }

  lemma CongFrom(x: int, y: int, k: int, m: nat)
    requires 0 < m && x - y == m * k
    ensures Cong(x, y, m)
  {
    var d := x / m - y / m - k;
    assert m * d == m * (x / m) - m * (y / m) - m * k;
    SmallMultiple(m, d);
  }

  lemma CongMeans(x: int, y: int, m: nat) returns (k: int)
    requires 0 < m && Cong(x, y, m)
    ensures x - y == m * k
  {
    k := x / m - y / m;
    assert m * k == m * (x / m) - m * (y / m);
  }

  lemma CongMod(x: int, m: nat)
    requires 0 < m
    ensures Cong(x % m, x, m)
  {
    CongFrom(x % m, x, 0 - x / m, m);
  }

  lemma CongPlus(x: int, y: int, z: int, m: nat)
    requires 0 < m && Cong(x, y, m)
    ensures Cong(x + z, y + z, m) && Cong(z + x, z + y, m) && Cong(z - x, z - y, m)
  {
    var k := CongMeans(x, y, m);
    CongFrom(x + z, y + z, k, m);
    assert m * -k == -(m * k);
    CongFrom(z - x, z - y, -k, m);
  }

  lemma CongTimes(x: int, y: int, z: int, m: nat)
    requires 0 < m && Cong(x, y, m)
    ensures Cong(x * z, y * z, m) && Cong(z * x, z * y, m)
  {
    var k := CongMeans(x, y, m);
    assert m * (k * z) == m * k * z == (x - y) * z == x * z - y * z;
    CongFrom(x * z, y * z, k * z, m);
  }

  /** Congruent numbers of a range shorter than the modulus are equal. */
  lemma CongInRange(x: int, y: int, low: int, m: nat)
    requires 0 < m && Cong(x, y, m) && low <= x < low + m && low <= y < low + m
    ensures x == y
  {
    var k := CongMeans(x, y, m);
    SmallMultiple(m, k);
  }

  // ------------------------------------------------------------------ chains

  datatype Op = Add | Sub | Mul

  /** One operation of a chain with its constant. */
  datatype Link = Link(op: Op, c: nat)

  function Apply(v: int, l: Link): int {
    match l.op
    case Add => v + l.c
    case Sub => v - l.c
    case Mul => v * l.c
  }

  /** The chain read left to right, over the integers. */
  function Fold(v: int, links: seq<Link>): int {
    if links == [] then v else Apply(Fold(v, links[..|links| - 1]), links[|links| - 1])
  }

  /** A generated chain: its values, and the operations between them. */
  datatype Chain = Chain(values: seq<int>, links: seq<Link>)

  /** The first value is at least 0 and every further one is its operation's result modulo mod. */
  predicate IsChain(data: Chain, mod: nat)
    requires 0 < mod
  {
    && |data.values| == |data.links| + 1 && data.values[0] >= 0
    && forall i :: 0 <= i < |data.links| ==> data.values[i + 1] == Apply(data.values[i], data.links[i]) % mod
  }

  /** The value loop of `generate_chain`, for given random choices. */
  method GenerateChain(first: nat, links: seq<Link>, mod: nat) returns (values: seq<int>)
    requires 0 < mod
    ensures IsChain(Chain(values, links), mod) && values[0] == first
  {
    values := [first];
    for i := 0 to |links|
      invariant |values| == i + 1 && values[0] == first
      invariant forall k :: 0 <= k < i ==> values[k + 1] == Apply(values[k], links[k]) % mod
    {
      var last, c := values[|values| - 1], links[i].c;
      var v;
      match links[i].op {
        case Add => v := (last + c) % mod;
        case Sub => v := (last - c) % mod;
        case Mul => v := (last * c) % mod;
      }
      values := values + [v];
    }
  }

  lemma ApplyCong(x: int, y: int, l: Link, m: nat)
    requires 0 < m && Cong(x, y, m)
    ensures Cong(Apply(x, l), Apply(y, l), m)
  {
    match l.op
    case Add => CongPlus(x, y, l.c, m);
    case Sub => CongPlus(x, y, 0 - l.c, m);
    case Mul => CongTimes(x, y, l.c, m);
  }

  /** Reducing at every step or only at the end is the same. */
  lemma {:induction false} ValuesAreFolds(data: Chain, mod: nat, i: nat, j: nat)
    requires 0 < mod && IsChain(data, mod) && i <= j < |data.values|
    ensures Cong(data.values[j], Fold(data.values[i], data.links[i..j]), mod)
    ensures i < j ==> data.values[j] == Fold(data.values[i], data.links[i..j]) % mod
    decreases j
  {
    if i < j {
      ValuesAreFolds(data, mod, i, j - 1);
      var ls := data.links[i..j];
      assert ls[..|ls| - 1] == data.links[i..j - 1];
      var before := Fold(data.values[i], data.links[i..j - 1]);
      ApplyCong(data.values[j - 1], before, data.links[j - 1], mod);
      CongMod(Apply(before, data.links[j - 1]), mod);
    }
  }

  lemma ValuesInRange(data: Chain, mod: nat, i: nat)
    requires 0 < mod && IsChain(data, mod) && i < |data.values|
    ensures data.values[i] >= 0 && (i > 0 ==> data.values[i] < mod)
  {
    if i > 0 {
      assert data.values[i - 1 + 1] == Apply(data.values[i - 1], data.links[i - 1]) % mod;
    }
  }

  lemma ValuesAreNatural(data: Chain, mod: nat)
    requires 0 < mod && IsChain(data, mod)
    ensures forall i :: 0 <= i < |data.values| ==> data.values[i] >= 0
  {
    forall i: nat | i < |data.values| ensures data.values[i] >= 0 {
      ValuesInRange(data, mod, i);
    }
  }

  // ------------------------------------------------------------ linear forms

  /** a * X + b */
  datatype Linear = Linear(a: int, b: int)

  function At(f: Linear, x: int): int {
    f.a * x + f.b
  }

  /** `_canonicalize` */
  function Canonicalize(f: Linear, mod: nat): Linear
    requires 0 < mod
  {
    var b := f.b % mod;
    Linear(f.a % mod, if b > mod / 2 then b - mod else b)
  }

  predicate Canonical(f: Linear, mod: nat)
    requires 0 < mod
  {
    0 <= f.a < mod && mod / 2 - mod < f.b <= mod / 2
  }

  lemma CanonicalAgrees(f: Linear, x: int, mod: nat)
    requires 0 < mod
    ensures Canonical(Canonicalize(f, mod), mod)
    ensures Cong(At(Canonicalize(f, mod), x), At(f, x), mod)
  {
    var g := Canonicalize(f, mod);
    CongMod(f.a, mod);
    CongTimes(g.a, f.a, x, mod);
    CongPlus(g.a * x, f.a * x, g.b, mod);
    CongMod(f.b, mod);
    if f.b % mod > mod / 2 {
      CongFrom(g.b, f.b % mod, -1, mod);
    }
    CongPlus(g.b, f.b, f.a * x, mod);
  }

  /** Canonical forms that agree modulo mod at every point are equal. */
  lemma CanonicalIsUnique(f: Linear, g: Linear, mod: nat)
    requires 0 < mod && Canonical(f, mod) && Canonical(g, mod)
    requires forall x :: Cong(At(f, x), At(g, x), mod)
    ensures f == g
  {
    assert Cong(At(f, 0), At(g, 0), mod);
    CongInRange(f.b, g.b, mod / 2 - mod + 1, mod);
    assert Cong(At(f, 1), At(g, 1), mod);
    CongPlus(f.a + f.b, g.a + g.b, 0 - f.b, mod);
    assert f.a + f.b + (0 - f.b) == f.a && g.a + g.b + (0 - f.b) == g.a;
    CongInRange(f.a, g.a, 0, mod);
  }

  /** `_canonicalize` picks one representative: two forms get the same one exactly when they agree
      modulo mod at every point. */
  lemma CanonicalizeDecidesAgreement(f: Linear, g: Linear, mod: nat)
    requires 0 < mod
    ensures Canonicalize(f, mod) == Canonicalize(g, mod) <==> forall x :: Cong(At(f, x), At(g, x), mod)
  {
    forall x
      ensures Cong(At(Canonicalize(f, mod), x), At(f, x), mod) && Cong(At(Canonicalize(g, mod), x), At(g, x), mod) {
      CanonicalAgrees(f, x, mod);
      CanonicalAgrees(g, x, mod);
    }
    CanonicalAgrees(f, 0, mod);
    CanonicalAgrees(g, 0, mod);
    if forall x :: Cong(At(f, x), At(g, x), mod) {
      CanonicalIsUnique(Canonicalize(f, mod), Canonicalize(g, mod), mod);
    } else {
      var x :| !Cong(At(f, x), At(g, x), mod);
    }
  }

  lemma {:induction false} FoldFirst(x: int, links: seq<Link>)
    requires links != []
    ensures Fold(x, links) == Fold(Apply(x, links[0]), links[1..])
  {
    var n := |links|;
    if n == 1 {
      assert links[..0] == [] && links[1..] == [];
    } else {
      FoldFirst(x, links[..n - 1]);
      assert links[..n - 1][1..] == links[1..][..n - 2];
    }
  }

  /** The linear form of one operation. */
  function OfLink(l: Link): Linear {
    match l.op
    case Add => Linear(1, l.c)
    case Sub => Linear(1, 0 - l.c)
    case Mul => Linear(l.c, 0)
  }

  lemma OfLinkIsApply(l: Link, x: int)
    ensures At(OfLink(l), x) == Apply(x, l)
  {
    assert l.c * x == x * l.c;
  }

  /** f after g: substituting g's form for f's variable. */
  function After(f: Linear, g: Linear): Linear {
    Linear(f.a * g.a, f.a * g.b + f.b)
  }

  lemma AfterIsComposition(f: Linear, g: Linear, x: int)
    ensures At(After(f, g), x) == At(f, At(g, x))
  {
    assert f.a * g.a * x == f.a * (g.a * x);
    assert f.a * (g.a * x + g.b) == f.a * (g.a * x) + f.a * g.b;
  }

  lemma AtCong(f: Linear, x: int, y: int, m: nat)
    requires 0 < m && Cong(x, y, m)
    ensures Cong(At(f, x), At(f, y), m)
  {
    CongTimes(x, y, f.a, m);
    CongPlus(f.a * x, f.a * y, f.b, m);
  }

  /** The linear form of a run of operations. */
  function OfLinks(links: seq<Link>): Linear {
    if links == [] then Linear(1, 0) else After(OfLinks(links[1..]), OfLink(links[0]))
  }

  lemma {:induction false} OfLinksIsFold(links: seq<Link>, x: int)
    ensures At(OfLinks(links), x) == Fold(x, links)
  {
    if links != [] {
      AfterIsComposition(OfLinks(links[1..]), OfLink(links[0]), x);
      OfLinkIsApply(links[0], x);
      OfLinksIsFold(links[1..], Apply(x, links[0]));
      FoldFirst(x, links);
    }
  }

  /** The form is congruent to the fold of a run of operations at every point. */
  ghost predicate Computes(f: Linear, links: seq<Link>, mod: nat)
    requires 0 < mod
  {
    forall x :: Cong(At(f, x), Fold(x, links), mod)
  }

  /** The canonical linear form of a run of operations. */
  ghost predicate IsFormOf(f: Linear, links: seq<Link>, mod: nat)
    requires 0 < mod
  {
    Canonical(f, mod) && Computes(f, links, mod)
  }

  lemma FormIsUnique(f: Linear, g: Linear, links: seq<Link>, mod: nat)
    requires 0 < mod && IsFormOf(f, links, mod) && IsFormOf(g, links, mod)
    ensures f == g
  {
    forall x ensures Cong(At(f, x), At(g, x), mod) {
      assert Cong(At(f, x), Fold(x, links), mod) && Cong(At(g, x), Fold(x, links), mod);
    }
    CanonicalIsUnique(f, g, mod);
  }

  lemma {:induction false} FoldSplit(x: int, left: seq<Link>, right: seq<Link>)
    ensures Fold(x, left + right) == Fold(Fold(x, left), right)
    decreases |right|
  {
    if right == [] {
      assert left + right == left;
    } else {
      assert (left + right)[..|left + right| - 1] == left + right[..|right| - 1];
      FoldSplit(x, left, right[..|right| - 1]);
    }
  }

  /** The forms of two runs, one substituted in the other and reduced, are the form of both. */
  lemma FormOfBoth(f: Linear, g: Linear, left: seq<Link>, right: seq<Link>, mod: nat)
    requires 0 < mod && Computes(f, left, mod) && Computes(g, right, mod)
    ensures IsFormOf(Canonicalize(After(g, f), mod), left + right, mod)
  {
    var h := After(g, f);
    CanonicalAgrees(h, 0, mod);
    forall x ensures Cong(At(Canonicalize(h, mod), x), Fold(x, left + right), mod) {
      FoldSplit(x, left, right);
      CanonicalAgrees(h, x, mod);
      AfterIsComposition(g, f, x);
      AtCong(g, At(f, x), Fold(x, left), mod);
      assert Cong(At(g, Fold(x, left)), Fold(Fold(x, left), right), mod);
    }
  }

  lemma FormOfOne(l: Link, mod: nat)
    requires 0 < mod
    ensures Computes(OfLink(l), [l], mod) && IsFormOf(Canonicalize(OfLink(l), mod), [l], mod)
  {
    CanonicalAgrees(OfLink(l), 0, mod);
    forall x ensures At(OfLink(l), x) == Fold(x, [l]) && Cong(At(Canonicalize(OfLink(l), mod), x), Fold(x, [l]), mod) {
      assert [l][..0] == [] && Fold(x, [l]) == Apply(x, l);
      OfLinkIsApply(l, x);
      CanonicalAgrees(OfLink(l), x, mod);
    }
  }

  lemma FormOfLinks(links: seq<Link>, mod: nat)
    requires 0 < mod
    ensures IsFormOf(Canonicalize(OfLinks(links), mod), links, mod)
  {
    CanonicalAgrees(OfLinks(links), 0, mod);
    forall x ensures Cong(At(Canonicalize(OfLinks(links), mod), x), Fold(x, links), mod) {
      CanonicalAgrees(OfLinks(links), x, mod);
      OfLinksIsFold(links, x);
    }
  }
}
