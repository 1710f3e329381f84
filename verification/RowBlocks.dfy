/** Matrices as sequences of rows: blocks of equal size, and the chunks `tensor.chunk` makes. */
module RowBlocks {
  import opened Prelude

  function Concat<T>(xs: seq<seq<T>>): seq<T> {
    if xs == [] then [] else xs[0] + Concat(xs[1..])
  }

  lemma {:induction false} ConcatAppend<T>(xs: seq<seq<T>>, ys: seq<seq<T>>)
    ensures Concat(xs + ys) == Concat(xs) + Concat(ys)
  {
    if xs == [] {
      assert xs + ys == ys;
    } else {
      assert (xs + ys)[1..] == xs[1..] + ys;
      ConcatAppend(xs[1..], ys);
    }
  }

  ghost predicate Uniform<T>(xs: seq<seq<T>>, w: nat) {
    forall j :: 0 <= j < |xs| ==> |xs[j]| == w
  }

  lemma OneBlockLess(n: nat, w: nat)
    requires 0 < n
    ensures n * w == w + (n - 1) * w && w <= n * w
  {
    MulMono(0, n - 1, w);
  }

  /** The rows as n blocks of w rows: `view([n, w, ...])`. */
  function Blocks<T>(rows: seq<T>, n: nat, w: nat): (r: seq<seq<T>>)
    requires |rows| == n * w
    ensures |r| == n && Uniform(r, w)
    decreases n
  {
    if n == 0 then []
    else
      OneBlockLess(n, w);
      [rows[..w]] + Blocks(rows[w..], n - 1, w)
  }

  /** Block j holds rows j*w .. j*w + w - 1. */
  lemma {:induction false} BlockAt<T>(rows: seq<T>, n: nat, w: nat, j: nat)
    requires |rows| == n * w && j < n
    ensures 0 <= j * w && j * w + w <= |rows| && Blocks(rows, n, w)[j] == rows[j * w..j * w + w]
    decreases n
  {
    OneBlockLess(n, w);
    if j > 0 {
      BlockAt(rows[w..], n - 1, w, j - 1);
      OneBlockLess(j, w);
    }
  }

  lemma {:induction false} BlocksOfConcat<T>(xs: seq<seq<T>>, w: nat)
    requires Uniform(xs, w)
    ensures |Concat(xs)| == |xs| * w && Blocks(Concat(xs), |xs|, w) == xs
  {
    if xs != [] {
      BlocksOfConcat(xs[1..], w);
      OneBlockLess(|xs|, w);
      assert Concat(xs)[..w] == xs[0] && Concat(xs)[w..] == Concat(xs[1..]);
    }
  }

  lemma {:induction false} ConcatOfBlocks<T>(rows: seq<T>, n: nat, w: nat)
    requires |rows| == n * w
    ensures Concat(Blocks(rows, n, w)) == rows
    decreases n
  {
    if n > 0 {
      OneBlockLess(n, w);
      ConcatOfBlocks(rows[w..], n - 1, w);
      assert Blocks(rows, n, w)[1..] == Blocks(rows[w..], n - 1, w);
    }
  }

  lemma {:induction false} BlocksAppend<T>(a: seq<T>, m: nat, b: seq<T>, n: nat, w: nat)
    requires |a| == m * w && |b| == n * w
    ensures |a + b| == (m + n) * w && Blocks(a + b, m + n, w) == Blocks(a, m, w) + Blocks(b, n, w)
    decreases m
  {
    assert (m + n) * w == m * w + n * w;
    if m == 0 {
      assert a + b == b;
    } else {
      OneBlockLess(m, w);
      OneBlockLess(m + n, w);
      BlocksAppend(a[w..], m - 1, b, n, w);
      assert (a + b)[w..] == a[w..] + b && (a + b)[..w] == a[..w];
    }
  }

  /** Rows lo .. hi-1 of every block. */
  function Slices<T>(xs: seq<seq<T>>, w: nat, lo: nat, hi: nat): (r: seq<seq<T>>)
    requires Uniform(xs, w) && lo <= hi <= w
    ensures |r| == |xs| && Uniform(r, hi - lo)
  {
    seq(|xs|, j requires 0 <= j < |xs| => xs[j][lo..hi])
  }

  lemma SlicesAppend<T>(xs: seq<seq<T>>, ys: seq<seq<T>>, w: nat, lo: nat, hi: nat)
    requires Uniform(xs, w) && Uniform(ys, w) && lo <= hi <= w
    ensures Uniform(xs + ys, w) && Slices(xs + ys, w, lo, hi) == Slices(xs, w, lo, hi) + Slices(ys, w, lo, hi)
  {
  }

  lemma ConcatLast<T>(xs: seq<seq<T>>, t: nat)
    requires t < |xs|
    ensures Concat(xs[..t + 1]) == Concat(xs[..t]) + xs[t]
  {
    ConcatAppend(xs[..t], [xs[t]]);
    assert xs[..t + 1] == xs[..t] + [xs[t]] && [xs[t]][1..] == [];
  }

  function ChunksOf<T>(rows: seq<T>, size: nat): seq<seq<T>>
    requires 0 < size
    decreases |rows|
  {
    if |rows| <= size then [rows] else [rows[..size]] + ChunksOf(rows[size..], size)
  }

  lemma {:induction false} ChunksOfCount<T>(rows: seq<T>, size: nat)
    requires 0 < size && rows != []
    ensures |ChunksOf(rows, size)| == CeilDiv(|rows|, size)
    decreases |rows|
  {
    if |rows| <= size {
      CeilDivIs(|rows|, size, 1);
    } else {
      ChunksOfCount(rows[size..], size);
      var q := CeilDiv(|rows| - size, size);
      CeilDivBounds(|rows| - size, size);
      assert (q + 1) * size == q * size + size && q * size == (q - 1) * size + size;
      CeilDivIs(|rows|, size, q + 1);
    }
  }

  /** Chunk i holds the rows from i * size on. */
  lemma {:induction false} ChunksOfAt<T>(rows: seq<T>, size: nat, i: nat)
    requires 0 < size && i < |ChunksOf(rows, size)|
    ensures 0 <= i * size <= |rows| && ChunksOf(rows, size)[i] == rows[i * size..Min(i * size + size, |rows|)]
    decreases i
  {
    if |rows| > size && i > 0 {
      ChunksOfAt(rows[size..], size, i - 1);
      OneBlockLess(i, size);
    }
  }

  /** `tensor.chunk(n)`: chunks of ceil(rows / n) rows, the last one smaller, perhaps fewer than n. */
  function Chunk<T>(rows: seq<T>, n: nat): seq<seq<T>>
    requires 0 < n
  {
    if rows == [] then seq(n, i => []) else CeilDivBounds(|rows|, n); ChunksOf(rows, CeilDiv(|rows|, n))
  }

  lemma {:induction false} ChunksAreBlocks<T>(rows: seq<T>, n: nat, w: nat)
    requires 0 < n && 0 < w && |rows| == n * w
    ensures ChunksOf(rows, w) == Blocks(rows, n, w)
    decreases n
  {
    OneBlockLess(n, w);
    if n == 1 {
      assert rows[..w] == rows && rows[w..] == [] && Blocks(rows[w..], 0, w) == [];
    } else {
      OneBlockLess(n - 1, w);
      ChunksAreBlocks(rows[w..], n - 1, w);
    }
  }

  lemma {:induction false} EmptyBlocks<T>(rows: seq<T>, n: nat)
    requires rows == []
    ensures Blocks(rows, n, 0) == seq(n, i => [])
    decreases n
  {
    if n > 0 {
      EmptyBlocks(rows, n - 1);
    }
  }

  lemma ChunkOfWholeBlocks<T>(rows: seq<T>, n: nat, w: nat)
    requires 0 < n && |rows| == n * w
    ensures Chunk(rows, n) == Blocks(rows, n, w)
  {
    OneBlockLess(n, w);
    if w == 0 {
      EmptyBlocks(rows, n);
    } else {
      CeilDivIs(|rows|, n, w);
      ChunksAreBlocks(rows, n, w);
    }
  }

  /** When n chunks of w rows do not use up the rows, the first chunk is longer than w. */
  lemma FirstChunkTooLong<T>(rows: seq<T>, n: nat, w: nat)
    requires 0 < n && n * w < |rows|
    ensures |Chunk(rows, n)| > 0 && |Chunk(rows, n)[0]| > w
  {
    var size := |rows|;
    OneBlockLess(n, w);
    OneBlockLess(n, size);
    assert w * n == n * w && size * n == n * size;
    CeilDivBounds(size, n);
    CeilDivIsLeast(size, n, w);
    CeilDivIsLeast(size, n, size);
  }
}
