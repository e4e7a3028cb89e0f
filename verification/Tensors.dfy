/** The torch operations on rows that the batch code and the checkpoint mergers share. */
module Tensors {
  /** `torch.cat(xs, dim=0)` */
  function Cat<T>(xs: seq<seq<T>>): seq<T> {
    if xs == [] then [] else Cat(xs[..|xs| - 1]) + xs[|xs| - 1]
  }

  /** Rows of `n` blocks. */
  function Rows(n: nat, size: nat): nat {
    n * size
  }

  /** `x.view([n, size, -1])`: n blocks of `size` rows. */
  function Blocks<T>(x: seq<T>, n: nat, size: nat): (bs: seq<seq<T>>)
    requires |x| == Rows(n, size)
    ensures |bs| == n && forall i :: 0 <= i < n ==> |bs[i]| == size
    decreases n
  {
    if n == 0 then []
    else
      Unfold(n, size);
      [x[..size]] + Blocks(x[size..], n - 1, size)
  }

  lemma {:induction false} Unfold(n: nat, size: nat)
    requires n > 0
    ensures Rows(n, size) == Rows(n - 1, size) + size
  {
  }

  /** `torch.split(x, size)` for a positive size: the last piece may be shorter. */
  function Pieces<T>(x: seq<T>, size: nat): seq<seq<T>>
    requires size > 0
    decreases |x|
  {
    if |x| <= size then [x] else [x[..size]] + Pieces(x[size..], size)
  }

  /** `x.chunk(n)`: pieces of ceil(|x| / n) rows, so there may be fewer than n of them. */
  function Chunk<T>(x: seq<T>, n: nat): seq<seq<T>>
    requires n > 0
  {
    if x == [] then seq(n, _ => []) else
    assert |x| + n - 1 >= n;
    Pieces(x, (|x| + n - 1) / n)
  }

  // ---------- arithmetic of equal shares ----------

  lemma {:induction false} CancelLess(a: int, b: int, n: int)
    requires n > 0 && a * n < b * n
    ensures a < b
  {
    if a >= b {
      Monotone(b, a, n);
      assert false;
    }
  }

  lemma {:induction false} Monotone(a: int, b: int, n: int)
    requires n >= 0 && a <= b
    ensures a * n <= b * n
  {
    assert (b - a) * n >= 0;
  }

  lemma {:induction false} DivMul(a: nat, b: nat)
    requires b > 0
    ensures a * b / b == a && a * b % b == 0
  {
    var p := a * b;
    assert p / b * b <= p < (p / b + 1) * b;
    CancelLess(p / b, a + 1, b);
    CancelLess(a, p / b + 1, b);
  }

  lemma {:induction false} CeilMul(a: nat, b: nat)
    requires b > 0
    ensures (b * a + b - 1) / b == a
  {
    var p := b * a + b - 1;
    assert p / b * b <= p < (p / b + 1) * b;
    assert (a + 1) * b == b * a + b && a * b == b * a;
    CancelLess(p / b, a + 1, b);
    CancelLess(a, p / b + 1, b);
  }

  lemma {:induction false} Assoc(a: nat, b: nat, c: nat)
    ensures a * (b * c) == (a * b) * c
  {
  }

  // ---------- chunks and blocks ----------

  lemma {:induction false} PiecesAreBlocks<T>(x: seq<T>, n: nat, size: nat)
    requires n > 0 && size > 0 && |x| == Rows(n, size)
    ensures Pieces(x, size) == Blocks(x, n, size)
    decreases n
  {
    Unfold(n, size);
    if n == 1 {
      assert x[..size] == x && x[size..] == [];
      assert Blocks(x[size..], 0, size) == [];
    } else {
      Unfold(n - 1, size);
      PiecesAreBlocks(x[size..], n - 1, size);
    }
  }

  lemma {:induction false} EmptyBlocks<T>(x: seq<T>, n: nat)
    requires x == []
    ensures Blocks(x, n, 0) == seq(n, _ => [])
    decreases n
  {
    if n > 0 {
      EmptyBlocks(x[0..], n - 1);
    }
  }

  lemma {:induction false} FirstChunkLength<T>(x: seq<T>, n: nat)
    requires n > 0
    ensures |Chunk(x, n)| > 0 && |Chunk(x, n)[0]| * n >= |x|
  {
    if x != [] {
      var c := (|x| + n - 1) / n;
      assert |x| + n - 1 == c * n + (|x| + n - 1) % n;
      if |x| <= c {
        Unfold(n, |x|);
      }
    }
  }

  lemma {:induction false} CatCons<T>(x: seq<T>, xs: seq<seq<T>>)
    ensures Cat([x] + xs) == x + Cat(xs)
  {
    if xs == [] {
      assert [x] + xs == [x] && [x][..0] == [];
    } else {
      CatCons(x, xs[..|xs| - 1]);
      assert ([x] + xs)[..|xs|] == [x] + xs[..|xs| - 1];
    }
  }

  lemma {:induction false} CatOfBlocks<T>(x: seq<T>, n: nat, size: nat)
    requires |x| == Rows(n, size)
    ensures Cat(Blocks(x, n, size)) == x
    decreases n
  {
    if n > 0 {
      Unfold(n, size);
      CatOfBlocks(x[size..], n - 1, size);
      CatCons(x[..size], Blocks(x[size..], n - 1, size));
    }
  }

  lemma {:induction false} BlocksOfCat<T>(bs: seq<seq<T>>, size: nat)
    requires forall i :: 0 <= i < |bs| ==> |bs[i]| == size
    ensures |Cat(bs)| == Rows(|bs|, size)
    ensures Blocks(Cat(bs), |bs|, size) == bs
  {
    if bs != [] {
      assert bs == [bs[0]] + bs[1..];
      CatCons(bs[0], bs[1..]);
      BlocksOfCat(bs[1..], size);
      Unfold(|bs|, size);
      assert Cat(bs)[..size] == bs[0] && Cat(bs)[size..] == Cat(bs[1..]);
    }
  }

  /** Row j of block g. */
  lemma {:induction false} BlocksAt<T>(x: seq<T>, n: nat, size: nat, g: nat, j: nat)
    requires |x| == Rows(n, size) && g < n && j < size
    ensures g * size + j < |x| && Blocks(x, n, size)[g][j] == x[g * size + j]
    decreases n
  {
    Unfold(n, size);
    if g > 0 {
      assert g * size == (g - 1) * size + size;
      BlocksAt(x[size..], n - 1, size, g - 1, j);
    } else {
      assert n * size >= size;
    }
  }

  /** Every piece but the last has `size` rows, and the last one no more. */
  lemma {:induction false} PieceSizes<T>(x: seq<T>, size: nat)
    requires size > 0 && x != []
    ensures var ps := Pieces(x, size);
            && ps != [] && 0 < |ps[|ps| - 1]| <= size
            && forall i :: 0 <= i < |ps| - 1 ==> |ps[i]| == size
    decreases |x|
  {
    if |x| > size {
      PieceSizes(x[size..], size);
    }
  }

  lemma {:induction false} CatOfPieces<T>(x: seq<T>, size: nat)
    requires size > 0
    ensures Cat(Pieces(x, size)) == x
    decreases |x|
  {
    if |x| <= size {
      assert [x][..0] == [];
    } else {
      CatOfPieces(x[size..], size);
      CatCons(x[..size], Pieces(x[size..], size));
    }
  }

  /** An even number of rows is chunked into blocks of equal size. */
  lemma {:induction false} EvenChunks<T>(x: seq<T>, n: nat)
    requires n > 0 && |x| % n == 0
    ensures |x| == Rows(n, |x| / n)
    ensures Chunk(x, n) == Blocks(x, n, |x| / n)
  {
    var size := |x| / n;
    assert |x| == n * size;
    if x == [] {
      EmptyBlocks(x, n);
    } else {
      CeilMul(size, n);
      PiecesAreBlocks(x, n, size);
    }
  }

  lemma {:induction false} PiecesCount<T>(x: seq<T>, size: nat, n: nat)
    requires size > 0 && n > 0 && |x| <= Rows(n, size)
    ensures |Pieces(x, size)| <= n
    ensures |Pieces(x, size)| == n <==> n == 1 || |x| > Rows(n - 1, size)
    decreases n
  {
    Unfold(n, size);
    if |x| > size {
      assert n > 1;
      Unfold(n - 1, size);
      PiecesCount(x[size..], size, n - 1);
    } else if n > 1 {
      Unfold(n - 1, size);
    }
  }

  /** Chunking gives as many pieces as asked for exactly when the rows reach into the last one. */
  lemma {:induction false} ChunkCount<T>(x: seq<T>, n: nat)
    requires n > 0
    ensures |Chunk(x, n)| <= n
    ensures |Chunk(x, n)| == n <==> x == [] || n == 1 || |x| > Rows(n - 1, (|x| + n - 1) / n)
  {
    if x != [] {
      var c := (|x| + n - 1) / n;
      assert |x| + n - 1 == c * n + (|x| + n - 1) % n && c * n == Rows(n, c);
      PiecesCount(x, c, n);
    }
  }
}
