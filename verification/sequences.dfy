/**
 * Sequence helpers shared by the splitter: concatenation of nested lists,
 * first occurrence, insertion-ordered deduplication (the behaviour of a
 * JavaScript `Set` read back with `Array.from`) and fixed-size batching.
 */
module Sequences {

  /** Concatenation of a list of lists, in order. */
  function Flatten<T>(xss: seq<seq<T>>): seq<T>
    decreases |xss|
  {
    if |xss| == 0 then [] else xss[0] + Flatten(xss[1..])
  }

  lemma {:induction false} FlattenAppend<T>(a: seq<seq<T>>, b: seq<seq<T>>)
    ensures Flatten(a + b) == Flatten(a) + Flatten(b)
    decreases |a|
  {
    if |a| == 0 {
      assert a + b == b;
    } else {
      assert (a + b)[1..] == a[1..] + b;
      FlattenAppend(a[1..], b);
    }
  }

  /** No element occurs twice. */
  predicate Distinct<T(==)>(xs: seq<T>) {
    forall i, j :: 0 <= i < j < |xs| ==> xs[i] != xs[j]
  }

  /** Position of the first occurrence of `x` in `xs`. */
  function FirstIndex<T(==)>(xs: seq<T>, x: T): (i: nat)
    requires x in xs
    ensures i < |xs| && xs[i] == x
    ensures forall j :: 0 <= j < i ==> xs[j] != x
    decreases |xs|
  {
    if xs[0] == x then 0 else 1 + FirstIndex(xs[1..], x)
  }

  /** Appending to a list does not move the first occurrence of an element already in it. */
  lemma FirstIndexInPrefix<T>(xs: seq<T>, y: T, x: T)
    requires x in xs
    ensures FirstIndex(xs + [y], x) == FirstIndex(xs, x)
  {
    var i := FirstIndex(xs, x);
    var k := FirstIndex(xs + [y], x);
    assert (xs + [y])[i] == x;
    assert k <= i;
    assert (xs + [y])[k] == xs[k];
  }

  /**
   * Every element of `xs` once, in the order of first occurrence: what a
   * `Set` filled from `xs` by `add` yields when read back in iteration order.
   */
  function Dedup(xs: seq<string>): (r: seq<string>)
    ensures forall x :: x in r <==> x in xs
    ensures Distinct(r)
    ensures |r| <= |xs|
    decreases |xs|
  {
    if |xs| == 0 then []
    else
      var init := xs[..|xs| - 1];
      var last := xs[|xs| - 1];
      assert xs == init + [last];
      var d := Dedup(init);
      if last in d then d else d + [last]
  }

  /** Dedup keeps first-seen order: earlier in the result means seen earlier in the input. */
  lemma {:induction false} DedupFirstSeenOrder(xs: seq<string>)
    ensures forall i, j :: 0 <= i < j < |Dedup(xs)| ==>
      FirstIndex(xs, Dedup(xs)[i]) < FirstIndex(xs, Dedup(xs)[j])
    decreases |xs|
  {
    if |xs| != 0 {
      var init := xs[..|xs| - 1];
      var last := xs[|xs| - 1];
      assert xs == init + [last];
      var d := Dedup(init);
      DedupFirstSeenOrder(init);
      forall y | y in d
        ensures FirstIndex(xs, y) == FirstIndex(init, y)
      {
        FirstIndexInPrefix(init, last, y);
      }
      if last !in d {
        assert last !in init;
        assert FirstIndex(xs, last) == |init|;
      }
    }
  }

  /** Dedup of an extended list extends the dedup of the prefix. */
  lemma DedupSnoc(xs: seq<string>, x: string)
    ensures Dedup(xs + [x]) == if x in xs then Dedup(xs) else Dedup(xs) + [x]
  {
    assert (xs + [x])[..|xs + [x]| - 1] == xs;
  }

  /** The non-empty strings of `xs`, in order (JavaScript's `filter(Boolean)` on strings). */
  function NonEmpty(xs: seq<string>): (r: seq<string>)
    ensures forall x :: x in r <==> x in xs && x != []
    ensures |r| <= |xs|
    decreases |xs|
  {
    if |xs| == 0 then []
    else if xs[0] == [] then NonEmpty(xs[1..])
    else [xs[0]] + NonEmpty(xs[1..])
  }

  /** The filter goes element by element: it distributes over concatenation, keeping order and repeats. */
  lemma {:induction false} NonEmptyAppend(a: seq<string>, b: seq<string>)
    ensures NonEmpty(a + b) == NonEmpty(a) + NonEmpty(b)
    decreases |a|
  {
    if |a| == 0 {
      assert a + b == b;
    } else {
      assert (a + b)[0] == a[0];
      assert (a + b)[1..] == a[1..] + b;
      NonEmptyAppend(a[1..], b);
    }
  }

  /** A single string is kept iff it is non-empty. */
  lemma NonEmptySingle(x: string)
    ensures NonEmpty([x]) == if x == [] then [] else [x]
  {
    assert [x][1..] == [];
  }

  lemma {:induction false} NonEmptyIdentity(xs: seq<string>)
    requires forall i :: 0 <= i < |xs| ==> xs[i] != []
    ensures NonEmpty(xs) == xs
    decreases |xs|
  {
    if |xs| != 0 {
      NonEmptyIdentity(xs[1..]);
      assert xs == [xs[0]] + xs[1..];
    }
  }

  lemma NonEmptyKeepsDistinct(xs: seq<string>)
    requires Distinct(xs)
    ensures Distinct(NonEmpty(xs))
    decreases |xs|
  {
    if |xs| != 0 {
      NonEmptyKeepsDistinct(xs[1..]);
      assert xs[0] !in xs[1..];
    }
  }

  function Min(a: int, b: int): int {
    if a <= b then a else b
  }

  /**
   * Splits `xs` into consecutive batches of `n`: batch k is
   * `xs[k*n .. min((k+1)*n, |xs|)]`, as `slice(i, i + n)` for i = 0, n, 2n, ...
   */
  function Chunk<T>(xs: seq<T>, n: nat): (r: seq<seq<T>>)
    requires n > 0
    ensures forall k :: 0 <= k < |r| ==> 0 < |r[k]| <= n
    ensures forall k :: 0 <= k < |r| - 1 ==> |r[k]| == n
    ensures Flatten(r) == xs
    decreases |xs|
  {
    if |xs| <= n then
      (if |xs| == 0 then [] else [xs])
    else
      assert xs == xs[..n] + xs[n..];
      [xs[..n]] + Chunk(xs[n..], n)
  }

  /** Chunking a list whose first `i` elements are split off already. */
  lemma ChunkStep<T>(xs: seq<T>, n: nat, i: nat)
    requires n > 0 && i < |xs|
    ensures Chunk(xs[i..], n) == [xs[i..Min(i + n, |xs|)]] + Chunk(xs[Min(i + n, |xs|)..], n)
  {
    if i + n >= |xs| {
      assert xs[Min(i + n, |xs|)..] == [];
      assert xs[i..Min(i + n, |xs|)] == xs[i..];
    } else {
      assert xs[i..][n..] == xs[i + n..];
      assert xs[i..][..n] == xs[i..i + n];
    }
  }

  lemma BatchStep<T>(xs: seq<T>, n: nat, i: nat, batches: seq<seq<T>>)
    requires n > 0 && i < |xs|
    requires batches + Chunk(xs[i..], n) == Chunk(xs, n)
    ensures (batches + [xs[i..Min(i + n, |xs|)]]) + Chunk(xs[Min(i + n, |xs|)..], n) == Chunk(xs, n)
  {
    ChunkStep(xs, n, i);
  }

  /**
   * The batching loop as the script writes it: `for (i = 0; i < len; i += n)`
   * with `slice(i, i + n)`. It produces exactly `Chunk(xs, n)`.
   */
  method Batches<T>(xs: seq<T>, n: nat) returns (batches: seq<seq<T>>)
    requires n > 0
    ensures batches == Chunk(xs, n)
  {
    batches := [];
    var i: nat := 0;
    assert xs[0..] == xs;
    while i < |xs|
      invariant batches + Chunk(xs[Min(i, |xs|)..], n) == Chunk(xs, n)
      decreases |xs| - i
    {
      assert Min(i, |xs|) == i;
      BatchStep(xs, n, i, batches);
      batches := batches + [xs[i..Min(i + n, |xs|)]];
      i := i + n;
    }
    assert xs[Min(i, |xs|)..] == [];
  }
}
