/** The closures and iterators exercise: a memoising `Cacher`, a filter over shoes,
    and the `Counter` iterator with the iterator pipeline its test builds on it. */
module IteratorsAndClosures {
  import opened Wrappers
  import opened Primitives
  import opened Text
  import Seqs

  // ---------------------------------------------------------------------------
  // Cacher

  /** Rust's `Cacher<T>`: a calculation and the value it produced on first use, if any. */
  datatype Cacher = Cacher(calculation: u32 -> u32, value: Option<u32>)

  /** Rust's `Cacher::new`: nothing cached yet, calculation stored as given. */
  function NewCacher(calculation: u32 -> u32): (c: Cacher)
    ensures c.value.None?
    ensures c.calculation == calculation
  {
    Cacher(calculation, None)
  }

  /** Rust's `Cacher::value(&mut self, arg)`: the cacher after the call, and the value
      returned. A cached value is returned as it is, whatever `arg`; otherwise the
      calculation is applied to `arg` and its result is cached. */
  function Value(c: Cacher, arg: u32): (r: (Cacher, u32))
    ensures r.0.calculation == c.calculation
    ensures r.0.value == Some(r.1)
    ensures c.value.Some? ==> r.1 == c.value.value && r.0 == c
    ensures c.value.None? ==> r.1 == c.calculation(arg)
  {
    match c.value
    case Some(v) => (c, v)
    case None =>
      var v := c.calculation(arg);
      (c.(value := Some(v)), v)
  }

  /** The values returned by calling `value` with each of `args` in turn. */
  function Values(c: Cacher, args: seq<u32>): (vs: seq<u32>)
    ensures |vs| == |args|
    decreases |args|
  {
    if args == [] then []
    else
      var (c', v) := Value(c, args[0]);
      [v] + Values(c', args[1..])
  }

  /** Compute once, return the same value forever: every call in a sequence returns
      what the first call returned, which is the cached value if there was one and
      otherwise the calculation applied to the first argument only. */
  lemma {:induction false} ValuesComputeOnce(c: Cacher, args: seq<u32>)
    requires args != []
    ensures Values(c, args)[0] == (if c.value.Some? then c.value.value else c.calculation(args[0]))
    ensures forall k :: 0 <= k < |args| ==> Values(c, args)[k] == Values(c, args)[0]
    decreases |args|
  {
    var (c', v) := Value(c, args[0]);
    if |args| > 1 {
      ValuesComputeOnce(c', args[1..]);
    }
  }

  /** The crate's test: an identity cacher asked for 1 and then 2 answers 1 both times. */
  lemma CallWithDifferentValues()
    ensures Values(NewCacher(a => a), [1, 2]) == [1, 1]
  {
    ValuesComputeOnce(NewCacher(a => a), [1, 2]);
  }

  // ---------------------------------------------------------------------------
  // Shoes

  /** Rust's `Shoe`. */
  datatype Shoe = Shoe(size: u32, style: String)

  /** The test `shoes_in_my_size` applies to each shoe. */
  function HasSize(shoeSize: u32): Shoe -> bool {
    (s: Shoe) => s.size == shoeSize
  }

  /** Rust's `shoes_in_my_size`: the shoes of the given size, in their original order.
      The result lists, in order, the shoes at the increasing positions `FilterIndices`
      selects, and a shoe is in it exactly when it is an input shoe of that size. */
  function ShoesInMySize(shoes: seq<Shoe>, shoeSize: u32): (r: seq<Shoe>)
    ensures var idx := Seqs.FilterIndices(shoes, HasSize(shoeSize));
      && Seqs.Selects(shoes, HasSize(shoeSize), idx)
      && |r| == |idx|
      && forall k :: 0 <= k < |r| ==> r[k] == shoes[idx[k]]
    ensures forall s :: s in r <==> s in shoes && s.size == shoeSize
  {
    Seqs.FilterIndexed(shoes, HasSize(shoeSize));
    Seqs.FilterMembership(shoes, HasSize(shoeSize));
    Seqs.Filter(shoes, HasSize(shoeSize))
  }

  /** The crate's test: of sneaker (10), sandal (13) and boot (10), size 10 keeps
      sneaker and boot. */
  lemma FiltersBySize()
    ensures ShoesInMySize([Shoe(10, "sneaker"), Shoe(13, "sandal"), Shoe(10, "boot")], 10)
         == [Shoe(10, "sneaker"), Shoe(10, "boot")]
  {
    var sneaker, sandal, boot := Shoe(10, "sneaker"), Shoe(13, "sandal"), Shoe(10, "boot");
    var p := HasSize(10);
    Seqs.FilterSnoc([], sneaker, p);
    Seqs.FilterSnoc([sneaker], sandal, p);
    Seqs.FilterSnoc([sneaker, sandal], boot, p);
  }

  // ---------------------------------------------------------------------------
  // Counter

  /** Rust's `Counter`. */
  datatype Counter = Counter(count: u32)

  /** Rust's `Counter::new`. */
  function NewCounter(): (c: Counter)
    ensures c.count == 0
  {
    Counter(0)
  }

  /** Rust's `Iterator::next` for `Counter`: the counter after the call and the item.
      The count always goes up by one; the item is the new count while that is below 6. */
  function Next(c: Counter): (r: (Counter, Option<u32>))
    requires c.count < U32_MAX as u32
    ensures r.0.count as int == c.count as int + 1
    ensures r.1.Some? <==> c.count < 5
    ensures r.1.Some? ==> r.1.value as int == c.count as int + 1
  {
    var count := c.count + 1;
    (Counter(count), if count < 6 then Some(count) else None)
  }

  /** The items of `n` successive calls to `next`. */
  function Items(c: Counter, n: nat): (items: seq<Option<u32>>)
    requires c.count as int + n <= U32_MAX
    ensures |items| == n
    decreases n
  {
    if n == 0 then []
    else
      var (c', item) := Next(c);
      [item] + Items(c', n - 1)
  }

  /** Call `k` (from 0) of a run starting at count `c0` yields `c0 + k + 1` while that is below 6. */
  lemma {:induction false} ItemsClosedForm(c: Counter, n: nat)
    requires c.count as int + n <= U32_MAX
    ensures forall k :: 0 <= k < n ==>
      Items(c, n)[k] == (if c.count as int + k + 1 < 6 then Some((c.count as int + k + 1) as u32) else None)
    decreases n
  {
    if n > 0 {
      var (c', item) := Next(c);
      ItemsClosedForm(c', n - 1);
      assert forall k :: 1 <= k < n ==> Items(c, n)[k] == Items(c', n - 1)[k - 1];
    }
  }

  /** The crate's test: a fresh counter yields 1, 2, 3, 4, 5 and then `None`. */
  lemma CallingNextDirectly()
    ensures Items(NewCounter(), 6) == [Some(1), Some(2), Some(3), Some(4), Some(5), None]
  {
    ItemsClosedForm(NewCounter(), 6);
  }

  /** Everything the counter yields before its first `None`, as Rust's iterator
      adaptors consume it. */
  function Drain(c: Counter): (vs: seq<u32>)
    requires c.count < U32_MAX as u32
    ensures |vs| == if c.count < 5 then 5 - c.count as int else 0
    ensures forall k :: 0 <= k < |vs| ==> vs[k] as int == c.count as int + k + 1
    decreases 5 - c.count as int
  {
    match Next(c)
    case (_, None) => []
    case (c', Some(v)) => [v] + Drain(c')
  }

  /** Rust's `skip(n)`. */
  function Skip<T>(xs: seq<T>, n: nat): (r: seq<T>)
    ensures |r| == if |xs| <= n then 0 else |xs| - n
    ensures |xs| <= n ==> r == []
    ensures n <= |xs| ==> xs == xs[..n] + r
  {
    if |xs| <= n then [] else xs[n..]
  }

  /** Rust's `zip`: pairs items up to the end of the shorter input. */
  function Zip<A, B>(xs: seq<A>, ys: seq<B>): (r: seq<(A, B)>)
    ensures |r| == if |xs| <= |ys| then |xs| else |ys|
    ensures forall k :: 0 <= k < |r| ==> r[k] == (xs[k], ys[k])
  {
    if xs == [] || ys == [] then [] else [(xs[0], ys[0])] + Zip(xs[1..], ys[1..])
  }

  /** `map(|(a, b)| a * b)`, over the integers. */
  function Products(ps: seq<(u32, u32)>): (r: seq<int>)
    ensures |r| == |ps|
    ensures forall k :: 0 <= k < |r| ==> r[k] == ps[k].0 as int * ps[k].1 as int
  {
    seq(|ps|, k requires 0 <= k < |ps| => ps[k].0 as int * ps[k].1 as int)
  }

  /** `sum()`, over the integers. */
  function Sum(xs: seq<int>): int {
    if xs == [] then 0 else xs[0] + Sum(xs[1..])
  }

  /** Summing is additive over concatenation, so a sum can be taken piece by piece. */
  lemma {:induction false} SumAppend(xs: seq<int>, ys: seq<int>)
    ensures Sum(xs + ys) == Sum(xs) + Sum(ys)
  {
    if xs == [] {
      assert xs + ys == ys;
    } else {
      assert (xs + ys)[0] == xs[0];
      assert (xs + ys)[1..] == xs[1..] + ys;
      SumAppend(xs[1..], ys);
    }
  }

  /** The test's `filter(|x| x % 3 == 0)`. */
  predicate MultipleOf3(x: int) {
    x % 3 == 0
  }

  /** The test's pipeline `a.zip(b).map(|(a, b)| a * b).filter(|x| x % 3 == 0).sum()`. */
  function ZipProductSum(a: seq<u32>, b: seq<u32>): int {
    Sum(Seqs.Filter(Products(Zip(a, b)), MultipleOf3))
  }

  /** The pipeline over inputs of equal length, extended by one pair: the new pair's
      product is added exactly when it is a multiple of 3. */
  lemma ZipProductSumSnoc(a: seq<u32>, b: seq<u32>, x: u32, y: u32)
    requires |a| == |b|
    ensures ZipProductSum(a + [x], b + [y])
         == ZipProductSum(a, b) + (if MultipleOf3(x as int * y as int) then x as int * y as int else 0)
  {
    var z := Zip(a, b);
    assert Zip(a + [x], b + [y]) == z + [(x, y)];
    var ps := Products(z);
    var q := x as int * y as int;
    assert Products(z + [(x, y)]) == ps + [q];
    Seqs.FilterSnoc(ps, q, MultipleOf3);
    SumAppend(Seqs.Filter(ps, MultipleOf3), if MultipleOf3(q) then [q] else []);
    assert Sum([q]) == q by {
      assert [q][1..] == [];
    }
  }

  /** A fresh counter yields exactly 1 to 5. */
  lemma DrainNewCounter()
    ensures Drain(NewCounter()) == [1, 2, 3, 4, 5]
  {
  }

  lemma PipelineSteps()
    ensures Products(Zip([1, 2, 3, 4, 5], Skip([1, 2, 3, 4, 5], 1))) == [2, 6, 12, 20]
  {
    assert Skip([1, 2, 3, 4, 5], 1) == [2, 3, 4, 5];
  }

  lemma KeepMultiplesOf3()
    ensures Seqs.Filter([2, 6, 12, 20], MultipleOf3) == [6, 12]
  {
    var xs := [2, 6, 12, 20];
    assert !MultipleOf3(2) && MultipleOf3(6) && MultipleOf3(12) && !MultipleOf3(20);
    assert xs[..3] == [2, 6, 12] && xs[..3][..2] == [2, 6];
    assert xs[..3][..2][..1] == [2] && xs[..3][..2][..1][..0] == [];
    assert Seqs.Filter([2], MultipleOf3) == [];
    assert Seqs.Filter([2, 6], MultipleOf3) == [6];
    assert Seqs.Filter([2, 6, 12], MultipleOf3) == [6, 12];
  }

  /** The crate's test: a counter zipped with a counter that skips its first item,
      multiplied pairwise, keeping multiples of 3, sums to 18 (well within `u32`). */
  lemma UsingOtherIteratorTraitMethods()
    ensures ZipProductSum(Drain(NewCounter()), Skip(Drain(NewCounter()), 1)) == 18
  {
    DrainNewCounter();
    var a := Drain(NewCounter());
    assert Products(Zip(a, Skip(a, 1))) == [2, 6, 12, 20] by {
      PipelineSteps();
    }
    KeepMultiplesOf3();
    assert [6, 12][1..] == [12] && [12][1..] == [];
    assert Sum([6, 12]) == 18;
  }
}
