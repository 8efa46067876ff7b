/** Order-preserving filtering and mapping of sequences, as list comprehensions do them. */
module Seqs {

  /** `[x for x in s if p(x)]` */
  function Filter<T>(p: T -> bool, s: seq<T>): (r: seq<T>)
    ensures |r| <= |s|
    decreases |s|
  {
    if s == [] then []
    else Filter(p, s[..|s| - 1]) + (if p(s[|s| - 1]) then [s[|s| - 1]] else [])
  }

  /** `[f(x) for x in s]` */
  function Map<T, U>(f: T -> U, s: seq<T>): (r: seq<U>)
    ensures |r| == |s|
    decreases |s|
  {
    if s == [] then [] else Map(f, s[..|s| - 1]) + [f(s[|s| - 1])]
  }

  /** The filter keeps exactly the elements that satisfy `p`. */
  lemma {:induction false} FilterMembers<T>(p: T -> bool, s: seq<T>)
    ensures forall x :: x in Filter(p, s) <==> x in s && p(x)
    decreases |s|
  {
    if s != [] {
      var s' := s[..|s| - 1];
      FilterMembers(p, s');
      assert s == s' + [s[|s| - 1]];
    }
  }

  /** The map applies `f` at every position. */
  lemma {:induction false} MapAt<T, U>(f: T -> U, s: seq<T>)
    ensures forall i :: 0 <= i < |s| ==> Map(f, s)[i] == f(s[i])
    decreases |s|
  {
    if s != [] {
      MapAt(f, s[..|s| - 1]);
    }
  }

  /** Filtering distributes over concatenation: kept elements stay in their order. */
  lemma {:induction false} FilterAppend<T>(p: T -> bool, a: seq<T>, b: seq<T>)
    ensures Filter(p, a + b) == Filter(p, a) + Filter(p, b)
    decreases |b|
  {
    if b != [] {
      var b' := b[..|b| - 1];
      assert (a + b)[..|a + b| - 1] == a + b';
      FilterAppend(p, a, b');
    } else {
      assert a + b == a;
    }
  }

  lemma {:induction false} MapAppend<T, U>(f: T -> U, a: seq<T>, b: seq<T>)
    ensures Map(f, a + b) == Map(f, a) + Map(f, b)
    decreases |b|
  {
    if b != [] {
      var b' := b[..|b| - 1];
      assert (a + b)[..|a + b| - 1] == a + b';
      MapAppend(f, a, b');
    } else {
      assert a + b == a;
    }
  }

  /** Extending a prefix by one element extends its filtered image by at most that element's image. */
  lemma MapFilterGrow<T, U>(f: T -> U, p: T -> bool, s: seq<T>, i: nat)
    requires i < |s|
    ensures Map(f, Filter(p, s[..i + 1])) == Map(f, Filter(p, s[..i])) + (if p(s[i]) then [f(s[i])] else [])
  {
    assert s[..i + 1][..i] == s[..i];
    MapAppend(f, Filter(p, s[..i]), if p(s[i]) then [s[i]] else []);
  }

  /** The image under `f` of the part of `s` that `p` keeps, as a multiset. */
  function Bucket<T, U>(f: T -> U, p: T -> bool, s: seq<T>): multiset<U> {
    multiset(Map(f, Filter(p, s)))
  }

  /** One more element at the end adds at most its image to a bucket. */
  lemma BucketSnoc<T, U>(f: T -> U, p: T -> bool, s: seq<T>, x: T)
    ensures Bucket(f, p, s + [x]) == Bucket(f, p, s) + (if p(x) then multiset{f(x)} else multiset{})
  {
    assert (s + [x])[..|s|] == s;
    MapAppend(f, Filter(p, s), if p(x) then [x] else []);
  }

  lemma MapSnocMultiset<T, U>(f: T -> U, s: seq<T>, x: T)
    ensures multiset(Map(f, s + [x])) == multiset(Map(f, s)) + multiset{f(x)}
  {
    assert (s + [x])[..|s|] == s;
  }

  lemma SumStep2<U>(a: multiset<U>, b: multiset<U>, m: multiset<U>, y: U, p: bool, q: bool)
    requires a + b == m
    requires p != q
    ensures (a + (if p then multiset{y} else multiset{})) + (b + (if q then multiset{y} else multiset{})) == m + multiset{y}
  {
  }

  /**
   * Two predicates that split every element one way or the other send
   * every element, by its image under `f`, to exactly one of two buckets.
   */
  lemma {:induction false} FilterPartition<T, U>(f: T -> U, p: T -> bool, q: T -> bool, s: seq<T>)
    requires forall x :: x in s ==> p(x) != q(x)
    ensures Bucket(f, p, s) + Bucket(f, q, s) == multiset(Map(f, s))
    decreases |s|
  {
    if s != [] {
      var s', x := s[..|s| - 1], s[|s| - 1];
      assert s' + [x] == s;
      assert forall y :: y in s' ==> y in s;
      FilterPartition(f, p, q, s');
      BucketSnoc(f, p, s', x);
      BucketSnoc(f, q, s', x);
      MapSnocMultiset(f, s', x);
      assert p(x) != q(x);
      SumStep2(Bucket(f, p, s'), Bucket(f, q, s'), multiset(Map(f, s')), f(x), p(x), q(x));
    }
  }

  /** `x` satisfies exactly one of the three predicates. */
  predicate ExactlyOne<T>(p: T -> bool, q: T -> bool, r: T -> bool, x: T) {
    if p(x) then !q(x) && !r(x) else q(x) != r(x)
  }

  lemma SumStep<U>(a: multiset<U>, b: multiset<U>, c: multiset<U>, m: multiset<U>, y: U, p: bool, q: bool, r: bool)
    requires a + b + c == m
    requires if p then !q && !r else q != r
    ensures (a + (if p then multiset{y} else multiset{})) + (b + (if q then multiset{y} else multiset{}))
            + (c + (if r then multiset{y} else multiset{})) == m + multiset{y}
  {
  }

  /** The three-bucket form of `FilterPartition`. */
  lemma {:induction false} FilterPartition3<T, U>(f: T -> U, p: T -> bool, q: T -> bool, r: T -> bool, s: seq<T>)
    requires forall x :: x in s ==> ExactlyOne(p, q, r, x)
    ensures Bucket(f, p, s) + Bucket(f, q, s) + Bucket(f, r, s) == multiset(Map(f, s))
    decreases |s|
  {
    if s != [] {
      var s', x := s[..|s| - 1], s[|s| - 1];
      assert s' + [x] == s;
      assert forall y :: y in s' ==> y in s;
      FilterPartition3(f, p, q, r, s');
      BucketSnoc(f, p, s', x);
      BucketSnoc(f, q, s', x);
      BucketSnoc(f, r, s', x);
      MapSnocMultiset(f, s', x);
      assert ExactlyOne(p, q, r, x);
      SumStep(Bucket(f, p, s'), Bucket(f, q, s'), Bucket(f, r, s'), multiset(Map(f, s')), f(x), p(x), q(x), r(x));
    }
  }
}
