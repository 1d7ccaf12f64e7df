/**
 * Frequency counting and ranking as the services do it with Python's built-ins:
 * a dict or collections.Counter filled in first-occurrence order, a stable sort by a
 * key in descending order (`sort(key=..., reverse=True)`, `Counter.most_common(n)`),
 * a `[:n]` cut-off, and `list(set(xs))`.
 */
module Ranking {

  /** An item with the integer key it is ranked by. */
  datatype Keyed<T> = Keyed(item: T, key: int)

  function Items<T>(s: seq<Keyed<T>>): (r: seq<T>)
    ensures |r| == |s| && forall i :: 0 <= i < |s| ==> r[i] == s[i].item
  {
    seq(|s|, i requires 0 <= i < |s| => s[i].item)
  }

  predicate NonIncreasing<T>(s: seq<Keyed<T>>) {
    forall i, j :: 0 <= i < j < |s| ==> s[i].key >= s[j].key
  }

  /** The elements whose key is k, in their order. */
  function WithKey<T>(s: seq<Keyed<T>>, k: int): seq<Keyed<T>> {
    if s == [] then [] else (if s[0].key == k then [s[0]] else []) + WithKey(s[1..], k)
  }

  predicate NoDuplicates<T(==)>(s: seq<T>) {
    forall i, j :: 0 <= i < j < |s| ==> s[i] != s[j]
  }

  // ---------------------------------------------------------------------------
  // stable descending sort

  /** Places x after every element whose key is at least x's. */
  function Insert<T(==)>(x: Keyed<T>, s: seq<Keyed<T>>): (r: seq<Keyed<T>>)
    ensures multiset(r) == multiset(s) + multiset{x}
  {
    if s == [] then [x]
    else if s[0].key >= x.key then
      assert s == [s[0]] + s[1..];
      [s[0]] + Insert(x, s[1..])
    else
      [x] + s
  }

  lemma {:induction false} InsertSorted<T>(x: Keyed<T>, s: seq<Keyed<T>>)
    requires NonIncreasing(s)
    ensures NonIncreasing(Insert(x, s))
  {
    if s != [] && s[0].key >= x.key {
      var tail := s[1..];
      TailNonIncreasing(s);
      InsertSorted(x, tail);
      InsertKeysAtMost(x, tail, s[0].key);
      ConsNonIncreasing(s[0], Insert(x, tail));
    } else if s != [] {
      TailNonIncreasing(s);
      ConsNonIncreasing(x, s);
    }
  }

  /** Every key of s is at most b. */
  predicate KeysAtMost<T>(s: seq<Keyed<T>>, b: int) {
    forall i :: 0 <= i < |s| ==> s[i].key <= b
  }

  lemma TailNonIncreasing<T>(s: seq<Keyed<T>>)
    requires NonIncreasing(s) && s != []
    ensures NonIncreasing(s[1..]) && KeysAtMost(s, s[0].key)
  {
    var tail := s[1..];
    forall i, j | 0 <= i < j < |tail| ensures tail[i].key >= tail[j].key {
      assert tail[i] == s[i + 1] && tail[j] == s[j + 1];
    }
    forall i | 0 < i < |s| ensures s[i].key <= s[0].key {
    }
  }

  lemma ConsNonIncreasing<T>(a: Keyed<T>, t: seq<Keyed<T>>)
    requires NonIncreasing(t) && KeysAtMost(t, a.key)
    ensures NonIncreasing([a] + t)
  {
    var r := [a] + t;
    forall i, j | 0 <= i < j < |r| ensures r[i].key >= r[j].key {
      assert r[j] == t[j - 1];
      if i > 0 {
        assert r[i] == t[i - 1];
      }
    }
  }

  lemma {:induction false} InsertKeysAtMost<T>(x: Keyed<T>, t: seq<Keyed<T>>, b: int)
    requires KeysAtMost(t, b) && x.key <= b
    ensures KeysAtMost(Insert(x, t), b)
  {
    if t != [] && t[0].key >= x.key {
      var tail := t[1..];
      assert KeysAtMost(tail, b) by {
        forall i | 0 <= i < |tail| ensures tail[i].key <= b {
          assert tail[i] == t[i + 1];
        }
      }
      InsertKeysAtMost(x, tail, b);
      var r := [t[0]] + Insert(x, tail);
      forall i | 0 < i < |r| ensures r[i].key <= b {
        assert r[i] == Insert(x, tail)[i - 1];
      }
    }
  }

  /** Inserts the elements of s one by one, left to right, into acc. */
  function SortFrom<T(==)>(s: seq<Keyed<T>>, acc: seq<Keyed<T>>): (r: seq<Keyed<T>>)
    requires NonIncreasing(acc)
    ensures NonIncreasing(r)
    ensures multiset(r) == multiset(acc) + multiset(s)
  {
    if s == [] then acc
    else
      assert s == [s[0]] + s[1..];
      InsertSorted(s[0], acc);
      SortFrom(s[1..], Insert(s[0], acc))
  }

  /** Python's stable `sorted(s, key=..., reverse=True)`. */
  function StableSortDesc<T(==)>(s: seq<Keyed<T>>): (r: seq<Keyed<T>>)
    ensures NonIncreasing(r)
    ensures multiset(r) == multiset(s) && |r| == |s|
  {
    assert multiset(s) == multiset([]) + multiset(s);
    SortFrom(s, [])
  }

  lemma {:induction false} WithKeyAppend<T>(a: seq<Keyed<T>>, b: seq<Keyed<T>>, k: int)
    ensures WithKey(a + b, k) == WithKey(a, k) + WithKey(b, k)
  {
    if a != [] {
      assert (a + b)[1..] == a[1..] + b;
      WithKeyAppend(a[1..], b, k);
    } else {
      assert a + b == b;
    }
  }

  lemma {:induction false} WithKeyAbsent<T>(s: seq<Keyed<T>>, k: int)
    requires NonIncreasing(s) && s != [] && s[0].key < k
    ensures WithKey(s, k) == []
  {
    if |s| > 1 {
      WithKeyAbsent(s[1..], k);
    }
  }

  /** Inserting x changes the elements of x's key only by putting x after them. */
  lemma {:induction false} InsertWithKey<T>(x: Keyed<T>, s: seq<Keyed<T>>, k: int)
    requires NonIncreasing(s)
    ensures WithKey(Insert(x, s), k) == WithKey(s, k) + (if x.key == k then [x] else [])
  {
    var e := if x.key == k then [x] else [];
    if s == [] {
    } else if s[0].key >= x.key {
      var head := if s[0].key == k then [s[0]] else [];
      TailNonIncreasing(s);
      InsertWithKey(x, s[1..], k);
      var r := Insert(x, s);
      assert r[1..] == Insert(x, s[1..]);
      calc {
        WithKey(r, k);
        head + WithKey(Insert(x, s[1..]), k);
        head + (WithKey(s[1..], k) + e);
        { AppendAssoc(head, WithKey(s[1..], k), e); }
        (head + WithKey(s[1..], k)) + e;
        WithKey(s, k) + e;
      }
    } else {
      var r := [x] + s;
      assert r[1..] == s;
      if x.key == k {
        WithKeyAbsent(s, k);
      }
    }
  }

  lemma {:induction false} SortFromWithKey<T>(s: seq<Keyed<T>>, acc: seq<Keyed<T>>, k: int)
    requires NonIncreasing(acc)
    ensures WithKey(SortFrom(s, acc), k) == WithKey(acc, k) + WithKey(s, k)
  {
    if s != [] {
      var acc' := Insert(s[0], acc);
      var e := if s[0].key == k then [s[0]] else [];
      assert WithKey(SortFrom(s, acc), k) == WithKey(acc', k) + WithKey(s[1..], k) by {
        InsertSorted(s[0], acc);
        SortFromWithKey(s[1..], acc', k);
      }
      assert WithKey(acc', k) == WithKey(acc, k) + e by {
        InsertWithKey(s[0], acc, k);
      }
      Regroup(WithKey(SortFrom(s, acc), k), WithKey(acc, k), WithKey(acc', k), e, WithKey(s[1..], k));
    }
  }

  lemma AppendAssoc<T>(a: seq<T>, b: seq<T>, c: seq<T>)
    ensures a + (b + c) == (a + b) + c
  {
  }

  lemma Regroup<T>(whole: seq<T>, a: seq<T>, ae: seq<T>, e: seq<T>, rest: seq<T>)
    requires whole == ae + rest && ae == a + e
    ensures whole == a + (e + rest)
  {
  }

  /** Stability: among equal keys the sort keeps the original order. */
  lemma SortIsStable<T>(s: seq<Keyed<T>>, k: int)
    ensures WithKey(StableSortDesc(s), k) == WithKey(s, k)
  {
    SortFromWithKey(s, [], k);
  }

  /** A non-increasing list is left as it is. */
  lemma {:induction false} SortOfSortedIsIdentity<T>(s: seq<Keyed<T>>)
    requires NonIncreasing(s)
    ensures StableSortDesc(s) == s
  {
    SortFromSorted(s, []);
  }

  lemma {:induction false} SortFromSorted<T>(s: seq<Keyed<T>>, acc: seq<Keyed<T>>)
    requires NonIncreasing(acc) && NonIncreasing(acc + s)
    ensures SortFrom(s, acc) == acc + s
  {
    if s != [] {
      var acc' := acc + [s[0]];
      SortedHeadGoesLast(s, acc);
      SortFromSorted(s[1..], acc');
    }
  }

  /** In a sorted acc + s, inserting s's first element into acc puts it at the end. */
  lemma SortedHeadGoesLast<T>(s: seq<Keyed<T>>, acc: seq<Keyed<T>>)
    requires s != [] && NonIncreasing(acc + s)
    ensures Insert(s[0], acc) == acc + [s[0]]
    ensures NonIncreasing(acc + [s[0]])
    ensures (acc + [s[0]]) + s[1..] == acc + s
  {
    HeadBelowAcc(s, acc);
    InsertAtEnd(s[0], acc);
    SortedWithHead(s, acc);
    HeadToAcc(acc, s);
  }

  lemma HeadToAcc<U>(acc: seq<U>, s: seq<U>)
    requires s != []
    ensures (acc + [s[0]]) + s[1..] == acc + s
  {
    assert [s[0]] + s[1..] == s;
  }

  lemma HeadBelowAcc<T>(s: seq<Keyed<T>>, acc: seq<Keyed<T>>)
    requires s != [] && NonIncreasing(acc + s)
    ensures forall i :: 0 <= i < |acc| ==> acc[i].key >= s[0].key
  {
    var whole := acc + s;
    forall i | 0 <= i < |acc| ensures acc[i].key >= s[0].key {
      assert whole[i] == acc[i] && whole[|acc|] == s[0];
    }
  }

  lemma SortedWithHead<T>(s: seq<Keyed<T>>, acc: seq<Keyed<T>>)
    requires s != [] && NonIncreasing(acc + s)
    ensures NonIncreasing(acc + [s[0]])
  {
    var whole := acc + s;
    assert acc + [s[0]] == whole[..|acc| + 1];
    PrefixNonIncreasing(whole, |acc| + 1);
  }

  lemma PrefixNonIncreasing<T>(s: seq<Keyed<T>>, n: nat)
    requires NonIncreasing(s) && n <= |s|
    ensures NonIncreasing(s[..n])
  {
    var p := s[..n];
    forall i, j | 0 <= i < j < |p| ensures p[i].key >= p[j].key {
      assert p[i] == s[i] && p[j] == s[j];
    }
  }

  lemma {:induction false} InsertAtEnd<T>(x: Keyed<T>, s: seq<Keyed<T>>)
    requires forall i :: 0 <= i < |s| ==> s[i].key >= x.key
    ensures Insert(x, s) == s + [x]
  {
    if s != [] {
      InsertAtEnd(x, s[1..]);
    }
  }

  // ---------------------------------------------------------------------------
  // cut-off

  /** `s[:n]` for a natural n. */
  function Take<T>(s: seq<T>, n: nat): (r: seq<T>)
    ensures |r| == if n < |s| then n else |s|
    ensures r == s[..|r|]
  {
    if n < |s| then s[..n] else s
  }

  /** The pieces joined end to end, in order. */
  function Concat<T>(ss: seq<seq<T>>): seq<T> {
    if ss == [] then [] else Concat(ss[..|ss| - 1]) + ss[|ss| - 1]
  }

  lemma {:induction false} WithKeyOfPrefix<T>(s: seq<Keyed<T>>, n: nat, k: int)
    requires n <= |s|
    ensures WithKey(s[..n], k) <= WithKey(s, k)
  {
    assert s == s[..n] + s[n..];
    WithKeyAppend(s[..n], s[n..], k);
  }

  /** `sorted(s, key=..., reverse=True)[:n]` and `Counter.most_common(n)`. */
  function MostCommon<T(==)>(s: seq<Keyed<T>>, n: nat): seq<Keyed<T>> {
    Take(StableSortDesc(s), n)
  }

  /** What a ranking cut-off keeps: at most n elements, all taken from s, keys never
      increasing, nothing left out ranked above anything kept, each key's elements an
      initial run of that key's elements of s in their original order, and everything
      when n is large enough. */
  lemma MostCommonProperties<T>(s: seq<Keyed<T>>, n: nat)
    ensures var r := MostCommon(s, n);
      && |r| == (if n < |s| then n else |s|)
      && NonIncreasing(r)
      && (forall x :: x in r ==> x in s)
      && (n >= |s| ==> multiset(r) == multiset(s))
    ensures multiset(MostCommon(s, n)) <= multiset(s)
    ensures forall x, y :: x in MostCommon(s, n) && y in multiset(s) - multiset(MostCommon(s, n)) ==>
              y.key <= x.key
    ensures forall k :: WithKey(MostCommon(s, n), k) <= WithKey(s, k)
  {
    var sorted := StableSortDesc(s);
    var r := MostCommon(s, n);
    forall x | x in r ensures x in s {
      assert x in multiset(sorted);
    }
    MostCommonKeepsTop(s, n);
    forall k ensures WithKey(r, k) <= WithKey(s, k) {
      WithKeyOfPrefix(sorted, |r|, k);
      SortIsStable(s, k);
    }
  }

  /** The cut-off keeps part of s, and whatever it leaves out has a key no greater than
      any key it keeps. */
  lemma MostCommonKeepsTop<T>(s: seq<Keyed<T>>, n: nat)
    ensures multiset(MostCommon(s, n)) <= multiset(s)
    ensures forall x, y :: x in MostCommon(s, n) && y in multiset(s) - multiset(MostCommon(s, n)) ==>
              y.key <= x.key
  {
    var sorted := StableSortDesc(s);
    var r := MostCommon(s, n);
    var rest := sorted[|r|..];
    assert sorted == r + rest;
    assert multiset(s) == multiset(r) + multiset(rest);
    forall x, y | x in r && y in multiset(s) - multiset(r) ensures y.key <= x.key {
      assert y in rest;
      var i :| 0 <= i < |r| && r[i] == x;
      var j :| 0 <= j < |rest| && rest[j] == y;
      assert sorted[i] == x && sorted[|r| + j] == y;
    }
  }

  /** An element of s that the cut-off does not keep ranks no higher than one it keeps. */
  lemma DroppedRanksLower<T>(s: seq<Keyed<T>>, n: nat, x: Keyed<T>, y: Keyed<T>)
    requires x in MostCommon(s, n) && y in s && y !in MostCommon(s, n)
    ensures y.key <= x.key
  {
    MostCommonKeepsTop(s, n);
    assert y in multiset(s) && y !in multiset(MostCommon(s, n));
  }

  // ---------------------------------------------------------------------------
  // counting in first-occurrence order

  function Count<T(==)>(xs: seq<T>, x: T): nat {
    if xs == [] then 0 else Count(xs[..|xs| - 1], x) + (if xs[|xs| - 1] == x then 1 else 0)
  }

  /** The distinct elements of xs, in order of first occurrence. */
  function Distinct<T(==)>(xs: seq<T>): (d: seq<T>)
    ensures NoDuplicates(d)
    ensures forall i :: 0 <= i < |d| ==> d[i] in xs
    ensures forall i :: 0 <= i < |xs| ==> xs[i] in d
  {
    if xs == [] then []
    else
      var d := Distinct(xs[..|xs| - 1]);
      assert xs == xs[..|xs| - 1] + [xs[|xs| - 1]];
      assert forall i :: 0 <= i < |xs| - 1 ==> xs[i] == xs[..|xs| - 1][i];
      if xs[|xs| - 1] in d then d else d + [xs[|xs| - 1]]
  }

  /** The (element, count) pairs of a dict or Counter filled from xs. */
  function Tally<T(==)>(xs: seq<T>): seq<Keyed<T>> {
    var d := Distinct(xs);
    seq(|d|, i requires 0 <= i < |d| => Keyed(d[i], Count(xs, d[i])))
  }

  lemma {:induction false} CountPositive<T>(xs: seq<T>, x: T)
    ensures Count(xs, x) > 0 <==> x in xs
  {
    if xs != [] {
      CountPositive(xs[..|xs| - 1], x);
      assert xs == xs[..|xs| - 1] + [xs[|xs| - 1]];
    }
  }

  /** A tally lists each distinct element once, first occurrences first, with its
      number of occurrences. */
  lemma TallyProperties<T>(xs: seq<T>)
    ensures NoDuplicates(Items(Tally(xs)))
    ensures forall x :: x in Items(Tally(xs)) <==> x in xs
    ensures forall e :: e in Tally(xs) ==> e.key == Count(xs, e.item) && e.key > 0
  {
    var d := Distinct(xs);
    assert Items(Tally(xs)) == d;
    forall e | e in Tally(xs) ensures e.key == Count(xs, e.item) && e.key > 0 {
      CountPositive(xs, e.item);
    }
  }

  /** Fills an insertion-ordered dict (or a Counter) from xs, the way
      `d[x] = d.get(x, 0) + 1` does in a loop. */
  method CountOccurrences<T(==)>(xs: seq<T>) returns (tally: seq<Keyed<T>>)
    ensures tally == Tally(xs)
  {
    var keys: seq<T> := [];
    var freq: map<T, nat> := map[];
    for i := 0 to |xs|
      invariant keys == Distinct(xs[..i])
      invariant forall k :: k in freq <==> k in keys
      invariant forall k :: k in freq ==> freq[k] == Count(xs[..i], k)
    {
      var x := xs[i];
      assert xs[..i + 1][..i] == xs[..i];
      if x in freq {
        freq := freq[x := freq[x] + 1];
      } else {
        keys := keys + [x];
        freq := freq[x := 1];
        CountPositive(xs[..i], x);
      }
    }
    assert xs[..|xs|] == xs;
    tally := seq(|keys|, j requires 0 <= j < |keys| => Keyed(keys[j], freq[keys[j]]));
  }

  /** Python's `list(set(xs))`: the distinct elements, in an order Python leaves
      unspecified. Callers may rely only on the contract; the body is one admissible order. */
  method SetToList<T(==)>(xs: seq<T>) returns (r: seq<T>)
    ensures NoDuplicates(r)
    ensures forall x :: x in r <==> x in xs
  {
    r := Distinct(xs);
  }

  lemma {:induction false} ItemsAppend<T>(a: seq<Keyed<T>>, b: seq<Keyed<T>>)
    ensures Items(a + b) == Items(a) + Items(b)
  {
  }

  lemma ItemsOfPrefix<T>(a: seq<Keyed<T>>, b: seq<Keyed<T>>)
    requires a <= b
    ensures Items(a) <= Items(b)
  {
    assert Items(b)[..|a|] == Items(b[..|a|]);
  }

  lemma {:induction false} DistinctOfNoDuplicates<T>(xs: seq<T>)
    requires NoDuplicates(xs)
    ensures Distinct(xs) == xs
  {
    if xs != [] {
      var init := xs[..|xs| - 1];
      DistinctOfNoDuplicates(init);
      assert xs[|xs| - 1] !in init;
    }
  }

  lemma {:induction false} CountOfNoDuplicates<T>(xs: seq<T>, x: T)
    requires NoDuplicates(xs) && x in xs
    ensures Count(xs, x) == 1
  {
    var init := xs[..|xs| - 1];
    assert xs == init + [xs[|xs| - 1]];
    if xs[|xs| - 1] == x {
      assert x !in init;
      CountPositive(init, x);
    } else {
      CountOfNoDuplicates(init, x);
    }
  }

  /** Counting a duplicate-free list gives every element the count one, so ranking the
      counts keeps the list's own order: the result is its first n elements. */
  lemma MostCommonOfDistinct<T>(xs: seq<T>, n: nat)
    requires NoDuplicates(xs)
    ensures Items(MostCommon(Tally(xs), n)) == Take(xs, n)
  {
    DistinctOfNoDuplicates(xs);
    var t := Tally(xs);
    forall i | 0 <= i < |t| ensures t[i].key == 1 {
      CountOfNoDuplicates(xs, xs[i]);
    }
    SortOfSortedIsIdentity(t);
    assert Items(Take(t, n)) == Take(xs, n);
  }

  /** The elements of xs whose key under f is v, in their order. */
  function WithKeyOf<T>(xs: seq<T>, f: T -> int, v: int): seq<T> {
    if xs == [] then [] else (if f(xs[0]) == v then [xs[0]] else []) + WithKeyOf(xs[1..], f, v)
  }

  lemma {:induction false} ItemsWithKeyOf<T>(s: seq<Keyed<T>>, f: T -> int, v: int)
    requires forall e :: e in s ==> e.key == f(e.item)
    ensures Items(WithKey(s, v)) == WithKeyOf(Items(s), f, v)
  {
    if s != [] {
      ItemsWithKeyOf(s[1..], f, v);
      var head := if s[0].key == v then [s[0]] else [];
      ItemsAppend(head, WithKey(s[1..], v));
      assert Items(s) == [s[0].item] + Items(s[1..]);
      assert Items(s)[1..] == Items(s[1..]);
    }
  }

  /** Number of occurrences in xs, as a ranking key. */
  function CountIn<T(==)>(xs: seq<T>): T -> int {
    y => Count(xs, y)
  }

  /** A dict or Counter tally of xs sorted by count, descending, cut to n, counts dropped. */
  function TopByCount<T(==)>(xs: seq<T>, n: nat): seq<T> {
    Items(MostCommon(Tally(xs), n))
  }

  lemma {:induction false} NoDuplicatesMultiset<T>(s: seq<T>, x: T)
    requires NoDuplicates(s)
    ensures multiset(s)[x] <= 1
  {
    if s != [] {
      var init := s[..|s| - 1];
      assert s == init + [s[|s| - 1]];
      NoDuplicatesMultiset(init, x);
      if s[|s| - 1] == x {
        assert x !in init;
      }
    }
  }

  lemma TwoPositionsMultiset<T>(s: seq<T>, i: nat, j: nat)
    requires i < j < |s|
    ensures s[i] == s[j] ==> multiset(s)[s[i]] >= 2
  {
    if s[i] == s[j] {
      assert s == s[..j] + s[j..];
      assert s[i] in s[..j];
      assert s[j..][0] == s[j];
    }
  }

  /** The most frequent elements: distinct, all from xs, min(n, #distinct) of them,
      counts never increasing, and each count's elements the first ones of that count
      in first-occurrence order. */
  lemma TopByCountProperties<T>(xs: seq<T>, n: nat)
    ensures NoDuplicates(TopByCount(xs, n))
    ensures |TopByCount(xs, n)| == (if n < |Distinct(xs)| then n else |Distinct(xs)|)
    ensures forall y :: y in TopByCount(xs, n) ==> y in xs
    ensures forall i, j :: 0 <= i < j < |TopByCount(xs, n)| ==>
              Count(xs, TopByCount(xs, n)[i]) >= Count(xs, TopByCount(xs, n)[j])
    ensures forall w, c :: w in xs && w !in TopByCount(xs, n) && c in TopByCount(xs, n) ==>
              Count(xs, w) <= Count(xs, c)
    ensures forall v ::
              WithKeyOf(TopByCount(xs, n), CountIn(xs), v)
              <= WithKeyOf(Distinct(xs), CountIn(xs), v)
  {
    TopByCountDistinct(xs, n);
    TopByCountRanked(xs, n);
    TopByCountKeepsTop(xs, n);
    TopByCountStable(xs, n);
  }

  /** No element left out is more frequent than an element kept. */
  lemma TopByCountKeepsTop<T>(xs: seq<T>, n: nat)
    ensures forall w, c :: w in xs && w !in TopByCount(xs, n) && c in TopByCount(xs, n) ==>
              Count(xs, w) <= Count(xs, c)
  {
    forall w, c | w in xs && w !in TopByCount(xs, n) && c in TopByCount(xs, n)
      ensures Count(xs, w) <= Count(xs, c)
    {
      DroppedWordRanksLower(xs, n, w, c);
    }
  }

  lemma DroppedWordRanksLower<T>(xs: seq<T>, n: nat, w: T, c: T)
    requires w in xs && w !in TopByCount(xs, n) && c in TopByCount(xs, n)
    ensures Count(xs, w) <= Count(xs, c)
  {
    var t := Tally(xs);
    var m := MostCommon(t, n);
    TallyProperties(xs);
    MostCommonKeepsTop(t, n);
    var a :| 0 <= a < |t| && Items(t)[a] == w;
    var b :| 0 <= b < |m| && Items(m)[b] == c;
    assert m[b] in multiset(t);
    assert t[a] in t && m[b] in t;
    assert t[a] !in m;
    DroppedRanksLower(t, n, m[b], t[a]);
  }

  /** The ranking keeps elements of xs, by count descending. */
  lemma TopByCountRanked<T>(xs: seq<T>, n: nat)
    ensures |TopByCount(xs, n)| == (if n < |Distinct(xs)| then n else |Distinct(xs)|)
    ensures forall y :: y in TopByCount(xs, n) ==> y in xs
    ensures forall i, j :: 0 <= i < j < |TopByCount(xs, n)| ==>
              Count(xs, TopByCount(xs, n)[i]) >= Count(xs, TopByCount(xs, n)[j])
  {
    TopByCountMembers(xs, n);
    TopByCountOrdered(xs, n);
  }

  lemma TopByCountMembers<T>(xs: seq<T>, n: nat)
    ensures |TopByCount(xs, n)| == (if n < |Distinct(xs)| then n else |Distinct(xs)|)
    ensures forall y :: y in TopByCount(xs, n) ==> y in xs
  {
    var t := Tally(xs);
    var m := MostCommon(t, n);
    var r := Items(m);
    TallyProperties(xs);
    MostCommonProperties(t, n);
    assert |t| == |Distinct(xs)|;
    forall i | 0 <= i < |r| ensures r[i] in xs {
      assert m[i] in t;
      var a :| 0 <= a < |t| && t[a] == m[i];
      assert Items(t)[a] == r[i];
    }
  }

  lemma TopByCountOrdered<T>(xs: seq<T>, n: nat)
    ensures forall i, j :: 0 <= i < j < |TopByCount(xs, n)| ==>
              Count(xs, TopByCount(xs, n)[i]) >= Count(xs, TopByCount(xs, n)[j])
  {
    var t := Tally(xs);
    var m := MostCommon(t, n);
    var r := Items(m);
    TallyProperties(xs);
    MostCommonProperties(t, n);
    forall i, j | 0 <= i < j < |r| ensures Count(xs, r[i]) >= Count(xs, r[j]) {
      assert m[i] in t && m[j] in t;
    }
  }

  /** Among elements of equal count the ranking keeps first-occurrence order. */
  lemma TopByCountStable<T>(xs: seq<T>, n: nat)
    ensures forall v ::
              WithKeyOf(TopByCount(xs, n), CountIn(xs), v)
              <= WithKeyOf(Distinct(xs), CountIn(xs), v)
  {
    var t := Tally(xs);
    var m := MostCommon(t, n);
    TallyProperties(xs);
    MostCommonProperties(t, n);
    assert Items(t) == Distinct(xs);
    assert forall e :: e in t ==> e.key == CountIn(xs)(e.item);
    assert forall e :: e in m ==> e in t;
    forall v ensures WithKeyOf(Items(m), CountIn(xs), v) <= WithKeyOf(Distinct(xs), CountIn(xs), v) {
      ItemsWithKeyOf(m, CountIn(xs), v);
      ItemsWithKeyOf(t, CountIn(xs), v);
      ItemsOfPrefix(WithKey(m, v), WithKey(t, v));
    }
  }

  lemma TopByCountDistinct<T>(xs: seq<T>, n: nat)
    ensures NoDuplicates(TopByCount(xs, n))
  {
    var t := Tally(xs);
    var sorted := StableSortDesc(t);
    var m := MostCommon(t, n);
    TallyProperties(xs);
    PermutationKeepsDistinctItems(t, sorted);
    assert m == sorted[..|m|];
    forall i, j | 0 <= i < j < |m| ensures Items(m)[i] != Items(m)[j] {
      assert Items(sorted)[i] != Items(sorted)[j];
    }
  }

  /** Distinct items make distinct entries. */
  lemma DistinctItemsDistinct<T>(s: seq<Keyed<T>>)
    requires NoDuplicates(Items(s))
    ensures NoDuplicates(s)
  {
    forall i, j | 0 <= i < j < |s| ensures s[i] != s[j] {
      assert Items(s)[i] != Items(s)[j];
    }
  }

  /** Reordering a list keeps its items distinct. */
  lemma PermutationKeepsDistinctItems<T>(a: seq<Keyed<T>>, b: seq<Keyed<T>>)
    requires multiset(a) == multiset(b) && NoDuplicates(Items(a))
    ensures NoDuplicates(Items(b))
  {
    DistinctItemsDistinct(a);
    forall i, j | 0 <= i < j < |b| ensures Items(b)[i] != Items(b)[j] {
      TwoPositionsMultiset(b, i, j);
      NoDuplicatesMultiset(a, b[i]);
      assert b[i] != b[j];
      assert b[i] in multiset(a) && b[j] in multiset(a);
      var p :| 0 <= p < |a| && a[p] == b[i];
      var q :| 0 <= q < |a| && a[q] == b[j];
      if p < q {
        assert Items(a)[p] != Items(a)[q];
      } else {
        assert Items(a)[q] != Items(a)[p];
      }
    }
  }

  /** A duplicate-free list is as long as its set of elements is large. */
  lemma {:induction false} NoDuplicatesCardinality<T>(s: seq<T>)
    requires NoDuplicates(s)
    ensures |set x | x in s| == |s|
  {
    if s != [] {
      var t := s[..|s| - 1];
      NoDuplicatesCardinality(t);
      assert s == t + [s[|s| - 1]];
      assert (set x | x in s) == (set x | x in t) + {s[|s| - 1]};
      assert s[|s| - 1] !in t;
    }
  }
}
