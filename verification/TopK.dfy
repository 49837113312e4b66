/** Exact top-k: what a bounded heap of size k holds after any pushes and merges. */
module TopKSpec {
  import opened Numeric
  import opened Record
  import opened Seqs

  /** Nothing in `rest` outranks anything in `h`. */
  ghost predicate NoneBeats(rest: multiset<ScoredId>, h: multiset<ScoredId>) {
    forall x, y :: x in h && y in rest ==> !Beats(y, x)
  }

  /** `h` holds k greatest elements of `all`, or everything when there are fewer. */
  ghost predicate IsTop(h: multiset<ScoredId>, k: nat, all: multiset<ScoredId>) {
    && h <= all
    && |h| == Min(k, |all|)
    && NoneBeats(all - h, h)
  }

  predicate IsBest(m: multiset<ScoredId>, x: ScoredId) {
    x in m && forall y :: y in m ==> !Beats(y, x)
  }

  predicate IsWorst(m: multiset<ScoredId>, x: ScoredId) {
    x in m && forall y :: y in m ==> !Beats(x, y)
  }

  lemma {:induction false} BestExists(m: multiset<ScoredId>)
    requires m != multiset{}
    ensures exists x :: IsBest(m, x)
    decreases |m|
  {
    var x :| x in m;
    var rest := m - multiset{x};
    if rest == multiset{} {
      assert forall y :: y in m ==> y == x || y in rest;
      RankingIsTotal(x, x, x);
      assert IsBest(m, x);
    } else {
      BestExists(rest);
      var b :| IsBest(rest, b);
      var top := if Beats(x, b) then x else b;
      forall y | y in m ensures !Beats(y, top) {
        assert y == x || y in rest;
        RankingIsTotal(y, b, top);
        RankingIsTotal(x, b, y);
        RankingIsTotal(y, x, b);
      }
      assert IsBest(m, top);
    }
  }

  lemma {:induction false} WorstExists(m: multiset<ScoredId>)
    requires m != multiset{}
    ensures exists x :: IsWorst(m, x)
    decreases |m|
  {
    var x :| x in m;
    var rest := m - multiset{x};
    if rest == multiset{} {
      assert forall y :: y in m ==> y == x || y in rest;
      assert IsWorst(m, x);
    } else {
      WorstExists(rest);
      var b :| IsWorst(rest, b);
      var low := if Beats(b, x) then x else b;
      forall y | y in m ensures !Beats(low, y) {
        assert y == x || y in rest;
        RankingIsTotal(low, b, y);
        RankingIsTotal(x, b, y);
      }
      assert IsWorst(m, low);
    }
  }

  ghost function Best(m: multiset<ScoredId>): (x: ScoredId)
    requires m != multiset{}
    ensures IsBest(m, x)
  {
    BestExists(m);
    var x :| IsBest(m, x);
    x
  }

  /** All of `m`, best first. */
  ghost function SortDesc(m: multiset<ScoredId>): (s: seq<ScoredId>)
    ensures |s| == |m|
    decreases |m|
  {
    if m == multiset{} then [] else [Best(m)] + SortDesc(m - multiset{Best(m)})
  }

  lemma {:induction false} SortDescPermutes(m: multiset<ScoredId>)
    ensures multiset(SortDesc(m)) == m
    decreases |m|
  {
    if m != multiset{} {
      var b := Best(m);
      SortDescPermutes(m - multiset{b});
      assert m == multiset{b} + (m - multiset{b});
    }
  }

  /** The reference ranker: sort everything, keep the first k. */
  ghost function SortTruncate(m: multiset<ScoredId>, k: nat): (s: seq<ScoredId>)
    ensures |s| == Min(k, |m|)
  {
    SortDesc(m)[..Min(k, |m|)]
  }

  lemma {:induction false} TopUnique(g: multiset<ScoredId>, h: multiset<ScoredId>, k: nat, all: multiset<ScoredId>)
    requires IsTop(g, k, all) && IsTop(h, k, all)
    ensures g == h
  {
    if g != h {
      var x := Extra(g, h);
      var y := Extra(h, g);
      assert x in all - h && y in all - g;
      RankingIsTotal(x, y, x);
    }
  }

  lemma SubsetSize(g: multiset<ScoredId>, h: multiset<ScoredId>)
    requires g <= h
    ensures |h| == |g| + |h - g|
    ensures |g| == |h| ==> g == h
  {
    assert h == g + (h - g);
  }

  /** Of two unequal multisets the one that is not smaller has an element to spare. */
  lemma Extra(g: multiset<ScoredId>, h: multiset<ScoredId>) returns (x: ScoredId)
    requires |g| >= |h| && g != h
    ensures g[x] > h[x]
  {
    assert !(g <= h) by {
      if g <= h {
        SubsetSize(g, h);
      }
    }
    x :| g[x] > h[x];
  }

  /** Truncating a part to its own top-k (or more) first never changes the top-k of the whole. */
  lemma {:induction false} TopAbsorbs(h: multiset<ScoredId>, k': nat, part: multiset<ScoredId>,
                                      g: multiset<ScoredId>, k: nat, rest: multiset<ScoredId>)
    requires IsTop(h, k', part) && k <= k' && IsTop(g, k, h + rest)
    ensures IsTop(g, k, part + rest)
  {
    assert (part + rest) - g == ((h + rest) - g) + (part - h);
    forall x, y | x in g && y in (part + rest) - g ensures !Beats(y, x) {
      if y !in (h + rest) - g {
        assert y in part - h;
        if x !in h {
          SubsetSize(h, part);
          var z := Extra(h, g);
          assert z in (h + rest) - g;
          RankingIsTotal(y, z, x);
        }
      }
    }
  }

  lemma TopAbsorbsRight(h: multiset<ScoredId>, k': nat, part: multiset<ScoredId>,
                        g: multiset<ScoredId>, k: nat, rest: multiset<ScoredId>)
    requires IsTop(h, k', part) && k <= k' && IsTop(g, k, rest + h)
    ensures IsTop(g, k, rest + part)
  {
    assert rest + h == h + rest && rest + part == part + rest;
    TopAbsorbs(h, k', part, g, k, rest);
  }

  lemma TopAbsorbsStep(h: multiset<ScoredId>, k: nat, a: multiset<ScoredId>, b: multiset<ScoredId>,
                       g: multiset<ScoredId>, x: ScoredId)
    requires IsTop(h, k, a + b) && IsTop(g, k, h + multiset{x})
    ensures IsTop(g, k, a + (b + multiset{x}))
  {
    TopAbsorbs(h, k, a + b, g, k, multiset{x});
    assert a + b + multiset{x} == a + (b + multiset{x});
  }

  ghost function Sum(parts: seq<multiset<ScoredId>>): multiset<ScoredId> {
    if parts == [] then multiset{} else parts[0] + Sum(parts[1..])
  }

  /** The same for any number of parts, each truncated on its own: merging local top-k lists is exact. */
  lemma {:induction false} TopAbsorbsAll(tops: seq<multiset<ScoredId>>, parts: seq<multiset<ScoredId>>,
                                         g: multiset<ScoredId>, k: nat, rest: multiset<ScoredId>)
    requires |tops| == |parts|
    requires forall i :: 0 <= i < |parts| ==> IsTop(tops[i], k, parts[i])
    requires IsTop(g, k, Sum(tops) + rest)
    ensures IsTop(g, k, Sum(parts) + rest)
  {
    if parts == [] {
    } else {
      assert Sum(tops) + rest == Sum(tops[1..]) + (tops[0] + rest);
      TopAbsorbsAll(tops[1..], parts[1..], g, k, tops[0] + rest);
      assert Sum(parts[1..]) + (tops[0] + rest) == tops[0] + (Sum(parts[1..]) + rest);
      TopAbsorbs(tops[0], k, parts[0], g, k, Sum(parts[1..]) + rest);
      assert parts[0] + (Sum(parts[1..]) + rest) == Sum(parts) + rest;
    }
  }

  /** A winner of the whole that lies in a part also wins in that part. */
  lemma {:induction false} TopOfWholeIsTopOfPart(h: multiset<ScoredId>, all: multiset<ScoredId>,
                                                 g: multiset<ScoredId>, part: multiset<ScoredId>, k: nat, x: ScoredId)
    requires IsTop(h, k, all) && IsTop(g, k, part) && part <= all
    requires x in h && x in part
    ensures x in g
  {
    if x !in g {
      assert x in part - g;
      SubsetSize(g, part);
      forall z | z in g ensures g[z] <= h[z] {
        RankingIsTotal(x, z, x);
        assert z !in all - h;
      }
      assert g <= h;
      SubsetSize(g, h);
    }
  }

  lemma BestOfTop(h: multiset<ScoredId>, k: nat, all: multiset<ScoredId>)
    requires IsTop(h, k, all) && h != multiset{}
    ensures k > 0 && all != multiset{} && Best(h) == Best(all)
    ensures IsTop(h - multiset{Best(h)}, k - 1, all - multiset{Best(h)})
  {
    var b := Best(h);
    var c := Best(all);
    assert b == c by {
      assert c in h || c in all - h;
      RankingIsTotal(b, c, b);
    }
    assert (all - multiset{b}) - (h - multiset{b}) == all - h;
  }

  /** Sorting the retained elements gives exactly the head of the full sort. */
  lemma {:induction false} TopSortsToTruncation(h: multiset<ScoredId>, k: nat, all: multiset<ScoredId>)
    requires IsTop(h, k, all)
    ensures SortDesc(h) == SortTruncate(all, k)
    decreases k
  {
    if h == multiset{} {
    } else {
      BestOfTop(h, k, all);
      var b := Best(h);
      var h', all' := h - multiset{b}, all - multiset{b};
      TopSortsToTruncation(h', k - 1, all');
      PrefixCons(b, SortDesc(all'), Min(k - 1, |all'|));
    }
  }

  lemma TopKeeps(h: multiset<ScoredId>, worst: ScoredId, x: ScoredId)
    requires IsWorst(h, worst) && !Beats(x, worst)
    ensures IsTop(h, |h|, h + multiset{x})
  {
    assert h + multiset{x} - h == multiset{x};
    forall y | y in h ensures !Beats(x, y) {
      RankingIsTotal(x, worst, y);
    }
  }

  lemma TopEvicts(h: multiset<ScoredId>, worst: ScoredId, x: ScoredId)
    requires IsWorst(h, worst) && Beats(x, worst)
    ensures IsTop(h - multiset{worst} + multiset{x}, |h|, h + multiset{x})
  {
    assert h + multiset{x} - (h - multiset{worst} + multiset{x}) == multiset{worst};
    RankingIsTotal(x, worst, x);
  }

  ghost predicate Descending(s: seq<ScoredId>) {
    forall i, j :: 0 <= i < j < |s| ==> !Beats(s[j], s[i])
  }

  lemma {:induction false} SortDescDescends(m: multiset<ScoredId>)
    ensures Descending(SortDesc(m))
    decreases |m|
  {
    if m != multiset{} {
      var b := Best(m);
      SortDescDescends(m - multiset{b});
      SortDescPermutes(m - multiset{b});
      DescendingCons(b, SortDesc(m - multiset{b}));
    }
  }

  lemma DescendingCons(b: ScoredId, s: seq<ScoredId>)
    requires Descending(s) && forall y :: y in multiset(s) ==> !Beats(y, b)
    ensures Descending([b] + s)
  {
    forall j | 0 <= j < |s| ensures !Beats(s[j], b) {
      assert s[j] in multiset(s);
    }
  }

  lemma HeadIsBest(s: seq<ScoredId>)
    requires s != [] && Descending(s)
    ensures s[0] in multiset(s) && s[0] == Best(multiset(s))
  {
    assert s[0] in multiset(s);
    var b := Best(multiset(s));
    var i :| 0 <= i < |s| && s[i] == b;
    RankingIsTotal(s[0], b, b);
  }

  lemma WithoutHead<T>(s: seq<T>)
    requires s != []
    ensures s == [s[0]] + s[1..] && multiset(s) - multiset{s[0]} == multiset(s[1..])
  {
    assert s == [s[0]] + s[1..];
  }

  /** `SortDesc` is the only descending arrangement, so any correct sort computes it. */
  lemma {:induction false} DescendingIsSortDesc(s: seq<ScoredId>)
    requires Descending(s)
    ensures s == SortDesc(multiset(s))
  {
    if s != [] {
      HeadIsBest(s);
      WithoutHead(s);
      DescendingIsSortDesc(s[1..]);
    }
  }

  lemma {:induction false} TopExists(all: multiset<ScoredId>, k: nat) returns (h: multiset<ScoredId>)
    ensures IsTop(h, k, all)
    decreases k
  {
    if k == 0 || all == multiset{} {
      h := multiset{};
    } else {
      var b := Best(all);
      var all' := all - multiset{b};
      var h' := TopExists(all', k - 1);
      h := h' + multiset{b};
      assert all - h == all' - h';
    }
  }

  lemma TopIsInhabited(all: multiset<ScoredId>, k: nat)
    ensures exists h :: IsTop(h, k, all)
  {
    var h := TopExists(all, k);
  }

  /** What a heap of capacity k keeps of `m`. */
  ghost function Kept(m: multiset<ScoredId>, k: nat): (h: multiset<ScoredId>)
    ensures IsTop(h, k, m)
  {
    TopIsInhabited(m, k);
    var h :| IsTop(h, k, m);
    h
  }

  /** The sorted and truncated list is the retained content, best first. */
  lemma TruncationIsKept(all: multiset<ScoredId>, k: nat)
    ensures SortTruncate(all, k) == SortDesc(Kept(all, k))
    ensures IsTop(multiset(SortTruncate(all, k)), k, all)
  {
    TopSortsToTruncation(Kept(all, k), k, all);
    SortDescPermutes(Kept(all, k));
  }

  lemma TruncationMember(all: multiset<ScoredId>, k: nat, i: nat)
    requires i < |SortTruncate(all, k)|
    ensures SortTruncate(all, k)[i] in all
  {
    TruncationIsKept(all, k);
    assert SortTruncate(all, k)[i] in multiset(SortTruncate(all, k));
  }

  /** An element of the truncated sort of the whole survives in the truncated sort of a part it lies in. */
  lemma TruncationKeepsWinners(all: multiset<ScoredId>, part: multiset<ScoredId>, k: nat, x: ScoredId)
    requires part <= all && x in part && x in SortTruncate(all, k)
    ensures x in SortTruncate(part, k)
  {
    TruncationIsKept(all, k);
    TruncationIsKept(part, k);
    var g, h := multiset(SortTruncate(part, k)), multiset(SortTruncate(all, k));
    assert x in h;
    TopOfWholeIsTopOfPart(h, all, g, part, k, x);
    assert x in g;
  }

  lemma KeptAbsorbs(a: multiset<ScoredId>, c: multiset<ScoredId>, k: nat)
    ensures Kept(Kept(a, k) + c, k) == Kept(a + c, k)
  {
    var g := Kept(Kept(a, k) + c, k);
    TopAbsorbs(Kept(a, k), k, a, g, k, c);
    TopUnique(g, Kept(a + c, k), k, a + c);
  }

  /** Merging heaps is a commutative monoid: no reduction order can change the outcome. */
  lemma MergeIsMonoid(a: multiset<ScoredId>, b: multiset<ScoredId>, c: multiset<ScoredId>, k: nat)
    ensures Kept(a + b, k) == Kept(b + a, k)
    ensures Kept(Kept(a + b, k) + c, k) == Kept(a + Kept(b + c, k), k) == Kept(a + b + c, k)
    ensures |a| <= k ==> Kept(a + multiset{}, k) == a
  {
    assert a + b == b + a;
    KeptAbsorbs(a + b, c, k);
    KeptAbsorbs(b + c, a, k);
    assert a + Kept(b + c, k) == Kept(b + c, k) + a;
    assert b + c + a == a + b + c;
    assert a + multiset{} == a;
    if |a| <= k {
      TopUnique(a, Kept(a, k), k, a);
    }
  }

  /** Each part cut down to its own first k. */
  ghost function Truncations(parts: seq<multiset<ScoredId>>, k: nat): seq<multiset<ScoredId>> {
    seq(|parts|, i requires 0 <= i < |parts| => multiset(SortTruncate(parts[i], k)))
  }

  /** Ranking the parts' own top-k lists together ranks the parts themselves. */
  lemma MergeOfTruncations(parts: seq<multiset<ScoredId>>, k: nat)
    ensures SortTruncate(Sum(Truncations(parts, k)), k) == SortTruncate(Sum(parts), k)
  {
    var tops := Truncations(parts, k);
    forall i | 0 <= i < |parts| ensures IsTop(tops[i], k, parts[i]) {
      TruncationIsKept(parts[i], k);
    }
    var g := Kept(Sum(tops), k);
    assert Sum(tops) + multiset{} == Sum(tops) && Sum(parts) + multiset{} == Sum(parts);
    TopAbsorbsAll(tops, parts, g, k, multiset{});
    TopSortsToTruncation(g, k, Sum(tops));
    TopSortsToTruncation(g, k, Sum(parts));
  }
}

/** The bounded heap itself. `BinaryHeap<Reverse<_>>` is a multiset whose peek is a worst element. */
module TopK {
  import opened Record
  import opened Seqs
  import opened TopKSpec

  class TopK {
    var heap: multiset<ScoredId>
    const k: nat
    ghost var seen: multiset<ScoredId>

    /** The heap holds exactly the k greatest of everything it was ever given. */
    ghost predicate Valid()
      reads this
    {
      IsTop(heap, k, seen)
    }

    constructor (k: nat)
      ensures Valid() && this.k == k && heap == seen == multiset{}
    {
      this.k := k;
      heap, seen := multiset{}, multiset{};
    }

    method Push(item: ScoredId)
      requires Valid()
      modifies this
      ensures Valid() && seen == old(seen) + multiset{item}
      ensures IsTop(heap, k, old(heap) + multiset{item})
    {
      ghost var h := heap;
      SubsetSize(heap, seen);
      if k == 0 {
      } else if |heap| < k {
        heap := heap + multiset{item};
      } else {
        WorstExists(heap);
        var worst :| IsWorst(heap, worst);
        if Beats(item, worst) {
          heap := heap - multiset{worst} + multiset{item};
          TopEvicts(h, worst, item);
        } else {
          TopKeeps(h, worst, item);
        }
      }
      seen := seen + multiset{item};
      TopAbsorbs(h, k, old(seen), heap, k, multiset{item});
    }

    /** Pushes `items` in any order. */
    method PushAll(items: multiset<ScoredId>)
      requires Valid()
      modifies this
      ensures Valid() && seen == old(seen) + items
      ensures IsTop(heap, k, old(heap) + items)
    {
      var rest := items;
      ghost var done: multiset<ScoredId> := multiset{};
      SubsetSize(heap, seen);
      while rest != multiset{}
        invariant items == done + rest
        invariant Valid() && seen == old(seen) + done
        invariant IsTop(heap, k, old(heap) + done)
        decreases |rest|
      {
        ghost var h := heap;
        var item :| item in rest;
        Push(item);
        rest := rest - multiset{item};
        TopAbsorbsStep(h, k, old(heap), done, heap, item);
        done := done + multiset{item};
      }
      assert done == items;
    }

    /** Drains `other` in whatever order its heap iterates. */
    method Merge(other: TopK)
      requires Valid() && other.Valid() && other != this
      modifies this
      ensures IsTop(heap, k, old(heap) + other.heap)
      ensures Valid() && seen == old(seen) + if k <= other.k then other.seen else other.heap
    {
      PushAll(other.heap);
      if k <= other.k {
        TopAbsorbsRight(other.heap, other.k, other.seen, heap, k, old(seen));
        seen := old(seen) + other.seen;
      }
    }

    /** Consumes the heap into a vector and sorts it best first. */
    method IntoSortedVec() returns (result: seq<ScoredId>)
      requires Valid()
      ensures result == SortTruncate(seen, k)
    {
      result := SortVec(heap);
      TopSortsToTruncation(heap, k, seen);
    }
  }

  /** The comparison sort of the vector, one selection at a time. */
  method SortVec(items: multiset<ScoredId>) returns (result: seq<ScoredId>)
    ensures result == SortDesc(items)
  {
    result := [];
    var rest := items;
    ghost var todo := SortDesc(items);
    while rest != multiset{}
      invariant todo == SortDesc(rest)
      invariant result + todo == SortDesc(items)
      decreases |rest|
    {
      var x := TakeBest(rest);
      SplitHead(result, todo);
      result := result + [x];
      rest := rest - multiset{x};
      todo := todo[1..];
    }
  }

  method TakeBest(m: multiset<ScoredId>) returns (x: ScoredId)
    requires m != multiset{}
    ensures x == Best(m)
  {
    BestExists(m);
    x :| IsBest(m, x);
    RankingIsTotal(x, Best(m), x);
  }

  method BoundedTopK(items: seq<ScoredId>, k: nat) returns (result: seq<ScoredId>)
    ensures result == SortTruncate(multiset(items), k)
  {
    var topk := new TopK(k);
    for i := 0 to |items|
      invariant topk.Valid() && topk.k == k && topk.seen == multiset(items[..i])
    {
      topk.Push(items[i]);
      assert items[..i + 1] == items[..i] + [items[i]];
    }
    assert items[..|items|] == items;
    result := topk.IntoSortedVec();
  }

  /** Merging any lists ranks their concatenation. */
  method MergeTopK(lists: seq<seq<ScoredId>>, k: nat) returns (result: seq<ScoredId>)
    ensures result == SortTruncate(multiset(Flatten(lists)), k)
  {
    result := BoundedTopK(Flatten(lists), k);
  }
}
