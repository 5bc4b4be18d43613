/** Lists of cache entries: filtering, stable sorting, total size. */
module CacheLists {
  import opened Basics

  /** Times are in microseconds; a missing `ref` is the empty string. */
  datatype Cache = Cache(id: int, key: string, ref: string, created: int, accessed: int, size: nat)

  function Filter(cs: seq<Cache>, p: Cache -> bool): seq<Cache> {
    if cs == [] then [] else (if p(cs[0]) then [cs[0]] else []) + Filter(cs[1..], p)
  }

  lemma {:induction false} FilterConcat(a: seq<Cache>, b: seq<Cache>, p: Cache -> bool)
    ensures Filter(a + b, p) == Filter(a, p) + Filter(b, p)
  {
    if a == [] {
      assert a + b == b;
    } else {
      assert (a + b)[0] == a[0] && (a + b)[1..] == a[1..] + b;
      FilterConcat(a[1..], b, p);
      var head := if p(a[0]) then [a[0]] else [];
      Associate(head, Filter(a[1..], p), Filter(b, p));
    }
  }

  lemma FilterOneMore(cs: seq<Cache>, i: nat, p: Cache -> bool)
    requires i < |cs|
    ensures Filter(cs[..i + 1], p) == Filter(cs[..i], p) + (if p(cs[i]) then [cs[i]] else [])
  {
    assert cs[..i + 1] == cs[..i] + [cs[i]];
    FilterConcat(cs[..i], [cs[i]], p);
    assert [cs[i]][1..] == [];
  }

  lemma {:induction false} FilterMembers(cs: seq<Cache>, p: Cache -> bool)
    ensures forall c :: c in Filter(cs, p) <==> c in cs && p(c)
    ensures |Filter(cs, p)| <= |cs|
  {
    if cs != [] {
      FilterMembers(cs[1..], p);
      assert cs == [cs[0]] + cs[1..];
    }
  }

  lemma {:induction false} FilterNothing(cs: seq<Cache>, p: Cache -> bool)
    requires forall c <- cs :: !p(c)
    ensures Filter(cs, p) == []
  {
    if cs != [] {
      assert cs[0] in cs;
      assert forall c <- cs[1..] :: c in cs;
      FilterNothing(cs[1..], p);
    }
  }

  lemma {:induction false} FilterEverything(cs: seq<Cache>, p: Cache -> bool)
    requires forall c <- cs :: p(c)
    ensures Filter(cs, p) == cs
  {
    if cs != [] {
      assert cs[0] in cs;
      assert forall c <- cs[1..] :: c in cs;
      FilterEverything(cs[1..], p);
    }
  }

  /** Two filters in a row. */
  lemma {:induction false} FilterTwice(cs: seq<Cache>, p: Cache -> bool, q: Cache -> bool, r: Cache -> bool)
    requires forall c <- cs :: r(c) <==> p(c) && q(c)
    ensures Filter(Filter(cs, p), q) == Filter(cs, r)
  {
    if cs != [] {
      assert cs[0] in cs;
      assert forall c <- cs[1..] :: c in cs;
      FilterTwice(cs[1..], p, q, r);
      FilterConcat(if p(cs[0]) then [cs[0]] else [], Filter(cs[1..], p), q);
      assert [cs[0]][1..] == [];
    }
  }

  function Total(cs: seq<Cache>): nat {
    if cs == [] then 0 else cs[0].size + Total(cs[1..])
  }

  lemma {:induction false} FilterTotal(cs: seq<Cache>, p: Cache -> bool)
    ensures Total(Filter(cs, p)) <= Total(cs)
  {
    if cs != [] {
      FilterTotal(cs[1..], p);
      TotalConcat(if p(cs[0]) then [cs[0]] else [], Filter(cs[1..], p));
      assert [cs[0]][1..] == [];
    }
  }

  // ------------------------------------------------------------------------------------------------
  // Stable sorting
  // ------------------------------------------------------------------------------------------------

  /** Puts `x` before the first element that `first` lets it precede. */
  function Place(x: Cache, s: seq<Cache>, first: (Cache, Cache) -> bool): seq<Cache> {
    if s == [] || first(x, s[0]) then [x] + s else [s[0]] + Place(x, s[1..], first)
  }

  /** The stable sort of Python's `sort` and `sorted`: elements that may go either way keep their order. */
  function Sort(cs: seq<Cache>, first: (Cache, Cache) -> bool): seq<Cache> {
    if cs == [] then [] else Place(cs[0], Sort(cs[1..], first), first)
  }

  ghost predicate SortedBy(s: seq<Cache>, first: (Cache, Cache) -> bool) {
    forall i, j :: 0 <= i < j < |s| ==> first(s[i], s[j])
  }

  ghost predicate TotalPreorder(first: (Cache, Cache) -> bool) {
    && (forall a, b :: first(a, b) || first(b, a))
    && (forall a, b, c :: first(a, b) && first(b, c) ==> first(a, c))
  }

  lemma {:induction false} PlaceContents(x: Cache, s: seq<Cache>, first: (Cache, Cache) -> bool)
    ensures multiset(Place(x, s, first)) == multiset(s) + multiset{x}
    ensures Total(Place(x, s, first)) == Total(s) + x.size
    ensures |Place(x, s, first)| == |s| + 1
  {
    if s == [] || first(x, s[0]) {
      assert ([x] + s)[1..] == s;
    } else {
      PlaceContents(x, s[1..], first);
      assert s == [s[0]] + s[1..];
      assert Place(x, s, first)[1..] == Place(x, s[1..], first);
    }
  }

  lemma {:induction false} PlaceSorts(x: Cache, s: seq<Cache>, first: (Cache, Cache) -> bool)
    requires SortedBy(s, first) && TotalPreorder(first)
    ensures SortedBy(Place(x, s, first), first)
  {
    if s == [] || first(x, s[0]) {
      assert forall j :: 0 < j < |s| ==> first(s[0], s[j]);
    } else {
      PlaceSorts(x, s[1..], first);
      BeforeRest(x, s, first);
    }
  }

  lemma BeforeRest(x: Cache, s: seq<Cache>, first: (Cache, Cache) -> bool)
    requires s != [] && SortedBy(s, first) && first(s[0], x)
    ensures forall y <- Place(x, s[1..], first) :: first(s[0], y)
  {
    var rest := s[1..];
    PlaceContents(x, rest, first);
    forall y | y in Place(x, rest, first)
      ensures first(s[0], y)
    {
      assert y in multiset(Place(x, rest, first));
      if y != x {
        assert y in rest;
        var k :| 0 <= k < |rest| && rest[k] == y;
        assert first(s[0], s[k + 1]);
      }
    }
  }

  lemma {:induction false} SortContents(cs: seq<Cache>, first: (Cache, Cache) -> bool)
    ensures multiset(Sort(cs, first)) == multiset(cs) && Total(Sort(cs, first)) == Total(cs)
    ensures |Sort(cs, first)| == |cs|
    ensures forall c :: c in Sort(cs, first) <==> c in cs
  {
    if cs != [] {
      var rest := Sort(cs[1..], first);
      SortContents(cs[1..], first);
      PlaceContents(cs[0], rest, first);
      HeadMultiset(cs);
    }
    SameMembers(Sort(cs, first), cs);
  }

  lemma HeadMultiset(cs: seq<Cache>)
    requires cs != []
    ensures multiset(cs) == multiset(cs[1..]) + multiset{cs[0]}
  {
    assert cs == [cs[0]] + cs[1..];
  }

  lemma SameMembers(s: seq<Cache>, t: seq<Cache>)
    requires multiset(s) == multiset(t)
    ensures forall c :: c in s <==> c in t
  {
    forall c
      ensures c in s <==> c in t
    {
      assert c in s <==> c in multiset(s);
      assert c in t <==> c in multiset(t);
    }
  }

  lemma {:induction false} SortSorts(cs: seq<Cache>, first: (Cache, Cache) -> bool)
    requires TotalPreorder(first)
    ensures SortedBy(Sort(cs, first), first)
  {
    if cs != [] {
      SortSorts(cs[1..], first);
      PlaceSorts(cs[0], Sort(cs[1..], first), first);
    }
  }

  /** The elements that may go either way with `c`. */
  function TiesWith(c: Cache, first: (Cache, Cache) -> bool): Cache -> bool {
    (d: Cache) => first(c, d) && first(d, c)
  }

  lemma TiesPrecede(x: Cache, y: Cache, first: (Cache, Cache) -> bool, c: Cache)
    requires TotalPreorder(first)
    ensures TiesWith(c, first)(x) && TiesWith(c, first)(y) ==> first(x, y)
  {
  }

  lemma {:induction false} PlaceIsStable(x: Cache, s: seq<Cache>, first: (Cache, Cache) -> bool, c: Cache)
    requires TotalPreorder(first)
    ensures Filter(Place(x, s, first), TiesWith(c, first)) ==
            (if TiesWith(c, first)(x) then [x] else []) + Filter(s, TiesWith(c, first))
  {
    if s == [] || first(x, s[0]) {
      assert ([x] + s)[1..] == s;
    } else {
      PlaceIsStable(x, s[1..], first, c);
      assert Place(x, s, first)[1..] == Place(x, s[1..], first);
      TiesPrecede(x, s[0], first, c);
    }
  }

  /** Sorting keeps the order of elements that may go either way. */
  lemma {:induction false} SortIsStable(cs: seq<Cache>, first: (Cache, Cache) -> bool, c: Cache)
    requires TotalPreorder(first)
    ensures Filter(Sort(cs, first), TiesWith(c, first)) == Filter(cs, TiesWith(c, first))
  {
    if cs != [] {
      SortIsStable(cs[1..], first, c);
      PlaceIsStable(cs[0], Sort(cs[1..], first), first, c);
    }
  }

  lemma {:induction false} FilterOfPlace(x: Cache, s: seq<Cache>, first: (Cache, Cache) -> bool, p: Cache -> bool)
    ensures |Filter(Place(x, s, first), p)| == |Filter(s, p)| + (if p(x) then 1 else 0)
  {
    if s == [] || first(x, s[0]) {
      assert ([x] + s)[1..] == s;
    } else {
      FilterOfPlace(x, s[1..], first, p);
      assert Place(x, s, first)[1..] == Place(x, s[1..], first);
    }
  }

  /** Sorting does not change how many elements a filter lets through. */
  lemma {:induction false} FilterOfSort(cs: seq<Cache>, first: (Cache, Cache) -> bool, p: Cache -> bool)
    ensures |Filter(Sort(cs, first), p)| == |Filter(cs, p)|
  {
    if cs != [] {
      FilterOfSort(cs[1..], first, p);
      FilterOfPlace(cs[0], Sort(cs[1..], first), first, p);
    }
  }

  lemma {:induction false} TotalConcat(a: seq<Cache>, b: seq<Cache>)
    ensures Total(a + b) == Total(a) + Total(b)
  {
    if a == [] {
      assert a + b == b;
    } else {
      assert (a + b)[1..] == a[1..] + b;
      TotalConcat(a[1..], b);
    }
  }

  /** The total is the sum of the sizes. */
  lemma TotalAdds(a: seq<Cache>, b: seq<Cache>, c: Cache)
    ensures Total([]) == 0 && Total([c]) == c.size && Total(a + b) == Total(a) + Total(b)
  {
    assert [c][1..] == [];
    TotalConcat(a, b);
  }

  lemma {:induction false} FilterTotalOfPlace(x: Cache, s: seq<Cache>, first: (Cache, Cache) -> bool, p: Cache -> bool)
    ensures Total(Filter(Place(x, s, first), p)) == Total(Filter(s, p)) + (if p(x) then x.size else 0)
  {
    if s == [] || first(x, s[0]) {
      assert ([x] + s)[1..] == s;
      TotalConcat(if p(x) then [x] else [], Filter(s, p));
      assert [x][1..] == [];
    } else {
      FilterTotalOfPlace(x, s[1..], first, p);
      assert Place(x, s, first)[1..] == Place(x, s[1..], first);
      TotalConcat(if p(s[0]) then [s[0]] else [], Filter(s[1..], p));
      TotalConcat(if p(s[0]) then [s[0]] else [], Filter(Place(x, s[1..], first), p));
    }
  }

  lemma {:induction false} FilterTotalOfSort(cs: seq<Cache>, first: (Cache, Cache) -> bool, p: Cache -> bool)
    ensures Total(Filter(Sort(cs, first), p)) == Total(Filter(cs, p))
  {
    if cs != [] {
      FilterTotalOfSort(cs[1..], first, p);
      FilterTotalOfPlace(cs[0], Sort(cs[1..], first), first, p);
      TotalConcat(if p(cs[0]) then [cs[0]] else [], Filter(cs[1..], p));
      assert [cs[0]][1..] == [];
    }
  }
}
