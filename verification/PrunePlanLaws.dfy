/** What the pruning plan guarantees. */
module PrunePlanLaws {
  import opened CacheLists
  import opened PrunePlan

  function CacheIds(cs: seq<Cache>): set<int> { set c <- cs :: c.id }

  lemma IdsOfAdd(ds: seq<Doom>, c: Cache, why: Reason)
    ensures Ids(AddDoom(ds, c, why)) == Ids(ds) + {c.id}
  {
    if c.id !in Ids(ds) {
      var ds' := ds + [Doom(c, why)];
      assert ds'[|ds|] in ds';
      assert forall d :: d in ds' <==> d in ds || d == Doom(c, why);
    }
  }

  lemma {:induction false} IdsOfDoomAll(ds: seq<Doom>, cs: seq<Cache>, why: Reason)
    ensures Ids(DoomAll(ds, cs, why)) == Ids(ds) + CacheIds(cs)
    ensures ds <= DoomAll(ds, cs, why)
    ensures forall d <- DoomAll(ds, cs, why) :: d in ds || (d.why == why && d.cache in cs && d.cache.id !in Ids(ds))
    decreases |cs|
  {
    if cs != [] {
      IdsOfAdd(ds, cs[0], why);
      IdsOfDoomAll(AddDoom(ds, cs[0], why), cs[1..], why);
      assert cs == [cs[0]] + cs[1..];
    }
  }

  lemma {:induction false} IdsOfDoomOld(ds: seq<Doom>, cs: seq<Cache>, gs: seq<Group>, keep: int)
    ensures ds <= DoomOld(ds, cs, gs, keep) && Ids(ds) <= Ids(DoomOld(ds, cs, gs, keep))
    ensures forall g <- gs :: CacheIds(Old(Members(cs, g), keep)) <= Ids(DoomOld(ds, cs, gs, keep))
    decreases |gs|
  {
    if gs != [] {
      var front, g := gs[..|gs| - 1], gs[|gs| - 1];
      IdsOfDoomOld(ds, cs, front, keep);
      IdsOfDoomAll(DoomOld(ds, cs, front, keep), Old(Members(cs, g), keep), Superseded);
      LastOrFront(gs);
    }
  }

  lemma LastOrFront(gs: seq<Group>)
    requires gs != []
    ensures forall g :: g in gs <==> g in gs[..|gs| - 1] || g == gs[|gs| - 1]
  {
    assert gs == gs[..|gs| - 1] + [gs[|gs| - 1]];
  }

  lemma {:induction false} SourceOfDoomOld(ds: seq<Doom>, cs: seq<Cache>, gs: seq<Group>, keep: int, d: Doom)
    requires d in DoomOld(ds, cs, gs, keep)
    ensures d in ds ||
      (d.why == Superseded && d.cache in Old(Members(cs, GroupKey(d.cache)), keep) && d.cache.id !in Ids(ds))
    decreases |gs|
  {
    if gs != [] {
      var front, g := gs[..|gs| - 1], gs[|gs| - 1];
      var before := DoomOld(ds, cs, front, keep);
      IdsOfDoomOld(ds, cs, front, keep);
      IdsOfDoomAll(before, Old(Members(cs, g), keep), Superseded);
      if d in before {
        SourceOfDoomOld(ds, cs, front, keep, d);
      } else {
        OldAreMembers(cs, g, keep);
      }
    }
  }

  lemma OldAreMembers(cs: seq<Cache>, g: Group, keep: int)
    ensures forall c <- Old(Members(cs, g), keep) :: c in cs && GroupKey(c) == g
  {
    SortContents(Members(cs, g), Newer());
    FilterMembers(cs, InGroup(g));
  }

  lemma {:induction false} GroupsComplete(cs: seq<Cache>, c: Cache)
    requires c in cs
    ensures GroupKey(c) in Groups(cs)
    decreases |cs|
  {
    if c != cs[|cs| - 1] {
      assert c in cs[..|cs| - 1];
      GroupsComplete(cs[..|cs| - 1], c);
    }
  }

  /** The rules in sequence: what each adds to the doomed ids, and where each entry comes from. */
  lemma RulesInOrder(caches: seq<Cache>, x: Inputs)
    ensures CacheIds(Filter(Managed(caches, x), IsClosed(x))) <= Ids(AfterStale(caches, x))
    ensures CacheIds(Filter(Managed(caches, x), IsIdle(x))) <= Ids(AfterStale(caches, x))
    ensures Ids(AfterStale(caches, x)) <= Ids(AfterSuperseded(caches, x)) <= Ids(PlanOf(caches, x))
    ensures CacheIds(Victims(caches, x)) <= Ids(PlanOf(caches, x))
    ensures forall g <- Groups(Candidates(caches, x)) ::
      CacheIds(Old(Members(Candidates(caches, x), g), x.keep)) <= Ids(AfterSuperseded(caches, x))
    ensures AfterClosed(caches, x) <= AfterStale(caches, x) <= AfterSuperseded(caches, x) <= PlanOf(caches, x)
  {
    var managed := Managed(caches, x);
    IdsOfDoomAll([], Filter(managed, IsClosed(x)), ClosedRef);
    IdsOfDoomAll(AfterClosed(caches, x), Filter(managed, IsIdle(x)), Stale);
    IdsOfDoomOld(AfterStale(caches, x), Candidates(caches, x), Groups(Candidates(caches, x)), x.keep);
    IdsOfDoomAll(AfterSuperseded(caches, x), Victims(caches, x), OverQuota);
  }

  /** Each deletion is of a managed cache and carries the first rule that applies. */
  lemma ReasonsAreTrue(caches: seq<Cache>, x: Inputs, d: Doom)
    requires d in PlanOf(caches, x)
    ensures d.cache in caches && x.prefix <= d.cache.key
    ensures match d.why
      case ClosedRef => Closed(d.cache, x)
      case Stale => Idle(d.cache, x) && !Closed(d.cache, x)
      case Superseded => !Closed(d.cache, x) && !Idle(d.cache, x)
        && d.cache in Old(Members(Candidates(caches, x), GroupKey(d.cache)), x.keep)
      case OverQuota => !Closed(d.cache, x) && !Idle(d.cache, x) && d.cache in Victims(caches, x)
  {
    var managed := Managed(caches, x);
    FilterMembers(caches, IsManaged(x));
    FilterMembers(managed, IsClosed(x));
    FilterMembers(managed, IsIdle(x));
    IdsOfDoomAll([], Filter(managed, IsClosed(x)), ClosedRef);
    IdsOfDoomAll(AfterClosed(caches, x), Filter(managed, IsIdle(x)), Stale);
    IdsOfDoomOld(AfterStale(caches, x), Candidates(caches, x), Groups(Candidates(caches, x)), x.keep);
    IdsOfDoomAll(AfterSuperseded(caches, x), Victims(caches, x), OverQuota);
    if d in AfterSuperseded(caches, x) {
      SourceOfDoomOld(AfterStale(caches, x), Candidates(caches, x), Groups(Candidates(caches, x)), x.keep, d);
    }
    FilterMembers(managed, Spared(Ids(AfterStale(caches, x))));
    FilterMembers(managed, Spared(Ids(AfterSuperseded(caches, x))));
    SortContents(Left(caches, x), LessRecent());
    if d.why.Superseded? { OldAreMembers(Candidates(caches, x), GroupKey(d.cache), x.keep); }
  }

  // ------------------------------------------------------------------------------------------------
  // Groups keep their newest
  // ------------------------------------------------------------------------------------------------

  lemma SplitOfSorted(s: seq<Cache>, k: nat, first: (Cache, Cache) -> bool)
    requires k <= |s| && SortedBy(s, first)
    ensures forall a, b :: a in s[..k] && b in s[k..] ==> first(a, b)
    ensures multiset(s[..k]) + multiset(s[k..]) == multiset(s)
  {
    var front, back := s[..k], s[k..];
    assert s == front + back;
    forall a, b | a in front && b in back
      ensures first(a, b)
    {
      var i :| 0 <= i < k && front[i] == a;
      var j :| 0 <= j < |back| && back[j] == b;
      assert first(s[i], s[k + j]);
    }
  }

  /** What a group keeps. */
  function Recent(members: seq<Cache>, keep: int): seq<Cache> {
    var s := Sort(members, Newer());
    s[..SliceStart(|s|, keep)]
  }

  lemma GroupSplits(members: seq<Cache>, keep: int)
    ensures |Recent(members, keep)| == |members| - |Old(members, keep)|
    ensures keep >= 0 ==> |Recent(members, keep)| == (if |members| > keep then keep else |members|)
    ensures keep < 0 ==> |Old(members, keep)| == (if |members| > -keep then -keep else |members|)
    ensures multiset(Recent(members, keep)) + multiset(Old(members, keep)) == multiset(members)
    ensures forall a, b :: a in Recent(members, keep) && b in Old(members, keep) ==> a.created >= b.created
  {
    var s := Sort(members, Newer());
    SortContents(members, Newer());
    SortSorts(members, Newer());
    SplitOfSorted(s, SliceStart(|s|, keep), Newer());
  }

  ghost predicate UniqueIds(caches: seq<Cache>) {
    forall i, j :: 0 <= i < j < |caches| ==> caches[i].id != caches[j].id
  }

  lemma SameIdSameCache(caches: seq<Cache>, c: Cache, d: Cache)
    requires UniqueIds(caches) && c in caches && d in caches && c.id == d.id
    ensures c == d
  {
    var i :| 0 <= i < |caches| && caches[i] == c;
    var j :| 0 <= j < |caches| && caches[j] == d;
  }

  lemma {:induction false} FilterCounts(cs: seq<Cache>, p: Cache -> bool, c: Cache)
    ensures multiset(Filter(cs, p))[c] <= multiset(cs)[c]
  {
    if cs != [] {
      FilterCounts(cs[1..], p, c);
      HeadMultiset(cs);
      if p(cs[0]) { assert Filter(cs, p)[1..] == Filter(cs[1..], p); HeadMultiset(Filter(cs, p)); }
    }
  }

  /** What the first two rules leave, and each group of it, holds no cache twice. */
  lemma CandidatesOnce(caches: seq<Cache>, x: Inputs, g: Group, c: Cache)
    requires UniqueIds(caches)
    ensures multiset(Members(Candidates(caches, x), g))[c] <= 1
    ensures c in Candidates(caches, x) ==> c in caches && c.id !in Ids(AfterStale(caches, x))
    ensures c in Members(Candidates(caches, x), g) <==> c in Candidates(caches, x) && GroupKey(c) == g
  {
    var managed, cand := Managed(caches, x), Candidates(caches, x);
    OnceEach(caches, c);
    FilterCounts(caches, IsManaged(x), c);
    FilterCounts(managed, Spared(Ids(AfterStale(caches, x))), c);
    FilterCounts(cand, InGroup(g), c);
    FilterMembers(caches, IsManaged(x));
    FilterMembers(managed, Spared(Ids(AfterStale(caches, x))));
    FilterMembers(cand, InGroup(g));
  }

  /** Seen from the candidates, the third rule has spared what it has not doomed. */
  lemma LeftOfCandidates(caches: seq<Cache>, x: Inputs, c: Cache)
    ensures c in Left(caches, x) <==> c in Candidates(caches, x) && c.id !in Ids(AfterSuperseded(caches, x))
  {
    RulesInOrder(caches, x);
    SparedTwice(Managed(caches, x), Ids(AfterStale(caches, x)), Ids(AfterSuperseded(caches, x)));
    FilterMembers(Candidates(caches, x), Spared(Ids(AfterSuperseded(caches, x))));
  }

  lemma OldIsDoomed(caches: seq<Cache>, x: Inputs, c: Cache)
    requires c in Candidates(caches, x) && c in Old(Members(Candidates(caches, x), GroupKey(c)), x.keep)
    ensures c.id in Ids(AfterSuperseded(caches, x))
  {
    var cand := Candidates(caches, x);
    GroupsComplete(cand, c);
    RulesInOrder(caches, x);
    assert c.id in CacheIds(Old(Members(cand, GroupKey(c)), x.keep));
  }

  lemma DoomedIsOld(caches: seq<Cache>, x: Inputs, c: Cache)
    requires UniqueIds(caches) && c in Candidates(caches, x) && c.id in Ids(AfterSuperseded(caches, x))
    ensures c in Old(Members(Candidates(caches, x), GroupKey(c)), x.keep)
  {
    var cand := Candidates(caches, x);
    var d :| d in AfterSuperseded(caches, x) && d.cache.id == c.id;
    CandidatesOnce(caches, x, GroupKey(c), c);
    SourceOfDoomOld(AfterStale(caches, x), cand, Groups(cand), x.keep, d);
    OldAreMembers(cand, GroupKey(d.cache), x.keep);
    CandidatesOnce(caches, x, GroupKey(c), d.cache);
    SameIdSameCache(caches, c, d.cache);
  }

  /** The third rule of the plan leaves exactly the recent ones of each group. */
  lemma LeftIsRecent(caches: seq<Cache>, x: Inputs, c: Cache)
    requires UniqueIds(caches)
    ensures c in Left(caches, x) <==>
      c in Candidates(caches, x) && c in Recent(Members(Candidates(caches, x), GroupKey(c)), x.keep)
  {
    LeftOfCandidates(caches, x, c);
    if c in Candidates(caches, x) {
      var members := Members(Candidates(caches, x), GroupKey(c));
      CandidatesOnce(caches, x, GroupKey(c), c);
      GroupSplits(members, x.keep);
      InOneOfTwo(members, Recent(members, x.keep), Old(members, x.keep), c);
      if c in Old(members, x.keep) {
        OldIsDoomed(caches, x, c);
      } else if c.id in Ids(AfterSuperseded(caches, x)) {
        DoomedIsOld(caches, x, c);
      }
    }
  }

  lemma InOneOfTwo(s: seq<Cache>, a: seq<Cache>, b: seq<Cache>, c: Cache)
    requires multiset(a) + multiset(b) == multiset(s) && multiset(s)[c] == 1
    ensures c in a <==> c !in b
  {
    assert multiset(s)[c] == multiset(a)[c] + multiset(b)[c];
    assert (c in a <==> c in multiset(a)) && (c in b <==> c in multiset(b));
  }

  /** Of each group of the candidates the third rule leaves `keep` (or all there are), and none that is older than one
      it dooms. */
  lemma NewestAreKept(caches: seq<Cache>, x: Inputs, g: Group)
    requires UniqueIds(caches)
    ensures var members, kept := Members(Candidates(caches, x), g), Members(Left(caches, x), g);
      && multiset(kept) == multiset(Recent(members, x.keep))
      && (x.keep >= 0 ==> |kept| == (if |members| > x.keep then x.keep else |members|))
      && (forall a, b :: a in kept && b in members && b !in kept ==> a.created >= b.created)
  {
    var members, kept := Members(Candidates(caches, x), g), Members(Left(caches, x), g);
    var recent := Recent(members, x.keep);
    GroupSplits(members, x.keep);
    KeptIsRecent(caches, x, g);
    assert |multiset(kept)| == |kept| && |multiset(recent)| == |recent|;
    forall a, b | a in kept && b in members && b !in kept
      ensures a.created >= b.created
    {
      assert a in multiset(kept) && b in multiset(members);
      assert b !in multiset(recent) && b in multiset(Old(members, x.keep));
    }
  }

  lemma KeptIsRecent(caches: seq<Cache>, x: Inputs, g: Group)
    requires UniqueIds(caches)
    ensures multiset(Members(Left(caches, x), g)) == multiset(Recent(Members(Candidates(caches, x), g), x.keep))
  {
    forall c
      ensures multiset(Members(Left(caches, x), g))[c] == multiset(Recent(Members(Candidates(caches, x), g), x.keep))[c]
    {
      KeptOnce(caches, x, g, c);
    }
  }

  lemma KeptOnce(caches: seq<Cache>, x: Inputs, g: Group, c: Cache)
    requires UniqueIds(caches)
    ensures multiset(Members(Left(caches, x), g))[c] == multiset(Recent(Members(Candidates(caches, x), g), x.keep))[c]
  {
    var members, left := Members(Candidates(caches, x), g), Left(caches, x);
    var kept, recent := Members(left, g), Recent(members, x.keep);
    LeftIsRecent(caches, x, c);
    CandidatesOnce(caches, x, g, c);
    GroupSplits(members, x.keep);
    FilterMembers(left, InGroup(g));
    LeftOnce(caches, x, g, c);
    assert multiset(recent)[c] <= 1;
    assert c in recent ==> c in multiset(members);
    assert (c in kept <==> c in multiset(kept)) && (c in recent <==> c in multiset(recent));
  }

  lemma LeftOnce(caches: seq<Cache>, x: Inputs, g: Group, c: Cache)
    requires UniqueIds(caches)
    ensures multiset(Members(Left(caches, x), g))[c] <= 1
  {
    OnceEach(caches, c);
    FilterCounts(caches, IsManaged(x), c);
    FilterCounts(Managed(caches, x), Spared(Ids(AfterSuperseded(caches, x))), c);
    FilterCounts(Left(caches, x), InGroup(g), c);
  }

  // ------------------------------------------------------------------------------------------------
  // The quota
  // ------------------------------------------------------------------------------------------------

  lemma DropTail(s: seq<Cache>, j: nat)
    requires 0 < j <= |s|
    ensures s[j..] == s[1..][j - 1..]
  {
  }

  lemma {:induction false} ExcessIsLeast(sorted: seq<Cache>, x: Inputs)
    ensures var k := Excess(sorted, Total(sorted), x);
      && (k == |sorted| || Fits(Total(sorted[k..]), x))
      && forall j :: 0 <= j < k ==> !Fits(Total(sorted[j..]), x)
  {
    if sorted != [] && !Fits(Total(sorted), x) {
      ExcessIsLeast(sorted[1..], x);
      var k := Excess(sorted[1..], Total(sorted[1..]), x);
      DropTail(sorted, k + 1);
      forall j | 0 <= j < k + 1
        ensures !Fits(Total(sorted[j..]), x)
      {
        if j > 0 { DropTail(sorted, j); } else { assert sorted[0..] == sorted; }
      }
    } else {
      assert sorted[0..] == sorted;
    }
  }

  /** What the quota leaves. */
  function KeptByQuota(caches: seq<Cache>, x: Inputs): seq<Cache> {
    ByAge(caches, x)[Excess(ByAge(caches, x), Total(Left(caches, x)), x)..]
  }

  /** The quota's victims are the least recently used of what the earlier rules leave. */
  lemma VictimsAreLru(caches: seq<Cache>, x: Inputs)
    ensures multiset(Victims(caches, x)) + multiset(KeptByQuota(caches, x)) == multiset(Left(caches, x))
    ensures forall a, b :: a in Victims(caches, x) && b in KeptByQuota(caches, x) ==> a.accessed <= b.accessed
  {
    var left, s := Left(caches, x), ByAge(caches, x);
    SortContents(left, LessRecent());
    SortSorts(left, LessRecent());
    SplitOfSorted(s, Excess(s, Total(left), x), LessRecent());
    forall a, b | a in Victims(caches, x) && b in KeptByQuota(caches, x)
      ensures a.accessed <= b.accessed
    {
      assert LessRecent()(a, b);
    }
  }

  /** They are as few as possible: what stays fits (or nothing stays), and with any proper prefix of them gone, so also
      with the last one restored, the rest would not fit. */
  lemma VictimsAreFewest(caches: seq<Cache>, x: Inputs)
    ensures KeptByQuota(caches, x) == [] || Fits(Total(KeptByQuota(caches, x)), x)
    ensures forall j :: 0 <= j < |Victims(caches, x)| ==>
      !Fits(Total(Victims(caches, x)[j..] + KeptByQuota(caches, x)), x)
  {
    SortContents(Left(caches, x), LessRecent());
    FewestOf(ByAge(caches, x), x, Excess(ByAge(caches, x), Total(Left(caches, x)), x));
  }

  lemma FewestOf(s: seq<Cache>, x: Inputs, k: nat)
    requires k == Excess(s, Total(s), x)
    ensures s[k..] == [] || Fits(Total(s[k..]), x)
    ensures forall j :: 0 <= j < k ==> !Fits(Total(s[..k][j..] + s[k..]), x)
  {
    ExcessIsLeast(s, x);
    forall j | 0 <= j < k
      ensures !Fits(Total(s[..k][j..] + s[k..]), x)
    {
      JoinCut(s, j, k);
    }
  }

  lemma JoinCut(s: seq<Cache>, j: nat, k: nat)
    requires j <= k <= |s|
    ensures s[..k][j..] + s[k..] == s[j..]
  {
  }

  // ------------------------------------------------------------------------------------------------
  // The survivors
  // ------------------------------------------------------------------------------------------------

  lemma FilterCommutes(cs: seq<Cache>, p: Cache -> bool, q: Cache -> bool)
    ensures Filter(Filter(cs, p), q) == Filter(Filter(cs, q), p)
  {
    var both := (c: Cache) => p(c) && q(c);
    FilterTwice(cs, p, q, both);
    FilterTwice(cs, q, p, both);
  }

  lemma SparedTwice(cs: seq<Cache>, a: set<int>, b: set<int>)
    requires a <= b
    ensures Filter(Filter(cs, Spared(a)), Spared(b)) == Filter(cs, Spared(b))
  {
    FilterTwice(cs, Spared(a), Spared(b), Spared(b));
  }

  /** The managed survivors, seen from each rule. */
  lemma ManagedSurvivors(caches: seq<Cache>, x: Inputs)
    ensures var ids := Ids(PlanOf(caches, x));
      && Managed(Survivors(caches, x), x) == Filter(Managed(caches, x), Spared(ids))
      && Managed(Survivors(caches, x), x) == Filter(Candidates(caches, x), Spared(ids))
      && Managed(Survivors(caches, x), x) == Filter(Left(caches, x), Spared(ids))
  {
    var ids := Ids(PlanOf(caches, x));
    RulesInOrder(caches, x);
    FilterCommutes(caches, Spared(ids), IsManaged(x));
    SparedTwice(Managed(caches, x), Ids(AfterStale(caches, x)), ids);
    SparedTwice(Managed(caches, x), Ids(AfterSuperseded(caches, x)), ids);
  }

  /** The managed survivors are exactly what the quota leaves. */
  lemma SurvivorsAreKept(caches: seq<Cache>, x: Inputs, c: Cache)
    requires UniqueIds(caches)
    ensures c in Managed(Survivors(caches, x), x) <==> c in KeptByQuota(caches, x)
  {
    var left, ids := Left(caches, x), Ids(PlanOf(caches, x));
    ManagedSurvivors(caches, x);
    FilterMembers(left, Spared(ids));
    VictimsAreLru(caches, x);
    LeftOfCandidates(caches, x, c);
    IdsOfDoomAll(AfterSuperseded(caches, x), Victims(caches, x), OverQuota);
    if c in left {
      LeftCount(caches, x, c);
      InOneOfTwo(left, Victims(caches, x), KeptByQuota(caches, x), c);
      if c.id in CacheIds(Victims(caches, x)) { VictimById(caches, x, c); }
    } else {
      assert c !in multiset(left) && c !in multiset(KeptByQuota(caches, x));
    }
  }

  lemma LeftCount(caches: seq<Cache>, x: Inputs, c: Cache)
    requires UniqueIds(caches) && c in Left(caches, x)
    ensures multiset(Left(caches, x))[c] == 1
  {
    OnceEach(caches, c);
    FilterCounts(caches, IsManaged(x), c);
    FilterCounts(Managed(caches, x), Spared(Ids(AfterSuperseded(caches, x))), c);
    assert c in multiset(Left(caches, x));
  }

  lemma VictimById(caches: seq<Cache>, x: Inputs, c: Cache)
    requires UniqueIds(caches) && c in Left(caches, x) && c.id in CacheIds(Victims(caches, x))
    ensures c in Victims(caches, x)
  {
    var v :| v in Victims(caches, x) && v.id == c.id;
    VictimsAreLru(caches, x);
    assert v in multiset(Victims(caches, x)) && v in multiset(Left(caches, x));
    FilterMembers(caches, IsManaged(x));
    FilterMembers(Managed(caches, x), Spared(Ids(AfterSuperseded(caches, x))));
    SameIdSameCache(caches, c, v);
  }

  lemma NoneClosedOrIdle(caches: seq<Cache>, x: Inputs)
    ensures forall c <- Managed(Survivors(caches, x), x) :: !Closed(c, x) && !Idle(c, x)
  {
    var managed, ids := Managed(caches, x), Ids(PlanOf(caches, x));
    ManagedSurvivors(caches, x);
    RulesInOrder(caches, x);
    FilterMembers(managed, Spared(ids));
    FilterMembers(managed, IsClosed(x));
    FilterMembers(managed, IsIdle(x));
  }

  lemma FilterSplit(s: seq<Cache>, k: nat, p: Cache -> bool)
    requires k <= |s|
    ensures Filter(s, p) == Filter(s[..k], p) + Filter(s[k..], p)
  {
    CutJoins(s, k);
    FilterConcat(s[..k], s[k..], p);
  }

  lemma CutJoins(s: seq<Cache>, k: nat)
    requires k <= |s|
    ensures s[..k] + s[k..] == s
  {
  }

  lemma AtMostKeepSurvive(caches: seq<Cache>, x: Inputs, g: Group)
    requires x.keep >= 0
    ensures |Members(Managed(Survivors(caches, x), x), g)| <= x.keep
  {
    var cand, ids := Candidates(caches, x), Ids(PlanOf(caches, x));
    var members := Members(cand, g);
    ManagedSurvivors(caches, x);
    FilterCommutes(cand, Spared(ids), InGroup(g));
    var s := Sort(members, Newer());
    SortContents(members, Newer());
    FilterOfSort(members, Newer(), Spared(ids));
    var k := SliceStart(|s|, x.keep);
    FilterSplit(s, k, Spared(ids));
    FilterMembers(s[..k], Spared(ids));
    if members == [] {
      assert s[k..] == [];
    } else {
      FilterMembers(cand, InGroup(g));
      assert members[0] in members;
      GroupsComplete(cand, members[0]);
      RulesInOrder(caches, x);
      assert CacheIds(s[k..]) <= ids;
      assert forall c <- s[k..] :: c.id in CacheIds(s[k..]);
      FilterNothing(s[k..], Spared(ids));
    }
  }

  lemma SurvivorsFit(caches: seq<Cache>, x: Inputs)
    ensures var m := Managed(Survivors(caches, x), x); m == [] || Fits(Total(m), x)
  {
    var left, s, ids := Left(caches, x), ByAge(caches, x), Ids(PlanOf(caches, x));
    ManagedSurvivors(caches, x);
    RulesInOrder(caches, x);
    SortContents(left, LessRecent());
    ExcessIsLeast(s, x);
    var k := Excess(s, Total(s), x);
    assert Victims(caches, x) == s[..k];
    assert forall c <- s[..k] :: c.id in CacheIds(s[..k]);
    FilterNothing(s[..k], Spared(ids));
    FilterSplit(s, k, Spared(ids));
    assert Filter(s, Spared(ids)) == Filter(s[k..], Spared(ids));
    FilterTotal(s[k..], Spared(ids));
    FilterTotalOfSort(left, LessRecent(), Spared(ids));
    FilterOfSort(left, LessRecent(), Spared(ids));
    if k == |s| { assert s[k..] == []; }
  }

  /** After the plan: unmanaged keys were never candidates, no managed cache is closed or stale, every group has at most
      `keep`, and the total is within the quota. */
  lemma SurvivorsObeyTheRules(caches: seq<Cache>, x: Inputs)
    ensures forall d <- PlanOf(caches, x) :: x.prefix <= d.cache.key
    ensures var m := Managed(Survivors(caches, x), x);
      && (forall c <- m :: !Closed(c, x) && !Idle(c, x))
      && (x.keep >= 0 ==> forall g :: |Members(m, g)| <= x.keep)
      && (m == [] || Fits(Total(m), x))
  {
    forall d | d in PlanOf(caches, x)
      ensures x.prefix <= d.cache.key
    {
      ReasonsAreTrue(caches, x, d);
    }
    NoneClosedOrIdle(caches, x);
    SurvivorsFit(caches, x);
    if x.keep >= 0 {
      forall g
        ensures |Members(Managed(Survivors(caches, x), x), g)| <= x.keep
      {
        AtMostKeepSurvive(caches, x, g);
      }
    }
  }

  ghost predicate IdsApart(ds: seq<Doom>) {
    forall i, j :: 0 <= i < j < |ds| ==> ds[i].cache.id != ds[j].cache.id
  }

  lemma {:induction false} DoomAllApart(ds: seq<Doom>, cs: seq<Cache>, why: Reason)
    requires IdsApart(ds)
    ensures IdsApart(DoomAll(ds, cs, why))
    decreases |cs|
  {
    if cs != [] { DoomAllApart(AddDoom(ds, cs[0], why), cs[1..], why); }
  }

  lemma {:induction false} DoomOldApart(ds: seq<Doom>, cs: seq<Cache>, gs: seq<Group>, keep: int)
    requires IdsApart(ds)
    ensures IdsApart(DoomOld(ds, cs, gs, keep))
    decreases |gs|
  {
    if gs != [] {
      DoomOldApart(ds, cs, gs[..|gs| - 1], keep);
      DoomAllApart(DoomOld(ds, cs, gs[..|gs| - 1], keep), Old(Members(cs, gs[|gs| - 1]), keep), Superseded);
    }
  }

  /** No id is deleted twice, and, ids being unique, every unmanaged cache survives. */
  lemma UnmanagedStay(caches: seq<Cache>, x: Inputs, c: Cache)
    requires c in caches && !(x.prefix <= c.key)
    requires UniqueIds(caches)
    ensures IdsApart(PlanOf(caches, x)) && c in Survivors(caches, x)
  {
    DoomAllApart([], Filter(Managed(caches, x), IsClosed(x)), ClosedRef);
    DoomAllApart(AfterClosed(caches, x), Filter(Managed(caches, x), IsIdle(x)), Stale);
    DoomOldApart(AfterStale(caches, x), Candidates(caches, x), Groups(Candidates(caches, x)), x.keep);
    DoomAllApart(AfterSuperseded(caches, x), Victims(caches, x), OverQuota);
    forall d | d in PlanOf(caches, x)
      ensures d.cache.id != c.id
    {
      ReasonsAreTrue(caches, x, d);
      assert d.cache != c;
    }
    FilterMembers(caches, Spared(Ids(PlanOf(caches, x))));
  }

  // ------------------------------------------------------------------------------------------------
  // Idempotence
  // ------------------------------------------------------------------------------------------------

  lemma {:induction false} NothingOld(ds: seq<Doom>, cs: seq<Cache>, gs: seq<Group>, keep: int)
    requires forall g <- gs :: Old(Members(cs, g), keep) == []
    ensures DoomOld(ds, cs, gs, keep) == ds
    decreases |gs|
  {
    if gs != [] {
      assert gs[|gs| - 1] in gs;
      NothingOld(ds, cs, gs[..|gs| - 1], keep);
    }
  }

  /** The first two rules have nothing to say about caches that are neither closed nor stale. */
  lemma QuietStart(caches: seq<Cache>, x: Inputs)
    requires forall c <- Managed(caches, x) :: !Closed(c, x) && !Idle(c, x)
    ensures AfterStale(caches, x) == [] && Candidates(caches, x) == Managed(caches, x)
  {
    var m := Managed(caches, x);
    FilterNothing(m, IsClosed(x));
    FilterNothing(m, IsIdle(x));
    FilterEverything(m, Spared(Ids([])));
  }

  lemma RulesObeyedMeansNoPlan(caches: seq<Cache>, x: Inputs)
    requires forall c <- Managed(caches, x) :: !Closed(c, x) && !Idle(c, x)
    requires Managed(caches, x) == [] || (x.keep >= 0 && forall g :: |Members(Managed(caches, x), g)| <= x.keep)
    requires Managed(caches, x) == [] || Fits(Total(Managed(caches, x)), x)
    ensures PlanOf(caches, x) == []
  {
    var m := Managed(caches, x);
    QuietStart(caches, x);
    forall g | g in Groups(m)
      ensures Old(Members(m, g), x.keep) == []
    {
      SortContents(Members(m, g), Newer());
    }
    NothingOld([], m, Groups(m), x.keep);
    FilterEverything(m, Spared(Ids([])));
    SortContents(m, LessRecent());
    assert Victims(caches, x) == [];
  }

  ghost predicate Idempotent(x: Inputs) {
    forall caches :: PlanOf(Survivors(caches, x), x) == []
  }

  lemma NegativeQuotaClears(caches: seq<Cache>, x: Inputs)
    requires x.quotaGib < 0.0
    ensures Managed(Survivors(caches, x), x) == []
  {
    SurvivorsFit(caches, x);
  }

  // ------------------------------------------------------------------------------------------------
  // A negative `keep`
  // ------------------------------------------------------------------------------------------------

  /** `n` caches that differ only in their id, recently used, belonging to no ref. */
  function Clones(n: nat, x: Inputs): seq<Cache> {
    seq(n, i => Cache(i, x.prefix, "", 0, x.now - DAY * (x.maxIdleDays - 1), 0))
  }

  ghost predicate AreClones(cs: seq<Cache>, n: nat, x: Inputs) {
    forall c <- cs :: c in Clones(n, x)
  }

  lemma ClonesAreFine(cs: seq<Cache>, n: nat, x: Inputs)
    requires AreClones(cs, n, x)
    ensures Managed(cs, x) == cs && Candidates(cs, x) == cs && AfterStale(cs, x) == []
    ensures forall g :: Members(cs, g) == if g == ("", GroupOf(x.prefix)) then cs else []
  {
    assert forall c <- cs :: c.key == x.prefix && c.ref == "" && c.accessed == x.now - DAY * (x.maxIdleDays - 1);
    forall c | c in cs
      ensures !Closed(c, x) && !Idle(c, x)
    {
      assert x.now - c.accessed == DAY * (x.maxIdleDays - 1);
      assert (DAY * (x.maxIdleDays - 1)) / DAY == x.maxIdleDays - 1;
    }
    FilterEverything(cs, IsManaged(x));
    QuietStart(cs, x);
    forall g
      ensures Members(cs, g) == if g == ("", GroupOf(x.prefix)) then cs else []
    {
      if g == ("", GroupOf(x.prefix)) { FilterEverything(cs, InGroup(g)); } else { FilterNothing(cs, InGroup(g)); }
    }
  }

  lemma {:induction false} OneGroup(cs: seq<Cache>, g: Group)
    requires cs != [] && forall c <- cs :: GroupKey(c) == g
    ensures Groups(cs) == [g]
    decreases |cs|
  {
    var front := cs[..|cs| - 1];
    assert cs[|cs| - 1] in cs;
    if front == [] {
      assert Groups(front) == [];
    } else {
      assert forall c <- front :: c in cs;
      OneGroup(front, g);
    }
  }

  lemma ClonesOld(cs: seq<Cache>, n: nat, x: Inputs)
    requires cs != [] && AreClones(cs, n, x)
    ensures AfterSuperseded(cs, x) == DoomAll([], Old(cs, x.keep), Superseded)
  {
    var g := ("", GroupOf(x.prefix));
    ClonesAreFine(cs, n, x);
    assert forall c <- cs :: GroupKey(c) == g;
    OneGroup(cs, g);
    DoomOldOfOne([], cs, g, x.keep);
  }

  lemma DoomOldOfOne(ds: seq<Doom>, cs: seq<Cache>, g: Group, keep: int)
    ensures DoomOld(ds, cs, [g], keep) == DoomAll(ds, Old(Members(cs, g), keep), Superseded)
  {
    assert [g][..0] == [] && DoomOld(ds, cs, [], keep) == ds;
  }

  /** With `keep < 0` every call dooms at least the oldest cache of each group. */
  lemma NegativeKeepAlwaysDooms(cs: seq<Cache>, n: nat, x: Inputs)
    requires x.keep < 0 && cs != [] && AreClones(cs, n, x)
    ensures PlanOf(cs, x) != []
  {
    ClonesOld(cs, n, x);
    SortContents(cs, Newer());
    var gone := Old(cs, x.keep);
    assert gone != [];
    IdsOfDoomAll([], gone, Superseded);
    assert gone[0].id in CacheIds(gone);
    RulesInOrder(cs, x);
    assert gone[0].id in Ids(PlanOf(cs, x));
  }

  lemma {:induction false} FreeTotal(cs: seq<Cache>)
    requires forall c <- cs :: c.size == 0
    ensures Total(cs) == 0
  {
    if cs != [] {
      assert cs[0] in cs && forall c <- cs[1..] :: c in cs;
      FreeTotal(cs[1..]);
    }
  }

  lemma {:induction false} OnceEach(cs: seq<Cache>, c: Cache)
    requires forall i, j :: 0 <= i < j < |cs| ==> cs[i] != cs[j]
    ensures multiset(cs)[c] <= 1
  {
    if cs != [] {
      assert cs == [cs[0]] + cs[1..];
      OnceEach(cs[1..], c);
      assert cs[0] !in cs[1..];
    }
  }

  lemma SortKeepsApart(cs: seq<Cache>, first: (Cache, Cache) -> bool, j: nat)
    requires forall i, j :: 0 <= i < j < |cs| ==> cs[i] != cs[j]
    requires j < |Sort(cs, first)|
    ensures Sort(cs, first)[j] !in Sort(cs, first)[..j]
  {
    SortContents(cs, first);
    OnceEach(cs, Sort(cs, first)[j]);
    OnceMeansFirst(Sort(cs, first), j);
  }

  lemma OnceMeansFirst(s: seq<Cache>, j: nat)
    requires j < |s| && multiset(s)[s[j]] <= 1
    ensures s[j] !in s[..j]
  {
    assert s == s[..j] + s[j..];
    assert s[j] == s[j..][0] && s[j] in multiset(s[j..]);
    assert multiset(s)[s[j]] == multiset(s[..j])[s[j]] + multiset(s[j..])[s[j]];
    assert s[j] !in multiset(s[..j]);
  }

  lemma SortedApart(cs: seq<Cache>)
    requires cs != [] && UniqueIds(cs)
    ensures var s := Sort(cs, Newer());
      |s| == |cs| && s[0] in cs && s[0].id !in CacheIds(s[1..])
  {
    var s := Sort(cs, Newer());
    SortContents(cs, Newer());
    assert s[0] in s;
    forall c | c in s[1..]
      ensures c.id != s[0].id
    {
      var j :| 0 <= j < |s[1..]| && s[1..][j] == c;
      SortKeepsApart(cs, Newer(), j + 1);
      assert s[0] in s[..j + 1] && c in s;
      assert c != s[0] && c in cs && s[0] in cs;
    }
  }

  lemma NoVictims(cs: seq<Cache>, n: nat, x: Inputs)
    requires x.quotaGib >= 0.0 && AreClones(cs, n, x) && Managed(cs, x) == cs
    ensures Victims(cs, x) == []
  {
    FilterMembers(cs, Spared(Ids(AfterSuperseded(cs, x))));
    FreeTotal(Left(cs, x));
  }

  /** The clones beyond the first are superseded, and that is all. */
  lemma PlanOfClones(cs: seq<Cache>, n: nat, x: Inputs)
    requires x.keep < 0 && x.quotaGib >= 0.0 && AreClones(cs, n, x) && |cs| == 1 - x.keep
    ensures Ids(PlanOf(cs, x)) == CacheIds(Sort(cs, Newer())[1..])
  {
    ClonesOld(cs, n, x);
    ClonesAreFine(cs, n, x);
    NoVictims(cs, n, x);
    SortContents(cs, Newer());
    assert Old(cs, x.keep) == Sort(cs, Newer())[1..];
    IdsOfDoomAll([], Old(cs, x.keep), Superseded);
  }

  lemma FirstSurvives(cs: seq<Cache>, n: nat, c: Cache, x: Inputs)
    requires AreClones(cs, n, x) && c in cs && c.id !in Ids(PlanOf(cs, x))
    ensures Survivors(cs, x) != [] && AreClones(Survivors(cs, x), n, x)
  {
    FilterMembers(cs, Spared(Ids(PlanOf(cs, x))));
    assert c in Survivors(cs, x);
  }

  lemma ClonesAreClones(n: nat, x: Inputs)
    ensures |Clones(n, x)| == n && AreClones(Clones(n, x), n, x)
  {
  }

  /** The newest of `|keep| + 1` clones survives the first call. */
  lemma OneCloneSurvives(cs: seq<Cache>, n: nat, x: Inputs)
    requires x.keep < 0 && x.quotaGib >= 0.0 && n == 1 - x.keep
    requires AreClones(cs, n, x) && |cs| == n && UniqueIds(cs)
    ensures Survivors(cs, x) != [] && AreClones(Survivors(cs, x), n, x)
  {
    PlanOfClones(cs, n, x);
    SortedApart(cs);
    FirstSurvives(cs, n, Sort(cs, Newer())[0], x);
  }

  /** Planning again over the survivors, with the same inputs, deletes nothing: for all cache lists if and only if `keep`
      is not negative (or the quota is, which clears everything).  `members[keep:]` with a negative `keep` takes the
      oldest of what is left, on every call. */
  lemma IdempotentIff(x: Inputs)
    ensures Idempotent(x) <==> x.keep >= 0 || x.quotaGib < 0.0
  {
    if x.keep >= 0 || x.quotaGib < 0.0 {
      forall caches
        ensures PlanOf(Survivors(caches, x), x) == []
      {
        NoneClosedOrIdle(caches, x);
        SurvivorsFit(caches, x);
        if x.keep >= 0 {
          SurvivorsObeyTheRules(caches, x);
        } else {
          NegativeQuotaClears(caches, x);
        }
        RulesObeyedMeansNoPlan(Survivors(caches, x), x);
      }
    } else {
      var n := 1 - x.keep;
      var cs := Clones(n, x);
      ClonesAreClones(n, x);
      OneCloneSurvives(cs, n, x);
      NegativeKeepAlwaysDooms(Survivors(cs, x), n, x);
    }
  }
}
