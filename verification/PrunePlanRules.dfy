/** The rules of the plan in terms of refs, days, groups and bytes. */
module PrunePlanRules {
  import opened CacheLists
  import opened PrunePlan
  import opened PrunePlanLaws

  lemma {:induction false} UpToSeparator(name: string, sep: char, rest: string)
    requires sep !in name
    ensures UpTo(name, sep) == name && UpTo(name + [sep] + rest, sep) == name
  {
    if name == [] {
      assert (name + [sep] + rest)[0] == sep;
    } else {
      var whole := name + [sep] + rest;
      assert whole[0] == name[0] && whole[1..] == name[1..] + [sep] + rest;
      UpToSeparator(name[1..], sep, rest);
      assert name == [name[0]] + name[1..];
    }
  }

  lemma DoomedByFirstRule(caches: seq<Cache>, x: Inputs, c: Cache)
    requires UniqueIds(caches) && c in caches && x.prefix <= c.key
    ensures Doom(c, ClosedRef) in PlanOf(caches, x) <==> Closed(c, x)
  {
    if Doom(c, ClosedRef) in PlanOf(caches, x) {
      ReasonsAreTrue(caches, x, Doom(c, ClosedRef));
    } else if Closed(c, x) {
      FilterMembers(caches, IsManaged(x));
      FilterMembers(Managed(caches, x), IsClosed(x));
      IdsOfDoomAll([], Filter(Managed(caches, x), IsClosed(x)), ClosedRef);
      assert c.id in CacheIds(Filter(Managed(caches, x), IsClosed(x)));
      var d :| d in AfterClosed(caches, x) && d.cache.id == c.id;
      SameIdSameCache(caches, c, d.cache);
      assert d == Doom(c, ClosedRef);
      RulesInOrder(caches, x);
      assert false;
    }
  }

  lemma PullIsClosed(c: Cache, x: Inputs, name: string, rest: string)
    requires '/' !in name && (c.ref == "refs/pull/" + name || c.ref == "refs/pull/" + name + "/" + rest)
    ensures Closed(c, x) <==> name !in x.openPrs
  {
    UpToSeparator(name, '/', rest);
    if c.ref == "refs/pull/" + name {
      assert c.ref[|PULL|..] == name;
    } else {
      assert c.ref == PULL + (name + ['/'] + rest);
      assert c.ref[|PULL|..] == name + ['/'] + rest;
    }
  }

  lemma BranchIsClosed(c: Cache, x: Inputs, name: string)
    requires c.ref == "refs/heads/" + name
    ensures Closed(c, x) <==> name !in x.liveBranches
  {
    assert c.ref[5] == 'h' && PULL[5] == 'p';
    assert c.ref[|HEADS|..] == name;
  }

  /** A managed cache is deleted as closed-ref if and only if its ref names a pull request that is not open, or a branch
      that does not exist; a ref of any other kind is never closed. */
  lemma ClosedRefMeans(caches: seq<Cache>, x: Inputs, c: Cache, name: string, rest: string)
    requires UniqueIds(caches) && c in caches && x.prefix <= c.key
    ensures '/' !in name && (c.ref == "refs/pull/" + name || c.ref == "refs/pull/" + name + "/" + rest) ==>
      (Doom(c, ClosedRef) in PlanOf(caches, x) <==> name !in x.openPrs)
    ensures c.ref == "refs/heads/" + name ==> (Doom(c, ClosedRef) in PlanOf(caches, x) <==> name !in x.liveBranches)
    ensures !("refs/pull/" <= c.ref) && !("refs/heads/" <= c.ref) ==> Doom(c, ClosedRef) !in PlanOf(caches, x)
  {
    DoomedByFirstRule(caches, x, c);
    if '/' !in name && (c.ref == "refs/pull/" + name || c.ref == "refs/pull/" + name + "/" + rest) {
      PullIsClosed(c, x, name, rest);
    }
    if c.ref == "refs/heads/" + name { BranchIsClosed(c, x, name); }
  }

  lemma DoomedBySecondRule(caches: seq<Cache>, x: Inputs, c: Cache)
    requires UniqueIds(caches) && c in caches && x.prefix <= c.key && !Closed(c, x)
    ensures Doom(c, Stale) in PlanOf(caches, x) <==> Idle(c, x)
  {
    if Doom(c, Stale) in PlanOf(caches, x) {
      ReasonsAreTrue(caches, x, Doom(c, Stale));
    } else if Idle(c, x) {
      var managed := Managed(caches, x);
      FilterMembers(caches, IsManaged(x));
      FilterMembers(managed, IsClosed(x));
      FilterMembers(managed, IsIdle(x));
      IdsOfDoomAll([], Filter(managed, IsClosed(x)), ClosedRef);
      IdsOfDoomAll(AfterClosed(caches, x), Filter(managed, IsIdle(x)), Stale);
      assert c.id in Ids(AfterStale(caches, x));
      var d :| d in AfterStale(caches, x) && d.cache.id == c.id;
      SameIdSameCache(caches, c, d.cache);
      RulesInOrder(caches, x);
      assert false;
    }
  }

  /** A managed cache is deleted as stale if and only if it is not deleted as closed-ref and has not been used for
      `maxIdleDays` days of 86400 seconds. */
  lemma StaleMeans(caches: seq<Cache>, x: Inputs, c: Cache)
    requires UniqueIds(caches) && c in caches && x.prefix <= c.key
    ensures Doom(c, Stale) in PlanOf(caches, x) <==>
      Doom(c, ClosedRef) !in PlanOf(caches, x) && x.now - c.accessed >= x.maxIdleDays * 86_400_000_000
  {
    DoomedByFirstRule(caches, x, c);
    if Closed(c, x) {
      if Doom(c, Stale) in PlanOf(caches, x) {
        ReasonsAreTrue(caches, x, Doom(c, Stale));
      }
    } else {
      DoomedBySecondRule(caches, x, c);
      WholeDays(x.now - c.accessed, x.maxIdleDays);
    }
  }

  lemma WholeDays(t: int, days: int)
    ensures t / DAY >= days <==> t >= days * 86_400_000_000
  {
  }

  lemma StaleIdsAre(caches: seq<Cache>, x: Inputs, c: Cache)
    requires UniqueIds(caches) && c in caches && x.prefix <= c.key
    ensures c.id in Ids(AfterStale(caches, x)) <==> Closed(c, x) || Idle(c, x)
  {
    var managed := Managed(caches, x);
    var closed, idle := Filter(managed, IsClosed(x)), Filter(managed, IsIdle(x));
    FilterMembers(caches, IsManaged(x));
    FilterMembers(managed, IsClosed(x));
    FilterMembers(managed, IsIdle(x));
    IdsOfDoomAll([], closed, ClosedRef);
    IdsOfDoomAll(AfterClosed(caches, x), idle, Stale);
    if c.id in CacheIds(closed) {
      var d :| d in closed && d.id == c.id;
      SameIdSameCache(caches, c, d);
    }
    if c.id in CacheIds(idle) {
      var d :| d in idle && d.id == c.id;
      SameIdSameCache(caches, c, d);
    }
  }

  lemma SupersededIdsAre(caches: seq<Cache>, x: Inputs, c: Cache)
    requires UniqueIds(caches) && c in Candidates(caches, x) && c.id in Ids(AfterSuperseded(caches, x))
    ensures Doom(c, Superseded) in PlanOf(caches, x)
  {
    var cand := Candidates(caches, x);
    var d :| d in AfterSuperseded(caches, x) && d.cache.id == c.id;
    CandidatesOnce(caches, x, GroupKey(c), c);
    SourceOfDoomOld(AfterStale(caches, x), cand, Groups(cand), x.keep, d);
    OldAreMembers(cand, GroupKey(d.cache), x.keep);
    CandidatesOnce(caches, x, GroupKey(c), d.cache);
    SameIdSameCache(caches, c, d.cache);
    RulesInOrder(caches, x);
  }

  /** The third rule sees exactly the managed caches that the first two do not delete, and the quota exactly those of
      them that the third does not delete. */
  lemma StagesMean(caches: seq<Cache>, x: Inputs, c: Cache)
    requires UniqueIds(caches) && c in caches && x.prefix <= c.key
    ensures c in Candidates(caches, x) <==>
      Doom(c, ClosedRef) !in PlanOf(caches, x) && Doom(c, Stale) !in PlanOf(caches, x)
    ensures c in Left(caches, x) <==> c in Candidates(caches, x) && Doom(c, Superseded) !in PlanOf(caches, x)
  {
    FilterMembers(caches, IsManaged(x));
    FilterMembers(Managed(caches, x), Spared(Ids(AfterStale(caches, x))));
    StaleIdsAre(caches, x, c);
    DoomedByFirstRule(caches, x, c);
    if !Closed(c, x) { DoomedBySecondRule(caches, x, c); }
    LeftOfCandidates(caches, x, c);
    if Doom(c, Superseded) in PlanOf(caches, x) {
      DoomedIsNotLeft(caches, x, c);
    } else if c in Candidates(caches, x) && c.id in Ids(AfterSuperseded(caches, x)) {
      SupersededIdsAre(caches, x, c);
    }
  }

  /** The groups are told apart by ref and by key up to the last dash: the candidates of group `(ref, head)` are all the
      candidates with that ref and that head, and so are those the third rule leaves. */
  lemma GroupsMean(caches: seq<Cache>, x: Inputs, ref: string, head: string, c: Cache)
    ensures c in Members(Candidates(caches, x), (ref, head)) <==>
      c in Candidates(caches, x) && c.ref == ref && GroupOf(c.key) == head
    ensures c in Members(Left(caches, x), (ref, head)) <==>
      c in Left(caches, x) && c.ref == ref && GroupOf(c.key) == head
  {
    FilterMembers(Candidates(caches, x), InGroup((ref, head)));
    FilterMembers(Left(caches, x), InGroup((ref, head)));
  }

  /** A cache is superseded only by as many caches of its own ref and key head as are kept, all of them managed, none
      older than it, and none of them deleted before the quota. */
  lemma SupersededMeans(caches: seq<Cache>, x: Inputs, c: Cache) returns (newer: seq<Cache>)
    requires UniqueIds(caches) && x.keep >= 0 && Doom(c, Superseded) in PlanOf(caches, x)
    ensures |newer| == x.keep && (forall i, j :: 0 <= i < j < |newer| ==> newer[i] != newer[j])
    ensures forall n <- newer ::
      && n in caches && x.prefix <= n.key && n.ref == c.ref && GroupOf(n.key) == GroupOf(c.key)
      && n.created >= c.created && n != c && n in Left(caches, x)
  {
    var g := GroupKey(c);
    var members := Members(Candidates(caches, x), g);
    newer := Members(Left(caches, x), g);
    ReasonsAreTrue(caches, x, Doom(c, Superseded));
    NewestAreKept(caches, x, g);
    GroupSplits(members, x.keep);
    DoomedIsNotLeft(caches, x, c);
    assert c in multiset(Old(members, x.keep));
    MembersApart(caches, x, g);
    forall n | n in newer
      ensures n in caches && x.prefix <= n.key && n.ref == c.ref && GroupOf(n.key) == GroupOf(c.key)
      ensures n.created >= c.created && n != c && n in Left(caches, x)
    {
      GroupsMean(caches, x, g.0, g.1, n);
      GroupsMean(caches, x, g.0, g.1, c);
      FilterMembers(caches, IsManaged(x));
      FilterMembers(Managed(caches, x), Spared(Ids(AfterSuperseded(caches, x))));
    }
  }

  lemma DoomedIsNotLeft(caches: seq<Cache>, x: Inputs, c: Cache)
    requires UniqueIds(caches) && Doom(c, Superseded) in PlanOf(caches, x)
    ensures c !in Left(caches, x) && c in Members(Candidates(caches, x), GroupKey(c))
  {
    ReasonsAreTrue(caches, x, Doom(c, Superseded));
    OldAreMembers(Candidates(caches, x), GroupKey(c), x.keep);
    FilterMembers(Candidates(caches, x), InGroup(GroupKey(c)));
    OldIsDoomed(caches, x, c);
    LeftOfCandidates(caches, x, c);
  }

  lemma MembersApart(caches: seq<Cache>, x: Inputs, g: Group)
    requires UniqueIds(caches)
    ensures var s := Members(Left(caches, x), g); forall i, j :: 0 <= i < j < |s| ==> s[i] != s[j]
  {
    var s := Members(Left(caches, x), g);
    forall i, j | 0 <= i < j < |s|
      ensures s[i] != s[j]
    {
      LeftOnce(caches, x, g, s[j]);
      OnceMeansFirst(s, j);
      assert s[i] == s[..j][i];
    }
  }

  lemma GibMeans(total: int, x: Inputs)
    ensures Fits(total, x) <==> total as real <= x.quotaGib * 1_073_741_824.0
  {
  }

  /** After the plan the managed caches have at most `quotaGib` times 2^30 bytes; and if the quota deleted any, then with
      the last of its victims restored they would have more. */
  lemma QuotaMeans(caches: seq<Cache>, x: Inputs)
    ensures var m := Managed(Survivors(caches, x), x); m == [] || Total(m) as real <= x.quotaGib * 1_073_741_824.0
    ensures var (victims, kept) := (Victims(caches, x), KeptByQuota(caches, x));
      victims != [] ==> (victims[|victims| - 1].size + Total(kept)) as real > x.quotaGib * 1_073_741_824.0
  {
    var victims, kept := Victims(caches, x), KeptByQuota(caches, x);
    SurvivorsObeyTheRules(caches, x);
    GibMeans(Total(Managed(Survivors(caches, x), x)), x);
    if victims != [] {
      var n := |victims| - 1;
      VictimsAreFewest(caches, x);
      assert victims[n..] == [victims[n]];
      TotalAdds([victims[n]], kept, victims[n]);
      GibMeans(victims[n].size + Total(kept), x);
    }
  }

  /** A cache of the list is gone after the plan if and only if the plan deletes it. */
  lemma GoneIff(caches: seq<Cache>, x: Inputs, c: Cache)
    requires UniqueIds(caches) && c in caches
    ensures c !in Survivors(caches, x) <==> exists why :: Doom(c, why) in PlanOf(caches, x)
  {
    FilterMembers(caches, Spared(Ids(PlanOf(caches, x))));
    if c !in Survivors(caches, x) {
      var d :| d in PlanOf(caches, x) && d.cache.id == c.id;
      ReasonsAreTrue(caches, x, d);
      SameIdSameCache(caches, c, d.cache);
      assert Doom(c, d.why) in PlanOf(caches, x);
    }
  }
}
