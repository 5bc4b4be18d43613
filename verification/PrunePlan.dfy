/**
 The cache pruning plan: four rules in order, each dooming caches with a reason.  Times are integers, `quotaGib` is a real
 number, dictionaries keep the order of insertion.
 */
module PrunePlan {
  import opened CacheLists

  datatype Reason = ClosedRef | Stale | Superseded | OverQuota

  datatype Doom = Doom(cache: Cache, why: Reason)

  datatype Inputs = Inputs(
    now: int,
    openPrs: set<string>,
    liveBranches: set<string>,
    prefix: string,
    maxIdleDays: int,
    keep: int,
    quotaGib: real)

  const GIB := 1_073_741_824
  const DAY := 86_400_000_000

  // ------------------------------------------------------------------------------------------------
  // Strings
  // ------------------------------------------------------------------------------------------------

  /** Up to the first `sep`. */
  function UpTo(s: string, sep: char): string {
    if s == [] || s[0] == sep then [] else [s[0]] + UpTo(s[1..], sep)
  }

  /** The part before the last `-` of a key, or the whole key. */
  function GroupOf(key: string): (g: string)
    ensures g == key <==> '-' !in key
    ensures g != key ==> |g| < |key| && g == key[..|g|] && key[|g|] == '-' && '-' !in key[|g| + 1..]
  {
    if key == [] || '-' !in key then key
    else if key[|key| - 1] == '-' then key[..|key| - 1]
    else
      var g := GroupOf(key[..|key| - 1]);
      assert '-' in key[..|key| - 1];
      assert key[|g| + 1..] == key[..|key| - 1][|g| + 1..] + [key[|key| - 1]];
      g
  }

  const PULL := "refs/pull/"
  const HEADS := "refs/heads/"

  /** The ref's pull request is not open, or its branch does not exist. */
  predicate Closed(c: Cache, x: Inputs) {
    if PULL <= c.ref then UpTo(c.ref[|PULL|..], '/') !in x.openPrs
    else HEADS <= c.ref && c.ref[|HEADS|..] !in x.liveBranches
  }

  /** `timedelta.days` rounds down. */
  predicate Idle(c: Cache, x: Inputs) {
    (x.now - c.accessed) / DAY >= x.maxIdleDays
  }

  function IsManaged(x: Inputs): Cache -> bool { (c: Cache) => x.prefix <= c.key }

  function IsClosed(x: Inputs): Cache -> bool { (c: Cache) => Closed(c, x) }

  function IsIdle(x: Inputs): Cache -> bool { (c: Cache) => Idle(c, x) }

  function Spared(ids: set<int>): Cache -> bool { (c: Cache) => c.id !in ids }

  // ------------------------------------------------------------------------------------------------
  // The dictionary of doomed caches
  // ------------------------------------------------------------------------------------------------

  function Ids(ds: seq<Doom>): set<int> { set d <- ds :: d.cache.id }

  /** `setdefault`: the first reason stays. */
  function AddDoom(ds: seq<Doom>, c: Cache, why: Reason): seq<Doom> {
    if c.id in Ids(ds) then ds else ds + [Doom(c, why)]
  }

  function DoomAll(ds: seq<Doom>, cs: seq<Cache>, why: Reason): seq<Doom>
    decreases |cs|
  {
    if cs == [] then ds else DoomAll(AddDoom(ds, cs[0], why), cs[1..], why)
  }

  // ------------------------------------------------------------------------------------------------
  // Groups
  // ------------------------------------------------------------------------------------------------

  type Group = (string, string)

  function GroupKey(c: Cache): Group { (c.ref, GroupOf(c.key)) }

  function InGroup(g: Group): Cache -> bool { (c: Cache) => GroupKey(c) == g }

  function Members(cs: seq<Cache>, g: Group): seq<Cache> { Filter(cs, InGroup(g)) }

  /** The groups of `cs`, in the order of first appearance. */
  function Groups(cs: seq<Cache>): seq<Group>
    decreases |cs|
  {
    if cs == [] then []
    else
      var gs := Groups(cs[..|cs| - 1]);
      var g := GroupKey(cs[|cs| - 1]);
      if g in gs then gs else gs + [g]
  }

  function Newer(): (Cache, Cache) -> bool { (a: Cache, b: Cache) => a.created >= b.created }

  function LessRecent(): (Cache, Cache) -> bool { (a: Cache, b: Cache) => a.accessed <= b.accessed }

  /** Where the slice `s[keep:]` of a list of length `n` starts. */
  function SliceStart(n: nat, keep: int): (k: nat)
    ensures k <= n
  {
    if keep >= 0 then (if keep <= n then keep else n) else if n + keep >= 0 then n + keep else 0
  }

  /** `members[keep:]`, newest first. */
  function Old(members: seq<Cache>, keep: int): seq<Cache> {
    var s := Sort(members, Newer());
    SortContents(members, Newer());
    s[SliceStart(|s|, keep)..]
  }

  function DoomOld(ds: seq<Doom>, cs: seq<Cache>, gs: seq<Group>, keep: int): seq<Doom>
    decreases |gs|
  {
    if gs == [] then ds
    else DoomAll(DoomOld(ds, cs, gs[..|gs| - 1], keep), Old(Members(cs, gs[|gs| - 1]), keep), Superseded)
  }

  predicate Fits(total: int, x: Inputs) {
    total as real <= x.quotaGib * GIB as real
  }

  /** How many of the least recently used caches have to go. */
  function Excess(sorted: seq<Cache>, total: int, x: Inputs): (k: nat)
    ensures k <= |sorted|
  {
    if sorted == [] || Fits(total, x) then 0 else 1 + Excess(sorted[1..], total - sorted[0].size, x)
  }

  // ------------------------------------------------------------------------------------------------
  // The plan, rule by rule
  // ------------------------------------------------------------------------------------------------

  function Managed(caches: seq<Cache>, x: Inputs): seq<Cache> { Filter(caches, IsManaged(x)) }

  function AfterClosed(caches: seq<Cache>, x: Inputs): seq<Doom> {
    DoomAll([], Filter(Managed(caches, x), IsClosed(x)), ClosedRef)
  }

  function AfterStale(caches: seq<Cache>, x: Inputs): seq<Doom> {
    DoomAll(AfterClosed(caches, x), Filter(Managed(caches, x), IsIdle(x)), Stale)
  }

  /** What the first two rules leave. */
  function Candidates(caches: seq<Cache>, x: Inputs): seq<Cache> {
    Filter(Managed(caches, x), Spared(Ids(AfterStale(caches, x))))
  }

  function AfterSuperseded(caches: seq<Cache>, x: Inputs): seq<Doom> {
    DoomOld(AfterStale(caches, x), Candidates(caches, x), Groups(Candidates(caches, x)), x.keep)
  }

  /** What the first three rules leave. */
  function Left(caches: seq<Cache>, x: Inputs): seq<Cache> {
    Filter(Managed(caches, x), Spared(Ids(AfterSuperseded(caches, x))))
  }

  function ByAge(caches: seq<Cache>, x: Inputs): seq<Cache> { Sort(Left(caches, x), LessRecent()) }

  /** The victims of the quota. */
  function Victims(caches: seq<Cache>, x: Inputs): seq<Cache> {
    ByAge(caches, x)[..Excess(ByAge(caches, x), Total(Left(caches, x)), x)]
  }

  function PlanOf(caches: seq<Cache>, x: Inputs): seq<Doom> {
    DoomAll(AfterSuperseded(caches, x), Victims(caches, x), OverQuota)
  }

  /** What is there after the plan has been carried out. */
  function Survivors(caches: seq<Cache>, x: Inputs): seq<Cache> {
    Filter(caches, Spared(Ids(PlanOf(caches, x))))
  }

  // ------------------------------------------------------------------------------------------------
  // The planner's loops
  // ------------------------------------------------------------------------------------------------

  lemma {:induction false} DoomAllMore(ds: seq<Doom>, a: seq<Cache>, b: seq<Cache>, why: Reason)
    ensures DoomAll(ds, a + b, why) == DoomAll(DoomAll(ds, a, why), b, why)
    decreases |a|
  {
    if a == [] {
      assert a + b == b;
    } else {
      assert (a + b)[1..] == a[1..] + b;
      DoomAllMore(AddDoom(ds, a[0], why), a[1..], b, why);
    }
  }

  lemma DoomOneMore(ds: seq<Doom>, cs: seq<Cache>, c: Cache, why: Reason)
    ensures DoomAll(ds, cs + [c], why) == AddDoom(DoomAll(ds, cs, why), c, why)
  {
    DoomAllMore(ds, cs, [c], why);
    assert [c][1..] == [];
  }

  method DoomWhere(start: seq<Doom>, cs: seq<Cache>, p: Cache -> bool, why: Reason) returns (doomed: seq<Doom>)
    ensures doomed == DoomAll(start, Filter(cs, p), why)
  {
    doomed := start;
    for i := 0 to |cs|
      invariant doomed == DoomAll(start, Filter(cs[..i], p), why)
    {
      FilterOneMore(cs, i, p);
      if p(cs[i]) {
        DoomOneMore(start, Filter(cs[..i], p), cs[i], why);
        doomed := AddDoom(doomed, cs[i], why);
      } else {
        assert Filter(cs[..i], p) + [] == Filter(cs[..i], p);
      }
    }
    assert cs[..|cs|] == cs;
  }

  method CollectGroups(cs: seq<Cache>) returns (order: seq<Group>, groups: map<Group, seq<Cache>>)
    ensures order == Groups(cs) && (forall g :: g in groups <==> g in order)
    ensures forall g <- order :: groups[g] == Members(cs, g)
  {
    order, groups := [], map[];
    for i := 0 to |cs|
      invariant order == Groups(cs[..i]) && (forall g :: g in groups <==> g in order)
      invariant forall g <- order :: groups[g] == Members(cs[..i], g)
      invariant forall g :: g !in order ==> Members(cs[..i], g) == []
    {
      var g := GroupKey(cs[i]);
      assert cs[..i + 1][..i] == cs[..i] && cs[..i + 1][i] == cs[i];
      forall h
        ensures Members(cs[..i + 1], h) == Members(cs[..i], h) + (if h == g then [cs[i]] else [])
      {
        FilterOneMore(cs, i, InGroup(h));
      }
      if g !in groups {
        order := order + [g];
        groups := groups[g := []];
      }
      groups := groups[g := groups[g] + [cs[i]]];
    }
    assert cs[..|cs|] == cs;
  }

  lemma DoomUpTo(ds: seq<Doom>, cs: seq<Cache>, i: nat, why: Reason)
    requires i < |cs|
    ensures DoomAll(ds, cs[..i + 1], why) == AddDoom(DoomAll(ds, cs[..i], why), cs[i], why)
  {
    assert cs[..i + 1] == cs[..i] + [cs[i]];
    DoomOneMore(ds, cs[..i], cs[i], why);
  }

  lemma DoomOneGroup(ds: seq<Doom>, cs: seq<Cache>, gs: seq<Group>, k: nat, keep: int)
    requires k < |gs|
    ensures DoomOld(ds, cs, gs[..k + 1], keep) ==
            DoomAll(DoomOld(ds, cs, gs[..k], keep), Old(Members(cs, gs[k]), keep), Superseded)
  {
    assert gs[..k + 1][..k] == gs[..k];
  }

  method DoomOldOnes(start: seq<Doom>, cs: seq<Cache>, order: seq<Group>, groups: map<Group, seq<Cache>>, keep: int)
    returns (doomed: seq<Doom>)
    requires forall g <- order :: g in groups && groups[g] == Members(cs, g)
    ensures doomed == DoomOld(start, cs, order, keep)
  {
    doomed := start;
    for k := 0 to |order|
      invariant doomed == DoomOld(start, cs, order[..k], keep)
    {
      var members := Sort(groups[order[k]], Newer());
      var tail := members[SliceStart(|members|, keep)..];
      assert tail == Old(Members(cs, order[k]), keep);
      DoomOneGroup(start, cs, order, k, keep);
      ghost var before := doomed;
      for i := 0 to |tail|
        invariant doomed == DoomAll(before, tail[..i], Superseded)
      {
        DoomUpTo(before, tail, i, Superseded);
        doomed := AddDoom(doomed, tail[i], Superseded);
      }
      assert tail[..|tail|] == tail;
    }
    assert order[..|order|] == order;
  }

  method DoomExcess(start: seq<Doom>, sorted: seq<Cache>, sum: int, x: Inputs) returns (doomed: seq<Doom>)
    ensures doomed == DoomAll(start, sorted[..Excess(sorted, sum, x)], OverQuota)
  {
    doomed := start;
    var total, i := sum, 0;
    while i < |sorted| && !Fits(total, x)
      invariant i <= |sorted|
      invariant doomed == DoomAll(start, sorted[..i], OverQuota)
      invariant Excess(sorted, sum, x) == i + Excess(sorted[i..], total, x)
    {
      assert sorted[i..][1..] == sorted[i + 1..];
      DoomUpTo(start, sorted, i, OverQuota);
      doomed := AddDoom(doomed, sorted[i], OverQuota);
      total := total - sorted[i].size;
      i := i + 1;
    }
  }

  method Plan(caches: seq<Cache>, x: Inputs) returns (todo: seq<Doom>)
    ensures todo == PlanOf(caches, x)
  {
    var managed := Filter(caches, IsManaged(x));
    todo := DoomWhere([], managed, IsClosed(x), ClosedRef);
    todo := DoomWhere(todo, managed, IsIdle(x), Stale);
    var live := Filter(managed, Spared(Ids(todo)));
    var order, groups := CollectGroups(live);
    todo := DoomOldOnes(todo, live, order, groups, x.keep);
    var left := Filter(managed, Spared(Ids(todo)));
    todo := DoomExcess(todo, Sort(left, LessRecent()), Total(left), x);
  }
}
