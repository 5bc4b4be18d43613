/**
 The sweep cannot deadlock: from every reachable state some schedule delivers everything, exactly when the
 window is no smaller than the stride at which the consumer publishes its progress (or is never reached).
 */
module ProducerSweepProgress {
  import opened Arithmetic
  import opened MpscQueue
  import opened MpscQueueRuns
  import opened MpscQueueProgress
  import opened ProducerSweep
  import opened ProducerSweepRuns
  import opened Traces

  // ------------------------------------------------------------------------------------------------
  // Settling: the schedule that finishes what has been started
  // ------------------------------------------------------------------------------------------------

  function PcWork(s: Sweep): nat {
    if s.pc.Holding? then 2 else if s.pc.Publishing? then 1 else 0
  }

  function Undelivered(s: Sweep): nat {
    if |s.q.returned| <= Sum(s.sent) then Sum(s.sent) - |s.q.returned| else 0
  }

  ghost predicate Quiet(s: Sweep) {
    NoProducerInside(s.q) && s.pc.Looping? && s.q.pop.Idle? && Pending(s.q) == []
  }

  ghost predicate Closer(c: Config, s: Sweep, s': Sweep) {
    && s'.sent == s.sent
    && (|| Undelivered(s') < Undelivered(s)
        || (Undelivered(s') == Undelivered(s) &&
            (|| Sum(PushWorks(s'.q, c.P)) < Sum(PushWorks(s.q, c.P))
             || (Sum(PushWorks(s'.q, c.P)) == Sum(PushWorks(s.q, c.P)) &&
                 (|| PcWork(s') < PcWork(s)
                  || (PcWork(s') == PcWork(s) && PopWork(s'.q) < PopWork(s.q)))))))
  }

  lemma ConsumerAdvances(c: Config, s: Sweep, list: seq<Node>) returns (st: Step)
    requires SweepInv(c, s, list) && NoProducerInside(s.q) && s.pc.Looping? && Pending(s.q) != []
    ensures StepOk(c, s, st) && Closer(c, s, Do(c, s, st))
  {
    Totals(c, s);
    var l := ConsumerAdvancesQueue(s.q, list);
    SameWork(s.q, Apply(s.q, l), c.P);
    st := if l == PopNext then Receive else Move(l);
  }

  /** What has been sent can be delivered, whatever state the threads are in. */
  lemma {:induction false} Settle(c: Config, s: Sweep, list: seq<Node>) returns (s': Sweep, list': seq<Node>)
    requires Sensible(c) && SweepInv(c, s, list)
    ensures SweepInv(c, s', list') && CanReach(Steps(c), s, s') && Quiet(s') && s'.sent == s.sent
    decreases Undelivered(s), Sum(PushWorks(s.q, c.P)), PcWork(s), PopWork(s.q)
  {
    if Quiet(s) {
      ReachSelf(Steps(c), s);
      return s, list;
    }
    var st := SettleStep(c, s, list);
    var s1 := Do(c, s, st);
    var list1 := ListNext(c, s, list, st);
    SweepStepKeeps(c, s, list, st);
    assert Next(c, s, s1);
    ReachStep(Steps(c), s, s1);
    s', list' := Settle(c, s1, list1);
    ReachTransitive(Steps(c), s, s1, s');
  }

  lemma SettleStep(c: Config, s: Sweep, list: seq<Node>) returns (st: Step)
    requires SweepInv(c, s, list) && !Quiet(s)
    ensures StepOk(c, s, st) && Closer(c, s, Do(c, s, st))
  {
    if p: nat :| Producer(p) in s.q.push {
      ProducerAdvancesQueue(s.q, list, p, c.P);
      st := Move(ProducerLabel(s.q, p));
    } else if s.pc.Holding? {
      st := Reclaim;
    } else if s.pc.Publishing? {
      st := Publish;
    } else {
      if Pending(s.q) == [] { NothingPendingIsIdle(s.q, list); }
      st := ConsumerAdvances(c, s, list);
    }
  }

  lemma QuietIsLevel(c: Config, s: Sweep, p: nat)
    requires ClientInv(c, s) && Quiet(s) && p < c.P
    ensures s.nextSeq[p] == s.sent[p] && s.n == |s.q.exchanged| == Sum(s.sent)
  {
    assert s.published[..|s.q.returned|] == s.published;
    Totals(c, s);
  }

  lemma QuietTotal(c: Config, s: Sweep)
    requires ClientInv(c, s) && Quiet(s)
    ensures s.n == Sum(s.sent)
  {
    Totals(c, s);
  }

  lemma QuietIsEmpty(q: Queue, list: seq<Node>)
    requires Inv(q, list) && NoProducerInside(q) && q.pop.Idle?
    ensures forall a :: a !in q.push
  {
    forall a
      ensures a !in q.push
    {
      if a.Producer? { assert Producer(a.id) !in q.push; }
    }
  }

  lemma SendKeepsBoth(c: Config, s: Sweep, list: seq<Node>, p: nat, chain: seq<Node>)
    requires Sensible(c) && SweepInv(c, s, list) && StepOk(c, s, Send(p, chain))
    ensures SweepInv(c, Do(c, s, Send(p, chain)), list)
  {
    SweepStepKeeps(c, s, list, Send(p, chain));
  }

  lemma ChooseChain(c: Config, s: Sweep, p: nat) returns (chain: seq<Node>)
    requires Sensible(c) && MaySend(c, s, p) && s.pc.Looping? && Pending(s.q) == [] && forall a :: a !in s.q.push
    ensures ChainFor(c, s, p, chain) && |chain| >= 1 && (c.mode.Pool? ==> |chain| == 1)
  {
    chain := match c.mode
      case Batch(K) => Chunk(p, s.sent[p], if K < c.per - s.sent[p] then K else c.per - s.sent[p])
      case Pool(_, _) => [Desc(0, 0)];
  }

  /** From a quiet state, a producer below its window sends. */
  lemma QuietSends(c: Config, s: Sweep, list: seq<Node>, p: nat)
    returns (s': Sweep, k: nat)
    requires Sensible(c) && SweepInv(c, s, list) && Quiet(s) && MaySend(c, s, p)
    ensures SweepInv(c, s', list) && CanReach(Steps(c), s, s')
    ensures k >= 1 && s'.sent == s.sent[p := s.sent[p] + k] && (c.mode.Pool? ==> k == 1)
    ensures Sum(s'.sent) > Sum(s.sent)
  {
    QuietIsEmpty(s.q, list);
    var chain := ChooseChain(c, s, p);
    SendKeepsBoth(c, s, list, p, chain);
    s', k := SendOnce(c, s, p, chain);
    assert Next(c, s, s');
    ReachStep(Steps(c), s, s');
  }

  lemma SendOnce(c: Config, s: Sweep, p: nat, chain: seq<Node>) returns (s': Sweep, k: nat)
    requires StepOk(c, s, Send(p, chain)) && |chain| >= 1
    ensures s' == Do(c, s, Send(p, chain)) && k == |chain| && s'.sent == s.sent[p := s.sent[p] + k]
    ensures Sum(s'.sent) > Sum(s.sent)
  {
    s', k := Do(c, s, Send(p, chain)), |chain|;
    SumOfUpdate(s.sent, p, s.sent[p] + k);
  }

  ghost predicate CanFinish(c: Config, s: Sweep) {
    exists t :: CanReach(Steps(c), s, t) && t.n == Expected(c)
  }

  lemma SomebodyLeft(c: Config, s: Sweep) returns (p: nat)
    requires Sizes(c, s) && Sum(s.sent) < Expected(c)
    ensures p < c.P && s.sent[p] < c.per
  {
    if forall r :: 0 <= r < c.P ==> s.sent[r] == c.per {
      SumAtLeast(s.sent, c.per);
    }
    p :| 0 <= p < c.P && s.sent[p] != c.per;
  }

  /** The window cannot hold a producer back for good. */
  ghost predicate WindowSuffices(c: Config) {
    c.mode.Pool? ==> c.mode.every <= c.mode.window || c.per <= c.mode.window
  }

  lemma QuietIsOpen(c: Config, s: Sweep, p: nat)
    requires Sensible(c) && ClientInv(c, s) && Quiet(s) && WindowSuffices(c) && p < c.P && s.sent[p] < c.per
    ensures MaySend(c, s, p)
  {
    if c.mode.Pool? {
      QuietIsLevel(c, s, p);
      ReclaimedBehind(c, s, p);
      WindowGuard(c, s, p);
      if c.mode.every <= c.mode.window && WindowFull(c, s, p) {
        FullWindowHasArrears(c, s, p);
      }
    }
  }

  lemma PickSender(c: Config, s: Sweep) returns (p: nat)
    requires Sensible(c) && ClientInv(c, s) && Quiet(s) && WindowSuffices(c) && s.n < Expected(c)
    ensures MaySend(c, s, p)
  {
    QuietTotal(c, s);
    p := SomebodyLeft(c, s);
    QuietIsOpen(c, s, p);
  }

  function Left(c: Config, s: Sweep): nat {
    if Sum(s.sent) <= Expected(c) then Expected(c) - Sum(s.sent) else 0
  }

  lemma SentAtMost(c: Config, s: Sweep)
    requires ClientInv(c, s)
    ensures Sum(s.sent) <= Expected(c) && s.n <= Expected(c)
  {
    Totals(c, s);
  }

  lemma LeftDrops(c: Config, s: Sweep, u: Sweep)
    requires ClientInv(c, u) && Sum(u.sent) > Sum(s.sent)
    ensures Left(c, u) < Left(c, s)
  {
    SentAtMost(c, u);
  }

  lemma FinishStep(c: Config, s: Sweep, list: seq<Node>) returns (u: Sweep, list': seq<Node>)
    requires Sensible(c) && SweepInv(c, s, list) && WindowSuffices(c)
    ensures SweepInv(c, u, list') && CanReach(Steps(c), s, u)
    ensures u.n == Expected(c) || Left(c, u) < Left(c, s)
  {
    var t, at := Settle(c, s, list);
    u, list' := t, at;
    if t.n != Expected(c) {
      SentAtMost(c, t);
      var p := PickSender(c, t);
      var k;
      u, k := QuietSends(c, t, at, p);
      LeftDrops(c, s, u);
      ReachTransitive(Steps(c), s, t, u);
    }
  }

  lemma ThenFinish(c: Config, s: Sweep, u: Sweep)
    requires CanReach(Steps(c), s, u) && CanFinish(c, u)
    ensures CanFinish(c, s)
  {
    var v :| CanReach(Steps(c), u, v) && v.n == Expected(c);
    ReachTransitive(Steps(c), s, u, v);
  }

  lemma {:induction false} FinishFrom(c: Config, s: Sweep, list: seq<Node>)
    requires Sensible(c) && SweepInv(c, s, list) && WindowSuffices(c)
    ensures CanFinish(c, s)
    decreases Left(c, s)
  {
    var u, list' := FinishStep(c, s, list);
    if u.n != Expected(c) {
      FinishFrom(c, u, list');
      ThenFinish(c, s, u);
    }
  }

  // ------------------------------------------------------------------------------------------------
  // The other direction
  // ------------------------------------------------------------------------------------------------

  /** Producer 0 has filled the window, everything is delivered, and nothing of it was ever published. */
  ghost predicate Frozen(c: Config, s: Sweep) {
    && Sizes(c, s) && c.P > 0 && c.mode.Pool?
    && s.sent[0] == c.mode.window == s.nextSeq[0] && s.reclaimed[0] == 0
    && (!s.pc.Looping? ==> s.pc.from != 0)
  }

  lemma FrozenStays(c: Config, s: Sweep, st: Step)
    requires Sensible(c) && ClientInv(c, s) && Frozen(c, s) && c.mode.window < c.per && StepOk(c, s, st)
    requires st == Receive && PopStep(s.q).1.Got? ==> Pending(s.q) != [] && PopStep(s.q).1.node == Pending(s.q)[0]
    requires ClientInv(c, Do(c, s, st))
    ensures Frozen(c, Do(c, s, st))
  {
    WindowGuard(c, s, 0);
    if st == Receive && PopStep(s.q).1.Got? {
      CheckPasses(c, s, PopStep(s.q).0, PopStep(s.q).1.node);
      NextIsExpected(c, s);
    }
  }

  lemma FrozenNext(c: Config, s: Sweep, list: seq<Node>, s': Sweep) returns (list': seq<Node>)
    requires Sensible(c) && SweepInv(c, s, list) && Frozen(c, s) && c.mode.window < c.per && Steps(c)(s, s')
    ensures SweepInv(c, s', list') && Frozen(c, s')
  {
    var st :| StepOk(c, s, st) && s' == Do(c, s, st);
    SweepStepKeeps(c, s, list, st);
    list' := ListNext(c, s, list, st);
    if st == Receive && PopStep(s.q).1.Got? { GotIsOldest(s.q, list); }
    FrozenStays(c, s, st);
  }

  ghost function KeptFrozen(c: Config): Sweep -> bool {
    s => Frozen(c, s) && exists list :: SweepInv(c, s, list)
  }

  lemma FrozenForever(c: Config, tr: seq<Sweep>)
    requires Sensible(c) && IsRun(Steps(c), tr) && KeptFrozen(c)(tr[0]) && c.mode.window < c.per
    ensures KeptFrozen(c)(Last(tr))
  {
    forall s, t | KeptFrozen(c)(s) && Steps(c)(s, t)
      ensures KeptFrozen(c)(t)
    {
      var list :| SweepInv(c, s, list);
      var list' := FrozenNext(c, s, list, t);
    }
    RunKeeps(Steps(c), KeptFrozen(c), tr);
  }

  lemma FrozenIsUnfinished(c: Config, s: Sweep)
    requires ClientInv(c, s) && Frozen(c, s) && c.mode.window < c.per
    ensures s.n < Expected(c)
  {
    Totals(c, s);
    SumAtMost(s.sent, c.per);
    SumMonotone(s.nextSeq, s.sent) by {
      forall p | 0 <= p < c.P
        ensures s.nextSeq[p] <= s.sent[p]
      {
        StreamPrefix(s.published, |s.q.returned|, p);
      }
    }
  }

  /** Producer 0 sends, and has delivered, `k` messages while nobody else moves. */
  lemma {:induction false} Fill(c: Config, k: nat) returns (s: Sweep, list: seq<Node>)
    requires Sensible(c) && c.mode.Pool? && c.P > 0 && k <= c.mode.window < c.mode.every && c.mode.window < c.per
    ensures SweepInv(c, s, list) && CanReach(Steps(c), Start(c), s) && Quiet(s) && s.sent[0] == k
  {
    if k == 0 {
      StartInv(c);
      s, list := Settle(c, Start(c), [Stub]);
    } else {
      var t, at := Fill(c, k - 1);
      NothingPublished(c, t);
      WindowGuard(c, t, 0);
      var u, one := QuietSends(c, t, at, 0);
      s, list := Settle(c, u, at);
      ReachTransitive(Steps(c), Start(c), t, u);
      ReachTransitive(Steps(c), Start(c), u, s);
    }
  }

  lemma NothingPublished(c: Config, s: Sweep)
    requires Sensible(c) && ClientInv(c, s) && Quiet(s) && c.P > 0
    requires c.mode.Pool? && s.sent[0] < c.mode.every
    ensures s.reclaimed[0] == 0 && s.nextSeq[0] == s.sent[0]
  {
    QuietIsLevel(c, s, 0);
    assert WindowKeptBy(c, s, 0);
    LastMultipleNear(s.nextSeq[0], c.mode.every);
  }

  lemma TooSmallWindowFreezes(c: Config)
    requires Sensible(c) && c.P > 0 && !WindowSuffices(c)
    ensures exists tr :: IsBehaviour(c, tr) && !CanFinish(c, Last(tr))
  {
    var s, list := Fill(c, c.mode.window);
    NothingPublished(c, s);
    var tr :| IsRun(Steps(c), tr) && tr[0] == Start(c) && Last(tr) == s;
    assert Frozen(c, s);
    forall t | CanReach(Steps(c), s, t)
      ensures t.n != Expected(c)
    {
      var ur :| IsRun(Steps(c), ur) && ur[0] == s && Last(ur) == t;
      FrozenForever(c, ur);
      FrozenIsUnfinished(c, t);
    }
    assert IsBehaviour(c, tr) && !CanFinish(c, Last(tr));
  }

  /** From every reachable state some schedule completes the run, if and only if the publishing stride is at most
      the window, or the window is never reached.  The benches use stride 32 and window 4096. */
  lemma NoDeadlockIff(c: Config)
    requires Sensible(c) && c.P > 0
    ensures (forall tr :: IsBehaviour(c, tr) ==> CanFinish(c, Last(tr)))
       <==> (c.mode.Batch? || c.mode.every <= c.mode.window || c.per <= c.mode.window)
  {
    if WindowSuffices(c) {
      forall tr | IsBehaviour(c, tr)
        ensures CanFinish(c, Last(tr))
      {
        var list := BehaviourKeepsAll(c, tr);
        FinishFrom(c, Last(tr), list);
      }
    } else {
      TooSmallWindowFreezes(c);
    }
  }
}
