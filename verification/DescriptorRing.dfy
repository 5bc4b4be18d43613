/**
 One producer, one consumer, and a ring of `window` descriptors that are enqueued again and again: message `i` travels
 in slot `i % window`.  The queue's own type is not part of this model, so `BatchQueue` stands in for it, with chains
 of one node.
 */
module DescriptorRing {
  import opened Basics
  import opened Arithmetic
  import opened MpscQueue
  import MpscQueueRuns
  import opened MpscQueueProgress
  import opened Traces

  datatype Config = Config(window: nat, total: nat)

  /** `i` is the producer's counter, `n` the consumer's; between a dequeue and the store to `consumed` the consumer
      is `storing`. */
  datatype Ring = Ring(q: Queue, i: nat, consumed: nat, n: nat, storing: bool)

  datatype Step = Enqueue | Move(l: Label) | Receive | StoreConsumed

  /** `descs[k % window]`; without descriptors nothing is ever enqueued. */
  function Slot(c: Config, k: nat): Node {
    Desc(0, if c.window == 0 then 0 else k % c.window)
  }

  predicate MayEnqueue(c: Config, s: Ring) {
    Producer(0) !in s.q.push && s.i < c.total && (s.i - s.consumed) % TWO_64 < c.window
  }

  ghost predicate StepOk(c: Config, s: Ring, st: Step) {
    match st
    case Enqueue => MayEnqueue(c, s)
    case Move(l) => (l.Store? || l.Exchange? || l.Link?) && Enabled(s.q, l)
    case Receive => s.n < c.total && !s.storing && Enabled(s.q, PopNext)
    case StoreConsumed => s.storing
  }

  function Do(c: Config, s: Ring, st: Step): Ring
    requires StepOk(c, s, st)
  {
    match st
    case Enqueue => s.(q := s.q.(push := s.q.push[Producer(0) := Filling([Slot(c, s.i)], 0)]), i := s.i + 1)
    case Move(l) => s.(q := Apply(s.q, l))
    case Receive =>
      var (q', out) := PopStep(s.q);
      if out.Got? then s.(q := q', n := s.n + 1, storing := true) else s.(q := q')
    case StoreConsumed => s.(consumed := s.n, storing := false)
  }

  ghost predicate Next(c: Config, s: Ring, s': Ring) {
    exists st :: StepOk(c, s, st) && s' == Do(c, s, st)
  }

  ghost function Steps(c: Config): (Ring, Ring) -> bool {
    (s, s') => Next(c, s, s')
  }

  ghost predicate IsBehaviour(c: Config, tr: seq<Ring>) {
    IsRun(Steps(c), tr) && tr[0] == Ring(Initial, 0, 0, 0, false)
  }

  /** Counters are 64-bit. */
  ghost predicate Sensible(c: Config) { c.total < TWO_64 }

  function InHand(q: Queue): nat {
    if Producer(0) in q.push && q.push[Producer(0)].Filling? then 1 else 0
  }

  ghost predicate RingInv(c: Config, s: Ring) {
    && (forall a <- s.q.push :: a.Producer? ==> a.id == 0)
    && (c.window == 0 ==> s.i == 0)
    && |s.q.exchanged| + InHand(s.q) == s.i <= c.total
    && (forall k {:trigger s.q.exchanged[k]} :: 0 <= k < |s.q.exchanged| ==> s.q.exchanged[k] == Slot(c, k))
    && (InHand(s.q) == 1 ==> s.q.push[Producer(0)].chain == [Slot(c, s.i - 1)])
    && s.n == |s.q.returned| <= |s.q.exchanged| && s.q.returned == s.q.exchanged[..s.n]
    && s.n == s.consumed + (if s.storing then 1 else 0)
    && s.i <= s.consumed + c.window
  }

  lemma ModDiffers(k: nat, i: nat, w: nat)
    requires k < i < k + w
    ensures k % w != i % w
  {
    var d := i / w - k / w;
    assert i % w - k % w == i - k - w * d;
    if d >= 1 {
      assert w * d >= w;
    } else {
      assert w * d <= 0;
    }
  }

  /** The slot for the next message is free whenever the window lets the producer through, and the message that
      last used it has been dequeued. */
  lemma SlotIsFree(c: Config, s: Ring, list: seq<Node>)
    requires Sensible(c) && Inv(s.q, list) && RingInv(c, s) && MayEnqueue(c, s)
    ensures Enabled(s.q, Begin(0, [Slot(c, s.i)]))
    ensures s.i < s.consumed + c.window
    ensures s.i >= c.window ==> |s.q.returned| > s.i - c.window
  {
    forall a | a in s.q.push && s.q.push[a].Filling?
      ensures Slot(c, s.i) !in s.q.push[a].chain
    {
      assert PrivateChain(s.q, list, a, s.q.push[a].chain, s.q.push[a].stored);
    }
    SlotNotWaiting(c, s);
  }

  lemma SlotNotWaiting(c: Config, s: Ring)
    requires Sensible(c) && RingInv(c, s) && MayEnqueue(c, s)
    ensures Slot(c, s.i) !in Pending(s.q)
  {
    var waiting := Pending(s.q);
    forall j | 0 <= j < |waiting|
      ensures waiting[j] != Slot(c, s.i)
    {
      assert waiting[j] == s.q.exchanged[s.n + j];
      ModDiffers(s.n + j, s.i, c.window);
    }
  }

  lemma QuietMove(c: Config, s: Ring, q': Queue)
    requires RingInv(c, s)
    requires q'.exchanged == s.q.exchanged && q'.returned == s.q.returned
    requires forall a <- q'.push :: a.Producer? ==> a in s.q.push
    requires InHand(q') == InHand(s.q) && (InHand(q') == 1 ==> q'.push[Producer(0)].chain == s.q.push[Producer(0)].chain)
    ensures RingInv(c, s.(q := q'))
  {
  }

  lemma ExchangeKeepsRing(c: Config, s: Ring, q': Queue)
    requires RingInv(c, s) && InHand(s.q) == 1 && InHand(q') == 0
    requires q'.exchanged == s.q.exchanged + [Slot(c, s.i - 1)] && q'.returned == s.q.returned
    requires q'.push.Keys == s.q.push.Keys
    ensures RingInv(c, s.(q := q'))
  {
  }

  lemma MoveKeeps(c: Config, s: Ring, list: seq<Node>, l: Label)
    requires Inv(s.q, list) && RingInv(c, s) && StepOk(c, s, Move(l))
    ensures RingInv(c, Do(c, s, Move(l)))
  {
    var q' := Apply(s.q, l);
    if l.Exchange? && l.a.Producer? {
      UsersOfOne(Slot(c, s.i - 1));
      ExchangeKeepsRing(c, s, q');
    } else {
      if l.Exchange? {
        assert PrivateChain(s.q, list, Consumer, s.q.push[Consumer].chain, s.q.push[Consumer].stored);
        UsersOfOne(Stub);
      }
      QuietMove(c, s, q');
    }
  }

  lemma GotKeeps(c: Config, s: Ring, q': Queue, d: Node)
    requires RingInv(c, s) && !s.storing && Pending(s.q) != [] && d == Pending(s.q)[0]
    requires q'.push == s.q.push && q'.exchanged == s.q.exchanged && q'.returned == s.q.returned + [d]
    ensures RingInv(c, s.(q := q', n := s.n + 1, storing := true))
  {
    assert d == s.q.exchanged[s.n];
    assert q'.returned == s.q.exchanged[..s.n + 1];
  }

  lemma ReceiveKeeps(c: Config, s: Ring, list: seq<Node>)
    requires Inv(s.q, list) && RingInv(c, s) && StepOk(c, s, Receive)
    ensures RingInv(c, Do(c, s, Receive))
  {
    var (q', out) := PopStep(s.q);
    if out.Got? {
      MpscQueueRuns.GotIsOldest(s.q, list);
      GotKeeps(c, s, q', out.node);
    } else {
      QuietMove(c, s, q');
    }
  }

  lemma RingStepKeeps(c: Config, s: Ring, list: seq<Node>, st: Step) returns (list': seq<Node>)
    requires Sensible(c) && Inv(s.q, list) && RingInv(c, s) && StepOk(c, s, st)
    ensures Inv(Do(c, s, st).q, list') && RingInv(c, Do(c, s, st))
  {
    list' := list;
    match st
    case Enqueue =>
      SlotIsFree(c, s, list);
      BeginKeeps(s.q, list, 0, [Slot(c, s.i)]);
    case Move(l) =>
      StepKeeps(s.q, list, l);
      list' := NextList(s.q, list, l);
      MoveKeeps(c, s, list, l);
    case Receive =>
      PopKeeps(s.q, list);
      list' := NextList(s.q, list, PopNext);
      ReceiveKeeps(c, s, list);
    case StoreConsumed =>
  }

  lemma NextKeeps(c: Config, s: Ring, list: seq<Node>, s': Ring) returns (list': seq<Node>)
    requires Sensible(c) && Inv(s.q, list) && RingInv(c, s) && Steps(c)(s, s')
    ensures Inv(s'.q, list') && RingInv(c, s')
  {
    assert Next(c, s, s');
    var st :| StepOk(c, s, st) && s' == Do(c, s, st);
    list' := RingStepKeeps(c, s, list, st);
  }

  ghost function Kept(c: Config): Ring -> bool {
    s => RingInv(c, s) && exists list :: Inv(s.q, list)
  }

  lemma BehaviourKeeps(c: Config, tr: seq<Ring>) returns (list: seq<Node>)
    requires Sensible(c) && IsBehaviour(c, tr)
    ensures Inv(Last(tr).q, list) && RingInv(c, Last(tr))
  {
    InitialInv();
    forall s, t | Kept(c)(s) && Steps(c)(s, t)
      ensures Kept(c)(t)
    {
      var at :| Inv(s.q, at);
      var at' := NextKeeps(c, s, at, t);
    }
    RunKeeps(Steps(c), Kept(c), tr);
    list :| Inv(Last(tr).q, list);
  }

  /** In every interleaving and for every window: the consumer's `k`-th descriptor is that of message `k`, at most
      `total` arrive and exactly `total` have when it stops, and whenever the producer is let through, the slot it takes
      is in nobody's hands and its previous message is already dequeued. */
  lemma RingDeliversInOrder(c: Config, tr: seq<Ring>)
    requires Sensible(c) && IsBehaviour(c, tr)
    ensures var s := Last(tr);
      && s.q.returned == seq(s.n, k requires 0 <= k => Slot(c, k)) && s.n <= c.total
      && s.i - s.n <= c.window
      && (MayEnqueue(c, s) ==> Free(s.q, Slot(c, s.i)) && (s.i >= c.window ==> s.n > s.i - c.window))
  {
    var list := BehaviourKeeps(c, tr);
    var s := Last(tr);
    forall k | 0 <= k < s.n
      ensures s.q.returned[k] == Slot(c, k)
    {
      assert s.q.returned[k] == s.q.exchanged[k];
    }
    if MayEnqueue(c, s) {
      SlotIsFree(c, s, list);
      assert [Slot(c, s.i)][0] in [Slot(c, s.i)];
    }
  }

  // ------------------------------------------------------------------------------------------------
  // Progress
  // ------------------------------------------------------------------------------------------------

  ghost predicate CanFinish(c: Config, s: Ring) {
    exists t :: CanReach(Steps(c), s, t) && t.n == c.total
  }

  lemma NextStep(c: Config, s: Ring, list: seq<Node>) returns (st: Step)
    requires Sensible(c) && Inv(s.q, list) && RingInv(c, s) && c.window > 0 && s.n < c.total
    ensures StepOk(c, s, st)
    ensures var t := Do(c, s, st);
      || t.n > s.n
      || (t.n == s.n && t.i > s.i)
      || (t.n == s.n && t.i == s.i && Sum(PushWorks(t.q, 1)) < Sum(PushWorks(s.q, 1)))
      || (t.n == s.n && t.i == s.i && Sum(PushWorks(t.q, 1)) == Sum(PushWorks(s.q, 1)) && s.storing && !t.storing)
      || (t.n == s.n && t.i == s.i && Sum(PushWorks(t.q, 1)) == Sum(PushWorks(s.q, 1)) && s.storing == t.storing
          && PopWork(t.q) < PopWork(s.q))
  {
    if Producer(0) in s.q.push {
      ProducerAdvancesQueue(s.q, list, 0, 1);
      st := Move(ProducerLabel(s.q, 0));
    } else if s.storing {
      st := StoreConsumed;
    } else if Pending(s.q) != [] {
      var l := ConsumerAdvancesQueue(s.q, list);
      SameWork(s.q, Apply(s.q, l), 1);
      st := if l == PopNext then Receive else Move(l);
    } else {
      assert s.i == s.n;
      st := Enqueue;
    }
  }

  lemma {:induction false} FinishFrom(c: Config, s: Ring, list: seq<Node>)
    requires Sensible(c) && Inv(s.q, list) && RingInv(c, s) && c.window > 0
    ensures CanFinish(c, s)
    decreases c.total - s.n, c.total - s.i, Sum(PushWorks(s.q, 1)), s.storing, PopWork(s.q)
  {
    if s.n == c.total {
      ReachSelf(Steps(c), s);
    } else {
      var st := NextStep(c, s, list);
      var t := Do(c, s, st);
      var list' := RingStepKeeps(c, s, list, st);
      assert Next(c, s, t);
      ReachStep(Steps(c), s, t);
      FinishFrom(c, t, list');
      var u :| CanReach(Steps(c), t, u) && u.n == c.total;
      ReachTransitive(Steps(c), s, t, u);
    }
  }

  lemma {:induction false} StuckWithoutSlots(c: Config, tr: seq<Ring>)
    requires Sensible(c) && c.window == 0 && IsBehaviour(c, tr)
    ensures Last(tr).n == 0
  {
    var list := BehaviourKeeps(c, tr);
  }

  /** From every reachable state some schedule delivers all messages, if and only if there is a descriptor at all
      (or nothing to send). */
  lemma RingProgressIff(c: Config)
    requires Sensible(c)
    ensures (forall tr :: IsBehaviour(c, tr) ==> CanFinish(c, Last(tr))) <==> c.window > 0 || c.total == 0
  {
    if c.window > 0 {
      forall tr | IsBehaviour(c, tr)
        ensures CanFinish(c, Last(tr))
      {
        var list := BehaviourKeeps(c, tr);
        FinishFrom(c, Last(tr), list);
      }
    } else {
      var start := Ring(Initial, 0, 0, 0, false);
      assert IsBehaviour(c, [start]) && Last([start]) == start;
      forall t | CanReach(Steps(c), start, t)
        ensures t.n == 0
      {
        var tr :| IsRun(Steps(c), tr) && tr[0] == start && Last(tr) == t;
        StuckWithoutSlots(c, tr);
      }
      if c.total == 0 {
        forall tr | IsBehaviour(c, tr)
          ensures CanFinish(c, Last(tr))
        {
          StuckWithoutSlots(c, tr);
          ReachSelf(Steps(c), Last(tr));
        }
      }
    }
  }
}
