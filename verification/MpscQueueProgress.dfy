/** What the threads inside the queue still have to do, and that they can always do it. */
module MpscQueueProgress {
  import opened Arithmetic
  import opened MpscQueue
  import opened MpscQueueRuns

  function PushWork(q: Queue, p: nat): nat {
    if Producer(p) !in q.push then 0
    else match q.push[Producer(p)]
      case Filling(chain, stored) => if stored <= |chain| then |chain| - stored + 2 else 2
      case Linking(_, _) => 1
  }

  function PushWorks(q: Queue, P: nat): seq<nat> { seq(P, p requires 0 <= p => PushWork(q, p)) }

  /** The steps of the consumer that are left in its call of `pop`, at most. */
  function StepsLeft(q: Queue): (n: nat)
    ensures n > 0
  {
    match q.pop
    case Idle => 7
    case Reload(_) => 6
    case CheckTail(_) => 5
    case Repush(_) =>
      if Consumer in q.push && q.push[Consumer].Filling? then (if q.push[Consumer].stored == 0 then 4 else 3) else 2
    case FinalLoad(_) => 1
  }

  /** The same over several calls, when no producer is inside. */
  function PopWork(q: Queue): nat {
    if q.pop.CheckTail? && q.pop.front != q.tail then 8 else StepsLeft(q)
  }

  ghost predicate NoProducerInside(q: Queue) {
    forall p: nat :: Producer(p) !in q.push
  }

  lemma WorkDrops(P: nat, q: Queue, q': Queue, p: nat)
    requires p < P && PushWork(q', p) < PushWork(q, p)
    requires forall r: nat :: r != p ==> PushWork(q', r) == PushWork(q, r)
    ensures Sum(PushWorks(q', P)) < Sum(PushWorks(q, P))
  {
    assert PushWorks(q', P) == PushWorks(q, P)[p := PushWork(q', p)];
    SumOfUpdate(PushWorks(q, P), p, PushWork(q', p));
  }

  ghost function ProducerLabel(q: Queue, p: nat): Label
    requires Producer(p) in q.push
  {
    match q.push[Producer(p)]
    case Linking(_, _) => Link(Producer(p))
    case Filling(chain, stored) => if stored < |chain| then Store(Producer(p)) else Exchange(Producer(p))
  }

  /** A producer inside `push_chain` can always take its next step, and that leaves less to do. */
  lemma ProducerAdvancesQueue(q: Queue, list: seq<Node>, p: nat, P: nat)
    requires Inv(q, list) && Producer(p) in q.push && p < P
    ensures var l := ProducerLabel(q, p);
      && Enabled(q, l) && (l.Store? || l.Exchange? || l.Link?)
      && Apply(q, l).returned == q.returned && Sum(PushWorks(Apply(q, l), P)) < Sum(PushWorks(q, P))
  {
    if q.push[Producer(p)].Filling? {
      assert PrivateChain(q, list, Producer(p), q.push[Producer(p)].chain, q.push[Producer(p)].stored);
    }
    LabelLeavesLess(q, p, P);
  }

  lemma LabelLeavesLess(q: Queue, p: nat, P: nat)
    requires Producer(p) in q.push && p < P && Enabled(q, ProducerLabel(q, p))
    ensures Sum(PushWorks(Apply(q, ProducerLabel(q, p)), P)) < Sum(PushWorks(q, P))
  {
    var q' := Apply(q, ProducerLabel(q, p));
    assert forall r: nat :: r != p ==> (Producer(r) in q'.push <==> Producer(r) in q.push);
    assert forall r: nat :: r != p && Producer(r) in q.push ==> q'.push[Producer(r)] == q.push[Producer(r)];
    WorkDrops(P, q, q', p);
  }

  lemma SameWork(q: Queue, q': Queue, P: nat)
    requires NoProducerInside(q) && NoProducerInside(q')
    ensures PushWorks(q', P) == PushWorks(q, P)
  {
  }

  /** With no producer inside, `pop` comes closer to the oldest node with every step of the consumer. */
  lemma ConsumerAdvancesQueue(q: Queue, list: seq<Node>) returns (l: Label)
    requires Inv(q, list) && NoProducerInside(q) && Pending(q) != []
    ensures Enabled(q, l) && (l == PopNext || l.Store? || l.Exchange? || l.Link?)
    ensures NoProducerInside(Apply(q, l))
    ensures l != PopNext ==> l.a == Consumer && Apply(q, l).returned == q.returned && PopWork(Apply(q, l)) < PopWork(q)
    ensures l == PopNext ==>
      if PopStep(q).1.Got? then |Apply(q, l).returned| == |q.returned| + 1
      else Apply(q, l).returned == q.returned && PopWork(Apply(q, l)) < PopWork(q)
  {
    if q.pop.Repush? {
      if q.push[Consumer].Linking? {
        l := Link(Consumer);
      } else {
        assert PrivateChain(q, list, Consumer, q.push[Consumer].chain, q.push[Consumer].stored);
        l := if q.push[Consumer].stored == 0 then Store(Consumer) else Exchange(Consumer);
      }
    } else {
      l := PopNext;
      LoadAdvances(q, list);
    }
  }

  lemma LoadAdvances(q: Queue, list: seq<Node>)
    requires Inv(q, list) && NoProducerInside(q) && Pending(q) != [] && !q.pop.Repush?
    ensures var (q', out) := PopStep(q);
      && NoProducerInside(q')
      && if out.Got? then |q'.returned| == |q.returned| + 1
         else q'.returned == q.returned && PopWork(q') < PopWork(q)
  {
    assert !ProducerLinking(q);
    if q.head !in q.next { MissingLinkExcuses(q, list); }
  }

  /** An idle `pop` with an empty queue and no producer inside is all there is besides. */
  lemma NothingPendingIsIdle(q: Queue, list: seq<Node>)
    requires Inv(q, list) && Pending(q) == []
    ensures q.pop.Idle?
  {
    UsersMembers(list, q.head);
  }

  // ------------------------------------------------------------------------------------------------
  // Wait freedom
  // ------------------------------------------------------------------------------------------------

  function ByAgent(a: Agent): Label -> bool {
    (l: Label) => ((l.Store? || l.Exchange? || l.Link?) && l.a == a) || (l == PopNext && a == Consumer)
  }

  /** How many of the steps are `a`'s own. */
  function OwnSteps(ls: seq<Label>, a: Agent): nat {
    if ls == [] then 0 else (if ByAgent(a)(ls[0]) then 1 else 0) + OwnSteps(ls[1..], a)
  }

  ghost predicate NoNewCall(ls: seq<Label>, p: nat) {
    forall i :: 0 <= i < |ls| && ls[i].Begin? ==> ls[i].p != p
  }

  lemma PushStepCounts(q: Queue, l: Label, p: nat)
    requires Enabled(q, l) && (l.Begin? ==> l.p != p)
    ensures PushWork(Apply(q, l), p) + (if ByAgent(Producer(p))(l) then 1 else 0) == PushWork(q, p)
  {
  }

  lemma {:induction false} PushStepsAddUp(q: Queue, ls: seq<Label>, p: nat)
    requires CanRun(q, ls) && NoNewCall(ls, p)
    ensures OwnSteps(ls, Producer(p)) + PushWork(Run(q, ls), p) == PushWork(q, p)
    decreases |ls|
  {
    if ls != [] {
      PushStepCounts(q, ls[0], p);
      PushStepsAddUp(Apply(q, ls[0]), ls[1..], p);
    }
  }

  /** Whatever the other threads do, a call of `push_chain` ends with the caller's step number `|chain| + 2`, neither
      earlier nor later: it never retries. */
  lemma PushIsWaitFree(q: Queue, p: nat, chain: seq<Node>, ls: seq<Label>)
    requires Enabled(q, Begin(p, chain)) && CanRun(Apply(q, Begin(p, chain)), ls) && NoNewCall(ls, p)
    ensures var own := OwnSteps(ls, Producer(p));
      && own <= |chain| + 2
      && (own == |chain| + 2 <==> Producer(p) !in Run(Apply(q, Begin(p, chain)), ls).push)
  {
    PushStepsAddUp(Apply(q, Begin(p, chain)), ls, p);
  }

  /** Through `ls` the current call of `pop` does not return. */
  ghost predicate StillInside(q: Queue, ls: seq<Label>)
    requires CanRun(q, ls)
    decreases |ls|
  {
    ls != [] ==> (ls[0] == PopNext ==> PopStep(q).1.Running?) && StillInside(Apply(q, ls[0]), ls[1..])
  }

  lemma PopStepCounts(q: Queue, list: seq<Node>, l: Label)
    requires Inv(q, list) && Enabled(q, l) && (l == PopNext ==> PopStep(q).1.Running?)
    ensures StepsLeft(Apply(q, l)) + (if ByAgent(Consumer)(l) then 1 else 0) <= StepsLeft(q)
  {
    if q.pop.Repush? && q.push[Consumer].Filling? {
      assert PrivateChain(q, list, Consumer, q.push[Consumer].chain, q.push[Consumer].stored);
    }
  }

  lemma {:induction false} InsideIsShort(q: Queue, list: seq<Node>, ls: seq<Label>)
    requires Inv(q, list) && CanRun(q, ls) && StillInside(q, ls)
    ensures OwnSteps(ls, Consumer) + StepsLeft(Run(q, ls)) <= StepsLeft(q)
    decreases |ls|
  {
    if ls != [] {
      PopStepCounts(q, list, ls[0]);
      StepKeeps(q, list, ls[0]);
      InsideIsShort(Apply(q, ls[0]), NextList(q, list, ls[0]), ls[1..]);
    }
  }

  lemma {:induction false} CallIsShort(q: Queue, list: seq<Node>, ls: seq<Label>, out: Outcome)
    requires Inv(q, list) && CallEnds(q, ls, out)
    ensures OwnSteps(ls, Consumer) <= StepsLeft(q)
    decreases |ls|
  {
    if |ls| == 1 {
      assert OwnSteps(ls[1..], Consumer) == 0;
    } else {
      PopStepCounts(q, list, ls[0]);
      StepKeeps(q, list, ls[0]);
      CallIsShort(Apply(q, ls[0]), NextList(q, list, ls[0]), ls[1..], out);
    }
  }

  /** Whatever the producers do, a call of `pop` returns with the consumer's seventh step at the latest: a completed call
      has at most seven of them, one that has not returned at most six. */
  lemma PopIsWaitFree(before: seq<Label>, ls: seq<Label>)
    requires CanRun(Initial, before) && Run(Initial, before).pop.Idle?
    ensures forall out :: OneCall(Run(Initial, before), ls, out) ==> OwnSteps(ls, Consumer) <= 7
    ensures CanRun(Run(Initial, before), ls) && StillInside(Run(Initial, before), ls) ==> OwnSteps(ls, Consumer) <= 6
  {
    InitialInv();
    var q, list := Run(Initial, before), ListAfter(Initial, [Stub], before);
    forall out | OneCall(q, ls, out)
      ensures OwnSteps(ls, Consumer) <= 7
    {
      CallIsShort(q, list, ls, out);
    }
    if CanRun(q, ls) && StillInside(q, ls) { InsideIsShort(q, list, ls); }
  }
}
