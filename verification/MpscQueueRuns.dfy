/** Theorems about whole runs of the queue: order, structure, reclaim, and the meaning of a null. */
module MpscQueueRuns {
  import opened Basics
  import opened MpscQueue
  import opened Traces

  ghost predicate CanRun(q: Queue, ls: seq<Label>)
    decreases |ls|
  {
    ls == [] || (Enabled(q, ls[0]) && CanRun(Apply(q, ls[0]), ls[1..]))
  }

  ghost function Run(q: Queue, ls: seq<Label>): Queue
    requires CanRun(q, ls)
    decreases |ls|
  {
    if ls == [] then q else Run(Apply(q, ls[0]), ls[1..])
  }

  /** The queue's steps as a relation between states. */
  ghost function QueueSteps(): (Queue, Queue) -> bool {
    (q, q') => exists l :: Enabled(q, l) && q' == Apply(q, l)
  }

  lemma {:induction false} OneMoreLabel(q: Queue, ls: seq<Label>, l: Label)
    requires CanRun(q, ls) && Enabled(Run(q, ls), l)
    ensures CanRun(q, ls + [l]) && Run(q, ls + [l]) == Apply(Run(q, ls), l)
    decreases |ls|
  {
    if ls == [] {
      assert ls + [l] == [l] && [l][1..] == [];
    } else {
      assert (ls + [l])[1..] == ls[1..] + [l];
      OneMoreLabel(Apply(q, ls[0]), ls[1..], l);
    }
  }

  lemma {:induction false} LabelsReach(q: Queue, ls: seq<Label>)
    requires CanRun(q, ls)
    ensures CanReach(QueueSteps(), q, Run(q, ls))
    decreases |ls|
  {
    if ls == [] {
      ReachSelf(QueueSteps(), q);
    } else {
      var q' := Apply(q, ls[0]);
      assert QueueSteps()(q, q');
      ReachStep(QueueSteps(), q, q');
      LabelsReach(q', ls[1..]);
      ReachTransitive(QueueSteps(), q, q', Run(q, ls));
    }
  }

  /** A sequence of labels is a run with the steps named: it leads to the states that runs lead to. */
  lemma LabelsAreRuns(q: Queue, q': Queue)
    ensures CanReach(QueueSteps(), q, q') <==> exists ls :: CanRun(q, ls) && Run(q, ls) == q'
  {
    forall ls | CanRun(q, ls) && Run(q, ls) == q'
      ensures CanReach(QueueSteps(), q, q')
    {
      LabelsReach(q, ls);
    }
    if CanReach(QueueSteps(), q, q') {
      var tr :| IsRun(QueueSteps(), tr) && tr[0] == q && Last(tr) == q';
      var ls := LabelsOfRun(tr);
    }
  }

  lemma {:induction false} LabelsOfRun(tr: seq<Queue>) returns (ls: seq<Label>)
    requires IsRun(QueueSteps(), tr)
    ensures CanRun(tr[0], ls) && Run(tr[0], ls) == Last(tr)
    decreases |tr|
  {
    if |tr| == 1 {
      ls := [];
    } else {
      var front := tr[..|tr| - 1];
      ls := LabelsOfRun(front);
      var l :| Enabled(Last(front), l) && Last(tr) == Apply(Last(front), l);
      OneMoreLabel(tr[0], ls, l);
      ls := ls + [l];
    }
  }

  /** The user nodes of the chains published by a run, in the order of the exchanges. */
  ghost function Published(q: Queue, ls: seq<Label>): seq<Node>
    requires CanRun(q, ls)
    decreases |ls|
  {
    if ls == [] then []
    else (if ls[0].Exchange? then Users(q.push[ls[0].a].chain) else []) + Published(Apply(q, ls[0]), ls[1..])
  }

  /** What the calls of `pop` in a run return, nulls left out. */
  ghost function Delivered(q: Queue, ls: seq<Label>): seq<Node>
    requires CanRun(q, ls)
    decreases |ls|
  {
    if ls == [] then []
    else (if ls[0].PopNext? && PopStep(q).1.Got? then [PopStep(q).1.node] else []) + Delivered(Apply(q, ls[0]), ls[1..])
  }

  ghost function ListAfter(q: Queue, list: seq<Node>, ls: seq<Label>): (r: seq<Node>)
    requires Inv(q, list) && CanRun(q, ls)
    ensures Inv(Run(q, ls), r)
    decreases |ls|
  {
    if ls == [] then list
    else
      StepKeeps(q, list, ls[0]);
      ListAfter(Apply(q, ls[0]), NextList(q, list, ls[0]), ls[1..])
  }

  lemma {:induction false} HistoryOfRun(q: Queue, ls: seq<Label>)
    requires CanRun(q, ls)
    ensures Run(q, ls).exchanged == q.exchanged + Published(q, ls)
    ensures Run(q, ls).returned == q.returned + Delivered(q, ls)
    decreases |ls|
  {
    if ls != [] {
      var l, q' := ls[0], Apply(q, ls[0]);
      HistoryOfRun(q', ls[1..]);
      HistoryOfStep(q, l);
      Associate(q.exchanged, if l.Exchange? then Users(q.push[l.a].chain) else [], Published(q', ls[1..]));
      Associate(q.returned, if l.PopNext? && PopStep(q).1.Got? then [PopStep(q).1.node] else [], Delivered(q', ls[1..]));
    }
  }

  lemma HistoryOfStep(q: Queue, l: Label)
    requires Enabled(q, l)
    ensures Apply(q, l).exchanged == q.exchanged + if l.Exchange? then Users(q.push[l.a].chain) else []
    ensures Apply(q, l).returned == q.returned + if l.PopNext? && PopStep(q).1.Got? then [PopStep(q).1.node] else []
  {
  }

  /** Whatever the interleaving, the nodes handed out are a prefix of the nodes published, in the order of the
      exchanges; the stub is never handed out. */
  lemma DeliveryIsFifo(ls: seq<Label>)
    requires CanRun(Initial, ls)
    ensures Delivered(Initial, ls) <= Published(Initial, ls)
    ensures Stub !in Delivered(Initial, ls)
  {
    InitialInv();
    var list := ListAfter(Initial, [Stub], ls);
    HistoryOfRun(Initial, ls);
    var q := Run(Initial, ls);
    assert q.exchanged == Published(Initial, ls) && q.returned == Delivered(Initial, ls);
    PublishedAreUsers(Initial, ls);
    forall i | 0 <= i < |q.returned|
      ensures q.returned[i] != Stub
    {
      assert q.returned[i] == q.exchanged[i] && q.exchanged[i] in q.exchanged;
    }
  }

  lemma {:induction false} PublishedAreUsers(q: Queue, ls: seq<Label>)
    requires CanRun(q, ls)
    ensures Stub !in Published(q, ls)
    decreases |ls|
  {
    if ls != [] {
      PublishedAreUsers(Apply(q, ls[0]), ls[1..]);
      if ls[0].Exchange? { UsersMembers(q.push[ls[0].a].chain, Stub); }
    }
  }

  /** A thread between the exchange of `tail_` and the store of the link out of `n`. */
  ghost predicate HeldBy(q: Queue, n: Node, a: Agent) {
    a in q.push && q.push[a].Linking? && q.push[a].prev == n
  }

  ghost predicate OwnsGap(q: Queue, list: seq<Node>, i: int, a: Agent) {
    0 <= i < |list| - 1 && HeldBy(q, list[i], a) && q.push[a].first == list[i + 1]
  }

  /** The logical list of a reachable state: one path from `head_` to `tail_` without repetition, whose present
      links agree with the heap and whose missing links correspond one to one to the linking threads. */
  lemma GapsAreLinkers(ls: seq<Label>) returns (list: seq<Node>)
    requires CanRun(Initial, ls)
    ensures var q := Run(Initial, ls);
      && list != [] && list[0] == q.head && list[|list| - 1] == q.tail && Distinct(list)
      && (forall i :: 0 <= i < |list| - 1 && list[i] in q.next ==> q.next[list[i]] == list[i + 1])
      && (forall i :: 0 <= i < |list| - 1 && list[i] !in q.next ==> exists a :: OwnsGap(q, list, i, a))
      && (forall i, a, b :: OwnsGap(q, list, i, a) && OwnsGap(q, list, i, b) ==> a == b)
      && (forall a :: a in q.push && q.push[a].Linking? ==> exists i :: OwnsGap(q, list, i, a))
      && (forall i, j, a :: OwnsGap(q, list, i, a) && OwnsGap(q, list, j, a) ==> i == j)
      && (forall i, a :: OwnsGap(q, list, i, a) ==> list[i] !in q.next)
    // The consumer exchanges the stub in only when it is nowhere in the list.
    ensures Enabled(Run(Initial, ls), Exchange(Consumer)) ==> Stub !in list
    ensures Pending(Run(Initial, ls)) == Users(list)
  {
    InitialInv();
    list := ListAfter(Initial, [Stub], ls);
    var q := Run(Initial, ls);
    forall i | 0 <= i < |list| - 1
      ensures list[i] in q.next ==> q.next[list[i]] == list[i + 1]
      ensures list[i] !in q.next ==> exists a :: OwnsGap(q, list, i, a)
    {
      assert JoinedAt(q, list, i);
      if list[i] !in q.next {
        var a :| a in q.push && q.push[a] == Linking(list[i], list[i + 1]);
        assert OwnsGap(q, list, i, a);
      }
    }
    forall a | a in q.push && q.push[a].Linking?
      ensures exists i :: OwnsGap(q, list, i, a)
    {
      var i :| AdjacentAt(list, i, q.push[a].prev, q.push[a].first);
      assert OwnsGap(q, list, i, a);
    }
    if Enabled(q, Exchange(Consumer)) {
      assert PrivateChain(q, list, Consumer, q.push[Consumer].chain, q.push[Consumer].stored);
      assert q.push[Consumer].chain == [Stub];
    }
  }

  /** `pop` hands out the oldest node of the queue. */
  lemma GotIsOldest(q: Queue, list: seq<Node>)
    requires Inv(q, list) && Enabled(q, PopNext) && PopStep(q).1.Got?
    ensures list[0] == PopStep(q).1.node == q.head != Stub && list[0] in q.next && |list| > 1
    ensures Pending(q) != [] && PopStep(q).1.node == Pending(q)[0]
    ensures Pending(PopStep(q).0) == Pending(q)[1..]
  {
    assert Users(list) == [list[0]] + Users(list[1..]);
    PopKeeps(q, list);
  }

  /** A node that `pop` has just returned is out of every thread's reach: it is not an end of the queue, no
      thread is about to write its link or to link to it, and no node of the queue leads to it.  So it can
      be published again at once. */
  lemma ReclaimIsSafe(ls: seq<Label>)
    requires CanRun(Initial, ls)
    requires var q := Run(Initial, ls); Enabled(q, PopNext) && PopStep(q).1.Got?
    ensures var (q', out) := PopStep(Run(Initial, ls));
      var n := out.node;
      && n != q'.head && n != q'.tail && Free(q', n)
      && (forall a :: a in q'.push && q'.push[a].Linking? ==> q'.push[a].prev != n && q'.push[a].first != n)
      && exists list :: Inv(q', list) && n !in list && (forall m <- list :: m in q'.next ==> q'.next[m] != n)
  {
    InitialInv();
    var q := Run(Initial, ls);
    var list := ListAfter(Initial, [Stub], ls);
    HandedOutIsFree(q, list);
  }

  lemma HandedOutIsFree(q: Queue, list: seq<Node>)
    requires Inv(q, list) && Enabled(q, PopNext) && PopStep(q).1.Got?
    ensures var (q', out) := PopStep(q);
      var n := out.node;
      && n != q'.head && n != q'.tail && Free(q', n)
      && (forall a :: a in q'.push && q'.push[a].Linking? ==> q'.push[a].prev != n && q'.push[a].first != n)
      && Inv(q', list[1..]) && n !in list[1..]
      && (forall m <- list[1..] :: m in q'.next ==> q'.next[m] != n)
  {
    var (q', out) := PopStep(q);
    var n := out.node;
    GotIsOldest(q, list);
    PopKeeps(q, list);
    assert JoinedAt(q, list, 0);
    var list' := list[1..];
    assert list'[0] == list[1];
    assert NextList(q, list, PopNext) == list';
    UsersMembers(list', n);
    forall a | a in q'.push && q'.push[a].Linking?
      ensures q'.push[a].prev != n && q'.push[a].first != n
    {
      var i :| AdjacentAt(list', i, q'.push[a].prev, q'.push[a].first);
    }
    forall a | a in q'.push && q'.push[a].Filling?
      ensures n !in q'.push[a].chain
    {
      assert PrivateChain(q, list, a, q.push[a].chain, q.push[a].stored);
      assert n in list;
    }
    forall m | m in list' && m in q'.next
      ensures q'.next[m] != n
    {
      var i :| 0 <= i < |list'| && list'[i] == m;
      assert JoinedAt(q', list', i);
    }
  }

  // ------------------------------------------------------------------------------------------------
  // What a null means
  // ------------------------------------------------------------------------------------------------

  ghost predicate ProducerLinking(q: Queue) {
    exists p :: Producer(p) in q.push && q.push[Producer(p)].Linking?
  }

  /** The run `ls` from `q` ends with the completion, with result `out`, of the `pop` in progress. */
  ghost predicate CallEnds(q: Queue, ls: seq<Label>, out: Outcome)
    decreases |ls|
  {
    && ls != [] && Enabled(q, ls[0])
    && if |ls| == 1 then ls[0] == PopNext && !out.Running? && PopStep(q).1 == out
       else (ls[0] == PopNext ==> PopStep(q).1.Running?) && CallEnds(Apply(q, ls[0]), ls[1..], out)
  }

  /** `ls` spans one whole call of `pop`, with whatever other threads do in between. */
  ghost predicate OneCall(q: Queue, ls: seq<Label>, out: Outcome) {
    q.pop.Idle? && CallEnds(q, ls, out) && ls[0] == PopNext
  }

  lemma {:induction false} CallRuns(q: Queue, ls: seq<Label>, out: Outcome, k: nat)
    requires CallEnds(q, ls, out) && k <= |ls|
    ensures CanRun(q, ls[..k])
    decreases k
  {
    if k > 0 {
      if |ls| > 1 { CallRuns(Apply(q, ls[0]), ls[1..], out, k - 1); }
      assert ls[..k][1..] == ls[1..][..k - 1];
    }
  }

  /** The state of the queue after the first `k` steps of a call. */
  ghost function During(q: Queue, ls: seq<Label>, out: Outcome, k: nat): Queue
    requires CallEnds(q, ls, out) && k <= |ls|
  {
    CallRuns(q, ls, out, k);
    Run(q, ls[..k])
  }

  lemma DuringShift(q: Queue, ls: seq<Label>, out: Outcome, k: nat)
    requires CallEnds(q, ls, out) && 0 < k <= |ls| && |ls| > 1
    ensures During(q, ls, out, k) == During(Apply(q, ls[0]), ls[1..], out, k - 1)
  {
    CallRuns(q, ls, out, k);
    assert ls[..k][1..] == ls[1..][..k - 1];
  }

  ghost predicate Excused(q: Queue) { Pending(q) == [] || ProducerLinking(q) }

  /** A missing link that is not the consumer's own belongs to a producer. */
  lemma MissingLinkExcuses(q: Queue, list: seq<Node>)
    requires Inv(q, list) && !q.pop.Repush? && q.head !in q.next
    ensures |list| > 1 ==> ProducerLinking(q)
    ensures |list| == 1 ==> q.head == q.tail && Pending(q) == if q.head == Stub then [] else [q.head]
  {
    if |list| > 1 {
      assert JoinedAt(q, list, 0);
      var a :| a in q.push && q.push[a] == Linking(list[0], list[1]);
      assert a != Consumer;
      assert q.push[Producer(a.id)].Linking?;
    } else {
      assert list == [q.head];
      UsersOfOne(q.head);
    }
  }

  lemma {:induction false} NullExcusedFrom(q: Queue, list: seq<Node>, ls: seq<Label>, out: Outcome)
    requires Inv(q, list) && CallEnds(q, ls, out) && out.Null?
    requires q.pop.CheckTail? ==> q.tail == q.pop.front
    ensures exists k :: 0 <= k <= |ls| && Excused(During(q, ls, out, k))
    decreases |ls|
  {
    assert During(q, ls, out, 0) == q;
    if Excused(q) {
    } else if |ls| == 1 {
      MissingLinkExcuses(q, list);
    } else {
      var l := ls[0];
      var q' := Apply(q, l);
      StepKeeps(q, list, l);
      if q'.pop.CheckTail? && q'.tail != q'.pop.front {
        if l == PopNext {
          AfterPopKeepsFront(q, list);
        } else {
          ProducerExchangeShows(q, l);
          DuringShift(q, ls, out, 1);
          assert Excused(During(q, ls, out, 1));
        }
      } else {
        NullExcusedFrom(q', NextList(q, list, l), ls[1..], out);
        var k :| 0 <= k <= |ls| - 1 && Excused(During(q', ls[1..], out, k));
        DuringShift(q, ls, out, k + 1);
        assert Excused(During(q, ls, out, k + 1));
      }
    }
  }

  lemma ProducerExchangeShows(q: Queue, l: Label)
    requires Enabled(q, l) && l.Exchange?
    ensures l.a.Producer? ==> ProducerLinking(Apply(q, l))
  {
    if l.a.Producer? {
      assert Apply(q, l).push[Producer(l.a.id)].Linking?;
    }
  }

  /** When a load finds no link out of the front node and no producer is linking, the front is the tail. */
  lemma AfterPopKeepsFront(q: Queue, list: seq<Node>)
    requires Inv(q, list) && Enabled(q, PopNext) && PopStep(q).0.pop.CheckTail? && !ProducerLinking(q)
    ensures PopStep(q).0.tail == PopStep(q).0.pop.front
  {
    MissingLinkExcuses(q, list);
  }

  /** `pop` returns null only if, at some instant of the call, the queue held no user node or some producer
      was between its exchange and its link. */
  lemma NullIsExcused(before: seq<Label>, ls: seq<Label>, out: Outcome)
    requires CanRun(Initial, before) && OneCall(Run(Initial, before), ls, out) && out.Null?
    ensures exists k :: 0 <= k <= |ls| && Excused(During(Run(Initial, before), ls, out, k))
  {
    InitialInv();
    NullExcusedFrom(Run(Initial, before), ListAfter(Initial, [Stub], before), ls, out);
  }

  /** Unless a producer exchanges, a step that does not end the call leaves the waiting nodes alone. */
  lemma WaitingUnchanged(q: Queue, list: seq<Node>, l: Label)
    requires Inv(q, list) && Enabled(q, l) && (l == PopNext ==> PopStep(q).1.Running?)
    requires !ProducerLinking(Apply(q, l))
    ensures Pending(Apply(q, l)) == Pending(q)
    ensures q.pop.CheckTail? && l != PopNext ==> Apply(q, l).tail == q.tail
  {
    if l.Exchange? {
      ProducerExchangeShows(q, l);
      assert PrivateChain(q, list, Consumer, q.push[Consumer].chain, q.push[Consumer].stored);
      UsersOfOne(Stub);
    }
  }

  lemma EndOfCall(q: Queue, list: seq<Node>)
    requires Inv(q, list) && Enabled(q, PopNext) && !PopStep(q).1.Running? && !ProducerLinking(q)
    requires q.pop.CheckTail? ==> q.tail == q.pop.front
    ensures var out := PopStep(q).1;
      if Pending(q) == [] then out.Null? else out == Got(Pending(q)[0])
  {
    if PopStep(q).1.Got? {
      GotIsOldest(q, list);
    } else {
      MissingLinkExcuses(q, list);
    }
  }

  lemma {:induction false} ExactFrom(q: Queue, list: seq<Node>, ls: seq<Label>, out: Outcome)
    requires Inv(q, list) && CallEnds(q, ls, out)
    requires q.pop.CheckTail? ==> q.tail == q.pop.front
    requires forall k :: 0 <= k <= |ls| ==> !ProducerLinking(During(q, ls, out, k))
    ensures if Pending(q) == [] then out.Null? else out == Got(Pending(q)[0])
    decreases |ls|
  {
    assert !ProducerLinking(During(q, ls, out, 0));
    if |ls| == 1 {
      EndOfCall(q, list);
    } else {
      var l := ls[0];
      var q' := Apply(q, l);
      DuringShift(q, ls, out, 1);
      assert During(q', ls[1..], out, 0) == q';
      forall k | 0 <= k <= |ls| - 1
        ensures !ProducerLinking(During(q', ls[1..], out, k))
      {
        DuringShift(q, ls, out, k + 1);
      }
      WaitingUnchanged(q, list, l);
      if l == PopNext && q'.pop.CheckTail? {
        AfterPopKeepsFront(q, list);
      }
      StepKeeps(q, list, l);
      ExactFrom(q', NextList(q, list, l), ls[1..], out);
    }
  }

  /** A call that overlaps no producer's window is exact: null means empty, empty gives null, and otherwise
      the oldest node comes out. */
  lemma UnoverlappedPopIsExact(before: seq<Label>, ls: seq<Label>, out: Outcome)
    requires CanRun(Initial, before) && OneCall(Run(Initial, before), ls, out)
    requires forall k :: 0 <= k <= |ls| ==> !ProducerLinking(During(Run(Initial, before), ls, out, k))
    ensures var waiting := Pending(Run(Initial, before));
      (out.Null? <==> waiting == []) && (out.Got? ==> out.node == waiting[0])
  {
    InitialInv();
    ExactFrom(Run(Initial, before), ListAfter(Initial, [Stub], before), ls, out);
  }
}
