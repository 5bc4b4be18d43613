/**
 `BatchQueue` as an object with the fields and methods of the source.  A method body runs here without
 interruption, but from any state the interleaved model can reach, so possibly while other producers are
 stopped in the middle of `push_chain`.  Each method is proved to do what the thread's own steps do in that model.
 */
module BatchQueueObject {
  import opened Basics
  import opened MpscQueue
  import opened MpscQueueProgress
  import opened MpscQueueRuns

  ghost function ConsumerLabel(q: Queue, list: seq<Node>): (l: Label)
    requires Inv(q, list)
    ensures Enabled(q, l)
  {
    if !q.pop.Repush? then PopNext
    else if q.push[Consumer].Linking? then Link(Consumer)
    else
      assert PrivateChain(q, list, Consumer, q.push[Consumer].chain, q.push[Consumer].stored);
      if q.push[Consumer].stored == 0 then Store(Consumer) else Exchange(Consumer)
  }

  /** The consumer's steps, and nobody else's, until the current call of `pop` returns. */
  ghost function SoloSteps(q: Queue, list: seq<Node>): (ls: seq<Label>)
    requires Inv(q, list)
    ensures CanRun(q, ls)
    decreases StepsLeft(q)
  {
    var l := ConsumerLabel(q, list);
    if l == PopNext && !PopStep(q).1.Running? then [l]
    else
      StepKeeps(q, list, l);
      var rest := SoloSteps(Apply(q, l), NextList(q, list, l));
      assert ([l] + rest)[1..] == rest;
      [l] + rest
  }

  /** What that call returns. */
  ghost function SoloOutcome(q: Queue, list: seq<Node>): (out: Outcome)
    requires Inv(q, list)
    ensures !out.Running?
    decreases StepsLeft(q)
  {
    var l := ConsumerLabel(q, list);
    if l == PopNext && !PopStep(q).1.Running? then PopStep(q).1
    else
      StepKeeps(q, list, l);
      SoloOutcome(Apply(q, l), NextList(q, list, l))
  }

  ghost function SoloPop(q: Queue, list: seq<Node>): Queue
    requires Inv(q, list)
  {
    Run(q, SoloSteps(q, list))
  }

  lemma {:induction false} SoloUnfold(q: Queue, list: seq<Node>, l: Label)
    requires Inv(q, list) && l == ConsumerLabel(q, list)
    ensures
      if l == PopNext && !PopStep(q).1.Running? then
        SoloPop(q, list) == PopStep(q).0 && SoloOutcome(q, list) == PopStep(q).1
      else
        && Inv(Apply(q, l), NextList(q, list, l))
        && SoloPop(q, list) == SoloPop(Apply(q, l), NextList(q, list, l))
        && SoloOutcome(q, list) == SoloOutcome(Apply(q, l), NextList(q, list, l))
  {
    StepKeeps(q, list, l);
    if l == PopNext && !PopStep(q).1.Running? {
      assert SoloSteps(q, list) == [PopNext];
      assert Run(Apply(q, PopNext), [PopNext][1..]) == Apply(q, PopNext);
    } else {
      var rest := SoloSteps(Apply(q, l), NextList(q, list, l));
      assert SoloSteps(q, list) == [l] + rest;
      assert ([l] + rest)[1..] == rest;
    }
  }

  lemma ThreeSteps(q: Queue, k: Label, l: Label, m: Label)
    requires Enabled(q, k) && Enabled(Apply(q, k), l) && Enabled(Apply(Apply(q, k), l), m)
    ensures CanRun(q, [k, l, m]) && Run(q, [k, l, m]) == Apply(Apply(Apply(q, k), l), m)
  {
    OneMoreLabel(q, [], k);
    OneMoreLabel(q, [k], l);
    OneMoreLabel(q, [k, l], m);
    assert [] + [k] == [k] && [k] + [l] == [k, l] && [k, l] + [m] == [k, l, m];
  }

  class BatchQueue {
    var head: Node
    var tail: Node
    var next: map<Node, Node>

    /** The object is in the state `q` of the model. */
    ghost predicate Shows(q: Queue)
      reads this
    {
      head == q.head && tail == q.tail && next == q.next
    }

    constructor ()
      ensures Shows(Initial)
    {
      head, tail, next := Stub, Stub, map[];
    }

    /** `a` publishes a chain whose inner links it has already stored. */
    method PushChain(first: Node, last: Node, ghost q: Queue, ghost a: Agent)
      requires Shows(q) && a in q.push && q.push[a].Filling?
      requires a == Consumer ==> q.pop.Repush?
      requires var chain := q.push[a].chain;
        |chain| > 0 && q.push[a].stored == |chain| - 1 && chain[0] == first && chain[|chain| - 1] == last
      modifies this
      ensures head == old(head) && tail == last && next == (old(next) - {last})[old(tail) := first]
      ensures CanRun(q, [Store(a), Exchange(a), Link(a)]) && Shows(Run(q, [Store(a), Exchange(a), Link(a)]))
    {
      next := next - {last};
      var prev := tail;
      tail := last;
      next := next[prev := first];
      ThreeSteps(q, Store(a), Exchange(a), Link(a));
    }

    method Pop(ghost q: Queue, ghost list: seq<Node>) returns (r: Option<Node>)
      requires Shows(q) && Inv(q, list) && q.pop.Idle?
      modifies this
      ensures Shows(SoloPop(q, list))
      ensures r == match SoloOutcome(q, list) case Got(n) => Some(n) case _ => None
    {
      SoloByCases(q, list);
      var front := head;
      var link := Load(front);
      if front == Stub {
        if link == None { return None; }
        head, front := link.value, link.value;
        link := Load(front);
      }
      if link != None { head := link.value; return Some(front); }
      if front != tail { return None; }
      ghost var s, at := BeforeRepush(q, list);
      PushChain(Stub, Stub, s, Consumer);
      link := Load(front);
      if link != None { head := link.value; return Some(front); }
      return None;
    }

    method Load(n: Node) returns (r: Option<Node>)
      ensures r == if n in next then Some(next[n]) else None
    {
      r := if n in next then Some(next[n]) else None;
    }
  }

  lemma RepushUnfold(q: Queue, list: seq<Node>)
    requires Inv(q, list) && q.pop.Repush? && q.push[Consumer] == Filling([Stub], 0)
    ensures var ls := [Store(Consumer), Exchange(Consumer), Link(Consumer)];
      && CanRun(q, ls) && Inv(Run(q, ls), list + [Stub])
      && Run(q, ls).pop == FinalLoad(q.pop.front)
      && Run(q, ls).head == q.head && Run(q, ls).tail == Stub
      && Run(q, ls).next == (q.next - {Stub})[q.tail := Stub]
      && SoloPop(q, list) == SoloPop(Run(q, ls), list + [Stub])
      && SoloOutcome(q, list) == SoloOutcome(Run(q, ls), list + [Stub])
  {
    SoloUnfold(q, list, Store(Consumer));
    var q1 := Apply(q, Store(Consumer));
    SoloUnfold(q1, list, Exchange(Consumer));
    var q2 := Apply(q1, Exchange(Consumer));
    SoloUnfold(q2, list + [Stub], Link(Consumer));
    ThreeSteps(q, Store(Consumer), Exchange(Consumer), Link(Consumer));
  }

  /** The node `pop` looks at: the head, or the one behind the stub. */
  function FrontOf(q: Queue): Node {
    if q.head == Stub && Stub in q.next then q.next[Stub] else q.head
  }

  /** The state in which an uninterrupted `pop` is about to put the stub back. */
  lemma BeforeRepush(q: Queue, list: seq<Node>) returns (s: Queue, at: seq<Node>)
    requires Inv(q, list) && q.pop.Idle? && FrontOf(q) != Stub
    requires FrontOf(q) !in q.next && FrontOf(q) == q.tail
    ensures Inv(s, at) && s.pop == Repush(FrontOf(q)) && s.push == q.push[Consumer := Filling([Stub], 0)]
    ensures s.head == FrontOf(q) && s.tail == q.tail && s.next == q.next
    ensures SoloPop(q, list) == SoloPop(s, at) && SoloOutcome(q, list) == SoloOutcome(s, at)
  {
    s, at := q, list;
    SoloUnfold(s, at, PopNext);
    if q.head == Stub {
      s, at := Apply(s, PopNext), NextList(s, at, PopNext);
      SoloUnfold(s, at, PopNext);
    }
    s := Apply(s, PopNext);
    SoloUnfold(s, at, PopNext);
    s := Apply(s, PopNext);
  }

  /** An uninterrupted `pop`, case by case. */
  lemma SoloByCases(q: Queue, list: seq<Node>)
    requires Inv(q, list) && q.pop.Idle?
    ensures var (q', out, front) := (SoloPop(q, list), SoloOutcome(q, list), FrontOf(q));
      if front == Stub then out.Null? && q' == q
      else if front in q.next then
        out == Got(front) && q'.head == q.next[front] && q'.tail == q.tail && q'.next == q.next
      else if front != q.tail then
        out.Null? && q'.head == front && q'.tail == q.tail && q'.next == q.next
      else
        out == Got(front) && q'.head == Stub && q'.tail == Stub && q'.next == (q.next - {Stub})[front := Stub]
  {
    SoloUnfold(q, list, PopNext);
    if FrontOf(q) != Stub {
      if q.head == Stub {
        var (q1, at) := (Apply(q, PopNext), NextList(q, list, PopNext));
        SoloFront(q1, at);
      } else {
        SoloFront(q, list);
      }
    }
  }

  lemma SoloFront(q: Queue, list: seq<Node>)
    requires Inv(q, list) && (q.pop.Reload? || (q.pop.Idle? && q.head != Stub))
    ensures var (q', out, front) := (SoloPop(q, list), SoloOutcome(q, list), q.head);
      if front in q.next then
        out == Got(front) && q'.head == q.next[front] && q'.tail == q.tail && q'.next == q.next
      else if front != q.tail then
        out.Null? && q'.head == front && q'.tail == q.tail && q'.next == q.next
      else
        out == Got(front) && q'.head == Stub && q'.tail == Stub && q'.next == (q.next - {Stub})[front := Stub]
  {
    SoloUnfold(q, list, PopNext);
    if q.head !in q.next {
      var q1 := Apply(q, PopNext);
      SoloUnfold(q1, list, PopNext);
      if q.head == q.tail {
        SoloRepush(Apply(q1, PopNext), list);
      }
    }
  }

  lemma SoloRepush(q: Queue, list: seq<Node>)
    requires Inv(q, list) && q.pop.Repush? && q.push[Consumer] == Filling([Stub], 0) && q.head == q.tail
    ensures var q' := SoloPop(q, list);
      && SoloOutcome(q, list) == Got(q.head)
      && q'.head == Stub && q'.tail == Stub && q'.next == (q.next - {Stub})[q.head := Stub]
  {
    var ls := [Store(Consumer), Exchange(Consumer), Link(Consumer)];
    RepushUnfold(q, list);
    SoloUnfold(Run(q, ls), list + [Stub], PopNext);
  }

  ghost predicate Stalled(q: Queue, n: Node) {
    exists p :: HeldBy(q, n, Producer(p))
  }

  lemma MissingLinkStalls(q: Queue, list: seq<Node>)
    requires Inv(q, list) && !q.pop.Repush?
    ensures Stalled(q, q.head) <==> q.head !in q.next && |list| > 1
  {
    if q.head !in q.next && |list| > 1 {
      assert JoinedAt(q, list, 0);
      var a :| a in q.push && q.push[a] == Linking(list[0], list[1]);
      assert a != Consumer;
      assert HeldBy(q, q.head, Producer(a.id));
    }
  }

  /** An uninterrupted call of `pop` returns the oldest pending node unless there is none, or a producer is
      stopped just before storing the link out of the head or out of that node. */
  lemma SoloPopIsExact(q: Queue, list: seq<Node>)
    requires Inv(q, list) && q.pop.Idle?
    ensures SoloOutcome(q, list).Null? <==>
      Pending(q) == [] || Stalled(q, q.head) || Stalled(q, Pending(q)[0])
    ensures SoloOutcome(q, list).Got? ==> SoloOutcome(q, list).node == Pending(q)[0]
  {
    SoloByCases(q, list);
    MissingLinkStalls(q, list);
    if q.head == Stub {
      if Stub in q.next {
        var q1 := Apply(q, PopNext);
        StepKeeps(q, list, PopNext);
        MissingLinkStalls(q1, list[1..]);
        assert Users(list[1..])[0] == q1.head;
        assert Users(list) == Users(list[1..]);
        assert Stalled(q1, q1.head) <==> Stalled(q, q1.head) by {
          assert forall a :: HeldBy(q1, q1.head, a) <==> HeldBy(q, q1.head, a);
        }
        TailIsLast(q1, list[1..]);
      } else {
        MissingLinkExcuses(q, list);
        if |list| == 1 { assert list == [Stub]; }
      }
    } else {
      assert Users(list)[0] == q.head;
      TailIsLast(q, list);
    }
  }

  lemma TailIsLast(q: Queue, list: seq<Node>)
    requires Inv(q, list)
    ensures q.head == q.tail <==> |list| == 1
  {
  }
}
