/**
 The contended enqueue bench: `P` producers enqueue `per` descriptors each, a drainer polls a stop flag between dequeues
 and sweeps once the flag is up; the main thread raises it after joining the producers.  The queue's own type, whose
 `try_dequeue` tells Empty from Busy, is not part of this model: `BatchQueue` stands in, and `reportsEmpty` says which of
 its three nulls count as Empty.
 */
module DrainShutdown {
  import opened Arithmetic
  import opened MpscQueue
  import MpscQueueRuns
  import opened MpscQueueProgress
  import opened Traces

  datatype Config = Config(P: nat, per: nat, reportsEmpty: NullSite -> bool)

  /** `Polling` is about to load `stop`; `Draining` and `Sweeping` are inside `try_dequeue`. */
  datatype Pc = Polling | Draining | Sweeping | Exited

  datatype Bench = Bench(q: Queue, sent: seq<nat>, joined: nat, stop: bool, pc: Pc, drained: nat)

  datatype Step = Enqueue(p: nat) | Move(l: Label) | Join | RaiseStop | Poll | Dequeue

  predicate MayEnqueue(c: Config, s: Bench, p: nat) {
    p < c.P && p < |s.sent| && Producer(p) !in s.q.push && s.sent[p] < c.per
  }

  /** Thread `p` has run to its end. */
  predicate Finished(c: Config, s: Bench, p: nat) {
    p < |s.sent| && Producer(p) !in s.q.push && s.sent[p] == c.per
  }

  ghost predicate StepOk(c: Config, s: Bench, st: Step) {
    match st
    case Enqueue(p) => MayEnqueue(c, s, p)
    case Move(l) => (l.Store? || l.Exchange? || l.Link?) && Enabled(s.q, l)
    case Join => s.joined < c.P && Finished(c, s, s.joined)
    case RaiseStop => s.joined == c.P && !s.stop
    case Poll => s.pc.Polling?
    case Dequeue => (s.pc.Draining? || s.pc.Sweeping?) && Enabled(s.q, PopNext)
  }

  function Do(c: Config, s: Bench, st: Step): Bench
    requires StepOk(c, s, st)
  {
    match st
    case Enqueue(p) =>
      s.(q := s.q.(push := s.q.push[Producer(p) := Filling([Desc(p, s.sent[p])], 0)]), sent := s.sent[p := s.sent[p] + 1])
    case Move(l) => s.(q := Apply(s.q, l))
    case Join => s.(joined := s.joined + 1)
    case RaiseStop => s.(stop := true)
    case Poll => s.(pc := if s.stop then Sweeping else Draining)
    case Dequeue =>
      var (q', out) := PopStep(s.q);
      match out
      case Running => s.(q := q')
      case Got(_) => s.(q := q', drained := s.drained + 1, pc := if s.pc.Draining? then Polling else Sweeping)
      case Null(site) =>
        s.(q := q', pc := if s.pc.Draining? then Polling else if c.reportsEmpty(site) then Exited else Sweeping)
  }

  ghost predicate Next(c: Config, s: Bench, s': Bench) {
    exists st :: StepOk(c, s, st) && s' == Do(c, s, st)
  }

  ghost function Steps(c: Config): (Bench, Bench) -> bool {
    (s, s') => Next(c, s, s')
  }

  function Start(c: Config): Bench { Bench(Initial, seq(c.P, i => 0), 0, false, Polling, 0) }

  ghost predicate IsBehaviour(c: Config, tr: seq<Bench>) {
    IsRun(Steps(c), tr) && tr[0] == Start(c)
  }

  function InHand(q: Queue, p: nat): nat {
    if Producer(p) in q.push && q.push[Producer(p)].Filling? then 1 else 0
  }

  function InHands(q: Queue, P: nat): seq<nat> { seq(P, p requires 0 <= p => InHand(q, p)) }

  ghost predicate Fresh(c: Config, s: Bench, d: Node) {
    d.Desc? && d.owner < c.P && d.owner < |s.sent| && d.slot < s.sent[d.owner]
  }

  ghost predicate BenchInv(c: Config, s: Bench) {
    && |s.sent| == c.P
    && (forall p :: 0 <= p < c.P ==> s.sent[p] <= c.per)
    && (forall a <- s.q.push :: a.Producer? ==> a.id < c.P)
    && (forall d <- s.q.exchanged :: Fresh(c, s, d))
    && (forall a <- s.q.push :: a.Producer? && s.q.push[a].Filling? ==>
          |s.q.push[a].chain| == 1 && Fresh(c, s, s.q.push[a].chain[0]))
    && |s.q.exchanged| + Sum(InHands(s.q, c.P)) == Sum(s.sent)
    && s.drained == |s.q.returned| <= |s.q.exchanged|
    && s.joined <= c.P && (forall p :: 0 <= p < s.joined ==> Finished(c, s, p))
    && (s.stop ==> s.joined == c.P)
  }

  /** From the raised flag on: a load of the tail can only confirm the front, and an exit found nothing left. */
  ghost predicate SweepInv(c: Config, s: Bench) {
    && (s.pc.Sweeping? || s.pc.Exited? ==> s.stop)
    && (s.pc.Polling? ==> s.q.pop.Idle?)
    && (s.pc.Sweeping? && s.q.pop.CheckTail? ==> s.q.tail == s.q.pop.front)
    && (s.pc.Exited? ==> Pending(s.q) == [])
  }

  lemma JoinedStay(c: Config, s: Bench, s': Bench)
    requires forall p :: 0 <= p < s.joined ==> Finished(c, s, p)
    requires s'.joined == s.joined && forall p: nat :: Finished(c, s, p) ==> Finished(c, s', p)
    ensures forall p :: 0 <= p < s'.joined ==> Finished(c, s', p)
  {
    forall p | 0 <= p < s'.joined
      ensures Finished(c, s', p)
    {
      assert Finished(c, s, p);
    }
  }

  lemma EnqueueIsLegal(c: Config, s: Bench, list: seq<Node>, p: nat)
    requires Inv(s.q, list) && BenchInv(c, s) && MayEnqueue(c, s, p)
    ensures Enabled(s.q, Begin(p, [Desc(p, s.sent[p])]))
  {
    var d := Desc(p, s.sent[p]);
    assert d !in s.q.exchanged;
    forall a | a in s.q.push && s.q.push[a].Filling?
      ensures d !in s.q.push[a].chain
    {
      assert PrivateChain(s.q, list, a, s.q.push[a].chain, s.q.push[a].stored);
    }
  }

  lemma EnqueueKeeps(c: Config, s: Bench, p: nat)
    requires BenchInv(c, s) && MayEnqueue(c, s, p)
    ensures BenchInv(c, Do(c, s, Enqueue(p)))
  {
    var s' := Do(c, s, Enqueue(p));
    assert InHands(s'.q, c.P) == InHands(s.q, c.P)[p := 1];
    SumOfUpdate(InHands(s.q, c.P), p, 1);
    SumOfUpdate(s.sent, p, s.sent[p] + 1);
    assert forall d :: Fresh(c, s, d) ==> Fresh(c, s', d);
    JoinedStay(c, s, s');
  }

  lemma QuietMove(c: Config, s: Bench, q': Queue)
    requires BenchInv(c, s)
    requires q'.exchanged == s.q.exchanged && q'.returned == s.q.returned
    requires forall a <- q'.push :: a.Producer? ==> a in s.q.push
    requires forall p: nat :: InHand(q', p) == InHand(s.q, p)
    requires forall a <- q'.push :: a.Producer? && q'.push[a].Filling? ==>
      s.q.push[a].Filling? && q'.push[a].chain == s.q.push[a].chain
    ensures BenchInv(c, s.(q := q'))
  {
    var s' := s.(q := q');
    assert InHands(q', c.P) == InHands(s.q, c.P);
    assert forall d :: Fresh(c, s, d) <==> Fresh(c, s', d);
    JoinedStay(c, s, s');
  }

  lemma ExchangeKeepsBench(c: Config, s: Bench, a: Agent, q': Queue)
    requires BenchInv(c, s) && a.Producer? && a in s.q.push && s.q.push[a].Filling? && Stub !in s.q.push[a].chain
    requires q'.exchanged == s.q.exchanged + s.q.push[a].chain && q'.returned == s.q.returned
    requires exists prev, first :: q'.push == s.q.push[a := Linking(prev, first)]
    ensures BenchInv(c, s.(q := q'))
  {
    var s' := s.(q := q');
    assert InHands(q', c.P) == InHands(s.q, c.P)[a.id := 0];
    SumOfUpdate(InHands(s.q, c.P), a.id, 0);
    assert forall d :: Fresh(c, s, d) <==> Fresh(c, s', d);
    JoinedStay(c, s, s');
  }

  lemma MoveKeeps(c: Config, s: Bench, l: Label)
    requires BenchInv(c, s) && StepOk(c, s, Move(l))
    requires l.Exchange? ==> if l.a == Consumer then s.q.push[l.a].chain == [Stub] else Stub !in s.q.push[l.a].chain
    ensures BenchInv(c, Do(c, s, Move(l)))
  {
    if l.Exchange? && l.a.Producer? {
      UsersOfProper(s.q.push[l.a].chain);
      ExchangeKeepsBench(c, s, l.a, Apply(s.q, l));
    } else {
      if l.Exchange? { UsersOfOne(Stub); }
      QuietMove(c, s, Apply(s.q, l));
    }
  }

  lemma DeliveredKeeps(c: Config, s: Bench, s': Bench)
    requires BenchInv(c, s)
    requires s'.q.push == s.q.push && s'.q.exchanged == s.q.exchanged && s'.sent == s.sent
    requires s'.joined == s.joined && s'.stop == s.stop && s'.drained == |s'.q.returned| <= |s.q.exchanged|
    ensures BenchInv(c, s')
  {
    assert InHands(s'.q, c.P) == InHands(s.q, c.P);
    assert forall d :: Fresh(c, s, d) <==> Fresh(c, s', d);
    JoinedStay(c, s, s');
  }

  /** A load of `pop` that hands nothing out. */
  lemma NothingHandedOut(c: Config, s: Bench, s': Bench)
    requires BenchInv(c, s) && s' == s.(q := s'.q, pc := s'.pc)
    requires s'.q.exchanged == s.q.exchanged && s'.q.returned == s.q.returned
    requires s'.q.push == s.q.push || s'.q.push == s.q.push[Consumer := Filling([Stub], 0)]
    ensures BenchInv(c, s')
  {
    QuietMove(c, s, s'.q);
    DeliveredKeeps(c, s.(q := s'.q), s');
  }

  lemma DequeueKeeps(c: Config, s: Bench)
    requires BenchInv(c, s) && StepOk(c, s, Dequeue)
    requires PopStep(s.q).1.Got? ==> Pending(s.q) != []
    ensures BenchInv(c, Do(c, s, Dequeue))
  {
    PopEffects(s.q);
    if PopStep(s.q).1.Got? {
      DeliveredKeeps(c, s, Do(c, s, Dequeue));
    } else {
      NothingHandedOut(c, s, Do(c, s, Dequeue));
    }
  }

  lemma PopEffects(q: Queue)
    requires Enabled(q, PopNext)
    ensures var (q', out) := PopStep(q);
      && q'.exchanged == q.exchanged && q'.returned == (if out.Got? then q.returned + [out.node] else q.returned)
      && (q'.push == q.push || (!out.Got? && q'.push == q.push[Consumer := Filling([Stub], 0)]))
  {
  }

  lemma StoppedIsDone(c: Config, s: Bench)
    requires BenchInv(c, s) && s.stop
    ensures NoProducerInside(s.q) && |s.q.exchanged| == c.P * c.per && forall p :: !MayEnqueue(c, s, p)
  {
    forall p: nat
      ensures Producer(p) !in s.q.push
    {
      if p < c.P { assert Finished(c, s, p); }
    }
    forall p | 0 <= p < c.P
      ensures s.sent[p] == c.per
    {
      assert Finished(c, s, p);
    }
    SumAtLeast(s.sent, c.per);
    SumAtLeast(InHands(s.q, c.P), 0);
  }

  lemma SweepDequeue(c: Config, s: Bench, list: seq<Node>)
    requires Inv(s.q, list) && BenchInv(c, s) && SweepInv(c, s) && StepOk(c, s, Dequeue)
    ensures SweepInv(c, Do(c, s, Dequeue))
    ensures s.pc.Sweeping? && PopStep(s.q).1.Null? ==> PopStep(s.q).1.site == StubUnlinked && Pending(s.q) == []
  {
    if s.pc.Sweeping? {
      StoppedIsDone(c, s);
      assert !MpscQueueRuns.ProducerLinking(s.q);
      if PopStep(s.q).1.Null? || PopStep(s.q).0.pop.CheckTail? {
        MpscQueueRuns.MissingLinkExcuses(s.q, list);
      }
    }
  }

  lemma ControlKeeps(c: Config, s: Bench, st: Step)
    requires BenchInv(c, s) && SweepInv(c, s) && StepOk(c, s, st) && (st.Join? || st.RaiseStop? || st.Poll?)
    ensures BenchInv(c, Do(c, s, st)) && SweepInv(c, Do(c, s, st))
  {
    var s' := Do(c, s, st);
    assert forall d :: Fresh(c, s, d) <==> Fresh(c, s', d);
    forall p | 0 <= p < s'.joined
      ensures Finished(c, s', p)
    {
      assert Finished(c, s, p);
    }
  }

  lemma EnqueueKeepsBoth(c: Config, s: Bench, list: seq<Node>, p: nat)
    requires Inv(s.q, list) && BenchInv(c, s) && SweepInv(c, s) && MayEnqueue(c, s, p)
    ensures Inv(Do(c, s, Enqueue(p)).q, list) && BenchInv(c, Do(c, s, Enqueue(p))) && SweepInv(c, Do(c, s, Enqueue(p)))
  {
    EnqueueIsLegal(c, s, list, p);
    BeginKeeps(s.q, list, p, [Desc(p, s.sent[p])]);
    EnqueueKeeps(c, s, p);
    if s.stop { StoppedIsDone(c, s); }
  }

  lemma MoveKeepsBoth(c: Config, s: Bench, list: seq<Node>, l: Label)
    requires Inv(s.q, list) && BenchInv(c, s) && SweepInv(c, s) && StepOk(c, s, Move(l))
    ensures BenchInv(c, Do(c, s, Move(l))) && SweepInv(c, Do(c, s, Move(l)))
  {
    if l.Exchange? {
      assert PrivateChain(s.q, list, l.a, s.q.push[l.a].chain, s.q.push[l.a].stored);
    }
    MoveKeeps(c, s, l);
    MoveKeepsSweep(c, s, l);
  }

  lemma DequeueKeepsBoth(c: Config, s: Bench, list: seq<Node>)
    requires Inv(s.q, list) && BenchInv(c, s) && SweepInv(c, s) && StepOk(c, s, Dequeue)
    ensures BenchInv(c, Do(c, s, Dequeue)) && SweepInv(c, Do(c, s, Dequeue))
  {
    if PopStep(s.q).1.Got? { MpscQueueRuns.GotIsOldest(s.q, list); }
    DequeueKeeps(c, s);
    SweepDequeue(c, s, list);
  }

  lemma BenchStepKeeps(c: Config, s: Bench, list: seq<Node>, st: Step) returns (list': seq<Node>)
    requires Inv(s.q, list) && BenchInv(c, s) && SweepInv(c, s) && StepOk(c, s, st)
    ensures Inv(Do(c, s, st).q, list') && BenchInv(c, Do(c, s, st)) && SweepInv(c, Do(c, s, st))
  {
    list' := list;
    match st
    case Enqueue(p) => EnqueueKeepsBoth(c, s, list, p);
    case Move(l) =>
      StepKeeps(s.q, list, l);
      list' := NextList(s.q, list, l);
      MoveKeepsBoth(c, s, list, l);
    case Dequeue =>
      PopKeeps(s.q, list);
      list' := NextList(s.q, list, PopNext);
      DequeueKeepsBoth(c, s, list);
    case Join => ControlKeeps(c, s, st);
    case RaiseStop => ControlKeeps(c, s, st);
    case Poll => ControlKeeps(c, s, st);
  }

  lemma MoveKeepsSweep(c: Config, s: Bench, l: Label)
    requires BenchInv(c, s) && SweepInv(c, s) && StepOk(c, s, Move(l))
    requires s.q.pop.Repush? <==> Consumer in s.q.push
    requires l.Exchange? ==> l.a == Consumer ==> s.q.push[l.a].chain == [Stub]
    ensures SweepInv(c, Do(c, s, Move(l)))
  {
    if s.stop { StoppedIsDone(c, s); }
    if l.Exchange? { UsersOfOne(Stub); }
  }

  lemma NextKeeps(c: Config, s: Bench, list: seq<Node>, s': Bench) returns (list': seq<Node>)
    requires Inv(s.q, list) && BenchInv(c, s) && SweepInv(c, s) && Steps(c)(s, s')
    ensures Inv(s'.q, list') && BenchInv(c, s') && SweepInv(c, s')
  {
    assert Next(c, s, s');
    var st :| StepOk(c, s, st) && s' == Do(c, s, st);
    list' := BenchStepKeeps(c, s, list, st);
  }

  ghost function Kept(c: Config): Bench -> bool {
    s => BenchInv(c, s) && SweepInv(c, s) && exists list :: Inv(s.q, list)
  }

  lemma KeptStep(c: Config, s: Bench, t: Bench)
    requires Kept(c)(s) && Steps(c)(s, t)
    ensures Kept(c)(t)
  {
    var list :| Inv(s.q, list);
    var list' := NextKeeps(c, s, list, t);
  }

  lemma StartKept(c: Config)
    ensures Kept(c)(Start(c))
  {
    InitialInv();
    SumAtLeast(Start(c).sent, 0);
    SumAtLeast(InHands(Initial, c.P), 0);
  }

  lemma BehaviourKeeps(c: Config, tr: seq<Bench>) returns (list: seq<Node>)
    requires IsBehaviour(c, tr)
    ensures Inv(Last(tr).q, list) && BenchInv(c, Last(tr)) && SweepInv(c, Last(tr))
  {
    StartKept(c);
    forall s, t | Kept(c)(s) && Steps(c)(s, t)
      ensures Kept(c)(t)
    {
      KeptStep(c, s, t);
    }
    RunKeeps(Steps(c), Kept(c), tr);
    list :| Inv(Last(tr).q, list);
  }

  /** The stop flag goes up only after all producers are joined, so whatever nulls count as Empty, a drainer that
      has left its sweep has drained every descriptor of every producer. */
  lemma NothingStranded(c: Config, tr: seq<Bench>)
    requires IsBehaviour(c, tr) && Last(tr).pc.Exited?
    ensures Last(tr).drained == c.P * c.per
  {
    var list := BehaviourKeeps(c, tr);
    StoppedIsDone(c, Last(tr));
  }

  /** In the sweep a null comes only from the lone stub, and only when everything is drained. */
  lemma SweepNullIsFinal(c: Config, tr: seq<Bench>)
    requires IsBehaviour(c, tr) && Last(tr).pc.Sweeping? && StepOk(c, Last(tr), Dequeue) && PopStep(Last(tr).q).1.Null?
    ensures PopStep(Last(tr).q).1.site == StubUnlinked && Last(tr).drained == c.P * c.per
  {
    var list := BehaviourKeeps(c, tr);
    SweepDequeue(c, Last(tr), list);
    StoppedIsDone(c, Last(tr));
  }

  // ------------------------------------------------------------------------------------------------
  // Progress
  // ------------------------------------------------------------------------------------------------

  ghost predicate CanExit(c: Config, s: Bench) {
    exists t :: CanReach(Steps(c), s, t) && t.pc.Exited?
  }

  function ToSend(c: Config, s: Bench): nat {
    if Sum(s.sent) <= c.P * c.per then c.P * c.per - Sum(s.sent) else 0
  }

  function Phase(s: Bench): nat {
    match s.pc case Draining => 3 case Polling => 2 case Sweeping => 1 case Exited => 0
  }

  function Waiting(s: Bench): nat { |Pending(s.q)| }

  function Unjoined(c: Config, s: Bench): nat {
    (if s.joined <= c.P then c.P - s.joined else 0) + (if s.stop then 0 else 1)
  }

  lemma ProducersNextStep(c: Config, s: Bench, list: seq<Node>) returns (st: Step)
    requires Inv(s.q, list) && BenchInv(c, s) && !s.stop
    ensures StepOk(c, s, st)
    ensures var t := Do(c, s, st);
      || ToSend(c, t) < ToSend(c, s)
      || (t.sent == s.sent && Sum(PushWorks(t.q, c.P)) < Sum(PushWorks(s.q, c.P)))
      || (t.sent == s.sent && t.q == s.q && Unjoined(c, t) < Unjoined(c, s))
  {
    if p: nat :| Producer(p) in s.q.push {
      ProducerAdvancesQueue(s.q, list, p, c.P);
      st := Move(ProducerLabel(s.q, p));
    } else if p :| 0 <= p < c.P && s.sent[p] != c.per {
      st := Enqueue(p);
      SumOfUpdate(s.sent, p, s.sent[p] + 1);
      SumAtMost(Do(c, s, st).sent, c.per);
    } else if s.joined < c.P {
      st := Join;
    } else {
      st := RaiseStop;
    }
  }

  lemma DrainerNextStep(c: Config, s: Bench, list: seq<Node>) returns (st: Step)
    requires c.reportsEmpty(StubUnlinked)
    requires Inv(s.q, list) && BenchInv(c, s) && SweepInv(c, s) && s.stop && !s.pc.Exited?
    ensures StepOk(c, s, st)
    ensures var t := Do(c, s, st);
      && t.sent == s.sent && t.stop && t.joined == s.joined
      && Sum(PushWorks(t.q, c.P)) == Sum(PushWorks(s.q, c.P))
      && (|| Waiting(t) < Waiting(s)
          || (Waiting(t) == Waiting(s) && Phase(t) < Phase(s))
          || (Waiting(t) == Waiting(s) && Phase(t) == Phase(s) && PopWork(t.q) < PopWork(s.q)))
  {
    StoppedIsDone(c, s);
    if s.pc.Polling? {
      st := Poll;
    } else if Pending(s.q) == [] {
      NothingPendingIsIdle(s.q, list);
      EmptyGivesNull(s.q, list);
      st := Dequeue;
    } else {
      var l := ConsumerAdvancesQueue(s.q, list);
      SameWork(s.q, Apply(s.q, l), c.P);
      st := if l == PopNext then Dequeue else Move(l);
      ConsumerStepWaits(s.q, list, l);
    }
  }

  lemma EmptyGivesNull(q: Queue, list: seq<Node>)
    requires Inv(q, list) && Pending(q) == [] && q.pop.Idle?
    ensures PopStep(q) == (q, Null(StubUnlinked))
  {
    UsersMembers(list, q.head);
    if |list| > 1 {
      UsersMembers(list, list[1]);
    }
  }

  lemma ConsumerStepWaits(q: Queue, list: seq<Node>, l: Label)
    requires Inv(q, list) && Enabled(q, l) && Pending(q) != []
    requires l == PopNext || ((l.Store? || l.Exchange? || l.Link?) && l.a == Consumer)
    ensures |Pending(Apply(q, l))| == |Pending(q)| - (if l == PopNext && PopStep(q).1.Got? then 1 else 0)
  {
    if l.Exchange? {
      assert PrivateChain(q, list, Consumer, q.push[Consumer].chain, q.push[Consumer].stored);
      UsersOfOne(Stub);
    }
  }

  lemma {:induction false} ExitFrom(c: Config, s: Bench, list: seq<Node>)
    requires c.reportsEmpty(StubUnlinked)
    requires Inv(s.q, list) && BenchInv(c, s) && SweepInv(c, s)
    ensures CanExit(c, s)
    decreases ToSend(c, s), Sum(PushWorks(s.q, c.P)), Unjoined(c, s), Waiting(s), Phase(s), PopWork(s.q)
  {
    if s.pc.Exited? {
      ReachSelf(Steps(c), s);
    } else {
      var st;
      if s.stop { st := DrainerNextStep(c, s, list); } else { st := ProducersNextStep(c, s, list); }
      var list' := BenchStepKeeps(c, s, list, st);
      assert Next(c, s, Do(c, s, st));
      ReachStep(Steps(c), s, Do(c, s, st));
      ExitFrom(c, Do(c, s, st), list');
      var t :| CanReach(Steps(c), Do(c, s, st), t) && t.pc.Exited?;
      ReachTransitive(Steps(c), s, Do(c, s, st), t);
    }
  }

  ghost function KeptInside(c: Config): Bench -> bool {
    s => Kept(c)(s) && !s.pc.Exited?
  }

  lemma StaysInside(c: Config, s: Bench, t: Bench)
    requires !c.reportsEmpty(StubUnlinked) && KeptInside(c)(s) && Steps(c)(s, t)
    ensures KeptInside(c)(t)
  {
    KeptStep(c, s, t);
    var list :| Inv(s.q, list);
    assert Next(c, s, t);
    var st :| StepOk(c, s, st) && t == Do(c, s, st);
    if st == Dequeue { SweepDequeue(c, s, list); }
  }

  lemma NeverExits(c: Config, tr: seq<Bench>)
    requires !c.reportsEmpty(StubUnlinked) && IsBehaviour(c, tr)
    ensures !Last(tr).pc.Exited?
  {
    StartKept(c);
    forall s, t | KeptInside(c)(s) && Steps(c)(s, t)
      ensures KeptInside(c)(t)
    {
      StaysInside(c, s, t);
    }
    RunKeeps(Steps(c), KeptInside(c), tr);
  }

  /** The shutdown completes from every reachable state, if and only if a null from the lone stub counts as Empty. */
  lemma ShutdownCompletesIff(c: Config)
    ensures (forall tr :: IsBehaviour(c, tr) ==> CanExit(c, Last(tr))) <==> c.reportsEmpty(StubUnlinked)
  {
    if c.reportsEmpty(StubUnlinked) {
      forall tr | IsBehaviour(c, tr)
        ensures CanExit(c, Last(tr))
      {
        var list := BehaviourKeeps(c, tr);
        ExitFrom(c, Last(tr), list);
      }
    } else {
      assert IsBehaviour(c, [Start(c)]) && Last([Start(c)]) == Start(c);
      forall t | CanReach(Steps(c), Start(c), t)
        ensures !t.pc.Exited?
      {
        var tr :| IsRun(Steps(c), tr) && tr[0] == Start(c) && Last(tr) == t;
        NeverExits(c, tr);
      }
    }
  }
}
