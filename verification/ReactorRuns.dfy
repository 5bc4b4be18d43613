/** Theorems about every run of the reactor. */
module ReactorRuns {
  import opened IoTimers
  import opened Traces
  import opened Reactor

  /** Tasks run exactly once, in the order in which their posts took the mutex: at every instant the posted tasks are
      those executed, then the rest of the current batch, then the queue.  A task posted by a running task is thus
      behind the whole current batch. */
  lemma TasksRunOnceInOrder(tr: seq<Context>)
    requires IsBehaviour(tr)
    ensures Last(tr).posted == Last(tr).executed + Batch(Last(tr).pc) + Last(tr).queue
  {
    BehaviourKeeps(tr);
  }

  /** Task `j` (in posting order) has been posted, its `post` has returned, and it is still in the queue. */
  ghost predicate Waits(s: Context, j: nat) {
    |s.executed| + |Batch(s.pc)| <= j < |s.posted| && forall a <- s.calls :: s.calls[a] != Posting(j)
  }

  /** The loop never blocks while a task whose `post` has returned is queued: the wake descriptor is readable, so
      `epoll_wait` may return at once and cannot return without reporting it. */
  lemma NoLostWakeup(tr: seq<Context>, j: nat)
    requires IsBehaviour(tr) && Last(tr).pc.Waiting? && Waits(Last(tr), j)
    ensures Last(tr).counter > 0
    ensures StepOk(Last(tr), WaitReturns(Events([Wakeup])))
    ensures forall evs :: StepOk(Last(tr), WaitReturns(Events(evs))) ==> Wakeup in evs
  {
    BehaviourKeeps(tr);
    assert Announced(Last(tr), j);
  }

  /** Events of the current iteration still to be dispatched. */
  function EventsLeft(pc: Pc): seq<Event> {
    match pc
    case SampleTimers(evs, _) => evs
    case Running(k) => k.evs
    case InCallback(k, _) => k.evs
    case Draining(evs) => evs
    case Swapping(evs) => evs
    case _ => []
  }

  predicate Dispatching(pc: Pc) {
    pc.SampleTimers? || pc.Running? || pc.InCallback? || pc.Draining? || pc.Swapping?
  }

  /** Task `j` has been started, is in the current batch, or will be before the iteration ends. */
  ghost predicate Promised(s: Context, j: nat) {
    j < |s.executed| + |Batch(s.pc)| || s.pc.Draining? || s.pc.Swapping? || Wakeup in EventsLeft(s.pc)
  }

  lemma PromiseAdvances(s: Context, j: nat)
    requires s.pc.Running? && Promised(s, j)
    ensures Promised(DoAdvance(s), j)
  {
    if s.pc.cont.MoreEvents? && s.pc.cont.evs != [] { HeadOrTail(s.pc.cont.evs); }
  }

  lemma HeadOrTail(evs: seq<Event>)
    requires evs != []
    ensures Wakeup in evs ==> evs[0] == Wakeup || Wakeup in evs[1..]
  {
  }

  lemma OthersSpareEvents(s: Context, st: Step)
    requires Dispatching(s.pc) && StepOk(s, st) && !st.Advance? && !st.Swap?
    ensures var s' := Do(s, st);
      && EventsLeft(s'.pc) == EventsLeft(s.pc) && |Batch(s'.pc)| == |Batch(s.pc)| && s'.executed == s.executed
      && (s.pc.Draining? || s.pc.Swapping? ==> s'.pc.Draining? || s'.pc.Swapping?)
  {
  }

  lemma PromiseStep(s: Context, st: Step, j: nat)
    requires TasksInOrder(s) && j < |s.posted| && Dispatching(s.pc) && Promised(s, j) && StepOk(s, st)
    ensures Promised(Do(s, st), j) && j < |Do(s, st).posted|
  {
    if st.Advance? {
      PromiseAdvances(s, j);
    } else if !st.Swap? {
      OthersSpareEvents(s, st);
    }
    StepPosts(s, st);
  }

  lemma StepPosts(s: Context, st: Step)
    requires StepOk(s, st)
    ensures s.posted <= Do(s, st).posted
  {
  }

  lemma {:induction false} PromiseKept(tr: seq<Context>, j: nat)
    requires IsRun(Steps(), tr) && Inv(tr[0]) && j < |tr[0].posted| && Promised(tr[0], j)
    requires forall k {:trigger tr[k]} :: 0 <= k < |tr| - 1 ==> Dispatching(tr[k].pc)
    ensures Inv(Last(tr)) && Promised(Last(tr), j) && j < |Last(tr).posted|
    decreases |tr|
  {
    if |tr| > 1 {
      var front := tr[..|tr| - 1];
      PromiseKept(front, j);
      assert Last(front) == tr[|tr| - 2];
      PromiseNext(Last(front), Last(tr), j);
    }
  }

  /** `s'` is `s` after `epoll_wait` has returned with events. */
  ghost predicate EventsReported(s: Context, s': Context) {
    exists evs :: StepOk(s, WaitReturns(Events(evs))) && s' == Do(s, WaitReturns(Events(evs)))
  }

  lemma WakeupArrives(s: Context, evs: seq<Event>, j: nat)
    requires TasksInOrder(s) && NoneForgotten(s) && Waits(s, j) && StepOk(s, WaitReturns(Events(evs)))
    ensures Promised(Do(s, WaitReturns(Events(evs))), j) && Do(s, WaitReturns(Events(evs))).posted == s.posted
  {
    assert Announced(s, j);
  }

  lemma EventsArrive(s: Context, s': Context, j: nat)
    requires Inv(s) && Waits(s, j) && EventsReported(s, s')
    ensures Inv(s') && Promised(s', j) && s'.posted == s.posted
  {
    var evs :| StepOk(s, WaitReturns(Events(evs))) && s' == Do(s, WaitReturns(Events(evs)));
    WakeupArrives(s, evs, j);
    assert Next(s, s');
    StepKeeps(s, s');
  }

  /** One iteration suffices: when `epoll_wait` reports events while a task whose `post` has returned is queued, that
      task has run by the time the loop next looks at the stop flag. */
  lemma OneIterationServes(before: seq<Context>, tr: seq<Context>, j: nat)
    requires IsBehaviour(before) && Last(before).pc.Waiting? && Waits(Last(before), j)
    requires IsRun(Steps(), tr) && tr[0].pc.SampleTimers?
    requires EventsReported(Last(before), tr[0])
    requires forall k {:trigger tr[k]} :: 0 <= k < |tr| - 1 ==> Dispatching(tr[k].pc)
    requires Last(tr).pc.CheckStop?
    ensures j < |Last(tr).executed| && Last(tr).executed[j] == Last(before).posted[j]
  {
    var s := Last(before);
    BehaviourKeeps(before);
    EventsArrive(s, tr[0], j);
    PromiseKept(tr, j);
    PostedGrows(tr);
  }

  lemma PostedGrows(tr: seq<Context>)
    requires IsRun(Steps(), tr)
    ensures tr[0].posted <= Last(tr).posted
  {
    var sofar := tr[0].posted;
    forall s: Context, t: Context | sofar <= s.posted && Steps()(s, t)
      ensures sofar <= t.posted
    {
      NextPosts(s, t);
    }
    RunKeeps(Steps(), (s: Context) => sofar <= s.posted, tr);
  }

  lemma NextPosts(s: Context, s': Context)
    requires Steps()(s, s')
    ensures s.posted <= s'.posted
  {
    assert Next(s, s');
    var st :| StepOk(s, st) && s' == Do(s, st);
    StepPosts(s, st);
  }

  lemma PromiseNext(s: Context, s': Context, j: nat)
    requires Inv(s) && j < |s.posted| && Dispatching(s.pc) && Promised(s, j) && Steps()(s, s')
    ensures Inv(s') && Promised(s', j) && j < |s'.posted|
  {
    StepKeeps(s, s');
    assert Next(s, s');
    var st :| StepOk(s, st) && s' == Do(s, st);
    PromiseStep(s, st, j);
  }

  /** A `stop` that has returned is never missed, whatever posts and drains interleave: no loop runs, or the loop will
      load the flag before it next computes a timeout, or is about to wait with the wake descriptor readable.  It comes
      out of `epoll_wait` at most once more. */
  lemma StopNeverMissed(tr: seq<Context>)
    requires IsBehaviour(tr) && Last(tr).stopReturned
    ensures var s := Last(tr);
      && s.stop && s.wakesAfterStop <= 1
      && (NoLoop(s.pc) || s.pc.CheckStop? || Dispatching(s.pc) ||
          (s.counter > 0 && s.wakesAfterStop == 0 && (s.pc.ComputeTimeout? || s.pc.Waiting?)))
  {
    BehaviourKeeps(tr);
  }

  /** Every scheduled timer is, exactly once, fired, or taken by the current pass, or waiting; none fires before its
      time; a pass takes exactly what was due when it sampled the clock and had been scheduled before, and fires it in
      the order of (fire time, insertion). */
  lemma TimersFireOnceInOrder(tr: seq<Context>)
    requires IsBehaviour(tr)
    ensures var s := Last(tr);
      && multiset(s.scheduled) == multiset(s.fired) + multiset(DueLeft(s.pc)) + multiset(s.timers)
      && (forall i :: 0 <= i < |s.scheduled| ==> s.scheduled[i].number == i)
      && (forall t <- s.fired :: t.fire <= s.clock)
      && (exists k: nat :: k <= |s.fired| && s.pass == s.fired[k..] + DueLeft(s.pc))
      && Ordered(s.pass)
      && (forall t <- s.pass :: t.fire <= s.passClock && t.number < s.passIssued)
      && (forall t <- s.timers :: t.number < s.passIssued ==> t.fire > s.passClock)
  {
    BehaviourKeeps(tr);
    var s := Last(tr);
    var k := |s.fired| - (|s.pass| - |DueLeft(s.pc)|);
    assert s.pass == s.fired[k..] + DueLeft(s.pc);
  }

  /** When a wait ends by its timeout, the pass that follows fires at least one timer, unless the timeout was capped. */
  lemma SleptTimeoutFires(tr: seq<Context>)
    requires IsBehaviour(tr) && Last(tr).pc.SampleTimers? && Last(tr).pc.evs == [] && Last(tr).pc.timeout < TIMEOUT_CAP
    ensures Due(Last(tr).timers, Last(tr).clock) != []
  {
    BehaviourKeeps(tr);
  }

  /** A timer scheduled by a callback lands past the clock the latest pass sampled exactly if its delay is positive or the
      clock has moved since; otherwise it is due at once, and still waits for a later pass. */
  lemma LandsPastNowIff(tr: seq<Context>, delay: int, t: Task)
    requires IsBehaviour(tr) && StepOk(Last(tr), PostAfter(delay, t))
    ensures var s' := Do(Last(tr), PostAfter(delay, t));
      var timer := s'.scheduled[|Last(tr).scheduled|];
      && timer in s'.timers && timer !in s'.pass
      && (timer.fire > s'.passClock <==> delay > 0 || s'.clock > s'.passClock)
  {
    BehaviourKeeps(tr);
    var s := Last(tr);
    var s' := Do(s, PostAfter(delay, t));
    InsertMultiset(s.timers, s'.scheduled[|s.scheduled|]);
  }

  lemma Extend(tr: seq<Context>, st: Step) returns (longer: seq<Context>)
    requires IsBehaviour(tr) && StepOk(Last(tr), st)
    ensures IsBehaviour(longer) && Last(longer) == Do(Last(tr), st)
  {
    assert Next(Last(tr), Do(Last(tr), st));
    ExtendRun(Steps(), tr, Do(Last(tr), st));
    longer := tr + [Do(Last(tr), st)];
  }

  /** A run that has scheduled a timer without delay before `run`, and is about to take its zero timeout. */
  lemma TimerAtOnce(clock: int, t: Task) returns (tr: seq<Context>)
    ensures IsBehaviour(tr)
    ensures var first := Timer(clock, 0, t);
      Last(tr) == Start(clock).(timers := [first], scheduled := [first], pc := Waiting(0, clock))
  {
    tr := [Start(clock)];
    tr := Extend(tr, PostAfter(0, t));
    tr := Extend(tr, Run);
    tr := Extend(tr, Check);
    tr := Extend(tr, Compute);
  }

  /** The same run, in that timer's callback. */
  lemma TimerInCallback(clock: int, t: Task) returns (tr: seq<Context>)
    ensures IsBehaviour(tr)
    ensures var first := Timer(clock, 0, t);
      Last(tr) == Start(clock).(
        scheduled := [first], fired := [first], pass := [first], passIssued := 1,
        pc := InCallback(MoreTimers([], []), Fired(first)))
  {
    tr := TimerAtOnce(clock, t);
    DueAlone(Timer(clock, 0, t), clock);
    tr := Extend(tr, WaitReturns(Events([])));
    tr := Extend(tr, Sample);
    tr := Extend(tr, Advance);
  }

  lemma DueAlone(t: Timer, now: int)
    requires t.fire <= now
    ensures Due([t], now) == [t] && Later([t], now) == []
  {
    assert [t][1..] == [] && DueCount([t], now) == 1 + DueCount([t][1..], now);
  }

  /** It does happen that a timer's callback schedules a timer that does not land past `now`: whatever the clock shows,
      some run is in the callback of a timer, and a timer scheduled there without delay is due at the pass's `now`. */
  lemma MayLandOnNow(clock: int, t: Task) returns (tr: seq<Context>)
    ensures IsBehaviour(tr) && Last(tr).pc == InCallback(MoreTimers([], []), Fired(Timer(clock, 0, t)))
    ensures StepOk(Last(tr), PostAfter(0, t))
    ensures var s' := Do(Last(tr), PostAfter(0, t));
      s'.passClock == clock && s'.timers == [Timer(clock, 1, t)] && s'.timers[0].fire <= s'.passClock
  {
    tr := TimerInCallback(clock, t);
  }

  /** The descriptors `epoll` watches are those with a handler. */
  lemma RegistryMatchesEpoll(tr: seq<Context>)
    requires IsBehaviour(tr)
    ensures Last(tr).interest == Last(tr).handlers.Keys
  {
    BehaviourKeeps(tr);
  }

  /** The `k`-th step of `tr` is a `del_fd` that takes the handler of `fd` away. */
  ghost predicate RemovedAt(tr: seq<Context>, k: nat, fd: Fd) {
    k + 1 < |tr| && fd in tr[k].handlers && StepOk(tr[k], DelFd(fd)) && tr[k + 1] == Do(tr[k], DelFd(fd))
  }

  lemma OnlyDelFdRemoves(s: Context, st: Step, fd: Fd)
    requires StepOk(s, st) && fd in s.handlers && fd !in Do(s, st).handlers
    ensures st == DelFd(fd)
  {
  }

  lemma EventsShrink(s: Context, st: Step, e: Event)
    requires Dispatching(s.pc) && StepOk(s, st) && e in EventsLeft(Do(s, st).pc)
    ensures e in EventsLeft(s.pc)
  {
    if st.Advance? {
      AdvanceShrinks(s, e);
    } else if !st.Swap? {
      OthersSpareEvents(s, st);
    }
  }

  lemma AdvanceShrinks(s: Context, e: Event)
    requires s.pc.Running? && e in EventsLeft(DoAdvance(s).pc)
    ensures e in EventsLeft(s.pc)
  {
    AdvancedEvents(s.pc.cont, s.handlers);
  }

  lemma AdvancedEvents(cont: Cont, handlers: map<Fd, Handler>)
    ensures EventsLeft(AdvancePc(cont, handlers)) == if cont.MoreEvents? && cont.evs != [] then cont.evs[1..] else cont.evs
  {
  }

  lemma {:induction false} LostHandlerWasRemoved(tr: seq<Context>, fd: Fd)
    requires IsRun(Steps(), tr) && forall k {:trigger tr[k]} :: 0 <= k < |tr| ==> Dispatching(tr[k].pc)
    requires Ready(fd) in EventsLeft(tr[0].pc) ==> fd in tr[0].handlers
    requires Ready(fd) in EventsLeft(Last(tr).pc) && fd !in Last(tr).handlers
    ensures exists k :: RemovedAt(tr, k, fd)
    decreases |tr|
  {
    assert |tr| > 1;
    var front := tr[..|tr| - 1];
    var s, s' := Last(front), Last(tr);
    assert s == tr[|tr| - 2] && Next(s, s');
    var st :| StepOk(s, st) && s' == Do(s, st);
    EventsShrink(s, st, Ready(fd));
    if fd in s.handlers {
      OnlyDelFdRemoves(s, st, fd);
      assert RemovedAt(tr, |tr| - 2, fd);
    } else {
      LostHandlerWasRemoved(front, fd);
      var k :| RemovedAt(front, k, fd);
      assert RemovedAt(tr, k, fd);
    }
  }

  /** A reported descriptor that has no handler when its turn comes lost it to a `del_fd` since the batch was reported. */
  lemma UnhandledWasRemoved(before: seq<Context>, tr: seq<Context>, fd: Fd)
    requires IsBehaviour(before) && Last(before).pc.Waiting?
    requires IsRun(Steps(), tr) && EventsReported(Last(before), tr[0])
    requires forall k {:trigger tr[k]} :: 0 <= k < |tr| ==> Dispatching(tr[k].pc)
    requires Ready(fd) in EventsLeft(Last(tr).pc) && fd !in Last(tr).handlers
    ensures exists k :: RemovedAt(tr, k, fd)
  {
    BehaviourKeeps(before);
    if Ready(fd) in EventsLeft(tr[0].pc) { ReportedAreRegistered(Last(before), tr[0], fd); }
    LostHandlerWasRemoved(tr, fd);
  }

  lemma ReportedAreRegistered(s: Context, s': Context, fd: Fd)
    requires RegistryKept(s) && EventsReported(s, s') && Ready(fd) in EventsLeft(s'.pc)
    ensures fd in s'.handlers
  {
    var evs :| StepOk(s, WaitReturns(Events(evs))) && s' == Do(s, WaitReturns(Events(evs)));
    assert EventsLeft(s'.pc) == evs;
  }
}
