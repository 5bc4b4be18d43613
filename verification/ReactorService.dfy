/**
 What the reactor does with the requests it gets: every reported descriptor reaches the handler registered for it, every
 timer fires when its caller asked for it, and the loop ends only when asked to.
 */
module ReactorService {
  import opened Basics
  import opened IoTimers
  import opened Traces
  import opened Reactor
  import opened ReactorRuns

  // ------------------------------------------------------------------------------------------------
  // Runs with their steps named
  // ------------------------------------------------------------------------------------------------

  /** `sts[k]` leads from `tr[k]` to `tr[k + 1]`. */
  ghost predicate Executes(tr: seq<Context>, sts: seq<Step>) {
    && |tr| == |sts| + 1
    && forall k {:trigger sts[k]} :: 0 <= k < |sts| ==> StepOk(tr[k], sts[k]) && tr[k + 1] == Do(tr[k], sts[k])
  }

  ghost predicate FromStart(tr: seq<Context>, sts: seq<Step>) {
    Executes(tr, sts) && tr[0] == Start(tr[0].clock)
  }

  lemma LastStep(tr: seq<Context>, sts: seq<Step>)
    requires Executes(tr, sts) && sts != []
    ensures var n := |sts| - 1;
      && Executes(tr[..n + 1], sts[..n]) && Last(tr[..n + 1]) == tr[n]
      && StepOk(tr[n], sts[n]) && Last(tr) == Do(tr[n], sts[n])
  {
    var n := |sts| - 1;
    forall k {:trigger sts[..n][k]} | 0 <= k < n
      ensures StepOk(tr[..n + 1][k], sts[..n][k]) && tr[..n + 1][k + 1] == Do(tr[..n + 1][k], sts[..n][k])
    {
      assert sts[..n][k] == sts[k];
    }
  }

  /** Every run has a naming. */
  lemma {:induction false} StepsOfRun(tr: seq<Context>) returns (sts: seq<Step>)
    requires IsRun(Steps(), tr)
    ensures Executes(tr, sts)
    decreases |tr|
  {
    if |tr| == 1 {
      sts := [];
    } else {
      var front := tr[..|tr| - 1];
      sts := StepsOfRun(front);
      assert Next(Last(front), Last(tr));
      var st :| StepOk(Last(front), st) && Last(tr) == Do(Last(front), st);
      sts := sts + [st];
    }
  }

  // ------------------------------------------------------------------------------------------------
  // Handlers
  // ------------------------------------------------------------------------------------------------

  /** The handler that the calls so far have left `fd` with: that of the first accepted `add_fd` since the last `del_fd`;
      the kernel refuses a descriptor it already watches. */
  function Registered(sts: seq<Step>, fd: Fd): Option<Handler> {
    if sts == [] then None
    else
      var sofar := Registered(sts[..|sts| - 1], fd);
      match sts[|sts| - 1]
      case AddFd(f, h, kernelAccepts) => if f == fd && kernelAccepts && sofar == None then Some(h) else sofar
      case DelFd(f) => if f == fd then None else sofar
      case _ => sofar
  }

  ghost predicate Agrees(s: Context, fd: Fd, h: Option<Handler>) {
    (fd in s.interest <==> h.Some?) && (fd in s.handlers <==> h.Some?) && (h.Some? ==> s.handlers[fd] == h.value)
  }

  lemma OthersSpareHandlers(s: Context, st: Step)
    requires StepOk(s, st) && !st.AddFd? && !st.DelFd?
    ensures Do(s, st).handlers == s.handlers && Do(s, st).interest == s.interest
  {
  }

  /** The registry is what the calls have made it. */
  lemma {:induction false} HandlersAreRegistered(tr: seq<Context>, sts: seq<Step>, fd: Fd)
    requires FromStart(tr, sts)
    ensures Agrees(Last(tr), fd, Registered(sts, fd))
    decreases |sts|
  {
    if sts != [] {
      var n := |sts| - 1;
      LastStep(tr, sts);
      HandlersAreRegistered(tr[..n + 1], sts[..n], fd);
      if !sts[n].AddFd? && !sts[n].DelFd? { OthersSpareHandlers(tr[n], sts[n]); }
    }
  }

  /** The handler that the loop has to call next, if it has got to a descriptor that has one. */
  function CallsOf(cont: Cont, handlers: map<Fd, Handler>): seq<Call> {
    if cont.MoreEvents? && cont.evs != [] && cont.evs[0].Ready? && cont.evs[0].fd in handlers
    then [Call(cont.evs[0].fd, handlers[cont.evs[0].fd])] else []
  }

  lemma OnlyAdvanceCalls(s: Context, st: Step)
    requires StepOk(s, st)
    ensures Do(s, st).called == s.called + if st.Advance? then CallsOf(s.pc.cont, s.handlers) else []
  {
  }

  /** Whenever a step calls a handler, it is the one registered for that descriptor at that moment. */
  lemma CallsAreOfRegistered(tr: seq<Context>, sts: seq<Step>)
    requires FromStart(tr, sts) && sts != []
    ensures var s, s' := tr[|sts| - 1], Last(tr);
      s'.called != s.called ==>
        && |s'.called| == |s.called| + 1 && s.called == s'.called[..|s.called|]
        && var call := s'.called[|s.called|];
          Registered(sts[..|sts| - 1], call.fd) == Some(call.handler) && s'.pc.InCallback? && s'.pc.running == Handled(call)
  {
    var n := |sts| - 1;
    LastStep(tr, sts);
    OnlyAdvanceCalls(tr[n], sts[n]);
    if sts[n].Advance? && CallsOf(tr[n].pc.cont, tr[n].handlers) != [] {
      HandlersAreRegistered(tr[..n + 1], sts[..n], tr[n].pc.cont.evs[0].fd);
    }
  }

  // ------------------------------------------------------------------------------------------------
  // Dispatch
  // ------------------------------------------------------------------------------------------------

  function Fds(calls: seq<Call>): seq<Fd> { seq(|calls|, k requires 0 <= k < |calls| => calls[k].fd) }

  /** The descriptors among `evs` that `keep` selects, in order. */
  function Selected(evs: seq<Event>, keep: seq<bool>): seq<Fd>
    requires |evs| == |keep|
  {
    if evs == [] then []
    else
      var n := |evs| - 1;
      Selected(evs[..n], keep[..n]) + if evs[n].Ready? && keep[n] then [evs[n].fd] else []
  }

  ghost predicate Lost(tr: seq<Context>, fd: Fd) {
    exists k :: RemovedAt(tr, k, fd)
  }

  /** In `tr` the handlers called are those of the selected ones among the first events, in order, each once; every other
      descriptor among them has lost its handler to a `del_fd`. */
  ghost predicate Served(tr: seq<Context>, evs: seq<Event>, keep: seq<bool>)
    requires tr != []
  {
    && |keep| <= |evs| && |tr[0].called| <= |Last(tr).called|
    && Fds(Last(tr).called[|tr[0].called|..]) == Selected(evs[..|keep|], keep)
    && UnservedAreLost(tr, evs, keep)
  }

  ghost predicate UnservedAreLost(tr: seq<Context>, evs: seq<Event>, keep: seq<bool>)
    requires |keep| <= |evs|
  {
    forall i {:trigger evs[i]} :: 0 <= i < |keep| && evs[i].Ready? && !keep[i] ==> Lost(tr, evs[i].fd)
  }

  /** An iteration's step either leaves the events and the calls alone, or takes one event and calls its handler. */
  lemma EventsTaken(s: Context, st: Step)
    requires Dispatching(s.pc) && StepOk(s, st)
    ensures var s' := Do(s, st);
      if st.Advance? && s.pc.cont.MoreEvents? && s.pc.cont.evs != [] then
        EventsLeft(s'.pc) == s.pc.cont.evs[1..] && s'.called == s.called + CallsOf(s.pc.cont, s.handlers)
      else
        EventsLeft(s'.pc) == EventsLeft(s.pc) && s'.called == s.called
  {
    OnlyAdvanceCalls(s, st);
    if st.Advance? {
      AdvancedEvents(s.pc.cont, s.handlers);
    } else if !st.Swap? {
      OthersSpareEvents(s, st);
    }
  }

  lemma LostLater(front: seq<Context>, tr: seq<Context>, fd: Fd)
    requires Lost(front, fd) && front <= tr
    ensures Lost(tr, fd)
  {
    var k :| RemovedAt(front, k, fd);
    assert RemovedAt(tr, k, fd);
  }

  lemma SelectOneMore(evs: seq<Event>, keep: seq<bool>, b: bool)
    requires |keep| < |evs|
    ensures Selected(evs[..|keep| + 1], keep + [b]) ==
            Selected(evs[..|keep|], keep) + if evs[|keep|].Ready? && b then [evs[|keep|].fd] else []
  {
    var n, first, flags := |keep|, evs[..|keep| + 1], keep + [b];
    assert first[..n] == evs[..n] && first[n] == evs[n];
    assert flags[..n] == keep && flags[n] == b;
  }

  lemma ServeOne(front: seq<Context>, tr: seq<Context>, evs: seq<Event>, keep: seq<bool>, b: bool)
    requires |tr| > 1 && front == tr[..|tr| - 1] && Served(front, evs, keep) && |keep| < |evs|
    requires Last(front).pc == Running(MoreEvents(evs[|keep|..]))
    requires b == (evs[|keep|].Ready? && evs[|keep|].fd in Last(front).handlers)
    requires Last(tr).called == Last(front).called + CallsOf(Last(front).pc.cont, Last(front).handlers)
    requires evs[|keep|].Ready? && !b ==> Lost(tr, evs[|keep|].fd)
    ensures Served(tr, evs, keep + [b])
  {
    var e, s := evs[|keep|], Last(front);
    SelectOneMore(evs, keep, b);
    NextCall(evs[|keep|..], s.handlers);
    CallsSelected(tr[0].called, s.called, CallsOf(s.pc.cont, s.handlers));
    UnservedOneMore(front, tr, evs, keep, b);
  }

  lemma NextCall(evs: seq<Event>, handlers: map<Fd, Handler>)
    requires evs != []
    ensures Fds(CallsOf(MoreEvents(evs), handlers)) ==
            if evs[0].Ready? && evs[0].fd in handlers then [evs[0].fd] else []
  {
  }

  lemma UnservedOneMore(front: seq<Context>, tr: seq<Context>, evs: seq<Event>, keep: seq<bool>, b: bool)
    requires front <= tr && |keep| < |evs| && UnservedAreLost(front, evs, keep)
    requires evs[|keep|].Ready? && !b ==> Lost(tr, evs[|keep|].fd)
    ensures UnservedAreLost(tr, evs, keep + [b])
  {
    forall i {:trigger evs[i]} | 0 <= i < |keep| + 1 && evs[i].Ready? && !(keep + [b])[i]
      ensures Lost(tr, evs[i].fd)
    {
      if i < |keep| { LostLater(front, tr, evs[i].fd); }
    }
  }

  lemma LosesNow(front: seq<Context>, tr: seq<Context>, fd: Fd)
    requires IsRun(Steps(), tr) && |tr| > 1 && front == tr[..|tr| - 1]
    requires forall k {:trigger tr[k]} :: 0 <= k < |tr| - 1 ==> Dispatching(tr[k].pc)
    requires Ready(fd) in EventsLeft(tr[0].pc) ==> fd in tr[0].handlers
    requires Ready(fd) in EventsLeft(Last(front).pc) && fd !in Last(front).handlers
    ensures Lost(tr, fd)
  {
    assert forall k {:trigger front[k]} :: 0 <= k < |front| ==> front[k] == tr[k];
    LostHandlerWasRemoved(front, fd);
    LostLater(front, tr, fd);
  }

  lemma CallsSelected(first: seq<Call>, was: seq<Call>, more: seq<Call>)
    requires |first| <= |was|
    ensures Fds((was + more)[|first|..]) == Fds(was[|first|..]) + Fds(more)
  {
    assert (was + more)[|first|..] == was[|first|..] + more;
  }

  lemma ServedStays(front: seq<Context>, tr: seq<Context>, evs: seq<Event>, keep: seq<bool>)
    requires |tr| > 1 && front == tr[..|tr| - 1] && Served(front, evs, keep)
    requires Last(tr).called == Last(front).called
    ensures Served(tr, evs, keep)
  {
    forall i {:trigger evs[i]} | 0 <= i < |keep| && evs[i].Ready? && !keep[i]
      ensures Lost(tr, evs[i].fd)
    {
      LostLater(front, tr, evs[i].fd);
    }
  }

  lemma {:induction false} ServedSoFar(tr: seq<Context>, evs: seq<Event>) returns (keep: seq<bool>)
    requires IsRun(Steps(), tr) && EventsLeft(tr[0].pc) == evs
    requires forall k {:trigger tr[k]} :: 0 <= k < |tr| - 1 ==> Dispatching(tr[k].pc)
    requires forall fd :: Ready(fd) in evs ==> fd in tr[0].handlers
    ensures Served(tr, evs, keep) && EventsLeft(Last(tr).pc) == evs[|keep|..]
    decreases |tr|
  {
    if |tr| == 1 {
      keep := [];
    } else {
      var front := tr[..|tr| - 1];
      keep := ServedSoFar(front, evs);
      var s, s' := Last(front), Last(tr);
      assert s == tr[|tr| - 2] && Next(s, s');
      var st :| StepOk(s, st) && s' == Do(s, st);
      EventsTaken(s, st);
      if st.Advance? && s.pc.cont.MoreEvents? && s.pc.cont.evs != [] {
        var e := evs[|keep|];
        assert evs[|keep|..][0] == e && evs[|keep|..][1..] == evs[|keep| + 1..];
        if e.Ready? && e.fd !in s.handlers { LosesNow(front, tr, e.fd); }
        var b := e.Ready? && e.fd in s.handlers;
        ServeOne(front, tr, evs, keep, b);
        keep := keep + [b];
      } else {
        ServedStays(front, tr, evs, keep);
      }
    }
  }

  /** One iteration serves every reported descriptor: by the time the loop next looks at the stop flag, the handlers called
      since the report are, in the reported order and once each, those of the reported descriptors, except for
      descriptors that a `del_fd` has taken away since. */
  lemma ReportedAreServed(before: seq<Context>, tr: seq<Context>, evs: seq<Event>) returns (keep: seq<bool>)
    requires IsBehaviour(before) && StepOk(Last(before), WaitReturns(Events(evs)))
    requires IsRun(Steps(), tr) && tr[0] == Do(Last(before), WaitReturns(Events(evs)))
    requires forall k {:trigger tr[k]} :: 0 <= k < |tr| - 1 ==> Dispatching(tr[k].pc)
    requires Last(tr).pc.CheckStop?
    ensures |keep| == |evs| && Served(tr, evs, keep)
  {
    BehaviourKeeps(before);
    forall fd | Ready(fd) in evs
      ensures fd in tr[0].handlers
    {
      assert fd in Last(before).interest;
    }
    keep := ServedSoFar(tr, evs);
  }

  /** In particular, a reported descriptor that no `del_fd` takes away has its handler called. */
  lemma UndisturbedIsServed(before: seq<Context>, tr: seq<Context>, evs: seq<Event>, fd: Fd)
    requires IsBehaviour(before) && StepOk(Last(before), WaitReturns(Events(evs))) && Ready(fd) in evs
    requires IsRun(Steps(), tr) && tr[0] == Do(Last(before), WaitReturns(Events(evs)))
    requires forall k {:trigger tr[k]} :: 0 <= k < |tr| - 1 ==> Dispatching(tr[k].pc)
    requires Last(tr).pc.CheckStop? && !Lost(tr, fd)
    ensures |tr[0].called| <= |Last(tr).called| && fd in Fds(Last(tr).called[|tr[0].called|..])
  {
    var keep := ReportedAreServed(before, tr, evs);
    var i :| 0 <= i < |evs| && evs[i] == Ready(fd);
    assert evs[..|evs|] == evs;
    SelectedHas(evs, keep, i);
  }

  lemma {:induction false} SelectedHas(evs: seq<Event>, keep: seq<bool>, i: nat)
    requires |evs| == |keep| && i < |evs| && evs[i].Ready? && keep[i]
    ensures evs[i].fd in Selected(evs, keep)
    decreases |evs|
  {
    var n := |evs| - 1;
    if i < n { SelectedHas(evs[..n], keep[..n], i); }
  }

  // ------------------------------------------------------------------------------------------------
  // Timers, in the terms of the request
  // ------------------------------------------------------------------------------------------------

  lemma SchedulesOnly(s: Context, st: Step)
    requires StepOk(s, st)
    ensures s.scheduled <= Do(s, st).scheduled
  {
  }

  lemma NextSchedules(s: Context, t: Context)
    requires Steps()(s, t)
    ensures s.scheduled <= t.scheduled
  {
    assert Next(s, t);
    var st :| StepOk(s, st) && t == Do(s, st);
    SchedulesOnly(s, st);
  }

  lemma ScheduledGrows(tr: seq<Context>)
    requires IsRun(Steps(), tr)
    ensures tr[0].scheduled <= Last(tr).scheduled
  {
    var sofar := tr[0].scheduled;
    forall s: Context, t: Context | sofar <= s.scheduled && Steps()(s, t)
      ensures sofar <= t.scheduled
    {
      NextSchedules(s, t);
    }
    RunKeeps(Steps(), (s: Context) => sofar <= s.scheduled, tr);
  }

  /** A step that schedules adds one timer, for the clock it reads plus the delay; a negative delay counts as none. */
  lemma RequestSchedules(s: Context, delay: int, t: Task)
    requires StepOk(s, PostAfter(delay, t))
    ensures var s' := Do(s, PostAfter(delay, t));
      && s'.scheduled[..|s.scheduled|] == s.scheduled && |s'.scheduled| == |s.scheduled| + 1
      && var u := s'.scheduled[|s.scheduled|];
        && u.task == t && u.fire == (if delay >= 0 then s.clock + delay else s.clock)
        && multiset(s'.timers) == multiset(s.timers) + multiset{u}
  {
    InsertMultiset(s.timers, TimerFor(s.clock, delay, |s.scheduled|, t));
  }

  lemma InOnePlace(s: Context, u: Timer)
    requires TimersKept(s) && u in s.scheduled
    ensures u in s.fired || u in DueLeft(s.pc) || u in s.timers
  {
    assert u in multiset(s.scheduled);
  }

  /** A timer requested at clock `c` with delay `d` carries its task, has not fired while the clock is below `c + d`, and
      is never left behind by a pass that samples `c + d` or more: it has then fired or is among those being fired. */
  lemma RequestHonoured(before: seq<Context>, delay: int, t: Task, tr: seq<Context>)
    requires IsBehaviour(before) && StepOk(Last(before), PostAfter(delay, t))
    requires IsRun(Steps(), tr) && tr[0] == Do(Last(before), PostAfter(delay, t))
    ensures var s, n := Last(tr), |Last(before).scheduled|;
      var at := if delay >= 0 then Last(before).clock + delay else Last(before).clock;
      && n < |s.scheduled| && s.scheduled[n].task == t
      && (s.scheduled[n] in s.fired ==> s.clock >= at)
      && (s.passIssued > n && s.passClock >= at ==> s.scheduled[n] in s.fired || s.scheduled[n] in DueLeft(s.pc))
      && (StepOk(s, Sample) && s.clock >= at ==> s.scheduled[n] in s.fired || s.scheduled[n] in Do(s, Sample).pass)
  {
    RequestSchedules(Last(before), delay, t);
    ScheduledGrows(tr);
    Continues(before, PostAfter(delay, t), tr);
    TimerHonoured(Last(tr), |Last(before).scheduled|);
  }

  lemma TimerHonoured(s: Context, n: nat)
    requires TimersKept(s) && PassKept(s) && n < |s.scheduled|
    ensures var u := s.scheduled[n];
      && (u in s.fired ==> s.clock >= u.fire)
      && (s.passIssued > n && s.passClock >= u.fire ==> u in s.fired || u in DueLeft(s.pc))
      && (StepOk(s, Sample) && s.clock >= u.fire ==> u in s.fired || u in Do(s, Sample).pass)
  {
    var u := s.scheduled[n];
    InOnePlace(s, u);
    if s.pc.SampleTimers? && u in s.timers { PassIsExact(s.timers, s.clock); }
  }

  lemma Continues(before: seq<Context>, st: Step, tr: seq<Context>)
    requires IsBehaviour(before) && StepOk(Last(before), st)
    requires IsRun(Steps(), tr) && tr[0] == Do(Last(before), st)
    ensures Inv(Last(tr))
  {
    var longer := Extend(before, st);
    JoinRuns(Steps(), longer, tr);
    assert (longer + tr[1..])[0] == longer[0];
    BehaviourKeeps(longer + tr[1..]);
  }

  // ------------------------------------------------------------------------------------------------
  // The end of the loop
  // ------------------------------------------------------------------------------------------------

  ghost predicate AskedToStop(sts: seq<Step>) { exists k :: 0 <= k < |sts| && sts[k].StoreStop? }

  ghost predicate WaitBroke(sts: seq<Step>) { exists k :: 0 <= k < |sts| && sts[k] == WaitReturns(Broken) }

  lemma OnlyReasonsToEnd(s: Context, st: Step)
    requires StepOk(s, st)
    ensures Do(s, st).stop ==> s.stop || st.StoreStop?
    ensures Do(s, st).pc.Exited? ==> s.pc.Exited? || s.stop || st == WaitReturns(Broken)
  {
  }

  /** The loop ends only after a `stop`, or because `epoll_wait` failed for good, and then at once; an interruption does not
      end it. */
  lemma {:induction false} EndsOnlyWhenAsked(tr: seq<Context>, sts: seq<Step>)
    requires FromStart(tr, sts)
    ensures Last(tr).stop ==> AskedToStop(sts)
    ensures Last(tr).pc.Exited? ==> AskedToStop(sts) || WaitBroke(sts)
    ensures sts != [] && sts[|sts| - 1] == WaitReturns(Broken) ==> Last(tr).pc.Exited?
    decreases |sts|
  {
    if sts != [] {
      var n := |sts| - 1;
      LastStep(tr, sts);
      EndsOnlyWhenAsked(tr[..n + 1], sts[..n]);
      OnlyReasonsToEnd(tr[n], sts[n]);
      EarlierCounts(sts, n);
    }
  }

  lemma EarlierCounts(sts: seq<Step>, n: nat)
    requires n < |sts|
    ensures AskedToStop(sts[..n]) || sts[n].StoreStop? ==> AskedToStop(sts)
    ensures WaitBroke(sts[..n]) || sts[n] == WaitReturns(Broken) ==> WaitBroke(sts)
  {
    if AskedToStop(sts[..n]) {
      var k :| 0 <= k < n && sts[..n][k].StoreStop?;
      assert sts[k].StoreStop?;
    }
    if WaitBroke(sts[..n]) {
      var k :| 0 <= k < n && sts[..n][k] == WaitReturns(Broken);
      assert sts[k] == WaitReturns(Broken);
    }
  }
}
