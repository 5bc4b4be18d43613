/**
 `IoContext` as a transition system: the loop thread, and any number of threads calling `post` and `stop`.  One step is
 one access to shared state: the push under the queue's mutex, the store or load of the stop flag, a write or read of
 the eventfd, the swap of the queue.  `epoll_wait` is an oracle that respects level triggering.  Callbacks (tasks, timers,
 handlers) do whatever they like with the public methods before they return.  While no loop runs, before `run` and after
 it, the owner of the object may use the loop thread's methods.
 */
module Reactor {
  import opened Basics
  import opened IoTimers
  import opened Traces

  type Fd = nat
  type Handler = nat

  datatype Event = Wakeup | Ready(fd: Fd)

  datatype Agent = Thread(id: nat) | Loop

  /** Between a call's first effect and its write to the eventfd: `post` of the task with this index, or `stop`. */
  datatype Pending = Posting(index: nat) | Stopping

  /** What the loop goes back to when a callback returns. */
  datatype Cont =
    | MoreTimers(due: seq<Timer>, evs: seq<Event>)
    | MoreTasks(batch: seq<Task>, evs: seq<Event>)
    | MoreEvents(evs: seq<Event>)

  /** A call of a descriptor's handler. */
  datatype Call = Call(fd: Fd, handler: Handler)

  /** What the loop thread has called. */
  datatype Callback = Fired(timer: Timer) | Posted(task: Task) | Handled(call: Call)

  /** The loop thread's next access; no loop runs in `NotStarted` and `Exited`. */
  datatype Pc =
    | NotStarted
    | CheckStop
    | ComputeTimeout
    | Waiting(timeout: int, since: int)
    | SampleTimers(evs: seq<Event>, timeout: int)
    | Running(cont: Cont)
    | Draining(evs: seq<Event>)
    | Swapping(evs: seq<Event>)
    | InCallback(cont: Cont, running: Callback)
    | Exited

  /** `eventfd` values go up to 2^64 - 2. */
  const COUNTER_MAX: nat := TWO_64 - 2

  /** History: `posted` in the order of the mutex, `executed`, `called` handlers, `scheduled` timers by number, `fired`
      timers; the timers taken by the current pass with the clock it sampled and the number of timers scheduled before
      it; whether some `stop` has returned and how often the loop has come out of `epoll_wait` since. */
  datatype Context = Context(
    queue: seq<Task>,
    counter: nat,
    stop: bool,
    calls: map<Agent, Pending>,
    pc: Pc,
    timers: seq<Timer>,
    handlers: map<Fd, Handler>,
    interest: set<Fd>,
    clock: int,
    posted: seq<Task>,
    executed: seq<Task>,
    called: seq<Call>,
    scheduled: seq<Timer>,
    fired: seq<Timer>,
    pass: seq<Timer>,
    passClock: int,
    passIssued: nat,
    stopReturned: bool,
    wakesAfterStop: nat)

  datatype WaitResult = Interrupted | Broken | Events(evs: seq<Event>)

  datatype Step =
    | Push(a: Agent, task: Task)
    | StoreStop(a: Agent)
    | WriteWake(a: Agent)
    | Tick(d: nat)
    | Run
    | Check
    | Compute
    | WaitReturns(r: WaitResult)
    | Sample
    | Advance
    | ReadWake
    | Swap
    | Return
    | PostAfter(delay: int, task: Task)
    | AddFd(fd: Fd, handler: Handler, kernelAccepts: bool)
    | DelFd(fd: Fd)

  function Start(clock: int): Context {
    Context([], 0, false, map[], NotStarted, [], map[], {}, clock, [], [], [], [], [], [], clock, 0, false, 0)
  }

  /** A thread may begin `post` or `stop`; the loop thread does so only inside a callback. */
  predicate MayCall(s: Context, a: Agent) {
    a !in s.calls && (a == Loop ==> s.pc.InCallback?)
  }

  predicate NoLoop(pc: Pc) { pc.NotStarted? || pc.Exited? }

  /** The methods reserved for the loop thread: free for use inside a callback, and while no loop runs. */
  predicate MayConfigure(s: Context) {
    NoLoop(s.pc) || (s.pc.InCallback? && Loop !in s.calls)
  }

  /** Level triggering: the wake descriptor is reported exactly while its counter is positive, only registered
      descriptors are reported, each once, and nothing is reported only after the timeout. */
  ghost predicate WaitResultOk(s: Context, r: WaitResult) {
    s.pc.Waiting? && match r
      case Interrupted => true
      case Broken => true
      case Events(evs) =>
        && Distinct(evs)
        && (Wakeup in evs <==> s.counter > 0)
        && (forall e <- evs :: e.Ready? ==> e.fd in s.interest)
        && (evs == [] ==> s.pc.timeout >= 0 && s.clock >= s.pc.since + s.pc.timeout * NS_PER_MS)
  }

  ghost predicate StepOk(s: Context, st: Step) {
    match st
    case Push(a, _) => MayCall(s, a)
    case StoreStop(a) => MayCall(s, a)
    case WriteWake(a) => a in s.calls
    case Tick(_) => true
    case Run => NoLoop(s.pc)
    case Check => s.pc.CheckStop?
    case Compute => s.pc.ComputeTimeout?
    case WaitReturns(r) => WaitResultOk(s, r)
    case Sample => s.pc.SampleTimers?
    case Advance => s.pc.Running?
    case ReadWake => s.pc.Draining?
    case Swap => s.pc.Swapping?
    case Return => s.pc.InCallback? && Loop !in s.calls
    case PostAfter(_, _) => MayConfigure(s)
    case AddFd(_, _, _) => MayConfigure(s)
    case DelFd(_) => MayConfigure(s)
  }

  function Do(s: Context, st: Step): Context
    requires StepOk(s, st)
  {
    match st
    case Push(a, t) =>
      s.(queue := s.queue + [t], posted := s.posted + [t], calls := s.calls[a := Posting(|s.posted|)])
    case StoreStop(a) => s.(stop := true, calls := s.calls[a := Stopping])
    case WriteWake(a) =>
      s.(counter := if s.counter >= COUNTER_MAX then s.counter else s.counter + 1,
         calls := s.calls - {a},
         stopReturned := s.stopReturned || s.calls[a].Stopping?)
    case Tick(d) => s.(clock := s.clock + d)
    case Run => s.(pc := CheckStop)
    case Check => s.(pc := if s.stop then Exited else ComputeTimeout)
    case Compute => s.(pc := Waiting(NextTimeoutMs(s.timers, s.clock), s.clock))
    case WaitReturns(r) =>
      s.(wakesAfterStop := if s.stopReturned then s.wakesAfterStop + 1 else s.wakesAfterStop,
         pc := match r
           case Interrupted => CheckStop
           case Broken => Exited
           case Events(evs) => SampleTimers(evs, s.pc.timeout))
    case Sample =>
      s.(pc := Running(MoreTimers(Due(s.timers, s.clock), s.pc.evs)),
         timers := Later(s.timers, s.clock),
         pass := Due(s.timers, s.clock),
         passClock := s.clock,
         passIssued := |s.scheduled|)
    case Advance => DoAdvance(s)
    case ReadWake => if s.counter > 0 then s.(counter := 0) else s.(pc := Swapping(s.pc.evs))
    case Swap => s.(pc := Running(MoreTasks(s.queue, s.pc.evs)), queue := [])
    case Return => s.(pc := Running(s.pc.cont))
    case PostAfter(delay, t) =>
      var timer := TimerFor(s.clock, delay, |s.scheduled|, t);
      s.(timers := Insert(s.timers, timer), scheduled := s.scheduled + [timer])
    case AddFd(fd, h, kernelAccepts) =>
      if kernelAccepts && fd !in s.interest then s.(interest := s.interest + {fd}, handlers := s.handlers[fd := h]) else s
    case DelFd(fd) => s.(interest := s.interest - {fd}, handlers := s.handlers - {fd})
  }

  /** The loop's own control flow: the next timer, task or event of the iteration. */
  function AdvancePc(cont: Cont, handlers: map<Fd, Handler>): Pc {
    match cont
    case MoreTimers(due, evs) =>
      if due == [] then Running(MoreEvents(evs)) else InCallback(MoreTimers(due[1..], evs), Fired(due[0]))
    case MoreTasks(batch, evs) =>
      if batch == [] then Running(MoreEvents(evs)) else InCallback(MoreTasks(batch[1..], evs), Posted(batch[0]))
    case MoreEvents(evs) =>
      if evs == [] then CheckStop
      else match evs[0]
        case Wakeup => Draining(evs[1..])
        case Ready(fd) =>
          if fd in handlers then InCallback(MoreEvents(evs[1..]), Handled(Call(fd, handlers[fd])))
          else Running(MoreEvents(evs[1..]))
  }

  /** Tasks taken off the queue and not yet started. */
  function Batch(pc: Pc): seq<Task> {
    if (pc.Running? || pc.InCallback?) && pc.cont.MoreTasks? then pc.cont.batch else []
  }

  /** Timers taken by the current pass and not yet started. */
  function DueLeft(pc: Pc): seq<Timer> {
    if (pc.Running? || pc.InCallback?) && pc.cont.MoreTimers? then pc.cont.due else []
  }

  /** The history of callbacks is that of the states the loop thread goes through. */
  function DoAdvance(s: Context): Context
    requires s.pc.Running?
  {
    var pc := AdvancePc(s.pc.cont, s.handlers);
    s.(pc := pc,
       fired := if pc.InCallback? && pc.running.Fired? then s.fired + [pc.running.timer] else s.fired,
       executed := if pc.InCallback? && pc.running.Posted? then s.executed + [pc.running.task] else s.executed,
       called := if pc.InCallback? && pc.running.Handled? then s.called + [pc.running.call] else s.called)
  }

  ghost predicate Next(s: Context, s': Context) {
    exists st :: StepOk(s, st) && s' == Do(s, st)
  }

  ghost function Steps(): (Context, Context) -> bool {
    (s, s') => Next(s, s')
  }

  ghost predicate IsBehaviour(tr: seq<Context>) {
    IsRun(Steps(), tr) && tr[0] == Start(tr[0].clock)
  }

  // ------------------------------------------------------------------------------------------------
  // The invariant
  // ------------------------------------------------------------------------------------------------

  ghost predicate TasksInOrder(s: Context) {
    s.posted == s.executed + Batch(s.pc) + s.queue
  }

  /** Something will make the loop look at task `j` once it gets to wait. */
  ghost predicate Announced(s: Context, j: nat) {
    s.counter > 0 || s.pc.Draining? || s.pc.Swapping? || exists a :: a in s.calls && s.calls[a] == Posting(j)
  }

  ghost predicate NoneForgotten(s: Context) {
    |s.queue| <= |s.posted| &&
    forall j {:trigger Announced(s, j)} :: |s.posted| - |s.queue| <= j < |s.posted| ==> Announced(s, j)
  }

  ghost predicate StopSeen(s: Context) {
    && (forall a <- s.calls :: s.calls[a].Stopping? ==> s.stop)
    && (s.stopReturned ==> s.stop && (s.pc.ComputeTimeout? || s.pc.Waiting? ==> s.counter > 0 && s.wakesAfterStop == 0))
    && s.wakesAfterStop <= 1
    && (s.wakesAfterStop == 1 ==> s.stopReturned)
  }

  ghost predicate TimersOk(timers: seq<Timer>, scheduled: seq<Timer>, fired: seq<Timer>, due: seq<Timer>) {
    && Ordered(timers)
    && (forall i :: 0 <= i < |scheduled| ==> scheduled[i].number == i)
    && (forall t <- timers :: t.number < |scheduled|)
    && multiset(scheduled) == multiset(fired) + multiset(due) + multiset(timers)
  }

  /** Every scheduled timer is in exactly one place. */
  ghost predicate TimersKept(s: Context) {
    TimersOk(s.timers, s.scheduled, s.fired, DueLeft(s.pc))
  }

  ghost predicate PassOk(pass: seq<Timer>, at: int, issued: nat, fired: seq<Timer>, due: seq<Timer>) {
    && Ordered(pass) && (forall t <- pass :: t.fire <= at && t.number < issued)
    && |due| <= |pass| <= |fired| + |due|
    && pass == fired[|fired| - (|pass| - |due|)..] + due
  }

  /** The current pass has fired a prefix of what it took, has left nothing that was due, and nothing fires early. */
  ghost predicate PassKept(s: Context) {
    && s.passClock <= s.clock && s.passIssued <= |s.scheduled|
    && (forall t <- s.timers :: t.number < s.passIssued ==> t.fire > s.passClock)
    && (forall t <- s.fired :: t.fire <= s.clock)
    && PassOk(s.pass, s.passClock, s.passIssued, s.fired, DueLeft(s.pc))
  }

  /** The timeout in use was computed for the timers at hand; slept through, it brings the earliest one due. */
  ghost predicate TimeoutKept(s: Context) {
    && (s.pc.Waiting? ==> s.pc.since <= s.clock && s.pc.timeout == NextTimeoutMs(s.timers, s.pc.since))
    && (s.pc.SampleTimers? && s.pc.evs == [] ==>
          s.timers != [] && (s.pc.timeout < TIMEOUT_CAP ==> s.timers[0].fire <= s.clock))
  }

  ghost predicate RegistryKept(s: Context) {
    s.interest == s.handlers.Keys
  }

  lemma TakeFirst<T>(a: seq<T>, b: seq<T>, c: seq<T>)
    requires b != []
    ensures a + b + c == (a + [b[0]]) + b[1..] + c
  {
  }

  lemma TasksStep(s: Context, st: Step)
    requires TasksInOrder(s) && StepOk(s, st)
    ensures TasksInOrder(Do(s, st))
  {
    var s' := Do(s, st);
    match st
    case Push(a, t) =>
      assert s.executed + Batch(s.pc) + (s.queue + [t]) == s.executed + Batch(s.pc) + s.queue + [t];
    case Advance =>
      if Batch(s.pc) != [] { TakeFirst(s.executed, Batch(s.pc), s.queue); }
    case Swap =>
      assert Batch(s.pc) == [] && Batch(s'.pc) == s.queue && s'.queue == [];
    case _ =>
      assert Batch(s'.pc) == Batch(s.pc) && s'.queue == s.queue;
  }

  lemma AnnouncedStep(s: Context, st: Step)
    requires TasksInOrder(s) && NoneForgotten(s) && StepOk(s, st)
    ensures NoneForgotten(Do(s, st))
  {
    var s' := Do(s, st);
    forall j | |s'.posted| - |s'.queue| <= j < |s'.posted|
      ensures Announced(s', j)
    {
      if j < |s.posted| {
        assert Announced(s, j);
        if s.counter == 0 && !s.pc.Draining? && !s.pc.Swapping? {
          var a :| a in s.calls && s.calls[a] == Posting(j);
          assert s'.counter > 0 || (a in s'.calls && s'.calls[a] == Posting(j));
        }
      } else {
        assert st.a in s'.calls && s'.calls[st.a] == Posting(j);
      }
    }
  }

  lemma StopStep(s: Context, st: Step)
    requires StopSeen(s) && StepOk(s, st)
    ensures StopSeen(Do(s, st))
  {
  }

  lemma FireFirst(timers: seq<Timer>, scheduled: seq<Timer>, fired: seq<Timer>, due: seq<Timer>)
    requires TimersOk(timers, scheduled, fired, due) && due != []
    ensures TimersOk(timers, scheduled, fired + [due[0]], due[1..])
  {
    assert due == [due[0]] + due[1..];
  }

  lemma TakeDue(timers: seq<Timer>, scheduled: seq<Timer>, fired: seq<Timer>, now: int)
    requires TimersOk(timers, scheduled, fired, [])
    ensures TimersOk(Later(timers, now), scheduled, fired, Due(timers, now))
    ensures PassOk(Due(timers, now), now, |scheduled|, fired, Due(timers, now))
    ensures forall t <- Later(timers, now) :: t.fire > now
  {
    PassIsExact(timers, now);
    assert multiset(timers) == multiset(Due(timers, now) + Later(timers, now));
  }

  lemma Schedule(timers: seq<Timer>, scheduled: seq<Timer>, fired: seq<Timer>, due: seq<Timer>, t: Timer)
    requires TimersOk(timers, scheduled, fired, due) && t.number == |scheduled|
    ensures TimersOk(Insert(timers, t), scheduled + [t], fired, due)
  {
    InsertKeepsOrder(timers, t);
    InsertMultiset(timers, t);
  }

  lemma PassFires(pass: seq<Timer>, at: int, issued: nat, fired: seq<Timer>, due: seq<Timer>)
    requires PassOk(pass, at, issued, fired, due) && due != []
    ensures PassOk(pass, at, issued, fired + [due[0]], due[1..])
  {
    var k := |pass| - |due|;
    var fired' := fired + [due[0]];
    assert fired'[|fired'| - (k + 1)..] == fired[|fired| - k..] + [due[0]];
  }

  /** What the timers' part of the state is made of. */
  ghost predicate SameTimers(s: Context, s': Context) {
    && s'.timers == s.timers && s'.scheduled == s.scheduled && s'.fired == s.fired && DueLeft(s'.pc) == DueLeft(s.pc)
    && s'.pass == s.pass && s'.passClock == s.passClock && s'.passIssued == s.passIssued && s'.clock >= s.clock
  }

  lemma OthersSpareTimers(s: Context, st: Step)
    requires StepOk(s, st) && !st.Sample? && !st.PostAfter? && !st.Advance?
    ensures SameTimers(s, Do(s, st))
  {
  }

  lemma TimersFrame(s: Context, s': Context)
    requires TimersKept(s) && PassKept(s) && SameTimers(s, s')
    ensures TimersKept(s') && PassKept(s')
  {
  }

  lemma AdvanceTimers(s: Context)
    requires TimersKept(s) && PassKept(s) && s.pc.Running?
    ensures TimersKept(DoAdvance(s)) && PassKept(DoAdvance(s))
  {
    var s' := DoAdvance(s);
    if DueLeft(s.pc) == [] {
      NothingToFire(s);
      TimersFrame(s, s');
    } else {
      FirstFires(s);
      FireStep(s, s', DueLeft(s.pc));
    }
  }

  lemma NothingToFire(s: Context)
    requires s.pc.Running? && DueLeft(s.pc) == []
    ensures SameTimers(s, DoAdvance(s))
  {
  }

  lemma FirstFires(s: Context)
    requires s.pc.Running? && DueLeft(s.pc) != []
    ensures var s' := DoAdvance(s);
      && s'.timers == s.timers && s'.scheduled == s.scheduled && s'.clock == s.clock && s'.pass == s.pass
      && s'.passClock == s.passClock && s'.passIssued == s.passIssued
      && s'.fired == s.fired + [DueLeft(s.pc)[0]] && DueLeft(s'.pc) == DueLeft(s.pc)[1..]
  {
  }

  lemma FireStep(s: Context, s': Context, due: seq<Timer>)
    requires TimersKept(s) && PassKept(s) && due == DueLeft(s.pc) != []
    requires s'.timers == s.timers && s'.scheduled == s.scheduled && s'.clock == s.clock && s'.pass == s.pass
    requires s'.passClock == s.passClock && s'.passIssued == s.passIssued
    requires s'.fired == s.fired + [due[0]] && DueLeft(s'.pc) == due[1..]
    ensures TimersKept(s') && PassKept(s')
  {
    FireFirst(s.timers, s.scheduled, s.fired, due);
    PassFires(s.pass, s.passClock, s.passIssued, s.fired, due);
    assert due[0] in s.pass;
  }

  lemma InsertMembers(ts: seq<Timer>, t: Timer)
    ensures forall u <- Insert(ts, t) :: u == t || u in ts
  {
    InsertMultiset(ts, t);
  }

  lemma SampleTimersStep(s: Context)
    requires TimersKept(s) && PassKept(s) && StepOk(s, Sample)
    ensures TimersKept(Do(s, Sample)) && PassKept(Do(s, Sample))
  {
    var s' := Do(s, Sample);
    assert DueLeft(s.pc) == [] && DueLeft(s'.pc) == Due(s.timers, s.clock) && s'.timers == Later(s.timers, s.clock);
    assert s'.scheduled == s.scheduled && s'.fired == s.fired && s'.clock == s.clock;
    TakeDue(s.timers, s.scheduled, s.fired, s.clock);
  }

  lemma PostAfterTimers(s: Context, delay: int, t: Task)
    requires TimersKept(s) && PassKept(s) && StepOk(s, PostAfter(delay, t))
    ensures TimersKept(Do(s, PostAfter(delay, t))) && PassKept(Do(s, PostAfter(delay, t)))
  {
    var s' := Do(s, PostAfter(delay, t));
    Schedule(s.timers, s.scheduled, s.fired, DueLeft(s.pc), s'.scheduled[|s.scheduled|]);
    InsertMembers(s.timers, s'.scheduled[|s.scheduled|]);
  }

  lemma TimersStep(s: Context, st: Step)
    requires TimersKept(s) && PassKept(s) && StepOk(s, st)
    ensures TimersKept(Do(s, st)) && PassKept(Do(s, st))
  {
    if st.Sample? {
      SampleTimersStep(s);
    } else if st.PostAfter? {
      PostAfterTimers(s, st.delay, st.task);
    } else if st.Advance? {
      AdvanceTimers(s);
    } else {
      OthersSpareTimers(s, st);
      TimersFrame(s, Do(s, st));
    }
  }

  lemma TimeoutStep(s: Context, st: Step)
    requires TimeoutKept(s) && StepOk(s, st)
    ensures TimeoutKept(Do(s, st))
  {
    match st
    case WaitReturns(_) =>
    case Compute =>
    case Tick(_) =>
    case _ =>
      var s' := Do(s, st);
      assert !s'.pc.Waiting? || (s'.pc == s.pc && s'.timers == s.timers && s'.clock == s.clock);
      assert !s'.pc.SampleTimers? || (s'.pc == s.pc && s'.timers == s.timers && s'.clock == s.clock);
  }

  lemma RegistryStep(s: Context, st: Step)
    requires RegistryKept(s) && StepOk(s, st)
    ensures RegistryKept(Do(s, st))
  {
  }

  ghost predicate Inv(s: Context) {
    && TasksInOrder(s) && NoneForgotten(s) && StopSeen(s)
    && TimersKept(s) && PassKept(s) && TimeoutKept(s) && RegistryKept(s)
  }

  lemma StepKeeps(s: Context, s': Context)
    requires Inv(s) && Steps()(s, s')
    ensures Inv(s')
  {
    assert Next(s, s');
    var st :| StepOk(s, st) && s' == Do(s, st);
    TasksStep(s, st);
    AnnouncedStep(s, st);
    StopStep(s, st);
    TimersStep(s, st);
    TimeoutStep(s, st);
    RegistryStep(s, st);
  }

  /** Every reachable state satisfies the invariant. */
  lemma BehaviourKeeps(tr: seq<Context>)
    requires IsBehaviour(tr)
    ensures Inv(Last(tr))
  {
    forall s, t | Inv(s) && Steps()(s, t)
      ensures Inv(t)
    {
      StepKeeps(s, t);
    }
    RunKeeps(Steps(), s => Inv(s), tr);
  }
}
