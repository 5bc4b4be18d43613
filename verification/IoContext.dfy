/**
 `IoContext` as an object with the fields and methods of the source.  A method runs here without interruption; each is
 proved to do what its steps do in the interleaved model.  The kernel's answers and the clock are parameters.
 */
module IoContextObject {
  import opened IoTimers
  import opened Reactor

  /** Everything the tasks of a batch post, in order. */
  function PostedBy(tasks: seq<Task>, posts: Task -> seq<Task>): seq<Task> {
    if tasks == [] then [] else posts(tasks[0]) + PostedBy(tasks[1..], posts)
  }

  lemma {:induction false} PostedByOneMore(tasks: seq<Task>, t: Task, posts: Task -> seq<Task>)
    ensures PostedBy(tasks + [t], posts) == PostedBy(tasks, posts) + posts(t)
  {
    if tasks == [] {
      assert tasks + [t] == [t] && [t][1..] == [];
    } else {
      assert (tasks + [t])[1..] == tasks[1..] + [t];
      PostedByOneMore(tasks[1..], t, posts);
    }
  }

  lemma {:induction false} DueIsLongestPrefix(due: seq<Timer>, rest: seq<Timer>, now: int)
    requires forall t <- due :: t.fire <= now
    requires rest == [] || rest[0].fire > now
    ensures Due(due + rest, now) == due && Later(due + rest, now) == rest
  {
    if due == [] {
      assert due + rest == rest;
    } else {
      assert (due + rest)[1..] == due[1..] + rest;
      DueIsLongestPrefix(due[1..], rest, now);
      assert DueCount(due + rest, now) == |due|;
    }
  }

  /** A call of `post_after` from a callback, with the clock it reads. */
  datatype Request = Request(monoNs: int, delay: int, task: Task)

  function TimerOf(r: Request, number: nat): (t: Timer)
    ensures t.task == r.task && t.number == number
    ensures r.delay >= 0 ==> t.fire == r.monoNs + r.delay
    ensures r.delay < 0 ==> t.fire == r.monoNs
  {
    TimerFor(r.monoNs, r.delay, number, r.task)
  }

  /** All requests of the callbacks of `due`, in order. */
  function RequestsOf(due: seq<Timer>, calls: Timer -> seq<Request>): seq<Request> {
    if due == [] then [] else RequestsOf(due[..|due| - 1], calls) + calls(due[|due| - 1])
  }

  /** `ts` with the requests scheduled one after the other, numbered from `issued`. */
  function ScheduleAll(ts: seq<Timer>, issued: nat, rs: seq<Request>): seq<Timer>
    decreases |rs|
  {
    if rs == [] then ts
    else Insert(ScheduleAll(ts, issued, rs[..|rs| - 1]), TimerOf(rs[|rs| - 1], issued + |rs| - 1))
  }

  lemma ScheduleOneMore(ts: seq<Timer>, issued: nat, rs: seq<Request>, r: Request)
    ensures ScheduleAll(ts, issued, rs + [r]) == Insert(ScheduleAll(ts, issued, rs), TimerOf(r, issued + |rs|))
  {
    assert (rs + [r])[..|rs|] == rs;
  }

  lemma RequestsOneMore(due: seq<Timer>, t: Timer, calls: Timer -> seq<Request>)
    ensures RequestsOf(due + [t], calls) == RequestsOf(due, calls) + calls(t)
  {
    assert (due + [t])[..|due|] == due;
  }

  lemma {:induction false} ScheduleBoth(ts: seq<Timer>, issued: nat, a: seq<Request>, b: seq<Request>)
    ensures ScheduleAll(ScheduleAll(ts, issued, a), issued + |a|, b) == ScheduleAll(ts, issued, a + b)
    decreases |b|
  {
    if b == [] {
      assert a + b == a;
    } else {
      var front, last := b[..|b| - 1], b[|b| - 1];
      ScheduleBoth(ts, issued, a, front);
      assert a + b == (a + front) + [last];
      ScheduleOneMore(ts, issued, a + front, last);
    }
  }

  class IoContext {
    var queue: seq<Task>
    var wakefd: nat
    var stopFlag: bool
    var handlers: map<Fd, Handler>
    var watched: set<Fd>
    var timers: seq<Timer>
    var issued: nat

    /** The object is in the state `s` of the model. */
    ghost predicate Shows(s: Context)
      reads this
    {
      && queue == s.queue && wakefd == s.counter && stopFlag == s.stop
      && handlers == s.handlers && watched == s.interest
      && timers == s.timers && issued == |s.scheduled|
    }

    constructor (ghost clock: int)
      ensures Shows(Start(clock))
    {
      queue, wakefd, stopFlag, handlers, watched, timers, issued := [], 0, false, map[], {}, [], 0;
    }

    /** `kernelAccepts` is the kernel's answer apart from its refusal of a descriptor it already watches. */
    method AddFd(fd: Fd, handler: Handler, kernelAccepts: bool, ghost s: Context) returns (ok: bool)
      requires Shows(s) && StepOk(s, Step.AddFd(fd, handler, kernelAccepts))
      modifies this
      ensures Shows(Do(s, Step.AddFd(fd, handler, kernelAccepts)))
      ensures ok <==> fd !in old(watched) && kernelAccepts
    {
      if fd in watched || !kernelAccepts { return false; }
      watched := watched + {fd};
      handlers := handlers[fd := handler];
      return true;
    }

    method DelFd(fd: Fd, ghost s: Context)
      requires Shows(s) && StepOk(s, Step.DelFd(fd))
      modifies this
      ensures Shows(Do(s, Step.DelFd(fd)))
    {
      watched := watched - {fd};
      handlers := handlers - {fd};
    }

    method PostAfter(delay: int, task: Task, monoNs: int, ghost s: Context)
      requires Shows(s) && s.clock == monoNs && StepOk(s, Step.PostAfter(delay, task))
      modifies this
      ensures Shows(Do(s, Step.PostAfter(delay, task)))
      ensures var t := Timer(if delay >= 0 then monoNs + delay else monoNs, old(issued), task);
        multiset(timers) == multiset(old(timers)) + multiset{t}
    {
      timers := Insert(timers, Timer(monoNs + (if delay < 0 then 0 else delay), issued, task));
      InsertMultiset(old(timers), TimerFor(monoNs, delay, old(issued), task));
      issued := issued + 1;
    }

    method Post(task: Task, ghost s: Context, ghost a: Agent)
      requires Shows(s) && MayCall(s, a)
      modifies this
      ensures Shows(Do(Do(s, Push(a, task)), WriteWake(a)))
    {
      queue := queue + [task];
      Wake();
    }

    method Stop(ghost s: Context, ghost a: Agent)
      requires Shows(s) && MayCall(s, a)
      modifies this
      ensures Shows(Do(Do(s, StoreStop(a)), WriteWake(a)))
    {
      stopFlag := true;
      Wake();
    }

    /** The write fails, harmlessly, on a full counter. */
    method Wake()
      modifies this`wakefd
      ensures wakefd == if old(wakefd) >= 0xFFFF_FFFF_FFFF_FFFE then old(wakefd) else old(wakefd) + 1
    {
      if wakefd < COUNTER_MAX { wakefd := wakefd + 1; }
    }

    method Read() returns (v: nat)
      modifies this`wakefd
      ensures v == old(wakefd) && wakefd == 0
    {
      v := wakefd;
      wakefd := 0;
    }

    method DrainWake(ghost s: Context)
      requires Shows(s) && s.pc.Draining?
      modifies this`wakefd
      ensures var s1 := if s.counter > 0 then Do(s, ReadWake) else s;
        StepOk(s1, ReadWake) && Do(s1, ReadWake).pc == Swapping(s.pc.evs) && Shows(Do(s1, ReadWake))
    {
      var v := Read();
      while v > 0
        invariant wakefd == 0
        decreases v
      {
        v := Read();
      }
    }

    /** Runs the tasks queued on entry, in order; whatever they post is left for a later pass, in order, and with
        the wake descriptor readable. */
    method RunPosted(posts: Task -> seq<Task>) returns (ran: seq<Task>)
      modifies this`queue, this`wakefd
      ensures ran == old(queue)
      ensures queue == PostedBy(old(queue), posts)
      ensures old(wakefd) > 0 || queue != [] ==> wakefd > 0
    {
      var batch := queue;
      queue := [];
      ran := [];
      while |ran| < |batch|
        invariant |ran| <= |batch| && ran == batch[..|ran|]
        invariant queue == PostedBy(ran, posts)
        invariant old(wakefd) > 0 || queue != [] ==> wakefd > 0
      {
        var t := batch[|ran|];
        var todo := posts(t);
        ghost var before := queue;
        for i := 0 to |todo|
          invariant queue == before + todo[..i]
          invariant old(wakefd) > 0 || queue != [] ==> wakefd > 0
        {
          queue := queue + [todo[i]];
          Wake();
        }
        PostedByOneMore(ran, t, posts);
        assert batch[..|ran| + 1] == ran + [t];
        ran := ran + [t];
      }
    }

    method NextTimeout(monoNs: int) returns (ms: int)
      ensures ms == NextTimeoutMs(timers, monoNs)
    {
      if timers == [] { return -1; }
      var due := timers[0].fire;
      if due <= monoNs { return 0; }
      ms := (due - monoNs + 999_999) / 1_000_000;
      if ms > 1_000_000_000 { ms := 1_000_000_000; }
    }

    /** The collecting loop of `fire_due_timers`: it leaves the timers as the step `Sample` of the model does. */
    method TakeDue(monoNs: int) returns (due: seq<Timer>)
      modifies this`timers
      ensures due == Due(old(timers), monoNs) && timers == Later(old(timers), monoNs)
    {
      due := [];
      while timers != [] && timers[0].fire <= monoNs
        invariant due + timers == old(timers)
        invariant forall t <- due :: t.fire <= monoNs
        decreases |timers|
      {
        due := due + [timers[0]];
        timers := timers[1..];
      }
      DueIsLongestPrefix(due, timers, monoNs);
    }

    /** `fire_due_timers`, with callbacks that schedule more timers: the pass fires what was due on entry, in order, and
        nothing that its callbacks schedule, be it due already; those timers join the ones that were not due. */
    method FireDueTimers(monoNs: int, calls: Timer -> seq<Request>) returns (fired: seq<Timer>)
      modifies this`timers, this`issued
      ensures fired == Due(old(timers), monoNs)
      ensures var rs := RequestsOf(fired, calls);
        timers == ScheduleAll(Later(old(timers), monoNs), old(issued), rs) && issued == old(issued) + |rs|
    {
      var due := TakeDue(monoNs);
      ghost var later, first := timers, issued;
      fired := [];
      while |fired| < |due|
        invariant |fired| <= |due| && fired == due[..|fired|]
        invariant timers == ScheduleAll(later, first, RequestsOf(fired, calls))
        invariant issued == first + |RequestsOf(fired, calls)|
      {
        var t := due[|fired|];
        var todo := calls(t);
        ScheduleBoth(later, first, RequestsOf(fired, calls), todo);
        RequestsOneMore(fired, t, calls);
        Schedule(todo);
        assert due[..|fired| + 1] == fired + [t];
        fired := fired + [t];
      }
    }

    /** What a callback does to the timers. */
    method Schedule(todo: seq<Request>)
      modifies this`timers, this`issued
      ensures timers == ScheduleAll(old(timers), old(issued), todo) && issued == old(issued) + |todo|
    {
      for i := 0 to |todo|
        invariant timers == ScheduleAll(old(timers), old(issued), todo[..i]) && issued == old(issued) + i
      {
        timers := Insert(timers, TimerOf(todo[i], issued));
        issued := issued + 1;
        assert todo[..i + 1] == todo[..i] + [todo[i]];
        ScheduleOneMore(old(timers), old(issued), todo[..i], todo[i]);
      }
      assert todo[..|todo|] == todo;
    }
  }
}
