/** The timer multimap of `IoContext`: a sequence ordered by fire time, equal times in the order of insertion. */
module IoTimers {

  type Task = nat

  /** `number` counts the calls of `post_after`. */
  datatype Timer = Timer(fire: int, number: nat, task: Task)

  const NS_PER_MS := 1_000_000
  const TIMEOUT_CAP := 1_000_000_000

  predicate Before(a: Timer, b: Timer) {
    a.fire < b.fire || (a.fire == b.fire && a.number < b.number)
  }

  ghost predicate Ordered(ts: seq<Timer>) {
    forall i, j :: 0 <= i < j < |ts| ==> Before(ts[i], ts[j])
  }

  /** The timer that `post_after(delay, task)` adds when the clock shows `now`. */
  function TimerFor(now: int, delay: int, number: nat, task: Task): (t: Timer)
    ensures t.task == task && t.number == number
    ensures delay >= 0 ==> t.fire == now + delay
    ensures delay < 0 ==> t.fire == now
  {
    Timer(now + (if delay < 0 then 0 else delay), number, task)
  }

  /** `multimap::emplace`: behind every element with the same key. */
  function Insert(ts: seq<Timer>, t: Timer): seq<Timer> {
    if ts == [] || t.fire < ts[0].fire then [t] + ts else [ts[0]] + Insert(ts[1..], t)
  }

  function DueCount(ts: seq<Timer>, now: int): (k: nat)
    ensures k <= |ts|
    ensures forall i :: 0 <= i < k ==> ts[i].fire <= now
    ensures k < |ts| ==> ts[k].fire > now
  {
    if ts == [] || ts[0].fire > now then 0 else 1 + DueCount(ts[1..], now)
  }

  /** The timers one pass takes, and those it leaves. */
  function Due(ts: seq<Timer>, now: int): seq<Timer> { ts[..DueCount(ts, now)] }

  function Later(ts: seq<Timer>, now: int): seq<Timer> { ts[DueCount(ts, now)..] }

  /** The timeout for `epoll_wait`, in milliseconds.  It fits in an `int`; slept in full it reaches the earliest timer
      and overshoots by less than a millisecond, unless that timer is more than 10^9 ms away. */
  function NextTimeoutMs(ts: seq<Timer>, now: int): (ms: int)
    ensures -1 <= ms <= TIMEOUT_CAP < 0x8000_0000
    ensures ms == -1 <==> ts == []
    ensures ts != [] ==> (ms == 0 <==> ts[0].fire <= now)
    ensures ts != [] && ts[0].fire - now > TIMEOUT_CAP * NS_PER_MS ==> ms == TIMEOUT_CAP
    ensures ts != [] && 0 < ts[0].fire - now <= TIMEOUT_CAP * NS_PER_MS ==>
      ts[0].fire <= now + ms * NS_PER_MS < ts[0].fire + NS_PER_MS
  {
    if ts == [] then -1
    else if ts[0].fire <= now then 0
    else
      var ms := (ts[0].fire - now + 999_999) / NS_PER_MS;
      if ms > TIMEOUT_CAP then TIMEOUT_CAP else ms
  }

  lemma {:induction false} InsertMultiset(ts: seq<Timer>, t: Timer)
    ensures multiset(Insert(ts, t)) == multiset(ts) + multiset{t}
    ensures forall u :: u in Insert(ts, t) <==> u == t || u in ts
  {
    if ts == [] || t.fire < ts[0].fire {
    } else {
      InsertMultiset(ts[1..], t);
      assert ts == [ts[0]] + ts[1..];
    }
  }

  /** A new timer lands behind all timers due at the same time or earlier and before all later ones. */
  lemma {:induction false} InsertKeepsOrder(ts: seq<Timer>, t: Timer)
    requires Ordered(ts) && forall u <- ts :: u.number < t.number
    ensures Ordered(Insert(ts, t))
  {
    if ts == [] || t.fire < ts[0].fire {
    } else {
      var rest := ts[1..];
      assert Ordered(rest) && forall u <- rest :: u.number < t.number;
      InsertKeepsOrder(rest, t);
      InsertMultiset(rest, t);
      var tail := Insert(rest, t);
      forall j | 0 <= j < |tail|
        ensures Before(ts[0], tail[j])
      {
        assert tail[j] in tail;
        if tail[j] != t {
          var k :| 0 <= k < |rest| && rest[k] == tail[j];
          assert Before(ts[0], ts[k + 1]);
        }
      }
    }
  }

  /** Behind the first timer that is not due, none is. */
  lemma LaterAreLater(ts: seq<Timer>, now: int, j: nat)
    requires Ordered(ts) && DueCount(ts, now) <= j < |ts|
    ensures ts[j].fire > now
  {
    var k := DueCount(ts, now);
    assert k < j ==> Before(ts[k], ts[j]);
  }

  lemma CutMembers(ts: seq<Timer>, k: nat, now: int)
    requires k <= |ts|
    requires forall i :: 0 <= i < k ==> ts[i].fire <= now
    requires forall i :: k <= i < |ts| ==> ts[i].fire > now
    ensures forall t <- ts[..k] :: t in ts && t.fire <= now
    ensures forall t <- ts[k..] :: t in ts && t.fire > now
    ensures forall t <- ts :: t.fire <= now ==> t in ts[..k]
  {
    forall t | t in ts && t.fire <= now
      ensures t in ts[..k]
    {
      var i :| 0 <= i < |ts| && ts[i] == t;
      assert ts[..k][i] == t;
    }
  }

  lemma CutOrdered(ts: seq<Timer>, k: nat)
    requires k <= |ts| && Ordered(ts)
    ensures Ordered(ts[..k]) && Ordered(ts[k..])
  {
  }

  /** A pass takes exactly the timers whose time has come. */
  lemma PassIsExact(ts: seq<Timer>, now: int)
    requires Ordered(ts)
    ensures forall t <- ts :: t in Due(ts, now) <==> t.fire <= now
    ensures forall t <- Due(ts, now) :: t in ts && t.fire <= now
    ensures forall t <- Later(ts, now) :: t in ts && t.fire > now
    ensures Due(ts, now) + Later(ts, now) == ts
    ensures Ordered(Due(ts, now)) && Ordered(Later(ts, now))
  {
    var k := DueCount(ts, now);
    forall j | k <= j < |ts|
      ensures ts[j].fire > now
    {
      LaterAreLater(ts, now, j);
    }
    CutMembers(ts, k, now);
    CutOrdered(ts, k);
  }
}
