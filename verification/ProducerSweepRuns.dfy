/** Theorems about every run of the producer sweep. */
module ProducerSweepRuns {
  import opened Arithmetic
  import opened Basics
  import opened MessageIds
  import opened MpscQueue
  import opened ProducerSweep
  import opened Traces

  lemma NextKeeps(c: Config, s: Sweep, list: seq<Node>, s': Sweep) returns (list': seq<Node>)
    requires Sensible(c) && SweepInv(c, s, list) && Steps(c)(s, s')
    ensures SweepInv(c, s', list')
  {
    assert Next(c, s, s');
    var st :| StepOk(c, s, st) && s' == Do(c, s, st);
    SweepStepKeeps(c, s, list, st);
    list' := ListNext(c, s, list, st);
  }

  ghost function Kept(c: Config): Sweep -> bool {
    s => exists list :: SweepInv(c, s, list)
  }

  /** The invariant holds in every reachable state. */
  lemma BehaviourKeepsAll(c: Config, tr: seq<Sweep>) returns (list: seq<Node>)
    requires Sensible(c) && IsBehaviour(c, tr)
    ensures SweepInv(c, Last(tr), list)
  {
    StartInv(c);
    forall s, t | Kept(c)(s) && Steps(c)(s, t)
      ensures Kept(c)(t)
    {
      var list :| SweepInv(c, s, list);
      var list' := NextKeeps(c, s, list, t);
    }
    RunKeeps(Steps(c), Kept(c), tr);
    list :| SweepInv(c, Last(tr), list);
  }

  lemma BehaviourKeeps(c: Config, tr: seq<Sweep>)
    requires Sensible(c) && IsBehaviour(c, tr)
    ensures ClientInv(c, Last(tr))
  {
    var list := BehaviourKeepsAll(c, tr);
  }

  /** The sequence numbers in the ids received from producer `p`, in the order of receipt. */
  function ReceivedFrom(ids: seq<nat>, p: nat): seq<nat> {
    if ids == [] then []
    else (if Sender(ids[0]) == p then [SeqNo(ids[0])] else []) + ReceivedFrom(ids[1..], p)
  }

  lemma {:induction false} ReceivedIsStream(ids: seq<nat>, ms: seq<Msg>, p: nat)
    requires |ids| == |ms|
    requires forall k :: 0 <= k < |ids| ==>
      ids[k] == PackId(ms[k].from, ms[k].seqno) && ms[k].from < TWO_24 && ms[k].seqno < TWO_40
    ensures ReceivedFrom(ids, p) == Stream(ms, p)
  {
    if ids != [] {
      RoundTrip(ms[0].from, ms[0].seqno);
      ReceivedIsStream(ids[1..], ms[1..], p);
    }
  }

  lemma DeliveredStream(c: Config, s: Sweep, p: nat)
    requires Sensible(c) && ClientInv(c, s) && p < c.P
    ensures ReceivedFrom(s.received, p) == UpTo(s.nextSeq[p]) && s.nextSeq[p] <= s.sent[p]
  {
    var got := s.published[..|s.q.returned|];
    ReceivedIsStream(s.received, got, p);
    StreamPrefix(s.published, |s.q.returned|, p);
  }

  // ------------------------------------------------------------------------------------------------
  // Counting
  // ------------------------------------------------------------------------------------------------

  function Lengths(ms: seq<Msg>, P: nat): seq<nat> { seq(P, p requires 0 <= p => |Stream(ms, p)|) }

  lemma {:induction false} LengthsAddUp(ms: seq<Msg>, P: nat)
    requires forall m <- ms :: m.from < P
    ensures Sum(Lengths(ms, P)) == |ms|
  {
    if ms == [] {
      SumAtMost(Lengths(ms, P), 0);
    } else {
      LengthsAddUp(ms[1..], P);
      var rest := Lengths(ms[1..], P);
      assert Lengths(ms, P) == rest[ms[0].from := rest[ms[0].from] + 1];
      SumOfUpdate(rest, ms[0].from, rest[ms[0].from] + 1);
    }
  }

  lemma Totals(c: Config, s: Sweep)
    requires ClientInv(c, s)
    ensures Sum(s.nextSeq) == |s.q.returned|
    ensures |s.q.exchanged| <= Sum(s.sent) <= Expected(c)
    ensures (forall p: nat :: InHand(s.q, p) == 0) ==> |s.q.exchanged| == Sum(s.sent)
  {
    var got := s.published[..|s.q.returned|];
    assert Lengths(got, c.P) == s.nextSeq;
    assert forall m <- s.published :: m.from < c.P;
    LengthsAddUp(got, c.P);
    LengthsAddUp(s.published, c.P);
    SumMonotone(Lengths(s.published, c.P), s.sent);
    SumAtMost(s.sent, c.per);
    if forall p: nat :: InHand(s.q, p) == 0 {
      assert Lengths(s.published, c.P) == s.sent;
    }
  }

  // ------------------------------------------------------------------------------------------------
  // The check itself
  // ------------------------------------------------------------------------------------------------

  /** The consumer's flag and counters after a sequence of ids. */
  function CheckAll(P: nat, ids: seq<nat>): Verdict {
    if ids == [] then Verdict(true, Zeros(P)) else CheckOne(P, CheckAll(P, ids[..|ids| - 1]), ids[|ids| - 1])
  }

  lemma {:induction false} ReceivedOneMore(ids: seq<nat>, id: nat, p: nat)
    ensures ReceivedFrom(ids + [id], p) == ReceivedFrom(ids, p) + if Sender(id) == p then [SeqNo(id)] else []
  {
    if ids == [] {
      assert [] + [id] == [id] && [id][1..] == [];
    } else {
      assert (ids + [id])[0] == ids[0] && (ids + [id])[1..] == ids[1..] + [id];
      ReceivedOneMore(ids[1..], id, p);
      Associate(if Sender(ids[0]) == p then [SeqNo(ids[0])] else [], ReceivedFrom(ids[1..], p),
                if Sender(id) == p then [SeqNo(id)] else []);
    }
  }

  ghost predicate InOrder(ids: seq<nat>, p: nat) { ReceivedFrom(ids, p) == UpTo(|ReceivedFrom(ids, p)|) }

  lemma OrderOneMore(ids: seq<nat>, id: nat, p: nat)
    ensures InOrder(ids + [id], p) <==>
      InOrder(ids, p) && (Sender(id) == p ==> SeqNo(id) == |ReceivedFrom(ids, p)|)
    ensures |ReceivedFrom(ids + [id], p)| == |ReceivedFrom(ids, p)| + (if Sender(id) == p then 1 else 0)
  {
    ReceivedOneMore(ids, id, p);
    var was, now := ReceivedFrom(ids, p), ReceivedFrom(ids + [id], p);
    if Sender(id) == p {
      assert UpTo(|was| + 1) == UpTo(|was|) + [|was|];
      assert now[..|was|] == was && UpTo(|now|)[..|was|] == UpTo(|was|);
    } else {
      assert now == was;
    }
  }

  /** The check accepts a sequence of ids if and only if every sender is known and each sender's numbers are 0, 1, 2, ... */
  lemma {:induction false} CheckIsExact(P: nat, ids: seq<nat>)
    ensures var v := CheckAll(P, ids);
      && |v.nextSeq| == P && (forall p :: 0 <= p < P ==> v.nextSeq[p] == |ReceivedFrom(ids, p)|)
      && (v.ok <==> (forall id <- ids :: Sender(id) < P) && forall p :: 0 <= p < P ==> InOrder(ids, p))
    decreases |ids|
  {
    if ids != [] {
      var front, id := ids[..|ids| - 1], ids[|ids| - 1];
      assert ids == front + [id];
      CheckIsExact(P, front);
      forall p | 0 <= p < P
        ensures InOrder(ids, p) <==> InOrder(front, p) && (Sender(id) == p ==> SeqNo(id) == |ReceivedFrom(front, p)|)
        ensures |ReceivedFrom(ids, p)| == |ReceivedFrom(front, p)| + (if Sender(id) == p then 1 else 0)
      {
        OrderOneMore(front, id, p);
      }
      assert forall i <- ids :: i in front || i == id;
    }
  }

  ghost predicate VerdictKept(c: Config, s: Sweep) {
    Verdict(s.fifoOk, s.nextSeq) == CheckAll(c.P, s.received)
  }

  lemma VerdictStep(c: Config, s: Sweep, st: Step)
    requires VerdictKept(c, s) && StepOk(c, s, st)
    ensures VerdictKept(c, Do(c, s, st))
  {
    var s' := Do(c, s, st);
    if s'.received != s.received {
      assert s'.received[..|s'.received| - 1] == s.received;
    }
  }

  /** At every instant of every run the flag is up if and only if what has been received is in order for each producer. */
  lemma FlagMeansOrder(c: Config, tr: seq<Sweep>)
    requires IsBehaviour(c, tr)
    ensures var s := Last(tr);
      s.fifoOk <==> (forall id <- s.received :: Sender(id) < c.P) && forall p :: 0 <= p < c.P ==> InOrder(s.received, p)
  {
    forall s, t | VerdictKept(c, s) && Steps(c)(s, t)
      ensures VerdictKept(c, t)
    {
      var st :| StepOk(c, s, st) && t == Do(c, s, st);
      VerdictStep(c, s, st);
    }
    RunKeeps(Steps(c), s => VerdictKept(c, s), tr);
    CheckIsExact(c.P, Last(tr).received);
  }

  // ------------------------------------------------------------------------------------------------
  // Chains
  // ------------------------------------------------------------------------------------------------

  /** Producer `p` has published `m` chains of `K` messages, the last one perhaps shorter because its share ended. */
  ghost predicate FullChains(c: Config, m: nat, sent: nat) {
    && c.mode.Batch? && sent <= c.per && sent <= c.mode.K * m
    && (sent < c.per ==> sent == c.mode.K * m)
    && (m > 0 ==> c.mode.K * (m - 1) < sent)
  }

  ghost predicate ChainsKept(c: Config, s: Sweep) {
    |s.chains| == c.P && |s.sent| == c.P && forall p :: 0 <= p < c.P ==> FullChains(c, s.chains[p], s.sent[p])
  }

  lemma OneMoreChain(c: Config, m: nat, sent: nat, k: nat)
    requires FullChains(c, m, sent) && c.mode.K >= 1 && sent < c.per
    requires k == if c.mode.K < c.per - sent then c.mode.K else c.per - sent
    ensures FullChains(c, m + 1, sent + k)
  {
    assert c.mode.K * (m + 1) == c.mode.K * m + c.mode.K;
  }

  lemma ChainsStep(c: Config, s: Sweep, st: Step)
    requires c.mode.Batch? && c.mode.K >= 1 && ChainsKept(c, s) && StepOk(c, s, st)
    ensures ChainsKept(c, Do(c, s, st))
  {
    if st.Send? { OneMoreChain(c, s.chains[st.p], s.sent[st.p], |st.chain|); }
  }

  /** In batch mode a producer that has sent its share has done so with exactly as many exchanges as chains of `K` fit
      it, rounded up. */
  lemma FewestExchanges(c: Config, tr: seq<Sweep>, p: nat)
    requires Sensible(c) && c.mode.Batch? && IsBehaviour(c, tr) && p < c.P
    ensures p < |Last(tr).chains| && p < |Last(tr).sent|
    ensures var m := Last(tr).chains[p];
      Last(tr).sent[p] == c.per ==> c.per <= c.mode.K * m && (m > 0 ==> c.mode.K * (m - 1) < c.per)
  {
    forall s, t | ChainsKept(c, s) && Steps(c)(s, t)
      ensures ChainsKept(c, t)
    {
      var st :| StepOk(c, s, st) && t == Do(c, s, st);
      ChainsStep(c, s, st);
    }
    RunKeeps(Steps(c), s => ChainsKept(c, s), tr);
  }

  // ------------------------------------------------------------------------------------------------
  // Every run
  // ------------------------------------------------------------------------------------------------

  /** In every run and at every instant the check has never failed, and the ids received from each producer
      are 0, 1, 2, ... in this order. */
  lemma FifoNeverFails(c: Config, tr: seq<Sweep>)
    requires Sensible(c) && IsBehaviour(c, tr)
    ensures var s := Last(tr);
      && s.fifoOk && s.n <= Expected(c) && |s.received| == |s.q.returned|
      && forall p :: 0 <= p < c.P ==> ReceivedFrom(s.received, p) == UpTo(|ReceivedFrom(s.received, p)|)
  {
    BehaviourKeeps(c, tr);
    var s := Last(tr);
    forall p | 0 <= p < c.P
      ensures ReceivedFrom(s.received, p) == UpTo(|ReceivedFrom(s.received, p)|)
    {
      DeliveredStream(c, s, p);
    }
    Totals(c, s);
  }

  /** A finished run has received every message of every producer exactly once, in order. */
  lemma FinishedIsComplete(c: Config, tr: seq<Sweep>)
    requires Sensible(c) && IsBehaviour(c, tr) && Last(tr).n == Expected(c)
    ensures |Last(tr).received| == Expected(c)
    ensures forall p :: 0 <= p < c.P ==> ReceivedFrom(Last(tr).received, p) == UpTo(c.per)
  {
    var s := Last(tr);
    BehaviourKeeps(c, tr);
    Totals(c, s);
    forall p | 0 <= p < c.P
      ensures ReceivedFrom(s.received, p) == UpTo(s.nextSeq[p]) && s.nextSeq[p] <= c.per
    {
      DeliveredStream(c, s, p);
    }
    SumAtMost(s.nextSeq, c.per);
  }

  /** What a producer's receiver sees does not depend on the mode or on the batch size. */
  lemma ModeDoesNotShow(c: Config, d: Config, tr: seq<Sweep>, ur: seq<Sweep>)
    requires c.P == d.P && c.per == d.per && Sensible(c) && Sensible(d)
    requires IsBehaviour(c, tr) && Last(tr).n == Expected(c)
    requires IsBehaviour(d, ur) && Last(ur).n == Expected(d)
    ensures forall p :: 0 <= p < c.P ==> ReceivedFrom(Last(tr).received, p) == ReceivedFrom(Last(ur).received, p)
  {
    FinishedIsComplete(c, tr);
    FinishedIsComplete(d, ur);
  }

  function SentBy(s: Sweep, p: nat): nat {
    if p < |s.sent| then s.sent[p] else 0
  }

  /** No producer ever has more than `window` messages sent and not delivered. */
  lemma WindowNeverExceeded(c: Config, tr: seq<Sweep>, p: nat)
    requires Sensible(c) && c.mode.Pool? && IsBehaviour(c, tr) && p < c.P
    ensures SentBy(Last(tr), p) <= |ReceivedFrom(Last(tr).received, p)| + c.mode.window
  {
    BehaviourKeeps(c, tr);
    DeliveredStream(c, Last(tr), p);
    assert WindowKeptBy(c, Last(tr), p);
  }

  lemma FullWindowHasArrears(c: Config, s: Sweep, p: nat)
    requires Sensible(c) && Sizes(c, s) && Counted(c, s) && WindowKept(c, s)
    requires c.mode.Pool? && c.mode.every <= c.mode.window && p < c.P && s.nextSeq[p] <= s.sent[p]
    requires WindowFull(c, s, p) && s.reclaimed[p] <= s.sent[p] <= TWO_40
    ensures s.nextSeq[p] < s.sent[p] || (!s.pc.Looping? && s.pc.from == p)
  {
    assert WindowKeptBy(c, s, p);
    WindowGuard(c, s, p);
    LastMultipleNear(Settled(s, p), c.mode.every);
  }

  /** With a window at least as large as the publishing stride, a producer that spins has an undelivered message,
      or the consumer is just about to publish that producer's progress. */
  lemma BlockedMeansUndelivered(c: Config, tr: seq<Sweep>, p: nat)
    requires Sensible(c) && c.mode.Pool? && c.mode.every <= c.mode.window && IsBehaviour(c, tr) && p < c.P
    requires WindowFull(c, Last(tr), p)
    ensures |ReceivedFrom(Last(tr).received, p)| < SentBy(Last(tr), p)
      || (!Last(tr).pc.Looping? && Last(tr).pc.from == p)
  {
    BehaviourKeeps(c, tr);
    DeliveredStream(c, Last(tr), p);
    ReclaimedBehind(c, Last(tr), p);
    FullWindowHasArrears(c, Last(tr), p);
  }
}
