/**
 The producer sweep: `P` producers send `per` messages each through the queue to one checking consumer, in chains
 of up to `K` (mode `Batch`; `Batch(1)` is the plain enqueue) or one at a time from recycled cells under an
 in-flight window (mode `Pool`).  Threads interleave at the grain of the queue's atomic accesses; the load of
 `reclaimed[p]`, the return of a cell to the pool and the store to `reclaimed[p]` are steps of their own.
 */
module ProducerSweep {
  import opened Arithmetic
  import opened Basics
  import opened MessageIds
  import opened MpscQueue
  import MpscQueueRuns
  import opened Traces

  datatype Mode = Batch(K: nat) | Pool(window: nat, every: nat)

  datatype Config = Config(P: nat, per: nat, mode: Mode)

  datatype Msg = Msg(from: nat, seqno: nat)

  /** The consumer between two shared accesses outside `pop`: it holds a cell it has not given back, or is about
      to publish its progress. */
  datatype Pc = Looping | Holding(node: Node, from: nat) | Publishing(from: nat)

  /** `sent[p]` is producer `p`'s index `i`.  Three histories: `published`, the messages in the order of the exchanges,
      `received`, the ids the consumer has read, and `chains`, how many chains each producer has begun to publish. */
  datatype Sweep = Sweep(
    q: Queue,
    ids: map<Node, nat>,
    sent: seq<nat>,
    reclaimed: seq<nat>,
    pc: Pc,
    nextSeq: seq<nat>,
    n: nat,
    fifoOk: bool,
    published: seq<Msg>,
    received: seq<nat>,
    chains: seq<nat>)

  datatype Step =
    | Send(p: nat, chain: seq<Node>)
    | Move(l: Label)
    | Receive
    | Reclaim
    | Publish

  /** What the callers of `run` provide. */
  ghost predicate Sensible(c: Config) {
    && c.P <= TWO_24 && c.per <= TWO_40
    && (c.mode.Batch? ==> c.mode.K >= 1)
    && (c.mode.Pool? ==> c.mode.every >= 1)
  }

  function Expected(c: Config): nat { c.P * c.per }

  function Zeros(k: nat): seq<nat> { seq(k, i => 0) }

  function Start(c: Config): Sweep {
    Sweep(Initial, map[], Zeros(c.P), Zeros(c.P), Looping, Zeros(c.P), 0, true, [], [], Zeros(c.P))
  }

  /** `arrays[p][i..i + k]` */
  function Chunk(p: nat, i: nat, k: nat): seq<Node> { seq(k, j requires 0 <= j => Desc(p, i + j)) }

  function Stamp(ids: map<Node, nat>, chain: seq<Node>, p: nat, base: nat): map<Node, nat>
    decreases |chain|
  {
    if chain == [] then ids else Stamp(ids[chain[0] := PackId(p, base)], chain[1..], p, base + 1)
  }

  function Messages(p: nat, base: nat, k: nat): seq<Msg> { seq(k, j requires 0 <= j => Msg(p, base + j)) }

  /** The unsigned comparison `i - reclaimed[p] >= kWindow` of the spinning producer. */
  predicate WindowFull(c: Config, s: Sweep, p: nat) {
    c.mode.Pool? && p < |s.sent| && p < |s.reclaimed| && (s.sent[p] - s.reclaimed[p]) % TWO_64 >= c.mode.window
  }

  predicate MaySend(c: Config, s: Sweep, p: nat) {
    p < c.P && p < |s.sent| && p < |s.reclaimed| && Producer(p) !in s.q.push && s.sent[p] < c.per && !WindowFull(c, s, p)
  }

  /** Batch chains are consecutive array slots; a pool hands out any cell that nobody uses. */
  predicate ChainFor(c: Config, s: Sweep, p: nat, chain: seq<Node>)
    requires MaySend(c, s, p)
  {
    match c.mode
    case Batch(K) => chain == Chunk(p, s.sent[p], if K < c.per - s.sent[p] then K else c.per - s.sent[p])
    case Pool(_, _) => |chain| == 1 && Free(s.q, chain[0]) && !(s.pc.Holding? && s.pc.node == chain[0])
  }

  ghost predicate StepOk(c: Config, s: Sweep, st: Step) {
    match st
    case Send(p, chain) => MaySend(c, s, p) && ChainFor(c, s, p, chain)
    case Move(l) => (l.Store? || l.Exchange? || l.Link?) && Enabled(s.q, l)
    case Receive => s.pc.Looping? && s.n < Expected(c) && Enabled(s.q, PopNext)
    case Reclaim => s.pc.Holding?
    case Publish => s.pc.Publishing?
  }

  function Do(c: Config, s: Sweep, st: Step): Sweep
    requires StepOk(c, s, st)
  {
    match st
    case Send(p, chain) =>
      s.(q := s.q.(push := s.q.push[Producer(p) := Filling(chain, 0)]),
         ids := Stamp(s.ids, chain, p, s.sent[p]),
         sent := s.sent[p := s.sent[p] + |chain|],
         chains := if p < |s.chains| then s.chains[p := s.chains[p] + 1] else s.chains)
    case Move(l) => s.(q := Apply(s.q, l), published := s.published + NewlyPublished(s, l))
    case Receive =>
      var (q', out) := PopStep(s.q);
      if out.Got? then Check(c, s.(q := q'), out.node) else s.(q := q')
    case Reclaim => s.(pc := Publishing(s.pc.from))
    case Publish =>
      var p := s.pc.from;
      s.(pc := Looping,
         n := s.n + 1,
         reclaimed := if p < |s.reclaimed| && p < |s.nextSeq| && c.mode.Pool? && c.mode.every > 0
                         && s.nextSeq[p] % c.mode.every == 0
                      then s.reclaimed[p := s.nextSeq[p]] else s.reclaimed)
  }

  function NewlyPublished(s: Sweep, l: Label): seq<Msg> {
    if l.Exchange? && l.a.Producer? && l.a in s.q.push && s.q.push[l.a].Filling? && l.a.id < |s.sent|
       && |s.q.push[l.a].chain| <= s.sent[l.a.id]
    then Messages(l.a.id, s.sent[l.a.id] - |s.q.push[l.a].chain|, |s.q.push[l.a].chain|)
    else []
  }

  datatype Verdict = Verdict(ok: bool, nextSeq: seq<nat>)

  /** What one id does to the consumer's flag and counters. */
  function CheckOne(P: nat, v: Verdict, id: nat): Verdict {
    var p := Sender(id);
    var known := p < P && p < |v.nextSeq|;
    Verdict(v.ok && known && SeqNo(id) == v.nextSeq[p],
            if known then v.nextSeq[p := v.nextSeq[p] + 1] else v.nextSeq)
  }

  /** The consumer takes a message and checks it. */
  function Check(c: Config, s: Sweep, d: Node): Sweep {
    var id := if d in s.ids then s.ids[d] else 0;
    var v := CheckOne(c.P, Verdict(s.fifoOk, s.nextSeq), id);
    s.(fifoOk := v.ok,
       nextSeq := v.nextSeq,
       pc := if c.mode.Pool? then Holding(d, Sender(id)) else Looping,
       n := if c.mode.Pool? then s.n else s.n + 1,
       received := s.received + [id])
  }

  ghost predicate Next(c: Config, s: Sweep, s': Sweep) {
    exists st :: StepOk(c, s, st) && s' == Do(c, s, st)
  }

  ghost function Steps(c: Config): (Sweep, Sweep) -> bool {
    (s, s') => Next(c, s, s')
  }

  /** `tr` lists the states of a run of the sweep. */
  ghost predicate IsBehaviour(c: Config, tr: seq<Sweep>) {
    IsRun(Steps(c), tr) && tr[0] == Start(c)
  }

  // ------------------------------------------------------------------------------------------------
  // The invariant
  // ------------------------------------------------------------------------------------------------

  /** The sequence numbers of producer `p` among `ms`, in order. */
  function Stream(ms: seq<Msg>, p: nat): seq<nat> {
    if ms == [] then []
    else (if ms[0].from == p then [ms[0].seqno] else []) + Stream(ms[1..], p)
  }

  function Range(base: nat, k: nat): seq<nat> { seq(k, i requires 0 <= i => base + i) }

  function UpTo(k: nat): seq<nat> { seq(k, i => i) }

  /** Messages stamped into a chain that has not passed its exchange. */
  function InHand(q: Queue, p: nat): nat {
    if Producer(p) in q.push && q.push[Producer(p)].Filling? then |q.push[Producer(p)].chain| else 0
  }

  ghost predicate Sizes(c: Config, s: Sweep) {
    && |s.sent| == c.P && |s.reclaimed| == c.P && |s.nextSeq| == c.P
    && (forall p :: 0 <= p < c.P ==> s.sent[p] <= c.per)
    && (forall p: nat :: Producer(p) in s.q.push ==> p < c.P)
    && (forall p :: 0 <= p < c.P ==> InHand(s.q, p) <= s.sent[p])
  }

  ghost predicate IdAt(s: Sweep, k: nat) {
    k < |s.published| && k < |s.q.exchanged| && s.q.exchanged[k] in s.ids &&
    s.ids[s.q.exchanged[k]] == PackId(s.published[k].from, s.published[k].seqno)
  }

  ghost predicate IdInHand(s: Sweep, p: nat, j: nat) {
    p < |s.sent| && j < InHand(s.q, p) <= s.sent[p] &&
    var d := s.q.push[Producer(p)].chain[j];
    d in s.ids && s.ids[d] == PackId(p, s.sent[p] - InHand(s.q, p) + j)
  }

  /** Messages in the queue and in private chains still carry the ids stamped on them. */
  ghost predicate IdsKept(c: Config, s: Sweep) {
    && |s.published| == |s.q.exchanged|
    && (forall k :: 0 <= k < |s.published| ==> s.published[k].from < c.P)
    && (forall k {:trigger IdAt(s, k)} :: |s.q.returned| <= k < |s.published| ==> IdAt(s, k))
    && (forall p, j {:trigger IdInHand(s, p, j)} :: 0 <= p < c.P && 0 <= j < InHand(s.q, p) ==> IdInHand(s, p, j))
  }

  ghost predicate StreamsKept(c: Config, s: Sweep)
    requires Sizes(c, s)
  {
    forall p :: 0 <= p < c.P ==> Stream(s.published, p) == UpTo(s.sent[p] - InHand(s.q, p))
  }

  ghost predicate Counted(c: Config, s: Sweep)
    requires Sizes(c, s)
  {
    && s.fifoOk
    && |s.received| == |s.q.returned| <= |s.published|
    && (forall k :: 0 <= k < |s.received| ==>
          s.received[k] == PackId(s.published[k].from, s.published[k].seqno) && s.published[k].seqno < c.per)
    && (forall p :: 0 <= p < c.P ==> s.nextSeq[p] == |Stream(s.published[..|s.q.returned|], p)|)
    && s.n + (if s.pc.Looping? then 0 else 1) == |s.q.returned|
    && (!s.pc.Looping? ==> c.mode.Pool? && s.pc.from < c.P && s.nextSeq[s.pc.from] > 0)
  }

  /** In batch mode a slot beyond `sent[p]` has never been used. */
  ghost predicate SlotsFresh(c: Config, s: Sweep)
    requires Sizes(c, s)
  {
    c.mode.Batch? ==>
      && (forall d <- s.q.exchanged :: d.Desc? && d.owner < c.P && d.slot < s.sent[d.owner])
      && (forall p: nat, d ::
            Producer(p) in s.q.push && s.q.push[Producer(p)].Filling? && d in s.q.push[Producer(p)].chain ==>
            d.Desc? && d.owner < c.P && d.slot < s.sent[d.owner])
  }

  /** Deliveries of `p` whose progress store has been decided. */
  function Settled(s: Sweep, p: nat): nat
    requires p < |s.nextSeq| && (!s.pc.Looping? && s.pc.from == p ==> s.nextSeq[p] > 0)
  {
    s.nextSeq[p] - (if !s.pc.Looping? && s.pc.from == p then 1 else 0)
  }

  /** The largest multiple of `b` up to `x`: the progress a consumer has made public when it publishes at
      multiples of `b`. */
  function LastMultiple(x: nat, b: nat): nat
    requires b >= 1
  {
    if x == 0 || x % b == 0 then x else LastMultiple(x - 1, b)
  }

  lemma OneLap(m: nat, b: nat)
    requires b >= 1
    ensures (m + b) % b == m % b
  {
    assert m + b == b * (m / b + 1) + m % b;
    DivisionIs(m + b, b, m / b + 1, m % b);
  }

  lemma {:induction false} LastMultipleNear(x: nat, b: nat)
    requires b >= 1
    ensures LastMultiple(x, b) <= x < LastMultiple(x, b) + b
    ensures LastMultiple(x, b) % b == 0
    ensures x < b ==> LastMultiple(x, b) == 0
  {
    if x > 0 && x % b != 0 {
      LastMultipleNear(x - 1, b);
      OneLap(LastMultiple(x, b), b);
    } else if 0 < x < b {
      DivisionIs(x, b, 0, x);
    }
  }

  ghost predicate WindowKeptBy(c: Config, s: Sweep, p: nat)
    requires Sizes(c, s) && Counted(c, s) && p < c.P && c.mode.Pool? && c.mode.every >= 1
  {
    s.reclaimed[p] == LastMultiple(Settled(s, p), c.mode.every) && s.sent[p] <= s.nextSeq[p] + c.mode.window
  }

  ghost predicate WindowKept(c: Config, s: Sweep)
    requires Sizes(c, s) && Counted(c, s)
  {
    c.mode.Pool? && c.mode.every >= 1 ==> forall p :: 0 <= p < c.P ==> WindowKeptBy(c, s, p)
  }

  ghost predicate ClientInv(c: Config, s: Sweep) {
    Sizes(c, s) && IdsKept(c, s) && StreamsKept(c, s) && Counted(c, s) && SlotsFresh(c, s) && WindowKept(c, s)
  }

  ghost predicate SweepInv(c: Config, s: Sweep, list: seq<Node>) {
    Inv(s.q, list) && ClientInv(c, s)
  }

  lemma {:induction false} StreamConcat(a: seq<Msg>, b: seq<Msg>, p: nat)
    ensures Stream(a + b, p) == Stream(a, p) + Stream(b, p)
  {
    if a == [] {
      assert a + b == b;
    } else {
      assert (a + b)[0] == a[0] && (a + b)[1..] == a[1..] + b;
      StreamConcat(a[1..], b, p);
      Associate(if a[0].from == p then [a[0].seqno] else [], Stream(a[1..], p), Stream(b, p));
    }
  }

  lemma {:induction false} StreamOfMessages(p: nat, base: nat, k: nat, r: nat)
    decreases k
    ensures Stream(Messages(p, base, k), r) == if r == p then Range(base, k) else []
  {
    if k > 0 {
      MessagesTail(p, base, k);
      StreamOfMessages(p, base + 1, k - 1, r);
      RangeTail(base, k);
    }
  }

  lemma MessagesTail(p: nat, base: nat, k: nat)
    requires k > 0
    ensures Messages(p, base, k)[0] == Msg(p, base) && Messages(p, base, k)[1..] == Messages(p, base + 1, k - 1)
  {
  }

  lemma RangeTail(base: nat, k: nat)
    requires k > 0
    ensures Range(base, k) == [base] + Range(base + 1, k - 1)
  {
  }

  lemma {:induction false} StampedIds(ids: map<Node, nat>, chain: seq<Node>, p: nat, base: nat)
    requires Distinct(chain)
    ensures var ids' := Stamp(ids, chain, p, base);
      && (forall j :: 0 <= j < |chain| ==> chain[j] in ids' && ids'[chain[j]] == PackId(p, base + j))
      && (forall d <- ids :: d !in chain ==> d in ids' && ids'[d] == ids[d])
    decreases |chain|
  {
    if chain != [] {
      var ids1 := ids[chain[0] := PackId(p, base)];
      var rest := chain[1..];
      var ids' := Stamp(ids1, rest, p, base + 1);
      StampedIds(ids1, rest, p, base + 1);
      assert chain[0] !in rest;
      forall j | 0 <= j < |chain|
        ensures chain[j] in ids' && ids'[chain[j]] == PackId(p, base + j)
      {
        if j > 0 {
          assert chain[j] == rest[j - 1] && ids'[rest[j - 1]] == PackId(p, base + 1 + (j - 1));
        }
      }
    }
  }

  lemma StartInv(c: Config)
    ensures SweepInv(c, Start(c), [Stub])
  {
    InitialInv();
  }

  /** A producer that sends respects the queue's contract: its nodes are distinct and used by nobody. */
  lemma SendIsLegal(c: Config, s: Sweep, list: seq<Node>, p: nat, chain: seq<Node>)
    requires Sensible(c) && SweepInv(c, s, list) && StepOk(c, s, Send(p, chain))
    ensures Enabled(s.q, Begin(p, chain)) && s.sent[p] + |chain| <= c.per
  {
    if c.mode.Batch? {
      forall d | d in chain
        ensures Free(s.q, d)
      {
        assert d.owner == p && d.slot >= s.sent[p];
        assert d !in s.q.exchanged;
        forall a | a in s.q.push && s.q.push[a].Filling?
          ensures d !in s.q.push[a].chain
        {
          assert PrivateChain(s.q, list, a, s.q.push[a].chain, s.q.push[a].stored);
          if a != Consumer { assert Producer(a.id) in s.q.push; }
        }
      }
    }
  }

  lemma SendKeepsSizes(c: Config, s: Sweep, p: nat, chain: seq<Node>)
    requires Sizes(c, s) && StepOk(c, s, Send(p, chain)) && s.sent[p] + |chain| <= c.per
    ensures var s' := Do(c, s, Send(p, chain));
      && Sizes(c, s') && InHand(s.q, p) == 0 && InHand(s'.q, p) == |chain|
      && forall r :: 0 <= r < c.P && r != p ==> InHand(s'.q, r) == InHand(s.q, r)
  {
  }

  ghost predicate IdsSpared(s: Sweep, ids': map<Node, nat>) {
    && (forall k :: 0 <= |s.q.returned| <= k < |s.q.exchanged| && s.q.exchanged[k] in s.ids ==>
          s.q.exchanged[k] in ids' && ids'[s.q.exchanged[k]] == s.ids[s.q.exchanged[k]])
    && (forall a, d :: a in s.q.push && s.q.push[a].Filling? && d in s.q.push[a].chain && d in s.ids ==>
          d in ids' && ids'[d] == s.ids[d])
  }

  ghost predicate ChainStamped(ids: map<Node, nat>, chain: seq<Node>, p: nat, base: nat) {
    forall j :: 0 <= j < |chain| ==> chain[j] in ids && ids[chain[j]] == PackId(p, base + j)
  }

  /** Stamping a chain of free nodes leaves the ids of all other nodes in use alone. */
  lemma StampSparesOthers(s: Sweep, p: nat, chain: seq<Node>, base: nat)
    requires |s.q.returned| <= |s.q.exchanged| && Enabled(s.q, Begin(p, chain))
    ensures IdsSpared(s, Stamp(s.ids, chain, p, base)) && ChainStamped(Stamp(s.ids, chain, p, base), chain, p, base)
  {
    StampedIds(s.ids, chain, p, base);
    forall n | n in chain
      ensures Free(s.q, n)
    {
    }
    forall k | |s.q.returned| <= k < |s.q.exchanged|
      ensures s.q.exchanged[k] !in chain
    {
      assert s.q.exchanged[k] == Pending(s.q)[k - |s.q.returned|];
    }
  }

  lemma SendKeepsIds(c: Config, s: Sweep, p: nat, chain: seq<Node>, s': Sweep)
    requires Sizes(c, s) && IdsKept(c, s) && IdsSpared(s, s'.ids)
    requires p < c.P && InHand(s.q, p) == 0 && Sizes(c, s')
    requires s'.q == s.q.(push := s.q.push[Producer(p) := Filling(chain, 0)]) && s'.published == s.published
    requires s'.sent == s.sent[p := s.sent[p] + |chain|]
    requires ChainStamped(s'.ids, chain, p, s.sent[p])
    ensures IdsKept(c, s')
  {
    forall k | |s'.q.returned| <= k < |s'.published|
      ensures IdAt(s', k)
    {
      assert IdAt(s, k);
    }
    forall r, j | 0 <= r < c.P && 0 <= j < InHand(s'.q, r)
      ensures IdInHand(s', r, j)
    {
      if r != p {
        assert IdInHand(s, r, j);
        assert s.q.push[Producer(r)].chain[j] in s.q.push[Producer(r)].chain;
      }
    }
  }

  /** The unsigned subtraction of the guard does not wrap. */
  lemma WindowGuard(c: Config, s: Sweep, p: nat)
    requires c.mode.Pool? && p < |s.sent| && p < |s.reclaimed| && s.reclaimed[p] <= s.sent[p] <= TWO_40
    ensures WindowFull(c, s, p) <==> s.sent[p] >= s.reclaimed[p] + c.mode.window
  {
  }

  /** Sending keeps the window: the guard saw `sent - reclaimed < window`, and `reclaimed` never runs ahead. */
  lemma SendKeepsWindow(c: Config, s: Sweep, p: nat, s': Sweep)
    requires Sensible(c) && c.mode.Pool? && Sizes(c, s) && Counted(c, s) && WindowKept(c, s)
    requires p < c.P && s.sent[p] < s.reclaimed[p] + c.mode.window
    requires Sizes(c, s') && Counted(c, s') && s'.nextSeq == s.nextSeq && s'.reclaimed == s.reclaimed && s'.pc == s.pc
    requires s'.sent == s.sent[p := s.sent[p] + 1]
    ensures WindowKept(c, s')
  {
    forall r | 0 <= r < c.P
      ensures WindowKeptBy(c, s', r)
    {
      assert WindowKeptBy(c, s, r);
      LastMultipleNear(Settled(s, r), c.mode.every);
    }
  }

  lemma ReclaimedBehind(c: Config, s: Sweep, p: nat)
    requires Sensible(c) && Sizes(c, s) && StreamsKept(c, s) && Counted(c, s) && WindowKept(c, s)
    requires c.mode.Pool? && p < c.P
    ensures s.reclaimed[p] <= s.nextSeq[p] <= s.sent[p]
  {
    assert WindowKeptBy(c, s, p);
    LastMultipleNear(Settled(s, p), c.mode.every);
    StreamPrefix(s.published, |s.q.returned|, p);
  }

  lemma SentWindow(c: Config, s: Sweep, p: nat, s': Sweep)
    requires Sensible(c) && Sizes(c, s) && StreamsKept(c, s) && Counted(c, s) && WindowKept(c, s)
    requires MaySend(c, s, p) && Sizes(c, s') && Counted(c, s')
    requires s'.nextSeq == s.nextSeq && s'.reclaimed == s.reclaimed && s'.pc == s.pc
    requires c.mode.Pool? ==> s'.sent == s.sent[p := s.sent[p] + 1]
    ensures WindowKept(c, s')
  {
    if c.mode.Pool? {
      ReclaimedBehind(c, s, p);
      WindowGuard(c, s, p);
      SendKeepsWindow(c, s, p, s');
    }
  }

  lemma SendKeeps(c: Config, s: Sweep, p: nat, chain: seq<Node>)
    requires Sensible(c) && ClientInv(c, s)
    requires StepOk(c, s, Send(p, chain)) && s.sent[p] + |chain| <= c.per
    requires Enabled(s.q, Begin(p, chain))
    ensures ClientInv(c, Do(c, s, Send(p, chain)))
  {
    var s' := Do(c, s, Send(p, chain));
    SendKeepsSizes(c, s, p, chain);
    StampSparesOthers(s, p, chain, s.sent[p]);
    SendKeepsIds(c, s, p, chain, s');
    SendKeepsStreams(c, s, p, chain, s');
    SendKeepsSlots(c, s, p, chain, s');
    SentWindow(c, s, p, s');
  }

  /** Messages in hand are not yet published. */
  lemma SendKeepsStreams(c: Config, s: Sweep, p: nat, chain: seq<Node>, s': Sweep)
    requires Sizes(c, s) && StreamsKept(c, s) && Counted(c, s) && p < c.P && Sizes(c, s')
    requires InHand(s.q, p) == 0 && InHand(s'.q, p) == |chain|
    requires forall r :: 0 <= r < c.P && r != p ==> InHand(s'.q, r) == InHand(s.q, r)
    requires s'.sent == s.sent[p := s.sent[p] + |chain|] && s'.published == s.published && s'.received == s.received
    requires s'.q.returned == s.q.returned && s'.nextSeq == s.nextSeq
    requires s'.pc == s.pc && s'.n == s.n && s'.fifoOk == s.fifoOk
    ensures StreamsKept(c, s') && Counted(c, s')
  {
  }

  lemma SendKeepsSlots(c: Config, s: Sweep, p: nat, chain: seq<Node>, s': Sweep)
    requires Sizes(c, s) && SlotsFresh(c, s) && p < c.P && Sizes(c, s') && MaySend(c, s, p) && ChainFor(c, s, p, chain)
    requires s'.sent == s.sent[p := s.sent[p] + |chain|]
    requires s'.q == s.q.(push := s.q.push[Producer(p) := Filling(chain, 0)])
    ensures SlotsFresh(c, s')
  {
  }

  /** `s'` is `s` after producer `p` exchanged its chain in. */
  ghost predicate Exchanged(s: Sweep, s': Sweep, p: nat, chain: seq<Node>)
    requires p < |s.sent| && |chain| <= s.sent[p]
  {
    && Producer(p) in s.q.push && s.q.push[Producer(p)].Filling? && s.q.push[Producer(p)].chain == chain
    && s' == s.(q := s'.q, published := s.published + Messages(p, s.sent[p] - |chain|, |chain|))
    && s'.q.exchanged == s.q.exchanged + chain && s'.q.returned == s.q.returned
    && (exists prev, first :: s'.q.push == s.q.push[Producer(p) := Linking(prev, first)])
  }

  lemma AddedStream(ms: seq<Msg>, p: nat, base: nat, k: nat, r: nat)
    ensures Stream(ms + Messages(p, base, k), r) ==
      Stream(ms, r) + if r == p then Range(base, k) else []
  {
    StreamConcat(ms, Messages(p, base, k), r);
    StreamOfMessages(p, base, k, r);
  }

  lemma UpToThenRange(a: nat, k: nat)
    ensures UpTo(a) + Range(a, k) == UpTo(a + k)
  {
  }

  lemma ExchangedStreams(c: Config, s: Sweep, s': Sweep, p: nat, chain: seq<Node>)
    requires Sizes(c, s) && StreamsKept(c, s) && Counted(c, s) && p < c.P && |chain| <= s.sent[p]
    requires Exchanged(s, s', p, chain)
    ensures Sizes(c, s') && StreamsKept(c, s') && Counted(c, s')
  {
    assert forall r: nat :: InHand(s'.q, r) == if r == p then 0 else InHand(s.q, r);
    assert s'.published[..|s.q.returned|] == s.published[..|s.q.returned|];
    forall r | 0 <= r < c.P
      ensures Stream(s'.published, r) == UpTo(s'.sent[r] - InHand(s'.q, r))
    {
      AddedStream(s.published, p, s.sent[p] - |chain|, |chain|, r);
      if r == p { UpToThenRange(s.sent[p] - |chain|, |chain|); }
    }
  }

  lemma ExchangedIds(c: Config, s: Sweep, s': Sweep, p: nat, chain: seq<Node>)
    requires Sizes(c, s) && IdsKept(c, s) && |s.q.returned| <= |s.q.exchanged| && p < c.P && |chain| <= s.sent[p]
    requires Exchanged(s, s', p, chain)
    ensures IdsKept(c, s')
  {
    forall k | |s.q.returned| <= k < |s'.published|
      ensures IdAt(s', k)
    {
      if k >= |s.published| {
        assert IdInHand(s, p, k - |s.published|);
      } else {
        assert IdAt(s, k);
      }
    }
    forall r, j | 0 <= r < c.P && 0 <= j < InHand(s'.q, r)
      ensures IdInHand(s', r, j)
    {
      assert IdInHand(s, r, j);
    }
  }

  lemma ExchangedKeeps(c: Config, s: Sweep, s': Sweep, p: nat, chain: seq<Node>)
    requires ClientInv(c, s) && p < c.P && |chain| <= s.sent[p] && Exchanged(s, s', p, chain)
    ensures ClientInv(c, s')
  {
    ExchangedStreams(c, s, s', p, chain);
    ExchangedIds(c, s, s', p, chain);
    assert SlotsFresh(c, s');
    SameWindow(c, s, s');
  }

  lemma SameWindow(c: Config, s: Sweep, s': Sweep)
    requires Sizes(c, s) && Counted(c, s) && WindowKept(c, s) && Sizes(c, s') && Counted(c, s')
    requires s'.sent == s.sent && s'.reclaimed == s.reclaimed && s'.nextSeq == s.nextSeq && s'.pc == s.pc
    ensures WindowKept(c, s')
  {
    if c.mode.Pool? && c.mode.every >= 1 {
      forall r | 0 <= r < c.P
        ensures WindowKeptBy(c, s', r)
      {
        assert WindowKeptBy(c, s, r);
      }
    }
  }

  ghost predicate SameInHand(q: Queue, q': Queue, p: nat) {
    InHand(q', p) == InHand(q, p) && (InHand(q, p) > 0 ==> q'.push[Producer(p)].chain == q.push[Producer(p)].chain)
  }

  lemma SameIds(c: Config, s: Sweep, s': Sweep)
    requires IdsKept(c, s)
    requires s'.q.exchanged == s.q.exchanged && |s'.q.returned| >= |s.q.returned|
    requires s'.ids == s.ids && s'.published == s.published && s'.sent == s.sent
    requires forall p: nat :: SameInHand(s.q, s'.q, p)
    ensures IdsKept(c, s')
  {
    forall k | |s'.q.returned| <= k < |s'.published|
      ensures IdAt(s', k)
    {
      assert IdAt(s, k);
    }
    forall p, j | 0 <= p < c.P && 0 <= j < InHand(s'.q, p)
      ensures IdInHand(s', p, j)
    {
      assert SameInHand(s.q, s'.q, p);
      assert IdInHand(s, p, j);
    }
  }

  /** A change of the queue that publishes nothing and delivers nothing. */
  lemma QuietKeeps(c: Config, s: Sweep, q': Queue)
    requires ClientInv(c, s)
    requires q'.exchanged == s.q.exchanged && q'.returned == s.q.returned
    requires forall p: nat :: Producer(p) in q'.push ==> Producer(p) in s.q.push
    requires forall p: nat :: Producer(p) in q'.push && q'.push[Producer(p)].Filling? ==>
      s.q.push[Producer(p)].Filling? && q'.push[Producer(p)].chain == s.q.push[Producer(p)].chain
    requires forall p: nat :: Producer(p) in s.q.push && s.q.push[Producer(p)].Filling? ==>
      Producer(p) in q'.push && q'.push[Producer(p)].Filling?
    ensures ClientInv(c, s.(q := q'))
  {
    var s' := s.(q := q');
    assert forall p: nat :: InHand(q', p) == InHand(s.q, p);
    assert Sizes(c, s');
    SameIds(c, s, s');
    assert StreamsKept(c, s') && Counted(c, s');
    assert SlotsFresh(c, s');
    SameWindow(c, s, s');
  }

  lemma ExchangeMoves(c: Config, s: Sweep, p: nat)
    requires ClientInv(c, s) && StepOk(c, s, Move(Exchange(Producer(p)))) && Stub !in s.q.push[Producer(p)].chain
    ensures ClientInv(c, Do(c, s, Move(Exchange(Producer(p)))))
  {
    var chain := s.q.push[Producer(p)].chain;
    UsersOfProper(chain);
    assert InHand(s.q, p) == |chain|;
    ExchangedKeeps(c, s, Do(c, s, Move(Exchange(Producer(p)))), p, chain);
  }

  lemma MoveKeeps(c: Config, s: Sweep, l: Label)
    requires ClientInv(c, s) && StepOk(c, s, Move(l))
    requires l.Exchange? ==> if l.a == Consumer then s.q.push[l.a].chain == [Stub] else Stub !in s.q.push[l.a].chain
    ensures ClientInv(c, Do(c, s, Move(l)))
  {
    if l.Exchange? && l.a.Producer? {
      ExchangeMoves(c, s, l.a.id);
    } else {
      if l.Exchange? { UsersOfOne(Stub); }
      assert s.published + [] == s.published;
      QuietKeeps(c, s, Apply(s.q, l));
    }
  }

  lemma {:induction false} StreamPrefix(ms: seq<Msg>, k: nat, p: nat)
    requires k <= |ms|
    ensures Stream(ms[..k], p) <= Stream(ms, p)
  {
    assert ms == ms[..k] + ms[k..];
    StreamConcat(ms[..k], ms[k..], p);
  }

  /** The oldest undelivered message is the one its sender's counter asks for. */
  lemma NextIsExpected(c: Config, s: Sweep)
    requires Sizes(c, s) && IdsKept(c, s) && StreamsKept(c, s) && Counted(c, s) && |s.q.returned| < |s.published|
    ensures var m := s.published[|s.q.returned|];
      && m.from < c.P && m.seqno == s.nextSeq[m.from] < s.sent[m.from]
      && forall p :: 0 <= p < c.P ==>
           |Stream(s.published[..|s.q.returned| + 1], p)| == s.nextSeq[p] + (if p == m.from then 1 else 0)
  {
    var k := |s.q.returned|;
    var m := s.published[k];
    assert s.published[..k + 1] == s.published[..k] + [m];
    assert [m][1..] == [];
    forall p | 0 <= p < c.P
      ensures Stream(s.published[..k + 1], p) == Stream(s.published[..k], p) + (if p == m.from then [m.seqno] else [])
    {
      StreamConcat(s.published[..k], [m], p);
    }
    StreamPrefix(s.published, k + 1, m.from);
    var st, full := Stream(s.published[..k + 1], m.from), Stream(s.published, m.from);
    assert st == Stream(s.published[..k], m.from) + [m.seqno] && st <= full;
    assert st[|st| - 1] == m.seqno && full[|st| - 1] == st[|st| - 1];
  }

  /** So the consumer's check of it succeeds and advances exactly that counter. */
  lemma CheckPasses(c: Config, s: Sweep, q': Queue, d: Node)
    requires Sensible(c) && Sizes(c, s) && IdsKept(c, s) && StreamsKept(c, s) && Counted(c, s)
    requires |s.q.returned| < |s.published| && d == s.q.exchanged[|s.q.returned|]
    ensures var p := s.published[|s.q.returned|].from;
      && p < c.P
      && Check(c, s.(q := q'), d) == s.(
           q := q',
           nextSeq := s.nextSeq[p := s.nextSeq[p] + 1],
           pc := if c.mode.Pool? then Holding(d, p) else Looping,
           n := if c.mode.Pool? then s.n else s.n + 1,
           received := s.received + [PackId(p, s.nextSeq[p])])
  {
    NextIsExpected(c, s);
    assert IdAt(s, |s.q.returned|);
    var m := s.published[|s.q.returned|];
    RoundTrip(m.from, m.seqno);
  }

  lemma GotKeepsWindow(c: Config, s: Sweep, s': Sweep, p: nat)
    requires Sizes(c, s) && Counted(c, s) && WindowKept(c, s) && s.pc.Looping? && p < c.P
    requires Sizes(c, s') && Counted(c, s')
    requires s'.sent == s.sent && s'.reclaimed == s.reclaimed && s'.nextSeq == s.nextSeq[p := s.nextSeq[p] + 1]
    requires c.mode.Pool? ==> s'.pc.Holding? && s'.pc.from == p
    ensures WindowKept(c, s')
  {
    if c.mode.Pool? && c.mode.every >= 1 {
      forall r | 0 <= r < c.P
        ensures WindowKeptBy(c, s', r)
      {
        assert WindowKeptBy(c, s, r);
      }
    }
  }

  lemma GotKeeps(c: Config, s: Sweep, s': Sweep, p: nat, d: Node)
    requires Sensible(c) && ClientInv(c, s) && s.pc.Looping?
    requires |s.q.returned| < |s.published| && p == s.published[|s.q.returned|].from
    requires s'.q.push == s.q.push && s'.q.exchanged == s.q.exchanged && s'.q.returned == s.q.returned + [d]
    requires p < c.P
    requires s' == s.(
        q := s'.q,
        nextSeq := s.nextSeq[p := s.nextSeq[p] + 1],
        pc := if c.mode.Pool? then Holding(d, p) else Looping,
        n := if c.mode.Pool? then s.n else s.n + 1,
        received := s.received + [PackId(p, s.nextSeq[p])])
    ensures ClientInv(c, s')
  {
    NextIsExpected(c, s);
    assert forall r: nat :: InHand(s'.q, r) == InHand(s.q, r);
    assert Sizes(c, s');
    SameIds(c, s, s');
    assert StreamsKept(c, s');
    assert Counted(c, s');
    assert SlotsFresh(c, s');
    GotKeepsWindow(c, s, s', p);
  }

  lemma ReceiveKeeps(c: Config, s: Sweep)
    requires Sensible(c) && ClientInv(c, s) && StepOk(c, s, Receive)
    requires PopStep(s.q).1.Got? ==> Pending(s.q) != [] && PopStep(s.q).1.node == Pending(s.q)[0]
    ensures ClientInv(c, Do(c, s, Receive))
  {
    var (q', out) := PopStep(s.q);
    if out.Got? {
      CheckPasses(c, s, q', out.node);
      GotKeeps(c, s, Do(c, s, Receive), s.published[|s.q.returned|].from, out.node);
    } else {
      QuietKeeps(c, s, q');
    }
  }

  lemma PublishKeeps(c: Config, s: Sweep)
    requires Sensible(c) && ClientInv(c, s) && StepOk(c, s, Publish)
    ensures ClientInv(c, Do(c, s, Publish))
  {
    var s' := Do(c, s, Publish);
    SameIds(c, s, s');
    assert Counted(c, s');
    forall r | 0 <= r < c.P
      ensures WindowKeptBy(c, s', r)
    {
      assert WindowKeptBy(c, s, r);
    }
  }

  lemma ReclaimKeeps(c: Config, s: Sweep)
    requires ClientInv(c, s) && StepOk(c, s, Reclaim)
    ensures ClientInv(c, Do(c, s, Reclaim))
  {
    var s' := Do(c, s, Reclaim);
    SameIds(c, s, s');
    assert Counted(c, s');
    if c.mode.every >= 1 {
      forall r | 0 <= r < c.P
        ensures WindowKeptBy(c, s', r)
      {
        assert WindowKeptBy(c, s, r);
      }
    }
  }

  ghost function ListNext(c: Config, s: Sweep, list: seq<Node>, st: Step): seq<Node>
    requires SweepInv(c, s, list) && StepOk(c, s, st)
  {
    match st
    case Move(l) => NextList(s.q, list, l)
    case Receive => NextList(s.q, list, PopNext)
    case _ => list
  }

  /** Every step of every thread keeps the invariant. */
  lemma SweepStepKeeps(c: Config, s: Sweep, list: seq<Node>, st: Step)
    requires Sensible(c) && SweepInv(c, s, list) && StepOk(c, s, st)
    ensures SweepInv(c, Do(c, s, st), ListNext(c, s, list, st))
  {
    match st
    case Send(p, chain) =>
      SendIsLegal(c, s, list, p, chain);
      BeginKeeps(s.q, list, p, chain);
      SendKeeps(c, s, p, chain);
    case Move(l) =>
      StepKeeps(s.q, list, l);
      if l.Exchange? {
        assert PrivateChain(s.q, list, l.a, s.q.push[l.a].chain, s.q.push[l.a].stored);
      }
      MoveKeeps(c, s, l);
    case Receive =>
      PopKeeps(s.q, list);
      if PopStep(s.q).1.Got? { MpscQueueRuns.GotIsOldest(s.q, list); }
      ReceiveKeeps(c, s);
    case Reclaim => ReclaimKeeps(c, s);
    case Publish => PublishKeeps(c, s);
  }
}
