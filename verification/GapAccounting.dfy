/**
 Two ways to account for messages dropped at a bounded ring.  In one the consumer derives each gap from the
 discontinuity of the ids it sees; in the other the producer counts its refused pushes and stamps the count on the next
 envelope that gets in.  The ring's type is not part of this model: whether a push is accepted is an arbitrary function
 `accept` of the ring operations so far, the same for both, so any capacity, credit or stall rule is covered.
 */
module GapAccounting {
  import opened Basics

  datatype RingOp = Push(ok: bool) | Pop

  /** One delivered envelope with the gap reported before it; `first` means something only if `count` is not 0. */
  datatype Delivery = Delivery(id: nat, first: nat, count: nat)

  datatype Envelope = Envelope(id: nat, gapFirst: nat, gapCount: nat)

  /** The consumer-derived design (mode 3). */
  datatype Derived = Derived(ring: seq<nat>, ops: seq<RingOp>, next: nat, acc: nat, log: seq<Delivery>)

  /** The producer-stamped design (mode 2). */
  datatype Stamped = Stamped(
    ring: seq<Envelope>, ops: seq<RingOp>, pendFirst: nat, pend: nat, acc: nat, log: seq<Delivery>)

  /** Unsigned 64-bit subtraction. */
  function Minus(a: nat, b: nat): nat { (a - b) % TWO_64 }

  function Plus(a: nat, b: nat): nat { (a + b) % TWO_64 }

  function DerivedPush(accept: seq<RingOp> -> bool, s: Derived, i: nat): Derived {
    var ok := accept(s.ops);
    s.(ring := if ok then s.ring + [i] else s.ring, ops := s.ops + [Push(ok)])
  }

  function DerivedPop(s: Derived): Derived
    requires s.ring != []
  {
    var id := s.ring[0];
    var gap := if id != s.next then Minus(id, s.next) else 0;
    Derived(s.ring[1..], s.ops + [Pop], id + 1, Plus(Plus(s.acc, gap), id), s.log + [Delivery(id, s.next, gap)])
  }

  function DerivedDrain(s: Derived): Derived
    decreases |s.ring|
  {
    if s.ring == [] then s else DerivedDrain(DerivedPop(s))
  }

  function DerivedTurn(accept: seq<RingOp> -> bool, drain: nat -> bool, s: Derived, i: nat): Derived {
    var s1 := DerivedPush(accept, s, i);
    if drain(i) then DerivedDrain(s1) else s1
  }

  /** The state after `n` turns of the loop; the consumer empties the ring in the turns `drain` selects. */
  function DerivedRun(accept: seq<RingOp> -> bool, drain: nat -> bool, n: nat): Derived {
    if n == 0 then Derived([], [], 0, 0, []) else DerivedTurn(accept, drain, DerivedRun(accept, drain, n - 1), n - 1)
  }

  function StampedPush(accept: seq<RingOp> -> bool, s: Stamped, i: nat): Stamped {
    var ok := accept(s.ops);
    if ok then
      s.(ring := s.ring + [Envelope(i, s.pendFirst, s.pend)], ops := s.ops + [Push(ok)], pend := 0)
    else
      s.(ops := s.ops + [Push(ok)], pendFirst := if s.pend == 0 then i else s.pendFirst, pend := s.pend + 1)
  }

  function StampedPop(s: Stamped): Stamped
    requires s.ring != []
  {
    var x := s.ring[0];
    s.(ring := s.ring[1..],
       ops := s.ops + [Pop],
       acc := Plus(s.acc, x.id + x.gapCount),
       log := s.log + [Delivery(x.id, x.gapFirst, x.gapCount)])
  }

  function StampedDrain(s: Stamped): Stamped
    decreases |s.ring|
  {
    if s.ring == [] then s else StampedDrain(StampedPop(s))
  }

  function StampedTurn(accept: seq<RingOp> -> bool, drain: nat -> bool, s: Stamped, i: nat): Stamped {
    var s1 := StampedPush(accept, s, i);
    if drain(i) then StampedDrain(s1) else s1
  }

  function StampedRun(accept: seq<RingOp> -> bool, drain: nat -> bool, n: nat): Stamped {
    if n == 0 then Stamped([], [], 0, 0, 0, []) else StampedTurn(accept, drain, StampedRun(accept, drain, n - 1), n - 1)
  }

  // ------------------------------------------------------------------------------------------------
  // What a run adds up to
  // ------------------------------------------------------------------------------------------------

  function Reported(log: seq<Delivery>): nat {
    if log == [] then 0 else Reported(log[..|log| - 1]) + log[|log| - 1].count
  }

  function SumOfIds(log: seq<Delivery>): nat {
    if log == [] then 0 else SumOfIds(log[..|log| - 1]) + log[|log| - 1].id
  }

  /** `acc` is the sum of the ids delivered and the gaps reported, in 64 bits. */
  ghost predicate AddsUp(acc: nat, log: seq<Delivery>) {
    acc == (SumOfIds(log) + Reported(log)) % 0x1_0000_0000_0000_0000
  }

  lemma OneMoreDelivery(acc: nat, log: seq<Delivery>, x: Delivery)
    requires AddsUp(acc, log)
    ensures AddsUp(Plus(acc, x.id + x.count), log + [x])
  {
    assert (log + [x])[..|log|] == log;
    AddMod(SumOfIds(log) + Reported(log), x.id + x.count);
  }

  lemma AddMod(x: nat, y: nat)
    ensures Plus(x % TWO_64, y) == (x + y) % TWO_64
  {
    var q := x / TWO_64;
    assert x == q * TWO_64 + x % TWO_64;
    assert x + y == q * TWO_64 + (x % TWO_64 + y);
  }

  lemma {:induction false} DerivedDrainAddsUp(s: Derived)
    requires AddsUp(s.acc, s.log)
    ensures AddsUp(DerivedDrain(s).acc, DerivedDrain(s).log)
    decreases |s.ring|
  {
    if s.ring != [] {
      var s' := DerivedPop(s);
      var x := s'.log[|s.log|];
      PlusTwice(s.acc, x.count, x.id);
      OneMoreDelivery(s.acc, s.log, x);
      DerivedDrainAddsUp(s');
    }
  }

  lemma {:induction false} StampedDrainAddsUp(s: Stamped)
    requires AddsUp(s.acc, s.log)
    ensures AddsUp(StampedDrain(s).acc, StampedDrain(s).log)
    decreases |s.ring|
  {
    if s.ring != [] {
      OneMoreDelivery(s.acc, s.log, StampedPop(s).log[|s.log|]);
      StampedDrainAddsUp(StampedPop(s));
    }
  }

  lemma {:induction false} DerivedAddsUp(accept: seq<RingOp> -> bool, drain: nat -> bool, n: nat)
    ensures AddsUp(DerivedRun(accept, drain, n).acc, DerivedRun(accept, drain, n).log)
  {
    if n > 0 {
      DerivedAddsUp(accept, drain, n - 1);
      DerivedTurnAddsUp(accept, drain, DerivedRun(accept, drain, n - 1), n - 1);
    }
  }

  lemma {:induction false} StampedAddsUp(accept: seq<RingOp> -> bool, drain: nat -> bool, n: nat)
    ensures AddsUp(StampedRun(accept, drain, n).acc, StampedRun(accept, drain, n).log)
  {
    if n > 0 {
      StampedAddsUp(accept, drain, n - 1);
      StampedTurnAddsUp(accept, drain, StampedRun(accept, drain, n - 1), n - 1);
    }
  }

  /** In either design `acc` ends as the sum of the ids delivered and the gaps reported, in 64 bits. */
  lemma RunsAddUp(accept: seq<RingOp> -> bool, drain: nat -> bool, n: nat)
    ensures var d := DerivedRun(accept, drain, n); d.acc == (SumOfIds(d.log) + Reported(d.log)) % 0x1_0000_0000_0000_0000
    ensures var b := StampedRun(accept, drain, n); b.acc == (SumOfIds(b.log) + Reported(b.log)) % 0x1_0000_0000_0000_0000
  {
    DerivedAddsUp(accept, drain, n);
    StampedAddsUp(accept, drain, n);
  }

  lemma DerivedTurnAddsUp(accept: seq<RingOp> -> bool, drain: nat -> bool, s: Derived, i: nat)
    requires AddsUp(s.acc, s.log)
    ensures AddsUp(DerivedTurn(accept, drain, s, i).acc, DerivedTurn(accept, drain, s, i).log)
  {
    DerivedDrainAddsUp(DerivedPush(accept, s, i));
  }

  lemma StampedTurnAddsUp(accept: seq<RingOp> -> bool, drain: nat -> bool, s: Stamped, i: nat)
    requires AddsUp(s.acc, s.log)
    ensures AddsUp(StampedTurn(accept, drain, s, i).acc, StampedTurn(accept, drain, s, i).log)
  {
    StampedDrainAddsUp(StampedPush(accept, s, i));
  }

  // ------------------------------------------------------------------------------------------------
  // The loops
  // ------------------------------------------------------------------------------------------------

  method RunDerived(accept: seq<RingOp> -> bool, drain: nat -> bool, n: nat) returns (acc: nat, log: seq<Delivery>)
    ensures acc == DerivedRun(accept, drain, n).acc && log == DerivedRun(accept, drain, n).log
    ensures acc == (SumOfIds(log) + Reported(log)) % 0x1_0000_0000_0000_0000
  {
    var ring: seq<nat>, ops: seq<RingOp>, next := [], [], 0;
    acc, log := 0, [];
    for i := 0 to n
      invariant Derived(ring, ops, next, acc, log) == DerivedRun(accept, drain, i)
    {
      var ok := accept(ops);
      if ok { ring := ring + [i]; }
      ops := ops + [Push(ok)];
      ghost var pushed := Derived(ring, ops, next, acc, log);
      if drain(i) {
        while ring != []
          invariant DerivedDrain(Derived(ring, ops, next, acc, log)) == DerivedDrain(pushed)
          decreases |ring|
        {
          var x := ring[0];
          var gap := 0;
          if x != next { gap := Minus(x, next); }
          acc := Plus(acc, gap);
          log := log + [Delivery(x, next, gap)];
          next := x + 1;
          acc := Plus(acc, x);
          ring := ring[1..];
          ops := ops + [Pop];
        }
      }
    }
    RunsAddUp(accept, drain, n);
  }

  method RunStamped(accept: seq<RingOp> -> bool, drain: nat -> bool, n: nat) returns (acc: nat, log: seq<Delivery>)
    ensures acc == StampedRun(accept, drain, n).acc && log == StampedRun(accept, drain, n).log
    ensures acc == (SumOfIds(log) + Reported(log)) % 0x1_0000_0000_0000_0000
  {
    var ring: seq<Envelope>, ops: seq<RingOp>, pendFirst, pend := [], [], 0, 0;
    acc, log := 0, [];
    for i := 0 to n
      invariant Stamped(ring, ops, pendFirst, pend, acc, log) == StampedRun(accept, drain, i)
    {
      var e := Envelope(i, pendFirst, pend);
      var ok := accept(ops);
      ops := ops + [Push(ok)];
      if ok {
        ring := ring + [e];
        pend := 0;
      } else {
        if pend == 0 { pendFirst := i; }
        pend := pend + 1;
      }
      ghost var pushed := Stamped(ring, ops, pendFirst, pend, acc, log);
      if drain(i) {
        while ring != []
          invariant StampedDrain(Stamped(ring, ops, pendFirst, pend, acc, log)) == StampedDrain(pushed)
          decreases |ring|
        {
          var x := ring[0];
          acc := Plus(acc, x.id + x.gapCount);
          log := log + [Delivery(x.id, x.gapFirst, x.gapCount)];
          ring := ring[1..];
          ops := ops + [Pop];
        }
      }
    }
    RunsAddUp(accept, drain, n);
  }

  // ------------------------------------------------------------------------------------------------
  // The relation between the two designs
  // ------------------------------------------------------------------------------------------------

  /** Every envelope is stamped with exactly the ids missing between its predecessor (the first: `next`) and itself. */
  ghost predicate WellStamped(ring: seq<Envelope>, next: nat) {
    ring != [] ==>
      && next <= ring[0].id
      && ring[0].gapCount == ring[0].id - next
      && (ring[0].gapCount > 0 ==> ring[0].gapFirst == next)
      && WellStamped(ring[1..], ring[0].id + 1)
  }

  /** The id that would continue the ring without a gap. */
  function EndOf(ring: seq<Envelope>, next: nat): nat {
    if ring == [] then next else ring[|ring| - 1].id + 1
  }

  function Ids(ring: seq<Envelope>): seq<nat> { seq(|ring|, k requires 0 <= k < |ring| => ring[k].id) }

  ghost predicate SameReport(a: Delivery, b: Delivery) {
    a.id == b.id && a.count == b.count && (a.count > 0 ==> a.first == b.first)
  }

  ghost predicate SameReports(a: seq<Delivery>, b: seq<Delivery>) {
    |a| == |b| && forall k :: 0 <= k < |a| ==> SameReport(a[k], b[k])
  }

  ghost predicate Related(d: Derived, b: Stamped, i: nat) {
    && d.ops == b.ops && d.ring == Ids(b.ring) && d.acc == b.acc && SameReports(d.log, b.log)
    && WellStamped(b.ring, d.next) && EndOf(b.ring, d.next) + b.pend == i
    && (b.pend > 0 ==> b.pendFirst == EndOf(b.ring, d.next))
    && (forall k :: 0 <= k < |b.ring| ==> b.ring[k].id < i)
  }

  lemma {:induction false} StampAppended(ring: seq<Envelope>, next: nat, e: Envelope)
    requires WellStamped(ring, next) && WellStamped([e], EndOf(ring, next))
    ensures WellStamped(ring + [e], next) && EndOf(ring + [e], next) == e.id + 1
  {
    if ring == [] {
      assert ring + [e] == [e];
    } else {
      assert (ring + [e])[1..] == ring[1..] + [e];
      assert EndOf(ring[1..], ring[0].id + 1) == EndOf(ring, next);
      StampAppended(ring[1..], ring[0].id + 1, e);
    }
  }

  lemma PushRelated(accept: seq<RingOp> -> bool, d: Derived, b: Stamped, i: nat)
    requires Related(d, b, i)
    ensures Related(DerivedPush(accept, d, i), StampedPush(accept, b, i), i + 1)
  {
    if accept(d.ops) {
      var e := Envelope(i, b.pendFirst, b.pend);
      StampAppended(b.ring, d.next, e);
      assert Ids(b.ring + [e]) == Ids(b.ring) + [i];
    }
  }

  lemma PlusTwice(a: nat, g: nat, x: nat)
    ensures Plus(Plus(a, g), x) == Plus(a, x + g)
  {
    var q := (a + g) / TWO_64;
    assert a + g == q * TWO_64 + Plus(a, g);
    assert a + (x + g) == q * TWO_64 + (Plus(a, g) + x);
  }

  lemma PopRelated(d: Derived, b: Stamped, i: nat)
    requires Related(d, b, i) && i <= TWO_64 && b.ring != []
    ensures Related(DerivedPop(d), StampedPop(b), i)
  {
    var x := b.ring[0];
    assert x.id < i && Ids(b.ring)[1..] == Ids(b.ring[1..]);
    assert Minus(x.id, d.next) == x.id - d.next;
    assert EndOf(b.ring[1..], x.id + 1) == EndOf(b.ring, d.next);
    PlusTwice(d.acc, x.gapCount, x.id);
    assert SameReport(DerivedPop(d).log[|d.log|], StampedPop(b).log[|b.log|]);
  }

  lemma {:induction false} DrainRelated(d: Derived, b: Stamped, i: nat)
    requires Related(d, b, i) && i <= TWO_64
    ensures Related(DerivedDrain(d), StampedDrain(b), i)
    decreases |b.ring|
  {
    if b.ring != [] {
      PopRelated(d, b, i);
      DrainRelated(DerivedPop(d), StampedPop(b), i);
    }
  }

  lemma TurnRelated(accept: seq<RingOp> -> bool, drain: nat -> bool, d: Derived, b: Stamped, i: nat)
    requires Related(d, b, i) && i < TWO_64
    ensures Related(DerivedTurn(accept, drain, d, i), StampedTurn(accept, drain, b, i), i + 1)
    ensures Gapless(d.log, d.next) ==>
      Gapless(DerivedTurn(accept, drain, d, i).log, DerivedTurn(accept, drain, d, i).next)
  {
    var d1, b1 := DerivedPush(accept, d, i), StampedPush(accept, b, i);
    PushRelated(accept, d, b, i);
    DrainRelated(d1, b1, i + 1);
    if Gapless(d.log, d.next) { DrainGapless(d1, b1, i + 1); }
  }

  ghost predicate Agree(d: Derived, b: Stamped, i: nat) {
    Related(d, b, i) && Gapless(d.log, d.next)
  }

  lemma TurnAgrees(accept: seq<RingOp> -> bool, drain: nat -> bool, d: Derived, b: Stamped, i: nat,
                   d': Derived, b': Stamped, j: nat)
    requires Agree(d, b, i) && j == i + 1 <= TWO_64
    requires d' == DerivedTurn(accept, drain, d, i) && b' == StampedTurn(accept, drain, b, i)
    ensures Agree(d', b', j)
  {
    TurnRelated(accept, drain, d, b, i);
  }

  ghost predicate RunsAgreeAt(accept: seq<RingOp> -> bool, drain: nat -> bool, n: nat) {
    Agree(DerivedRun(accept, drain, n), StampedRun(accept, drain, n), n)
  }

  lemma StartAgrees(accept: seq<RingOp> -> bool, drain: nat -> bool)
    ensures RunsAgreeAt(accept, drain, 0)
  {
    assert Ids([]) == [];
  }

  lemma NextAgrees(accept: seq<RingOp> -> bool, drain: nat -> bool, n: nat)
    requires n < TWO_64 && RunsAgreeAt(accept, drain, n)
    ensures RunsAgreeAt(accept, drain, n + 1)
  {
    TurnAgrees(accept, drain, DerivedRun(accept, drain, n), StampedRun(accept, drain, n), n,
               DerivedRun(accept, drain, n + 1), StampedRun(accept, drain, n + 1), n + 1);
  }

  lemma {:induction false} RunsAgree(accept: seq<RingOp> -> bool, drain: nat -> bool, n: nat)
    requires n <= TWO_64
    ensures RunsAgreeAt(accept, drain, n)
  {
    if n == 0 {
      StartAgrees(accept, drain);
    } else {
      RunsAgree(accept, drain, n - 1);
      NextAgrees(accept, drain, n - 1);
    }
  }

  /** For every acceptance rule and drain pattern the two designs deliver the same ids, report the same gap with each,
      and accumulate the same sum. */
  lemma DesignsAgree(accept: seq<RingOp> -> bool, drain: nat -> bool, n: nat)
    requires n <= TWO_64
    ensures DerivedRun(accept, drain, n).acc == StampedRun(accept, drain, n).acc
    ensures SameReports(DerivedRun(accept, drain, n).log, StampedRun(accept, drain, n).log)
  {
    RunsAgree(accept, drain, n);
  }

  function StampedGaps(ring: seq<Envelope>): nat {
    if ring == [] then 0 else ring[0].gapCount + StampedGaps(ring[1..])
  }

  lemma {:induction false} RingSpans(ring: seq<Envelope>, next: nat)
    requires WellStamped(ring, next)
    ensures next + |ring| + StampedGaps(ring) == EndOf(ring, next)
  {
    if ring != [] {
      RingSpans(ring[1..], ring[0].id + 1);
    }
  }

  /** The log of a design accounts for all ids before the consumer's `next`, each exactly once, in order. */
  ghost predicate Gapless(log: seq<Delivery>, next: nat)
    decreases |log|
  {
    if log == [] then next == 0
    else
      var x := log[|log| - 1];
      && x.id + 1 == next && x.count <= x.id && (x.count > 0 ==> x.first == x.id - x.count)
      && Gapless(log[..|log| - 1], x.id - x.count)
  }

  lemma {:induction false} DrainGapless(d: Derived, b: Stamped, i: nat)
    requires Related(d, b, i) && i <= TWO_64 && Gapless(d.log, d.next)
    ensures Gapless(DerivedDrain(d).log, DerivedDrain(d).next)
    decreases |b.ring|
  {
    if b.ring != [] {
      PopRelated(d, b, i);
      var d' := DerivedPop(d);
      assert b.ring[0].id < i && Minus(b.ring[0].id, d.next) == b.ring[0].id - d.next;
      assert d'.log[..|d'.log| - 1] == d.log;
      DrainGapless(d', StampedPop(b), i);
    }
  }

  lemma {:induction false} GaplessCounts(log: seq<Delivery>, next: nat)
    requires Gapless(log, next)
    ensures |log| + Reported(log) == next
    decreases |log|
  {
    if log != [] {
      var x := log[|log| - 1];
      GaplessCounts(log[..|log| - 1], x.id - x.count);
    }
  }

  lemma {:induction false} SameReportedSum(a: seq<Delivery>, b: seq<Delivery>)
    requires SameReports(a, b)
    ensures Reported(a) == Reported(b)
    decreases |a|
  {
    if a != [] {
      SameReportedSum(a[..|a| - 1], b[..|b| - 1]);
    }
  }

  /** Nothing is lost from the books: delivered messages, reported gaps, messages still in the ring with the gaps stamped
      on them, and drops not stamped yet make up exactly the published messages.  And the deliveries with their gaps
      tile the ids in order. */
  lemma EverythingAccounted(accept: seq<RingOp> -> bool, drain: nat -> bool, n: nat)
    requires n <= TWO_64
    ensures var b := StampedRun(accept, drain, n);
      |b.log| + Reported(b.log) + |b.ring| + StampedGaps(b.ring) + b.pend == n
    ensures Gapless(DerivedRun(accept, drain, n).log, DerivedRun(accept, drain, n).next)
  {
    var d, b := DerivedRun(accept, drain, n), StampedRun(accept, drain, n);
    RunsAgree(accept, drain, n);
    GaplessCounts(d.log, d.next);
    SameReportedSum(d.log, b.log);
    RingSpans(b.ring, d.next);
  }

  // ------------------------------------------------------------------------------------------------
  // What gets through
  // ------------------------------------------------------------------------------------------------

  function Pushes(ops: seq<RingOp>): nat {
    if ops == [] then 0 else Pushes(ops[..|ops| - 1]) + if ops[|ops| - 1].Push? then 1 else 0
  }

  /** The messages whose push was accepted: message `i` is the `i`-th to be pushed. */
  function Accepted(ops: seq<RingOp>): seq<nat> {
    if ops == [] then []
    else Accepted(ops[..|ops| - 1]) + if ops[|ops| - 1] == Push(true) then [Pushes(ops[..|ops| - 1])] else []
  }

  /** Every push was answered by the acceptance rule. */
  ghost predicate Obeys(accept: seq<RingOp> -> bool, ops: seq<RingOp>) {
    forall k {:trigger ops[k]} :: 0 <= k < |ops| && ops[k].Push? ==> ops[k].ok == accept(ops[..k])
  }

  function LogIds(log: seq<Delivery>): seq<nat> { seq(|log|, k requires 0 <= k < |log| => log[k].id) }

  /** After `n` pushes, what was delivered and what is in the ring is what was accepted, in order. */
  ghost predicate Through(accept: seq<RingOp> -> bool, s: Derived, n: nat) {
    && Obeys(accept, s.ops) && Pushes(s.ops) == n && |s.ops| == n + |s.log|
    && LogIds(s.log) + s.ring == Accepted(s.ops)
  }

  lemma OneMoreOp(accept: seq<RingOp> -> bool, ops: seq<RingOp>, op: RingOp)
    requires Obeys(accept, ops) && (op.Push? ==> op.ok == accept(ops))
    ensures Obeys(accept, ops + [op])
    ensures Pushes(ops + [op]) == Pushes(ops) + (if op.Push? then 1 else 0)
    ensures Accepted(ops + [op]) == Accepted(ops) + if op == Push(true) then [Pushes(ops)] else []
  {
    var more := ops + [op];
    assert more[..|ops|] == ops;
    forall k {:trigger more[k]} | 0 <= k < |more| && more[k].Push?
      ensures more[k].ok == accept(more[..k])
    {
      if k < |ops| { assert more[k] == ops[k] && more[..k] == ops[..k]; }
    }
  }

  lemma PushGoesThrough(accept: seq<RingOp> -> bool, s: Derived, n: nat)
    requires Through(accept, s, n)
    ensures Through(accept, DerivedPush(accept, s, n), n + 1)
  {
    var ok := accept(s.ops);
    OneMoreOp(accept, s.ops, Push(ok));
    if ok { Associate(LogIds(s.log), s.ring, [n]); }
  }

  lemma PopGoesThrough(accept: seq<RingOp> -> bool, s: Derived, n: nat)
    requires Through(accept, s, n) && s.ring != []
    ensures Through(accept, DerivedPop(s), n)
  {
    OneMoreOp(accept, s.ops, Pop);
    var s' := DerivedPop(s);
    assert LogIds(s'.log) == LogIds(s.log) + [s.ring[0]];
    Associate(LogIds(s.log), [s.ring[0]], s.ring[1..]);
    assert [s.ring[0]] + s.ring[1..] == s.ring;
  }

  lemma {:induction false} DrainGoesThrough(accept: seq<RingOp> -> bool, s: Derived, n: nat)
    requires Through(accept, s, n)
    ensures Through(accept, DerivedDrain(s), n) && DerivedDrain(s).ring == []
    decreases |s.ring|
  {
    if s.ring != [] {
      PopGoesThrough(accept, s, n);
      DrainGoesThrough(accept, DerivedPop(s), n);
    }
  }

  ghost predicate ThroughAt(accept: seq<RingOp> -> bool, drain: nat -> bool, n: nat) {
    Through(accept, DerivedRun(accept, drain, n), n)
  }

  lemma TurnGoesThrough(accept: seq<RingOp> -> bool, drain: nat -> bool, s: Derived, n: nat)
    requires Through(accept, s, n)
    ensures Through(accept, DerivedTurn(accept, drain, s, n), n + 1)
    ensures drain(n) ==> DerivedTurn(accept, drain, s, n).ring == []
    ensures !drain(n) ==> DerivedTurn(accept, drain, s, n).log == s.log
  {
    PushGoesThrough(accept, s, n);
    DrainGoesThrough(accept, DerivedPush(accept, s, n), n + 1);
  }

  lemma {:induction false} DerivedGoesThrough(accept: seq<RingOp> -> bool, drain: nat -> bool, n: nat)
    ensures ThroughAt(accept, drain, n)
  {
    if n > 0 {
      DerivedGoesThrough(accept, drain, n - 1);
      TurnGoesThrough(accept, drain, DerivedRun(accept, drain, n - 1), n - 1);
    }
  }

  /** The derived design delivers, in order, exactly what the ring accepted and no longer holds, and a turn that drains
      leaves nothing behind while any other delivers nothing. */
  lemma DeliversAccepted(accept: seq<RingOp> -> bool, drain: nat -> bool, n: nat)
    ensures Through(accept, DerivedRun(accept, drain, n), n)
    ensures n > 0 && drain(n - 1) ==> DerivedRun(accept, drain, n).ring == []
    ensures n > 0 && !drain(n - 1) ==> DerivedRun(accept, drain, n).log == DerivedRun(accept, drain, n - 1).log
  {
    DerivedGoesThrough(accept, drain, n);
    if n > 0 {
      DerivedGoesThrough(accept, drain, n - 1);
      TurnGoesThrough(accept, drain, DerivedRun(accept, drain, n - 1), n - 1);
    }
  }

  lemma GoesThroughToo(accept: seq<RingOp> -> bool, d: Derived, b: Stamped, n: nat)
    requires Related(d, b, n) && Through(accept, d, n)
    ensures Obeys(accept, b.ops) && Pushes(b.ops) == n && LogIds(b.log) + Ids(b.ring) == Accepted(b.ops)
    ensures |b.log| == |d.log| && |b.ring| == |d.ring|
  {
    forall k | 0 <= k < |d.log|
      ensures d.log[k].id == b.log[k].id
    {
      assert SameReport(d.log[k], b.log[k]);
    }
    assert LogIds(d.log) == LogIds(b.log);
  }

  ghost predicate StampedThrough(accept: seq<RingOp> -> bool, b: Stamped, n: nat) {
    Obeys(accept, b.ops) && Pushes(b.ops) == n && LogIds(b.log) + Ids(b.ring) == Accepted(b.ops)
  }

  lemma StampedFollows(accept: seq<RingOp> -> bool, d: Derived, b: Stamped, n: nat)
    requires Agree(d, b, n) && Through(accept, d, n)
    ensures StampedThrough(accept, b, n) && |b.log| == |d.log| && |b.ring| == |d.ring|
  {
    GoesThroughToo(accept, d, b, n);
  }

  lemma StampedFollowsAt(accept: seq<RingOp> -> bool, drain: nat -> bool, n: nat)
    requires n <= TWO_64
    ensures StampedThrough(accept, StampedRun(accept, drain, n), n)
    ensures |StampedRun(accept, drain, n).log| == |DerivedRun(accept, drain, n).log|
    ensures |StampedRun(accept, drain, n).ring| == |DerivedRun(accept, drain, n).ring|
  {
    DerivedGoesThrough(accept, drain, n);
    RunsAgree(accept, drain, n);
    StampedFollows(accept, DerivedRun(accept, drain, n), StampedRun(accept, drain, n), n);
  }

  /** So does the stamped design. */
  lemma StampedDeliversAccepted(accept: seq<RingOp> -> bool, drain: nat -> bool, n: nat)
    requires n <= TWO_64
    ensures StampedThrough(accept, StampedRun(accept, drain, n), n)
    ensures n > 0 && drain(n - 1) ==> StampedRun(accept, drain, n).ring == []
    ensures n > 0 && !drain(n - 1) ==> |StampedRun(accept, drain, n).log| == |StampedRun(accept, drain, n - 1).log|
  {
    DeliversAccepted(accept, drain, n);
    StampedFollowsAt(accept, drain, n);
    if n > 0 { StampedFollowsAt(accept, drain, n - 1); }
  }
}
