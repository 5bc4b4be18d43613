/**
 The intrusive multi-producer, single-consumer queue `BatchQueue`, at the grain of its atomic
 accesses.  Any number of producers run `push_chain`, one consumer runs `pop`; every load, store and
 exchange on a shared link or on `tail_` is one step of the transition system, and steps of
 different threads interleave freely (sequential consistency).  Accesses to `head_` and to private
 locals belong to the step that precedes or follows them.
 */
module MpscQueue {
  import opened Basics

  /** `Desc(o, s)` is slot `s` of the descriptor array owned by `o`. */
  datatype Node = Stub | Desc(owner: nat, slot: nat)

  /** The consumer also runs `push_chain`, to put the stub back. */
  datatype Agent = Producer(id: nat) | Consumer

  /** Where a thread stands in `push_chain`.  `Filling` covers the stores to links of the private chain
      (the caller's links and the closing null); `Linking` is the window between the exchange of
      `tail_` and the store to `prev->link.next`. */
  datatype PushPc =
    | Filling(chain: seq<Node>, stored: nat)
    | Linking(prev: Node, first: Node)

  /** The next shared access of the consumer inside `pop`. */
  datatype PopPc =
    | Idle
    | Reload(front: Node)
    | CheckTail(front: Node)
    | Repush(front: Node)
    | FinalLoad(front: Node)

  /** The three places where `pop` gives up. */
  datatype NullSite = StubUnlinked | TailMoved | LinkPending

  datatype Outcome = Running | Null(site: NullSite) | Got(node: Node)

  /** `next` holds the non-null links.  `exchanged` lists the user nodes in the order in which they passed
      the exchange of `tail_`, `returned` the nodes `pop` has handed out; both are history. */
  datatype Queue = Queue(
    next: map<Node, Node>,
    head: Node,
    tail: Node,
    push: map<Agent, PushPc>,
    pop: PopPc,
    exchanged: seq<Node>,
    returned: seq<Node>)

  datatype Label =
    | Begin(p: nat, chain: seq<Node>)
    | Store(a: Agent)
    | Exchange(a: Agent)
    | Link(a: Agent)
    | PopNext

  const Initial: Queue := Queue(map[], Stub, Stub, map[], Idle, [], [])

  function Users(s: seq<Node>): seq<Node> {
    if s == [] then []
    else (if s[0] == Stub then [] else [s[0]]) + Users(s[1..])
  }

  /** User nodes published and not yet handed out. */
  function Pending(q: Queue): seq<Node> {
    if |q.returned| <= |q.exchanged| then q.exchanged[|q.returned|..] else []
  }

  /** A producer may put `n` in a chain: it is nowhere in the queue and in nobody's private chain. */
  predicate Free(q: Queue, n: Node) {
    n != Stub && n !in Pending(q) &&
    forall a <- q.push :: q.push[a].Filling? ==> n !in q.push[a].chain
  }

  ghost predicate Enabled(q: Queue, l: Label) {
    match l
    case Begin(p, chain) =>
      Producer(p) !in q.push && chain != [] && Distinct(chain) && forall n <- chain :: Free(q, n)
    case Store(a) => a in q.push && q.push[a].Filling? && q.push[a].stored < |q.push[a].chain|
    case Exchange(a) =>
      a in q.push && q.push[a].Filling? && q.push[a].chain != [] && q.push[a].stored == |q.push[a].chain|
    case Link(a) => a in q.push && q.push[a].Linking? && (a == Consumer ==> q.pop.Repush?)
    case PopNext => !q.pop.Repush?
  }

  function Apply(q: Queue, l: Label): Queue
    requires Enabled(q, l)
  {
    match l
    case Begin(p, chain) => q.(push := q.push[Producer(p) := Filling(chain, 0)])
    case Store(a) => ApplyStore(q, a)
    case Exchange(a) => ApplyExchange(q, a)
    case Link(a) => ApplyLink(q, a)
    case PopNext => PopStep(q).0
  }

  /** Stores the next private link, or the null that ends the chain. */
  function ApplyStore(q: Queue, a: Agent): Queue
    requires Enabled(q, Store(a))
  {
    var Filling(chain, j) := q.push[a];
    q.(next := if j + 1 < |chain| then q.next[chain[j] := chain[j + 1]] else q.next - {chain[j]},
       push := q.push[a := Filling(chain, j + 1)])
  }

  function ApplyExchange(q: Queue, a: Agent): Queue
    requires Enabled(q, Exchange(a))
  {
    var chain := q.push[a].chain;
    q.(tail := chain[|chain| - 1],
       push := q.push[a := Linking(q.tail, chain[0])],
       exchanged := q.exchanged + Users(chain))
  }

  function ApplyLink(q: Queue, a: Agent): Queue
    requires Enabled(q, Link(a))
  {
    var Linking(prev, first) := q.push[a];
    q.(next := q.next[prev := first],
       push := q.push - {a},
       pop := if a == Consumer then FinalLoad(q.pop.front) else q.pop)
  }

  /** One shared load of `pop` and the local work up to the next one. */
  function PopStep(q: Queue): (Queue, Outcome)
    requires Enabled(q, PopNext)
  {
    match q.pop
    case Idle =>
      if q.head != Stub then TakeOrCheck(q, q.head)
      else if Stub !in q.next then (q, Null(StubUnlinked))
      else (q.(head := q.next[Stub], pop := Reload(q.next[Stub])), Running)
    case Reload(front) => TakeOrCheck(q, front)
    case CheckTail(front) =>
      if front != q.tail then (q.(pop := Idle), Null(TailMoved))
      else (q.(pop := Repush(front), push := q.push[Consumer := Filling([Stub], 0)]), Running)
    case FinalLoad(front) =>
      if front in q.next then Take(q, front) else (q.(pop := Idle), Null(LinkPending))
  }

  function TakeOrCheck(q: Queue, front: Node): (Queue, Outcome) {
    if front in q.next then Take(q, front) else (q.(pop := CheckTail(front)), Running)
  }

  function Take(q: Queue, front: Node): (Queue, Outcome)
    requires front in q.next
  {
    (q.(head := q.next[front], pop := Idle, returned := q.returned + [front]), Got(front))
  }

  // ------------------------------------------------------------------------------------------------
  // The invariant
  // ------------------------------------------------------------------------------------------------

  /** Element `i` of `list` is joined to the next one: by the link in the heap, or by a thread that has exchanged
      `tail_` and is about to store that link. */
  ghost predicate JoinedAt(q: Queue, list: seq<Node>, i: nat)
    requires i + 1 < |list|
  {
    if list[i] in q.next then q.next[list[i]] == list[i + 1]
    else exists a :: a in q.push && q.push[a] == Linking(list[i], list[i + 1])
  }

  /** `list` is the logical queue from `head_` to `tail_`. */
  ghost predicate Chained(q: Queue, list: seq<Node>) {
    && |list| > 0 && list[0] == q.head && list[|list| - 1] == q.tail
    && Distinct(list)
    && q.tail !in q.next
    && forall i {:trigger JoinedAt(q, list, i)} :: 0 <= i < |list| - 1 ==> JoinedAt(q, list, i)
  }

  ghost predicate AdjacentAt(list: seq<Node>, i: int, x: Node, y: Node) {
    0 <= i < |list| - 1 && list[i] == x && list[i + 1] == y
  }

  ghost predicate Adjacent(list: seq<Node>, x: Node, y: Node) {
    exists i :: AdjacentAt(list, i, x, y)
  }

  /** Every thread between exchange and link is responsible for one missing link, and no two for the same. */
  ghost predicate LinkersOwnGaps(q: Queue, list: seq<Node>) {
    && (forall a :: a in q.push && q.push[a].Linking? ==>
          q.push[a].prev !in q.next && Adjacent(list, q.push[a].prev, q.push[a].first))
    && (forall a, b :: a in q.push && b in q.push && a != b && q.push[a].Linking? && q.push[b].Linking? ==>
          q.push[a].prev != q.push[b].prev)
  }

  ghost predicate StoredAt(q: Queue, chain: seq<Node>, j: nat)
    requires j < |chain|
  {
    if j + 1 < |chain| then chain[j] in q.next && q.next[chain[j]] == chain[j + 1]
    else chain[j] !in q.next
  }

  ghost predicate ChainStored(q: Queue, chain: seq<Node>, stored: nat) {
    stored <= |chain| &&
    forall j {:trigger StoredAt(q, chain, j)} :: 0 <= j < stored ==> StoredAt(q, chain, j)
  }

  ghost predicate PrivateChain(q: Queue, list: seq<Node>, a: Agent, chain: seq<Node>, stored: nat) {
    && chain != [] && Distinct(chain)
    && ChainStored(q, chain, stored)
    && (forall n <- chain :: n !in list)
    && (if a == Consumer then chain == [Stub] else Stub !in chain)
  }

  ghost predicate PrivateChains(q: Queue, list: seq<Node>) {
    && (forall a :: a in q.push && q.push[a].Filling? ==>
          PrivateChain(q, list, a, q.push[a].chain, q.push[a].stored))
    && (forall a, b, n ::
          (a in q.push && b in q.push && a != b && q.push[a].Filling? && q.push[b].Filling? && n in q.push[a].chain)
          ==> n !in q.push[b].chain)
  }

  ghost predicate PopPlaced(q: Queue, list: seq<Node>) {
    && (q.pop.Repush? <==> Consumer in q.push)
    && (!q.pop.Idle? ==> q.pop.front == q.head && q.head != Stub)
    && (q.pop.Reload? ==> Stub !in list)
    && (q.pop.FinalLoad? ==> |list| > 1)
  }

  ghost predicate Inv(q: Queue, list: seq<Node>) {
    && Chained(q, list) && LinkersOwnGaps(q, list) && PrivateChains(q, list) && PopPlaced(q, list)
    && q.exchanged == q.returned + Users(list)
  }

  /** The list after a step. */
  ghost function NextList(q: Queue, list: seq<Node>, l: Label): seq<Node>
    requires Inv(q, list) && Enabled(q, l)
  {
    match l
    case Exchange(a) => list + q.push[a].chain
    case PopNext => if PopStep(q).0.head != q.head then list[1..] else list
    case _ => list
  }

  lemma UsersConcat(s: seq<Node>, t: seq<Node>)
    ensures Users(s + t) == Users(s) + Users(t)
  {
    if s == [] {
      assert s + t == t;
    } else {
      assert (s + t)[1..] == s[1..] + t;
      UsersConcat(s[1..], t);
    }
  }

  lemma UsersOfOne(n: Node)
    ensures Users([n]) == if n == Stub then [] else [n]
  {
    assert [n][1..] == [];
  }

  lemma UsersMembers(s: seq<Node>, n: Node)
    ensures n in Users(s) <==> n != Stub && n in s
  {
    if s != [] { UsersMembers(s[1..], n); }
  }

  lemma UsersOfProper(s: seq<Node>)
    requires Stub !in s
    ensures Users(s) == s
  {
    if s != [] { UsersOfProper(s[1..]); }
  }

  lemma PendingIsList(q: Queue, list: seq<Node>)
    requires Inv(q, list)
    ensures Pending(q) == Users(list)
  {
  }

  lemma InitialInv()
    ensures Inv(Initial, [Stub])
  {
    assert Users([Stub]) == [];
  }

  /** A step that leaves the links of `list` and the linking threads alone keeps the chain. */
  lemma SameChain(q: Queue, q': Queue, list: seq<Node>)
    requires Chained(q, list) && LinkersOwnGaps(q, list)
    requires q'.head == q.head && q'.tail == q.tail
    requires forall n <- list :: if n in q.next then n in q'.next && q'.next[n] == q.next[n] else n !in q'.next
    requires forall a :: a in q.push && q.push[a].Linking? <==> a in q'.push && q'.push[a].Linking?
    requires forall a :: a in q.push && q.push[a].Linking? ==> q'.push[a] == q.push[a]
    ensures Chained(q', list) && LinkersOwnGaps(q', list)
  {
    assert q.tail in list;
    forall i | 0 <= i < |list| - 1
      ensures JoinedAt(q', list, i)
    {
      assert JoinedAt(q, list, i);
      assert list[i] in list;
    }
    forall a | a in q'.push && q'.push[a].Linking?
      ensures q'.push[a].prev !in q'.next && Adjacent(list, q'.push[a].prev, q'.push[a].first)
    {
      var i :| AdjacentAt(list, i, q.push[a].prev, q.push[a].first);
      assert list[i] in list;
    }
  }

  lemma BeginKeeps(q: Queue, list: seq<Node>, p: nat, chain: seq<Node>)
    requires Inv(q, list) && Enabled(q, Begin(p, chain))
    ensures Inv(Apply(q, Begin(p, chain)), list)
  {
    var q' := Apply(q, Begin(p, chain));
    SameChain(q, q', list);
    assert Stub !in chain;
    forall n | n in chain
      ensures n !in list
    {
      assert Free(q, n);
      PendingIsList(q, list);
      UsersMembers(list, n);
    }
    forall a | a in q'.push && q'.push[a].Filling?
      ensures PrivateChain(q', list, a, q'.push[a].chain, q'.push[a].stored)
    {
      if a != Producer(p) {
        assert PrivateChain(q, list, a, q.push[a].chain, q.push[a].stored);
        SameStored(q, q', q.push[a].chain, q.push[a].stored);
      }
    }
  }

  lemma SameStored(q: Queue, q': Queue, chain: seq<Node>, stored: nat)
    requires ChainStored(q, chain, stored)
    requires forall n <- chain :: if n in q.next then n in q'.next && q'.next[n] == q.next[n] else n !in q'.next
    ensures ChainStored(q', chain, stored)
  {
    forall j | 0 <= j < stored
      ensures StoredAt(q', chain, j)
    {
      assert StoredAt(q, chain, j);
      assert chain[j] in chain;
    }
  }

  lemma OneMoreStored(q: Queue, q': Queue, chain: seq<Node>, j: nat)
    requires j < |chain| && Distinct(chain) && ChainStored(q, chain, j)
    requires q'.next == if j + 1 < |chain| then q.next[chain[j] := chain[j + 1]] else q.next - {chain[j]}
    ensures ChainStored(q', chain, j + 1)
  {
    forall i | 0 <= i < j + 1
      ensures StoredAt(q', chain, i)
    {
      assert i < j ==> StoredAt(q, chain, i) && chain[i] != chain[j];
    }
  }

  lemma StoreKeeps(q: Queue, list: seq<Node>, a: Agent)
    requires Inv(q, list) && Enabled(q, Store(a))
    ensures Inv(Apply(q, Store(a)), list)
  {
    var q' := Apply(q, Store(a));
    var Filling(chain, j) := q.push[a];
    assert PrivateChain(q, list, a, chain, j);
    assert chain[j] in chain;
    SameChain(q, q', list);
    forall b | b in q'.push && q'.push[b].Filling?
      ensures PrivateChain(q', list, b, q'.push[b].chain, q'.push[b].stored)
    {
      if b == a {
        OneMoreStored(q, q', chain, j);
      } else {
        assert PrivateChain(q, list, b, q.push[b].chain, q.push[b].stored);
        assert chain[j] !in q.push[b].chain;
        SameStored(q, q', q.push[b].chain, q.push[b].stored);
      }
    }
  }

  lemma ExchangeChained(q: Queue, list: seq<Node>, a: Agent)
    requires Inv(q, list) && Enabled(q, Exchange(a))
    ensures Chained(ApplyExchange(q, a), list + q.push[a].chain)
  {
    var q' := ApplyExchange(q, a);
    var chain := q.push[a].chain;
    var list' := list + chain;
    assert PrivateChain(q, list, a, chain, |chain|);
    forall i | 0 <= i < |list'| - 1
      ensures JoinedAt(q', list', i)
    {
      if i < |list| - 1 {
        assert JoinedAt(q, list, i);
        if list[i] !in q.next {
          var b :| b in q.push && q.push[b] == Linking(list[i], list[i + 1]);
          assert b in q'.push && q'.push[b] == Linking(list'[i], list'[i + 1]);
        }
      } else if i == |list| - 1 {
        assert a in q'.push && q'.push[a] == Linking(list'[i], list'[i + 1]);
      } else {
        assert StoredAt(q, chain, i - |list|);
      }
    }
    assert StoredAt(q, chain, |chain| - 1);
    forall i, j | 0 <= i < j < |list'|
      ensures list'[i] != list'[j]
    {
      if i < |list| <= j {
        assert list'[j] == chain[j - |list|] && list'[j] in chain;
        assert list'[i] == list[i] && list'[i] in list;
      }
    }
  }

  lemma ExchangeLinkers(q: Queue, list: seq<Node>, a: Agent)
    requires Inv(q, list) && Enabled(q, Exchange(a))
    ensures LinkersOwnGaps(ApplyExchange(q, a), list + q.push[a].chain)
  {
    var q' := ApplyExchange(q, a);
    var list' := list + q.push[a].chain;
    forall b | b in q'.push && q'.push[b].Linking?
      ensures q'.push[b].prev !in q'.next && Adjacent(list', q'.push[b].prev, q'.push[b].first)
      ensures b != a ==> q'.push[b].prev != q.tail
    {
      if b == a {
        assert AdjacentAt(list', |list| - 1, q.tail, q.push[a].chain[0]);
      } else {
        var i :| AdjacentAt(list, i, q.push[b].prev, q.push[b].first);
        assert AdjacentAt(list', i, q.push[b].prev, q.push[b].first);
      }
    }
  }

  lemma ExchangeKeeps(q: Queue, list: seq<Node>, a: Agent)
    requires Inv(q, list) && Enabled(q, Exchange(a))
    ensures Inv(Apply(q, Exchange(a)), list + q.push[a].chain)
  {
    var q' := ApplyExchange(q, a);
    var chain := q.push[a].chain;
    var list' := list + chain;
    ExchangeChained(q, list, a);
    ExchangeLinkers(q, list, a);
    UsersConcat(list, chain);
    assert PrivateChain(q, list, a, chain, |chain|);
    forall b | b in q'.push && q'.push[b].Filling?
      ensures PrivateChain(q', list', b, q'.push[b].chain, q'.push[b].stored)
    {
      assert PrivateChain(q, list, b, q.push[b].chain, q.push[b].stored);
      SameStored(q, q', q.push[b].chain, q.push[b].stored);
    }
  }

  lemma LinkChained(q: Queue, list: seq<Node>, a: Agent)
    requires Inv(q, list) && Enabled(q, Link(a))
    ensures Chained(ApplyLink(q, a), list) && LinkersOwnGaps(ApplyLink(q, a), list)
    ensures q.push[a].prev in list
  {
    var q' := ApplyLink(q, a);
    var Linking(prev, first) := q.push[a];
    var k :| AdjacentAt(list, k, prev, first);
    forall i | 0 <= i < |list| - 1
      ensures JoinedAt(q', list, i)
    {
      assert JoinedAt(q, list, i);
      if i != k {
        assert list[i] != list[k];
        if list[i] !in q.next {
          var b :| b in q.push && q.push[b] == Linking(list[i], list[i + 1]);
          assert b in q'.push && q'.push[b] == Linking(list[i], list[i + 1]);
        }
      }
    }
    assert list[k] != list[|list| - 1];
    forall b | b in q'.push && q'.push[b].Linking?
      ensures q'.push[b].prev !in q'.next && Adjacent(list, q'.push[b].prev, q'.push[b].first)
    {
      assert b in q.push && q.push[b] == q'.push[b];
    }
  }

  lemma LinkKeeps(q: Queue, list: seq<Node>, a: Agent)
    requires Inv(q, list) && Enabled(q, Link(a))
    ensures Inv(Apply(q, Link(a)), list)
  {
    var q' := ApplyLink(q, a);
    LinkChained(q, list, a);
    forall b | b in q'.push && q'.push[b].Filling?
      ensures PrivateChain(q', list, b, q'.push[b].chain, q'.push[b].stored)
    {
      assert b in q.push && q'.push[b] == q.push[b];
      assert PrivateChain(q, list, b, q.push[b].chain, q.push[b].stored);
      SameStored(q, q', q.push[b].chain, q.push[b].stored);
    }
  }

  /** Dropping the head is safe once its link is there: nobody holds it as `prev`. */
  lemma AdvanceKeeps(q: Queue, list: seq<Node>, q': Queue)
    requires Inv(q, list) && q.head in q.next && !q.pop.Repush?
    requires q' == q.(head := q.next[q.head], pop := q'.pop, returned := q'.returned)
    requires q'.exchanged == q'.returned + Users(list[1..])
    requires q'.pop == Idle || (q.head == Stub && q'.pop == Reload(q'.head))
    ensures |list| > 1 && Inv(q', list[1..])
  {
    var list' := list[1..];
    assert |list| > 1;
    assert JoinedAt(q, list, 0);
    forall i | 0 <= i < |list'| - 1
      ensures JoinedAt(q', list', i)
    {
      assert JoinedAt(q, list, i + 1);
    }
    forall a | a in q'.push && q'.push[a].Linking?
      ensures Adjacent(list', q'.push[a].prev, q'.push[a].first)
    {
      var i :| AdjacentAt(list, i, q.push[a].prev, q.push[a].first);
      assert AdjacentAt(list', i - 1, q.push[a].prev, q.push[a].first);
    }
    assert forall n :: n in list' ==> n in list;
    assert q.head !in list';
    forall b | b in q'.push && q'.push[b].Filling?
      ensures PrivateChain(q', list', b, q'.push[b].chain, q'.push[b].stored)
    {
      assert PrivateChain(q, list, b, q.push[b].chain, q.push[b].stored);
      SameStored(q, q', q.push[b].chain, q.push[b].stored);
    }
  }

  /** Line 66 re-inserts the stub: the queue is then just the front node, so the stub is nowhere in it. */
  lemma RepushKeeps(q: Queue, list: seq<Node>)
    requires Inv(q, list) && q.pop.CheckTail? && q.pop.front == q.tail
    ensures list == [q.head] && Inv(PopStep(q).0, list)
  {
    var q' := PopStep(q).0;
    SameChain(q, q', list);
    assert list == [q.head];
    forall b | b in q'.push && q'.push[b].Filling?
      ensures PrivateChain(q', list, b, q'.push[b].chain, q'.push[b].stored)
      ensures b != Consumer ==> b in q.push && q'.push[b] == q.push[b] && Stub !in q.push[b].chain
    {
      if b == Consumer {
        assert Stub !in list;
      } else {
        assert PrivateChain(q, list, b, q.push[b].chain, q.push[b].stored);
        SameStored(q, q', q.push[b].chain, q.push[b].stored);
      }
    }
  }

  /** The steps of `pop` that only move its program counter. */
  lemma PopInPlaceKeeps(q: Queue, list: seq<Node>, pop: PopPc)
    requires Inv(q, list) && !q.pop.Repush? && !pop.Repush?
    requires PopPlaced(q.(pop := pop), list)
    ensures Inv(q.(pop := pop), list)
  {
    var q' := q.(pop := pop);
    SameChain(q, q', list);
    forall b | b in q'.push && q'.push[b].Filling?
      ensures PrivateChain(q', list, b, q'.push[b].chain, q'.push[b].stored)
    {
      assert PrivateChain(q, list, b, q.push[b].chain, q.push[b].stored);
      SameStored(q, q', q.push[b].chain, q.push[b].stored);
    }
  }

  lemma HeadLeaves(q: Queue, list: seq<Node>)
    requires Chained(q, list) && q.head in q.next
    ensures |list| > 1 && q.next[q.head] == list[1] != list[0]
    ensures Users(list) == (if q.head == Stub then [] else [q.head]) + Users(list[1..])
  {
    assert JoinedAt(q, list, 0);
  }

  lemma PopKeeps(q: Queue, list: seq<Node>)
    requires Inv(q, list) && Enabled(q, PopNext)
    ensures Inv(Apply(q, PopNext), NextList(q, list, PopNext))
  {
    var (q', out) := PopStep(q);
    if out.Got? || q'.pop.Reload? {
      HeadLeaves(q, list);
      AdvanceKeeps(q, list, q');
    } else if q'.pop.Repush? {
      RepushKeeps(q, list);
    } else {
      PopInPlaceKeeps(q, list, q'.pop);
    }
  }

  /** Every step keeps the invariant. */
  lemma StepKeeps(q: Queue, list: seq<Node>, l: Label)
    requires Inv(q, list) && Enabled(q, l)
    ensures Inv(Apply(q, l), NextList(q, list, l))
  {
    match l
    case Begin(p, chain) => BeginKeeps(q, list, p, chain);
    case Store(a) => StoreKeeps(q, list, a);
    case Exchange(a) => ExchangeKeeps(q, list, a);
    case Link(a) => LinkKeeps(q, list, a);
    case PopNext => PopKeeps(q, list);
  }
}
