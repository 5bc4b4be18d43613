/** Finite runs of a transition relation. */
module Traces {

  function Last<S>(tr: seq<S>): S
    requires tr != []
  {
    tr[|tr| - 1]
  }

  /** `tr` lists the states of a run from `tr[0]`. */
  ghost predicate IsRun<S>(next: (S, S) -> bool, tr: seq<S>)
    decreases |tr|
  {
    tr != [] && (|tr| > 1 ==> IsRun(next, tr[..|tr| - 1]) && next(tr[|tr| - 2], tr[|tr| - 1]))
  }

  /** What every step keeps holds at the end of a run on which it held at the start. */
  lemma {:induction false} RunKeeps<S(!new)>(next: (S, S) -> bool, inv: S -> bool, tr: seq<S>)
    requires IsRun(next, tr) && inv(tr[0])
    requires forall s, t :: inv(s) && next(s, t) ==> inv(t)
    ensures inv(Last(tr))
    decreases |tr|
  {
    if |tr| > 1 {
      var front := tr[..|tr| - 1];
      RunKeeps(next, inv, front);
      assert next(Last(front), Last(tr));
    }
  }

  ghost predicate CanReach<S(!new)>(next: (S, S) -> bool, s: S, t: S) {
    exists tr :: IsRun(next, tr) && tr[0] == s && Last(tr) == t
  }

  lemma ExtendRun<S>(next: (S, S) -> bool, tr: seq<S>, s: S)
    requires IsRun(next, tr) && next(Last(tr), s)
    ensures IsRun(next, tr + [s]) && Last(tr + [s]) == s && (tr + [s])[0] == tr[0]
  {
    var longer := tr + [s];
    assert longer[..|longer| - 1] == tr;
  }

  lemma {:induction false} JoinRuns<S>(next: (S, S) -> bool, a: seq<S>, b: seq<S>)
    requires IsRun(next, a) && IsRun(next, b) && Last(a) == b[0]
    ensures IsRun(next, a + b[1..]) && Last(a + b[1..]) == Last(b)
    decreases |b|
  {
    if |b| == 1 {
      assert a + b[1..] == a;
    } else {
      var front := b[..|b| - 1];
      JoinRuns(next, a, front);
      assert a + b[1..] == (a + front[1..]) + [Last(b)];
      ExtendRun(next, a + front[1..], Last(b));
    }
  }

  lemma ReachSelf<S(!new)>(next: (S, S) -> bool, s: S)
    ensures CanReach(next, s, s)
  {
    var tr := [s];
    assert IsRun(next, tr) && tr[0] == s && Last(tr) == s;
  }

  lemma ReachStep<S(!new)>(next: (S, S) -> bool, s: S, t: S)
    requires next(s, t)
    ensures CanReach(next, s, t)
  {
    assert IsRun(next, [s]);
    ExtendRun(next, [s], t);
  }

  lemma ReachTransitive<S(!new)>(next: (S, S) -> bool, s: S, t: S, u: S)
    requires CanReach(next, s, t) && CanReach(next, t, u)
    ensures CanReach(next, s, u)
  {
    var a :| IsRun(next, a) && a[0] == s && Last(a) == t;
    var b :| IsRun(next, b) && b[0] == t && Last(b) == u;
    JoinRuns(next, a, b);
    var ab := a + b[1..];
    assert IsRun(next, ab) && ab[0] == s && Last(ab) == u;
  }
}
