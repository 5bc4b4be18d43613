/** Sums of counters, and division with a given quotient and remainder. */
module Arithmetic {

  lemma Below(b: nat, k: int)
    requires k >= 1
    ensures b <= b * k
  {
  }

  lemma DivisionIs(x: nat, b: nat, q: nat, r: nat)
    requires b >= 1 && r < b && x == b * q + r
    ensures x / b == q && x % b == r
  {
    var e := x / b;
    assert x == b * e + x % b;
    assert b * (e - q) == r - x % b;
    if e - q >= 1 { Below(b, e - q); } else if e - q <= -1 { Below(b, q - e); }
  }

  lemma Split(w: nat, a: nat, b: nat, q: nat, r: nat)
    requires a >= 1 && w / a == b * q + r
    ensures w == (a * b) * q + (a * r + w % a)
  {
    assert w == a * (w / a) + w % a;
    assert a * (b * q + r) == a * (b * q) + a * r;
    assert a * (b * q) == (a * b) * q;
  }

  lemma Remainder(a: nat, b: nat, r: nat, m: nat)
    requires r < b && m < a
    ensures 0 <= a * r + m < a * b
  {
    assert a * r <= a * (b - 1) == a * b - a;
  }

  /** Dividing by `a` and then by `b` is dividing by their product. */
  lemma DivideTwice(w: nat, a: nat, b: nat)
    requires a >= 1 && b >= 1
    ensures w / a / b == w / (a * b)
  {
    var q, r := w / a / b, w / a % b;
    Split(w, a, b, q, r);
    Remainder(a, b, r, w % a);
    Below(b, a);
    DivisionIs(w, a * b, q, a * r + w % a);
  }

  function Sum(s: seq<nat>): nat {
    if s == [] then 0 else s[0] + Sum(s[1..])
  }

  lemma {:induction false} SumOfUpdate(s: seq<nat>, p: nat, v: nat)
    requires p < |s|
    ensures Sum(s[p := v]) == Sum(s) - s[p] + v
  {
    if p == 0 {
      assert s[0 := v][1..] == s[1..];
    } else {
      assert s[p := v][1..] == s[1..][p - 1 := v];
      SumOfUpdate(s[1..], p - 1, v);
    }
  }

  lemma {:induction false} SumAtMost(s: seq<nat>, b: nat)
    requires forall i :: 0 <= i < |s| ==> s[i] <= b
    ensures Sum(s) <= |s| * b
    ensures Sum(s) == |s| * b ==> forall i :: 0 <= i < |s| ==> s[i] == b
  {
    if s != [] {
      var rest := s[1..];
      assert forall i :: 0 <= i < |rest| ==> rest[i] == s[i + 1];
      SumAtMost(rest, b);
      assert |s| * b == |rest| * b + b;
      if Sum(s) == |s| * b {
        forall i | 0 <= i < |s|
          ensures s[i] == b
        {
          if i > 0 { assert s[i] == rest[i - 1]; }
        }
      }
    }
  }

  lemma {:induction false} SumMonotone(s: seq<nat>, t: seq<nat>)
    requires |s| == |t| && forall i :: 0 <= i < |s| ==> s[i] <= t[i]
    ensures Sum(s) <= Sum(t)
    ensures Sum(s) == Sum(t) ==> s == t
  {
    if s != [] {
      SumMonotone(s[1..], t[1..]);
      assert s == [s[0]] + s[1..] && t == [t[0]] + t[1..];
    }
  }

  lemma {:induction false} SumAtLeast(s: seq<nat>, b: nat)
    requires forall i :: 0 <= i < |s| ==> s[i] == b
    ensures Sum(s) == |s| * b
  {
    if s != [] {
      assert forall i :: 0 <= i < |s[1..]| ==> s[1..][i] == s[i + 1];
      SumAtLeast(s[1..], b);
      assert |s| * b == |s[1..]| * b + b;
    }
  }
}
