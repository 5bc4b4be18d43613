/**
 The random-fill loops: the partial-read loop around `getrandom`, against an operating system that may interrupt, deliver
 short or fail at any call, and the deterministic stream for simulations.  The mixing function `splitmix64` is not part
 of this model: it is an arbitrary function on 64-bit words.
 */
module Csprng {
  import opened Arithmetic
  import opened Basics

  newtype Byte = b: int | 0 <= b < 256

  type Word = w: nat | w < TWO_64

  /** What one call of `getrandom` does: EINTR, another error, or bytes, of which it writes as many as fit the request. */
  datatype OsCall = Interrupted | Failed | Delivered(bytes: seq<Byte>)

  /** `Waiting`: every call so far left something to do, the loop is still in its next call. */
  datatype Outcome = Filled | NoEntropy | Waiting

  function Take<T>(s: seq<T>, n: nat): seq<T> { if |s| <= n then s else s[..n] }

  /** Everything the system offers before its first failure. */
  function Offered(os: seq<OsCall>): seq<Byte> {
    if os == [] || os[0].Failed? then []
    else (if os[0].Delivered? then os[0].bytes else []) + Offered(os[1..])
  }

  ghost predicate HasFailure(os: seq<OsCall>) { exists i :: 0 <= i < |os| && os[i].Failed? }

  lemma FailureSplits(os: seq<OsCall>, i: nat)
    requires i < |os|
    ensures HasFailure(os[i..]) <==> os[i].Failed? || HasFailure(os[i + 1..])
  {
    if HasFailure(os[i + 1..]) {
      var j :| 0 <= j < |os[i + 1..]| && os[i + 1..][j].Failed?;
      assert os[i..][j + 1].Failed?;
    }
    if os[i].Failed? {
      assert os[i..][0].Failed?;
    } else if HasFailure(os[i..]) {
      var j :| 0 <= j < |os[i..]| && os[i..][j].Failed?;
      assert os[i + 1..][j - 1].Failed?;
    }
  }

  lemma OfferedSplits(os: seq<OsCall>, i: nat)
    requires i < |os|
    ensures Offered(os[i..]) ==
            if os[i].Failed? then [] else (if os[i].Delivered? then os[i].bytes else []) + Offered(os[i + 1..])
  {
    assert os[i..][0] == os[i] && os[i..][1..] == os[i + 1..];
  }

  /** The loop has put `done` of the offered bytes in place and has `rest` calls before it. */
  ghost predicate OnTrack(os: seq<OsCall>, rest: seq<OsCall>, n: nat, done: seq<Byte>) {
    && |done| <= n
    && done <= Offered(os)
    && (|done| < n ==> Offered(os) == done + Offered(rest) && (HasFailure(os) <==> HasFailure(rest)))
  }

  lemma StaysOnTrack(os: seq<OsCall>, i: nat, n: nat, done: seq<Byte>, bytes: seq<Byte>)
    requires i < |os| && OnTrack(os, os[i..], n, done) && |done| < n
    requires bytes == if os[i].Delivered? then Take(os[i].bytes, n - |done|) else []
    requires !os[i].Failed?
    ensures OnTrack(os, os[i + 1..], n, done + bytes)
  {
    OfferedSplits(os, i);
    FailureSplits(os, i);
    PrefixGrows(Offered(os), done, if os[i].Delivered? then os[i].bytes else [], Offered(os[i + 1..]), n - |done|);
  }

  lemma PrefixGrows(all: seq<Byte>, done: seq<Byte>, next: seq<Byte>, rest: seq<Byte>, room: nat)
    requires all == done + (next + rest)
    ensures done + Take(next, room) <= all
    ensures |next| <= room ==> all == (done + Take(next, room)) + rest
  {
    assert all == (done + next) + rest;
  }

  /** Where the loop ends: the span is full, no call is left, or a call failed. */
  lemma EndsOnTrack(os: seq<OsCall>, i: nat, n: nat, done: seq<Byte>)
    requires i <= |os| && OnTrack(os, os[i..], n, done)
    requires |done| == n || i == |os| || os[i].Failed?
    ensures done == Take(Offered(os), n) && (|done| == n <==> |Offered(os)| >= n)
    ensures |done| < n && i == |os| ==> !HasFailure(os)
    ensures |done| < n && i < |os| ==> HasFailure(os)
  {
    if |done| < n && i < |os| {
      OfferedSplits(os, i);
      FailureSplits(os, i);
    }
  }

  /** `s` with `bytes` written over it from position `at`. */
  function Overwrite(s: seq<Byte>, at: nat, bytes: seq<Byte>): (r: seq<Byte>)
    requires at + |bytes| <= |s|
    ensures |r| == |s|
    ensures forall j :: 0 <= j < |s| ==> r[j] == if at <= j < at + |bytes| then bytes[j - at] else s[j]
  {
    s[..at] + bytes + s[at + |bytes|..]
  }

  lemma OverwriteTwice(s: seq<Byte>, at: nat, done: seq<Byte>, bytes: seq<Byte>)
    requires at + |done| + |bytes| <= |s|
    ensures Overwrite(Overwrite(s, at, done), at + |done|, bytes) == Overwrite(s, at, done + bytes)
  {
  }

  /** The Linux loop on the span `out[lo..hi]`: the bytes in place are the first ones the system offered, in order and
      each once, nothing outside the span changes, and the loop reports success exactly when the span is full. */
  method FillFromOs(out: array<Byte>, lo: nat, hi: nat, os: seq<OsCall>) returns (result: Outcome)
    requires lo <= hi <= out.Length
    modifies out
    ensures out[..] == Overwrite(old(out[..]), lo, Take(Offered(os), hi - lo))
    ensures result == Filled <==> |Offered(os)| >= hi - lo
    ensures result == NoEntropy <==> |Offered(os)| < hi - lo && HasFailure(os)
  {
    var off, i := 0, 0;
    ghost var done: seq<Byte> := [];
    assert os[0..] == os;
    while off < hi - lo && i < |os|
      invariant |done| == off <= hi - lo && i <= |os|
      invariant out[..] == Overwrite(old(out[..]), lo, done)
      invariant OnTrack(os, os[i..], hi - lo, done)
    {
      if os[i].Failed? {
        EndsOnTrack(os, i, hi - lo, done);
        return NoEntropy;
      }
      var bytes := if os[i].Delivered? then Take(os[i].bytes, hi - lo - off) else [];
      StaysOnTrack(os, i, hi - lo, done, bytes);
      OverwriteTwice(old(out[..]), lo, done, bytes);
      if os[i].Delivered? {
        CopyIn(out, lo + off, bytes);
        off := off + |bytes|;
      }
      done, i := done + bytes, i + 1;
    }
    EndsOnTrack(os, i, hi - lo, done);
    result := if off == hi - lo then Filled else Waiting;
  }

  /** The system's own write: `bytes` at `out[at..]`. */
  method CopyIn(out: array<Byte>, at: nat, bytes: seq<Byte>)
    requires at + |bytes| <= out.Length
    modifies out
    ensures out[..] == Overwrite(old(out[..]), at, bytes)
  {
    for k := 0 to |bytes|
      invariant forall j :: 0 <= j < out.Length ==>
                  out[j] == if at <= j < at + k then bytes[j - at] else old(out[j])
    {
      out[at + k] := bytes[k];
    }
  }

  // ------------------------------------------------------------------------------------------------
  // The simulation stream
  // ------------------------------------------------------------------------------------------------

  const GOLDEN: Word := 0x9E37_79B9_7F4A_7C15

  /** The state after `k` words. */
  function Advance(state: Word, k: nat): Word { (state + k * GOLDEN) % TWO_64 }

  function Pow256(k: nat): (r: nat)
    ensures r > 0
  {
    if k == 0 then 1 else 256 * Pow256(k - 1)
  }

  /** Byte `k` of a word, lowest first. */
  function ByteOf(w: Word, k: nat): Byte { (w / Pow256(k) % 256) as Byte }

  /** Byte `i` of a fill that starts in `state`. */
  function SimByte(mix: Word -> Word, state: Word, i: nat): Byte {
    ByteOf(mix(Advance(state, i / 8 + 1)), i % 8)
  }

  function SimBytes(mix: Word -> Word, state: Word, n: nat): seq<Byte> {
    seq(n, i requires 0 <= i => SimByte(mix, state, i))
  }

  function Words(n: nat): nat { (n + 7) / 8 }

  lemma AdvanceOnce(state: Word, k: nat)
    ensures (Advance(state, k) + GOLDEN) % TWO_64 == Advance(state, k + 1)
  {
    AdvanceTwice(state, k, 1);
  }

  lemma AdvanceTwice(state: Word, a: nat, b: nat)
    ensures Advance(Advance(state, a), b) == Advance(state, a + b)
  {
    var x, y := state + a * GOLDEN, b * GOLDEN;
    assert state + (a + b) * GOLDEN == x + y;
    AddMod(x, y);
  }

  lemma AddMod(x: nat, y: nat)
    ensures (x % TWO_64 + y) % TWO_64 == (x + y) % TWO_64
  {
  }

  lemma NextShift(w: Word, b: nat)
    ensures w / Pow256(b) / 256 == w / Pow256(b + 1)
  {
    DivideTwice(w, Pow256(b), 256);
  }

  /** The inner loop: as many bytes of a word as fit, lowest first. */
  method PutWord(first: Word, out: array<Byte>, at: nat, end: nat) returns (next: nat)
    requires at <= end <= out.Length
    modifies out
    ensures next == if at + 8 <= end then at + 8 else end
    ensures out[..] == Overwrite(old(out[..]), at, BytesOf(first, next - at))
  {
    var word, b := first, 0;
    next := at;
    while b < 8 && next < end
      invariant b <= 8 && next == at + b <= end && word == first / Pow256(b)
      invariant forall j :: 0 <= j < out.Length ==>
                  out[j] == if at <= j < at + b then ByteOf(first, j - at) else old(out[j])
    {
      out[next] := (word % 256) as Byte;
      NextShift(first, b);
      word := word / 256;
      b, next := b + 1, next + 1;
    }
  }

  /** Of a fill over `was` with the bytes `f`, the first `i` are in place. */
  ghost predicate Done(f: nat -> Byte, was: seq<Byte>, now: seq<Byte>, lo: nat, i: nat) {
    && |now| == |was|
    && forall j :: 0 <= j < |was| ==> now[j] == if lo <= j < lo + i then f(j - lo) else was[j]
  }

  /** `bytes` are the bytes of `f` from position `at`. */
  ghost predicate IsPart(f: nat -> Byte, at: nat, bytes: seq<Byte>) {
    forall j :: 0 <= j < |bytes| ==> bytes[j] == f(at + j)
  }

  lemma DoneMore(f: nat -> Byte, was: seq<Byte>, now: seq<Byte>, lo: nat, i: nat, bytes: seq<Byte>)
    requires Done(f, was, now, lo, i) && lo + i + |bytes| <= |was|
    requires IsPart(f, i, bytes)
    ensures Done(f, was, Overwrite(now, lo + i, bytes), lo, i + |bytes|)
  {
    var after := Overwrite(now, lo + i, bytes);
    forall j | 0 <= j < |was|
      ensures after[j] == if lo <= j < lo + i + |bytes| then f(j - lo) else was[j]
    {
      if lo + i <= j < lo + i + |bytes| { assert bytes[j - lo - i] == f(i + (j - lo - i)); }
    }
  }

  function SimStream(mix: Word -> Word, state: Word): nat -> Byte { (i: nat) => SimByte(mix, state, i) }

  lemma InWord(k: nat, j: nat)
    requires j < 8
    ensures (8 * k + j) / 8 == k && (8 * k + j) % 8 == j
  {
  }

  lemma WordOfStream(mix: Word -> Word, start: Word, k: nat, m: nat)
    requires m <= 8
    ensures IsPart(SimStream(mix, start), 8 * k, BytesOf(mix(Advance(start, k + 1)), m))
  {
    var bytes := BytesOf(mix(Advance(start, k + 1)), m);
    forall j | 0 <= j < m
      ensures bytes[j] == SimStream(mix, start)(8 * k + j)
    {
      InWord(k, j);
    }
  }

  lemma OneMoreWord(mix: Word -> Word, start: Word, was: seq<Byte>, now: seq<Byte>, lo: nat, k: nat, m: nat)
    requires Done(SimStream(mix, start), was, now, lo, 8 * k) && m <= 8 && lo + 8 * k + m <= |was|
    ensures Done(SimStream(mix, start), was,
              Overwrite(now, lo + 8 * k, BytesOf(mix(Advance(start, k + 1)), m)), lo, 8 * k + m)
  {
    WordOfStream(mix, start, k, m);
    DoneMore(SimStream(mix, start), was, now, lo, 8 * k, BytesOf(mix(Advance(start, k + 1)), m));
  }

  class SimCsprngState {
    var state: Word

    constructor (seed: Word)
      ensures state == seed
    {
      state := seed;
    }
  }

  method NextState(st: SimCsprngState, ghost start: Word, ghost k: nat)
    requires st.state == Advance(start, k)
    modifies st
    ensures st.state == Advance(start, k + 1)
  {
    AdvanceOnce(start, k);
    st.state := (st.state + GOLDEN) % TWO_64;
  }

  /** `sim_csprng_fill` on the span `out[lo..hi]`. */
  method SimFill(mix: Word -> Word, out: array<Byte>, lo: nat, hi: nat, st: SimCsprngState)
    requires lo <= hi <= out.Length
    modifies out, st
    ensures out[..] == Overwrite(old(out[..]), lo, SimBytes(mix, old(st.state), hi - lo))
    ensures st.state == Advance(old(st.state), Words(hi - lo))
    ensures st.state == (old(st.state) + (hi - lo + 7) / 8 * 0x9E37_79B9_7F4A_7C15) % 0x1_0000_0000_0000_0000
  {
    var n := hi - lo;
    ghost var start := st.state;
    var i := 0;
    ghost var k := 0;
    while i < n
      invariant i <= n && st.state == Advance(start, k) && 8 * k < n + 8
      invariant i == if 8 * k <= n then 8 * k else n
      invariant Done(SimStream(mix, start), old(out[..]), out[..], lo, i)
      decreases n - i
    {
      assert i == 8 * k;
      OneMoreWord(mix, start, old(out[..]), out[..], lo, k, if i + 8 <= n then 8 else n - i);
      NextState(st, start, k);
      var next := PutWord(mix(st.state), out, lo + i, hi);
      i, k := next - lo, k + 1;
    }
    AllDone(mix, start, old(out[..]), out[..], lo, n, k);
    StateAfter(start, n);
  }

  lemma StateAfter(start: Word, n: nat)
    ensures Advance(start, Words(n)) == (start + (n + 7) / 8 * 0x9E37_79B9_7F4A_7C15) % 0x1_0000_0000_0000_0000
  {
  }

  lemma AllDone(mix: Word -> Word, start: Word, was: seq<Byte>, now: seq<Byte>, lo: nat, n: nat, k: nat)
    requires Done(SimStream(mix, start), was, now, lo, n) && lo + n <= |was| && n <= 8 * k < n + 8
    ensures k == Words(n)
    ensures now == Overwrite(was, lo, SimBytes(mix, start, n))
  {
  }

  /** `fill_random` on the span `out[lo..hi]`, with `slot` as the installed override: with the simulation stream in the
      slot the system is never asked and the answer is always true. */
  method FillRandom(out: array<Byte>, lo: nat, hi: nat, slot: SimCsprngState?, mix: Word -> Word, os: seq<OsCall>)
      returns (result: Outcome)
    requires lo <= hi <= out.Length
    modifies out, slot
    ensures slot != null ==>
              && result == Filled
              && out[..] == Overwrite(old(out[..]), lo, SimBytes(mix, old(slot.state), hi - lo))
              && slot.state == Advance(old(slot.state), Words(hi - lo))
    ensures slot == null ==>
              && out[..] == Overwrite(old(out[..]), lo, Take(Offered(os), hi - lo))
              && (result == Filled <==> |Offered(os)| >= hi - lo)
              && (result == NoEntropy <==> |Offered(os)| < hi - lo && HasFailure(os))
  {
    if slot != null {
      SimFill(mix, out, lo, hi, slot);
      return Filled;
    }
    result := FillFromOs(out, lo, hi, os);
  }

  // ------------------------------------------------------------------------------------------------
  // Laws of the stream
  // ------------------------------------------------------------------------------------------------

  function LittleEndian(bytes: seq<Byte>): nat {
    if bytes == [] then 0 else bytes[0] as nat + 256 * LittleEndian(bytes[1..])
  }

  function BytesOf(w: Word, k: nat): seq<Byte> { seq(k, i requires 0 <= i => ByteOf(w, i)) }

  lemma BytesTail(w: Word, k: nat)
    requires k > 0
    ensures BytesOf(w, k)[0] as nat == w % 256 && BytesOf(w, k)[1..] == BytesOf(w / 256, k - 1)
  {
    forall i | 0 <= i < k - 1
      ensures ByteOf(w, i + 1) == ByteOf(w / 256, i)
    {
      DivideTwice(w, 256, Pow256(i));
    }
  }

  lemma {:induction false} BytesSpell(w: Word, k: nat)
    requires w < Pow256(k)
    ensures LittleEndian(BytesOf(w, k)) == w
  {
    if k > 0 {
      BytesTail(w, k);
      BytesSpell(w / 256, k - 1);
    }
  }

  /** Every full group of eight bytes of a fill spells, lowest byte first, the mixed state of its word. */
  lemma FillSpellsWords(mix: Word -> Word, state: Word, n: nat, k: nat)
    requires 8 * k + 8 <= n
    ensures LittleEndian(SimBytes(mix, state, n)[8 * k..8 * k + 8])
         == mix((state + (k + 1) * 0x9E37_79B9_7F4A_7C15) % 0x1_0000_0000_0000_0000)
  {
    var w := mix(Advance(state, k + 1));
    var group := SimBytes(mix, state, n)[8 * k..8 * k + 8];
    WordOfStream(mix, state, k, 8);
    GroupOfStream(SimStream(mix, state), n, 8 * k, BytesOf(w, 8));
    assert SimBytes(mix, state, n) == seq(n, i requires 0 <= i => SimStream(mix, state)(i));
    EightBytes();
    BytesSpell(w, 8);
  }

  lemma GroupOfStream(f: nat -> Byte, n: nat, at: nat, bytes: seq<Byte>)
    requires at + |bytes| <= n && IsPart(f, at, bytes)
    ensures seq(n, i requires 0 <= i => f(i))[at..at + |bytes|] == bytes
  {
  }

  lemma EightBytes()
    ensures Pow256(8) == TWO_64
  {
    assert Pow256(4) == 0x1_0000_0000;
  }

  /** The inverse of the step modulo 2^64: the step is odd. */
  const INVERSE := 0xF1DE_83E1_9937_733D

  lemma StepIsInvertible()
    ensures GOLDEN * INVERSE == 1 + 0x957B_BF35_006E_D677 * TWO_64
  {
  }

  lemma MultipleOfStep(d: int, q: int)
    requires d * GOLDEN == q * TWO_64
    ensures exists e :: d == e * TWO_64
  {
    StepIsInvertible();
    var e := q * INVERSE - d * 0x957B_BF35_006E_D677;
    assert d * GOLDEN * INVERSE == q * TWO_64 * INVERSE;
    assert d * GOLDEN * INVERSE == d * (GOLDEN * INVERSE);
    assert d * (1 + 0x957B_BF35_006E_D677 * TWO_64) == d + d * 0x957B_BF35_006E_D677 * TWO_64;
    assert d == e * TWO_64;
  }

  lemma SameRest(a: nat, b: nat, e: int)
    requires a - b == e * TWO_64
    ensures a % TWO_64 == b % TWO_64
  {
  }

  /** The states of a stream have full period: those after `a` and after `b` words are the same if and only if `a` and `b`
      are the same modulo 2^64, so no two words of a fill of fewer than 2^64 share a state. */
  lemma StatesRepeatIff(state: Word, a: nat, b: nat)
    ensures Advance(state, a) == Advance(state, b) <==> a % TWO_64 == b % TWO_64
  {
    var x, y := state + a * GOLDEN, state + b * GOLDEN;
    if Advance(state, a) == Advance(state, b) {
      var q := x / TWO_64 - y / TWO_64;
      assert x - y == q * TWO_64;
      assert x - y == (a - b) * GOLDEN;
      MultipleOfStep(a - b, q);
      var e :| a - b == e * TWO_64;
      SameRest(a, b, e);
    } else if a % TWO_64 == b % TWO_64 {
      var e := a / TWO_64 - b / TWO_64;
      assert a - b == e * TWO_64;
      assert x - y == (e * GOLDEN) * TWO_64;
      SameRest(x, y, e * GOLDEN);
    }
  }

  /** A fill of `m` bytes and then one of `n` equal a single fill of `m + n`. */
  ghost predicate Composes(mix: Word -> Word, state: Word, m: nat, n: nat) {
    SimBytes(mix, state, m) + SimBytes(mix, Advance(state, Words(m)), n) == SimBytes(mix, state, m + n)
  }

  lemma AlignedComposes(mix: Word -> Word, state: Word, m: nat, n: nat)
    requires m % 8 == 0
    ensures Composes(mix, state, m, n)
    ensures Advance(Advance(state, Words(m)), Words(n)) == Advance(state, Words(m + n))
  {
    AdvanceTwice(state, Words(m), Words(n));
    assert Words(m) == m / 8 && Words(m + n) == m / 8 + Words(n);
    forall i | 0 <= i < n
      ensures SimByte(mix, Advance(state, Words(m)), i) == SimByte(mix, state, m + i)
    {
      AdvanceTwice(state, m / 8, i / 8 + 1);
      assert (m + i) / 8 == m / 8 + i / 8 && (m + i) % 8 == i % 8;
    }
  }

  lemma ByteOfOne(k: nat)
    ensures ByteOf(1, k) == if k == 0 then 1 else 0
  {
    if k > 0 {
      assert Pow256(k) == 256 * Pow256(k - 1) >= 256;
      DivisionIs(1, Pow256(k), 0, 1);
    }
  }

  /** The law holds for every mixing function and state if and only if the first fill ends on a word boundary (or the
      second is empty): the rest of a word is thrown away at the end of a fill. */
  lemma ComposesIff(m: nat, n: nat)
    ensures (forall mix, state :: Composes(mix, state, m, n)) <==> m % 8 == 0 || n == 0
  {
    if m % 8 == 0 {
      forall mix, state
        ensures Composes(mix, state, m, n)
      {
        AlignedComposes(mix, state, m, n);
      }
    } else if n == 0 {
      forall mix, state
        ensures Composes(mix, state, m, n)
      {
        assert SimBytes(mix, Advance(state, Words(m)), 0) == [];
      }
    } else {
      var mix: Word -> Word := (w: Word) => 1;
      var two := SimBytes(mix, 0, m) + SimBytes(mix, Advance(0, Words(m)), n);
      ByteOfOne(0);
      ByteOfOne(m % 8);
      assert two[m] == ByteOf(1, 0);
      assert SimBytes(mix, 0, m + n)[m] == ByteOf(1, m % 8);
      assert !Composes(mix, 0, m, n);
    }
  }
}
