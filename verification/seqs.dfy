/** Order-preserving filters and counts: what a backwards loop with `splice(i, 1)` computes. */
module Seqs {

  function Filter<T>(s: seq<T>, keep: T -> bool): (r: seq<T>)
    ensures |r| <= |s|
    ensures forall x :: x in r ==> x in s && keep(x)
    ensures forall x :: x in s && keep(x) ==> x in r
  {
    if s == [] then [] else (if keep(s[0]) then [s[0]] else []) + Filter(s[1..], keep)
  }

  function Count<T>(s: seq<T>, p: T -> bool): (n: nat)
    ensures n <= |s|
  {
    if s == [] then 0 else (if p(s[0]) then 1 else 0) + Count(s[1..], p)
  }

  /** `splice(i, 1)`: removes index `i`, and does nothing when `i` is out of range. */
  function RemoveAt<T>(s: seq<T>, i: int): (r: seq<T>)
    ensures 0 <= i < |s| ==> |r| == |s| - 1
    ensures !(0 <= i < |s|) ==> r == s
    ensures forall j :: 0 <= j < i && j < |r| ==> r[j] == s[j]
    ensures forall j :: 0 <= i <= j < |r| ==> r[j] == s[j + 1]
  {
    if 0 <= i < |s| then s[..i] + s[i + 1..] else s
  }

  /** Removing an index in range loses exactly that element and keeps the rest. */
  lemma RemoveAtLosesOne<T>(s: seq<T>, i: int)
    requires 0 <= i < |s|
    ensures multiset(RemoveAt(s, i)) + multiset{s[i]} == multiset(s)
    ensures RemoveAt(s, i) == s[..i] + s[i + 1..]
  {
    assert s == s[..i] + [s[i]] + s[i + 1..];
  }

  function Map<T, U>(s: seq<T>, f: T -> U): (r: seq<U>)
    ensures |r| == |s|
    ensures forall i :: 0 <= i < |s| ==> r[i] == f(s[i])
  {
    seq(|s|, i requires 0 <= i < |s| => f(s[i]))
  }

  /** Filtering keeps exactly the elements a complementary count does not count. */
  lemma {:induction false} FilterLength<T>(s: seq<T>, keep: T -> bool, drop: T -> bool)
    requires forall x :: drop(x) == !keep(x)
    ensures |Filter(s, keep)| + Count(s, drop) == |s|
  {
    if s != [] {
      FilterLength(s[1..], keep, drop);
    }
  }

  /** Unfolding the filter at index `i` of `s`. */
  lemma FilterAt<T>(s: seq<T>, i: nat, keep: T -> bool)
    requires i < |s|
    ensures Filter(s[i..], keep) == (if keep(s[i]) then [s[i]] else []) + Filter(s[i + 1..], keep)
  {
    assert s[i..][1..] == s[i + 1..];
  }

  /** Unfolding the count at index `i` of `s`. */
  lemma CountAt<T>(s: seq<T>, i: nat, p: T -> bool)
    requires i < |s|
    ensures Count(s[i..], p) == (if p(s[i]) then 1 else 0) + Count(s[i + 1..], p)
  {
    assert s[i..][1..] == s[i + 1..];
  }

  /** One iteration of a backwards splice loop: after index `k` is visited, the
      list is the untouched prefix followed by the filter of the visited suffix. */
  lemma SweepStep<T>(s: seq<T>, cur: seq<T>, k: nat, keep: T -> bool)
    requires k < |s|
    requires cur == s[..k + 1] + Filter(s[k + 1..], keep)
    ensures k < |cur| && cur[k] == s[k]
    ensures keep(s[k]) ==> cur == s[..k] + Filter(s[k..], keep)
    ensures !keep(s[k]) ==> RemoveAt(cur, k) == s[..k] + Filter(s[k..], keep)
  {
    var tail := Filter(s[k + 1..], keep);
    FilterAt(s, k, keep);
    assert s[..k + 1] == s[..k] + [s[k]];
    assert cur == s[..k] + [s[k]] + tail;
    assert cur[k] == s[k];
    if !keep(s[k]) {
      assert cur[..k] == s[..k];
      assert cur[k + 1..] == tail;
    }
  }

  /** A count over a sequence none of whose elements qualify is zero. */
  lemma {:induction false} CountNone<T>(s: seq<T>, p: T -> bool)
    requires forall x :: x in s ==> !p(x)
    ensures Count(s, p) == 0
  {
    if s != [] {
      assert forall x :: x in s[1..] ==> x in s;
      CountNone(s[1..], p);
    }
  }

  /** Filtering a filtered sequence again with the same test changes nothing. */
  lemma {:induction false} FilterIdempotent<T>(s: seq<T>, keep: T -> bool)
    ensures Filter(Filter(s, keep), keep) == Filter(s, keep)
  {
    if s != [] {
      FilterIdempotent(s[1..], keep);
      var head := if keep(s[0]) then [s[0]] else [];
      FilterAppend(head, Filter(s[1..], keep), keep);
      if keep(s[0]) {
        assert Filter(head, keep) == head by { assert head[1..] == []; }
      }
    }
  }

  lemma {:induction false} FilterAppend<T>(a: seq<T>, b: seq<T>, keep: T -> bool)
    ensures Filter(a + b, keep) == Filter(a, keep) + Filter(b, keep)
  {
    if a == [] {
      assert a + b == b;
    } else {
      assert (a + b)[1..] == a[1..] + b;
      FilterAppend(a[1..], b, keep);
    }
  }

  /** A backwards loop that updates every element in place with `step` and
      splices out those that are no longer `alive`. */
  method PruneSweep<T>(s: seq<T>, step: T -> T, alive: T -> bool) returns (r: seq<T>)
    ensures r == Filter(Map(s, step), alive)
  {
    var u := Map(s, step);
    r := s;
    var i := |s|;
    while i > 0
      invariant 0 <= i <= |s|
      invariant r == s[..i] + Filter(u[i..], alive)
    {
      i := i - 1;
      PruneStep(s, u, r, i, step, alive);
      var x := step(r[i]);
      r := r[..i] + [x] + r[i + 1..];
      if !alive(x) {
        r := RemoveAt(r, i);
      }
    }
    assert u[0..] == u;
  }

  /** One iteration of `PruneSweep` at index `i`: updating the element and,
      when it is dead, splicing it out extends the filtered suffix by one. */
  lemma PruneStep<T>(s: seq<T>, u: seq<T>, r: seq<T>, i: nat, step: T -> T, alive: T -> bool)
    requires i < |s| && u == Map(s, step)
    requires r == s[..i + 1] + Filter(u[i + 1..], alive)
    ensures i < |r| && r[i] == s[i]
    ensures var r1 := r[..i] + [step(s[i])] + r[i + 1..];
            (alive(step(s[i])) ==> r1 == s[..i] + Filter(u[i..], alive))
            && (!alive(step(s[i])) ==> RemoveAt(r1, i) == s[..i] + Filter(u[i..], alive))
  {
    var hybrid := s[..i] + u[i..];
    assert hybrid[..i + 1] == s[..i] + [u[i]];
    assert hybrid[i + 1..] == u[i + 1..];
    assert hybrid[..i] == s[..i];
    assert hybrid[i..] == u[i..];
    var r1 := r[..i] + [step(s[i])] + r[i + 1..];
    assert r1 == hybrid[..i + 1] + Filter(hybrid[i + 1..], alive);
    SweepStep(hybrid, r1, i, alive);
  }
}
