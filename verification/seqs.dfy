/** Sequence helpers: list comprehensions with a condition (`Filter`),
    counting (`CountWhere`), duplicate removal (`Dedup`) and order-preserving
    subsequences. */
module Seqs {

  /** The elements of `s` that satisfy `p`, in order: a list comprehension
      with a condition. */
  function Filter<T(==,!new)>(s: seq<T>, p: T -> bool): (r: seq<T>)
    ensures |r| <= |s|
    ensures forall x :: x in r <==> x in s && p(x)
    ensures forall i :: 0 <= i < |r| ==> p(r[i])
  {
    if |s| == 0 then [] else (if p(s[0]) then [s[0]] else []) + Filter(s[1..], p)
  }

  lemma {:induction false} FilterAppend<T(!new)>(s: seq<T>, x: T, p: T -> bool)
    ensures Filter(s + [x], p) == Filter(s, p) + (if p(x) then [x] else [])
  {
    var tail := if p(x) then [x] else [];
    if |s| == 0 {
      assert s + [x] == [x];
      assert Filter([x], p) == tail + Filter([], p);
    } else {
      var t := s + [x];
      var head := if p(s[0]) then [s[0]] else [];
      assert t[0] == s[0];
      assert t[1..] == s[1..] + [x];
      FilterAppend(s[1..], x, p);
      assert Filter(t, p) == head + (Filter(s[1..], p) + tail);
      assert Filter(s, p) == head + Filter(s[1..], p);
    }
  }

  lemma {:induction false} FilterConcat<T(!new)>(a: seq<T>, b: seq<T>, p: T -> bool)
    ensures Filter(a + b, p) == Filter(a, p) + Filter(b, p)
  {
    if |a| == 0 {
      assert a + b == b;
    } else {
      assert (a + b)[0] == a[0];
      assert (a + b)[1..] == a[1..] + b;
      FilterConcat(a[1..], b, p);
    }
  }

  /** Nothing in `s` passes `p`: the comprehension is empty. */
  lemma {:induction false} FilterNone<T(!new)>(s: seq<T>, p: T -> bool)
    requires forall x | x in s :: !p(x)
    ensures Filter(s, p) == []
  {
    if |s| > 0 {
      assert s[0] in s;
      FilterNone(s[1..], p);
    }
  }

  /** How many elements of `s` satisfy `p`. */
  function CountWhere<T(==,!new)>(s: seq<T>, p: T -> bool): nat {
    |Filter(s, p)|
  }

  lemma CountWhereCons<T(!new)>(s: seq<T>, p: T -> bool)
    requires |s| > 0
    ensures CountWhere(s, p) == (if p(s[0]) then 1 else 0) + CountWhere(s[1..], p)
  {
    assert Filter(s, p) == (if p(s[0]) then [s[0]] else []) + Filter(s[1..], p);
  }

  /** Counts under two conditions that never hold together add up to the
      count under their disjunction `pq`. */
  lemma {:induction false} CountDisjoint<T(!new)>(s: seq<T>, p: T -> bool, q: T -> bool, pq: T -> bool)
    requires forall x :: pq(x) == (p(x) || q(x))
    requires forall x :: !(p(x) && q(x))
    ensures CountWhere(s, p) + CountWhere(s, q) == CountWhere(s, pq)
  {
    if |s| > 0 {
      CountDisjoint(s[1..], p, q, pq);
      assert Filter(s, p) == (if p(s[0]) then [s[0]] else []) + Filter(s[1..], p);
      assert Filter(s, q) == (if q(s[0]) then [s[0]] else []) + Filter(s[1..], q);
      assert Filter(s, pq) == (if pq(s[0]) then [s[0]] else []) + Filter(s[1..], pq);
    }
  }

  /** The position of the first element of `s` that satisfies `p`, or `|s|`
      when none does. */
  function FirstWhere<T>(s: seq<T>, p: T -> bool): (r: nat)
    ensures r <= |s|
    ensures r < |s| ==> p(s[r])
    ensures forall j | 0 <= j < r :: !p(s[j])
  {
    if |s| == 0 || p(s[0]) then 0
    else
      var rest := FirstWhere(s[1..], p);
      assert forall j | 1 <= j < 1 + rest :: s[j] == s[1..][j - 1];
      1 + rest
  }

  /** `a` keeps some of the elements of `b`, in `b`'s order. */
  ghost predicate IsSubsequence<T>(a: seq<T>, b: seq<T>) {
    |a| == 0
    || (|b| > 0 && (IsSubsequence(a, b[1..]) || (a[0] == b[0] && IsSubsequence(a[1..], b[1..]))))
  }

  lemma {:induction false} FilterIsSubsequence<T(!new)>(s: seq<T>, p: T -> bool)
    ensures IsSubsequence(Filter(s, p), s)
  {
    if |s| > 0 {
      var r := Filter(s, p);
      FilterIsSubsequence(s[1..], p);
      if p(s[0]) {
        assert r == [s[0]] + Filter(s[1..], p);
        assert r[0] == s[0] && r[1..] == Filter(s[1..], p);
      } else {
        assert r == Filter(s[1..], p);
      }
    }
  }

  predicate NoDuplicates<T(==)>(s: seq<T>) {
    forall i, j | 0 <= i < j < |s| :: s[i] != s[j]
  }

  lemma NoDuplicatesCons<T>(x: T, s: seq<T>)
    ensures NoDuplicates([x] + s) <==> x !in s && NoDuplicates(s)
  {
    var t := [x] + s;
    assert t[1..] == s;
    if x in s {
      var j :| 0 <= j < |s| && s[j] == x;
      assert t[0] == t[j + 1];
    }
    if NoDuplicates(s) && x !in s {
      forall i, j | 0 <= i < j < |t| ensures t[i] != t[j] {
        if i == 0 { assert t[j] == s[j - 1]; } else { assert t[i] == s[i - 1] && t[j] == s[j - 1]; }
      }
    }
  }

  /** `list(set(s))`: each element once. Python leaves the order to the
      set's hashing; this model keeps first occurrences, and nothing in the
      model depends on that order. */
  function Dedup<T(==,!new)>(s: seq<T>): (r: seq<T>)
    ensures NoDuplicates(r)
    ensures forall x :: x in r <==> x in s
    ensures |r| <= |s|
  {
    DedupFrom([], s)
  }

  function DedupFrom<T(==,!new)>(seen: seq<T>, s: seq<T>): (r: seq<T>)
    requires NoDuplicates(seen)
    ensures NoDuplicates(r)
    ensures forall x :: x in r <==> x in seen || x in s
    ensures |r| <= |seen| + |s|
    decreases |s|
  {
    if |s| == 0 then seen
    else if s[0] in seen then DedupFrom(seen, s[1..])
    else DedupFrom(seen + [s[0]], s[1..])
  }

  function Sum(s: seq<int>): int {
    if |s| == 0 then 0 else s[0] + Sum(s[1..])
  }

  /** The least element of a non-empty sequence (`min(...)`). */
  function Min(s: seq<int>): (m: int)
    requires |s| > 0
    ensures m in s
    ensures forall i :: 0 <= i < |s| ==> m <= s[i]
  {
    if |s| == 1 then s[0]
    else
      var rest := Min(s[1..]);
      assert forall i :: 1 <= i < |s| ==> s[i] == s[1..][i - 1];
      if s[0] <= rest then s[0] else rest
  }

  /** No key between position `k` and `n` equals key `k`. */
  ghost predicate LastBefore<K>(keys: seq<K>, k: int, n: int)
    requires 0 <= k < n <= |keys|
  {
    forall j | k < j < n :: keys[j] != keys[k]
  }

  /** `m` is what assigning `values[i]` under `keys[i]`, for each `i` below
      `n` in turn, leaves in an empty dict: every key seen, no other key, and under each key the value
      of its last occurrence. */
  ghost predicate Recorded<K, V>(keys: seq<K>, values: seq<V>, m: map<K, V>, n: int)
    requires 0 <= n <= |keys| == |values|
  {
    && (forall k | 0 <= k < n :: keys[k] in m)
    && (forall key | key in m :: exists k | 0 <= k < n :: keys[k] == key)
    && (forall k | 0 <= k < n && LastBefore(keys, k, n) :: m[keys[k]] == values[k])
  }

  /** One more assignment keeps `Recorded` one position further. */
  lemma RecordStep<K, V>(keys: seq<K>, values: seq<V>, m: map<K, V>, n: int)
    requires 0 <= n < |keys| == |values|
    requires Recorded(keys, values, m, n)
    ensures Recorded(keys, values, m[keys[n] := values[n]], n + 1)
  {
    var next := m[keys[n] := values[n]];
    forall k | 0 <= k < n + 1 && LastBefore(keys, k, n + 1) ensures next[keys[k]] == values[k] {
      if k < n {
        assert keys[n] != keys[k];
        assert LastBefore(keys, k, n);
      }
    }
    forall key | key in next ensures exists k | 0 <= k < n + 1 :: keys[k] == key {
      if key != keys[n] {
        assert key in m;
      }
    }
  }
}
