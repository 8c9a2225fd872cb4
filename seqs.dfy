/** Sequence operations the program gets from pandas and Python: boolean-mask
    selection, `unique()`, and slicing with Python's index conventions. */
module Seqs {
  import opened Wrappers

  predicate Distinct<T(==)>(s: seq<T>) {
    forall i, j :: 0 <= i < j < |s| ==> s[i] != s[j]
  }

  /** `a` is `b` with some elements left out, the rest in their original order. */
  ghost predicate IsSubsequence<T>(a: seq<T>, b: seq<T>)
    decreases |b|
  {
    if a == [] then true
    else if b == [] then false
    else if a[0] == b[0] then IsSubsequence(a[1..], b[1..])
    else IsSubsequence(a, b[1..])
  }

  /** The elements of `s` that satisfy `p`, in order (a boolean-mask selection). */
  function Filter<T(==)>(s: seq<T>, p: T -> bool): (r: seq<T>)
    ensures |r| <= |s|
    ensures forall i :: 0 <= i < |r| ==> r[i] in s && p(r[i])
    ensures forall i :: 0 <= i < |s| && p(s[i]) ==> s[i] in r
  {
    if s == [] then []
    else (if p(s[0]) then [s[0]] else []) + Filter(s[1..], p)
  }

  lemma {:induction false} FilterIsSubsequence<T>(s: seq<T>, p: T -> bool)
    ensures IsSubsequence(Filter(s, p), s)
  {
    if s != [] {
      FilterIsSubsequence(s[1..], p);
      var r := Filter(s, p);
      if p(s[0]) {
        assert r[0] == s[0] && r[1..] == Filter(s[1..], p);
      } else {
        assert r == Filter(s[1..], p);
        SkipHead(r, s);
      }
    }
  }

  lemma {:induction false} SkipHead<T>(a: seq<T>, b: seq<T>)
    requires b != [] && IsSubsequence(a, b[1..])
    ensures IsSubsequence(a, b)
    decreases |b|, 0
  {
    if a != [] && a[0] == b[0] {
      TailIsSubsequence(a, b[1..]);
    }
  }

  lemma {:induction false} TailIsSubsequence<T>(a: seq<T>, b: seq<T>)
    requires a != [] && IsSubsequence(a, b)
    ensures IsSubsequence(a[1..], b)
    decreases |b|, 1
  {
    if a[0] != b[0] {
      TailIsSubsequence(a, b[1..]);
    }
    SkipHead(a[1..], b);
  }

  /** Position of the first occurrence of `x` in `s`. */
  function IndexOf<T(==)>(s: seq<T>, x: T): (k: nat)
    requires x in s
    ensures k < |s| && s[k] == x && x !in s[..k]
  {
    if s[0] == x then 0
    else
      var k := IndexOf(s[1..], x) + 1;
      assert s[..k] == [s[0]] + s[1..][..k - 1];
      k
  }

  /** pandas `Series.unique()`: each value once, in order of first appearance. */
  function Dedupe<T(==)>(s: seq<T>): (r: seq<T>)
    ensures forall i :: 0 <= i < |r| ==> r[i] in s
    ensures forall i :: 0 <= i < |s| ==> s[i] in r
  {
    if s == [] then []
    else
      var d := Dedupe(s[..|s| - 1]);
      if s[|s| - 1] in d then d else d + [s[|s| - 1]]
  }

  /** The values `unique()` lists are distinct and appear in the order of
      their first occurrence in the input. */
  lemma {:induction false} DedupeOrder<T>(s: seq<T>)
    ensures Distinct(Dedupe(s))
    ensures forall i, j :: 0 <= i < j < |Dedupe(s)| ==> IndexOf(s, Dedupe(s)[i]) < IndexOf(s, Dedupe(s)[j])
  {
    if s != [] {
      var init := s[..|s| - 1];
      var last := s[|s| - 1];
      var d := Dedupe(init);
      DedupeOrder(init);
      forall i | 0 <= i < |d| ensures IndexOf(s, d[i]) == IndexOf(init, d[i]) {
        FirstIndexOfPrefix(init, s, d[i]);
      }
      if last !in d {
        assert last !in init;
        assert IndexOf(s, last) == |s| - 1;
        assert Dedupe(s) == d + [last];
      }
    }
  }

  lemma FirstIndexOfPrefix<T>(init: seq<T>, s: seq<T>, x: T)
    requires x in init && init <= s
    ensures x in s && IndexOf(s, x) == IndexOf(init, x)
  {
    var k := IndexOf(init, x);
    assert s[k] == x;
  }

  /** Python's normalisation of one slice bound against a length `n`:
      a negative bound counts from the end, and the result is clamped to 0..n. */
  function SliceBound(b: int, n: nat): (k: nat)
    ensures k <= n
    ensures 0 <= b <= n ==> k == b
    ensures b < 0 && -b <= n ==> k == n + b
  {
    if b < 0 then (if b + n < 0 then 0 else b + n)
    else if b > n then n
    else b
  }

  /** Python's `s[start:stop]` (step 1); `None` stands for an omitted bound. */
  function PySlice<T>(s: seq<T>, start: Option<int>, stop: Option<int>): (r: seq<T>)
    ensures |r| <= |s|
    ensures forall i :: 0 <= i < |r| ==> r[i] in s
  {
    var lo := if start.None? then 0 else SliceBound(start.value, |s|);
    var hi := if stop.None? then |s| else SliceBound(stop.value, |s|);
    if lo < hi then s[lo..hi] else []
  }

  lemma PySliceInRange<T>(s: seq<T>, start: int, stop: int)
    requires 0 <= start <= stop <= |s|
    ensures PySlice(s, Some(start), Some(stop)) == s[start..stop]
  {
  }

  /** `s[:k]` keeps the first `k` elements for `k >= 0` and drops the last `-k` for `k < 0`. */
  lemma PySlicePrefix<T>(s: seq<T>, k: int)
    ensures k >= 0 ==> PySlice(s, None, Some(k)) == s[..if k <= |s| then k else |s|]
    ensures k < 0 ==> PySlice(s, None, Some(k)) == s[..if -k <= |s| then |s| + k else 0]
  {
  }

  /** The elements of a prefix one longer: those of the shorter one and the next. */
  lemma ElementsStep<T>(s: seq<T>, j: nat, longer: seq<T>)
    requires j < |s| && longer == s[..j + 1]
    ensures (set x | x in longer) == (set x | x in s[..j]) + {s[j]}
  {
    assert longer == s[..j] + [s[j]];
  }

  /** The dictionary `{k: value(k) for k in ks}`, filled in the order of `ks`. */
  function MapFrom<K(==), V>(ks: seq<K>, value: K -> V): map<K, V> {
    if ks == [] then map[]
    else MapFrom(ks[..|ks| - 1], value)[ks[|ks| - 1] := value(ks[|ks| - 1])]
  }

  /** Filling one more key. */
  lemma MapFromStep<K, V>(s: seq<K>, j: nat, longer: seq<K>, value: K -> V)
    requires j < |s| && longer == s[..j + 1]
    ensures MapFrom(longer, value) == MapFrom(s[..j], value)[s[j] := value(s[j])]
  {
    assert longer[..j] == s[..j];
  }

  /** Its keys are the elements of `ks`, each holding its value. */
  lemma {:induction false} MapFromContents<K, V>(ks: seq<K>, value: K -> V)
    ensures MapFrom(ks, value).Keys == set k | k in ks
    ensures forall k :: k in MapFrom(ks, value) ==> MapFrom(ks, value)[k] == value(k)
  {
    if ks != [] {
      var n := |ks| - 1;
      MapFromContents(ks[..n], value);
      ElementsStep(ks, n, ks);
    }
  }

  /** Position of the last occurrence of `x` in `s`. */
  function LastIndexOf<T(==)>(s: seq<T>, x: T): (k: nat)
    requires x in s
    ensures k < |s| && s[k] == x && x !in s[k + 1..]
  {
    if s[|s| - 1] == x then |s| - 1
    else
      var k := LastIndexOf(s[..|s| - 1], x);
      assert s[k + 1..] == s[..|s| - 1][k + 1..] + [s[|s| - 1]];
      k
  }

  /** The last occurrence in a prefix one longer: the new element, or where it was before. */
  lemma LastIndexOfStep<T>(s: seq<T>, n: nat, x: T)
    requires 0 < n <= |s| && x in s[..n]
    ensures x == s[n - 1] ==> LastIndexOf(s[..n], x) == n - 1
    ensures x != s[n - 1] ==> x in s[..n - 1] && LastIndexOf(s[..n], x) == LastIndexOf(s[..n - 1], x)
  {
    assert s[..n][..n - 1] == s[..n - 1];
    if x != s[n - 1] {
      var k :| 0 <= k < n && s[..n][k] == x;
      assert s[..n - 1][k] == x;
    }
  }
}
