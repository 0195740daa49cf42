/**
  The semantics of the Python built-in list operations that lazylist.py
  delegates to (indexing, item assignment and deletion, insert, range and
  slicing), stated over Dafny sequences.  Slicing follows CPython's rules for
  unpacking and clamping slice bounds.
*/
module PyList {
  import opened Wrappers

  /** The exceptions the modelled code can raise. */
  datatype PyError = IndexError | ValueError | TypeError | NameError(name: string)

  /** The position that index `i` denotes in a list of length `n`, if any:
      a negative index counts from the end. */
  function Position(n: nat, i: int): (p: Option<nat>)
    ensures p.Some? <==> 0 <= n + i && i < n
    ensures p.Some? ==> p.value < n
    ensures p.Some? && i >= 0 ==> p.value == i
    ensures p.Some? && i < 0 ==> p.value == n + i
  {
    if 0 <= i < n then Some(i) else if 0 <= n + i && i < 0 then Some(n + i) else None
  }

  /** `s[i]` for an integer `i`. */
  function GetAt<T>(s: seq<T>, i: int): (r: Result<T, PyError>)
    ensures r.Failure? <==> Position(|s|, i).None?
    ensures r.Failure? ==> r.error == IndexError
    ensures r.Success? ==> r.value == s[Position(|s|, i).value]
  {
    match Position(|s|, i)
    case None => Failure(IndexError)
    case Some(p) => Success(s[p])
  }

  /** `s[i] = v` for an integer `i`: only position `i` changes. */
  function SetAt<T>(s: seq<T>, i: int, v: T): (r: Result<seq<T>, PyError>)
    ensures r.Failure? <==> Position(|s|, i).None?
    ensures r.Failure? ==> r.error == IndexError
    ensures r.Success? ==>
      var p := Position(|s|, i).value;
      && |r.value| == |s|
      && r.value[p] == v
      && forall j :: 0 <= j < |s| && j != p ==> r.value[j] == s[j]
  {
    match Position(|s|, i)
    case None => Failure(IndexError)
    case Some(p) => Success(s[p := v])
  }

  /** `del s[i]` for an integer `i`: exactly that element goes, the rest close up. */
  function DelAt<T>(s: seq<T>, i: int): (r: Result<seq<T>, PyError>)
    ensures r.Failure? <==> Position(|s|, i).None?
    ensures r.Failure? ==> r.error == IndexError
    ensures r.Success? ==>
      var p := Position(|s|, i).value;
      && |r.value| == |s| - 1
      && (forall j :: 0 <= j < p ==> r.value[j] == s[j])
      && (forall j :: p <= j < |r.value| ==> r.value[j] == s[j + 1])
  {
    match Position(|s|, i)
    case None => Failure(IndexError)
    case Some(p) => Success(s[..p] + s[p + 1..])
  }

  /** Where `s.insert(i, v)` places `v` in a list of length `n`: a negative
      index counts from the end, and the result is clamped to `0..n`. */
  function InsertPosition(n: nat, i: int): (p: nat)
    ensures p <= n
    ensures 0 <= i <= n ==> p == i
    ensures i > n ==> p == n
    ensures 0 <= n + i && i < 0 ==> p == n + i
    ensures n + i < 0 ==> p == 0
  {
    if i < 0 then (if n + i < 0 then 0 else n + i) else if i > n then n else i
  }

  /** `s.insert(i, v)`: never fails; `v` lands at the clamped position. */
  function InsertAt<T>(s: seq<T>, i: int, v: T): (r: seq<T>)
    ensures var p := InsertPosition(|s|, i);
      && |r| == |s| + 1
      && r[p] == v
      && (forall j :: 0 <= j < p ==> r[j] == s[j])
      && (forall j :: p <= j < |s| ==> r[j + 1] == s[j])
  {
    var p := InsertPosition(|s|, i);
    s[..p] + [v] + s[p..]
  }

  /** `range(a, b, s)`: the progression `a, a + s, ...` up to `b`, exclusive. */
  function Range(a: int, b: int, s: int): (r: seq<int>)
    requires s != 0
    ensures r != [] <==> (s > 0 && a < b) || (s < 0 && a > b)
    ensures r != [] ==> r[0] == a
    ensures s > 0 ==> forall x :: x in r ==> a <= x < b
    ensures s < 0 ==> forall x :: x in r ==> b < x <= a
    decreases if s > 0 then b - a else a - b
  {
    if (s > 0 && a < b) || (s < 0 && a > b) then [a] + Range(a + s, b, s) else []
  }

  /** The largest value of `range(a, b, s)`, or None when it is empty: the
      last value for a positive step, the first for a negative one. */
  function MaxVisited(a: int, b: int, s: int): (m: Option<int>)
    requires s != 0
    ensures m.None? <==> Range(a, b, s) == []
    ensures m.Some? ==> m.value in Range(a, b, s)
    ensures m.Some? ==> forall x :: x in Range(a, b, s) ==> x <= m.value
  {
    var r := Range(a, b, s);
    if r == [] then None
    else if s > 0 then RangeBelowLast(a, b, s); Some(r[|r| - 1])
    else Some(a)
  }

  /** CPython's clamping of one slice bound `x` against a length `n`. */
  function AdjustBound(n: nat, x: int, step: int): (y: int)
    requires step != 0
    ensures step > 0 ==> 0 <= y <= n
    ensures step < 0 ==> -1 <= y <= n - 1
    ensures 0 <= x && step > 0 ==> y == (if x < n then x else n)
    ensures 0 <= x && step < 0 ==> y == (if x < n then x else n - 1)
  {
    if x < 0 then
      (if x + n < 0 then (if step < 0 then -1 else 0) else x + n)
    else if x >= n then (if step < 0 then n - 1 else n)
    else x
  }

  /** The positions `s[start:stop:step]` visits in a list of length `n`, in
      order; a missing bound stands for the end the step runs from or to. */
  function SliceIndices(n: nat, start: Option<int>, stop: Option<int>, step: int): (idx: seq<int>)
    requires step != 0
    ensures forall k :: 0 <= k < |idx| ==> 0 <= idx[k] < n
  {
    var lo := if step < 0 then -1 else 0;
    var hi := if step < 0 then n - 1 else n;
    var a := if start.None? then (if step < 0 then hi else lo) else AdjustBound(n, start.value, step);
    var b := if stop.None? then (if step < 0 then lo else hi) else AdjustBound(n, stop.value, step);
    var r := Range(a, b, step);
    assert forall k :: 0 <= k < |r| ==> r[k] in r;
    r
  }

  /** The elements of `s` at positions `idx`, in that order. */
  function Pick<T>(s: seq<T>, idx: seq<int>): (r: seq<T>)
    requires forall k :: 0 <= k < |idx| ==> 0 <= idx[k] < |s|
    ensures |r| == |idx|
    ensures forall k :: 0 <= k < |idx| ==> r[k] == s[idx[k]]
  {
    seq(|idx|, k requires 0 <= k < |idx| => s[idx[k]])
  }

  /** `s[start:stop:step]`; a missing step is 1 and a zero step is a ValueError. */
  function SliceAt<T>(s: seq<T>, start: Option<int>, stop: Option<int>, step: Option<int>): (r: Result<seq<T>, PyError>)
    ensures r.Failure? <==> step == Some(0)
    ensures r.Failure? ==> r.error == ValueError
    ensures r.Success? ==>
      var idx := SliceIndices(|s|, start, stop, step.GetOr(1));
      && |r.value| == |idx|
      && forall k :: 0 <= k < |idx| ==> r.value[k] == s[idx[k]]
  {
    var st := step.GetOr(1);
    if st == 0 then Failure(ValueError) else Success(Pick(s, SliceIndices(|s|, start, stop, st)))
  }

  /** A non-empty `range` with a positive step ends in its largest value. */
  lemma {:induction false} RangeBelowLast(a: int, b: int, s: int)
    requires s > 0 && a < b
    ensures forall x :: x in Range(a, b, s) ==> x <= Range(a, b, s)[|Range(a, b, s)| - 1]
    decreases b - a
  {
    var r := Range(a, b, s);
    var r' := Range(a + s, b, s);
    assert r == [a] + r';
    if a + s < b {
      RangeBelowLast(a + s, b, s);
      assert r[|r| - 1] == r'[|r'| - 1];
      assert r'[|r'| - 1] in r';
      forall x | x in r ensures x <= r[|r| - 1] {
        if x == a {
          assert a + s <= r'[|r'| - 1];
        } else {
          assert x in r';
        }
      }
    } else {
      assert r' == [];
    }
  }

  /** A `range` with a positive step is unchanged by lowering its bound to
      any `c` that still lies above every value it visits. */
  lemma {:induction false} RangeCut(a: int, b: int, c: int, s: int)
    requires s > 0 && c <= b
    requires forall x :: x in Range(a, b, s) ==> x < c
    ensures Range(a, b, s) == Range(a, c, s)
    decreases b - a
  {
    if a < b {
      var r := Range(a, b, s);
      var r' := Range(a + s, b, s);
      assert r == [a] + r';
      assert a in r;
      forall x | x in r' ensures x < c {
        assert x in r;
      }
      RangeCut(a + s, b, c, s);
    }
  }
}
