/**
  A mutable sequence over a forward-only producer (lazylist.py, class
  LazyList).  The list `nonlazy` holds the materialised prefix; `tail` is what
  the producer will still yield, in order, modelled as a finite sequence.  The
  logical sequence is always `nonlazy + tail`.  Every access first works out
  how much of the logical sequence it needs (its Demand), pulls exactly that
  many elements from the tail, in order, and then acts on `nonlazy` alone.
*/
module LazyLists {
  import opened Wrappers
  import opened PyList
  import Render

  /** An index as `__getitem__` and `_delazify` receive it: an integer or a
      slice object whose parts may be missing (None). */
  datatype Key = Int(i: int) | Slice(start: Option<int>, stop: Option<int>, step: Option<int>)

  /** How much of the logical sequence an access needs materialised: all of
      it, or a prefix of length `n`. */
  datatype Demand = Whole | Prefix(n: nat)

  /** A buffer `buf` in front of an unread `rest` meets demand `d`: the rest
      is exhausted, or the buffer already holds the demanded prefix. */
  predicate Covers<T>(buf: seq<T>, rest: seq<T>, d: Demand) {
    rest == [] || (d.Prefix? && |buf| >= d.n)
  }

  /** True when a slice bound is present and negative. */
  predicate NegativeBound(b: Option<int>) {
    b.Some? && b.value < 0
  }

  /** What a slice needs materialised.  A negative bound needs the length,
      so the whole sequence; so does a slice that runs to the end (no stop
      with a positive step, no start with a negative one).  Otherwise it
      needs everything up to the largest position its progression visits,
      and nothing when the progression is empty.  A zero step is an error. */
  function SliceDemand(start: Option<int>, stop: Option<int>, step: Option<int>): (r: Result<Demand, PyError>)
    ensures NegativeBound(start) || NegativeBound(stop) ==> r == Success(Whole)
    ensures r.Failure? <==> !NegativeBound(start) && !NegativeBound(stop) && step == Some(0)
    ensures r.Failure? ==> r.error == ValueError
    ensures r == Success(Whole) ==>
      || NegativeBound(start) || NegativeBound(stop)
      || (step.GetOr(1) > 0 && stop.None?) || (step.GetOr(1) < 0 && start.None?)
    ensures r.Success? && r.value.Prefix? ==>
      var s := step.GetOr(1);
      var visited := Range(start.GetOr(0), stop.GetOr(-1), s);
      && s != 0
      && !NegativeBound(start) && !NegativeBound(stop)
      && (s > 0 ==> stop.Some?) && (s < 0 ==> start.Some?)
      && (forall x :: x in visited ==> x < r.value.n)
      && (r.value.n == 0 || r.value.n - 1 in visited)
  {
    if NegativeBound(start) || NegativeBound(stop) then Success(Whole)
    else
      var s := step.GetOr(1);
      if s == 0 then Failure(ValueError)
      else if (s > 0 && stop.None?) || (s < 0 && start.None?) then Success(Whole)
      else
        match MaxVisited(start.GetOr(0), stop.GetOr(-1), s)
        case None => Success(Prefix(0))
        case Some(m) => Success(Prefix(m + 1))
  }

  /** What `_delazify(key)` needs materialised; no key means everything. */
  function KeyDemand(key: Option<Key>): (r: Result<Demand, PyError>)
    ensures key.None? ==> r == Success(Whole)
    ensures key.Some? && key.value.Int? && key.value.i < 0 ==> r == Success(Whole)
    ensures key.Some? && key.value.Int? && key.value.i >= 0 ==> r == Success(Prefix(key.value.i + 1))
    ensures key.Some? && key.value.Slice? ==>
      r == SliceDemand(key.value.start, key.value.stop, key.value.step)
  {
    match key
    case None => Success(Whole)
    case Some(Int(i)) => if i < 0 then Success(Whole) else Success(Prefix(i + 1))
    case Some(Slice(start, stop, step)) => SliceDemand(start, stop, step)
  }

  /** Pulling `k` elements from a tail of length `tailLen` onto a buffer of
      length `bufLen` meets demand `d`. */
  predicate Enough(d: Demand, bufLen: nat, tailLen: nat, k: nat) {
    k == tailLen || (d.Prefix? && bufLen + k >= d.n)
  }

  /** The number of tail elements to pull for demand `d`: the least `k`
      that is enough. */
  function PullCount(d: Demand, bufLen: nat, tailLen: nat): (k: nat)
    ensures k <= tailLen
    ensures Enough(d, bufLen, tailLen, k)
    ensures forall j :: 0 <= j < k ==> !Enough(d, bufLen, tailLen, j)
  {
    match d
    case Whole => tailLen
    case Prefix(n) => if n <= bufLen then 0 else if n - bufLen < tailLen then n - bufLen else tailLen
  }

  /** The number of tail elements `_delazify(key)` pulls: none when the key
      is rejected; for an integer index that is not negative, pulling
      stops as soon as the buffer reaches past it. */
  function Pulls(key: Option<Key>, bufLen: nat, tailLen: nat): (k: nat)
    ensures k <= tailLen
    ensures KeyDemand(key).Failure? ==> k == 0
    ensures KeyDemand(key) == Success(Whole) ==> k == tailLen
    ensures key.Some? && key.value.Int? && key.value.i >= 0 ==>
      var want := key.value.i - bufLen + 1;
      k == if want <= 0 then 0 else if want < tailLen then want else tailLen
  {
    match KeyDemand(key)
    case Failure(_) => 0
    case Success(d) => PullCount(d, bufLen, tailLen)
  }

  /** Reading position `i` of a covered buffer is reading the whole sequence. */
  lemma GetCovered<T>(buf: seq<T>, rest: seq<T>, i: int)
    requires rest == [] || 0 <= i < |buf|
    ensures GetAt(buf, i) == GetAt(buf + rest, i)
  {
  }

  /** Assigning position `i` of a covered buffer is assigning it in the
      whole sequence, and fails exactly when that would. */
  lemma SetCovered<T>(buf: seq<T>, rest: seq<T>, i: int, v: T)
    requires rest == [] || 0 <= i < |buf|
    ensures match SetAt(buf, i, v)
      case Success(b) => SetAt(buf + rest, i, v) == Success(b + rest)
      case Failure(e) => SetAt(buf + rest, i, v) == Failure(e)
  {
    if rest == [] {
      assert buf + rest == buf;
      var r := SetAt(buf, i, v);
      if r.Success? {
        assert r.value + rest == r.value;
      }
    } else {
      assert (buf + rest)[i := v] == buf[i := v] + rest;
    }
  }

  /** Deleting position `i` of a covered buffer is deleting it from the
      whole sequence, and fails exactly when that would. */
  lemma DelCovered<T>(buf: seq<T>, rest: seq<T>, i: int)
    requires rest == [] || 0 <= i < |buf|
    ensures match DelAt(buf, i)
      case Success(b) => DelAt(buf + rest, i) == Success(b + rest)
      case Failure(e) => DelAt(buf + rest, i) == Failure(e)
  {
    if rest == [] {
      assert buf + rest == buf;
      var r := DelAt(buf, i);
      if r.Success? {
        assert r.value + rest == r.value;
      }
    } else {
      var s := buf + rest;
      assert s[..i] + s[i + 1..] == buf[..i] + buf[i + 1..] + rest;
    }
  }

  /** Inserting into a buffer that holds everything before position `i`
      is inserting into the whole sequence. */
  lemma InsertCovered<T>(buf: seq<T>, rest: seq<T>, i: int, v: T)
    requires rest == [] || 0 <= i <= |buf|
    ensures InsertAt(buf, i, v) + rest == InsertAt(buf + rest, i, v)
  {
  }

  /** For a slice that needs only a prefix of length `n`, any list of
      length at least `n` visits the positions of the slice's own
      progression. */
  lemma SliceIndicesStable(len: nat, start: Option<int>, stop: Option<int>, s: int, n: nat)
    requires s != 0 && !NegativeBound(start) && !NegativeBound(stop)
    requires s > 0 ==> stop.Some?
    requires s < 0 ==> start.Some?
    requires forall x :: x in Range(start.GetOr(0), stop.GetOr(-1), s) ==> x < n
    requires n <= len
    ensures SliceIndices(len, start, stop, s) == Range(start.GetOr(0), stop.GetOr(-1), s)
  {
    var a, b := start.GetOr(0), stop.GetOr(-1);
    var visited := Range(a, b, s);
    if s > 0 {
      var b' := AdjustBound(len, b, s);
      if visited != [] {
        assert a in visited;
        forall x | x in visited ensures x < b' {
        }
        RangeCut(a, b, b', s);
      }
    } else {
      if visited != [] {
        assert a in visited;
      }
    }
  }

  /** A slice of a buffer that covers the slice's demand equals the same
      slice of the whole sequence. */
  lemma SliceCovered<T>(buf: seq<T>, rest: seq<T>, start: Option<int>, stop: Option<int>, step: Option<int>)
    requires SliceDemand(start, stop, step).Success?
    requires Covers(buf, rest, SliceDemand(start, stop, step).value)
    ensures SliceAt(buf, start, stop, step) == SliceAt(buf + rest, start, stop, step)
  {
    if rest == [] {
      assert buf + rest == buf;
    } else {
      var n := SliceDemand(start, stop, step).value.n;
      var s := step.GetOr(1);
      SliceIndicesStable(|buf|, start, stop, s, n);
      SliceIndicesStable(|buf + rest|, start, stop, s, n);
      var visited := SliceIndices(|buf|, start, stop, s);
      assert Pick(buf, visited) == Pick(buf + rest, visited);
    }
  }

  class LazyList<T> {
    /** The materialised prefix (`_nonlazy`). */
    var nonlazy: seq<T>
    /** What the producer (`_lazy`) will still yield, in order. */
    var tail: seq<T>
    /** Every element pulled from a producer so far, in pull order; its
        length is the number of pulls. */
    ghost var pulled: seq<T>

    /** The logical sequence: the materialised prefix, then the rest of the tail. */
    function Logical(): seq<T>
      reads this
    {
      nonlazy + tail
    }

    /** Since the old state, exactly the first `k` tail elements have been
        pulled, in order, and nothing else was taken from the tail. */
    twostate predicate Consumed(k: nat)
      reads this
    {
      && k <= |old(tail)|
      && tail == old(tail)[k..]
      && pulled == old(pulled) + old(tail)[..k]
    }

    /** `LazyList(iterable)`: nothing is materialised and nothing pulled. */
    constructor (iterable: seq<T>)
      ensures nonlazy == [] && tail == iterable && pulled == []
      ensures Logical() == iterable
    {
      nonlazy, tail := [], iterable;
      pulled := [];
    }

    /** `_delazify(key)`: pulls the least number of tail elements that meets
        the key's demand, one at a time and in order, onto the buffer. */
    method Delazify(key: Option<Key>) returns (r: Outcome<PyError>)
      modifies this
      ensures KeyDemand(key).Failure? ==> r == Fail(KeyDemand(key).error)
      ensures KeyDemand(key).Success? ==> r == Pass && Covers(nonlazy, tail, KeyDemand(key).value)
      ensures var k := Pulls(key, |old(nonlazy)|, |old(tail)|);
        nonlazy == old(nonlazy) + old(tail)[..k] && Consumed(k)
      ensures Logical() == old(Logical())
    {
      var demand := KeyDemand(key);
      if demand.Failure? {
        return Fail(demand.error);
      }
      var d := demand.value;
      ghost var k: nat := 0;
      while tail != [] && (d.Whole? || |nonlazy| < d.n)
        invariant k <= |old(tail)|
        invariant nonlazy == old(nonlazy) + old(tail)[..k]
        invariant tail == old(tail)[k..]
        invariant pulled == old(pulled) + old(tail)[..k]
        invariant forall j :: 0 <= j < k ==> !Enough(d, |old(nonlazy)|, |old(tail)|, j)
        decreases |tail|
      {
        var value := tail[0];
        tail := tail[1..];
        pulled := pulled + [value];
        nonlazy := nonlazy + [value];
        k := k + 1;
      }
      assert old(tail)[..k] + old(tail)[k..] == old(tail);
      return Pass;
    }

    /** `len(ll)`: drains the tail and counts the logical sequence. */
    method Len() returns (n: nat)
      modifies this
      ensures n == |old(Logical())|
      ensures nonlazy == old(Logical()) && tail == [] && Consumed(|old(tail)|)
    {
      var _ := Delazify(None);
      n := |nonlazy|;
    }

    /** `ll[i]`: the element the plain list would give; out of range only
        once the tail is exhausted. */
    method GetItem(i: int) returns (r: Result<T, PyError>)
      modifies this
      ensures r == GetAt(old(Logical()), i)
      ensures r.Failure? ==> tail == []
      ensures var k := Pulls(Some(Int(i)), |old(nonlazy)|, |old(tail)|);
        nonlazy == old(nonlazy) + old(tail)[..k] && Consumed(k)
    {
      var _ := Delazify(Some(Int(i)));
      GetCovered(nonlazy, tail, i);
      r := GetAt(nonlazy, i);
    }

    /** `ll[start:stop:step]`: the slice the plain list would give. */
    method GetSlice(start: Option<int>, stop: Option<int>, step: Option<int>) returns (r: Result<seq<T>, PyError>)
      modifies this
      ensures r == SliceAt(old(Logical()), start, stop, step)
      ensures var k := Pulls(Some(Slice(start, stop, step)), |old(nonlazy)|, |old(tail)|);
        nonlazy == old(nonlazy) + old(tail)[..k] && Consumed(k)
    {
      var outcome := Delazify(Some(Slice(start, stop, step)));
      if outcome.Fail? {
        return Failure(outcome.error);
      }
      SliceCovered(nonlazy, tail, start, stop, step);
      r := SliceAt(nonlazy, start, stop, step);
    }

    /** `ll[i] = v`: the logical sequence changes as the plain list would,
        at position `i` only; out of range only once the tail is exhausted. */
    method SetItem(i: int, v: T) returns (r: Outcome<PyError>)
      modifies this
      ensures match SetAt(old(Logical()), i, v)
        case Success(s) => r == Pass && Logical() == s
        case Failure(e) => r == Fail(e) && Logical() == old(Logical()) && tail == []
      ensures var k := Pulls(Some(Int(i)), |old(nonlazy)|, |old(tail)|);
        && Consumed(k)
        && nonlazy == SetAt(old(nonlazy) + old(tail)[..k], i, v).GetOr(old(nonlazy) + old(tail)[..k])
    {
      var _ := Delazify(Some(Int(i)));
      SetCovered(nonlazy, tail, i, v);
      match SetAt(nonlazy, i, v)
      case Success(b) =>
        nonlazy := b;
        r := Pass;
      case Failure(e) =>
        r := Fail(e);
    }

    /** `del ll[i]`: the logical sequence loses exactly the element the plain
        list would; out of range only once the tail is exhausted. */
    method DelItem(i: int) returns (r: Outcome<PyError>)
      modifies this
      ensures match DelAt(old(Logical()), i)
        case Success(s) => r == Pass && Logical() == s
        case Failure(e) => r == Fail(e) && Logical() == old(Logical()) && tail == []
      ensures var k := Pulls(Some(Int(i)), |old(nonlazy)|, |old(tail)|);
        && Consumed(k)
        && nonlazy == DelAt(old(nonlazy) + old(tail)[..k], i).GetOr(old(nonlazy) + old(tail)[..k])
    {
      var _ := Delazify(Some(Int(i)));
      DelCovered(nonlazy, tail, i);
      match DelAt(nonlazy, i)
      case Success(b) =>
        nonlazy := b;
        r := Pass;
      case Failure(e) =>
        r := Fail(e);
    }

    /** `ll.insert(i, v)`: the logical sequence changes as the plain list's
        insert would, clamping included.  Inserting at 0 pulls nothing;
        otherwise only the elements before position `i` are pulled. */
    method Insert(i: int, v: T)
      modifies this
      ensures Logical() == InsertAt(old(Logical()), i, v)
      ensures var k := if i == 0 then 0 else Pulls(Some(Int(i - 1)), |old(nonlazy)|, |old(tail)|);
        Consumed(k) && nonlazy == InsertAt(old(nonlazy) + old(tail)[..k], i, v)
    {
      if i != 0 {
        var _ := Delazify(Some(Int(i - 1)));
      }
      InsertCovered(nonlazy, tail, i, v);
      nonlazy := InsertAt(nonlazy, i, v);
    }

    /** `iter(ll)`, run to completion: yields the materialised prefix, then
        each tail element, appending each to the buffer before yielding it. */
    method Iterate() returns (yielded: seq<T>)
      modifies this
      ensures yielded == old(Logical())
      ensures nonlazy == old(Logical()) && tail == [] && Consumed(|old(tail)|)
    {
      yielded := nonlazy;
      ghost var k: nat := 0;
      while tail != []
        invariant k <= |old(tail)|
        invariant yielded == nonlazy
        invariant nonlazy == old(nonlazy) + old(tail)[..k]
        invariant tail == old(tail)[k..]
        invariant pulled == old(pulled) + old(tail)[..k]
        decreases |tail|
      {
        var value := tail[0];
        tail := tail[1..];
        pulled := pulled + [value];
        nonlazy := nonlazy + [value];
        yielded := yielded + [value];
        k := k + 1;
      }
      assert old(tail)[..k] == old(tail);
    }

    /** `ll.append(v)`: chains `v` after the tail; nothing is pulled. */
    method Append(v: T)
      modifies this
      ensures nonlazy == old(nonlazy) && tail == old(tail) + [v] && pulled == old(pulled)
      ensures Logical() == old(Logical()) + [v]
    {
      tail := tail + [v];
    }

    /** `ll.extend(vs)`: chains `vs` after the tail; nothing is pulled. */
    method Extend(vs: seq<T>)
      modifies this
      ensures nonlazy == old(nonlazy) && tail == old(tail) + vs && pulled == old(pulled)
      ensures Logical() == old(Logical()) + vs
    {
      tail := tail + vs;
    }

    /** `ll.clear()`: an empty buffer and an exhausted tail. */
    method Clear()
      modifies this
      ensures nonlazy == [] && tail == [] && pulled == old(pulled)
      ensures Logical() == []
    {
      nonlazy, tail := [], [];
    }

    /** `str(ll)`: the materialised elements' reprs, each followed by ", ",
        inside brackets and ending in the marker "...", exhausted tail or not. */
    function Str(repr: T -> string): (s: string)
      reads this
      ensures s == "[" + Render.Items(nonlazy, repr) + "...]"
      ensures nonlazy == [] ==> s == "[...]"
    {
      Render.Str(nonlazy, repr)
    }

    /** `repr(ll)`: the display form wrapped in "LazyList(...)". */
    function Repr(repr: T -> string): (s: string)
      reads this
      ensures s == "LazyList([" + Render.Items(nonlazy, repr) + "...])"
    {
      "LazyList(" + Str(repr) + ")"
    }
  }
}
