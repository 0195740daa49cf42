/**
  lazylist.py as written, at the four places where it departs from what it
  evidently means.  Each function here computes what the source does
  (including the exception it raises); each lemma exhibits an input on which
  that differs from the corrected model in LazyLists.
*/
module AsWritten {
  import opened Wrappers
  import opened PyList
  import opened LazyLists

  /** The names lazylist.py binds at module level (lines 3-8).  `chain` is
      neither among them nor a Python builtin. */
  const ModuleNames: set<string> := {"collections", "islice", "__all__", "LazyList"}

  /** `self._lazy = chain(self._lazy, (value,))` (line 46): the new tail, or
      the NameError that looking up `chain` raises. */
  function AppendAsWritten<T>(tail: seq<T>, v: T): (r: Result<seq<T>, PyError>)
    ensures r.Success? ==> r.value == tail + [v]
    ensures r.Failure? ==> r.error == NameError("chain")
  {
    if "chain" in ModuleNames then Success(tail + [v]) else Failure(NameError("chain"))
  }

  /** `self._lazy = chain(self._lazy, values)` (line 48). */
  function ExtendAsWritten<T>(tail: seq<T>, vs: seq<T>): (r: Result<seq<T>, PyError>)
    ensures r.Success? ==> r.value == tail + vs
    ensures r.Failure? ==> r.error == NameError("chain")
  {
    if "chain" in ModuleNames then Success(tail + vs) else Failure(NameError("chain"))
  }

  /** Every call of `append` or `extend` raises NameError and leaves the tail alone. */
  lemma AppendAsWrittenRaises<T>(tail: seq<T>, v: T, vs: seq<T>)
    ensures AppendAsWritten(tail, v) == Failure(NameError("chain"))
    ensures ExtendAsWritten(tail, vs) == Failure(NameError("chain"))
  {
  }

  /** Lines 23-26 for an integer target `index`: a negative one drains the
      tail; otherwise `islice` gets the count `index - len(_nonlazy) + 1`
      and rejects it with ValueError when it is negative.  Whenever it
      succeeds on a target that is not negative, it pulls the least count
      that reaches the target. */
  function IslicePullAsWritten(index: int, bufLen: nat, tailLen: nat): (r: Result<nat, PyError>)
    ensures r.Failure? <==> 0 <= index && index + 1 < bufLen
    ensures r.Failure? ==> r.error == ValueError
    ensures r.Success? && index < 0 ==> r.value == tailLen
    ensures r.Success? && 0 <= index ==> r.value == PullCount(Prefix(index + 1), bufLen, tailLen)
  {
    if index < 0 then Success(tailLen)
    else
      var count := index - bufLen + 1;
      if count < 0 then Failure(ValueError)
      else Success(if count < tailLen then count else tailLen)
  }

  /** `_delazify(key)` as written (lines 14-26): how many tail elements it
      pulls, or what it raises.  `None < 0` raises TypeError, so does
      `range` with a step of None; `range(...)[-1]` raises IndexError on an
      empty progression, and `range` rejects a zero step with ValueError.
      The `or` at line 19 short-circuits, so a missing part raises
      TypeError only when no bound before it is negative. */
  function DelazifyAsWritten(key: Option<Key>, bufLen: nat, tailLen: nat): (r: Result<nat, PyError>)
    ensures r.Success? ==> r.value <= tailLen
    ensures r == Failure(TypeError) <==>
      key.Some? && key.value.Slice? &&
      (key.value.start.None? ||
       (key.value.start.value >= 0 &&
        (key.value.stop.None? || (key.value.stop.value >= 0 && key.value.step.None?))))
    ensures r == Failure(IndexError) ==>
      key.Some? && key.value.Slice? && key.value.start.Some? && key.value.stop.Some? && key.value.step.Some? &&
      key.value.start.value >= 0 && key.value.stop.value >= 0 && key.value.step.value != 0 &&
      Range(key.value.start.value, key.value.stop.value, key.value.step.value) == []
  {
    match key
    case None => Success(tailLen)
    case Some(Int(i)) => IslicePullAsWritten(i, bufLen, tailLen)
    case Some(Slice(start, stop, step)) =>
      if start.None? then Failure(TypeError)
      else if start.value < 0 then Success(tailLen)
      else if stop.None? then Failure(TypeError)
      else if stop.value < 0 then Success(tailLen)
      else if step.None? then Failure(TypeError)
      else if step.value == 0 then Failure(ValueError)
      else
        var r := Range(start.value, stop.value, step.value);
        if r == [] then Failure(IndexError) else IslicePullAsWritten(r[|r| - 1], bufLen, tailLen)
  }

  /** Reading an element that lies before the last materialised one raises
      ValueError as written; the corrected model pulls nothing and reads it. */
  lemma RereadAsWrittenRaises(i: int, bufLen: nat, tailLen: nat)
    requires 0 <= i && i + 1 < bufLen
    ensures DelazifyAsWritten(Some(Int(i)), bufLen, tailLen) == Failure(ValueError)
    ensures Pulls(Some(Int(i)), bufLen, tailLen) == 0
  {
  }

  /** A slice with explicit, non-negative bounds and an empty progression
      raises IndexError as written; the corrected model demands nothing
      and the slice of any list is empty. */
  lemma EmptySliceAsWrittenRaises(xs: seq<int>, a: int, b: int, s: int, bufLen: nat, tailLen: nat)
    requires 0 <= a && 0 <= b && s != 0
    requires Range(a, b, s) == []
    ensures DelazifyAsWritten(Some(Slice(Some(a), Some(b), Some(s))), bufLen, tailLen) == Failure(IndexError)
    ensures KeyDemand(Some(Slice(Some(a), Some(b), Some(s)))) == Success(Prefix(0))
    ensures SliceAt(xs, Some(a), Some(b), Some(s)) == Success([])
  {
    SliceIndicesStable(|xs|, Some(a), Some(b), s, 0);
  }

  /** A slice without an explicit step (`ll[1:3]`) raises TypeError as
      written; the corrected model treats it as a step of 1. */
  lemma DefaultStepAsWrittenRaises(a: int, b: int, bufLen: nat, tailLen: nat)
    requires 0 <= a && 0 <= b
    ensures DelazifyAsWritten(Some(Slice(Some(a), Some(b), None)), bufLen, tailLen) == Failure(TypeError)
    ensures KeyDemand(Some(Slice(Some(a), Some(b), None))) == KeyDemand(Some(Slice(Some(a), Some(b), Some(1))))
    ensures KeyDemand(Some(Slice(Some(a), Some(b), None))).Success?
  {
  }

  /** A slice without a start (`ll[:2]`) raises TypeError as written,
      whatever its stop; the corrected model only rejects a zero step. */
  lemma DefaultStartAsWrittenRaises(stop: Option<int>, step: Option<int>, bufLen: nat, tailLen: nat)
    requires step != Some(0)
    ensures DelazifyAsWritten(Some(Slice(None, stop, step)), bufLen, tailLen) == Failure(TypeError)
    ensures KeyDemand(Some(Slice(None, stop, step))).Success?
  {
  }

  /** A fresh lazy list over [1, 2, 3] asked for `[2:0:-1]`: as written it
      materialises only through the smallest visited index, 1, and slicing
      that short buffer gives [2]; the list itself gives [3, 2], which the
      corrected model returns after pulling through index 2. */
  lemma ReverseSliceAsWrittenShort()
    ensures DelazifyAsWritten(Some(Slice(Some(2), Some(0), Some(-1))), 0, 3) == Success(2)
    ensures SliceAt([1, 2], Some(2), Some(0), Some(-1)) == Success([2])
    ensures SliceAt([1, 2, 3], Some(2), Some(0), Some(-1)) == Success([3, 2])
    ensures Pulls(Some(Slice(Some(2), Some(0), Some(-1))), 0, 3) == 3
  {
    assert Range(2, 0, -1) == [2, 1] by {
      assert Range(1, 0, -1) == [1];
    }
    assert SliceIndices(2, Some(2), Some(0), -1) == [1] by {
      assert Range(1, 0, -1) == [1];
    }
    assert SliceIndices(3, Some(2), Some(0), -1) == [2, 1];
    var short := Pick([1, 2], [1]);
    assert short[0] == 2;
    assert short == [2];
    var whole := Pick([1, 2, 3], [2, 1]);
    assert whole[0] == 3 && whole[1] == 2;
    assert whole == [3, 2];
  }

  /** Wherever the source as written succeeds on a key other than a
      negative-step slice, it pulls exactly what the corrected model pulls. */
  lemma AsWrittenAgrees(key: Option<Key>, bufLen: nat, tailLen: nat)
    requires DelazifyAsWritten(key, bufLen, tailLen).Success?
    requires !(key.Some? && key.value.Slice? && key.value.step.Some? && key.value.step.value < 0)
    ensures DelazifyAsWritten(key, bufLen, tailLen).value == Pulls(key, bufLen, tailLen)
  {
  }
}
