# LazyList in Dafny

A model of `LazyList` from lazylist.py: a mutable sequence that wraps a
forward-only producer and pulls elements from it only as far as each access
demands, never more and never twice.

The state is two fields, as in the source: `nonlazy`, the materialised prefix
(`_nonlazy`), and `tail`, what the producer (`_lazy`) will still yield, modelled
as a finite sequence. The ghost field `pulled` records every element pulled,
in pull order; its length is the pull count. The logical sequence is
`nonlazy + tail`.

Every access first computes its *demand*: the whole sequence, or a prefix of a
given length (`KeyDemand`). It then pulls the least number of tail elements
that meets that demand, one at a time and in order (`LazyList.Delazify`), and
finally acts on `nonlazy` only. Each public method is proved to give the
result, and leave the logical sequence, that the same Python list operation
gives on `nonlazy + tail`. Each method also states exactly what it pulled.
The Python list operations themselves (indexing, item assignment and deletion,
`insert`, `range`, slicing with CPython's clamping and defaults) are modelled
over sequences in module `PyList`.

Files:

- wrappers.dfy: `Option`, `Result`, `Outcome`.
- pylist.dfy: Python list semantics; `range` and its largest visited value.
- render.dfy: the display form built by `__str__`.
- lazylist.dfy: demand, pull count, the agreement lemmas, and class `LazyList`.
- aswritten.dfy: the source as written at its four defects (see Findings).
- scenarios.dfy: small client methods. From the contracts alone they derive
  the concrete behaviour: reading `[10, 20, 30][1]` pulls two elements;
  reading back index 0 pulls nothing; `[-1]` drains; `append`/`extend` pull
  nothing; `[1:3]` of five elements pulls three; `insert(10, 99)` clamps;
  the display form always ends in `...]`.

Where the source's code misbehaves, the class models the evidently intended
behaviour. The misbehaviour is modelled separately in `AsWritten` and listed
under Findings.

## Model

| member | source | states |
|---|---|---|
| PyList.Position | lazylist.py:29-35 | a Python index is valid exactly when it lies in `-len..len-1`; a non-negative one is its own position, a negative one counts from the end |
| PyList.GetAt | lazylist.py:29 | `s[i]` fails with IndexError exactly when `i` is outside `-len..len-1`; otherwise it is the element at `i`, counted from the end when negative |
| PyList.SetAt | lazylist.py:35 | `s[i] = v` fails exactly when `i` is out of range; otherwise same length, `v` at the position, every other element unchanged |
| PyList.DelAt | lazylist.py:32 | `del s[i]` fails exactly when `i` is out of range; otherwise one shorter, the elements before kept, those after shifted down by one |
| PyList.InsertPosition | lazylist.py:39 | `insert` counts a negative index from the end and clamps the position to `0..len` |
| PyList.InsertAt | lazylist.py:39 | `s.insert(i, v)` is one longer, has `v` at the clamped position, keeps the elements before it and shifts those after it up |
| PyList.Range | lazylist.py:22 | `range(a, b, s)` is non-empty exactly when `a` lies before `b` in the step's direction; it starts at `a`, and every value lies between `a` and `b`, excluding `b` |
| PyList.MaxVisited | lazylist.py:22 | the largest value a progression visits: None exactly for an empty progression, otherwise a visited value at least as large as every other |
| PyList.RangeBelowLast | lazylist.py:22 | for a positive step, `range(...)[-1]` is at least every value the progression visits |
| PyList.RangeCut | lazylist.py:22 | lowering a positive-step range's stop to any bound still above all its values leaves it unchanged |
| PyList.AdjustBound | lazylist.py:29 | a slice bound is clamped into `0..len` for a positive step and into `-1..len-1` for a negative one; a bound that is not negative is kept when in range |
| PyList.SliceIndices | lazylist.py:29 | every position a slice visits lies inside the list |
| PyList.SliceAt | lazylist.py:29 | `s[start:stop:step]` fails with ValueError exactly for a zero step; otherwise it holds the elements at the visited positions, in order |
| Render.Reprs | lazylist.py:52 | `list(map(repr, xs))` has one repr per element, in order |
| Render.Join | lazylist.py:52 | `sep.join(parts)` is empty for no parts and otherwise begins with the first part |
| Render.JoinEnds | lazylist.py:52 | `sep.join(parts)` of at least one part ends with the last part |
| Render.JoinWithMarker | lazylist.py:52 | joining the reprs followed by `'...'` with `", "` puts `", "` after every repr, then the marker |
| Render.Str | lazylist.py:51-52 | the display form is `[`, then each materialised repr followed by `, `, then `...]`; it is exactly `[...]` for an empty buffer |
| Render.ItemsAppend | lazylist.py:52 | the rendered items of a concatenation are those of each part, in order |
| Render.StrGrows | lazylist.py:51-52 | materialising more only inserts the new reprs before the marker |
| LazyLists.SliceDemand | lazylist.py:18-22 | a slice with a negative bound, or one running to the end, demands everything; a zero step is a ValueError; otherwise the demanded prefix is the least one holding every visited position, and is empty for an empty progression |
| LazyLists.KeyDemand | lazylist.py:14-26 | no index and a negative integer demand everything; `i >= 0` demands the prefix through `i`; a slice demands what `SliceDemand` says |
| LazyLists.PullCount | lazylist.py:26 | the number of pulls is the least number that either exhausts the tail or makes the buffer reach the demanded length |
| LazyLists.Pulls | lazylist.py:14-26 | `_delazify(key)` pulls nothing for a rejected key and the whole tail for an unbounded demand; for `i >= 0` it pulls `min(len(tail), max(0, i - len(buffer) + 1))` |
| LazyLists.GetCovered | lazylist.py:27-29 | when the tail is exhausted or the buffer reaches past `i`, reading `buffer[i]` is reading the logical sequence |
| LazyLists.SetCovered | lazylist.py:33-35 | under the same condition, assigning in the buffer is assigning in the logical sequence, and fails exactly when that would |
| LazyLists.DelCovered | lazylist.py:30-32 | under the same condition, deleting from the buffer is deleting from the logical sequence, and fails exactly when that would |
| LazyLists.InsertCovered | lazylist.py:36-39 | when the tail is exhausted or the buffer holds everything before the insertion point, inserting into the buffer is inserting into the logical sequence |
| LazyLists.SliceIndicesStable | lazylist.py:18-22 | for a slice that needs only a prefix, every list at least that long visits exactly the slice's own progression |
| LazyLists.SliceCovered | lazylist.py:18-29 | a buffer covering a slice's demand gives the same slice as the logical sequence |
| LazyLists.LazyList.constructor | lazylist.py:9-10 | a new lazy list has an empty buffer, the whole iterable as its tail, and has pulled nothing |
| LazyLists.LazyList.Delazify | lazylist.py:14-26 | pulls exactly `Pulls(key, ...)` tail elements onto the end of the buffer, in order; the logical sequence is unchanged; afterwards the demand is covered; a rejected key changes nothing and reports its error |
| LazyLists.LazyList.Len | lazylist.py:11-13 | returns the logical length, after draining the whole tail into the buffer |
| LazyLists.LazyList.GetItem | lazylist.py:27-29 | returns what the plain list gives for `[i]`, pulling only as `Delazify` does; an IndexError comes only once the tail is exhausted |
| LazyLists.LazyList.GetSlice | lazylist.py:27-29 | returns what the plain list gives for `[start:stop:step]`, pulling only as `Delazify` does |
| LazyLists.LazyList.SetItem | lazylist.py:33-35 | the logical sequence changes as the plain list's `[i] = v` would, at that position only; an IndexError comes only once the tail is exhausted and changes nothing |
| LazyLists.LazyList.DelItem | lazylist.py:30-32 | the logical sequence loses exactly the element the plain list's `del [i]` removes; an IndexError comes only once the tail is exhausted and changes nothing |
| LazyLists.LazyList.Insert | lazylist.py:36-39 | the logical sequence becomes the plain list's `insert(i, v)`, clamping included; `insert(0, v)` pulls nothing, any other index pulls only through `i - 1` |
| LazyLists.LazyList.Iterate | lazylist.py:40-44 | a full iteration yields the logical sequence in order; afterwards the tail is empty and the buffer holds the old logical sequence; every tail element is pulled once, in order |
| LazyLists.LazyList.Append | lazylist.py:45-46 | the logical sequence gains `v` at the end; the buffer is unchanged and nothing is pulled |
| LazyLists.LazyList.Extend | lazylist.py:47-48 | the logical sequence gains `vs` at the end; the buffer is unchanged and nothing is pulled |
| LazyLists.LazyList.Clear | lazylist.py:49-50 | buffer and tail are both empty |
| LazyLists.LazyList.Str | lazylist.py:51-52 | the reprs of the buffer, each followed by `, `, inside `[` and `...]`, whether or not the tail is exhausted; `[...]` for an empty buffer |
| LazyLists.LazyList.Repr | lazylist.py:53-54 | the display form wrapped in `LazyList(` and `)` |
| AsWritten.AppendAsWritten | lazylist.py:45-46 | as written, `append` either sets the tail to `tail + [v]` or raises NameError for `chain` |
| AsWritten.ExtendAsWritten | lazylist.py:47-48 | as written, `extend` either sets the tail to `tail + vs` or raises NameError for `chain` |
| AsWritten.IslicePullAsWritten | lazylist.py:23-26 | as written, an integer target raises ValueError exactly when it is not negative and lies before the last materialised element; a negative one drains the tail; otherwise it pulls the least count that reaches the target |
| AsWritten.DelazifyAsWritten | lazylist.py:14-26 | as written, `_delazify` never pulls more than the tail holds; it raises TypeError exactly for a slice whose start is missing, or whose start is not negative and whose stop is missing, or whose bounds are both present and not negative and whose step is missing; IndexError only for a slice with such bounds, a non-zero step and an empty progression |
| AsWritten.AppendAsWrittenRaises | lazylist.py:45-48 | as written, every `append` and `extend` raises NameError for `chain` |
| AsWritten.RereadAsWrittenRaises | lazylist.py:26 | as written, reading an index before the last materialised one raises ValueError, where the corrected model pulls nothing |
| AsWritten.EmptySliceAsWrittenRaises | lazylist.py:22 | as written, a slice whose bounds are both given and not negative, whose step is given and not zero, and whose progression is empty raises IndexError; corrected, it demands nothing and slices to `[]` |
| AsWritten.DefaultStepAsWrittenRaises | lazylist.py:22 | as written, a slice whose bounds are both given and not negative but whose step is missing raises TypeError (a negative bound drains first and succeeds); corrected, it is the slice with step 1 |
| AsWritten.DefaultStartAsWrittenRaises | lazylist.py:19 | as written, a slice without a start always raises TypeError, whatever its stop and step; corrected, only a zero step is rejected |
| AsWritten.ReverseSliceAsWrittenShort | lazylist.py:22 | as written, `[2:0:-1]` of a fresh `[1, 2, 3]` pulls two elements and returns `[2]`; the list gives `[3, 2]` |
| AsWritten.AsWrittenAgrees | lazylist.py:14-26 | wherever the code as written succeeds on a key that is not a negative-step slice, it pulls exactly what the corrected model pulls |

## Left out

- The `__main__` block (lazylist.py:56-63) reads `sys.argv` and prints; it is I/O around the class.
- Producers are finite sequences. An infinite or blocking producer is not modelled, so `len` or a negative index never returning on one is not modelled either.
- An exception raised by the producer during a pull is not modelled.
- `repr` of an element is a parameter `T -> string`; Python's repr of arbitrary objects is not modelled.
- `extend(vs)` takes a finite sequence whose elements are fixed at the call. Python's `chain` pulls from `values` later, so changes made to that iterable in between would show. That aliasing is not modelled.
- LazyLists.LazyList.Iterate: models one complete iteration only. Suspending the generator part-way, and interleaving it with other operations or iterations, are not modelled.
- LazyLists.LazyList.SetItem: integer indices only. Slice assignment (`ll[a:b] = vs`) is Python list semantics that can change the length; it is not modelled. Its materialisation is the same `Delazify` as for reading that slice.
- LazyLists.LazyList.DelItem: integer indices only. Slice deletion is not modelled, for the same reason. Its materialisation is the same `Delazify` too.
- The methods `MutableSequence` supplies that lazylist.py does not write (`pop`, `remove`, `reverse`, `index`, `count`, `__contains__`, `__reversed__`, `+=`) are not modelled: their code is not part of this model.
- Indices are Python `int`s; objects with `__index__` and `bool` indices are not modelled. `islice`'s upper limit `sys.maxsize` is not modelled (integers are unbounded).

## Findings

| source | as written | input that shows it | evidently intended | confidence | as-written member | corrected member |
|---|---|---|---|---|---|---|
| lazylist.py:46 | `chain` is called, but only `islice` is imported (line 4), so `append` raises NameError | `LazyList([]).append(5)` | chain `(value,)` after the tail without pulling | high; not executed | AsWritten.AppendAsWrittenRaises | LazyLists.LazyList.Append |
| lazylist.py:48 | the same missing import makes `extend` raise NameError | `LazyList([]).extend([6, 7])` | chain `values` after the tail without pulling | high; not executed | AsWritten.AppendAsWrittenRaises | LazyLists.LazyList.Extend |
| lazylist.py:26 | the `islice` count `index - len(_nonlazy) + 1` is negative when `index < len(_nonlazy) - 1`, and `islice` raises ValueError | `ll = LazyList([10, 20, 30]); ll[1]; ll[0]` | pull `max(0, ...)` elements, i.e. none here | high; not executed | AsWritten.RereadAsWrittenRaises | LazyLists.PullCount |
| lazylist.py:22 | `range(...)[-1]` raises IndexError for an empty progression, reached only when both bounds are given and not negative and the step is given and not zero (`ll[2:2]` raises TypeError first) | `LazyList([1, 2, 3])[2:2:1]` | nothing more to pull; the result is `[]` | high; not executed | AsWritten.EmptySliceAsWrittenRaises | LazyLists.SliceCovered |
| lazylist.py:19-22 | a missing slice part raises TypeError unless the `or` at line 19 short-circuits on a negative bound before it: a missing start always raises (`None < 0`); a missing stop raises unless the start is negative; a missing step raises (`range(..., None)` at line 22) only when both bounds are given and not negative. `ll[-3:-2]` and `ll[-2:]` succeed | `LazyList([1, 2, 3, 4, 5])[1:3]` | Python's slice defaults; `[1:3]` gives `[2, 3]` after three pulls | high; not executed | AsWritten.DefaultStepAsWrittenRaises | LazyLists.SliceDemand |
| lazylist.py:22 | with a negative step and bounds that are not negative, `range(...)[-1]` is the smallest visited index; the buffer is then too short and the slice silently loses elements | `LazyList([1, 2, 3])[2:0:-1]` gives `[2]` | materialise through the largest visited index, `start`; the result is `[3, 2]` | high; not executed | AsWritten.ReverseSliceAsWrittenShort | LazyLists.LazyList.GetSlice |
