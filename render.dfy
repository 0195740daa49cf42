/**
  The display form of a lazy list (`LazyList.__str__`): the reprs of the
  materialised elements, then an ellipsis marker that is always present,
  whether or not the tail is exhausted.  `repr` of an element is a parameter.
*/
module Render {

  /** `sep.join(parts)`: empty for no parts, otherwise it begins with the
      first part (and ends with the last, `JoinEnds`). */
  function Join(parts: seq<string>, sep: string): (r: string)
    ensures parts == [] ==> r == ""
    ensures parts != [] ==> |parts[0]| <= |r| && r[..|parts[0]|] == parts[0]
    decreases |parts|
  {
    if parts == [] then ""
    else if |parts| == 1 then parts[0]
    else parts[0] + sep + Join(parts[1..], sep)
  }

  /** A join ends with its last part. */
  lemma {:induction false} JoinEnds(parts: seq<string>, sep: string)
    requires parts != []
    ensures |parts[|parts| - 1]| <= |Join(parts, sep)|
    ensures Join(parts, sep)[|Join(parts, sep)| - |parts[|parts| - 1]|..] == parts[|parts| - 1]
    decreases |parts|
  {
    if |parts| > 1 {
      JoinEnds(parts[1..], sep);
      assert parts[1..][|parts[1..]| - 1] == parts[|parts| - 1];
    }
  }

  /** `list(map(repr, xs))`. */
  function Reprs<T>(xs: seq<T>, repr: T -> string): (r: seq<string>)
    ensures |r| == |xs|
    ensures forall k :: 0 <= k < |xs| ==> r[k] == repr(xs[k])
  {
    seq(|xs|, k requires 0 <= k < |xs| => repr(xs[k]))
  }

  /** The string `__str__` builds from the materialised elements `xs`: "[",
      each repr followed by ", ", then "...]"; exactly "[...]" for none. */
  function Str<T>(xs: seq<T>, repr: T -> string): (r: string)
    ensures r == "[" + Items(xs, repr) + "...]"
    ensures xs == [] ==> r == "[...]"
  {
    JoinWithMarker(xs, repr);
    "[" + Join(Reprs(xs, repr) + ["..."], ", ") + "]"
  }

  /** Reference reading of the display form: each element's repr followed
      by a comma and a space. */
  function Items<T>(xs: seq<T>, repr: T -> string): string
    decreases |xs|
  {
    if xs == [] then "" else repr(xs[0]) + ", " + Items(xs[1..], repr)
  }

  /** Joining the reprs with the marker appended puts ", " after every repr. */
  lemma {:induction false} JoinWithMarker<T>(xs: seq<T>, repr: T -> string)
    ensures Join(Reprs(xs, repr) + ["..."], ", ") == Items(xs, repr) + "..."
    decreases |xs|
  {
    var parts := Reprs(xs, repr) + ["..."];
    if xs != [] {
      JoinWithMarker(xs[1..], repr);
      assert parts[1..] == Reprs(xs[1..], repr) + ["..."];
      assert parts[0] == repr(xs[0]);
    }
  }

  /** The items of a concatenation are the items of each part, in order. */
  lemma {:induction false} ItemsAppend<T>(xs: seq<T>, ys: seq<T>, repr: T -> string)
    ensures Items(xs + ys, repr) == Items(xs, repr) + Items(ys, repr)
    decreases |xs|
  {
    if xs != [] {
      assert (xs + ys)[1..] == xs[1..] + ys;
      ItemsAppend(xs[1..], ys, repr);
    } else {
      assert xs + ys == ys;
    }
  }

  /** Materialising more elements only inserts their reprs before the marker:
      what was displayed before is a prefix of what is displayed after. */
  lemma StrGrows<T>(xs: seq<T>, ys: seq<T>, repr: T -> string)
    ensures Str(xs + ys, repr) == "[" + Items(xs, repr) + Items(ys, repr) + "...]"
  {
    ItemsAppend(xs, ys, repr);
  }
}
