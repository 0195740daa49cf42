/**
  Clients of LazyList that derive, from the contracts alone, its behaviour
  on small concrete inputs.
*/
module Scenarios {
  import opened Wrappers
  import opened PyList
  import opened LazyLists
  import Render

  /** Python's repr of a string without quotes or escapes inside it. */
  function Quote(s: string): string {
    "'" + s + "'"
  }

  /** Reading index 1 of [10, 20, 30] pulls two elements and nothing more. */
  method ForwardRead() {
    var ll := new LazyList([10, 20, 30]);
    var r := ll.GetItem(1);
    assert r == Success(20);
    assert ll.nonlazy == [10, 20] && ll.tail == [30] && |ll.pulled| == 2;
  }

  /** Reading index 1 and then index 0 reads the buffer without pulling. */
  method ReadBack() {
    var ll := new LazyList([10, 20, 30]);
    var r := ll.GetItem(1);
    r := ll.GetItem(0);
    assert r == Success(10);
    assert ll.tail == [30] && |ll.pulled| == 2;
  }

  /** Reading index -1 drains the tail. */
  method NegativeRead() {
    var ll := new LazyList([10, 20, 30]);
    var r := ll.GetItem(-1);
    assert r == Success(30);
    assert ll.nonlazy == [10, 20, 30] && ll.tail == [];
  }

  /** Appending and extending pull nothing; a later read pulls through it. */
  method AppendThenRead() {
    var ll := new LazyList<int>([]);
    ll.Append(5);
    ll.Extend([6, 7]);
    assert |ll.pulled| == 0;
    var r := ll.GetItem(2);
    assert r == Success(7);
    assert |ll.pulled| == 3;
  }

  /** `[1:3]` of [1, 2, 3, 4, 5] is [2, 3] and pulls through index 2 only. */
  method SliceRead() {
    var ll := new LazyList([1, 2, 3, 4, 5]);
    var r := ll.GetSlice(Some(1), Some(3), None);
    assert Range(1, 3, 1) == [1, 2] by {
      assert Range(2, 3, 1) == [2];
    }
    assert |ll.pulled| == 3 && ll.tail == [4, 5];
    assert SliceIndices(5, Some(1), Some(3), 1) == [1, 2];
    var expected := Pick([1, 2, 3, 4, 5], [1, 2]);
    assert expected[0] == 2 && expected[1] == 3;
    assert expected == [2, 3];
    assert r == Success([2, 3]);
  }

  /** Inserting past the end of [1, 2, 3] appends. */
  method InsertClamps() {
    var ll := new LazyList([1, 2, 3]);
    ll.Insert(10, 99);
    assert ll.Logical() == [1, 2, 3, 99];
  }

  /** The display form lists the materialised prefix and always ends in the
      marker, also once the tail is exhausted. */
  method Display() {
    var ll := new LazyList(["a", "b"]);
    assert ll.Str(Quote) == "[...]";
    var r := ll.GetItem(0);
    assert ll.nonlazy == ["a"];
    assert Render.Items(["a"], Quote) == "'a', ";
    assert ll.Str(Quote) == "['a', ...]";
    var n := ll.Len();
    assert n == 2;
    assert Render.Items(["a", "b"], Quote) == "'a', 'b', ";
    assert ll.Str(Quote) == "['a', 'b', ...]";
    assert ll.Repr(Quote) == "LazyList(['a', 'b', ...])";
  }
}
