/** Values shared by the data-grid modules: optional values, results with an
    error side, and the two PHP array built-ins the core relies on
    (`implode` and `array_unique`). */
module Common {

  /** A PHP value that may be `null`. */
  datatype Option<+T> = None | Some(value: T)

  /** The outcome of an operation that may throw. */
  datatype Result<+R, +E> = Success(value: R) | Failure(error: E)

  /** PHP's `implode(glue, pieces)`: the pieces in order, with `glue`
      between each pair of neighbours. */
  function Implode(glue: string, pieces: seq<string>): string
  {
    if |pieces| == 0 then ""
    else if |pieces| == 1 then pieces[0]
    else Implode(glue, pieces[..|pieces| - 1]) + glue + pieces[|pieces| - 1]
  }

  /** String concatenation of all pieces, in order (what `.=` in a loop builds). */
  function Concat(pieces: seq<string>): string
  {
    if |pieces| == 0 then "" else Concat(pieces[..|pieces| - 1]) + pieces[|pieces| - 1]
  }

  lemma ConcatAppend(pieces: seq<string>, piece: string)
    ensures Concat(pieces + [piece]) == Concat(pieces) + piece
  {
    assert (pieces + [piece])[..|pieces|] == pieces;
  }

  /** PHP's `array_unique` on string values: the first occurrence of each
      value is kept, later repetitions are dropped, order is preserved. */
  function ArrayUnique<T(==)>(xs: seq<T>): seq<T>
  {
    if |xs| == 0 then []
    else
      var kept := ArrayUnique(xs[..|xs| - 1]);
      if xs[|xs| - 1] in kept then kept else kept + [xs[|xs| - 1]]
  }

  /** `array_unique` keeps exactly the values of its input, each once, so it
      is never longer than the input. */
  lemma {:induction false} ArrayUniqueProperties<T>(xs: seq<T>)
    ensures |ArrayUnique(xs)| <= |xs|
    ensures forall x :: x in ArrayUnique(xs) <==> x in xs
    ensures forall i, j :: 0 <= i < j < |ArrayUnique(xs)| ==> ArrayUnique(xs)[i] != ArrayUnique(xs)[j]
  {
    if |xs| > 0 {
      var init := xs[..|xs| - 1];
      ArrayUniqueProperties(init);
      assert xs == init + [xs[|xs| - 1]];
    }
  }

  /** `count(array_unique(xs))` is the number of distinct values of `xs`. */
  lemma {:induction false} ArrayUniqueCountsDistinct<T>(xs: seq<T>)
    ensures |ArrayUnique(xs)| == |set x | x in xs|
  {
    if |xs| > 0 {
      var init := xs[..|xs| - 1];
      var last := xs[|xs| - 1];
      ArrayUniqueCountsDistinct(init);
      ArrayUniqueProperties(init);
      assert xs == init + [last];
      assert (set x | x in xs) == (set x | x in init) + {last};
      if last !in ArrayUnique(init) {
        assert last !in (set x | x in init);
      }
    }
  }
}
