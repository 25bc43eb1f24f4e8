/** Sequence notions shared by the modules: order-keeping selection and the
    `Array.prototype.find` of an id. */
module Sequences {
  import opened Wrappers

  /** `xs` is `ys` with some elements left out, the rest in their order. */
  predicate IsSubsequence<T(==)>(xs: seq<T>, ys: seq<T>)
    decreases |ys|
  {
    |xs| == 0 || (|ys| > 0 && ((xs[0] == ys[0] && IsSubsequence(xs[1..], ys[1..])) || IsSubsequence(xs, ys[1..])))
  }

  /** No element before position `i` carries the id. */
  predicate NoneBefore<T>(xs: seq<T>, idOf: T -> string, id: string, i: int)
    requires 0 <= i <= |xs|
  {
    forall j :: 0 <= j < i ==> idOf(xs[j]) != id
  }

  /** `xs.find((x) => x.id === id) ?? null`: the FIRST element carrying the
      id, none for an absent id or when no element carries it. */
  function FindById<T>(xs: seq<T>, idOf: T -> string, id: Option<string>): (r: Option<T>)
    ensures r.None? <==> id.None? || forall i :: 0 <= i < |xs| ==> idOf(xs[i]) != id.value
    ensures r.Some? ==> id.Some? && idOf(r.value) == id.value
                        && exists i :: 0 <= i < |xs| && xs[i] == r.value && NoneBefore(xs, idOf, id.value, i)
  {
    if id.None? || |xs| == 0 then None
    else if idOf(xs[0]) == id.value then
      assert xs[0] == xs[0] && NoneBefore(xs, idOf, id.value, 0);
      Some(xs[0])
    else
      var r := FindById(xs[1..], idOf, id);
      FirstShifts(xs, idOf, id.value, r);
      r
  }

  /** A first match in the tail, behind a head without the id, is a first
      match of the whole sequence, one position further. */
  lemma FirstShifts<T>(xs: seq<T>, idOf: T -> string, id: string, r: Option<T>)
    requires |xs| > 0 && idOf(xs[0]) != id
    requires r.Some? ==> exists i :: 0 <= i < |xs[1..]| && xs[1..][i] == r.value && NoneBefore(xs[1..], idOf, id, i)
    ensures r.Some? ==> exists i :: 0 <= i < |xs| && xs[i] == r.value && NoneBefore(xs, idOf, id, i)
  {
    if r.Some? {
      var i :| 0 <= i < |xs[1..]| && xs[1..][i] == r.value && NoneBefore(xs[1..], idOf, id, i);
      assert xs[i + 1] == r.value;
      forall j | 0 <= j < i + 1 ensures idOf(xs[j]) != id {
        if j > 0 {
          assert xs[j] == xs[1..][j - 1];
        }
      }
    }
  }
}
