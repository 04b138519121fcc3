/**
 * Python list idioms the merge code uses on lists of paths: `if x not in xs: xs.append(x)` (an ordered
 * de-duplication) and `list(some_set)`.
 */
module Lists {

  /** No element occurs twice. */
  predicate NoDup(xs: seq<string>) {
    forall i, j :: 0 <= i < j < |xs| ==> xs[i] != xs[j]
  }

  /** The elements of a list, as a set. */
  function Elems(xs: seq<string>): set<string> {
    set x | x in xs
  }

  /** Appending each element unless it is already there: the first occurrences, in order. */
  function Dedupe(xs: seq<string>): (r: seq<string>)
    ensures NoDup(r)
    ensures forall x {:trigger x in r} :: x in r <==> x in xs
    ensures forall i :: 0 <= i < |r| ==> r[i] in xs
    ensures |r| <= |xs|
  {
    if |xs| == 0 then []
    else
      var p := Dedupe(xs[..|xs| - 1]);
      var x := xs[|xs| - 1];
      assert xs == xs[..|xs| - 1] + [x];
      if x in p then p else p + [x]
  }

  /** A list without duplicates is its own de-duplication. */
  lemma {:induction false} DedupeDistinct(xs: seq<string>)
    requires NoDup(xs)
    ensures Dedupe(xs) == xs
  {
    if |xs| > 0 {
      var init := xs[..|xs| - 1];
      DedupeDistinct(init);
      assert init + [xs[|xs| - 1]] == xs;
    }
  }

  /** Where `x` first occurs in `xs`: `xs.index(x)`. */
  function FirstIndex(xs: seq<string>, x: string): (i: nat)
    requires x in xs
    ensures i < |xs| && xs[i] == x
    ensures forall j :: 0 <= j < i ==> xs[j] != x
  {
    if xs[0] == x then 0 else 1 + FirstIndex(xs[1..], x)
  }

  /** Text appended after an element's first occurrence does not move it. */
  lemma FirstIndexPrefix(xs: seq<string>, ys: seq<string>, x: string)
    requires x in xs
    ensures x in xs + ys && FirstIndex(xs + ys, x) == FirstIndex(xs, x)
  {
    var b := FirstIndex(xs, x);
    assert (xs + ys)[b] == x;
    var a := FirstIndex(xs + ys, x);
    assert a <= b;
    assert xs[a] == (xs + ys)[a];
  }

  /** De-duplication keeps first-seen order: earlier in the result means first seen earlier. */
  lemma {:induction false} DedupeOrder(xs: seq<string>)
    ensures forall i, j :: 0 <= i < j < |Dedupe(xs)| ==> FirstIndex(xs, Dedupe(xs)[i]) < FirstIndex(xs, Dedupe(xs)[j])
  {
    if |xs| > 0 {
      var init := xs[..|xs| - 1];
      var x := xs[|xs| - 1];
      assert xs == init + [x];
      DedupeOrder(init);
      var p := Dedupe(init);
      var r := Dedupe(xs);
      forall y | y in p ensures FirstIndex(xs, y) == FirstIndex(init, y) < |xs| - 1 {
        FirstIndexPrefix(init, [x], y);
      }
      if x !in p {
        assert x !in init;
        assert FirstIndex(xs, x) == |xs| - 1;
        forall i, j | 0 <= i < j < |r| ensures FirstIndex(xs, r[i]) < FirstIndex(xs, r[j]) {
          assert r[i] == p[i];
          if j < |p| {
            assert r[j] == p[j];
          }
        }
      }
    }
  }
}
