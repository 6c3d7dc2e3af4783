/**
 The Python list operations the item handling relies on: `x in xs`,
 `xs.index(x)` and `xs.remove(x)`, which deletes the FIRST occurrence.
 */
module Items {

  /** How many times `x` occurs in `xs`. */
  function Count<T(==)>(xs: seq<T>, x: T): nat {
    multiset(xs)[x]
  }

  /** Python's `xs.index(x)`: the position of the first occurrence. */
  function IndexOf<T(==)>(xs: seq<T>, x: T): (i: nat)
    requires x in xs
    ensures i < |xs| && xs[i] == x
    ensures forall j :: 0 <= j < i ==> xs[j] != x
  {
    if xs[0] == x then 0 else 1 + IndexOf(xs[1..], x)
  }

  /** Python's `xs.remove(x)` on a list that holds `x`. */
  function RemoveFirst<T(==)>(xs: seq<T>, x: T): (r: seq<T>)
    requires x in xs
    ensures r == xs[..IndexOf(xs, x)] + xs[IndexOf(xs, x) + 1..]
  {
    if xs[0] == x then xs[1..] else [xs[0]] + RemoveFirst(xs[1..], x)
  }

  /** Removing one occurrence takes exactly one `x` out of the bag of
      elements and leaves every other element's multiplicity alone. */
  lemma RemoveFirstMultiset<T>(xs: seq<T>, x: T)
    requires x in xs
    ensures multiset(RemoveFirst(xs, x)) == multiset(xs) - multiset{x}
    ensures multiset(RemoveFirst(xs, x)) + multiset{x} == multiset(xs)
    ensures |RemoveFirst(xs, x)| == |xs| - 1
  {
    var i := IndexOf(xs, x);
    var r := RemoveFirst(xs, x);
    assert xs == xs[..i] + ([xs[i]] + xs[i + 1..]);
    calc {
      multiset(xs);
      multiset(xs[..i]) + multiset([xs[i]] + xs[i + 1..]);
      multiset(xs[..i]) + (multiset{x} + multiset(xs[i + 1..]));
      multiset(r) + multiset{x};
    }
  }

  /** After one removal `x` is still present exactly when it occurred more
      than once: a second `remove` of a duplicated item succeeds. */
  lemma RemoveFirstStillIn<T>(xs: seq<T>, x: T)
    requires x in xs
    ensures x in RemoveFirst(xs, x) <==> Count(xs, x) > 1
  {
    RemoveFirstMultiset(xs, x);
    assert x in RemoveFirst(xs, x) <==> x in multiset(RemoveFirst(xs, x));
  }
}
