/** Facts about sequences that several modules use. */
module Sequences {

  lemma ConcatAssociates<T>(a: seq<T>, b: seq<T>, c: seq<T>)
    ensures a + (b + c) == (a + b) + c
  {
  }

  lemma TailOfConcat<T>(a: seq<T>, b: seq<T>)
    requires a != []
    ensures (a + b)[0] == a[0] && (a + b)[1..] == a[1..] + b
  {
  }

  lemma HeadAndTail<T>(s: seq<T>)
    requires s != []
    ensures s == [s[0]] + s[1..]
  {
  }

  /** The sum of a list of lengths. */
  function Total(lens: seq<nat>): nat
  {
    if lens == [] then 0 else lens[0] + Total(lens[1..])
  }

  lemma {:induction false} TotalAppend(a: seq<nat>, b: seq<nat>)
    ensures Total(a + b) == Total(a) + Total(b)
  {
    if a == [] {
      assert a + b == b;
    } else {
      TailOfConcat(a, b);
      TotalAppend(a[1..], b);
    }
  }

  lemma TotalOfOne(n: nat)
    ensures Total([n]) == n
  {
    assert [n][1..] == [] && Total([]) == 0;
  }
}
