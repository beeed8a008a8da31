/**
 * The Python list operations the handlers apply to a bag or a session:
 * `list.remove`, the remove handler's loop of removals, and `random.shuffle`.
 */
module ItemLists {

  /** `list.index(x)`: the position of the first occurrence of `x`. */
  function IndexOf<T(==)>(s: seq<T>, x: T): (i: nat)
    requires x in s
    ensures i < |s| && s[i] == x && x !in s[..i]
  {
    if s[0] == x then 0
    else
      var i := IndexOf(s[1..], x);
      assert s[..i + 1] == [s[0]] + s[1..][..i];
      i + 1
  }

  /**
   * `list.remove(x)` behind the guard `if x in list`: the first occurrence of
   * `x` goes, and a list without `x` stays as it is.
   */
  function RemoveFirst<T(==)>(s: seq<T>, x: T): (r: seq<T>)
    ensures x in s ==> |r| == |s| - 1
    ensures x !in s ==> r == s
  {
    if s == [] then []
    else if s[0] == x then s[1..]
    else [s[0]] + RemoveFirst(s[1..], x)
  }

  /** Removing the first occurrence takes exactly one `x` out of the multiset, if there was one. */
  lemma {:induction false} RemoveFirstMultiset<T>(s: seq<T>, x: T)
    ensures multiset(RemoveFirst(s, x)) == multiset(s) - multiset{x}
  {
    if s != [] {
      assert s == [s[0]] + s[1..];
      if s[0] != x {
        RemoveFirstMultiset(s[1..], x);
      }
    }
  }

  /** Removing the first occurrence is deleting at the index `list.index` finds. */
  lemma {:induction false} RemoveFirstAtIndex<T>(s: seq<T>, x: T)
    requires x in s
    ensures RemoveFirst(s, x) == s[..IndexOf(s, x)] + s[IndexOf(s, x) + 1..]
  {
    if s[0] != x {
      var t := s[1..];
      RemoveFirstAtIndex(t, x);
      var i := IndexOf(t, x);
      assert IndexOf(s, x) == i + 1;
      assert RemoveFirst(s, x) == [s[0]] + (t[..i] + t[i + 1..]);
      assert s[..i + 1] == [s[0]] + t[..i];
      assert s[i + 2..] == t[i + 1..];
    }
  }

  /** The bag after the remove handler's loop has processed each of `items` in turn. */
  function RemoveEach<T(==)>(s: seq<T>, items: seq<T>): (r: seq<T>)
    ensures |r| <= |s|
  {
    if items == [] then s
    else RemoveFirst(RemoveEach(s, items[..|items| - 1]), items[|items| - 1])
  }

  /** The `removed_count` of that loop: how many of the items were present when their turn came. */
  function Removals<T(==)>(s: seq<T>, items: seq<T>): (n: nat)
    ensures n <= |items|
  {
    if items == [] then 0
    else
      var before := items[..|items| - 1];
      Removals(s, before) + (if items[|items| - 1] in RemoveEach(s, before) then 1 else 0)
  }

  /** The bag shrinks by exactly the number of removals counted. */
  lemma {:induction false} RemovalsShrink<T>(s: seq<T>, items: seq<T>)
    ensures Removals(s, items) <= |s|
    ensures |RemoveEach(s, items)| == |s| - Removals(s, items)
  {
    if items != [] {
      RemovalsShrink(s, items[..|items| - 1]);
    }
  }

  /**
   * Removing the items one first occurrence at a time leaves the multiset
   * difference of the bag and the items, whatever their order.
   */
  lemma {:induction false} RemoveEachMultiset<T>(s: seq<T>, items: seq<T>)
    ensures multiset(RemoveEach(s, items)) == multiset(s) - multiset(items)
  {
    if items != [] {
      var before, x := items[..|items| - 1], items[|items| - 1];
      var rest := RemoveEach(s, before);
      RemoveEachMultiset(s, before);
      RemoveFirstMultiset(rest, x);
      assert RemoveEach(s, items) == RemoveFirst(rest, x);
      assert items == before + [x];
      assert multiset(items) == multiset(before) + multiset{x};
      DifferenceOfSum(multiset(s), multiset(before), multiset{x});
    }
  }

  /** Taking away `b` and then `c` is taking away their sum. */
  lemma DifferenceOfSum<T>(a: multiset<T>, b: multiset<T>, c: multiset<T>)
    ensures (a - b) - c == a - (b + c)
  {
  }

  /** Removal never brings in anything the list did not hold. */
  lemma RemoveEachKeeps<T>(s: seq<T>, items: seq<T>)
    ensures forall y :: y in RemoveEach(s, items) ==> y in s
  {
    RemoveEachMultiset(s, items);
    forall y | y in RemoveEach(s, items) ensures y in s {
      assert multiset(RemoveEach(s, items))[y] > 0;
    }
  }

  /**
   * Whether `draws` can be what `randbelow` returns while `random.shuffle`
   * runs over `n` elements: the k-th draw picks the partner of position
   * n - 1 - k, so it lies below n - k; positions n - 1 down to 1 draw once each.
   */
  predicate DrawsFor(draws: seq<nat>, n: nat) {
    && |draws| == (if n == 0 then 0 else n - 1)
    && forall k :: 0 <= k < |draws| ==> draws[k] < n - k
  }

  /**
   * `random.shuffle` (the Fisher-Yates loop of CPython), with the random
   * draws given: whatever they are, the result is a permutation of the input.
   */
  method Shuffle<T>(items: seq<T>, draws: seq<nat>) returns (r: seq<T>)
    requires DrawsFor(draws, |items|)
    ensures |r| == |items|
    ensures multiset(r) == multiset(items)
  {
    r := items;
    var n := |items|;
    var i := n - 1;
    while i >= 1
      invariant i < n
      invariant |r| == n
      invariant multiset(r) == multiset(items)
    {
      var j := draws[n - 1 - i];
      r := r[i := r[j]][j := r[i]];
      i := i - 1;
    }
  }
}
