/** Small facts about sequences and their multisets. */
module Sequences {
  /** s with the element at i removed. */
  function Without<T>(s: seq<T>, i: nat): (r: seq<T>)
    requires i < |s|
    ensures |r| == |s| - 1
  {
    s[..i] + s[i + 1..]
  }

  lemma MultisetWithout<T>(s: seq<T>, i: nat)
    requires i < |s|
    ensures multiset(Without(s, i)) == multiset(s) - multiset{s[i]}
  {
    assert s == s[..i] + [s[i]] + s[i + 1..];
    assert multiset(s) == multiset(s[..i]) + multiset{s[i]} + multiset(s[i + 1..]);
  }

  /** Of two sequences with one multiset, an element of the first is found in the second. */
  lemma FindIn<T>(x: T, s: seq<T>) returns (i: nat)
    requires x in multiset(s)
    ensures i < |s| && s[i] == x
  {
    i :| 0 <= i < |s| && s[i] == x;
  }

  /** A part is no longer than the whole. */
  lemma {:induction false} PartIsShorter<T>(part: seq<T>, whole: seq<T>)
    requires multiset(part) <= multiset(whole)
    ensures |part| <= |whole|
  {
    if |part| > 0 {
      assert part[0] in multiset(part);
      var i := FindIn(part[0], whole);
      MultisetWithout(whole, i);
      MultisetWithout(part, 0);
      PartIsShorter(Without(part, 0), Without(whole, i));
    }
  }

  /** From a non-empty part, an element can go so that the rest is a part of the tail of the whole. */
  lemma DropHead<T>(part: seq<T>, whole: seq<T>) returns (i: nat)
    requires |part| > 0 && multiset(part) <= multiset(whole)
    ensures |whole| > 0 && i < |part| && part[i] in whole
    ensures multiset(Without(part, i)) <= multiset(whole[1..])
  {
    assert part[0] in multiset(part);
    var at := FindIn(part[0], whole);
    i := 0;
    if whole[0] in multiset(part) {
      i := FindIn(whole[0], part);
    }
    assert Without(whole, 0) == whole[1..];
    MultisetWithout(whole, 0);
    MultisetWithout(part, i);
  }
}
