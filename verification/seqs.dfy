/** Order-preserving filtering of sequences, the `Array.prototype.filter`
    and character-class deletion that several screens rely on. */
module Seqs {

  /** `sub` is obtained from `s` by deleting elements and keeping the rest in
      their original order. */
  predicate IsSubsequence<T(==)>(sub: seq<T>, s: seq<T>)
    decreases |s|
  {
    if |sub| == 0 then true
    else if |s| == 0 then false
    else if sub[0] == s[0] then IsSubsequence(sub[1..], s[1..])
    else IsSubsequence(sub, s[1..])
  }

  /** The elements of `s` satisfying `p`, in their original order. */
  function Filter<T(==,!new)>(p: T -> bool, s: seq<T>): (r: seq<T>)
    ensures |r| <= |s|
    ensures forall i :: 0 <= i < |r| ==> p(r[i])
    ensures forall x :: x in r <==> x in s && p(x)
  {
    if |s| == 0 then []
    else
      var rest := Filter(p, s[1..]);
      assert s == [s[0]] + s[1..];
      (if p(s[0]) then [s[0]] else []) + rest
  }

  /** Filtering keeps every occurrence of each element that passes. */
  lemma {:induction false} FilterCounts<T(!new)>(p: T -> bool, s: seq<T>)
    ensures forall x :: p(x) ==> multiset(Filter(p, s))[x] == multiset(s)[x]
    decreases |s|
  {
    if |s| > 0 {
      var head := if p(s[0]) then [s[0]] else [];
      FilterCounts(p, s[1..]);
      assert s == [s[0]] + s[1..];
      assert Filter(p, s) == head + Filter(p, s[1..]);
      assert multiset(Filter(p, s)) == multiset(head) + multiset(Filter(p, s[1..]));
    }
  }

  /** Filtering changes nothing exactly when every element passes. */
  lemma {:induction false} FilterFixedPoint<T(!new)>(p: T -> bool, s: seq<T>)
    ensures Filter(p, s) == s <==> forall i :: 0 <= i < |s| ==> p(s[i])
    decreases |s|
  {
    if |s| > 0 {
      FilterFixedPoint(p, s[1..]);
      assert s == [s[0]] + s[1..];
      if p(s[0]) {
        assert Filter(p, s) == [s[0]] + Filter(p, s[1..]);
        assert (forall i :: 0 <= i < |s| ==> p(s[i])) <==> (forall i :: 0 <= i < |s[1..]| ==> p(s[1..][i])) by {
          assert forall i :: 0 <= i < |s[1..]| ==> s[1..][i] == s[i + 1];
        }
      } else {
        assert !(s[0] in Filter(p, s));
      }
    }
  }

  /** Filtering distributes over concatenation. */
  lemma {:induction false} FilterAppend<T(!new)>(p: T -> bool, a: seq<T>, b: seq<T>)
    ensures Filter(p, a + b) == Filter(p, a) + Filter(p, b)
    decreases |a|
  {
    if |a| == 0 {
      assert a + b == b;
      assert Filter(p, a) == [];
    } else {
      var head := if p(a[0]) then [a[0]] else [];
      assert (a + b)[0] == a[0] && (a + b)[1..] == a[1..] + b;
      FilterAppend(p, a[1..], b);
      assert Filter(p, a + b) == head + (Filter(p, a[1..]) + Filter(p, b));
      assert head + (Filter(p, a[1..]) + Filter(p, b)) == (head + Filter(p, a[1..])) + Filter(p, b);
      assert Filter(p, a) == head + Filter(p, a[1..]);
    }
  }

  /** Filtering only deletes: the survivors form a subsequence of the input. */
  lemma {:induction false} FilterIsSubsequence<T(!new)>(p: T -> bool, s: seq<T>)
    ensures IsSubsequence(Filter(p, s), s)
    decreases |s|
  {
    if |s| > 0 {
      var rest := Filter(p, s[1..]);
      FilterIsSubsequence(p, s[1..]);
      if p(s[0]) {
        var r := [s[0]] + rest;
        assert Filter(p, s) == r;
        assert r[0] == s[0] && r[1..] == rest;
      } else {
        assert Filter(p, s) == rest;
        SubsequenceOfTail(rest, s);
      }
    }
  }

  /** Every sequence is a subsequence of itself. */
  lemma {:induction false} SubsequenceOfItself<T>(s: seq<T>)
    ensures IsSubsequence(s, s)
  {
    if |s| > 0 {
      SubsequenceOfItself(s[1..]);
    }
  }

  /** A subsequence of the tail of `s` is a subsequence of `s`. */
  lemma {:induction false} SubsequenceOfTail<T>(sub: seq<T>, s: seq<T>)
    requires |s| > 0
    requires IsSubsequence(sub, s[1..])
    ensures IsSubsequence(sub, s)
    decreases |s|, |sub|
  {
    if |sub| > 0 && sub[0] == s[0] {
      // Matching the head against s[0] leaves sub[1..] to match in s[1..].
      SubsequenceDropHead(sub, s[1..]);
    }
  }

  /** Dropping the first element keeps a subsequence a subsequence. */
  lemma {:induction false} SubsequenceDropHead<T>(sub: seq<T>, s: seq<T>)
    requires |sub| > 0
    requires IsSubsequence(sub, s)
    ensures IsSubsequence(sub[1..], s)
    decreases |s|, |sub|
  {
    assert |s| > 0;
    if sub[0] == s[0] {
      if |sub| > 1 {
        SubsequenceOfTail(sub[1..], s);
      }
    } else {
      SubsequenceDropHead(sub, s[1..]);
      if |sub| > 1 {
        SubsequenceOfTail(sub[1..], s);
      }
    }
  }

  /** `key` never increases along `s`. */
  predicate Descending<T>(key: T -> int, s: seq<T>) {
    forall i, j :: 0 <= i < j < |s| ==> key(s[i]) >= key(s[j])
  }

  /** The elements of `s` whose key is `k`, in their order in `s`. */
  function WithKey<T>(key: T -> int, s: seq<T>, k: int): seq<T> {
    if |s| == 0 then [] else (if key(s[0]) == k then [s[0]] else []) + WithKey(key, s[1..], k)
  }

  /** Putting an element no smaller than every key in front of a descending
      sequence keeps it descending. */
  lemma DescendingCons<T>(key: T -> int, y: T, s: seq<T>)
    requires Descending(key, s)
    requires forall i :: 0 <= i < |s| ==> key(s[i]) <= key(y)
    ensures Descending(key, [y] + s)
  {
    var r := [y] + s;
    forall i, j | 0 <= i < j < |r|
      ensures key(r[i]) >= key(r[j])
    {
      assert r[j] == s[j - 1];
      if i > 0 {
        assert r[i] == s[i - 1];
      }
    }
  }

  /** Inserts `x` into a descending sequence ahead of every element whose key
      is not greater than its own. */
  function InsertDescending<T(==)>(key: T -> int, x: T, s: seq<T>): (r: seq<T>)
    requires Descending(key, s)
    ensures Descending(key, r)
    ensures multiset(r) == multiset(s) + multiset{x}
    ensures |r| == |s| + 1
    ensures forall i :: 0 <= i < |r| ==> key(r[i]) <= key(x) || (|s| > 0 && key(r[i]) <= key(s[0]))
  {
    if |s| == 0 then [x]
    else if key(x) >= key(s[0]) then
      DescendingCons(key, x, s);
      [x] + s
    else
      var head, tail := s[0], s[1..];
      assert Descending(key, tail);
      var rest := InsertDescending(key, x, tail);
      assert |tail| > 0 ==> key(tail[0]) <= key(head);
      DescendingCons(key, head, rest);
      assert multiset(s) == multiset{head} + multiset(tail) by {
        assert s == [head] + tail;
      }
      [head] + rest
  }

  /** Filtering by key over a sequence with a known head. */
  lemma WithKeyCons<T>(key: T -> int, y: T, s: seq<T>, k: int)
    ensures WithKey(key, [y] + s, k) == (if key(y) == k then [y] else []) + WithKey(key, s, k)
  {
    assert ([y] + s)[0] == y && ([y] + s)[1..] == s;
  }

  /** Inserting `x` puts it ahead of the elements with the same key and leaves
      their order alone. */
  lemma {:induction false} InsertDescendingWithKey<T>(key: T -> int, x: T, s: seq<T>, k: int)
    requires Descending(key, s)
    ensures WithKey(key, InsertDescending(key, x, s), k) == if key(x) == k then [x] + WithKey(key, s, k) else WithKey(key, s, k)
  {
    if |s| == 0 {
      WithKeyCons(key, x, [], k);
      assert [x] + [] == [x];
    } else if key(x) >= key(s[0]) {
      WithKeyCons(key, x, s, k);
    } else {
      var head, tail := s[0], s[1..];
      assert s == [head] + tail;
      assert Descending(key, tail);
      var rest := InsertDescending(key, x, tail);
      assert InsertDescending(key, x, s) == [head] + rest;
      InsertDescendingWithKey(key, x, tail, k);
      WithKeyCons(key, head, rest, k);
      WithKeyCons(key, head, tail, k);
    }
  }

  /** A stable sort into descending key order: ordered, a permutation of the
      input, same length. */
  function SortDescending<T(==)>(key: T -> int, s: seq<T>): (r: seq<T>)
    ensures Descending(key, r)
    ensures multiset(r) == multiset(s)
    ensures |r| == |s|
  {
    if |s| == 0 then []
    else
      assert s == [s[0]] + s[1..];
      InsertDescending(key, s[0], SortDescending(key, s[1..]))
  }

  /** The sort is stable: elements with equal keys keep their input order. */
  lemma {:induction false} SortDescendingIsStable<T>(key: T -> int, s: seq<T>, k: int)
    ensures WithKey(key, SortDescending(key, s), k) == WithKey(key, s, k)
  {
    if |s| > 0 {
      SortDescendingIsStable(key, s[1..], k);
      InsertDescendingWithKey(key, s[0], SortDescending(key, s[1..]), k);
    }
  }
}
