/**
 * The list surgery the routes perform on Mongoose arrays: `indexOf` / `findIndex`,
 * `splice(i, 1)` (with JavaScript's clamping of the start index), and the
 * repeated "find the first match and splice it out" pattern.
 */
module Sequences {

  /** Array.prototype.indexOf: the first index holding x, or -1. */
  function IndexOf<T(==)>(s: seq<T>, x: T): (r: int)
    ensures -1 <= r < |s|
    ensures r == -1 <==> x !in s
    ensures 0 <= r ==> s[r] == x && x !in s[..r]
  {
    if s == [] then -1
    else if s[0] == x then 0
    else
      var k := IndexOf(s[1..], x);
      assert s[1..][..k + 1] == s[1..k + 2];
      if k == -1 then -1 else k + 1
  }

  /** `splice(i, 1)` for an index inside the array. */
  function RemoveAt<T>(s: seq<T>, i: nat): (r: seq<T>)
    requires i < |s|
    ensures |r| == |s| - 1
    ensures r[..i] == s[..i] && r[i..] == s[i + 1..]
    ensures forall k :: 0 <= k < |r| ==> r[k] == if k < i then s[k] else s[k + 1]
  {
    s[..i] + s[i + 1..]
  }

  /** Removes the first occurrence of x, if any; the routes' `indexOf` + `splice` pair. */
  function RemoveFirst<T(==)>(s: seq<T>, x: T): (r: seq<T>)
    ensures x !in s ==> r == s
    ensures x in s ==> |r| == |s| - 1
  {
    if s == [] then []
    else if s[0] == x then s[1..]
    else
      assert x in s[1..] <==> x in s by { assert s == [s[0]] + s[1..]; }
      [s[0]] + RemoveFirst(s[1..], x)
  }

  /** RemoveFirst takes away exactly one copy of x when there is one, and nothing else. */
  lemma {:induction false} RemoveFirstMultiset<T>(s: seq<T>, x: T)
    ensures multiset(RemoveFirst(s, x)) == multiset(s) - multiset{x}
  {
    if s != [] {
      assert s == [s[0]] + s[1..];
      if s[0] != x {
        RemoveFirstMultiset(s[1..], x);
      }
    }
  }

  /** RemoveFirst is `splice(indexOf(x), 1)`: the entries before and after the first x stay, in order. */
  lemma RemoveFirstAtIndexOf<T>(s: seq<T>, x: T)
    requires x in s
    ensures RemoveFirst(s, x) == RemoveAt(s, IndexOf(s, x))
  {
    RemoveFirstAtFirst(s, x, IndexOf(s, x));
  }

  /** Removing the first x cuts s at the position i of its first x. */
  lemma {:induction false} RemoveFirstAtFirst<T>(s: seq<T>, x: T, i: nat)
    requires i < |s| && s[i] == x && x !in s[..i]
    ensures RemoveFirst(s, x) == s[..i] + s[i + 1..]
  {
    if i == 0 {
      assert s[..0] + s[1..] == s[1..];
    } else {
      var t := s[1..];
      assert s[0] in s[..i];
      assert t[..i - 1] == s[1..i];
      assert x !in t[..i - 1];
      RemoveFirstAtFirst(t, x, i - 1);
      assert s[..i] == [s[0]] + t[..i - 1];
      assert t[i..] == s[i + 1..];
    }
  }

  /** The routes' `i = indexOf(x); if (i > -1) splice(i, 1)` on a copy of s. */
  method SpliceFirst<T(==)>(s: seq<T>, x: T) returns (r: seq<T>)
    ensures r == RemoveFirst(s, x)
  {
    r := s;
    var index := IndexOf(r, x);
    if index > -1 {
      RemoveFirstAtIndexOf(r, x);
      r := RemoveAt(r, index);
    }
  }

  /** Removes, one after the other, the first occurrence of each element of xs. */
  function RemoveAll<T(==)>(s: seq<T>, xs: seq<T>): (r: seq<T>)
    ensures |r| <= |s|
    decreases |xs|
  {
    if xs == [] then s else RemoveAll(RemoveFirst(s, xs[0]), xs[1..])
  }

  /** RemoveAll takes away one copy per element of xs, as far as there are copies. */
  lemma {:induction false} RemoveAllMultiset<T>(s: seq<T>, xs: seq<T>)
    ensures multiset(RemoveAll(s, xs)) == multiset(s) - multiset(xs)
    decreases |xs|
  {
    if xs != [] {
      var x, rest := xs[0], xs[1..];
      RemoveFirstMultiset(s, x);
      RemoveAllMultiset(RemoveFirst(s, x), rest);
      assert multiset(xs) == multiset{x} + multiset(rest) by { assert xs == [x] + rest; }
      MultisetDifferenceSum(multiset(s), multiset{x}, multiset(rest));
    }
  }

  lemma MultisetDifferenceSum<T>(a: multiset<T>, b: multiset<T>, c: multiset<T>)
    ensures (a - b) - c == a - (b + c)
  {
    forall e ensures ((a - b) - c)[e] == (a - (b + c))[e] { }
  }

  /** The elements of s that are not in a, in their original order. */
  function Without<T(==,!new)>(s: seq<T>, a: set<T>): (r: seq<T>)
    ensures |r| <= |s|
    ensures forall x :: x in r <==> x in s && x !in a
  {
    if s == [] then []
    else if s[0] in a then Without(s[1..], a)
    else [s[0]] + Without(s[1..], a)
  }

  ghost predicate NoDuplicates<T>(s: seq<T>) {
    forall i, j :: 0 <= i < j < |s| ==> s[i] != s[j]
  }

  function Elements<T(!new)>(s: seq<T>): (r: set<T>)
    ensures forall x :: x in r <==> x in s
  {
    set x | x in s
  }

  /** Array.prototype.reverse, as the feed view applies it before rendering. */
  function Reverse<T>(s: seq<T>): (r: seq<T>)
    ensures |r| == |s|
    ensures forall k :: 0 <= k < |s| ==> r[k] == s[|s| - 1 - k]
  {
    if s == [] then [] else Reverse(s[1..]) + [s[0]]
  }

  /** The start position `splice(start, ...)` actually uses: negative starts count from the end. */
  function SpliceStart(len: nat, start: int): (k: nat)
    ensures k <= len
    ensures 0 <= start <= len ==> k == start
    ensures start < 0 && 0 <= len + start ==> k == len + start
    ensures len + start < 0 ==> k == 0
    ensures len < start ==> k == len
  {
    if start < 0 then (if len + start < 0 then 0 else len + start)
    else if start > len then len
    else start
  }

  /** `s.splice(start, 1)` with JavaScript's semantics for any integer start. */
  function SpliceOne<T>(s: seq<T>, start: int): (r: seq<T>)
    ensures var k := SpliceStart(|s|, start); if k < |s| then r == RemoveAt(s, k) else r == s
  {
    var k := SpliceStart(|s|, start);
    if k < |s| then RemoveAt(s, k) else s
  }

  // ---------------------------------------------------------------- lemmas

  /** Removing the first x from a list without duplicates is filtering x out. */
  lemma {:induction false} RemoveFirstNoDuplicates<T(!new)>(s: seq<T>, x: T)
    requires NoDuplicates(s)
    ensures RemoveFirst(s, x) == Without(s, {x})
    ensures NoDuplicates(RemoveFirst(s, x))
  {
    if s == [] {
    } else if s[0] == x {
      assert x !in s[1..];
      WithoutAbsent(s[1..], {x});
      assert NoDuplicates(s[1..]);
    } else {
      assert NoDuplicates(s[1..]);
      RemoveFirstNoDuplicates(s[1..], x);
      WithoutNoDuplicates(s, {x});
    }
  }

  lemma {:induction false} WithoutAbsent<T(!new)>(s: seq<T>, a: set<T>)
    requires forall x :: x in s ==> x !in a
    ensures Without(s, a) == s
  {
    if s != [] {
      WithoutAbsent(s[1..], a);
    }
  }

  lemma {:induction false} WithoutNoDuplicates<T(!new)>(s: seq<T>, a: set<T>)
    requires NoDuplicates(s)
    ensures NoDuplicates(Without(s, a))
  {
    if s != [] {
      assert NoDuplicates(s[1..]);
      WithoutNoDuplicates(s[1..], a);
      assert s[0] !in s[1..];
    }
  }

  lemma {:induction false} WithoutWithout<T(!new)>(s: seq<T>, a: set<T>, b: set<T>)
    ensures Without(Without(s, a), b) == Without(s, a + b)
  {
    if s != [] {
      WithoutWithout(s[1..], a, b);
    }
  }

  /**
   * On a list without duplicates, removing the first occurrence of each element of xs
   * keeps exactly the elements that are not in xs, in their original order.
   */
  lemma {:induction false} RemoveAllNoDuplicates<T(!new)>(s: seq<T>, xs: seq<T>)
    requires NoDuplicates(s)
    ensures RemoveAll(s, xs) == Without(s, Elements(xs))
    decreases |xs|
  {
    if xs == [] {
      assert Elements(xs) == {};
      WithoutAbsent(s, {});
    } else {
      RemoveFirstNoDuplicates(s, xs[0]);
      RemoveAllNoDuplicates(RemoveFirst(s, xs[0]), xs[1..]);
      WithoutWithout(s, {xs[0]}, Elements(xs[1..]));
      assert {xs[0]} + Elements(xs[1..]) == Elements(xs);
    }
  }

  /** Removals of first occurrences of two values commute, so the order of a removal loop is immaterial. */
  lemma {:induction false} RemoveFirstCommutes<T>(s: seq<T>, x: T, y: T)
    ensures RemoveFirst(RemoveFirst(s, x), y) == RemoveFirst(RemoveFirst(s, y), x)
  {
    if x == y || s == [] {
    } else if s[0] == x {
      assert RemoveFirst([s[0]] + RemoveFirst(s[1..], y), x) == RemoveFirst(s[1..], y) by {
        assert ([s[0]] + RemoveFirst(s[1..], y))[0] == x;
        assert ([s[0]] + RemoveFirst(s[1..], y))[1..] == RemoveFirst(s[1..], y);
      }
    } else if s[0] == y {
      assert RemoveFirst([s[0]] + RemoveFirst(s[1..], x), y) == RemoveFirst(s[1..], x) by {
        assert ([s[0]] + RemoveFirst(s[1..], x))[0] == y;
        assert ([s[0]] + RemoveFirst(s[1..], x))[1..] == RemoveFirst(s[1..], x);
      }
    } else {
      assert ([s[0]] + RemoveFirst(s[1..], x))[1..] == RemoveFirst(s[1..], x);
      assert ([s[0]] + RemoveFirst(s[1..], y))[1..] == RemoveFirst(s[1..], y);
      RemoveFirstCommutes(s[1..], x, y);
    }
  }

  /** One more removal can be done first or last. */
  lemma {:induction false} RemoveAllRemoveFirst<T>(s: seq<T>, x: T, ys: seq<T>)
    ensures RemoveAll(RemoveFirst(s, x), ys) == RemoveFirst(RemoveAll(s, ys), x)
    decreases |ys|
  {
    if ys != [] {
      RemoveFirstCommutes(s, x, ys[0]);
      RemoveAllRemoveFirst(RemoveFirst(s, ys[0]), x, ys[1..]);
    }
  }

  /** The removal of any x among ys can be moved to the end of the removals. */
  lemma {:induction false} RemoveAllExtract<T>(s: seq<T>, ys: seq<T>, x: T)
    requires x in ys
    ensures RemoveAll(s, ys) == RemoveFirst(RemoveAll(s, RemoveFirst(ys, x)), x)
    decreases |ys|
  {
    if ys[0] == x {
      RemoveAllRemoveFirst(s, x, ys[1..]);
    } else {
      assert x in ys[1..] by { assert ys == [ys[0]] + ys[1..]; }
      RemoveAllExtract(RemoveFirst(s, ys[0]), ys[1..], x);
      var t := RemoveFirst(ys[1..], x);
      assert ([ys[0]] + t)[0] == ys[0] && ([ys[0]] + t)[1..] == t;
    }
  }

  /** RemoveAll depends only on the multiset of values removed, not on their order. */
  lemma {:induction false} RemoveAllPermutation<T>(s: seq<T>, xs: seq<T>, ys: seq<T>)
    requires multiset(xs) == multiset(ys)
    ensures RemoveAll(s, xs) == RemoveAll(s, ys)
    decreases |xs|
  {
    if xs == [] {
      assert |ys| == |multiset(ys)| == 0;
    } else {
      var x := xs[0];
      assert xs == [x] + xs[1..];
      assert x in multiset(ys);
      RemoveFirstMultiset(ys, x);
      RemoveAllPermutation(s, xs[1..], RemoveFirst(ys, x));
      RemoveAllRemoveFirst(s, x, xs[1..]);
      RemoveAllExtract(s, ys, x);
    }
  }

  /** When x occurs at most once, removing its first occurrence leaves none. */
  lemma RemoveFirstClears<T>(s: seq<T>, x: T)
    requires multiset(s)[x] <= 1
    ensures x !in RemoveFirst(s, x)
  {
    RemoveFirstMultiset(s, x);
    assert multiset(RemoveFirst(s, x))[x] == 0;
  }

  /** Removing position i of the reversed sequence is removing position |s| - 1 - i of s. */
  lemma ReverseRemoveAt<T>(s: seq<T>, i: nat)
    requires i < |s|
    ensures Reverse(RemoveAt(s, |s| - 1 - i)) == RemoveAt(Reverse(s), i)
  {
    var a, b := Reverse(RemoveAt(s, |s| - 1 - i)), RemoveAt(Reverse(s), i);
    forall k | 0 <= k < |a|
      ensures a[k] == b[k]
    {
      if k < i {
        assert a[k] == s[|s| - 1 - k];
      } else {
        assert a[k] == s[|s| - 2 - k];
      }
    }
  }

  /**
   * `splice(start, 1)` with start = |s| - r - 1 for r >= |s|: a negative start counts
   * from the end, down to the first element.
   */
  lemma SpliceOneFromEnd<T>(s: seq<T>, r: int)
    requires |s| <= r
    ensures var s' := SpliceOne(s, |s| - r - 1);
            && (s == [] ==> s' == [])
            && (s != [] && r < 2 * |s| ==> s' == RemoveAt(s, 2 * |s| - 1 - r))
            && (s != [] && 2 * |s| <= r ==> s' == s[1..])
  {
    if s != [] && 2 * |s| <= r {
      assert s[..0] + s[1..] == s[1..];
    }
  }
}
