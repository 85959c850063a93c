/**
 General facts about sequences: duplicate-free lists, mapping, flattening,
 and how each of them treats two lists that are permutations of each other.
 */
module Seqs {

  ghost predicate NoDuplicates<T>(s: seq<T>) {
    forall i, j :: 0 <= i < |s| && 0 <= j < |s| && s[i] == s[j] ==> i == j
  }

  lemma {:induction false} NoDuplicatesCount<T>(s: seq<T>, x: T)
    requires NoDuplicates(s)
    ensures multiset(s)[x] == if x in s then 1 else 0
    decreases |s|
  {
    if |s| > 0 {
      var init := s[..|s| - 1];
      assert s == init + [s[|s| - 1]];
      assert NoDuplicates(init) by {
        forall a, b | 0 <= a < |init| && 0 <= b < |init| && init[a] == init[b] ensures a == b {
          assert s[a] == s[b];
        }
      }
      NoDuplicatesCount(init, x);
      forall a | 0 <= a < |init| ensures init[a] != s[|s| - 1] {
        assert s[a] == init[a];
      }
      assert multiset(s) == multiset(init) + multiset{s[|s| - 1]};
    }
  }

  /** Two duplicate-free lists with the same elements are permutations of each other. */
  lemma SameElementsSameMultiset<T>(a: seq<T>, b: seq<T>)
    requires NoDuplicates(a) && NoDuplicates(b)
    requires forall x :: x in a <==> x in b
    ensures multiset(a) == multiset(b)
  {
    forall x ensures multiset(a)[x] == multiset(b)[x] {
      NoDuplicatesCount(a, x);
      NoDuplicatesCount(b, x);
    }
  }

  /** `f` applied to each element, in order. */
  function Map<A, B>(f: A -> B, s: seq<A>): (r: seq<B>)
    ensures |r| == |s|
    ensures forall i :: 0 <= i < |s| ==> r[i] == f(s[i])
  {
    seq(|s|, i requires 0 <= i < |s| => f(s[i]))
  }

  /** Taking the same element out of two permutations of each other leaves permutations of each other. */
  lemma RemoveMatching<T>(a: seq<T>, b: seq<T>, j: int)
    requires multiset(a) == multiset(b)
    requires |a| >= 1 && 0 <= j < |b| && b[j] == a[0]
    ensures multiset(a[1..]) == multiset(b[..j] + b[j + 1..])
  {
    var e := a[0];
    assert b == b[..j] + [e] + b[j + 1..];
    assert a == [e] + a[1..];
    assert multiset(b) == multiset(b[..j]) + multiset{e} + multiset(b[j + 1..]);
    assert multiset(a) == multiset{e} + multiset(a[1..]);
    assert multiset(b[..j] + b[j + 1..]) == multiset(b[..j]) + multiset(b[j + 1..]);
    forall x ensures multiset(a[1..])[x] == multiset(b[..j] + b[j + 1..])[x] {
      assert multiset(a)[x] == multiset(b)[x];
    }
  }

  /** Mapping two permutations of each other gives permutations of each other. */
  lemma {:induction false} MapPermuted<A, B>(f: A -> B, a: seq<A>, b: seq<A>)
    requires multiset(a) == multiset(b)
    ensures multiset(Map(f, a)) == multiset(Map(f, b))
    decreases |a|
  {
    if |a| == 0 {
      assert |b| == |multiset(b)| == 0;
    } else {
      var e := a[0];
      assert e in multiset(b);
      var j :| 0 <= j < |b| && b[j] == e;
      var rest := b[..j] + b[j + 1..];
      RemoveMatching(a, b, j);
      MapPermuted(f, a[1..], rest);
      var x, y, z := Map(f, a[1..]), Map(f, b[..j]), Map(f, b[j + 1..]);
      assert Map(f, a) == [f(e)] + x;
      assert Map(f, b) == y + [f(e)] + z;
      assert Map(f, rest) == y + z;
      InsertPermuted(x, y, z, f(e));
    }
  }

  /** Inserting the same element into two permutations of each other keeps them permutations. */
  lemma InsertPermuted<T>(x: seq<T>, y: seq<T>, z: seq<T>, v: T)
    requires multiset(x) == multiset(y + z)
    ensures multiset([v] + x) == multiset(y + [v] + z)
  {
    assert multiset(y + [v] + z) == multiset(y) + multiset{v} + multiset(z);
    assert multiset(y + z) == multiset(y) + multiset(z);
  }

  /** The sequences of `ss` one after another. */
  function Flatten<T>(ss: seq<seq<T>>): (r: seq<T>)
    ensures |ss| == 1 ==> r == ss[0]
    decreases |ss|
  {
    if |ss| == 0 then [] else ss[0] + Flatten(ss[1..])
  }

  /** Flattening distributes over concatenation. */
  lemma {:induction false} FlattenAppend<T>(a: seq<seq<T>>, b: seq<seq<T>>)
    ensures Flatten(a + b) == Flatten(a) + Flatten(b)
    decreases |a|
  {
    if |a| == 0 {
      assert a + b == b;
    } else {
      assert (a + b)[1..] == a[1..] + b;
      FlattenAppend(a[1..], b);
    }
  }

  /** Flattening two permutations of each other gives permutations of each other. */
  lemma {:induction false} FlattenPermuted<T>(a: seq<seq<T>>, b: seq<seq<T>>)
    requires multiset(a) == multiset(b)
    ensures multiset(Flatten(a)) == multiset(Flatten(b))
    decreases |a|
  {
    if |a| == 0 {
      assert |b| == |multiset(b)| == 0;
    } else {
      var e := a[0];
      assert e in multiset(b);
      var j :| 0 <= j < |b| && b[j] == e;
      var rest := b[..j] + b[j + 1..];
      RemoveMatching(a, b, j);
      FlattenPermuted(a[1..], rest);
      assert b == b[..j] + ([e] + b[j + 1..]);
      FlattenAppend(b[..j], [e] + b[j + 1..]);
      assert ([e] + b[j + 1..])[1..] == b[j + 1..];
      FlattenAppend(b[..j], b[j + 1..]);
    }
  }
}
