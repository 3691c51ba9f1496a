/**
 * The two ways the profiler regroups a sequence:
 *  - GroupBy: `d.setdefault(key(x), []).append(x)` over a whole sequence, a
 *    map from each key to the elements that have it, in their original order;
 *  - Runs: `itertools.groupby`, the maximal runs of consecutive elements
 *    that share a key.
 */
module Grouping {

  /** The elements of s whose key is k, in their original order. */
  function Select<T, K(==)>(s: seq<T>, key: T -> K, k: K): (r: seq<T>)
    ensures |r| <= |s|
    ensures forall i :: 0 <= i < |r| ==> key(r[i]) == k
  {
    if s == [] then []
    else Select(s[..|s| - 1], key, k) + (if key(s[|s| - 1]) == k then [s[|s| - 1]] else [])
  }

  /** The keys that occur in s. */
  function KeySet<T, K(==)>(s: seq<T>, key: T -> K): set<K>
  {
    set i | 0 <= i < |s| :: key(s[i])
  }

  /** The result of appending every element of s, in order, to the list under its key. */
  function GroupBy<T, K(==)>(s: seq<T>, key: T -> K): map<K, seq<T>>
  {
    map k | k in KeySet(s, key) :: Select(s, key, k)
  }

  /** One `setdefault(key(x), []).append(x)` step on a map. */
  function AppendUnder<T, K(==)>(g: map<K, seq<T>>, k: K, x: T): (g': map<K, seq<T>>)
    ensures g'.Keys == g.Keys + {k}
  {
    g[k := (if k in g then g[k] else []) + [x]]
  }

  lemma {:induction false} SelectAbsent<T, K>(s: seq<T>, key: T -> K, k: K)
    requires k !in KeySet(s, key)
    ensures Select(s, key, k) == []
  {
    if s != [] {
      assert KeySet(s[..|s| - 1], key) <= KeySet(s, key) by {
        forall k' | k' in KeySet(s[..|s| - 1], key) ensures k' in KeySet(s, key) {
          var i :| 0 <= i < |s| - 1 && key(s[..|s| - 1][i]) == k';
          assert key(s[i]) == k';
        }
      }
      SelectAbsent(s[..|s| - 1], key, k);
      assert key(s[|s| - 1]) in KeySet(s, key);
    }
  }

  lemma KeySetSnoc<T, K>(s: seq<T>, key: T -> K, x: T)
    ensures KeySet(s + [x], key) == KeySet(s, key) + {key(x)}
  {
    var t := s + [x];
    forall k | k in KeySet(t, key) ensures k in KeySet(s, key) + {key(x)} {
      var i :| 0 <= i < |t| && key(t[i]) == k;
      if i < |s| { assert t[i] == s[i]; }
    }
    forall k | k in KeySet(s, key) ensures k in KeySet(t, key) {
      var i :| 0 <= i < |s| && key(s[i]) == k;
      assert t[i] == s[i];
    }
    assert t[|s|] == x;
  }

  /** Grouping one more element is exactly one append step: the loop invariant of every setdefault loop. */
  lemma GroupBySnoc<T, K>(s: seq<T>, key: T -> K, x: T)
    ensures GroupBy(s + [x], key) == AppendUnder(GroupBy(s, key), key(x), x)
  {
    var t := s + [x];
    assert t[..|t| - 1] == s;
    KeySetSnoc(s, key, x);
    if key(x) !in KeySet(s, key) {
      SelectAbsent(s, key, key(x));
    }
    var g, g' := GroupBy(s, key), GroupBy(t, key);
    forall k | k in g' ensures g'[k] == AppendUnder(g, key(x), x)[k] {
      assert g'[k] == Select(s, key, k) + (if key(x) == k then [x] else []);
    }
  }

  /** The step of a loop that groups s element by element. */
  lemma GroupByPrefixStep<T, K>(s: seq<T>, key: T -> K, j: nat)
    requires j < |s|
    ensures GroupBy(s[..j + 1], key) == AppendUnder(GroupBy(s[..j], key), key(s[j]), s[j])
  {
    assert s[..j + 1] == s[..j] + [s[j]];
    GroupBySnoc(s[..j], key, s[j]);
  }

  lemma GroupByEmpty<T, K>(key: T -> K)
    ensures GroupBy([], key) == map[]
  {
    assert KeySet([], key) == {};
  }

  /** Grouping three elements is three setdefault-append steps from the empty map. */
  lemma GroupByThree<T, K>(x: T, y: T, z: T, key: T -> K)
    ensures GroupBy([x, y, z], key) == AppendUnder(AppendUnder(AppendUnder(map[], key(x), x), key(y), y), key(z), z)
  {
    GroupByEmpty(key);
    GroupBySnoc([], key, x);
    GroupBySnoc([x], key, y);
    GroupBySnoc([x, y], key, z);
    assert [] + [x] == [x] && [x] + [y] == [x, y] && [x, y] + [z] == [x, y, z];
  }

  /** Grouping distributes over concatenation: earlier elements stay first in every group. */
  lemma {:induction false} SelectAppend<T, K>(a: seq<T>, b: seq<T>, key: T -> K, k: K)
    ensures Select(a + b, key, k) == Select(a, key, k) + Select(b, key, k)
    decreases |b|
  {
    if b == [] {
      assert a + b == a;
    } else {
      var b' := b[..|b| - 1];
      assert (a + b)[..|a + b| - 1] == a + b';
      assert (a + b)[|a + b| - 1] == b[|b| - 1];
      SelectAppend(a, b', key, k);
    }
  }

  /** Every element lands in the group of its own key as often as it occurs, and in no other group. */
  lemma {:induction false} SelectCount<T, K>(s: seq<T>, key: T -> K, k: K, x: T)
    ensures multiset(Select(s, key, k))[x] == if key(x) == k then multiset(s)[x] else 0
  {
    if s != [] {
      var s' := s[..|s| - 1];
      assert s == s' + [s[|s| - 1]];
      SelectCount(s', key, k, x);
    }
  }

  /** GroupBy is a lossless regrouping: the keys are exactly those that occur, and each element is in exactly its own group. */
  lemma GroupByLossless<T, K>(s: seq<T>, key: T -> K)
    ensures GroupBy(s, key).Keys == KeySet(s, key)
    ensures forall k :: k in GroupBy(s, key) ==> GroupBy(s, key)[k] != []
    ensures forall i :: 0 <= i < |s| ==>
      key(s[i]) in GroupBy(s, key) && multiset(GroupBy(s, key)[key(s[i])])[s[i]] == multiset(s)[s[i]]
    ensures forall k, x :: k in GroupBy(s, key) && x in GroupBy(s, key)[k] ==> key(x) == k && x in s
  {
    var g := GroupBy(s, key);
    forall k | k in g ensures g[k] != [] {
      var i :| 0 <= i < |s| && key(s[i]) == k;
      SelectCount(s, key, k, s[i]);
    }
    forall i | 0 <= i < |s| ensures key(s[i]) in g && multiset(g[key(s[i])])[s[i]] == multiset(s)[s[i]] {
      SelectCount(s, key, key(s[i]), s[i]);
    }
    forall k, x | k in g && x in g[k] ensures key(x) == k && x in s {
      SelectCount(s, key, k, x);
    }
  }

  /** Concatenation of a sequence of sequences. */
  function Flatten<T>(rs: seq<seq<T>>): seq<T>
  {
    if rs == [] then [] else rs[0] + Flatten(rs[1..])
  }

  /** Length of the longest prefix of s whose elements share the key of s[0]. */
  function RunLength<T, K(==)>(s: seq<T>, key: T -> K): (n: nat)
    requires s != []
    ensures 1 <= n <= |s|
    ensures forall i :: 0 <= i < n ==> key(s[i]) == key(s[0])
    ensures n < |s| ==> key(s[n]) != key(s[0])
  {
    if |s| == 1 || key(s[1]) != key(s[0]) then 1
    else 1 + RunLength(s[1..], key)
  }

  /** The maximal runs of consecutive elements with equal key (`itertools.groupby`). */
  function Runs<T, K(==)>(s: seq<T>, key: T -> K): seq<seq<T>>
    decreases |s|
  {
    if s == [] then []
    else
      var n := RunLength(s, key);
      [s[..n]] + Runs(s[n..], key)
  }

  /**
   * rs cuts s into non-empty pieces, each of one key, with the keys of
   * neighbouring pieces different: a cut into maximal consecutive runs.
   */
  ghost predicate IsRunDecomposition<T, K>(rs: seq<seq<T>>, s: seq<T>, key: T -> K)
  {
    && Flatten(rs) == s
    && (forall i :: 0 <= i < |rs| ==> rs[i] != [])
    && (forall i, j :: 0 <= i < |rs| && 0 <= j < |rs[i]| ==> key(rs[i][j]) == key(rs[i][0]))
    && (forall i :: 0 < i < |rs| ==> key(rs[i - 1][0]) != key(rs[i][0]))
  }

  lemma {:induction false} RunsDecompose<T, K>(s: seq<T>, key: T -> K)
    ensures IsRunDecomposition(Runs(s, key), s, key)
    decreases |s|
  {
    if s != [] {
      var n := RunLength(s, key);
      var rest := Runs(s[n..], key);
      RunsDecompose(s[n..], key);
      var rs := Runs(s, key);
      assert rs == [s[..n]] + rest;
      assert rs[1..] == rest;
      assert Flatten(rs) == s[..n] + s[n..] == s;
      forall i | 0 < i < |rs| ensures key(rs[i - 1][0]) != key(rs[i][0]) {
        if i == 1 {
          assert rest[0][0] == Flatten(rest)[0] == s[n];
        }
      }
    }
  }

  /** The first piece of a cut into maximal runs is the first run. */
  lemma FirstRunOfDecomposition<T, K>(rs: seq<seq<T>>, s: seq<T>, key: T -> K)
    requires IsRunDecomposition(rs, s, key)
    requires rs != []
    ensures s != [] && |rs[0]| == RunLength(s, key) && s[..|rs[0]|] == rs[0]
    ensures Flatten(rs[1..]) == s[|rs[0]|..]
  {
    assert Flatten(rs) == rs[0] + Flatten(rs[1..]);
    var n := RunLength(s, key);
    var m := |rs[0]|;
    assert s[0] == rs[0][0];
    assert s[..m] == rs[0];
    assert forall i :: 0 <= i < m ==> key(s[i]) == key(s[0]);
    if m < |s| {
      assert rs[1..] != [];
      assert Flatten(rs[1..]) == rs[1] + Flatten(rs[2..]);
      assert s[m] == rs[1][0];
      assert key(s[m]) != key(s[0]);
    }
    assert n <= m;
    assert m <= n;
  }

  /** The pieces after the first cut the rest of the sequence into maximal runs. */
  lemma TailOfDecomposition<T, K>(rs: seq<seq<T>>, s: seq<T>, key: T -> K)
    requires IsRunDecomposition(rs, s, key)
    requires rs != []
    ensures IsRunDecomposition(rs[1..], s[|rs[0]|..], key)
  {
    FirstRunOfDecomposition(rs, s, key);
    var t := rs[1..];
    assert forall i :: 0 <= i < |t| ==> t[i] == rs[i + 1];
    forall i | 0 < i < |t| ensures key(t[i - 1][0]) != key(t[i][0]) {
      assert t[i - 1] == rs[i] && t[i] == rs[i + 1];
    }
  }

  /** Runs is the only cut into maximal consecutive runs. */
  lemma {:induction false} RunDecompositionUnique<T, K>(rs: seq<seq<T>>, s: seq<T>, key: T -> K)
    requires IsRunDecomposition(rs, s, key)
    ensures rs == Runs(s, key)
    decreases |s|
  {
    if rs == [] {
      assert s == Flatten(rs) == [];
    } else {
      FirstRunOfDecomposition(rs, s, key);
      TailOfDecomposition(rs, s, key);
      var n := |rs[0]|;
      RunDecompositionUnique(rs[1..], s[n..], key);
      assert Runs(s, key) == [s[..n]] + Runs(s[n..], key);
      assert rs == [rs[0]] + rs[1..];
    }
  }

  /** An element of the concatenation is an element of one of the pieces. */
  lemma {:induction false} FlattenMember<T>(rs: seq<seq<T>>, x: T)
    ensures x in Flatten(rs) <==> exists i :: 0 <= i < |rs| && x in rs[i]
  {
    if rs != [] {
      FlattenMember(rs[1..], x);
      assert forall i :: 1 <= i < |rs| ==> rs[1..][i - 1] == rs[i];
      if exists i :: 0 <= i < |rs| && x in rs[i] {
        var i :| 0 <= i < |rs| && x in rs[i];
        if i > 0 {
          assert x in rs[1..][i - 1];
        }
      }
    }
  }
}
