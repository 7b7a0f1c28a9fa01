/**
 * ASSUMED `groupBy(items, key)`: the repository's helper's source is not part of this model.
 * Its callers rely on it returning the groups in the order their keys are first seen, each
 * group holding its items in input order; this module defines it that way (as the usual
 * `reduce` that appends each item to the group of its key) and proves those properties.
 */
module Grouping {
  import opened Seqs

  /** Append `x` to the group keyed `k`, opening a new last group when there is none. */
  function Add<T, K(==)>(groups: seq<(K, seq<T>)>, k: K, x: T): seq<(K, seq<T>)> {
    if groups == [] then [(k, [x])]
    else if groups[0].0 == k then [(k, groups[0].1 + [x])] + groups[1..]
    else [groups[0]] + Add(groups[1..], k, x)
  }

  /** The groups of `xs` by `key`, as a sequence of (key, items) entries. */
  function GroupBy<T, K(==)>(xs: seq<T>, key: T -> K): seq<(K, seq<T>)> {
    if xs == [] then []
    else
      var n := |xs| - 1;
      Add(GroupBy(xs[..n], key), key(xs[n]), xs[n])
  }

  /** The items of `xs` whose key is `k`, in input order: the reference that groups are checked against. */
  function Select<T, K(==)>(xs: seq<T>, key: T -> K, k: K): (r: seq<T>)
    ensures forall i :: 0 <= i < |r| ==> key(r[i]) == k
  {
    if xs == [] then []
    else
      var n := |xs| - 1;
      Select(xs[..n], key, k) + (if key(xs[n]) == k then [xs[n]] else [])
  }

  /** All items of all groups, group after group. */
  function Flatten<T, K>(groups: seq<(K, seq<T>)>): seq<T> {
    if groups == [] then [] else groups[0].1 + Flatten(groups[1..])
  }

  predicate HasKey<T, K(==)>(groups: seq<(K, seq<T>)>, k: K) {
    exists i :: 0 <= i < |groups| && groups[i].0 == k
  }

  /**
   * `groups` is a grouping of `xs` by `key`: keys are distinct, every key of an item of `xs`
   * has a group, and each group is exactly the items of its key in input order.
   */
  ghost predicate IsGrouping<T, K>(xs: seq<T>, key: T -> K, groups: seq<(K, seq<T>)>) {
    (forall i, j :: 0 <= i < j < |groups| ==> groups[i].0 != groups[j].0)
    && (forall i :: 0 <= i < |groups| ==> groups[i].1 == Select(xs, key, groups[i].0) && groups[i].1 != [])
    && (forall p :: 0 <= p < |xs| ==> HasKey(groups, key(xs[p])))
  }

  /** What Add does to a grouping with distinct keys: extend the group of `k`, or append a new one. */
  lemma {:induction false} AddShape<T, K>(groups: seq<(K, seq<T>)>, k: K, x: T)
    ensures |Add(groups, k, x)| == if HasKey(groups, k) then |groups| else |groups| + 1
    ensures forall i :: 0 <= i < |groups| && groups[i].0 != k ==> Add(groups, k, x)[i] == groups[i]
    ensures forall i :: 0 <= i < |groups| && groups[i].0 == k && (forall j :: 0 <= j < i ==> groups[j].0 != k) ==> Add(groups, k, x)[i] == (k, groups[i].1 + [x])
    ensures !HasKey(groups, k) ==> Add(groups, k, x) == groups + [(k, [x])]
  {
    if groups != [] && groups[0].0 != k {
      AddShape(groups[1..], k, x);
      var r := Add(groups, k, x);
      assert r == [groups[0]] + Add(groups[1..], k, x);
      assert HasKey(groups, k) <==> HasKey(groups[1..], k) by {
        if HasKey(groups, k) {
          var i :| 0 <= i < |groups| && groups[i].0 == k;
          assert groups[1..][i - 1].0 == k;
        }
        if HasKey(groups[1..], k) {
          var i :| 0 <= i < |groups[1..]| && groups[1..][i].0 == k;
          assert groups[i + 1].0 == k;
        }
      }
      forall i | 0 <= i < |groups| && groups[i].0 == k && (forall j :: 0 <= j < i ==> groups[j].0 != k)
        ensures r[i] == (k, groups[i].1 + [x])
      {
        assert i > 0;
        assert r[i] == Add(groups[1..], k, x)[i - 1];
        forall j | 0 <= j < i - 1 ensures groups[1..][j].0 != k {
          assert groups[j + 1].0 != k;
        }
      }
    } else if groups != [] {
      assert HasKey(groups, k) by { assert groups[0].0 == k; }
    }
  }

  /** GroupBy groups: distinct keys, every item's key present, each group its key's items in input order. */
  lemma {:induction false} GroupByIsGrouping<T, K>(xs: seq<T>, key: T -> K)
    ensures IsGrouping(xs, key, GroupBy(xs, key))
  {
    if xs != [] {
      var n := |xs| - 1;
      var pre, x := xs[..n], xs[n];
      assert xs == pre + [x];
      GroupByIsGrouping(pre, key);
      if HasKey(GroupBy(pre, key), key(x)) {
        AddToGroup(pre, key, GroupBy(pre, key), x);
      } else {
        AddNewGroup(pre, key, GroupBy(pre, key), x);
      }
    }
  }

  /** Adding an item whose key already has a group keeps the grouping property. */
  lemma AddToGroup<T, K>(pre: seq<T>, key: T -> K, g: seq<(K, seq<T>)>, x: T)
    requires IsGrouping(pre, key, g) && HasKey(g, key(x))
    ensures IsGrouping(pre + [x], key, Add(g, key(x), x))
  {
    var xs, k := pre + [x], key(x);
    var r := Add(g, k, x);
    AddShape(g, k, x);
    var m :| 0 <= m < |g| && g[m].0 == k;
    forall i | 0 <= i < |r| ensures r[i].0 == g[i].0 && r[i].1 == Select(xs, key, r[i].0) && r[i].1 != [] {
      SelectSnoc(pre, key, g[i].0, x);
      if i != m {
        assert r[i] == g[i];
      } else {
        assert r[i] == (k, g[i].1 + [x]);
      }
    }
    forall p | 0 <= p < |xs| ensures HasKey(r, key(xs[p])) {
      if p < |pre| {
        assert xs[p] == pre[p];
        var i :| 0 <= i < |g| && g[i].0 == key(pre[p]);
        assert r[i].0 == g[i].0;
      } else {
        assert r[m].0 == k;
      }
    }
  }

  /** Adding an item with a key not seen before opens a last group and keeps the grouping property. */
  lemma AddNewGroup<T, K>(pre: seq<T>, key: T -> K, g: seq<(K, seq<T>)>, x: T)
    requires IsGrouping(pre, key, g) && !HasKey(g, key(x))
    ensures IsGrouping(pre + [x], key, Add(g, key(x), x))
  {
    AddShape(g, key(x), x);
    NewGroupKeys(pre, key, g, x);
    NewGroupItems(pre, key, g, x);
    NewGroupCovers(pre, key, g, x);
  }

  lemma NewGroupKeys<T, K>(pre: seq<T>, key: T -> K, g: seq<(K, seq<T>)>, x: T)
    requires IsGrouping(pre, key, g) && !HasKey(g, key(x))
    ensures var r := g + [(key(x), [x])]; forall i, j :: 0 <= i < j < |r| ==> r[i].0 != r[j].0
  {
    var r := g + [(key(x), [x])];
    forall i, j | 0 <= i < j < |r| ensures r[i].0 != r[j].0 {
      if j == |g| {
        assert g[i].0 != key(x);
      }
    }
  }

  lemma NewGroupItems<T, K>(pre: seq<T>, key: T -> K, g: seq<(K, seq<T>)>, x: T)
    requires IsGrouping(pre, key, g) && !HasKey(g, key(x))
    ensures var r := g + [(key(x), [x])];
      forall i :: 0 <= i < |r| ==> r[i].1 == Select(pre + [x], key, r[i].0) && r[i].1 != []
  {
    var xs, k := pre + [x], key(x);
    var r := g + [(k, [x])];
    forall i | 0 <= i < |g| ensures Select(xs, key, g[i].0) == g[i].1 {
      SelectSnoc(pre, key, g[i].0, x);
      assert g[i].0 != k;
    }
    forall p | 0 <= p < |pre| ensures key(pre[p]) != k {
      assert HasKey(g, key(pre[p]));
    }
    SelectNone(pre, key, k);
    SelectSnoc(pre, key, k, x);
  }

  lemma NewGroupCovers<T, K>(pre: seq<T>, key: T -> K, g: seq<(K, seq<T>)>, x: T)
    requires IsGrouping(pre, key, g)
    ensures var r := g + [(key(x), [x])]; forall p :: 0 <= p < |pre + [x]| ==> HasKey(r, key((pre + [x])[p]))
  {
    var xs, r := pre + [x], g + [(key(x), [x])];
    forall p | 0 <= p < |xs| ensures HasKey(r, key(xs[p])) {
      if p < |pre| {
        assert xs[p] == pre[p];
        var i :| 0 <= i < |g| && g[i].0 == key(pre[p]);
        assert r[i].0 == g[i].0;
      } else {
        assert r[|g|].0 == key(x);
      }
    }
  }

  /** Every item has its key's group, holding that key's items in input order. */
  lemma GroupOf<T, K>(xs: seq<T>, key: T -> K, x: T) returns (i: nat)
    requires x in xs
    ensures i < |GroupBy(xs, key)| && GroupBy(xs, key)[i] == (key(x), Select(xs, key, key(x)))
  {
    GroupByIsGrouping(xs, key);
    var g := GroupBy(xs, key);
    var p :| 0 <= p < |xs| && xs[p] == x;
    assert HasKey(g, key(xs[p]));
    i :| 0 <= i < |g| && g[i].0 == key(x);
  }

  /** Selecting from a sequence extended by one item. */
  lemma SelectSnoc<T, K>(xs: seq<T>, key: T -> K, k: K, x: T)
    ensures Select(xs + [x], key, k) == Select(xs, key, k) + (if key(x) == k then [x] else [])
  {
    assert (xs + [x])[..|xs|] == xs;
  }

  /** A non-empty selection has a witness in the input. */
  lemma {:induction false} SelectMember<T, K>(xs: seq<T>, key: T -> K, k: K)
    requires Select(xs, key, k) != []
    ensures exists p :: 0 <= p < |xs| && key(xs[p]) == k
  {
    var n := |xs| - 1;
    if key(xs[n]) != k {
      SelectMember(xs[..n], key, k);
      var p :| 0 <= p < n && key(xs[..n][p]) == k;
      assert xs[p] == xs[..n][p];
    }
  }

  /** Nothing is selected for a key no item has. */
  lemma {:induction false} SelectNone<T, K>(xs: seq<T>, key: T -> K, k: K)
    requires forall p :: 0 <= p < |xs| ==> key(xs[p]) != k
    ensures Select(xs, key, k) == []
  {
    if xs != [] {
      var n := |xs| - 1;
      forall p | 0 <= p < n ensures key(xs[..n][p]) != k {
        assert xs[..n][p] == xs[p];
      }
      SelectNone(xs[..n], key, k);
    }
  }

  /** Only items of the input are selected. */
  lemma {:induction false} SelectSubset<T, K>(xs: seq<T>, key: T -> K, k: K, x: T)
    requires x in Select(xs, key, k)
    ensures x in xs
  {
    var n := |xs| - 1;
    if x != xs[n] {
      SelectSubset(xs[..n], key, k, x);
    }
  }

  /** Every item of the input is selected under its own key. */
  lemma {:induction false} SelectMemberIn<T, K>(xs: seq<T>, key: T -> K, x: T)
    requires x in xs
    ensures x in Select(xs, key, key(x))
  {
    var n := |xs| - 1;
    if x != xs[n] {
      assert x in xs[..n];
      SelectMemberIn(xs[..n], key, x);
    }
  }

  lemma {:induction false} FlattenAdd<T, K>(groups: seq<(K, seq<T>)>, k: K, x: T)
    ensures multiset(Flatten(Add(groups, k, x))) == multiset(Flatten(groups)) + multiset{x}
  {
    if groups == [] {
    } else if groups[0].0 == k {
      assert Add(groups, k, x)[1..] == groups[1..];
    } else {
      FlattenAdd(groups[1..], k, x);
      assert Add(groups, k, x)[1..] == Add(groups[1..], k, x);
    }
  }

  /** No item is lost or duplicated by grouping: the groups together are a permutation of the input. */
  lemma {:induction false} GroupByPermutes<T, K>(xs: seq<T>, key: T -> K)
    ensures multiset(Flatten(GroupBy(xs, key))) == multiset(xs)
  {
    if xs != [] {
      var n := |xs| - 1;
      var pre, x := xs[..n], xs[n];
      GroupByPermutes(pre, key);
      FlattenAdd(GroupBy(pre, key), key(x), x);
      assert xs == pre + [x];
      assert multiset(xs) == multiset(pre) + multiset{x};
    }
  }

  /** Key `a` is seen before key `b` in `xs`: some item keyed `a` precedes every item keyed `b`. */
  ghost predicate SeenBefore<T, K>(xs: seq<T>, key: T -> K, a: K, b: K) {
    exists p :: 0 <= p < |xs| && key(xs[p]) == a && forall q :: 0 <= q <= p ==> key(xs[q]) != b
  }

  /** Groups come in the order their keys are first seen in the input. */
  lemma {:induction false} GroupByFirstSeenOrder<T, K>(xs: seq<T>, key: T -> K)
    ensures forall i, j :: 0 <= i < j < |GroupBy(xs, key)| ==>
      SeenBefore(xs, key, GroupBy(xs, key)[i].0, GroupBy(xs, key)[j].0)
  {
    if xs != [] {
      var n := |xs| - 1;
      var pre, x := xs[..n], xs[n];
      assert xs == pre + [x];
      GroupByFirstSeenOrder(pre, key);
      GroupByIsGrouping(pre, key);
      OrderAfterAdd(pre, key, GroupBy(pre, key), x);
      var r := GroupBy(xs, key);
      assert r == Add(GroupBy(pre, key), key(x), x);
      forall i, j | 0 <= i < j < |r| ensures SeenBefore(xs, key, r[i].0, r[j].0) {
        assert SeenBefore(pre + [x], key, r[i].0, r[j].0);
      }
    }
  }

  lemma OrderAfterAdd<T, K>(pre: seq<T>, key: T -> K, g: seq<(K, seq<T>)>, x: T)
    requires IsGrouping(pre, key, g)
    requires forall i, j :: 0 <= i < j < |g| ==> SeenBefore(pre, key, g[i].0, g[j].0)
    ensures var r := Add(g, key(x), x);
      forall i, j :: 0 <= i < j < |r| ==> SeenBefore(pre + [x], key, r[i].0, r[j].0)
  {
    var r := Add(g, key(x), x);
    AddShape(g, key(x), x);
    forall i, j | 0 <= i < j < |r| ensures SeenBefore(pre + [x], key, r[i].0, r[j].0) {
      if j < |g| {
        assert r[i].0 == g[i].0 && r[j].0 == g[j].0 by {
          if g[i].0 != key(x) { assert r[i] == g[i]; } else { KeyAt(g, key(x), i, x); }
          if g[j].0 != key(x) { assert r[j] == g[j]; } else { KeyAt(g, key(x), j, x); }
        }
        SeenBeforeExtends(pre, key, g[i].0, g[j].0, x);
      } else {
        NewKeySeenLast(pre, key, g, x, i);
      }
    }
  }

  /** An order of first appearance is kept when an item is appended. */
  lemma SeenBeforeExtends<T, K>(pre: seq<T>, key: T -> K, a: K, b: K, x: T)
    requires SeenBefore(pre, key, a, b)
    ensures SeenBefore(pre + [x], key, a, b)
  {
    var xs := pre + [x];
    var p :| 0 <= p < |pre| && key(pre[p]) == a && forall q :: 0 <= q <= p ==> key(pre[q]) != b;
    assert xs[p] == pre[p];
    forall q | 0 <= q <= p ensures key(xs[q]) != b {
      assert xs[q] == pre[q];
    }
  }

  /** A key seen for the first time in the last item comes after every existing group's key. */
  lemma NewKeySeenLast<T, K>(pre: seq<T>, key: T -> K, g: seq<(K, seq<T>)>, x: T, i: int)
    requires IsGrouping(pre, key, g) && !HasKey(g, key(x)) && 0 <= i < |g|
    ensures SeenBefore(pre + [x], key, g[i].0, key(x))
  {
    var xs := pre + [x];
    var p := SelectWitness(pre, key, g[i].0);
    forall q | 0 <= q <= p ensures key(xs[q]) != key(x) {
      assert xs[q] == pre[q];
      assert HasKey(g, key(pre[q]));
    }
    assert xs[p] == pre[p];
  }

  lemma KeyAt<T, K>(g: seq<(K, seq<T>)>, k: K, i: int, x: T)
    requires forall a, b :: 0 <= a < b < |g| ==> g[a].0 != g[b].0
    requires 0 <= i < |g| && g[i].0 == k
    ensures |Add(g, k, x)| == |g|
    ensures Add(g, k, x)[i].0 == k
  {
    AddShape(g, k, x);
  }

  lemma SelectWitness<T, K>(xs: seq<T>, key: T -> K, k: K) returns (p: int)
    requires Select(xs, key, k) != []
    ensures 0 <= p < |xs| && key(xs[p]) == k
  {
    SelectMember(xs, key, k);
    p :| 0 <= p < |xs| && key(xs[p]) == k;
  }

  /** When every item shares one key, there is one group and it is the whole input, in order. */
  lemma {:induction false} GroupBySingleKey<T, K>(xs: seq<T>, key: T -> K, k: K)
    requires xs != []
    requires forall p :: 0 <= p < |xs| ==> key(xs[p]) == k
    ensures GroupBy(xs, key) == [(k, xs)]
  {
    var n := |xs| - 1;
    if n > 0 {
      GroupBySingleKey(xs[..n], key, k);
      assert key(xs[n]) == k;
      assert GroupBy(xs, key) == Add(GroupBy(xs[..n], key), key(xs[n]), xs[n]);
      assert Add([(k, xs[..n])], k, xs[n]) == [(k, xs[..n] + [xs[n]])];
      assert xs[..n] + [xs[n]] == xs;
    } else {
      assert xs[..n] == [] && xs == [xs[0]];
      assert key(xs[0]) == k;
    }
  }
}
