/** The LINQ queries the exporters run before they write cells: `GroupBy`
    (groups in order of first key occurrence, source order inside each group)
    and `Sum`. */
module Grouping {

  /** One group of a `GroupBy`: its key and the elements that carry it. */
  datatype Group<K, T> = Group(key: K, items: seq<T>)

  /** The keys of a list of groups, in group order. Coverage of the input is
      stated as membership in this sequence rather than as an existential over groups. */
  function Keys<K, T>(gs: seq<Group<K, T>>): (ks: seq<K>)
    ensures |ks| == |gs|
    ensures forall i :: 0 <= i < |gs| ==> ks[i] == gs[i].key
  {
    if gs == [] then [] else [gs[0].key] + Keys(gs[1..])
  }

  /** No two groups share a key. */
  predicate DistinctKeys<K(==), T>(gs: seq<Group<K, T>>) {
    forall i, j :: 0 <= i < j < |gs| ==> gs[i].key != gs[j].key
  }

  /** The elements of `xs` whose key is `k`, in source order. */
  function Filter<T, K(==)>(xs: seq<T>, key: T -> K, k: K): (r: seq<T>)
    ensures |r| <= |xs|
    ensures forall y :: y in r ==> y in xs && key(y) == k
  {
    if xs == [] then []
    else
      var n := |xs| - 1;
      Filter(xs[..n], key, k) + (if key(xs[n]) == k then [xs[n]] else [])
  }

  /** The position of the first element of `xs` whose key is `k`, or `|xs|` when there is none. */
  function FirstIndex<T, K(==)>(xs: seq<T>, key: T -> K, k: K): (n: nat)
    ensures n <= |xs|
    ensures n < |xs| ==> key(xs[n]) == k
    ensures forall p :: 0 <= p < n ==> key(xs[p]) != k
  {
    if xs == [] then 0
    else if key(xs[0]) == k then 0
    else 1 + FirstIndex(xs[1..], key, k)
  }

  /** Adds `x` under key `k`: to the first group with that key, or to a new group at the end. */
  function Insert<K(==), T>(gs: seq<Group<K, T>>, k: K, x: T): (r: seq<Group<K, T>>)
    ensures (forall i :: 0 <= i < |gs| ==> gs[i].items != []) ==> forall i :: 0 <= i < |r| ==> r[i].items != []
  {
    if gs == [] then [Group(k, [x])]
    else if gs[0].key == k then [Group(k, gs[0].items + [x])] + gs[1..]
    else [gs[0]] + Insert(gs[1..], k, x)
  }

  /** `Enumerable.GroupBy`: each element in turn is added to the group of its key. */
  function GroupBy<T, K(==)>(xs: seq<T>, key: T -> K): (gs: seq<Group<K, T>>)
    ensures forall i :: 0 <= i < |gs| ==> gs[i].items != []
  {
    if xs == [] then []
    else
      var n := |xs| - 1;
      Insert(GroupBy(xs[..n], key), key(xs[n]), xs[n])
  }

  /** The elements of all groups, group after group. */
  function Flatten<K, T>(gs: seq<Group<K, T>>): seq<T>
  {
    if gs == [] then [] else gs[0].items + Flatten(gs[1..])
  }

  /** `Sum(f)` over a sequence. */
  function Sum<T>(xs: seq<T>, f: T -> int): int
  {
    if xs == [] then 0 else Sum(xs[..|xs| - 1], f) + f(xs[|xs| - 1])
  }

  /** The sum of `Sum(f)` over each group. */
  function GroupTotal<K, T>(gs: seq<Group<K, T>>, f: T -> int): int
  {
    if gs == [] then 0 else Sum(gs[0].items, f) + GroupTotal(gs[1..], f)
  }

  /** Each group holds exactly the elements of `xs` with its key, in source order, and is not empty. */
  ghost predicate ItemsAreFilters<T, K>(gs: seq<Group<K, T>>, xs: seq<T>, key: T -> K) {
    forall i :: 0 <= i < |gs| ==> gs[i].items == Filter(xs, key, gs[i].key) && gs[i].items != []
  }

  /** Every element's key has a group. */
  ghost predicate CoversInput<T, K>(gs: seq<Group<K, T>>, xs: seq<T>, key: T -> K) {
    forall p :: 0 <= p < |xs| ==> key(xs[p]) in Keys(gs)
  }

  /** Groups come in order of the first occurrence of their keys in `xs`. */
  ghost predicate FirstOccurrenceOrder<T, K>(gs: seq<Group<K, T>>, xs: seq<T>, key: T -> K) {
    forall i, j :: 0 <= i < j < |gs| ==> FirstIndex(xs, key, gs[i].key) < FirstIndex(xs, key, gs[j].key)
  }

  /** What `GroupBy(xs, key)` promises of its groups `gs`. */
  ghost predicate IsGroupingOf<T, K>(gs: seq<Group<K, T>>, xs: seq<T>, key: T -> K) {
    && DistinctKeys(gs)
    && ItemsAreFilters(gs, xs, key)
    && CoversInput(gs, xs, key)
    && FirstOccurrenceOrder(gs, xs, key)
  }

  lemma FirstIndexSnoc<T, K>(xs: seq<T>, x: T, key: T -> K, k: K)
    ensures FirstIndex(xs + [x], key, k) ==
      if FirstIndex(xs, key, k) < |xs| then FirstIndex(xs, key, k)
      else if key(x) == k then |xs| else |xs| + 1
  {
    var ys := xs + [x];
    assert forall p :: 0 <= p < |xs| ==> ys[p] == xs[p];
    assert ys[|xs|] == x;
  }

  /** A key has members exactly when it occurs in the sequence. */
  lemma {:induction false} FilterNonEmpty<T, K>(xs: seq<T>, key: T -> K, k: K)
    ensures Filter(xs, key, k) != [] <==> FirstIndex(xs, key, k) < |xs|
  {
    if xs != [] {
      var n := |xs| - 1;
      assert xs == xs[..n] + [xs[n]];
      FilterNonEmpty(xs[..n], key, k);
      FirstIndexSnoc(xs[..n], xs[n], key, k);
    }
  }

  /** The first member of a key's group is the key's first occurrence in the input. */
  lemma {:induction false} FilterFirst<T, K>(xs: seq<T>, key: T -> K, k: K)
    requires Filter(xs, key, k) != []
    ensures FirstIndex(xs, key, k) < |xs| && Filter(xs, key, k)[0] == xs[FirstIndex(xs, key, k)]
  {
    var n := |xs| - 1;
    assert xs == xs[..n] + [xs[n]];
    FirstIndexSnoc(xs[..n], xs[n], key, k);
    FilterNonEmpty(xs[..n], key, k);
    if Filter(xs[..n], key, k) != [] {
      FilterFirst(xs[..n], key, k);
    }
  }

  /** Filter over one more element. */
  lemma FilterSnoc<T, K>(xs: seq<T>, x: T, key: T -> K, k: K)
    ensures Filter(xs + [x], key, k) == Filter(xs, key, k) + (if key(x) == k then [x] else [])
  {
    assert (xs + [x])[..|xs|] == xs;
  }

  lemma {:induction false} InsertExisting<K, T>(gs: seq<Group<K, T>>, k: K, x: T, j: nat)
    requires DistinctKeys(gs)
    requires j < |gs| && gs[j].key == k
    ensures Insert(gs, k, x) == gs[j := Group(k, gs[j].items + [x])]
  {
    if j > 0 {
      assert gs[0].key != gs[j].key;
      InsertExisting(gs[1..], k, x, j - 1);
    }
  }

  lemma {:induction false} InsertNew<K, T>(gs: seq<Group<K, T>>, k: K, x: T)
    requires k !in Keys(gs)
    ensures Insert(gs, k, x) == gs + [Group(k, [x])]
  {
    if gs != [] {
      assert Keys(gs)[0] == gs[0].key;
      assert Keys(gs) == [gs[0].key] + Keys(gs[1..]);
      InsertNew(gs[1..], k, x);
    }
  }

  /** The key of every group occurs in the input. */
  lemma GroupKeysOccur<T, K>(gs: seq<Group<K, T>>, xs: seq<T>, key: T -> K)
    requires ItemsAreFilters(gs, xs, key)
    ensures forall i :: 0 <= i < |gs| ==> FirstIndex(xs, key, gs[i].key) < |xs|
  {
    forall i | 0 <= i < |gs| ensures FirstIndex(xs, key, gs[i].key) < |xs| {
      FilterNonEmpty(xs, key, gs[i].key);
    }
  }

  /** Appending to the input leaves the first occurrence of the keys already grouped in place. */
  lemma OrderKept<T, K>(gs: seq<Group<K, T>>, gs': seq<Group<K, T>>, xs: seq<T>, x: T, key: T -> K)
    requires ItemsAreFilters(gs, xs, key) && FirstOccurrenceOrder(gs, xs, key)
    requires |gs| <= |gs'| && forall i :: 0 <= i < |gs| ==> gs'[i].key == gs[i].key
    ensures forall i :: 0 <= i < |gs| ==>
      FirstIndex(xs + [x], key, gs'[i].key) == FirstIndex(xs, key, gs[i].key) < |xs|
    ensures forall i, j :: 0 <= i < j < |gs| ==>
      FirstIndex(xs + [x], key, gs'[i].key) < FirstIndex(xs + [x], key, gs'[j].key)
  {
    GroupKeysOccur(gs, xs, key);
    forall i | 0 <= i < |gs|
      ensures FirstIndex(xs + [x], key, gs'[i].key) == FirstIndex(xs, key, gs[i].key) < |xs|
    {
      FirstIndexSnoc(xs, x, key, gs[i].key);
    }
  }

  /** Adding an element whose key already has group `j` keeps each group equal to its filter. */
  lemma FiltersExisting<T, K>(gs: seq<Group<K, T>>, xs: seq<T>, x: T, key: T -> K, j: nat)
    requires DistinctKeys(gs) && ItemsAreFilters(gs, xs, key)
    requires j < |gs| && gs[j].key == key(x)
    ensures ItemsAreFilters(gs[j := Group(key(x), gs[j].items + [x])], xs + [x], key)
  {
    var gs' := gs[j := Group(key(x), gs[j].items + [x])];
    forall i | 0 <= i < |gs'|
      ensures gs'[i].items == Filter(xs + [x], key, gs'[i].key) && gs'[i].items != []
    {
      FilterSnoc(xs, x, key, gs[i].key);
      if i < j {
        assert gs[i].key != gs[j].key;
      } else if j < i {
        assert gs[j].key != gs[i].key;
      }
    }
  }

  /** Adding an element whose key has no group yet keeps each group equal to its filter. */
  lemma FiltersNew<T, K>(gs: seq<Group<K, T>>, xs: seq<T>, x: T, key: T -> K)
    requires ItemsAreFilters(gs, xs, key) && CoversInput(gs, xs, key)
    requires key(x) !in Keys(gs)
    ensures ItemsAreFilters(gs + [Group(key(x), [x])], xs + [x], key)
  {
    var k := key(x);
    var gs' := gs + [Group(k, [x])];
    FilterNonEmpty(xs, key, k);
    forall i | 0 <= i < |gs'|
      ensures gs'[i].items == Filter(xs + [x], key, gs'[i].key) && gs'[i].items != []
    {
      FilterSnoc(xs, x, key, gs'[i].key);
      if i < |gs| {
        assert Keys(gs)[i] == gs[i].key;
      }
    }
  }

  /** The groups still cover the input after one more element whose key they hold. */
  lemma CoverStep<T, K>(gs: seq<Group<K, T>>, xs: seq<T>, x: T, key: T -> K)
    requires CoversInput(gs, xs, key) && key(x) in Keys(gs)
    ensures CoversInput(gs, xs + [x], key)
  {
    var ys := xs + [x];
    forall p | 0 <= p < |ys| ensures key(ys[p]) in Keys(gs) {
      if p < |xs| {
        assert ys[p] == xs[p];
      }
    }
  }

  /** Growing the items of group `j` changes no key. */
  lemma DistinctExisting<K, T>(gs: seq<Group<K, T>>, j: nat, items: seq<T>)
    requires j < |gs|
    ensures Keys(gs[j := Group(gs[j].key, items)]) == Keys(gs)
    ensures DistinctKeys(gs) ==> DistinctKeys(gs[j := Group(gs[j].key, items)])
  {
  }

  /** Adding an element whose key already has a group keeps the grouping invariant. */
  lemma GroupByStepExisting<T, K>(gs: seq<Group<K, T>>, xs: seq<T>, x: T, key: T -> K, j: nat)
    requires IsGroupingOf(gs, xs, key)
    requires j < |gs| && gs[j].key == key(x)
    ensures IsGroupingOf(Insert(gs, key(x), x), xs + [x], key)
  {
    var k := key(x);
    InsertExisting(gs, k, x, j);
    var gs' := gs[j := Group(k, gs[j].items + [x])];
    DistinctExisting(gs, j, gs[j].items + [x]);
    assert k in Keys(gs) by {
      assert Keys(gs)[j] == k;
    }
    FiltersExisting(gs, xs, x, key, j);
    CoverStep(gs, xs, x, key);
    OrderKept(gs, gs', xs, x, key);
  }

  /** A group for a key not seen yet keeps the keys distinct. */
  lemma DistinctNew<K, T>(gs: seq<Group<K, T>>, k: K, x: T)
    requires DistinctKeys(gs) && k !in Keys(gs)
    ensures DistinctKeys(gs + [Group(k, [x])])
  {
    forall i | 0 <= i < |gs| ensures gs[i].key != k {
      assert Keys(gs)[i] == gs[i].key;
    }
  }

  /** A group for a key not seen yet goes last in first-occurrence order. */
  lemma OrderNew<T, K>(gs: seq<Group<K, T>>, xs: seq<T>, x: T, key: T -> K)
    requires ItemsAreFilters(gs, xs, key) && CoversInput(gs, xs, key) && FirstOccurrenceOrder(gs, xs, key)
    requires key(x) !in Keys(gs)
    ensures FirstOccurrenceOrder(gs + [Group(key(x), [x])], xs + [x], key)
  {
    var k := key(x);
    var gs' := gs + [Group(k, [x])];
    OrderKept(gs, gs', xs, x, key);
    FirstIndexSnoc(xs, x, key, k);
    assert FirstIndex(xs + [x], key, gs'[|gs|].key) == |xs|;
  }

  /** Adding an element with a key not seen yet keeps the grouping invariant. */
  lemma GroupByStepNew<T, K>(gs: seq<Group<K, T>>, xs: seq<T>, x: T, key: T -> K)
    requires IsGroupingOf(gs, xs, key)
    requires key(x) !in Keys(gs)
    ensures IsGroupingOf(Insert(gs, key(x), x), xs + [x], key)
  {
    var k := key(x);
    InsertNew(gs, k, x);
    var gs' := gs + [Group(k, [x])];
    assert Keys(gs') == Keys(gs) + [k];
    DistinctNew(gs, k, x);
    FiltersNew(gs, xs, x, key);
    CoverStep(gs', xs, x, key);
    OrderNew(gs, xs, x, key);
  }

  /** `GroupBy` meets its specification. */
  lemma {:induction false} GroupByIsGrouping<T, K>(xs: seq<T>, key: T -> K)
    ensures IsGroupingOf(GroupBy(xs, key), xs, key)
  {
    if xs != [] {
      var n := |xs| - 1;
      var gs := GroupBy(xs[..n], key);
      GroupByIsGrouping(xs[..n], key);
      assert xs == xs[..n] + [xs[n]];
      var k := key(xs[n]);
      if k in Keys(gs) {
        var j :| 0 <= j < |gs| && Keys(gs)[j] == k;
        GroupByStepExisting(gs, xs[..n], xs[n], key, j);
      } else {
        GroupByStepNew(gs, xs[..n], xs[n], key);
      }
    }
  }

  lemma {:induction false} InsertFlatten<K, T>(gs: seq<Group<K, T>>, k: K, x: T)
    ensures multiset(Flatten(Insert(gs, k, x))) == multiset(Flatten(gs)) + multiset{x}
    ensures |Flatten(Insert(gs, k, x))| == |Flatten(gs)| + 1
  {
    if gs != [] && gs[0].key != k {
      InsertFlatten(gs[1..], k, x);
      assert Insert(gs, k, x)[1..] == Insert(gs[1..], k, x);
    } else if gs != [] {
      assert Insert(gs, k, x)[1..] == gs[1..];
    }
  }

  /** Every element lands in exactly one group, as often as it occurs in the input. */
  lemma {:induction false} GroupByPermutation<T, K>(xs: seq<T>, key: T -> K)
    ensures multiset(Flatten(GroupBy(xs, key))) == multiset(xs)
    ensures |Flatten(GroupBy(xs, key))| == |xs|
  {
    if xs != [] {
      var n := |xs| - 1;
      var gs := GroupBy(xs[..n], key);
      GroupByPermutation(xs[..n], key);
      InsertFlatten(gs, key(xs[n]), xs[n]);
      assert GroupBy(xs, key) == Insert(gs, key(xs[n]), xs[n]);
      assert xs == xs[..n] + [xs[n]];
    }
  }

  lemma {:induction false} InsertTotal<K, T>(gs: seq<Group<K, T>>, k: K, x: T, f: T -> int)
    ensures GroupTotal(Insert(gs, k, x), f) == GroupTotal(gs, f) + f(x)
  {
    if gs == [] {
      assert [x][..0] == [];
      assert Sum([x], f) == f(x);
      assert [Group(k, [x])][1..] == gs;
    } else if gs[0].key == k {
      var s := gs[0].items + [x];
      assert s[..|s| - 1] == gs[0].items;
      assert Insert(gs, k, x)[1..] == gs[1..];
    } else {
      InsertTotal(gs[1..], k, x, f);
      assert Insert(gs, k, x)[1..] == Insert(gs[1..], k, x);
    }
  }

  /** Summing per group and then over the groups gives the sum over the input. */
  lemma {:induction false} GroupBySum<T, K>(xs: seq<T>, key: T -> K, f: T -> int)
    ensures GroupTotal(GroupBy(xs, key), f) == Sum(xs, f)
  {
    if xs != [] {
      var n := |xs| - 1;
      GroupBySum(xs[..n], key, f);
      InsertTotal(GroupBy(xs[..n], key), key(xs[n]), xs[n], f);
    }
  }
}
