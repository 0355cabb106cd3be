/** Group-by-key summation and ordering in the chart utilities: `groupBy`,
    `sortByValue`, the `group*By*` family and `groupObrasByAR`.

    The JavaScript builds an object keyed by label and returns
    `Object.values` of it. The methods below keep that accumulator as a map
    plus the order keys were first seen in; their contracts say which groups
    come out and what each holds, not in which order `Object.values` lists
    them. */
module Grouping {
  import opened Wrappers
  import opened Seqs
  import opened Text
  import opened ChartRows

  /** `{ label, value, items }`; `label` is a reserved word here, hence `name`. */
  datatype Group<L, T> = Group(name: L, value: real, items: seq<T>)

  // ---------------------------------------------------------------- sortByValue

  /** `a` may stand before `b`: by non-decreasing value when ascending, non-increasing otherwise. */
  predicate InOrder<L(==), T(==)>(a: Group<L, T>, b: Group<L, T>, ascending: bool)
  {
    if ascending then a.value <= b.value else b.value <= a.value
  }

  predicate SortedByValue<L(==), T(==)>(s: seq<Group<L, T>>, ascending: bool)
  {
    forall i, j :: 0 <= i < j < |s| ==> InOrder(s[i], s[j], ascending)
  }

  /** Inserts `x` before the first element it may stand before. */
  function InsertByValue<L(==), T(==)>(x: Group<L, T>, s: seq<Group<L, T>>, ascending: bool): (r: seq<Group<L, T>>)
    ensures multiset(r) == multiset(s) + multiset{x}
  {
    if s == [] then [x]
    else if InOrder(x, s[0], ascending) then [x] + s
    else
      assert s == [s[0]] + s[1..];
      [s[0]] + InsertByValue(x, s[1..], ascending)
  }

  /** Whatever stands after the head of a sorted sequence may follow it, and so may `x` when it does not go first. */
  lemma HeadPrecedesInsert<L, T>(x: Group<L, T>, s: seq<Group<L, T>>, ascending: bool)
    requires SortedByValue(s, ascending) && s != [] && !InOrder(x, s[0], ascending)
    ensures forall y | y in InsertByValue(x, s[1..], ascending) :: InOrder(s[0], y, ascending)
  {
    var rest := InsertByValue(x, s[1..], ascending);
    forall y | y in rest ensures InOrder(s[0], y, ascending) {
      assert y in multiset(rest);
      if y != x {
        assert y in multiset(s[1..]);
        var j :| 0 <= j < |s[1..]| && s[1..][j] == y;
        assert s[j + 1] == y;
      }
    }
  }

  /** Inserting into a sorted sequence keeps it sorted. */
  lemma {:induction false} InsertSorted<L, T>(x: Group<L, T>, s: seq<Group<L, T>>, ascending: bool)
    requires SortedByValue(s, ascending)
    ensures SortedByValue(InsertByValue(x, s, ascending), ascending)
  {
    if s != [] && !InOrder(x, s[0], ascending) {
      var rest := InsertByValue(x, s[1..], ascending);
      assert SortedByValue(s[1..], ascending) by {
        forall i, j | 0 <= i < j < |s[1..]| ensures InOrder(s[1..][i], s[1..][j], ascending) {
          assert s[1..][i] == s[i + 1] && s[1..][j] == s[j + 1];
        }
      }
      InsertSorted(x, s[1..], ascending);
      HeadPrecedesInsert(x, s, ascending);
      var r := [s[0]] + rest;
      assert r == InsertByValue(x, s, ascending);
      forall i, j | 0 <= i < j < |r| ensures InOrder(r[i], r[j], ascending) {
        if i == 0 {
          assert r[j] == rest[j - 1];
          assert r[j] in rest;
        } else {
          assert r[i] == rest[i - 1] && r[j] == rest[j - 1];
        }
      }
    }
  }

  /** `sortByValue(data, order)`: a sorted copy; `data` itself is a value and stays as it was. */
  function SortByValue<L(==), T(==)>(data: seq<Group<L, T>>, order: string): (r: seq<Group<L, T>>)
    ensures multiset(r) == multiset(data)
    ensures SortedByValue(r, order == "asc")
  {
    if data == [] then []
    else
      assert data == [data[0]] + data[1..];
      var rest := SortByValue(data[1..], order);
      InsertSorted(data[0], rest, order == "asc");
      InsertByValue(data[0], rest, order == "asc")
  }

  // ------------------------------------------------------- what a grouping is

  /** The items of `data` whose key is `k`, in input order. */
  function Matching<K(==), T(==)>(data: seq<T>, key: T -> Option<K>, k: K): seq<T>
  {
    if data == [] then []
    else
      var last := data[|data| - 1];
      Matching(data[..|data| - 1], key, k) + (if key(last) == Some(k) then [last] else [])
  }

  /** `Matching` selects exactly the items of `data` whose key is `k`. */
  lemma {:induction false} MatchingMembers<K, T>(data: seq<T>, key: T -> Option<K>, k: K)
    ensures forall x :: x in Matching(data, key, k) <==> x in data && key(x) == Some(k)
  {
    if data != [] {
      var init, last := data[..|data| - 1], data[|data| - 1];
      assert data == init + [last];
      MatchingMembers(init, key, k);
    }
  }

  /** The items of `data` that have a key at all (the others are skipped). */
  function Keyed<K(==), T(==)>(data: seq<T>, key: T -> Option<K>): seq<T>
  {
    if data == [] then []
    else
      var last := data[|data| - 1];
      Keyed(data[..|data| - 1], key) + (if key(last).Some? then [last] else [])
  }

  /** The items of `data` whose key lies in `ks`. */
  function KeyIn<K(==), T(==)>(data: seq<T>, key: T -> Option<K>, ks: set<K>): seq<T>
  {
    if data == [] then []
    else
      var last := data[|data| - 1];
      KeyIn(data[..|data| - 1], key, ks) + (if key(last).Some? && key(last).value in ks then [last] else [])
  }

  /** The distinct keys occurring in `data`. */
  function KeysOf<K(==), T(==)>(data: seq<T>, key: T -> Option<K>): set<K>
  {
    if data == [] then {}
    else
      var last := data[|data| - 1];
      KeysOf(data[..|data| - 1], key) + (if key(last).Some? then {key(last).value} else {})
  }

  /** `KeysOf` holds exactly the keys some item of `data` has. */
  lemma {:induction false} KeysOfMembers<K, T>(data: seq<T>, key: T -> Option<K>)
    ensures forall k :: k in KeysOf(data, key) ==> exists x :: x in data && key(x) == Some(k)
    ensures forall x :: x in data && key(x).Some? ==> key(x).value in KeysOf(data, key)
  {
    if data != [] {
      var init, last := data[..|data| - 1], data[|data| - 1];
      assert data == init + [last];
      KeysOfMembers(init, key);
      forall k | k in KeysOf(data, key) ensures exists x :: x in data && key(x) == Some(k) {
        if k in KeysOf(init, key) {
          var x :| x in init && key(x) == Some(k);
          assert x in data;
        } else {
          assert key(last) == Some(k);
        }
      }
    }
  }

  function Labels<L(==), T(==)>(gs: seq<Group<L, T>>): (ls: seq<L>)
    ensures |ls| == |gs|
  {
    seq(|gs|, i requires 0 <= i < |gs| => gs[i].name)
  }

  /** `gs` has one group per label of `labels` and no other; each group holds
      the items of `data` with its label as key, in input order, and its value
      is the sum of `val` over them. */
  predicate IsGroupingOver<K(==), T(==)>(data: seq<T>, key: T -> Option<K>, val: T -> real, gs: seq<Group<K, T>>, labels: set<K>)
  {
    NoDup(Labels(gs))
    && Elements(Labels(gs)) == labels
    && forall g :: g in gs ==> g.items == Matching(data, key, g.name) && g.value == SumBy(g.items, val)
  }

  /** A grouping of exactly the keys that occur. */
  predicate IsGrouping<K(==), T(==)>(data: seq<T>, key: T -> Option<K>, val: T -> real, gs: seq<Group<K, T>>)
  {
    IsGroupingOver(data, key, val, gs, KeysOf(data, key))
  }

  function TotalItems<L(==), T(==)>(gs: seq<Group<L, T>>): nat
  {
    if gs == [] then 0 else |gs[0].items| + TotalItems(gs[1..])
  }

  function TotalValue<L(==), T(==)>(gs: seq<Group<L, T>>): real
  {
    if gs == [] then 0.0 else gs[0].value + TotalValue(gs[1..])
  }

  // ------------------------------------------------------- one more item

  lemma MatchingSnoc<K, T>(data: seq<T>, x: T, key: T -> Option<K>, k: K)
    ensures Matching(data + [x], key, k) == Matching(data, key, k) + (if key(x) == Some(k) then [x] else [])
  {
    assert (data + [x])[..|data|] == data;
  }

  lemma KeyInSnoc<K, T>(data: seq<T>, x: T, key: T -> Option<K>, ks: set<K>)
    ensures KeyIn(data + [x], key, ks) == KeyIn(data, key, ks) + (if key(x).Some? && key(x).value in ks then [x] else [])
  {
    assert (data + [x])[..|data|] == data;
  }

  lemma KeysOfSnoc<K, T>(data: seq<T>, x: T, key: T -> Option<K>)
    ensures KeysOf(data + [x], key) == KeysOf(data, key) + (if key(x).Some? then {key(x).value} else {})
  {
    assert (data + [x])[..|data|] == data;
  }

  lemma SumBySnoc<T>(s: seq<T>, x: T, f: T -> real)
    ensures SumBy(s + [x], f) == SumBy(s, f) + f(x)
  {
    assert (s + [x])[..|s|] == s;
  }

  // ------------------------------------------------------- facts about groupings

  lemma LabelsElements<L, T>(gs: seq<Group<L, T>>)
    ensures Elements(Labels(gs)) == set g | g in gs :: g.name
  {
    forall l | l in Elements(Labels(gs)) ensures l in set g | g in gs :: g.name {
      var i :| 0 <= i < |gs| && Labels(gs)[i] == l;
      assert gs[i] in gs;
    }
    forall l | l in set g | g in gs :: g.name ensures l in Elements(Labels(gs)) {
      var g :| g in gs && g.name == l;
      var i :| 0 <= i < |gs| && gs[i] == g;
      assert Labels(gs)[i] == l;
    }
  }

  /** Reordering the groups of a grouping gives a grouping of the same labels. */
  lemma GroupingPermutation<K, T>(data: seq<T>, key: T -> Option<K>, val: T -> real,
                                  gs: seq<Group<K, T>>, hs: seq<Group<K, T>>, labels: set<K>)
    requires IsGroupingOver(data, key, val, gs, labels)
    requires multiset(gs) == multiset(hs)
    ensures IsGroupingOver(data, key, val, hs, labels)
  {
    assert forall g :: g in hs <==> g in gs by {
      forall g ensures g in hs <==> g in gs {
        assert g in hs <==> g in multiset(hs);
        assert g in gs <==> g in multiset(gs);
      }
    }
    assert |hs| == |multiset(hs)| == |multiset(gs)| == |gs|;
    LabelsElements(gs);
    LabelsElements(hs);
    assert (set g | g in gs :: g.name) == (set g | g in hs :: g.name);
    NoDupIffCard(Labels(gs));
    NoDupIffCard(Labels(hs));
  }

  /** Items whose key is `l` or in `ks`, for `l` not in `ks`: the two parts add up. */
  lemma {:induction false} SplitKeyIn<K, T>(data: seq<T>, key: T -> Option<K>, val: T -> real, l: K, ks: set<K>)
    requires l !in ks
    ensures |KeyIn(data, key, {l} + ks)| == |Matching(data, key, l)| + |KeyIn(data, key, ks)|
    ensures SumBy(KeyIn(data, key, {l} + ks), val) == SumBy(Matching(data, key, l), val) + SumBy(KeyIn(data, key, ks), val)
  {
    if data != [] {
      var init, last := data[..|data| - 1], data[|data| - 1];
      assert data == init + [last];
      SplitKeyIn(init, key, val, l, ks);
      KeyInSnoc(init, last, key, {l} + ks);
      KeyInSnoc(init, last, key, ks);
      MatchingSnoc(init, last, key, l);
      if key(last) == Some(l) {
        assert KeyIn(data, key, {l} + ks) == KeyIn(init, key, {l} + ks) + [last];
        assert KeyIn(data, key, ks) == KeyIn(init, key, ks);
        assert Matching(data, key, l) == Matching(init, key, l) + [last];
        SumBySnoc(KeyIn(init, key, {l} + ks), last, val);
        SumBySnoc(Matching(init, key, l), last, val);
      } else if key(last).Some? && key(last).value in ks {
        assert KeyIn(data, key, {l} + ks) == KeyIn(init, key, {l} + ks) + [last];
        assert KeyIn(data, key, ks) == KeyIn(init, key, ks) + [last];
        assert Matching(data, key, l) == Matching(init, key, l);
        SumBySnoc(KeyIn(init, key, {l} + ks), last, val);
        SumBySnoc(KeyIn(init, key, ks), last, val);
      } else {
        assert KeyIn(data, key, {l} + ks) == KeyIn(init, key, {l} + ks);
        assert KeyIn(data, key, ks) == KeyIn(init, key, ks);
        assert Matching(data, key, l) == Matching(init, key, l);
      }
    }
  }

  /** The groups of `gs` together hold exactly the items whose key is one of their labels. */
  lemma {:induction false} PartitionTotals<K, T>(data: seq<T>, key: T -> Option<K>, val: T -> real, gs: seq<Group<K, T>>)
    requires NoDup(Labels(gs))
    requires forall g :: g in gs ==> g.items == Matching(data, key, g.name) && g.value == SumBy(g.items, val)
    ensures TotalItems(gs) == |KeyIn(data, key, Elements(Labels(gs)))|
    ensures TotalValue(gs) == SumBy(KeyIn(data, key, Elements(Labels(gs))), val)
  {
    if gs == [] {
      assert Elements(Labels(gs)) == {};
      KeyInEmpty(data, key);
    } else {
      var rest := gs[1..];
      assert Labels(rest) == Labels(gs)[1..];
      assert NoDup(Labels(rest));
      PartitionTotals(data, key, val, rest);
      var l := gs[0].name;
      assert l !in Labels(rest) by {
        forall j | 0 <= j < |rest| ensures Labels(rest)[j] != l {
          assert Labels(gs)[0] == l;
          assert Labels(rest)[j] == Labels(gs)[j + 1];
        }
      }
      assert Elements(Labels(gs)) == {l} + Elements(Labels(rest)) by {
        assert Labels(gs) == [l] + Labels(rest);
      }
      SplitKeyIn(data, key, val, l, Elements(Labels(rest)));
    }
  }

  lemma {:induction false} KeyInEmpty<K, T>(data: seq<T>, key: T -> Option<K>)
    ensures KeyIn(data, key, {}) == []
  {
    if data != [] {
      KeyInEmpty(data[..|data| - 1], key);
    }
  }

  /** Selecting by a set that holds every key selects every keyed item. */
  lemma {:induction false} KeyInAll<K, T>(data: seq<T>, key: T -> Option<K>, ks: set<K>)
    requires KeysOf(data, key) <= ks
    ensures KeyIn(data, key, ks) == Keyed(data, key)
  {
    if data != [] {
      var init := data[..|data| - 1];
      assert KeysOf(init, key) <= KeysOf(data, key);
      KeyInAll(init, key, ks);
    }
  }

  /** With a key on every item, no item is skipped. */
  lemma {:induction false} KeyedTotal<K, T>(data: seq<T>, key: T -> Option<K>)
    requires forall x :: x in data ==> key(x).Some?
    ensures Keyed(data, key) == data
  {
    if data != [] {
      var init := data[..|data| - 1];
      assert forall x :: x in init ==> x in data;
      KeyedTotal(init, key);
    }
  }

  /** Conservation: the groups together hold as many items as there are keyed
      items, and their values add up to the sum over those items. */
  lemma GroupingConserves<K, T>(data: seq<T>, key: T -> Option<K>, val: T -> real, gs: seq<Group<K, T>>)
    requires IsGrouping(data, key, val, gs)
    ensures TotalItems(gs) == |Keyed(data, key)|
    ensures TotalValue(gs) == SumBy(Keyed(data, key), val)
  {
    PartitionTotals(data, key, val, gs);
    KeyInAll(data, key, KeysOf(data, key));
  }

  /** Every keyed item lies in the one group labelled with its key, and in no other. */
  lemma ItemInExactlyOneGroup<K, T>(data: seq<T>, key: T -> Option<K>, val: T -> real, gs: seq<Group<K, T>>, x: T)
    requires IsGrouping(data, key, val, gs)
    requires x in data && key(x).Some?
    ensures exists i :: 0 <= i < |gs| && gs[i].name == key(x).value && x in gs[i].items
    ensures forall i :: 0 <= i < |gs| && x in gs[i].items ==> gs[i].name == key(x).value
  {
    var k := key(x).value;
    KeysOfMembers(data, key);
    assert k in Elements(Labels(gs));
    var i :| 0 <= i < |gs| && Labels(gs)[i] == k;
    assert gs[i] in gs;
    MatchingMembers(data, key, k);
    forall j | 0 <= j < |gs| && x in gs[j].items ensures gs[j].name == k {
      assert gs[j] in gs;
      MatchingMembers(data, key, gs[j].name);
    }
  }

  // ---------------------------------------------------------------- groupBy

  /** The accumulator after the items `d`: `order` lists each key once, in
      the order first seen, and the entry of each key is its group. */
  predicate AccSound<K(==), T(==)>(d: seq<T>, key: T -> Option<K>, val: T -> real, acc: map<K, Group<K, T>>, order: seq<K>)
  {
    NoDup(order)
    && Elements(order) == acc.Keys == KeysOf(d, key)
    && AccEntries(d, key, val, acc)
  }

  predicate AccEntries<K(==), T(==)>(d: seq<T>, key: T -> Option<K>, val: T -> real, acc: map<K, Group<K, T>>)
  {
    forall k :: k in acc ==> acc[k] == Group(k, SumBy(Matching(d, key, k), val), Matching(d, key, k))
  }

  /** One more item leaves the items of every other key as they were. */
  lemma MatchingOthers<K, T>(d: seq<T>, x: T, key: T -> Option<K>)
    ensures forall k :: key(x) != Some(k) ==> Matching(d + [x], key, k) == Matching(d, key, k)
  {
    forall k | key(x) != Some(k) ensures Matching(d + [x], key, k) == Matching(d, key, k) {
      MatchingSnoc(d, x, key, k);
    }
  }

  /** The entries of the keys other than the item's stay right. */
  lemma AccOthers<K, T>(d: seq<T>, x: T, key: T -> Option<K>, val: T -> real, acc: map<K, Group<K, T>>)
    requires AccEntries(d, key, val, acc)
    ensures forall k :: k in acc && key(x) != Some(k) ==>
      acc[k] == Group(k, SumBy(Matching(d + [x], key, k), val), Matching(d + [x], key, k))
  {
    MatchingOthers(d, x, key);
  }

  /** One step of the reduce: an item without a key leaves the accumulator alone. */
  lemma AccSkip<K, T>(d: seq<T>, x: T, key: T -> Option<K>, val: T -> real, acc: map<K, Group<K, T>>, order: seq<K>)
    requires AccSound(d, key, val, acc, order) && key(x).None?
    ensures AccSound(d + [x], key, val, acc, order)
  {
    KeysOfSnoc(d, x, key);
    AccOthers(d, x, key, val, acc);
  }

  /** The group of the item's key after adding the item to `g`. */
  lemma AccThis<K, T>(d: seq<T>, x: T, key: T -> Option<K>, val: T -> real, g: Group<K, T>, k: K)
    requires key(x) == Some(k) && g == Group(k, SumBy(Matching(d, key, k), val), Matching(d, key, k))
    ensures Group(k, g.value + val(x), g.items + [x]) == Group(k, SumBy(Matching(d + [x], key, k), val), Matching(d + [x], key, k))
  {
    MatchingSnoc(d, x, key, k);
    SumBySnoc(g.items, x, val);
  }

  /** One step of the reduce: an item whose key `k` has a group adds its
      value to that group and is pushed onto its items. */
  lemma AccAdd<K, T>(d: seq<T>, x: T, key: T -> Option<K>, val: T -> real, acc: map<K, Group<K, T>>, order: seq<K>, k: K)
    requires AccSound(d, key, val, acc, order) && key(x) == Some(k) && k in acc
    ensures AccSound(d + [x], key, val, acc[k := Group(k, acc[k].value + val(x), acc[k].items + [x])], order)
  {
    KeysKept(d, x, key, acc, order, k, Group(k, acc[k].value + val(x), acc[k].items + [x]));
    AccAddEntries(d, x, key, val, acc, k);
  }

  lemma AccAddEntries<K, T>(d: seq<T>, x: T, key: T -> Option<K>, val: T -> real, acc: map<K, Group<K, T>>, k: K)
    requires AccEntries(d, key, val, acc) && key(x) == Some(k) && k in acc
    ensures AccEntries(d + [x], key, val, acc[k := Group(k, acc[k].value + val(x), acc[k].items + [x])])
  {
    AccOthers(d, x, key, val, acc);
    AccThis(d, x, key, val, acc[k], k);
  }

  /** One step of the reduce: an item whose key `k` is new creates
      `{ label: k, value: 0, items: [] }`, then adds to it as above. */
  lemma AccCreate<K, T>(d: seq<T>, x: T, key: T -> Option<K>, val: T -> real, acc: map<K, Group<K, T>>, order: seq<K>, k: K,
                        acc1: map<K, Group<K, T>>)
    requires AccSound(d, key, val, acc, order) && key(x) == Some(k) && k !in acc
    requires acc1 == acc[k := Group(k, 0.0, [])]
    ensures AccSound(d + [x], key, val, acc1[k := Group(k, acc1[k].value + val(x), acc1[k].items + [x])], order + [k])
  {
    KeysAdded(d, x, key, acc, order, k, Group(k, 0.0 + val(x), [] + [x]));
    AccCreateEntries(d, x, key, val, acc, k, acc1);
  }

  lemma AccCreateEntries<K, T>(d: seq<T>, x: T, key: T -> Option<K>, val: T -> real, acc: map<K, Group<K, T>>, k: K,
                               acc1: map<K, Group<K, T>>)
    requires AccEntries(d, key, val, acc) && key(x) == Some(k) && k !in KeysOf(d, key)
    requires acc1 == acc[k := Group(k, 0.0, [])]
    ensures AccEntries(d + [x], key, val, acc1[k := Group(k, acc1[k].value + val(x), acc1[k].items + [x])])
  {
    MatchingAbsent(d, key, k);
    AccOthers(d, x, key, val, acc);
    AccThis(d, x, key, val, Group(k, 0.0, []), k);
  }

  /** `Object.values(acc)`, listing the entries in the order their keys were created. */
  function ObjectValues<K(==), V>(acc: map<K, V>, order: seq<K>): (vs: seq<V>)
    requires forall k :: k in order ==> k in acc
    ensures |vs| == |order|
    ensures forall j :: 0 <= j < |order| ==> vs[j] == acc[order[j]]
  {
    seq(|order|, j requires 0 <= j < |order| => acc[order[j]])
  }

  /** Listing the accumulator's entries gives a grouping. */
  lemma AccGrouping<K, T>(d: seq<T>, key: T -> Option<K>, val: T -> real, acc: map<K, Group<K, T>>, order: seq<K>)
    requires AccSound(d, key, val, acc, order)
    ensures IsGrouping(d, key, val, ObjectValues(acc, order))
  {
    var groups := ObjectValues(acc, order);
    assert Labels(groups) == order;
    forall g | g in groups ensures g.items == Matching(d, key, g.name) && g.value == SumBy(g.items, val) {
      var j :| 0 <= j < |groups| && groups[j] == g;
    }
  }

  /** The reduce callback that `groupBy` and the `group*By*` functions share:
      an item without a key leaves the accumulator alone; otherwise it is
      added to the group of its key. `order` records the order in which the
      keys were created. */
  method ReduceStep<K(==), T(==)>(ghost d: seq<T>, key: T -> Option<K>, val: T -> real,
                                  acc: map<K, Group<K, T>>, order: seq<K>, item: T)
    returns (acc': map<K, Group<K, T>>, order': seq<K>)
    requires AccSound(d, key, val, acc, order)
    ensures AccSound(d + [item], key, val, acc', order')
  {
    if key(item).None? {
      AccSkip(d, item, key, val, acc, order);
      return acc, order;
    }
    acc', order' := AddToGroup(d, key, val, acc, order, item, key(item).value);
  }

  /** The group of key `k` is created as `{ label: k, value: 0, items: [] }`
      on first sight, then `val(item)` is added to its value and the item is pushed. */
  method AddToGroup<K(==), T(==)>(ghost d: seq<T>, key: T -> Option<K>, val: T -> real,
                                  acc: map<K, Group<K, T>>, order: seq<K>, item: T, k: K)
    returns (acc': map<K, Group<K, T>>, order': seq<K>)
    requires AccSound(d, key, val, acc, order) && key(item) == Some(k)
    ensures AccSound(d + [item], key, val, acc', order')
  {
    acc', order' := acc, order;
    if k !in acc' {
      acc' := acc'[k := Group(k, 0.0, [])];
      order' := order' + [k];
      AccCreate(d, item, key, val, acc, order, k, acc');
      acc' := acc'[k := Group(k, acc'[k].value + val(item), acc'[k].items + [item])];
    } else {
      AccAdd(d, item, key, val, acc', order', k);
      acc' := acc'[k := Group(k, acc'[k].value + val(item), acc'[k].items + [item])];
    }
  }

  /** `data.reduce(ReduceStep, {})`. */
  method ReduceGroups<K(==), T(==)>(data: seq<T>, key: T -> Option<K>, val: T -> real)
    returns (acc: map<K, Group<K, T>>, order: seq<K>)
    ensures AccSound(data, key, val, acc, order)
  {
    acc := map[];
    order := [];
    var i := 0;
    while i < |data|
      invariant 0 <= i <= |data|
      invariant AccSound(data[..i], key, val, acc, order)
    {
      assert data[..i + 1] == data[..i] + [data[i]];
      acc, order := ReduceStep(data[..i], key, val, acc, order, data[i]);
      i := i + 1;
    }
    assert data[..i] == data;
  }

  /** The reduce followed by `Object.values`. */
  method Accumulate<K(==), T(==)>(data: seq<T>, key: T -> Option<K>, val: T -> real) returns (groups: seq<Group<K, T>>)
    ensures IsGrouping(data, key, val, groups)
  {
    var acc, order := ReduceGroups(data, key, val);
    AccGrouping(data, key, val, acc, order);
    groups := ObjectValues(acc, order);
  }

  /** Every item gets a key. */
  function AlwaysKeyed<K(==), T(==)>(field: T -> K): T -> Option<K>
  {
    x => Some(field(x))
  }

  /** `item[valueField] || 0`. */
  function OrZero<T>(valueField: T -> Option<real>): T -> real
  {
    x => valueField(x).GetOr(0.0)
  }

  /** `groupBy(data, field, valueField)`: one group per distinct key, each with
      the items of that key in input order and the sum of their values. */
  method GroupBy<K(==), T(==)>(data: seq<T>, field: T -> K, valueField: T -> Option<real>) returns (groups: seq<Group<K, T>>)
    ensures IsGrouping(data, AlwaysKeyed(field), OrZero(valueField), groups)
    ensures TotalItems(groups) == |data|
    ensures TotalValue(groups) == SumBy(data, OrZero(valueField))
  {
    groups := Accumulate(data, AlwaysKeyed(field), OrZero(valueField));
    GroupingConserves(data, AlwaysKeyed(field), OrZero(valueField), groups);
    KeyedTotal(data, AlwaysKeyed(field));
  }

  // ------------------------------------------------------- the group* family

  /** A cell used as a key: falsy cells are skipped (`if (!equipe) return acc`). */
  function CellKey(c: Option<string>): Option<string>
  {
    if Truthy(c) then Some(c.value) else None
  }

  function EquipeKey(r: Row): Option<string>
  {
    CellKey(r.desEquipe)
  }

  function SupervisorKey(r: Row): Option<string>
  {
    CellKey(r.supervisor)
  }

  /** Supervisors of the Jacobina base; everyone else belongs to Irecê. */
  const JacobinaSupervisors: seq<string> := ["ETEMILSON OLIVEIRA", "GILVANDO RIOS"]

  /** `groupPostesByBase`'s key: never skipped, always one of two bases. */
  function BaseKey(r: Row): Option<string>
  {
    Some(if Or(r.supervisor, "") in JacobinaSupervisors then "JACOBINA" else "IRECÊ")
  }

  /** `groupBy*` helpers end with `sortByValue(Object.values(grouped), "desc")`. */
  method GroupSorted<K(==), T(==)>(data: seq<T>, key: T -> Option<K>, val: T -> real) returns (groups: seq<Group<K, T>>)
    ensures IsGrouping(data, key, val, groups)
    ensures SortedByValue(groups, false)
  {
    var grouped := Accumulate(data, key, val);
    groups := SortByValue(grouped, "desc");
    GroupingPermutation(data, key, val, grouped, groups, KeysOf(data, key));
  }

  /** `groupPostesByEquipe`: pole rows grouped by team, teams without a name skipped. */
  method GroupPostesByEquipe(data: seq<Row>, num: string -> real) returns (groups: seq<Group<string, Row>>)
    ensures IsGrouping(Filter(data, IsPoste), EquipeKey, Quantity(num), groups)
    ensures SortedByValue(groups, false)
  {
    groups := GroupSorted(Filter(data, IsPoste), EquipeKey, Quantity(num));
  }

  /** `groupPostesBySupervisor`: pole rows grouped by supervisor. */
  method GroupPostesBySupervisor(data: seq<Row>, num: string -> real) returns (groups: seq<Group<string, Row>>)
    ensures IsGrouping(Filter(data, IsPoste), SupervisorKey, Quantity(num), groups)
    ensures SortedByValue(groups, false)
  {
    groups := GroupSorted(Filter(data, IsPoste), SupervisorKey, Quantity(num));
  }

  /** `groupPostesByBase`: pole rows grouped into the two bases. */
  method GroupPostesByBase(data: seq<Row>, num: string -> real) returns (groups: seq<Group<string, Row>>)
    ensures IsGrouping(Filter(data, IsPoste), BaseKey, Quantity(num), groups)
    ensures SortedByValue(groups, false)
    ensures forall g :: g in groups ==> g.name == "JACOBINA" || g.name == "IRECÊ"
    ensures |groups| <= 2
  {
    var postes := Filter(data, IsPoste);
    groups := GroupSorted(postes, BaseKey, Quantity(num));
    BaseLabels(postes, groups);
  }

  /** Only the two base names can label a group of `groupPostesByBase`. */
  lemma BaseLabels(postes: seq<Row>, groups: seq<Group<string, Row>>)
    requires NoDup(Labels(groups)) && Elements(Labels(groups)) == KeysOf(postes, BaseKey)
    ensures forall g :: g in groups ==> g.name == "JACOBINA" || g.name == "IRECÊ"
    ensures |groups| <= 2
  {
    KeysOfMembers(postes, BaseKey);
    assert KeysOf(postes, BaseKey) <= {"JACOBINA", "IRECÊ"};
    forall g | g in groups ensures g.name == "JACOBINA" || g.name == "IRECÊ" {
      var i :| 0 <= i < |groups| && groups[i] == g;
      assert Labels(groups)[i] in Elements(Labels(groups));
    }
    NoDupIffCard(Labels(groups));
    SubsetCard(Elements(Labels(groups)), {"JACOBINA", "IRECÊ"});
  }

  /** The cava sub-types the dashboard can filter on. */
  datatype CavaFilters = CavaFilters(normal: bool, rocha: bool, rompedor: bool)

  /** The sub-type test: some selected sub-type's word occurs in the upper-cased activity. */
  function MatchesCavaType(filters: CavaFilters): Row -> bool
  {
    (r: Row) =>
      var desc := Upper(Activity(r));
      (filters.normal && Contains(desc, "CAVA NORMAL"))
      || (filters.rocha && Contains(desc, "ROCHA"))
      || (filters.rompedor && Contains(desc, "ROMPEDOR"))
  }

  /** The rows `groupCavasByEquipe` groups: the cava rows, narrowed to the
      selected sub-types when at least one is selected. */
  function SelectedCavas(data: seq<Row>, filters: CavaFilters): seq<Row>
  {
    var cavas := Filter(data, IsCava);
    if filters.normal || filters.rocha || filters.rompedor then Filter(cavas, MatchesCavaType(filters)) else cavas
  }

  /** The selected rows are cava rows; with no sub-type selected they are all of them. */
  lemma SelectedCavasAreCavas(data: seq<Row>, filters: CavaFilters)
    ensures forall r :: r in SelectedCavas(data, filters) ==> r in data && IsCava(r)
    ensures !(filters.normal || filters.rocha || filters.rompedor) ==> SelectedCavas(data, filters) == Filter(data, IsCava)
  {
  }

  /** `groupCavasByEquipe`: the selected cava rows grouped by team. */
  method GroupCavasByEquipe(data: seq<Row>, filters: CavaFilters, num: string -> real) returns (groups: seq<Group<string, Row>>)
    ensures IsGrouping(SelectedCavas(data, filters), EquipeKey, Quantity(num), groups)
    ensures SortedByValue(groups, false)
  {
    groups := GroupSorted(SelectedCavas(data, filters), EquipeKey, Quantity(num));
  }

  /** `groupCavasByOperador`: the excavator teams' cava rows grouped by team. */
  method GroupCavasByOperador(data: seq<Row>, num: string -> real) returns (groups: seq<Group<string, Row>>)
    ensures IsGrouping(Filter(data, IsOperadorCava), EquipeKey, Quantity(num), groups)
    ensures SortedByValue(groups, false)
  {
    groups := GroupSorted(Filter(data, IsOperadorCava), EquipeKey, Quantity(num));
  }

  /** A label no item has selects nothing. */
  lemma {:induction false} MatchingAbsent<K, T>(data: seq<T>, key: T -> Option<K>, k: K)
    requires k !in KeysOf(data, key)
    ensures Matching(data, key, k) == []
  {
    if data != [] {
      MatchingAbsent(data[..|data| - 1], key, k);
    }
  }

  /** Adding an empty group for a label no item has extends a grouping to that label;
      a label already present changes nothing. */
  lemma AddEmptyGroup<K, T>(data: seq<T>, key: T -> Option<K>, val: T -> real, gs: seq<Group<K, T>>, labels: set<K>, l: K)
    requires IsGroupingOver(data, key, val, gs, labels) && KeysOf(data, key) <= labels
    ensures l in Labels(gs) ==> IsGroupingOver(data, key, val, gs, labels + {l})
    ensures l !in Labels(gs) ==> IsGroupingOver(data, key, val, gs + [Group(l, 0.0, [])], labels + {l})
  {
    if l !in Labels(gs) {
      MatchingAbsent(data, key, l);
      var hs := gs + [Group(l, 0.0, [])];
      assert Labels(hs) == Labels(gs) + [l];
      forall i, j | 0 <= i < j < |Labels(hs)| ensures Labels(hs)[i] != Labels(hs)[j] {
        if j == |gs| {
          assert Labels(hs)[i] == Labels(gs)[i];
        }
      }
      assert Elements(Labels(hs)) == Elements(Labels(gs)) + {l};
    } else {
      assert l in Elements(Labels(gs));
    }
  }

  /** `labels.forEach(l => { if (!grouped[l]) grouped[l] = { label: l, value: 0, items: [] } })`. */
  method AddMissingLabels<K(==), T(==)>(ghost data: seq<T>, key: T -> Option<K>, val: T -> real,
                                        grouped: seq<Group<K, T>>, labels: seq<K>) returns (gs: seq<Group<K, T>>)
    requires IsGrouping(data, key, val, grouped) && KeysOf(data, key) <= Elements(labels)
    ensures IsGroupingOver(data, key, val, gs, Elements(labels))
  {
    gs := grouped;
    var i := 0;
    while i < |labels|
      invariant 0 <= i <= |labels|
      invariant IsGroupingOver(data, key, val, gs, KeysOf(data, key) + Elements(labels[..i]))
    {
      var l := labels[i];
      assert Elements(labels[..i + 1]) == Elements(labels[..i]) + {l} by {
        assert labels[..i + 1] == labels[..i] + [l];
      }
      AddEmptyGroup(data, key, val, gs, KeysOf(data, key) + Elements(labels[..i]), l);
      if l !in Labels(gs) {
        gs := gs + [Group(l, 0.0, [])];
      }
      i := i + 1;
    }
    assert labels[..i] == labels;
  }

  /** `groupClientesByEquipe`: customer connections of the two connection teams,
      grouped by team, with an empty group added for a team that has none. */
  method GroupClientesByEquipe(data: seq<Row>, num: string -> real) returns (groups: seq<Group<string, Row>>)
    ensures IsGroupingOver(Filter(data, IsLigacaoCliente), EquipeKey, Quantity(num), groups, Elements(LigacaoTeams))
    ensures |groups| == 2
    ensures SortedByValue(groups, false)
  {
    var clientes := Filter(data, IsLigacaoCliente);
    var grouped := Accumulate(clientes, EquipeKey, Quantity(num));
    KeysOfMembers(clientes, EquipeKey);
    grouped := AddMissingLabels(clientes, EquipeKey, Quantity(num), grouped, LigacaoTeams);
    groups := SortByValue(grouped, "desc");
    GroupingPermutation(clientes, EquipeKey, Quantity(num), grouped, groups, Elements(LigacaoTeams));
    NoDupIffCard(Labels(groups));
    LigacaoTeamsDistinct();
  }

  lemma LigacaoTeamsDistinct()
    ensures |Elements(LigacaoTeams)| == 2
  {
    assert LigacaoTeams[0][0] != LigacaoTeams[1][0];
    NoDupIffCard(LigacaoTeams);
  }

  // ---------------------------------------------------------------- groupObrasByAR

  /** `row.ar_coelba || "Sem AR"`, for rows with an SS/OT; the others are skipped. */
  function ArKey(r: Row): Option<string>
  {
    if HasSsot(r) then Some(Or(r.arCoelba, "Sem AR")) else None
  }

  /** The distinct `item` values of the items with key `k`, in order of first appearance. */
  function Distinct<K(==), T(==), V(==)>(d: seq<T>, key: T -> Option<K>, item: T -> V, k: K): seq<V>
  {
    Dedup(Map(Matching(d, key, k), item))
  }

  /** One group per key: its distinct `item` values in order of first
      appearance, and their number as value. */
  predicate IsCountGrouping<K(==), T(==), V(==)>(d: seq<T>, key: T -> Option<K>, item: T -> V, gs: seq<Group<K, V>>)
  {
    NoDup(Labels(gs))
    && Elements(Labels(gs)) == KeysOf(d, key)
    && forall g :: g in gs ==> g.items == Distinct(d, key, item, g.name) && g.value == |g.items| as real
  }

  /** A map from key to a Set of values, each Set kept as the sequence of its
      members in insertion order, and the keys in order of creation, after the items `d`. */
  predicate SetsSound<K(==), T(==), V(==)>(d: seq<T>, key: T -> Option<K>, item: T -> V, sets: map<K, seq<V>>, order: seq<K>)
  {
    NoDup(order)
    && Elements(order) == sets.Keys == KeysOf(d, key)
    && SetEntries(d, key, item, sets)
  }

  /** Appending to a sequence and then removing duplicates. */
  lemma DedupSnoc<T>(s: seq<T>, x: T)
    ensures Dedup(s + [x]) == if x in Dedup(s) then Dedup(s) else Dedup(s) + [x]
  {
    assert (s + [x])[..|s|] == s;
  }

  lemma MapSnoc<T, U>(s: seq<T>, x: T, f: T -> U)
    ensures Map(s + [x], f) == Map(s, f) + [f(x)]
  {
    assert (s + [x])[..|s|] == s;
  }

  predicate SetEntries<K(==), T(==), V(==)>(d: seq<T>, key: T -> Option<K>, item: T -> V, sets: map<K, seq<V>>)
  {
    forall k :: k in sets ==> sets[k] == Distinct(d, key, item, k)
  }

  /** The Sets of the keys other than the item's stay right. */
  lemma SetsOthers<K, T, V>(d: seq<T>, x: T, key: T -> Option<K>, item: T -> V, sets: map<K, seq<V>>)
    requires SetEntries(d, key, item, sets)
    ensures forall k :: k in sets && key(x) != Some(k) ==> sets[k] == Distinct(d + [x], key, item, k)
  {
    MatchingOthers(d, x, key);
  }

  /** The Set of the item's key after adding the item's value to `vs`. */
  lemma SetsThis<K, T, V>(d: seq<T>, x: T, key: T -> Option<K>, item: T -> V, vs: seq<V>, k: K)
    requires key(x) == Some(k) && vs == Distinct(d, key, item, k)
    ensures (if item(x) in vs then vs else vs + [item(x)]) == Distinct(d + [x], key, item, k)
  {
    MatchingSnoc(d, x, key, k);
    MapSnoc(Matching(d, key, k), x, item);
    DedupSnoc(Map(Matching(d, key, k), item), item(x));
  }

  /** An item without a key changes no Set. */
  lemma SetsSkip<K, T, V>(d: seq<T>, x: T, key: T -> Option<K>, item: T -> V, sets: map<K, seq<V>>, order: seq<K>)
    requires SetsSound(d, key, item, sets, order) && key(x).None?
    ensures SetsSound(d + [x], key, item, sets, order)
  {
    KeysOfSnoc(d, x, key);
    SetsOthers(d, x, key, item, sets);
  }

  /** An item with a new key `k` adds it to the tracked keys, at the end of `order`. */
  lemma KeysAdded<K, T, V>(d: seq<T>, x: T, key: T -> Option<K>, m: map<K, V>, order: seq<K>, k: K, v: V)
    requires NoDup(order) && Elements(order) == m.Keys == KeysOf(d, key) && key(x) == Some(k) && k !in m
    ensures NoDup(order + [k]) && Elements(order + [k]) == m[k := v].Keys == KeysOf(d + [x], key)
  {
    KeysOfSnoc(d, x, key);
    NoDupSnoc(order, k);
  }

  /** An item whose key `k` is already tracked leaves the tracked keys as they were. */
  lemma KeysKept<K, T, V>(d: seq<T>, x: T, key: T -> Option<K>, m: map<K, V>, order: seq<K>, k: K, v: V)
    requires Elements(order) == m.Keys == KeysOf(d, key) && key(x) == Some(k) && k in m
    ensures Elements(order) == m[k := v].Keys == KeysOf(d + [x], key)
  {
    KeysOfSnoc(d, x, key);
  }

  lemma SetsAddEntries<K, T, V>(d: seq<T>, x: T, key: T -> Option<K>, item: T -> V, sets: map<K, seq<V>>, k: K)
    requires SetEntries(d, key, item, sets) && key(x) == Some(k) && k in sets
    ensures SetEntries(d + [x], key, item, sets[k := if item(x) in sets[k] then sets[k] else sets[k] + [item(x)]])
  {
    SetsOthers(d, x, key, item, sets);
    SetsThis(d, x, key, item, sets[k], k);
  }

  /** An item with key `k`, whose Set exists, adds its value to that Set. */
  lemma SetsAdd<K, T, V>(d: seq<T>, x: T, key: T -> Option<K>, item: T -> V, sets: map<K, seq<V>>, order: seq<K>, k: K)
    requires SetsSound(d, key, item, sets, order) && key(x) == Some(k) && k in sets
    ensures SetsSound(d + [x], key, item, sets[k := if item(x) in sets[k] then sets[k] else sets[k] + [item(x)]], order)
  {
    KeysKept(d, x, key, sets, order, k, if item(x) in sets[k] then sets[k] else sets[k] + [item(x)]);
    SetsAddEntries(d, x, key, item, sets, k);
  }

  /** An item with key `k`, whose Set does not exist yet, creates it holding its value. */
  lemma SetsCreate<K, T, V>(d: seq<T>, x: T, key: T -> Option<K>, item: T -> V, sets: map<K, seq<V>>, order: seq<K>, k: K,
                            sets1: map<K, seq<V>>)
    requires SetsSound(d, key, item, sets, order) && key(x) == Some(k) && k !in sets
    requires sets1 == sets[k := []]
    ensures SetsSound(d + [x], key, item, sets1[k := sets1[k] + [item(x)]], order + [k])
  {
    KeysAdded(d, x, key, sets, order, k, [item(x)]);
    SetsCreateEntries(d, x, key, item, sets, k, sets1);
  }

  lemma SetsCreateEntries<K, T, V>(d: seq<T>, x: T, key: T -> Option<K>, item: T -> V, sets: map<K, seq<V>>, k: K,
                                   sets1: map<K, seq<V>>)
    requires SetEntries(d, key, item, sets) && key(x) == Some(k) && k !in KeysOf(d, key)
    requires sets1 == sets[k := []]
    ensures SetEntries(d + [x], key, item, sets1[k := sets1[k] + [item(x)]])
  {
    MatchingAbsent(d, key, k);
    SetsOthers(d, x, key, item, sets);
    SetsThis(d, x, key, item, [], k);
  }

  /** Listing the Sets in creation order, each with its size, gives a counting grouping. */
  lemma SetsGrouping<K, T, V>(d: seq<T>, key: T -> Option<K>, item: T -> V, sets: map<K, seq<V>>, order: seq<K>)
    requires SetsSound(d, key, item, sets, order)
    ensures IsCountGrouping(d, key, item, CountEntries(sets, order))
  {
    var result := CountEntries(sets, order);
    assert Labels(result) == order;
    forall g | g in result ensures g.items == Distinct(d, key, item, g.name) && g.value == |g.items| as real {
      var j :| 0 <= j < |result| && result[j] == g;
    }
  }

  /** Reordering a counting grouping gives a counting grouping. */
  lemma CountGroupingPermutation<K, T, V>(d: seq<T>, key: T -> Option<K>, item: T -> V, gs: seq<Group<K, V>>, hs: seq<Group<K, V>>)
    requires IsCountGrouping(d, key, item, gs)
    requires multiset(gs) == multiset(hs)
    ensures IsCountGrouping(d, key, item, hs)
  {
    assert forall g :: g in hs <==> g in gs by {
      forall g ensures g in hs <==> g in gs {
        assert g in hs <==> g in multiset(hs);
        assert g in gs <==> g in multiset(gs);
      }
    }
    assert |hs| == |multiset(hs)| == |multiset(gs)| == |gs|;
    LabelsElements(gs);
    LabelsElements(hs);
    assert (set g | g in gs :: g.name) == (set g | g in hs :: g.name);
    NoDupIffCard(Labels(gs));
    NoDupIffCard(Labels(hs));
  }

  /** Each group's value is the number of distinct values among the items of its key. */
  lemma CountIsDistinct<K, T, V>(d: seq<T>, key: T -> Option<K>, item: T -> V, gs: seq<Group<K, V>>, g: Group<K, V>)
    requires IsCountGrouping(d, key, item, gs) && g in gs
    ensures g.value == |Elements(Map(Matching(d, key, g.name), item))| as real
    ensures forall x :: x in Matching(d, key, g.name) ==> x in d && key(x) == Some(g.name)
  {
    DedupSpec(Map(Matching(d, key, g.name), item));
    NoDupIffCard(g.items);
    MatchingMembers(d, key, g.name);
  }

  /** The forEach callback of `groupObrasByAR`: a row with an SS/OT adds it
      to the Set of its AR (`ar_coelba`, or "Sem AR"), creating the Set first if needed. */
  method AddObra(ghost d: seq<Row>, obrasPorAR: map<string, seq<string>>, order: seq<string>, row: Row)
    returns (obrasPorAR': map<string, seq<string>>, order': seq<string>)
    requires SetsSound(d, ArKey, SsotOf, obrasPorAR, order)
    ensures SetsSound(d + [row], ArKey, SsotOf, obrasPorAR', order')
  {
    obrasPorAR', order' := obrasPorAR, order;
    var ar := Or(row.arCoelba, "Sem AR");
    if !HasSsot(row) {
      SetsSkip(d, row, ArKey, SsotOf, obrasPorAR, order);
      return;
    }
    if ar !in obrasPorAR' {
      obrasPorAR' := obrasPorAR'[ar := []];
      order' := order' + [ar];
      SetsCreate(d, row, ArKey, SsotOf, obrasPorAR, order, ar, obrasPorAR');
      // the new Set is empty, so adding the SS/OT appends it
      obrasPorAR' := obrasPorAR'[ar := obrasPorAR'[ar] + [SsotOf(row)]];
    } else {
      SetsAdd(d, row, ArKey, SsotOf, obrasPorAR', order', ar);
      obrasPorAR' := obrasPorAR'[ar := if SsotOf(row) in obrasPorAR'[ar] then obrasPorAR'[ar] else obrasPorAR'[ar] + [SsotOf(row)]];
    }
  }

  /** `data.forEach(AddObra)` starting from `{}`. */
  method CollectObrasPorAR(data: seq<Row>) returns (obrasPorAR: map<string, seq<string>>, order: seq<string>)
    ensures SetsSound(data, ArKey, SsotOf, obrasPorAR, order)
  {
    obrasPorAR := map[];
    order := [];
    var i := 0;
    while i < |data|
      invariant 0 <= i <= |data|
      invariant SetsSound(data[..i], ArKey, SsotOf, obrasPorAR, order)
    {
      assert data[..i + 1] == data[..i] + [data[i]];
      obrasPorAR, order := AddObra(data[..i], obrasPorAR, order, data[i]);
      i := i + 1;
    }
    assert data[..i] == data;
  }

  /** `Object.entries(sets).map(([k, s]) => ({ label: k, value: s.size, items: Array.from(s) }))`. */
  function CountEntries<K(==), V>(sets: map<K, seq<V>>, order: seq<K>): (gs: seq<Group<K, V>>)
    requires forall k :: k in order ==> k in sets
    ensures |gs| == |order|
    ensures forall j :: 0 <= j < |order| ==> gs[j] == Group(order[j], |sets[order[j]]| as real, sets[order[j]])
  {
    seq(|order|, j requires 0 <= j < |order| => Group(order[j], |sets[order[j]]| as real, sets[order[j]]))
  }

  /** `groupObrasByAR`: one group per AR with its distinct SS/OT, sorted by their number. */
  method GroupObrasByAR(data: seq<Row>) returns (groups: seq<Group<string, string>>)
    ensures IsCountGrouping(data, ArKey, SsotOf, groups)
    ensures SortedByValue(groups, false)
  {
    var obrasPorAR, order := CollectObrasPorAR(data);
    SetsGrouping(data, ArKey, SsotOf, obrasPorAR, order);
    var result := CountEntries(obrasPorAR, order);
    groups := SortByValue(result, "desc");
    CountGroupingPermutation(data, ArKey, SsotOf, result, groups);
  }

  /** Each AR's value is the number of distinct SS/OT among its rows, and
      rows without an SS/OT belong to no AR. */
  lemma ArValueIsDistinctCount(data: seq<Row>, gs: seq<Group<string, string>>, g: Group<string, string>)
    requires IsCountGrouping(data, ArKey, SsotOf, gs) && g in gs
    ensures g.value == |Elements(Map(Matching(data, ArKey, g.name), SsotOf))| as real
    ensures forall r :: r in Matching(data, ArKey, g.name) ==> r in data && HasSsot(r)
  {
    CountIsDistinct(data, ArKey, SsotOf, gs, g);
  }
}
