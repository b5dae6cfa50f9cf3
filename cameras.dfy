/**
 * The camera list as the selection dialogs show it: one column per camera
 * number, in the order the numbers first appear, holding that camera's
 * column numbers in input order (`convert_arrays_to_params`, and the same
 * grouping inline in the Flet camera dialog); and the `[position + 1, item]`
 * pairs both dialogs return.
 */
module Cameras {
  import opened Wrappers
  import opened Text
  import opened Coords

  /** One `labels_dict` entry: a camera number and its column numbers. */
  datatype Column = Column(key: nat, values: seq<nat>)

  /** No element twice. */
  predicate Distinct<T(==)>(s: seq<T>) {
    forall i, j :: 0 <= i < j < |s| ==> s[i] != s[j]
  }

  /** `for key, value in arrays` unpacks each element: it must be a pair. */
  predicate AllPairs(arrays: seq<Coord>) {
    forall i :: 0 <= i < |arrays| ==> |arrays[i]| == 2
  }

  function Keys(g: seq<Column>): (r: seq<nat>)
    ensures |r| == |g| && forall j :: 0 <= j < |g| ==> r[j] == g[j].key
  {
    if g == [] then [] else [g[0].key] + Keys(g[1..])
  }

  /**
   * `labels_dict[key].append(value)` on a dictionary kept as its entries in
   * insertion order: the entry of `key` grows, or a new entry goes last.
   */
  function Add(g: seq<Column>, key: nat, value: nat): seq<Column>
    decreases |g|
  {
    if g == [] then [Column(key, [value])]
    else if g[0].key == key then [Column(key, g[0].values + [value])] + g[1..]
    else [g[0]] + Add(g[1..], key, value)
  }

  /** Adding keeps the keys, or puts a new key last and makes one more entry. */
  lemma {:induction false} AddKeys(g: seq<Column>, key: nat, value: nat)
    ensures Keys(Add(g, key, value)) == if key in Keys(g) then Keys(g) else Keys(g) + [key]
    ensures |Add(g, key, value)| == if key in Keys(g) then |g| else |g| + 1
    decreases |g|
  {
    if g != [] {
      assert Keys(g) == [g[0].key] + Keys(g[1..]);
      if g[0].key == key {
        assert Keys(Add(g, key, value)) == [key] + Keys(g[1..]);
      } else {
        AddKeys(g[1..], key, value);
        assert Keys(Add(g, key, value)) == [g[0].key] + Keys(Add(g[1..], key, value));
      }
    }
  }

  /** The grouping of the first `n` pairs. */
  function Group(arrays: seq<Coord>, n: nat): seq<Column>
    requires n <= |arrays| && AllPairs(arrays)
  {
    if n == 0 then [] else Add(Group(arrays, n - 1), arrays[n - 1][0], arrays[n - 1][1])
  }

  /** The camera numbers of the first `n` pairs, each at its first appearance. */
  function FirstSeen(arrays: seq<Coord>, n: nat): seq<nat>
    requires n <= |arrays| && AllPairs(arrays)
  {
    if n == 0 then []
    else
      var s := FirstSeen(arrays, n - 1);
      if arrays[n - 1][0] in s then s else s + [arrays[n - 1][0]]
  }

  /** The column numbers of camera `key` among the first `n` pairs, in input order. */
  function ValuesOf(arrays: seq<Coord>, n: nat, key: nat): seq<nat>
    requires n <= |arrays| && AllPairs(arrays)
  {
    if n == 0 then []
    else ValuesOf(arrays, n - 1, key) + (if arrays[n - 1][0] == key then [arrays[n - 1][1]] else [])
  }

  function TotalLength(g: seq<Column>): nat {
    if g == [] then 0 else |g[0].values| + TotalLength(g[1..])
  }

  /** The column numbers of the entry of camera `k`, or none when it has no entry. */
  function Lookup(g: seq<Column>, k: nat): seq<nat> {
    if g == [] then [] else if g[0].key == k then g[0].values else Lookup(g[1..], k)
  }

  /** Adding appends the value to the entry of its key, and to no other. */
  lemma {:induction false} AddLookup(g: seq<Column>, key: nat, value: nat, k: nat)
    ensures Lookup(Add(g, key, value), k) == Lookup(g, k) + (if k == key then [value] else [])
    decreases |g|
  {
    if g != [] && g[0].key != key {
      AddLookup(g[1..], key, value, k);
    }
  }

  /** With no key twice, an entry is what looking up its key finds. */
  lemma {:induction false} LookupAt(g: seq<Column>, j: nat)
    requires Distinct(Keys(g)) && j < |g|
    ensures Lookup(g, g[j].key) == g[j].values
    decreases |g|
  {
    if j > 0 {
      assert Keys(g)[0] == g[0].key && Keys(g)[j] == g[j].key;
      assert Keys(g[1..]) == Keys(g)[1..];
      LookupAt(g[1..], j - 1);
    }
  }

  /** Looking a camera number up in the grouping finds its column numbers in input order. */
  lemma {:induction false} GroupLookup(arrays: seq<Coord>, n: nat, k: nat)
    requires n <= |arrays| && AllPairs(arrays)
    ensures Lookup(Group(arrays, n), k) == ValuesOf(arrays, n, k)
  {
    if n > 0 {
      GroupLookup(arrays, n - 1, k);
      AddLookup(Group(arrays, n - 1), arrays[n - 1][0], arrays[n - 1][1], k);
    }
  }

  /**
   * The grouping has one column per camera number, in first-seen order, each
   * holding that camera's column numbers in input order.
   */
  lemma GroupColumns(arrays: seq<Coord>, n: nat)
    requires n <= |arrays| && AllPairs(arrays)
    ensures Keys(Group(arrays, n)) == FirstSeen(arrays, n)
    ensures forall j :: 0 <= j < |Group(arrays, n)| ==> Group(arrays, n)[j].values == ValuesOf(arrays, n, Group(arrays, n)[j].key)
  {
    var g := Group(arrays, n);
    GroupKeys(arrays, n);
    FirstSeenDistinct(arrays, n);
    forall j | 0 <= j < |g|
      ensures g[j].values == ValuesOf(arrays, n, g[j].key)
    {
      LookupAt(g, j);
      GroupLookup(arrays, n, g[j].key);
    }
  }

  /** The grouping's camera numbers are those of the pairs, in first-seen order. */
  lemma {:induction false} GroupKeys(arrays: seq<Coord>, n: nat)
    requires n <= |arrays| && AllPairs(arrays)
    ensures Keys(Group(arrays, n)) == FirstSeen(arrays, n)
  {
    if n > 0 {
      GroupKeys(arrays, n - 1);
      AddKeys(Group(arrays, n - 1), arrays[n - 1][0], arrays[n - 1][1]);
    }
  }

  /** The grouping holds as many column numbers as there are pairs. */
  lemma {:induction false} GroupTotal(arrays: seq<Coord>, n: nat)
    requires n <= |arrays| && AllPairs(arrays)
    ensures TotalLength(Group(arrays, n)) == n
  {
    if n > 0 {
      GroupTotal(arrays, n - 1);
      AddTotal(Group(arrays, n - 1), arrays[n - 1][0], arrays[n - 1][1]);
    }
  }

  lemma {:induction false} AddTotal(g: seq<Column>, key: nat, value: nat)
    ensures TotalLength(Add(g, key, value)) == TotalLength(g) + 1
    decreases |g|
  {
    if g != [] && g[0].key != key {
      AddTotal(g[1..], key, value);
    }
  }

  lemma {:induction false} FirstSeenDistinct(arrays: seq<Coord>, n: nat)
    requires n <= |arrays| && AllPairs(arrays)
    ensures Distinct(FirstSeen(arrays, n))
  {
    if n > 0 {
      FirstSeenDistinct(arrays, n - 1);
    }
  }

  /** The camera numbers seen are those of the pairs. */
  lemma {:induction false} FirstSeenMembers(arrays: seq<Coord>, n: nat)
    requires n <= |arrays| && AllPairs(arrays)
    ensures forall k :: k in FirstSeen(arrays, n) <==> exists i :: 0 <= i < n && arrays[i][0] == k
  {
    if n > 0 {
      FirstSeenMembers(arrays, n - 1);
    }
  }

  /** `label_params`: `カメラ {key}` for each camera number. */
  function Labels(keys: seq<nat>): (r: seq<string>)
    ensures |r| == |keys| && forall j :: 0 <= j < |keys| ==> r[j] == "カメラ " + NatToString(keys[j])
  {
    if keys == [] then [] else Labels(keys[..|keys| - 1]) + ["カメラ " + NatToString(keys[|keys| - 1])]
  }

  function Values(g: seq<Column>): (r: seq<seq<nat>>)
    ensures |r| == |g| && forall j :: 0 <= j < |g| ==> r[j] == g[j].values
  {
    if g == [] then [] else Values(g[..|g| - 1]) + [g[|g| - 1].values]
  }

  /** `convert_arrays_to_params`: the labels and the checkbox columns; an element that is not a pair raises. */
  function ConvertArraysToParams(arrays: seq<Coord>): (r: Result<(seq<string>, seq<seq<nat>>)>)
    ensures r.Err? <==> !AllPairs(arrays)
  {
    if !AllPairs(arrays) then Err(ValueError)
    else
      var g := Group(arrays, |arrays|);
      Ok((Labels(Keys(g)), Values(g)))
  }

  /**
   * What `convert_arrays_to_params` promises: one label per distinct camera
   * number in first-seen order, and for each the column numbers in input order.
   */
  lemma ConvertArraysToParamsColumns(arrays: seq<Coord>)
    requires AllPairs(arrays)
    ensures var (labels, params) := ConvertArraysToParams(arrays).value;
            var keys := FirstSeen(arrays, |arrays|);
            Distinct(keys) && labels == Labels(keys) && |params| == |keys| &&
            (forall k :: k in keys <==> exists i :: 0 <= i < |arrays| && arrays[i][0] == k) &&
            forall j :: 0 <= j < |keys| ==> params[j] == ValuesOf(arrays, |arrays|, keys[j])
  {
    GroupColumns(arrays, |arrays|);
    FirstSeenDistinct(arrays, |arrays|);
    FirstSeenMembers(arrays, |arrays|);
  }

  /** `[[i + 1, item] for i, items in selected_items.items() for item in items]`. */
  function SelectedPairs(selected: seq<seq<nat>>): (r: seq<Coord>)
    decreases |selected|
  {
    if selected == [] then []
    else SelectedPairs(selected[..|selected| - 1]) + Tagged(|selected|, selected[|selected| - 1])
  }

  /** `[position, item]` for each item. */
  function Tagged(position: nat, items: seq<nat>): (r: seq<Coord>)
    ensures |r| == |items| && forall k :: 0 <= k < |items| ==> r[k] == [position, items[k]]
  {
    if items == [] then [] else Tagged(position, items[..|items| - 1]) + [[position, items[|items| - 1]]]
  }

  /**
   * A pair is returned exactly when its second part is selected in the column
   * whose position (counted from 1) is its first part.
   */
  lemma {:induction false} SelectedPairsMembers(selected: seq<seq<nat>>, p: Coord)
    ensures p in SelectedPairs(selected) <==> |p| == 2 && 1 <= p[0] <= |selected| && p[1] in selected[p[0] - 1]
    decreases |selected|
  {
    if selected != [] {
      var n := |selected|;
      SelectedPairsMembers(selected[..n - 1], p);
      TaggedMembers(n, selected[n - 1], p);
      assert p in SelectedPairs(selected) <==> p in SelectedPairs(selected[..n - 1]) || p in Tagged(n, selected[n - 1]);
    }
  }

  /** The pairs tagged with a position are that position with each item. */
  lemma TaggedMembers(position: nat, items: seq<nat>, p: Coord)
    ensures p in Tagged(position, items) <==> |p| == 2 && p[0] == position && p[1] in items
  {
    var t := Tagged(position, items);
    if p in t {
      var k :| 0 <= k < |t| && t[k] == p;
      assert p[1] == items[k];
    }
    if |p| == 2 && p[0] == position && p[1] in items {
      var k :| 0 <= k < |items| && items[k] == p[1];
      assert t[k] == [position, p[1]] == p;
    }
  }

  /** The result holds one pair per selected item. */
  lemma {:induction false} SelectedPairsCount(selected: seq<seq<nat>>)
    ensures |SelectedPairs(selected)| == TotalSelected(selected)
    decreases |selected|
  {
    if selected != [] {
      SelectedPairsCount(selected[..|selected| - 1]);
    }
  }

  function TotalSelected(selected: seq<seq<nat>>): nat
    decreases |selected|
  {
    if selected == [] then 0 else TotalSelected(selected[..|selected| - 1]) + |selected[|selected| - 1]|
  }

  /**
   * The returned pairs name cameras by column position: when the camera
   * numbers are 1, 2, … in first-seen order, a pair is returned exactly when
   * that camera's column number is selected.
   */
  lemma SelectedPairsByCamera(keys: seq<nat>, selected: seq<seq<nat>>, cam: nat, div: nat)
    requires |keys| == |selected| && forall j :: 0 <= j < |keys| ==> keys[j] == j + 1
    ensures [cam, div] in SelectedPairs(selected) <==> exists j :: 0 <= j < |keys| && keys[j] == cam && div in selected[j]
  {
    SelectedPairsMembers(selected, [cam, div]);
    if [cam, div] in SelectedPairs(selected) {
      assert keys[cam - 1] == cam;
    }
  }

  /**
   * The OK handlers' nested loop: for each column in order, `[i + 1, item]`
   * for each of its selected items.
   */
  method CollectPairs(selected: seq<seq<nat>>) returns (r: seq<Coord>)
    ensures r == SelectedPairs(selected)
  {
    r := [];
    var i := 0;
    while i < |selected|
      invariant i <= |selected|
      invariant r == SelectedPairs(selected[..i])
    {
      var items := selected[i];
      var k := 0;
      while k < |items|
        invariant k <= |items|
        invariant r == SelectedPairs(selected[..i]) + Tagged(i + 1, items[..k])
      {
        assert items[..k + 1][..k] == items[..k];
        r := r + [[i + 1, items[k]]];
        k := k + 1;
      }
      assert items[..k] == items;
      assert selected[..i + 1][..i] == selected[..i];
      i := i + 1;
    }
    assert selected[..i] == selected;
  }

  // ---------------------------------------------------------------------
  // Editing one column's selection

  /** `items.remove(x)`: the first occurrence of `x` taken out. */
  function RemoveFirst(items: seq<nat>, x: nat): seq<nat>
    requires x in items
  {
    if items[0] == x then items[1..] else [items[0]] + RemoveFirst(items[1..], x)
  }

  /** Removing takes out one copy of `x` and nothing else. */
  lemma {:induction false} RemoveFirstMultiset(items: seq<nat>, x: nat)
    requires x in items
    ensures multiset(RemoveFirst(items, x)) == multiset(items) - multiset{x}
    ensures |RemoveFirst(items, x)| == |items| - 1
  {
    assert items == [items[0]] + items[1..];
    if items[0] != x {
      RemoveFirstMultiset(items[1..], x);
    }
  }

  /** From a column without repeats, removing `x` leaves exactly the other items, still without repeats. */
  lemma RemoveFirstDistinct(items: seq<nat>, x: nat)
    requires x in items && Distinct(items)
    ensures Distinct(RemoveFirst(items, x))
    ensures forall y :: y in RemoveFirst(items, x) <==> y in items && y != x
  {
    var r := RemoveFirst(items, x);
    RemoveFirstMultiset(items, x);
    var k :| 0 <= k < |items| && items[k] == x;
    assert multiset(items)[x] == 1 by {
      DistinctCount(items, k);
    }
    forall y
      ensures y in r <==> y in items && y != x
    {
      assert y in r <==> y in multiset(r);
      assert y in items <==> y in multiset(items);
    }
    forall i, j | 0 <= i < j < |r|
      ensures r[i] != r[j]
    {
      if r[i] == r[j] {
        RepeatCount(r, i, j);
        assert multiset(items)[r[i]] >= 2;
        var m :| 0 <= m < |items| && items[m] == r[i];
        DistinctCount(items, m);
      }
    }
  }

  /** In a sequence without repeats every element occurs once. */
  lemma {:induction false} DistinctCount(s: seq<nat>, k: nat)
    requires Distinct(s) && k < |s|
    ensures multiset(s)[s[k]] == 1
  {
    if k == |s| - 1 {
      var init := s[..k];
      assert s == init + [s[k]];
      assert s[k] !in init;
      assert multiset(init)[s[k]] == 0;
    } else {
      var init := s[..|s| - 1];
      assert s == init + [s[|s| - 1]];
      assert Distinct(init);
      assert init[k] == s[k];
      DistinctCount(init, k);
    }
  }

  /** An element at two positions occurs at least twice. */
  lemma {:induction false} RepeatCount(s: seq<nat>, i: nat, j: nat)
    requires i < j < |s| && s[i] == s[j]
    ensures multiset(s)[s[i]] >= 2
  {
    assert s == s[..i] + [s[i]] + s[i + 1..j] + [s[j]] + s[j + 1..];
  }
}
