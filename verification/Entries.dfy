/** The entries of a table of counts: in which order they come, and how a sort by falling count arranges them. */
module Entries {
  import opened PlainObjects

  // ----- the names of a table, in the order in which they were first counted -----

  function FirstSeen<K(==)>(keys: seq<K>): seq<K> {
    if keys == [] then []
    else
      var last, seen := keys[|keys| - 1], FirstSeen(keys[..|keys| - 1]);
      if last in seen then seen else seen + [last]
  }

  predicate NoneTwice<K(==)>(keys: seq<K>) {
    forall i, j :: 0 <= i < j < |keys| ==> keys[i] != keys[j]
  }

  lemma {:induction false} FirstSeenListsEachOnce<K(!new)>(keys: seq<K>)
    ensures NoneTwice(FirstSeen(keys))
    ensures forall k :: k in FirstSeen(keys) <==> k in keys
  {
    if keys == [] {
    } else {
      var last := |keys| - 1;
      FirstSeenListsEachOnce(keys[..last]);
      assert keys == keys[..last] + [keys[last]];
    }
  }

  // ----- sorting -----

  /** An entry of a table. */
  datatype Cell<K> = Cell(name: K, value: Value)

  function Names<K>(cells: seq<Cell<K>>): (r: seq<K>)
    ensures |r| == |cells|
  {
    seq(|cells|, i requires 0 <= i < |cells| => cells[i].name)
  }

  /** The difference of the counts, falling; a difference with a text is not a number, which a sort takes as zero. */
  function Compare<K>(a: Cell<K>, b: Cell<K>): int {
    if a.value.Number? && b.value.Number? then b.value.n - a.value.n else 0
  }

  /** Whether equality under the comparison is transitive on these entries; all else that is asked of a comparison holds. */
  ghost predicate Consistent<K(!new)>(cells: seq<Cell<K>>) {
    forall a, b, c :: a in cells && b in cells && c in cells && Compare(a, b) == 0 && Compare(b, c) == 0 ==> Compare(a, c) == 0
  }

  function Insert<K>(sorted: seq<Cell<K>>, e: Cell<K>): seq<Cell<K>> {
    if sorted == [] || Compare(sorted[|sorted| - 1], e) <= 0 then sorted + [e]
    else Insert(sorted[..|sorted| - 1], e) + [sorted[|sorted| - 1]]
  }

  function StableSort<K>(cells: seq<Cell<K>>): seq<Cell<K>> {
    if cells == [] then []
    else Insert(StableSort(cells[..|cells| - 1]), cells[|cells| - 1])
  }

  ghost predicate Falling<K(!new)>(cells: seq<Cell<K>>) {
    forall i, j :: 0 <= i < j < |cells| ==> Compare(cells[i], cells[j]) <= 0
  }

  ghost predicate AllCounted<K(!new)>(cells: seq<Cell<K>>) {
    forall c :: c in cells ==> c.value.Number?
  }

  lemma CountedIsConsistent<K(!new)>(cells: seq<Cell<K>>)
    requires AllCounted(cells)
    ensures Consistent(cells)
  {
  }

  lemma {:induction false} InsertAddsOne<K(!new)>(sorted: seq<Cell<K>>, e: Cell<K>)
    ensures |Insert(sorted, e)| == |sorted| + 1
    ensures forall x :: x in Insert(sorted, e) <==> x in sorted || x == e
  {
    if sorted == [] || Compare(sorted[|sorted| - 1], e) <= 0 {
    } else {
      var last := |sorted| - 1;
      InsertAddsOne(sorted[..last], e);
      assert sorted == sorted[..last] + [sorted[last]];
    }
  }

  lemma AppendKeepsOrder<K(!new)>(cells: seq<Cell<K>>, e: Cell<K>)
    requires Falling(cells) && forall x :: x in cells ==> Compare(x, e) <= 0
    ensures Falling(cells + [e])
  {
  }

  lemma EarlierCountsMore<K(!new)>(cells: seq<Cell<K>>, e: Cell<K>, x: Cell<K>)
    requires AllCounted(cells) && Falling(cells) && cells != [] && e.value.Number? && x in cells
    requires Compare(cells[|cells| - 1], e) <= 0
    ensures Compare(x, e) <= 0
  {
    var i :| 0 <= i < |cells| && cells[i] == x;
    assert i < |cells| - 1 ==> Compare(cells[i], cells[|cells| - 1]) <= 0;
  }

  lemma {:induction false} InsertKeepsOrder<K(!new)>(sorted: seq<Cell<K>>, e: Cell<K>)
    requires AllCounted(sorted) && Falling(sorted) && e.value.Number?
    ensures Falling(Insert(sorted, e)) && AllCounted(Insert(sorted, e))
  {
    InsertAddsOne(sorted, e);
    if sorted == [] {
    } else if Compare(sorted[|sorted| - 1], e) <= 0 {
      forall x | x in sorted ensures Compare(x, e) <= 0 {
        EarlierCountsMore(sorted, e, x);
      }
      AppendKeepsOrder(sorted, e);
    } else {
      var before, last := sorted[..|sorted| - 1], sorted[|sorted| - 1];
      InsertKeepsOrder(before, e);
      InsertAddsOne(before, e);
      forall x | x in Insert(before, e) ensures Compare(x, last) <= 0 {
        if x in before {
          EarlierCountsMore(sorted, last, x);
        }
      }
      AppendKeepsOrder(Insert(before, e), last);
    }
  }

  /** Sorting loses and adds nothing. */
  lemma {:induction false} StableSortKeepsAll<K(!new)>(cells: seq<Cell<K>>)
    ensures |StableSort(cells)| == |cells|
    ensures forall x :: x in StableSort(cells) <==> x in cells
  {
    if cells == [] {
    } else {
      var last := |cells| - 1;
      StableSortKeepsAll(cells[..last]);
      InsertAddsOne(StableSort(cells[..last]), cells[last]);
      assert cells == cells[..last] + [cells[last]];
    }
  }

  /** Sorting puts numbers in falling order. */
  lemma {:induction false} StableSortSorts<K(!new)>(cells: seq<Cell<K>>)
    requires AllCounted(cells)
    ensures AllCounted(StableSort(cells)) && Falling(StableSort(cells))
  {
    if cells == [] {
    } else {
      var last := |cells| - 1;
      StableSortSorts(cells[..last]);
      InsertKeepsOrder(StableSort(cells[..last]), cells[last]);
    }
  }

  lemma NamesOfMembers<K(!new)>(cells: seq<Cell<K>>, name: K)
    ensures name in Names(cells) <==> exists c :: c in cells && c.name == name
  {
    if name in Names(cells) {
      var i :| 0 <= i < |cells| && Names(cells)[i] == name;
      assert cells[i] in cells;
    }
    forall c | c in cells && c.name == name ensures name in Names(cells) {
      var i :| 0 <= i < |cells| && cells[i] == c;
      assert Names(cells)[i] == name;
    }
  }
}
