/**
 * The bounded, time-ordered stores behind the live pages: the operations of the entity adapter they are built on,
 * and the trimming after each insertion.
 */
module LiveStore {

  /** An entity: its key, its time stamp, and everything else. */
  datatype Item<P> = Item(id: string, time: int, body: P)

  type Entities<P> = map<string, Item<P>>

  /** The adapter's state: the keys in display order, and the entities by key. */
  datatype Store<P> = Store(ids: seq<string>, entities: Entities<P>)

  function Initial<P>(): Store<P> {
    Store([], map[])
  }

  ghost predicate NoRepeats(ids: seq<string>) {
    forall id :: multiset(ids)[id] <= 1
  }

  /** Keys and entities agree: the same keys in both, none listed twice, each entity under its own key. */
  ghost predicate Consistent<P>(s: Store<P>) {
    && NoRepeats(s.ids)
    && (forall id :: id in s.ids <==> id in s.entities)
    && (forall id :: id in s.entities ==> s.entities[id].id == id)
  }

  function Look<P>(ids: seq<string>, entities: Entities<P>): (r: seq<Item<P>>)
    requires forall id :: id in ids ==> id in entities
    ensures |r| == |ids|
  {
    seq(|ids|, i requires 0 <= i < |ids| => entities[ids[i]])
  }

  /** The entities in display order. */
  function View<P>(s: Store<P>): (r: seq<Item<P>>)
    requires Consistent(s)
  {
    Look(s.ids, s.entities)
  }

  // ----- the adapter -----

  /** Where a sorted insertion puts `x`: before the first item that is not newer. */
  function Position<P>(items: seq<Item<P>>, x: Item<P>): (p: nat)
    ensures p <= |items|
    ensures forall k :: 0 <= k < p ==> items[k].time > x.time
    ensures p < |items| ==> x.time >= items[p].time
  {
    if items == [] || x.time >= items[0].time then 0 else 1 + Position(items[1..], x)
  }

  function Merge<P>(s: Store<P>, x: Item<P>): Store<P>
    requires Consistent(s) && x.id !in s.entities
  {
    var p := Position(View(s), x);
    Store(s.ids[..p] + ([x.id] + s.ids[p..]), s.entities[x.id := x])
  }

  function Without(ids: seq<string>, gone: set<string>): seq<string> {
    if ids == [] then []
    else if ids[0] in gone then Without(ids[1..], gone)
    else [ids[0]] + Without(ids[1..], gone)
  }

  function RemoveMany<P>(s: Store<P>, gone: set<string>): Store<P> {
    Store(Without(s.ids, gone), s.entities - gone)
  }

  /** Adding ignores a key that is already there. */
  function AddOne<P>(s: Store<P>, x: Item<P>): Store<P>
    requires Consistent(s)
  {
    if x.id in s.entities then s else Merge(s, x)
  }

  /** Updating ignores a key that is not there, and sorts the changed entity in again. */
  function UpdateOne<P>(s: Store<P>, x: Item<P>): Store<P>
    requires Consistent(s)
  {
    if x.id in s.entities then
      RemoveKeepsConsistent(s, {x.id});
      Merge(RemoveMany(s, {x.id}), x)
    else s
  }

  function UpsertOne<P>(s: Store<P>, x: Item<P>): Store<P>
    requires Consistent(s)
  {
    if x.id in s.entities then UpdateOne(s, x) else AddOne(s, x)
  }

  function TrimExcess<P>(s: Store<P>, max: nat): Store<P> {
    if |s.ids| <= max then s
    else RemoveMany(s, set id | id in s.ids[max..])
  }

  // ----- what the operations do to the view -----

  lemma {:induction false} WithoutCounts(ids: seq<string>, gone: set<string>, id: string)
    ensures multiset(Without(ids, gone))[id] == if id in gone then 0 else multiset(ids)[id]
  {
    if ids == [] {
    } else {
      assert ids == [ids[0]] + ids[1..];
      WithoutCounts(ids[1..], gone, id);
    }
  }

  lemma WithoutMembers(ids: seq<string>, gone: set<string>)
    ensures forall id :: id in Without(ids, gone) <==> id in ids && id !in gone
  {
  }

  lemma RemoveKeepsConsistent<P>(s: Store<P>, gone: set<string>)
    requires Consistent(s)
    ensures Consistent(RemoveMany(s, gone))
  {
    WithoutMembers(s.ids, gone);
    forall id ensures multiset(Without(s.ids, gone))[id] <= 1 {
      WithoutCounts(s.ids, gone, id);
    }
  }

  lemma {:induction false} WithoutAbsent(ids: seq<string>, gone: set<string>)
    requires forall id :: id in ids ==> id !in gone
    ensures Without(ids, gone) == ids
  {
    if ids == [] {
    } else {
      WithoutAbsent(ids[1..], gone);
    }
  }

  lemma {:induction false} WithoutPresent(ids: seq<string>, gone: set<string>)
    requires forall id :: id in ids ==> id in gone
    ensures Without(ids, gone) == []
  {
    if ids == [] {
    } else {
      WithoutPresent(ids[1..], gone);
    }
  }

  lemma {:induction false} WithoutOfParts(a: seq<string>, b: seq<string>, gone: set<string>)
    ensures Without(a + b, gone) == Without(a, gone) + Without(b, gone)
  {
    if a == [] {
      assert a + b == b;
    } else {
      WithoutOfParts(a[1..], b, gone);
      assert (a + b)[1..] == a[1..] + b;
      assert [a[0]] + (Without(a[1..], gone) + Without(b, gone)) == [a[0]] + Without(a[1..], gone) + Without(b, gone);
    }
  }

  lemma DisjointParts(a: seq<string>, b: seq<string>, id: string)
    requires NoRepeats(a + b) && id in a
    ensures id !in b
  {
    assert multiset(a + b)[id] == multiset(a)[id] + multiset(b)[id];
    assert id in multiset(a);
  }

  /** Trimming keeps exactly the first `max` keys, and their entities. */
  lemma TrimTakesFront<P>(s: Store<P>, max: nat)
    requires Consistent(s) && max < |s.ids|
    ensures TrimExcess(s, max).ids == s.ids[..max]
  {
    var front, back := s.ids[..max], s.ids[max..];
    var gone := set id | id in back;
    assert s.ids == front + back;
    forall id | id in front ensures id !in gone {
      DisjointParts(front, back, id);
    }
    WithoutAbsent(front, gone);
    WithoutPresent(back, gone);
    WithoutOfParts(front, back, gone);
  }

  lemma TrimView<P>(s: Store<P>, max: nat)
    requires Consistent(s)
    ensures Consistent(TrimExcess(s, max))
    ensures View(TrimExcess(s, max)) == if |s.ids| <= max then View(s) else View(s)[..max]
  {
    if |s.ids| > max {
      RemoveKeepsConsistent(s, set id | id in s.ids[max..]);
      TrimTakesFront(s, max);
    }
  }

  lemma MergeKeepsConsistent<P>(s: Store<P>, x: Item<P>)
    requires Consistent(s) && x.id !in s.entities
    ensures Consistent(Merge(s, x))
  {
    var p := Position(View(s), x);
    var front, back := s.ids[..p], s.ids[p..];
    assert s.ids == front + back;
    var r := Merge(s, x);
    assert multiset(r.ids) == multiset(s.ids) + multiset{x.id};
    assert x.id !in multiset(s.ids);
    forall id ensures id in r.ids <==> id in s.ids || id == x.id {
      assert id in r.ids <==> id in multiset(r.ids);
    }
  }

  lemma MergeView<P>(s: Store<P>, x: Item<P>)
    requires Consistent(s) && x.id !in s.entities
    ensures Consistent(Merge(s, x))
    ensures var p := Position(View(s), x);
            View(Merge(s, x)) == View(s)[..p] + [x] + View(s)[p..]
  {
    MergeKeepsConsistent(s, x);
    var p, v := Position(View(s), x), View(Merge(s, x));
    forall i | 0 <= i < |v| ensures v[i] == (View(s)[..p] + [x] + View(s)[p..])[i] {
      MergeViewAt(s, x, p, i);
    }
  }

  lemma MergeViewAt<P>(s: Store<P>, x: Item<P>, p: nat, i: nat)
    requires Consistent(s) && x.id !in s.entities && Consistent(Merge(s, x)) && p == Position(View(s), x)
    requires i <= |s.ids|
    ensures View(Merge(s, x))[i] == if i < p then View(s)[i] else if i == p then x else View(s)[i - 1]
  {
    var r := Merge(s, x);
    assert r.ids[i] == if i < p then s.ids[i] else if i == p then x.id else s.ids[i - 1];
    assert i != p ==> r.ids[i] in s.ids;
  }

  /** Taking one entity out closes the gap and changes nothing else. */
  lemma RemoveOneKeys(ids: seq<string>, id: string) returns (k: nat)
    requires NoRepeats(ids) && id in ids
    ensures k < |ids| && ids[k] == id
    ensures Without(ids, {id}) == ids[..k] + ids[k + 1..]
  {
    k :| 0 <= k < |ids| && ids[k] == id;
    var front, back := ids[..k], ids[k + 1..];
    assert ids == front + ([id] + back);
    forall other | other in front ensures other != id {
      DisjointParts(front, [id] + back, other);
      assert id in [id] + back;
    }
    assert ids == (front + [id]) + back;
    assert id in front + [id] by { assert (front + [id])[k] == id; }
    DisjointParts(front + [id], back, id);
    WithoutAbsent(front, {id});
    WithoutAbsent(back, {id});
    WithoutPresent([id], {id});
    WithoutOfParts(front, [id] + back, {id});
    WithoutOfParts([id], back, {id});
  }

  lemma RemoveOneView<P>(s: Store<P>, id: string) returns (k: nat)
    requires Consistent(s) && id in s.entities
    ensures k < |s.ids| && s.ids[k] == id
    ensures Consistent(RemoveMany(s, {id}))
    ensures View(RemoveMany(s, {id})) == View(s)[..k] + View(s)[k + 1..]
  {
    k := RemoveOneKeys(s.ids, id);
    RemoveKeepsConsistent(s, {id});
  }
}
