/** A bounded store that keeps the newest of all items that came in; both live pages are of this kind. */
module NewestStore {
  import opened LiveStore

  // ----- what the store should hold -----

  /** Every key that came in since the last clear, with its time. */
  type Seen = map<string, int>

  predicate NewestFirst<P>(items: seq<Item<P>>) {
    forall i, j :: 0 <= i < j < |items| ==> items[i].time >= items[j].time
  }

  /** A well-formed list of at most `max` items, newest first. */
  ghost predicate Listed<P>(s: Store<P>, max: nat) {
    Consistent(s) && |s.ids| <= max && NewestFirst(View(s))
  }

  predicate Recorded<P>(entities: Entities<P>, seen: Seen) {
    forall id :: id in entities ==> id in seen && seen[id] == entities[id].time
  }

  /** No resident is older than the time given. */
  ghost predicate NoneOlder<P>(entities: Entities<P>, time: int) {
    forall other :: other in entities ==> time <= entities[other].time
  }

  /** An item may be missing only from a full store in which no item is older. */
  ghost predicate RightlyMissing<P>(s: Store<P>, seen: Seen, max: nat) {
    forall id :: id in seen && id !in s.entities ==> |s.ids| == max && NoneOlder(s.entities, seen[id])
  }

  /** The store holds items that came in, newest first, and leaves one out only if it is full of others not older. */
  ghost predicate HoldsNewest<P>(s: Store<P>, seen: Seen, max: nat) {
    Listed(s, max) && Recorded(s.entities, seen) && RightlyMissing(s, seen, max)
  }

  lemma SortedInsertion<P>(items: seq<Item<P>>, x: Item<P>)
    requires NewestFirst(items)
    ensures var p := Position(items, x); NewestFirst(items[..p] + [x] + items[p..])
  {
    var p := Position(items, x);
    var r := items[..p] + [x] + items[p..];
    forall i, j | 0 <= i < j < |r| ensures r[i].time >= r[j].time {
      assert i < p ==> r[i] == items[i];
      assert i > p ==> r[i] == items[i - 1];
      assert j < p ==> r[j] == items[j];
      assert j > p ==> r[j] == items[j - 1];
    }
  }

  lemma MergeSorted<P>(s: Store<P>, x: Item<P>)
    requires Consistent(s) && x.id !in s.entities && NewestFirst(View(s))
    ensures Consistent(Merge(s, x)) && NewestFirst(View(Merge(s, x)))
  {
    MergeView(s, x);
    SortedInsertion(View(s), x);
  }

  /** In a sorted store the entities behind a key are not newer than its own. */
  lemma LaterIsNotNewer<P>(s: Store<P>, i: nat, j: nat)
    requires Consistent(s) && NewestFirst(View(s)) && i <= j < |s.ids|
    ensures s.entities[s.ids[i]].time >= s.entities[s.ids[j]].time
  {
    assert View(s)[i] == s.entities[s.ids[i]] && View(s)[j] == s.entities[s.ids[j]];
  }

  /** What is cut off is not newer than what stays. */
  lemma TrimDropsOldest<P>(s: Store<P>, max: nat, y: string, r: string)
    requires Consistent(s) && NewestFirst(View(s)) && max < |s.ids|
    requires y in s.entities && y !in TrimExcess(s, max).entities
    requires r in TrimExcess(s, max).entities
    ensures s.entities[y].time <= s.entities[r].time
  {
    assert y in s.ids[max..];
    TrimView(s, max);
    TrimTakesFront(s, max);
    var j :| 0 <= j < |s.ids[max..]| && s.ids[max..][j] == y;
    assert r in s.ids[..max];
    var i :| 0 <= i < max && s.ids[i] == r;
    LaterIsNotNewer(s, i, max + j);
  }

  /** Nothing has to be cut off: then nothing was missing before. */
  lemma RoomKeepsNewest<P>(s: Store<P>, seen: Seen, x: Item<P>, max: nat, m: Store<P>)
    requires HoldsNewest(s, seen, max) && x.id !in s.entities && m == Merge(s, x) && |m.ids| <= max
    requires x.id in seen ==> seen[x.id] == x.time
    ensures HoldsNewest(m, seen[x.id := x.time], max)
  {
    MergeSorted(s, x);
    assert |m.ids| == |s.ids| + 1;
  }

  /** The item that is cut off is not newer than anyone who stays, and no newer than any who were missing before. */
  lemma CutOff<P>(s: Store<P>, seen: Seen, x: Item<P>, max: nat, m: Store<P>, t: Store<P>, id: string, other: string)
    requires HoldsNewest(s, seen, max) && x.id !in s.entities && m == Merge(s, x) && t == TrimExcess(m, max)
    requires Consistent(m) && NewestFirst(View(m)) && max < |m.ids|
    requires (id in seen || id == x.id) && id !in t.entities && other in t.entities
    requires x.id in seen ==> seen[x.id] == x.time
    ensures (if id == x.id then x.time else seen[id]) <= t.entities[other].time
  {
    if id in m.entities {
      TrimDropsOldest(m, max, id, other);
    } else {
      assert NoneOlder(s.entities, seen[id]);
      var y := m.ids[max];
      CutIsGone(m, max, y);
      TrimDropsOldest(m, max, y, other);
    }
  }

  lemma CutIsGone<P>(m: Store<P>, max: nat, y: string)
    requires Consistent(m) && max < |m.ids| && y == m.ids[max]
    ensures y in m.entities && y !in TrimExcess(m, max).entities
  {
  }

  lemma CutRightlyMissing<P>(s: Store<P>, seen: Seen, x: Item<P>, max: nat, m: Store<P>, t: Store<P>)
    requires HoldsNewest(s, seen, max) && x.id !in s.entities && m == Merge(s, x) && t == TrimExcess(m, max)
    requires Consistent(m) && NewestFirst(View(m)) && max < |m.ids|
    requires x.id in seen ==> seen[x.id] == x.time
    ensures RightlyMissing(t, seen[x.id := x.time], max)
  {
    TrimTakesFront(m, max);
    var seen' := seen[x.id := x.time];
    forall id | id in seen' && id !in t.entities
      ensures NoneOlder(t.entities, seen'[id])
    {
      forall other | other in t.entities ensures seen'[id] <= t.entities[other].time {
        CutOff(s, seen, x, max, m, t, id, other);
      }
    }
  }

  lemma CutKeepsNewest<P>(s: Store<P>, seen: Seen, x: Item<P>, max: nat, m: Store<P>, t: Store<P>)
    requires HoldsNewest(s, seen, max) && x.id !in s.entities && m == Merge(s, x) && t == TrimExcess(m, max)
    requires Consistent(m) && NewestFirst(View(m)) && max < |m.ids|
    requires x.id in seen ==> seen[x.id] == x.time
    ensures HoldsNewest(t, seen[x.id := x.time], max)
  {
    CutRightlyMissing(s, seen, x, max, m, t);
    CutListed(m, max);
    CutRecorded(s, seen, x, m);
    RecordedPart(m.entities, t.entities, seen[x.id := x.time]);
  }

  lemma CutListed<P>(m: Store<P>, max: nat)
    requires Consistent(m) && NewestFirst(View(m)) && max < |m.ids|
    ensures Listed(TrimExcess(m, max), max)
  {
    TrimView(m, max);
    TrimTakesFront(m, max);
  }

  lemma CutRecorded<P>(s: Store<P>, seen: Seen, x: Item<P>, m: Store<P>)
    requires Consistent(s) && Recorded(s.entities, seen) && x.id !in s.entities && m == Merge(s, x)
    ensures Recorded(m.entities, seen[x.id := x.time])
  {
  }

  lemma RecordedPart<P>(e: Entities<P>, part: Entities<P>, seen: Seen)
    requires Recorded(e, seen) && forall id :: id in part ==> id in e && part[id] == e[id]
    ensures Recorded(part, seen)
  {
  }

  lemma InsertKeepsNewest<P>(s: Store<P>, seen: Seen, x: Item<P>, max: nat)
    requires HoldsNewest(s, seen, max)
    requires x.id in seen ==> seen[x.id] == x.time
    ensures HoldsNewest(TrimExcess(AddOne(s, x), max), seen[x.id := x.time], max)
  {
    if x.id in s.entities {
      assert seen[x.id := x.time] == seen;
    } else {
      var m := Merge(s, x);
      MergeSorted(s, x);
      if |m.ids| <= max {
        RoomKeepsNewest(s, seen, x, max, m);
      } else {
        CutKeepsNewest(s, seen, x, max, m, TrimExcess(m, max));
      }
    }
  }

  lemma UpdateKeepsNewest<P>(s: Store<P>, seen: Seen, x: Item<P>, max: nat)
    requires HoldsNewest(s, seen, max)
    requires x.id in seen ==> seen[x.id] == x.time
    ensures HoldsNewest(UpdateOne(s, x), seen, max)
  {
    if x.id in s.entities {
      var k := RemoveOneView(s, x.id);
      var r := RemoveMany(s, {x.id});
      var v := View(s);
      assert NewestFirst(v[..k] + v[k + 1..]) by { DroppingKeepsOrder(v, k); }
      MergeSorted(r, x);
    }
  }

  lemma DroppingKeepsOrder<P>(v: seq<Item<P>>, k: nat)
    requires NewestFirst(v) && k < |v|
    ensures NewestFirst(v[..k] + v[k + 1..])
  {
  }

  lemma EmptyHoldsNewest<P>(max: nat)
    ensures HoldsNewest(Initial<P>(), map[], max)
  {
  }

  // ----- ranks -----

  ghost function Newer(seen: Seen, id: string): set<string>
    requires id in seen
  {
    set other | other in seen && seen[other] > seen[id]
  }

  lemma {:induction false} KeyCount(ids: seq<string>, keys: set<string>)
    requires keys == set id | id in ids
    ensures |keys| <= |ids|
    ensures NoRepeats(ids) ==> |keys| == |ids|
  {
    if ids == [] {
      assert keys == {};
    } else {
      var rest := set id | id in ids[1..];
      assert ids == [ids[0]] + ids[1..];
      assert keys == rest + {ids[0]};
      KeyCount(ids[1..], rest);
      if NoRepeats(ids) {
        DisjointParts([ids[0]], ids[1..], ids[0]);
        forall id ensures multiset(ids[1..])[id] <= 1 {
          assert multiset(ids)[id] == multiset([ids[0]])[id] + multiset(ids[1..])[id];
        }
      }
    }
  }

  lemma SubsetSize(a: set<string>, b: set<string>)
    requires a <= b
    ensures |a| <= |b|
  {
    assert b == a + (b - a);
  }

  /** The store holds as many items as it may: all of them, or `max`. */
  lemma StoreIsFilled<P>(s: Store<P>, seen: Seen, max: nat)
    requires HoldsNewest(s, seen, max)
    ensures |s.ids| == if |seen| < max then |seen| else max
  {
    var keys := set id | id in s.ids;
    KeyCount(s.ids, keys);
    SubsetSize(keys, seen.Keys);
    if keys != seen.Keys {
      var id :| id in seen && id !in keys;
    }
  }

  /** With distinct times, an item is resident exactly if fewer than `max` others that came in are newer. */
  lemma ResidentByRank<P>(s: Store<P>, seen: Seen, max: nat, id: string)
    requires HoldsNewest(s, seen, max) && id in seen
    requires forall a, b :: a in seen && b in seen && seen[a] == seen[b] ==> a == b
    ensures id in s.entities <==> |Newer(seen, id)| < max
  {
    if id in s.entities {
      var i :| 0 <= i < |s.ids| && s.ids[i] == id;
      var front := set k | k in s.ids[..i];
      forall other | other in Newer(seen, id) ensures other in front {
        assert other in s.entities && other in s.ids;
        var j :| 0 <= j < |s.ids| && s.ids[j] == other;
        if j >= i {
          LaterIsNotNewer(s, i, j);
        }
        assert s.ids[..i][j] == other;
      }
      KeyCount(s.ids[..i], front);
      SubsetSize(Newer(seen, id), front);
    } else {
      var keys := set k | k in s.ids;
      KeyCount(s.ids, keys);
      SubsetSize(keys, Newer(seen, id));
    }
  }

  /**
   * With distinct times: the items are listed newest first, as many as there may be, and exactly those than which
   * fewer than `max` that came in are newer.
   */
  ghost predicate ShowsNewest<P>(s: Store<P>, seen: Seen, max: nat) {
    && Consistent(s)
    && (forall i, j :: 0 <= i < j < |s.ids| ==> s.entities[s.ids[i]].time >= s.entities[s.ids[j]].time)
    && |s.ids| == (if |seen| < max then |seen| else max)
    && (forall id :: id in s.entities <==> id in seen && |Newer(seen, id)| < max)
    && (forall id :: id in s.entities ==> s.entities[id].time == seen[id])
  }

  lemma HoldingShows<P>(s: Store<P>, seen: Seen, max: nat)
    requires HoldsNewest(s, seen, max)
    requires forall a, b :: a in seen && b in seen && seen[a] == seen[b] ==> a == b
    ensures ShowsNewest(s, seen, max)
  {
    StoreIsFilled(s, seen, max);
    forall i, j | 0 <= i < j < |s.ids| ensures s.entities[s.ids[i]].time >= s.entities[s.ids[j]].time {
      LaterIsNotNewer(s, i, j);
    }
    forall id ensures id in s.entities <==> id in seen && |Newer(seen, id)| < max {
      if id in seen {
        ResidentByRank(s, seen, max, id);
      }
    }
  }
}
