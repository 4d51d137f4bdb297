/** The notification list: re-deliverable entries with a read flag and a dismissed flag. */
module NotificationStore {
  import opened Wrappers
  import opened LiveStore
  import opened NewestStore

  const MAX_NOTIFICATIONS: nat := 50

  datatype Note = Note(read: bool, dismissed: bool, content: string)

  type Notification = Item<Note>

  type Notifications = Store<Note>

  /** What the server sends: it knows nothing of the flags. */
  datatype Payload = Payload(id: string, time: int, content: string)

  datatype Action =
    | Upsert(notification: Payload)
    | MarkRead(id: string)
    | MarkAllRead
    | Dismiss(id: string)
    | Clear

  function WithFlags(s: Notifications, p: Payload): Notification {
    if p.id in s.entities
    then Item(p.id, p.time, Note(s.entities[p.id].body.read, s.entities[p.id].body.dismissed, p.content))
    else Item(p.id, p.time, Note(false, false, p.content))
  }

  function Read(n: Notification): Notification {
    n.(body := n.body.(read := true))
  }

  function Dismissed(n: Notification): Notification {
    n.(body := n.body.(dismissed := true))
  }

  function Reduce(s: Notifications, a: Action, max: nat): Notifications
    requires Consistent(s)
  {
    match a
    case Upsert(p) => TrimExcess(UpsertOne(s, WithFlags(s, p)), max)
    case MarkRead(id) => if id in s.entities then UpdateOne(s, Read(s.entities[id])) else s
    case MarkAllRead => Store(s.ids, map id | id in s.entities :: Read(s.entities[id]))
    case Dismiss(id) => if id in s.entities then UpdateOne(s, Dismissed(s.entities[id])) else s
    case Clear => Initial()
  }

  lemma UpdateKeepsConsistent(s: Notifications, x: Notification)
    requires Consistent(s)
    ensures Consistent(UpdateOne(s, x))
    ensures UpdateOne(s, x).entities == if x.id in s.entities then s.entities[x.id := x] else s.entities
  {
    if x.id in s.entities {
      RemoveKeepsConsistent(s, {x.id});
      MergeKeepsConsistent(RemoveMany(s, {x.id}), x);
    }
  }

  lemma UpsertKeepsConsistent(s: Notifications, x: Notification)
    requires Consistent(s)
    ensures Consistent(UpsertOne(s, x))
    ensures UpsertOne(s, x).entities == s.entities[x.id := x]
  {
    if x.id in s.entities {
      UpdateKeepsConsistent(s, x);
    } else {
      MergeKeepsConsistent(s, x);
    }
  }

  lemma ReduceKeepsConsistent(s: Notifications, a: Action, max: nat)
    requires Consistent(s)
    ensures Consistent(Reduce(s, a, max))
  {
    match a {
      case Upsert(p) =>
        UpsertKeepsConsistent(s, WithFlags(s, p));
        TrimView(UpsertOne(s, WithFlags(s, p)), max);
      case MarkRead(id) =>
        if id in s.entities {
          UpdateKeepsConsistent(s, Read(s.entities[id]));
        }
      case MarkAllRead =>
      case Dismiss(id) =>
        if id in s.entities {
          UpdateKeepsConsistent(s, Dismissed(s.entities[id]));
        }
      case Clear =>
    }
  }

  predicate MarksRead(a: Action, id: string) {
    a.MarkAllRead? || (a.MarkRead? && a.id == id)
  }

  predicate MarksDismissed(a: Action, id: string) {
    a.Dismiss? && a.id == id
  }

  /** One step on an entry that stays: its flags change by the user's marks only; an entry that arrives has none. */
  lemma FlagsChangeByMarksOnly(s: Notifications, a: Action, t: Notifications, max: nat, id: string)
    requires Consistent(s) && t == Reduce(s, a, max) && id in t.entities
    ensures t.entities[id].body.read <==> id in s.entities && (s.entities[id].body.read || MarksRead(a, id))
    ensures t.entities[id].body.dismissed <==> id in s.entities && (s.entities[id].body.dismissed || MarksDismissed(a, id))
  {
    match a {
      case Upsert(p) => UpsertKeepsConsistent(s, WithFlags(s, p));
      case MarkRead(other) =>
        if other in s.entities {
          UpdateKeepsConsistent(s, Read(s.entities[other]));
        }
      case MarkAllRead =>
      case Dismiss(other) =>
        if other in s.entities {
          UpdateKeepsConsistent(s, Dismissed(s.entities[other]));
        }
      case Clear =>
    }
  }

  // ----- whole runs -----

  ghost predicate StepAt(stores: seq<Notifications>, run: seq<Action>, i: nat, max: nat)
    requires |stores| == |run| + 1 && i < |run|
  {
    Consistent(stores[i]) && stores[i + 1] == Reduce(stores[i], run[i], max)
  }

  /** The stores that a sequence of actions leads through, from the empty one. */
  ghost predicate IsRun(stores: seq<Notifications>, run: seq<Action>, max: nat) {
    && |stores| == |run| + 1
    && stores[0] == Initial()
    && forall i :: 0 <= i < |run| ==> StepAt(stores, run, i, max)
  }

  lemma {:induction false} RunExists(run: seq<Action>, max: nat) returns (stores: seq<Notifications>)
    ensures IsRun(stores, run, max)
    ensures Consistent(stores[|run|])
  {
    if run == [] {
      stores := [Initial()];
    } else {
      var last := |run| - 1;
      var before := RunExists(run[..last], max);
      ReduceKeepsConsistent(before[last], run[last], max);
      stores := before + [Reduce(before[last], run[last], max)];
      forall i | 0 <= i < |run| ensures StepAt(stores, run, i, max) {
        if i < last {
          assert StepAt(before, run[..last], i, max);
        }
      }
    }
  }

  /** The entry has been in the list without a break from point k to point n of the run. */
  predicate StaysFrom(stores: seq<Notifications>, k: nat, n: nat, id: string)
    requires k <= n < |stores|
  {
    forall j :: k <= j <= n ==> id in stores[j].entities
  }

  /** Some mark since the entry last came into the list. */
  ghost predicate MarkedWhileThere(stores: seq<Notifications>, run: seq<Action>, n: nat, id: string, marks: (Action, string) -> bool)
    requires |stores| == |run| + 1 && n <= |run|
  {
    exists k: nat :: k < n && marks(run[k], id) && StaysFrom(stores, k, n, id)
  }

  lemma MarkedOneLater(stores: seq<Notifications>, run: seq<Action>, n: nat, id: string, marks: (Action, string) -> bool)
    requires |stores| == |run| + 1 && n < |run| && id in stores[n + 1].entities
    ensures MarkedWhileThere(stores, run, n + 1, id, marks) <==>
            id in stores[n].entities && (marks(run[n], id) || MarkedWhileThere(stores, run, n, id, marks))
  {
  }

  /**
   * At every point of every run an entry of the list is marked as read exactly if it was marked, by itself or with
   * all others, while it was in the list without a break; the same for dismissed. Re-delivery never takes a flag away.
   */
  lemma {:induction false} FlagsAreTheMarks(stores: seq<Notifications>, run: seq<Action>, n: nat, max: nat, id: string)
    requires IsRun(stores, run, max) && n <= |run| && id in stores[n].entities
    ensures stores[n].entities[id].body.read <==> MarkedWhileThere(stores, run, n, id, MarksRead)
    ensures stores[n].entities[id].body.dismissed <==> MarkedWhileThere(stores, run, n, id, MarksDismissed)
  {
    assert n > 0;
    assert StepAt(stores, run, n - 1, max);
    FlagsChangeByMarksOnly(stores[n - 1], run[n - 1], stores[n], max, id);
    MarkedOneLater(stores, run, n - 1, id, MarksRead);
    MarkedOneLater(stores, run, n - 1, id, MarksDismissed);
    if id in stores[n - 1].entities {
      FlagsAreTheMarks(stores, run, n - 1, max, id);
    }
  }

  lemma ReduceKeepsBound(s: Notifications, a: Action, max: nat)
    requires Consistent(s) && |s.ids| <= max
    ensures |Reduce(s, a, max).ids| <= max
  {
    match a {
      case Upsert(p) =>
        var u := UpsertOne(s, WithFlags(s, p));
        UpsertKeepsConsistent(s, WithFlags(s, p));
        if |u.ids| > max {
          TrimTakesFront(u, max);
        }
      case MarkRead(id) =>
        if id in s.entities {
          var k := RemoveOneKeys(s.ids, id);
        }
      case MarkAllRead =>
      case Dismiss(id) =>
        if id in s.entities {
          var k := RemoveOneKeys(s.ids, id);
        }
      case Clear =>
    }
  }

  /** The list never holds more than its bound. */
  lemma {:induction false} ListStaysBounded(stores: seq<Notifications>, run: seq<Action>, n: nat, max: nat)
    requires IsRun(stores, run, max) && n <= |run|
    ensures |stores[n].ids| <= max
  {
    if n == 0 {
    } else {
      ListStaysBounded(stores, run, n - 1, max);
      assert StepAt(stores, run, n - 1, max);
      ReduceKeepsBound(stores[n - 1], run[n - 1], max);
    }
  }

  // ----- the list holds the newest -----

  /** Every key sent since the last clear, with its time. */
  function Learn(seen: Seen, a: Action): Seen {
    match a
    case Upsert(p) => seen[p.id := p.time]
    case Clear => map[]
    case _ => seen
  }

  function SeenAfter(run: seq<Action>, n: nat): Seen
    requires n <= |run|
  {
    if n == 0 then map[] else Learn(SeenAfter(run, n - 1), run[n - 1])
  }

  /** A notification keeps its time stamp however often it is sent. */
  predicate OneTimePerId(run: seq<Action>, times: map<string, int>) {
    forall i :: 0 <= i < |run| && run[i].Upsert? ==>
      run[i].notification.id in times && times[run[i].notification.id] == run[i].notification.time
  }

  lemma {:induction false} SeenTimes(run: seq<Action>, n: nat, times: map<string, int>)
    requires n <= |run| && OneTimePerId(run, times)
    ensures forall id :: id in SeenAfter(run, n) ==> id in times && SeenAfter(run, n)[id] == times[id]
  {
    if n == 0 {
    } else {
      SeenTimes(run, n - 1, times);
    }
  }

  lemma UpsertKeepsNewest(s: Notifications, seen: Seen, x: Notification, max: nat)
    requires HoldsNewest(s, seen, max) && (x.id in seen ==> seen[x.id] == x.time)
    ensures HoldsNewest(TrimExcess(UpsertOne(s, x), max), seen[x.id := x.time], max)
  {
    if x.id in s.entities {
      UpdateKeepsNewest(s, seen, x, max);
      assert seen[x.id := x.time] == seen;
    } else {
      InsertKeepsNewest(s, seen, x, max);
    }
  }

  lemma MarkingKeepsNewest(s: Notifications, seen: Seen, x: Notification, max: nat)
    requires HoldsNewest(s, seen, max) && x.id in s.entities && x.time == s.entities[x.id].time
    ensures HoldsNewest(UpdateOne(s, x), seen, max)
  {
    UpdateKeepsNewest(s, seen, x, max);
  }

  lemma MarkingAllKeepsNewest(s: Notifications, seen: Seen, t: Notifications, max: nat)
    requires HoldsNewest(s, seen, max) && t == Reduce(s, MarkAllRead, max)
    ensures HoldsNewest(t, seen, max)
  {
    forall i, j | 0 <= i < j < |t.ids| ensures View(t)[i].time >= View(t)[j].time {
      LaterIsNotNewer(s, i, j);
    }
  }

  lemma StepKeepsNewest(s: Notifications, seen: Seen, a: Action, max: nat)
    requires HoldsNewest(s, seen, max)
    requires a.Upsert? && a.notification.id in seen ==> seen[a.notification.id] == a.notification.time
    ensures HoldsNewest(Reduce(s, a, max), Learn(seen, a), max)
  {
    match a {
      case Upsert(p) => UpsertKeepsNewest(s, seen, WithFlags(s, p), max);
      case MarkRead(id) =>
        if id in s.entities {
          MarkingKeepsNewest(s, seen, Read(s.entities[id]), max);
        }
      case MarkAllRead => MarkingAllKeepsNewest(s, seen, Reduce(s, a, max), max);
      case Dismiss(id) =>
        if id in s.entities {
          MarkingKeepsNewest(s, seen, Dismissed(s.entities[id]), max);
        }
      case Clear => EmptyHoldsNewest<Note>(max);
    }
  }

  lemma SentOnTime(run: seq<Action>, n: nat, times: map<string, int>)
    requires n < |run| && OneTimePerId(run, times)
    ensures run[n].Upsert? && run[n].notification.id in SeenAfter(run, n) ==>
      SeenAfter(run, n)[run[n].notification.id] == run[n].notification.time
  {
    SeenTimes(run, n, times);
  }

  /** At every point of every run the list holds the newest of all notifications sent since the last clear. */
  lemma {:induction false} RunHoldsNewest(stores: seq<Notifications>, run: seq<Action>, n: nat, max: nat, times: map<string, int>)
    requires IsRun(stores, run, max) && n <= |run| && OneTimePerId(run, times)
    ensures HoldsNewest(stores[n], SeenAfter(run, n), max)
  {
    if n > 0 {
      RunHoldsNewest(stores, run, n - 1, max, times);
      SentOnTime(run, n - 1, times);
      assert StepAt(stores, run, n - 1, max);
      StepKeepsNewest(stores[n - 1], SeenAfter(run, n - 1), run[n - 1], max);
    } else {
      EmptyHoldsNewest<Note>(max);
    }
  }

  /** The list is exactly the newest min(50, n) of the n notifications sent since the last clear, newest first. */
  lemma ListShowsNewest(stores: seq<Notifications>, run: seq<Action>, n: nat, times: map<string, int>)
    requires IsRun(stores, run, MAX_NOTIFICATIONS) && n <= |run| && OneTimePerId(run, times)
    requires forall a, b :: a in times && b in times && times[a] == times[b] ==> a == b
    ensures ShowsNewest(stores[n], SeenAfter(run, n), 50)
  {
    RunHoldsNewest(stores, run, n, MAX_NOTIFICATIONS, times);
    SeenTimes(run, n, times);
    HoldingShows(stores[n], SeenAfter(run, n), MAX_NOTIFICATIONS);
  }

  // ----- what the entries say -----

  /** A notification that is not in the list and not older than any in it comes first, with its content and no flags. */
  lemma NewOneComesFirst(s: Notifications, p: Payload, max: nat)
    requires Consistent(s) && p.id !in s.entities && 0 < max
    requires forall other :: other in s.entities ==> s.entities[other].time <= p.time
    ensures var t := Reduce(s, Upsert(p), max);
            && Consistent(t) && t.ids != [] && t.ids[0] == p.id && p.id in t.entities
            && t.entities[p.id] == Item(p.id, p.time, Note(false, false, p.content))
  {
    var x := Item(p.id, p.time, Note(false, false, p.content));
    var m := Merge(s, x);
    MergeKeepsConsistent(s, x);
    assert s.ids != [] ==> View(s)[0] == s.entities[s.ids[0]];
    assert m.ids == [p.id] + s.ids;
    ReduceKeepsConsistent(s, Upsert(p), max);
    if max < |m.ids| {
      TrimTakesFront(m, max);
    }
  }

  /** The last delivery of a notification among the first n actions. */
  function LastSent(run: seq<Action>, n: nat, id: string): Option<Payload>
    requires n <= |run|
  {
    if n == 0 then None
    else if run[n - 1].Upsert? && run[n - 1].notification.id == id then Some(run[n - 1].notification)
    else LastSent(run, n - 1, id)
  }

  lemma ContentAfterOne(s: Notifications, a: Action, max: nat, id: string)
    requires Consistent(s) && id in Reduce(s, a, max).entities
    ensures var x := Reduce(s, a, max).entities[id];
            if a.Upsert? && a.notification.id == id
            then (x.time, x.body.content) == (a.notification.time, a.notification.content)
            else id in s.entities && (x.time, x.body.content) == (s.entities[id].time, s.entities[id].body.content)
  {
    match a {
      case Upsert(p) => UpsertKeepsConsistent(s, WithFlags(s, p));
      case MarkRead(other) =>
        if other in s.entities {
          UpdateKeepsConsistent(s, Read(s.entities[other]));
        }
      case MarkAllRead =>
      case Dismiss(other) =>
        if other in s.entities {
          UpdateKeepsConsistent(s, Dismissed(s.entities[other]));
        }
      case Clear =>
    }
  }

  /** In every run, an entry of the list says what the last delivery of its key said, whatever was marked since. */
  lemma {:induction false} ContentIsLastSent(stores: seq<Notifications>, run: seq<Action>, n: nat, max: nat, id: string)
    requires IsRun(stores, run, max) && n <= |run| && id in stores[n].entities
    ensures LastSent(run, n, id) == Some(Payload(id, stores[n].entities[id].time, stores[n].entities[id].body.content))
  {
    var a := run[n - 1];
    assert StepAt(stores, run, n - 1, max);
    ContentAfterOne(stores[n - 1], a, max, id);
    if !(a.Upsert? && a.notification.id == id) {
      ContentIsLastSent(stores, run, n - 1, max, id);
    }
  }
}
