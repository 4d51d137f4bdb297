/** The live traffic list: a reducer over insertions, updates and clears that keeps only the newest logs. */
module TrafficStore {
  import opened LiveStore
  import opened NewestStore

  const MAX_TRAFFIC_LOGS: nat := 100

  datatype Action<P> = InsertLog(log: Item<P>) | UpdateLog(log: Item<P>) | ClearLogs

  function Reduce<P>(s: Store<P>, a: Action<P>, max: nat): Store<P>
    requires Consistent(s)
  {
    match a
    case InsertLog(log) => TrimExcess(AddOne(s, log), max)
    case UpdateLog(log) => UpdateOne(s, log)
    case ClearLogs => Initial()
  }

  /** What came in, read off the actions. */
  function Learn<P>(seen: Seen, a: Action<P>): Seen {
    match a
    case InsertLog(log) => seen[log.id := log.time]
    case UpdateLog(_) => seen
    case ClearLogs => map[]
  }

  // ----- whole runs -----

  lemma ReduceKeepsConsistent<P>(s: Store<P>, a: Action<P>, max: nat)
    requires Consistent(s)
    ensures Consistent(Reduce(s, a, max))
  {
    match a {
      case InsertLog(log) =>
        if log.id !in s.entities {
          MergeKeepsConsistent(s, log);
        }
        TrimView(AddOne(s, log), max);
      case UpdateLog(log) =>
        if log.id in s.entities {
          RemoveKeepsConsistent(s, {log.id});
          MergeKeepsConsistent(RemoveMany(s, {log.id}), log);
        }
      case ClearLogs =>
    }
  }

  ghost predicate Step<P>(s: Store<P>, a: Action<P>, t: Store<P>, max: nat) {
    Consistent(s) && t == Reduce(s, a, max)
  }

  /** The stores that a sequence of actions leads through, from the empty one. */
  ghost predicate IsRun<P>(stores: seq<Store<P>>, run: seq<Action<P>>, max: nat) {
    && |stores| == |run| + 1
    && stores[0] == Initial()
    && forall i :: 0 <= i < |run| ==> StepAt(stores, run, i, max)
  }

  ghost predicate StepAt<P>(stores: seq<Store<P>>, run: seq<Action<P>>, i: nat, max: nat)
    requires |stores| == |run| + 1 && i < |run|
  {
    Step(stores[i], run[i], stores[i + 1], max)
  }

  /** Every sequence of actions has its run; all intermediate stores are consistent. */
  lemma {:induction false} RunExists<P>(run: seq<Action<P>>, max: nat) returns (stores: seq<Store<P>>)
    ensures IsRun(stores, run, max)
    ensures Consistent(stores[|run|])
  {
    if run == [] {
      stores := [Initial()];
    } else {
      var last := |run| - 1;
      var before := RunExists(run[..last], max);
      ReduceKeepsConsistent(before[last], run[last], max);
      stores := before + [Reduce(before[last], run[last], max)];
      forall i | 0 <= i < |run| ensures StepAt(stores, run, i, max) {
        if i < last {
          assert StepAt(before, run[..last], i, max);
        }
      }
    }
  }

  function SeenAfter<P>(run: seq<Action<P>>, n: nat): Seen
    requires n <= |run|
  {
    if n == 0 then map[] else Learn(SeenAfter(run, n - 1), run[n - 1])
  }

  /** A log keeps its time stamp however often it is delivered. */
  predicate OneTimePerLog<P>(run: seq<Action<P>>, times: map<string, int>) {
    forall i :: 0 <= i < |run| && !run[i].ClearLogs? ==> run[i].log.id in times && times[run[i].log.id] == run[i].log.time
  }

  lemma {:induction false} SeenTimes<P>(run: seq<Action<P>>, n: nat, times: map<string, int>)
    requires n <= |run| && OneTimePerLog(run, times)
    ensures forall id :: id in SeenAfter(run, n) ==> id in times && SeenAfter(run, n)[id] == times[id]
  {
    if n == 0 {
    } else {
      SeenTimes(run, n - 1, times);
    }
  }

  lemma DeliveredOnTime<P>(run: seq<Action<P>>, n: nat, times: map<string, int>)
    requires n < |run| && OneTimePerLog(run, times)
    ensures !run[n].ClearLogs? && run[n].log.id in SeenAfter(run, n) ==> SeenAfter(run, n)[run[n].log.id] == run[n].log.time
  {
    SeenTimes(run, n, times);
  }

  lemma StepKeepsNewest<P>(s: Store<P>, seen: Seen, a: Action<P>, t: Store<P>, seen': Seen, max: nat)
    requires HoldsNewest(s, seen, max) && Step(s, a, t, max) && seen' == Learn(seen, a)
    requires !a.ClearLogs? && a.log.id in seen ==> seen[a.log.id] == a.log.time
    ensures HoldsNewest(t, seen', max)
  {
    match a {
      case InsertLog(log) => InsertKeepsNewest(s, seen, log, max);
      case UpdateLog(log) => UpdateKeepsNewest(s, seen, log, max);
      case ClearLogs => EmptyHoldsNewest<P>(max);
    }
  }

  /** At every point of every run the store holds the newest of all logs inserted since the last clear. */
  lemma {:induction false} RunHoldsNewest<P>(stores: seq<Store<P>>, run: seq<Action<P>>, n: nat, max: nat, times: map<string, int>)
    requires IsRun(stores, run, max) && n <= |run| && OneTimePerLog(run, times)
    ensures HoldsNewest(stores[n], SeenAfter(run, n), max)
  {
    if n > 0 {
      RunHoldsNewest(stores, run, n - 1, max, times);
      DeliveredOnTime(run, n - 1, times);
      assert StepAt(stores, run, n - 1, max);
      StepKeepsNewest(stores[n - 1], SeenAfter(run, n - 1), run[n - 1], stores[n], SeenAfter(run, n), max);
    } else {
      EmptyHoldsNewest<P>(max);
    }
  }

  predicate Updates<P>(a: Action<P>, id: string) {
    a.UpdateLog? && a.log.id == id
  }

  /** The action makes the log in the list what it delivers: by bringing it in, or by updating it there. */
  predicate Delivers<P>(s: Store<P>, a: Action<P>, id: string) {
    !a.ClearLogs? && a.log.id == id && (a.UpdateLog? <==> id in s.entities)
  }

  lemma StepOnALog<P>(s: Store<P>, a: Action<P>, t: Store<P>, max: nat, id: string)
    requires Step(s, a, t, max) && id in t.entities
    ensures Delivers(s, a, id) ==> t.entities[id] == a.log
    ensures !Delivers(s, a, id) ==> !Updates(a, id) && id in s.entities && t.entities[id] == s.entities[id]
  {
  }

  /** The last action before n that brought the log in or updated it, with the log in the list without a break since. */
  predicate LastDelivery<P>(stores: seq<Store<P>>, run: seq<Action<P>>, k: nat, n: nat, id: string)
    requires |stores| == |run| + 1 && k < n <= |run|
  {
    && Delivers(stores[k], run[k], id)
    && (forall j :: k < j <= n ==> id in stores[j].entities)
    && (forall j :: k < j < n ==> !Updates(run[j], id))
  }

  /** Every resident log is as it was delivered last: when it came in, or by the last update since. */
  lemma {:induction false} ResidentsAreLastDelivered<P>(stores: seq<Store<P>>, run: seq<Action<P>>, n: nat, max: nat, id: string)
    returns (k: nat)
    requires IsRun(stores, run, max) && n <= |run| && id in stores[n].entities
    ensures k < n && LastDelivery(stores, run, k, n, id) && stores[n].entities[id] == run[k].log
  {
    assert StepAt(stores, run, n - 1, max);
    StepOnALog(stores[n - 1], run[n - 1], stores[n], max, id);
    if Delivers(stores[n - 1], run[n - 1], id) {
      k := n - 1;
    } else {
      k := ResidentsAreLastDelivered(stores, run, n - 1, max, id);
    }
  }

  /** The traffic page shows exactly the newest min(100, n) of the n logs inserted since the last clear, newest first. */
  lemma TrafficPageShowsNewest<P>(stores: seq<Store<P>>, run: seq<Action<P>>, n: nat, times: map<string, int>)
    requires IsRun(stores, run, MAX_TRAFFIC_LOGS) && n <= |run| && OneTimePerLog(run, times)
    requires forall a, b :: a in times && b in times && times[a] == times[b] ==> a == b
    ensures ShowsNewest(stores[n], SeenAfter(run, n), 100)
  {
    RunHoldsNewest(stores, run, n, MAX_TRAFFIC_LOGS, times);
    SeenTimes(run, n, times);
    HoldingShows(stores[n], SeenAfter(run, n), MAX_TRAFFIC_LOGS);
  }
}
