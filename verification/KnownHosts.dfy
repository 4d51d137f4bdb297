/** Which hosts a user is known to visit: the entries of the host table, sorted by the platform, and cut. */
module KnownHosts {
  import opened Wrappers
  import opened PlainObjects
  import opened Baseline
  import opened Entries

  function Take<T>(s: seq<T>, n: nat): seq<T> {
    if n <= |s| then s[..n] else s
  }

  lemma TakenAreEarly<T(!new)>(s: seq<T>, n: nat, i: nat)
    requires i < |s| && s[i] !in Take(s, n)
    ensures n <= i
  {
  }

  /** The counted names that can become properties of their own. */
  function Own(keys: seq<string>): seq<string> {
    if keys == [] then []
    else
      var last := |keys| - 1;
      Own(keys[..last]) + if keys[last] == PROTO then [] else [keys[last]]
  }

  lemma {:induction false} OwnMembers(keys: seq<string>, k: string)
    ensures k in Own(keys) <==> k in keys && k != PROTO
  {
    if keys == [] {
    } else {
      var last := |keys| - 1;
      assert keys == keys[..last] + [keys[last]];
      OwnMembers(keys[..last], k);
    }
  }

  function OwnOrder(logs: seq<TrafficSample>): seq<string> {
    FirstSeen(Own(Project(logs, HostOf)))
  }

  lemma OwnOrderListsHosts(logs: seq<TrafficSample>)
    ensures NoneTwice(OwnOrder(logs))
    ensures forall k :: k in OwnOrder(logs) <==> k in TableBy(logs, HostOf)
    ensures forall k :: k in OwnOrder(logs) <==> k in Project(logs, HostOf) && k != PROTO
  {
    var names := Project(logs, HostOf);
    FirstSeenListsEachOnce(Own(names));
    forall k ensures k in Own(names) <==> k in names && k != PROTO {
      OwnMembers(names, k);
    }
  }

  // ----- the platform's sort -----

  function CellsOf(order: seq<string>, table: Table): (r: seq<Cell<string>>)
    ensures |r| == |order|
  {
    seq(|order|, i requires 0 <= i < |order| => Cell(order[i], if order[i] in table then table[order[i]] else Number(0)))
  }

  type Sorter = seq<Cell<string>> -> seq<Cell<string>>

  /**
   * What ECMA-262 asks of a sort in section 23.1.3.30: the same entries, and in stable order if the comparison is
   * consistent on them. If it is not, their order is left to the implementation.
   */
  ghost predicate FollowsStandard(sort: Sorter) {
    forall cells :: multiset(sort(cells)) == multiset(cells) && (Consistent(cells) ==> sort(cells) == StableSort(cells))
  }

  // ----- the known hosts -----

  function KnownHostsOf(logs: seq<TrafficSample>, hosts: Table, maxKnownHosts: nat, sort: Sorter): seq<string> {
    Take(Names(sort(CellsOf(OwnOrder(logs), hosts))), maxKnownHosts)
  }

  /** The entries of the host table, and the same as the platform sorts them. */
  function HostCells(logs: seq<TrafficSample>): seq<Cell<string>> {
    CellsOf(OwnOrder(logs), TableBy(logs, HostOf))
  }

  function RequestsTo(logs: seq<TrafficSample>, host: string): nat {
    |Select(logs, KeyIs(HostOf, host))|
  }

  lemma SortedMembers(cells: seq<Cell<string>>, sort: Sorter, c: Cell<string>)
    requires FollowsStandard(sort)
    ensures |sort(cells)| == |cells|
    ensures c in sort(cells) <==> c in cells
  {
    assert |multiset(sort(cells))| == |multiset(cells)|;
    assert c in sort(cells) <==> c in multiset(sort(cells));
    assert c in cells <==> c in multiset(cells);
  }

  /** As many hosts are known as there are, up to the bound. */
  lemma KnownHostsCount(logs: seq<TrafficSample>, hosts: Table, maxKnownHosts: nat, sort: Sorter)
    requires FollowsStandard(sort)
    ensures |KnownHostsOf(logs, hosts, maxKnownHosts, sort)| ==
            if |OwnOrder(logs)| < maxKnownHosts then |OwnOrder(logs)| else maxKnownHosts
  {
    var cells := CellsOf(OwnOrder(logs), hosts);
    assert |multiset(sort(cells))| == |multiset(cells)|;
  }

  /** A host has a cell exactly if it was counted under a name of its own. */
  lemma CellOf(logs: seq<TrafficSample>, host: string)
    ensures host in OwnOrder(logs) <==> exists c :: c in HostCells(logs) && c.name == host
    ensures forall c :: c in HostCells(logs) ==> c.name in TableBy(logs, HostOf) && c.value == TableBy(logs, HostOf)[c.name]
  {
    OwnOrderListsHosts(logs);
    var order, cells := OwnOrder(logs), HostCells(logs);
    forall c | c in cells
      ensures c.name in order && c.name in TableBy(logs, HostOf) && c.value == TableBy(logs, HostOf)[c.name]
    {
      var i :| 0 <= i < |cells| && cells[i] == c;
      assert order[i] in order;
    }
    if host in order {
      var i :| 0 <= i < |order| && order[i] == host;
      assert cells[i] in cells && cells[i].name == host;
    }
  }

  lemma SortedNames(logs: seq<TrafficSample>, sort: Sorter, host: string)
    requires FollowsStandard(sort)
    ensures host in Names(sort(HostCells(logs))) <==> host in OwnOrder(logs)
  {
    var cells := HostCells(logs);
    CellOf(logs, host);
    NamesOfMembers(sort(cells), host);
    forall c ensures c in sort(cells) <==> c in cells {
      SortedMembers(cells, sort, c);
    }
  }

  /**
   * As long as there is room, whatever order the platform comes up with, the hosts of the logs are known and no
   * others, with one exception: `__proto__` never is.
   */
  lemma KnownHostsAreTheHosts(logs: seq<TrafficSample>, maxKnownHosts: nat, sort: Sorter, host: string)
    requires FollowsStandard(sort) && |OwnOrder(logs)| <= maxKnownHosts
    ensures host in KnownHostsOf(logs, TableBy(logs, HostOf), maxKnownHosts, sort) <==>
            host in Project(logs, HostOf) && host != PROTO
  {
    SortedMembers(HostCells(logs), sort, Cell("", Number(0)));
    SortedNames(logs, sort, host);
    OwnOrderListsHosts(logs);
  }

  /** So the known hosts are the hosts of the logs exactly if `__proto__` is not among them. */
  lemma AllHostsKnownWithoutProto(logs: seq<TrafficSample>, maxKnownHosts: nat, sort: Sorter)
    requires FollowsStandard(sort) && |OwnOrder(logs)| <= maxKnownHosts
    ensures (forall host :: host in KnownHostsOf(logs, TableBy(logs, HostOf), maxKnownHosts, sort) <==> host in Project(logs, HostOf))
            <==> PROTO !in Project(logs, HostOf)
  {
    forall host
      ensures host in KnownHostsOf(logs, TableBy(logs, HostOf), maxKnownHosts, sort) <==>
              host in Project(logs, HostOf) && host != PROTO
    {
      KnownHostsAreTheHosts(logs, maxKnownHosts, sort, host);
    }
  }

  lemma ProperCellsCount(logs: seq<TrafficSample>, c: Cell<string>)
    requires NoInheritedName(logs, HostOf) && c in HostCells(logs)
    ensures c.value == Number(RequestsTo(logs, c.name))
  {
    CellOf(logs, c.name);
    OwnOrderListsHosts(logs);
    NoneProjected(logs, HostOf);
    TableEntryIsCount(logs, HostOf, c.name);
  }

  lemma UncountedHost(logs: seq<TrafficSample>, host: string)
    requires host !in Project(logs, HostOf)
    ensures RequestsTo(logs, host) == 0
  {
    CountIsFilterAndCount(logs, HostOf, host);
  }

  /** When there are too many, and no name is inherited, no unknown host has more requests than a known one. */
  lemma KnownHostsAreTheBusiest(logs: seq<TrafficSample>, maxKnownHosts: nat, sort: Sorter, known: string, unknown: string)
    requires FollowsStandard(sort) && NoInheritedName(logs, HostOf)
    requires var hosts := KnownHostsOf(logs, TableBy(logs, HostOf), maxKnownHosts, sort); known in hosts && unknown !in hosts
    ensures RequestsTo(logs, unknown) <= RequestsTo(logs, known)
  {
    var cells := HostCells(logs);
    var sorted := sort(cells);
    SortedProperCells(logs, sort);
    var taken := Take(Names(sorted), maxKnownHosts);
    var k :| 0 <= k < |taken| && taken[k] == known;
    assert sorted[k].name == known;
    if unknown in Project(logs, HostOf) {
      OwnOrderListsHosts(logs);
      NoneProjected(logs, HostOf);
      SortedNames(logs, sort, unknown);
      var u :| 0 <= u < |sorted| && Names(sorted)[u] == unknown;
      TakenAreEarly(Names(sorted), maxKnownHosts, u);
      assert Compare(sorted[k], sorted[u]) <= 0;
    } else {
      UncountedHost(logs, unknown);
    }
  }

  lemma SortedProperCells(logs: seq<TrafficSample>, sort: Sorter)
    requires FollowsStandard(sort) && NoInheritedName(logs, HostOf)
    ensures var sorted := sort(HostCells(logs));
            Falling(sorted) && forall i :: 0 <= i < |sorted| ==> sorted[i].value == Number(RequestsTo(logs, sorted[i].name))
  {
    var cells := HostCells(logs);
    forall c | c in cells ensures c.value == Number(RequestsTo(logs, c.name)) {
      ProperCellsCount(logs, c);
    }
    CountedIsConsistent(cells);
    StableSortSorts(cells);
    forall i | 0 <= i < |sort(cells)| ensures sort(cells)[i].value == Number(RequestsTo(logs, sort(cells)[i].name)) {
      SortedMembers(cells, sort, sort(cells)[i]);
    }
  }

  // ----- for which hosts the ranking is right -----

  /** No unknown host has more requests than a known one. */
  predicate RanksRight(logs: seq<TrafficSample>, known: seq<string>) {
    forall k, host :: k in known && host in Project(logs, HostOf) && host !in known ==>
      RequestsTo(logs, host) <= RequestsTo(logs, k)
  }

  ghost predicate AllTo(logs: seq<TrafficSample>, hosts: set<string>) {
    forall i :: 0 <= i < |logs| ==> logs[i].destinationHost in hosts
  }

  /** For any traffic to these hosts, and any number of hosts to keep, the busiest are kept. */
  ghost predicate AlwaysRanksRight(hosts: set<string>, sort: Sorter) {
    forall logs, max: nat :: AllTo(logs, hosts) ==> RanksRight(logs, KnownHostsOf(logs, TableBy(logs, HostOf), max, sort))
  }

  function RequestTo(host: string): TrafficSample {
    TrafficSample(0, "", host, None, "", "", "", 0)
  }

  /** One request to `host` and two to `inherited`. */
  function Three(host: string, inherited: string): seq<TrafficSample> {
    [RequestTo(host), RequestTo(inherited), RequestTo(inherited)]
  }

  lemma OwnOneMore(keys: seq<string>, key: string)
    ensures Own(keys + [key]) == Own(keys) + if key == PROTO then [] else [key]
  {
    assert (keys + [key])[..|keys|] == keys;
  }

  lemma FirstSeenOneMore(keys: seq<string>, key: string)
    ensures FirstSeen(keys + [key]) == if key in FirstSeen(keys) then FirstSeen(keys) else FirstSeen(keys) + [key]
  {
    assert (keys + [key])[..|keys|] == keys;
  }

  lemma ProjectionOfThree(host: string, inherited: string)
    ensures Project(Three(host, inherited), HostOf) == [host] + [inherited] + [inherited]
  {
    var logs := Three(host, inherited);
    var names := Project(logs, HostOf);
    assert names[0] == HostOf(logs[0]) && names[1] == HostOf(logs[1]) && names[2] == HostOf(logs[2]);
  }

  lemma OwnOfThree(host: string, inherited: string)
    requires host != PROTO
    ensures Own([host] + [inherited] + [inherited]) == if inherited == PROTO then [host] else [host] + [inherited] + [inherited]
  {
    OwnOneMore([], host);
    OwnOneMore([host], inherited);
    OwnOneMore([host] + [inherited], inherited);
    assert [] + [host] == [host];
  }

  lemma FirstSeenOfThree(host: string, inherited: string)
    requires host != inherited
    ensures FirstSeen([host]) == [host] && FirstSeen([host] + [inherited] + [inherited]) == [host, inherited]
  {
    FirstSeenOneMore([], host);
    FirstSeenOneMore([host], inherited);
    FirstSeenOneMore([host] + [inherited], inherited);
    assert [] + [host] == [host];
  }

  lemma NamesOfThree(host: string, inherited: string)
    requires host != inherited && host != PROTO
    ensures Project(Three(host, inherited), HostOf) == [host] + [inherited] + [inherited]
    ensures OwnOrder(Three(host, inherited)) == if inherited == PROTO then [host] else [host, inherited]
  {
    ProjectionOfThree(host, inherited);
    OwnOfThree(host, inherited);
    FirstSeenOfThree(host, inherited);
  }

  lemma RequestsToThree(host: string, inherited: string)
    requires host != inherited && host != PROTO
    ensures RequestsTo(Three(host, inherited), host) == 1 && RequestsTo(Three(host, inherited), inherited) == 2
  {
    NamesOfThree(host, inherited);
    var names := [host] + [inherited] + [inherited];
    CountIsFilterAndCount(Three(host, inherited), HostOf, host);
    CountIsFilterAndCount(Three(host, inherited), HostOf, inherited);
    assert multiset(names) == multiset{host, inherited, inherited};
  }

  lemma OneCellStays(c: Cell<string>, sort: Sorter)
    requires FollowsStandard(sort)
    ensures sort([c]) == [c]
  {
    assert [c][..0] == [];
    assert StableSort([c]) == [c];
    assert Consistent([c]);
  }

  /** An entry that holds a text compares as equal to any other, so two entries stay as they came. */
  lemma TextStaysBehind(a: Cell<string>, b: Cell<string>, sort: Sorter)
    requires FollowsStandard(sort) && b.value.Text?
    ensures sort([a, b]) == [a, b]
  {
    assert [a][..0] == [] && [a, b][..1] == [a];
    assert StableSort([a]) == [a];
    assert StableSort([a, b]) == [a, b];
    assert Consistent([a, b]);
  }

  lemma TextOfInherited(logs: seq<TrafficSample>, name: string)
    requires name in METHODS && name in TableBy(logs, HostOf)
    ensures TableBy(logs, HostOf)[name].Text?
  {
  }

  lemma CellsOfTwo(logs: seq<TrafficSample>, host: string, inherited: string)
    requires OwnOrder(logs) == [host, inherited] && inherited in METHODS
    ensures var cells := HostCells(logs); cells == [cells[0], cells[1]] && cells[0].name == host && cells[1].value.Text?
  {
    OwnOrderListsHosts(logs);
    assert OwnOrder(logs)[1] == inherited;
    TextOfInherited(logs, inherited);
  }

  lemma FirstStaysFirst(logs: seq<TrafficSample>, host: string, inherited: string, sort: Sorter)
    requires FollowsStandard(sort) && IsInherited(inherited)
    requires OwnOrder(logs) == if inherited == PROTO then [host] else [host, inherited]
    ensures KnownHostsOf(logs, TableBy(logs, HostOf), 1, sort) == [host]
  {
    var cells := HostCells(logs);
    if inherited == PROTO {
      OneCellStays(cells[0], sort);
      assert cells == [cells[0]];
    } else {
      CellsOfTwo(logs, host, inherited);
      TextStaysBehind(cells[0], cells[1], sort);
    }
    FirstName(sort(cells), host);
  }

  lemma FirstName(cells: seq<Cell<string>>, name: string)
    requires cells != [] && cells[0].name == name
    ensures Take(Names(cells), 1) == [name]
  {
  }

  lemma RanksWrong(logs: seq<TrafficSample>, hosts: set<string>, sort: Sorter, max: nat, known: string, unknown: string)
    requires AllTo(logs, hosts) && KnownHostsOf(logs, TableBy(logs, HostOf), max, sort) == [known]
    requires unknown != known && unknown in Project(logs, HostOf) && RequestsTo(logs, unknown) > RequestsTo(logs, known)
    ensures !AlwaysRanksRight(hosts, sort)
  {
    assert known in [known] && unknown !in [known];
    assert !RanksRight(logs, [known]);
  }

  lemma OneToTwo(host: string, inherited: string, hosts: set<string>) returns (logs: seq<TrafficSample>)
    requires host in hosts && inherited in hosts && host != inherited && host != PROTO
    ensures AllTo(logs, hosts) && inherited in Project(logs, HostOf)
    ensures OwnOrder(logs) == if inherited == PROTO then [host] else [host, inherited]
    ensures RequestsTo(logs, host) == 1 && RequestsTo(logs, inherited) == 2
  {
    logs := Three(host, inherited);
    NamesOfThree(host, inherited);
    RequestsToThree(host, inherited);
    assert Project(logs, HostOf)[1] == inherited;
  }

  lemma InheritedNameRanksWrong(host: string, inherited: string, hosts: set<string>, sort: Sorter)
    requires FollowsStandard(sort) && host in hosts && inherited in hosts
    requires host != inherited && host != PROTO && IsInherited(inherited)
    ensures !AlwaysRanksRight(hosts, sort)
  {
    var logs := OneToTwo(host, inherited, hosts);
    FirstStaysFirst(logs, host, inherited, sort);
    RanksWrong(logs, hosts, sort, 1, host, inherited);
  }

  lemma OneHostRanksRight(logs: seq<TrafficSample>, known: seq<string>, only: string)
    requires AllTo(logs, {only}) && forall k :: k in known ==> k in Project(logs, HostOf)
    ensures RanksRight(logs, known)
  {
    var names := Project(logs, HostOf);
    forall name | name in names ensures name == only {
      var i :| 0 <= i < |names| && names[i] == name;
      assert names[i] == HostOf(logs[i]);
      assert logs[i].destinationHost in {only};
    }
  }

  lemma KnownHostsAreHosts(logs: seq<TrafficSample>, max: nat, sort: Sorter, k: string)
    requires FollowsStandard(sort) && k in KnownHostsOf(logs, TableBy(logs, HostOf), max, sort)
    ensures k in Project(logs, HostOf)
  {
    SortedNames(logs, sort, k);
    OwnOrderListsHosts(logs);
  }

  /**
   * Whatever the traffic to some hosts and whatever the number of hosts to keep, the busiest ones are kept, exactly
   * if none of the hosts has an inherited name, or there is no other host to rank it against.
   */
  lemma RankingIsRightWithoutInheritedNames(hosts: set<string>, sort: Sorter)
    requires FollowsStandard(sort)
    ensures AlwaysRanksRight(hosts, sort) <==> forall h :: h in hosts && IsInherited(h) ==> hosts == {h}
  {
    if h :| h in hosts && IsInherited(h) && hosts != {h} {
      OthersThan(hosts, h);
      var other :| other in hosts && other != h;
      if other == PROTO {
        InheritedNameRanksWrong(h, other, hosts, sort);
      } else {
        InheritedNameRanksWrong(other, h, hosts, sort);
      }
    } else {
      forall logs, max: nat | AllTo(logs, hosts)
        ensures RanksRight(logs, KnownHostsOf(logs, TableBy(logs, HostOf), max, sort))
      {
        TrafficRanksRight(logs, hosts, max, sort);
      }
    }
  }

  lemma OthersThan(hosts: set<string>, h: string)
    requires h in hosts && hosts != {h}
    ensures exists other :: other in hosts && other != h
  {
  }

  lemma TrafficRanksRight(logs: seq<TrafficSample>, hosts: set<string>, max: nat, sort: Sorter)
    requires FollowsStandard(sort) && AllTo(logs, hosts)
    requires forall h :: h in hosts && IsInherited(h) ==> hosts == {h}
    ensures RanksRight(logs, KnownHostsOf(logs, TableBy(logs, HostOf), max, sort))
  {
    var known := KnownHostsOf(logs, TableBy(logs, HostOf), max, sort);
    if h :| h in hosts && IsInherited(h) {
      forall k | k in known ensures k in Project(logs, HostOf) {
        KnownHostsAreHosts(logs, max, sort, k);
      }
      OneHostRanksRight(logs, known, h);
    } else {
      assert NoInheritedName(logs, HostOf);
      forall k, host | k in known && host in Project(logs, HostOf) && host !in known
        ensures RequestsTo(logs, host) <= RequestsTo(logs, k)
      {
        KnownHostsAreTheBusiest(logs, max, sort, k, host);
      }
    }
  }
}
