/**
 * A plain object used as a table. Every object inherits some names from `Object.prototype`; reading one of them
 * finds something even where nothing was ever written.
 */
module PlainObjects {
  import opened Histograms

  const PROTO := "__proto__"

  /** The inherited names that stand for functions. */
  const METHODS := {
    "constructor", "hasOwnProperty", "isPrototypeOf", "propertyIsEnumerable", "toLocaleString", "toString", "valueOf",
    "__defineGetter__", "__defineSetter__", "__lookupGetter__", "__lookupSetter__"
  }

  predicate IsInherited(name: string) {
    name == PROTO || name in METHODS
  }

  /** How a built-in function reads as a text. */
  function MethodText(name: string): string {
    "function " + (if name == "constructor" then "Object" else name) + "() { [native code] }"
  }

  /** What a counter can hold. */
  datatype Value = Number(n: nat) | Text(s: string)

  type Table = map<string, Value>

  /** What reading a property can give. */
  datatype Slot = Undefined | Own(value: Value) | Method(name: string) | Prototype

  function Read(table: Table, key: string): Slot {
    if key in table then Own(table[key])
    else if key == PROTO then Prototype
    else if key in METHODS then Method(key)
    else Undefined
  }

  /** `(slot ?? 0) + 1`: only a missing value counts as zero, and one is appended to whatever is not a number. */
  function PlusOne(slot: Slot): Value {
    match slot
    case Undefined => Number(1)
    case Own(Number(n)) => Number(n + 1)
    case Own(Text(s)) => Text(s + "1")
    case Method(name) => Text(MethodText(name) + "1")
    case Prototype => Text("[object Object]1")
  }

  /** Writing to `__proto__` sets the prototype, which ignores numbers and texts; all other names become own properties. */
  function Write(table: Table, key: string, value: Value): Table {
    if key == PROTO then table else table[key := value]
  }

  function IncrementCount(table: Table, key: string): Table {
    Write(table, key, PlusOne(Read(table, key)))
  }

  // ----- what a counting loop ends with -----

  function Ones(n: nat): string {
    seq(n, _ => '1')
  }

  /** Each counted name on its own: a number, or for an inherited function its text and a one for each time. */
  function Tabulated(keys: seq<string>): Table {
    map k | k in keys && k != PROTO :: ValueFor(k, multiset(keys)[k])
  }

  function ValueFor(key: string, count: nat): Value {
    if key in METHODS then Text(MethodText(key) + Ones(count)) else Number(count)
  }

  lemma OneMoreOne(n: nat)
    ensures Ones(n + 1) == Ones(n) + "1"
  {
  }

  lemma ValueOneMore(keys: seq<string>, key: string)
    requires key != PROTO
    ensures PlusOne(Read(Tabulated(keys), key)) == ValueFor(key, multiset(keys)[key] + 1)
  {
    var n := multiset(keys)[key];
    OneMoreOne(n);
    if key in keys {
      assert MethodText(key) + Ones(n) + "1" == MethodText(key) + (Ones(n) + "1");
    } else {
      assert n == 0 && Ones(1) == "1";
    }
  }

  lemma TabulatedOneMore(keys: seq<string>, key: string)
    ensures Tabulated(keys + [key]) == IncrementCount(Tabulated(keys), key)
  {
    var more := keys + [key];
    assert forall k :: k in more <==> k in keys || k == key;
    assert multiset(more) == multiset(keys) + multiset{key};
    if key != PROTO {
      ValueOneMore(keys, key);
    }
  }

  // ----- when the counts are right -----

  /** The entries that are numbers. */
  function Numbers(table: Table): Counts<string> {
    map k | k in table && table[k].Number? :: table[k].n
  }

  /** The counted names that no object inherits. */
  function Proper(keys: seq<string>): seq<string> {
    if keys == [] then []
    else
      var last := |keys| - 1;
      Proper(keys[..last]) + if IsInherited(keys[last]) then [] else [keys[last]]
  }

  predicate NoneInherited(keys: seq<string>) {
    forall k :: k in keys ==> !IsInherited(k)
  }

  predicate AllNumbers(table: Table) {
    forall k :: k in table ==> table[k].Number?
  }

  lemma {:induction false} ProperCounts(keys: seq<string>, k: string)
    ensures multiset(Proper(keys))[k] == if IsInherited(k) then 0 else multiset(keys)[k]
    ensures k in Proper(keys) <==> k in keys && !IsInherited(k)
  {
    if keys == [] {
    } else {
      var last := |keys| - 1;
      assert keys == keys[..last] + [keys[last]];
      ProperCounts(keys[..last], k);
    }
  }

  lemma {:induction false} ProperIsAllOrLess(keys: seq<string>)
    ensures |Proper(keys)| <= |keys|
    ensures |Proper(keys)| == |keys| <==> NoneInherited(keys)
  {
    if keys == [] {
    } else {
      var last := |keys| - 1;
      assert keys == keys[..last] + [keys[last]];
      ProperIsAllOrLess(keys[..last]);
    }
  }

  lemma NumbersAreProperCounts(keys: seq<string>)
    ensures Numbers(Tabulated(keys)) == Histogram(Proper(keys))
  {
    forall k
      ensures k in Numbers(Tabulated(keys)) <==> k in Histogram(Proper(keys))
      ensures k in Histogram(Proper(keys)) ==> Numbers(Tabulated(keys))[k] == Histogram(Proper(keys))[k]
    {
      ProperCounts(keys, k);
    }
  }

  /** The numbers add up to the number of things counted exactly if none of them has an inherited name. */
  lemma SumIsRight(keys: seq<string>)
    ensures MapSum(Numbers(Tabulated(keys))) == |Proper(keys)|
    ensures MapSum(Numbers(Tabulated(keys))) == |keys| <==> NoneInherited(keys)
  {
    NumbersAreProperCounts(keys);
    HistogramConserves(Proper(keys));
    ProperIsAllOrLess(keys);
  }

  /** What a table without inherited names would hold. */
  function AsTable(counts: Counts<string>): Table {
    map k | k in counts :: Number(counts[k])
  }

  /** The table is the histogram exactly if no inherited name was counted. */
  lemma TableIsRight(keys: seq<string>)
    ensures Tabulated(keys) == AsTable(Histogram(keys)) <==> NoneInherited(keys)
    ensures AllNumbers(Tabulated(keys)) <==> forall k :: k in keys ==> k !in METHODS
  {
    forall k | k in keys && IsInherited(k) ensures Tabulated(keys) != AsTable(Histogram(keys)) {
      assert k in AsTable(Histogram(keys)) && AsTable(Histogram(keys))[k].Number?;
    }
    forall k | k in keys && k in METHODS ensures !AllNumbers(Tabulated(keys)) {
      assert k in Tabulated(keys) && Tabulated(keys)[k].Text?;
    }
  }

  lemma TabulatedOne(key: string)
    ensures Tabulated([key]) == if key == PROTO then map[] else map[key := ValueFor(key, 1)]
  {
    TabulatedOneMore([], key);
    assert [] + [key] == [key] && Ones(1) == "1";
  }

  lemma CountOfToString()
    ensures ValueFor("toString", 1) == Text("function toString() { [native code] }1")
  {
    assert Ones(1) == "1";
    assert MethodText("toString") == "function toString() { [native code] }";
    assert "function toString() { [native code] }" + "1" == "function toString() { [native code] }1";
  }

  /** A name counted once that is counted wrong, and one that is not counted at all. */
  lemma InheritedNamesAreMiscounted()
    ensures Tabulated(["toString"]) == map["toString" := Text("function toString() { [native code] }1")]
    ensures Tabulated([PROTO]) == map[]
  {
    TabulatedOne("toString");
    TabulatedOne(PROTO);
    CountOfToString();
  }
}
