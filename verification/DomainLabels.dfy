/** Dot-separated names as lists of labels. */
module DomainLabels {

  predicate IsSuffix<T(==)>(suffix: seq<T>, s: seq<T>) {
    |suffix| <= |s| && s[|s| - |suffix|..] == suffix
  }

  /** The labels of a name that starts with `c` and goes on with the name of these labels. */
  function Prepend(c: char, labels: seq<string>): (r: seq<string>)
    requires |labels| >= 1
    ensures |r| >= 1
  {
    if c == '.' then [""] + labels else [[c] + labels[0]] + labels[1..]
  }

  /** The parts of `s` between its dots. */
  function Labels(s: string): (r: seq<string>)
    ensures |r| >= 1
  {
    if s == "" then [""] else Prepend(s[0], Labels(s[1..]))
  }

  function Join(labels: seq<string>): string
    requires |labels| >= 1
  {
    if |labels| == 1 then labels[0] else labels[0] + ("." + Join(labels[1..]))
  }

  lemma JoinOfPrepended(c: char, labels: seq<string>)
    requires |labels| >= 1
    ensures Join(Prepend(c, labels)) == [c] + Join(labels)
  {
    var r := Prepend(c, labels);
    if c == '.' {
      assert r[1..] == labels;
    } else {
      assert r[1..] == labels[1..];
    }
  }

  /** No label has a dot in it, and joining the labels gives the name back. */
  lemma {:induction false} LabelsSplitAtDots(s: string)
    ensures Join(Labels(s)) == s
    ensures forall i :: 0 <= i < |Labels(s)| ==> '.' !in Labels(s)[i]
  {
    if s == "" {
    } else {
      LabelsSplitAtDots(s[1..]);
      JoinOfPrepended(s[0], Labels(s[1..]));
    }
  }

  lemma PrependToJoinedLists(c: char, labels: seq<string>, more: seq<string>)
    requires |labels| >= 1
    ensures Prepend(c, labels + more) == Prepend(c, labels) + more
  {
  }

  lemma {:induction false} LabelsOfJoinedNames(a: string, b: string)
    ensures Labels(a + ("." + b)) == Labels(a) + Labels(b)
  {
    var whole := a + ("." + b);
    if a == "" {
      assert whole == "." + b;
      assert whole[1..] == b;
    } else {
      LabelsOfJoinedNames(a[1..], b);
      assert whole[1..] == a[1..] + ("." + b);
      PrependToJoinedLists(a[0], Labels(a[1..]), Labels(b));
    }
  }

  lemma {:induction false} JoinOfParts(front: seq<string>, back: seq<string>)
    requires |front| >= 1 && |back| >= 1
    ensures Join(front + back) == Join(front) + ("." + Join(back))
  {
    if |front| == 1 {
      assert (front + back)[1..] == back;
    } else {
      JoinOfParts(front[1..], back);
      assert (front + back)[1..] == front[1..] + back;
    }
  }
}
