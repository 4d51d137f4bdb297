/** The in-place shuffle of the password generator, and the proof that its choices and the permutations match one to one. */
module Shuffle {
  import opened RandomInt

  /** No item occurs twice. */
  ghost predicate Distinct<T(!new)>(s: seq<T>) {
    forall x :: multiset(s)[x] <= 1
  }

  ghost predicate Permutation<T>(s: seq<T>, p: seq<T>) {
    multiset(s) == multiset(p)
  }

  predicate AgreeFrom<T(==)>(s: seq<T>, t: seq<T>, start: nat)
    requires |s| == |t|
  {
    forall k :: start <= k < |s| ==> s[k] == t[k]
  }

  function Swap<T>(s: seq<T>, i: nat, j: nat): seq<T>
    requires i < |s| && j < |s|
  {
    seq(|s|, k requires 0 <= k < |s| => if k == i then s[j] else if k == j then s[i] else s[k])
  }

  lemma SwapIsTwoUpdates<T>(s: seq<T>, i: nat, j: nat)
    requires i < |s| && j < |s|
    ensures Swap(s, i, j) == s[i := s[j]][j := s[i]]
  {
  }

  /** Number of choices in a complete shuffle of n items. */
  function Rounds(n: nat): nat {
    if n == 0 then 0 else n - 1
  }

  /** The k-th choice settles slot n - 1 - k and may point at any slot up to it. */
  predicate ValidChoices(n: nat, choices: seq<nat>) {
    && |choices| <= Rounds(n)
    && forall k :: 0 <= k < |choices| ==> choices[k] < n - k
  }

  /** The list after the first `count` swaps that the choices order. */
  function AfterFirst<T>(s: seq<T>, choices: seq<nat>, count: nat): (r: seq<T>)
    requires ValidChoices(|s|, choices) && count <= |choices|
    ensures |r| == |s|
  {
    if count == 0 then s
    else Swap(AfterFirst(s, choices, count - 1), |s| - count, choices[count - 1])
  }

  /** The shuffled list. */
  function After<T>(s: seq<T>, choices: seq<nat>): (r: seq<T>)
    requires ValidChoices(|s|, choices)
  {
    AfterFirst(s, choices, |choices|)
  }

  lemma {:induction false} LaterChoicesDoNotMatter<T>(s: seq<T>, c: seq<nat>, d: seq<nat>, count: nat)
    requires ValidChoices(|s|, c) && ValidChoices(|s|, d) && count <= |c| && count <= |d|
    requires forall k :: 0 <= k < count ==> c[k] == d[k]
    ensures AfterFirst(s, c, count) == AfterFirst(s, d, count)
  {
    if count == 0 {
    } else {
      LaterChoicesDoNotMatter(s, c, d, count - 1);
    }
  }

  lemma OneMoreSwap<T>(s: seq<T>, choices: seq<nat>, j: nat)
    requires ValidChoices(|s|, choices) && |choices| < Rounds(|s|) && j < |s| - |choices|
    ensures ValidChoices(|s|, choices + [j])
    ensures After(s, choices + [j]) == Swap(After(s, choices), |s| - 1 - |choices|, j)
  {
    LaterChoicesDoNotMatter(s, choices, choices + [j], |choices|);
  }

  /** The bounds asked of the random source while the first `count` of n slots are settled. */
  function Bounds(n: nat, count: nat): seq<Bound>
    requires count <= Rounds(n)
  {
    seq(count, k requires 0 <= k < count => n - k)
  }

  lemma NextSlotDrawn(words: nat -> Word, start: nat, mid: nat, to: nat, n: nat, choices: seq<nat>, value: nat)
    requires |choices| < Rounds(n)
    requires Drawn(words, start, mid, Bounds(n, |choices|), choices)
    requires to > 0 && FirstKept(words, mid, n - |choices|, to - 1) && value == words(to - 1) % (n - |choices|)
    ensures Drawn(words, start, to, Bounds(n, |choices| + 1), choices + [value])
  {
    DrawnOneMore(words, start, mid, to, Bounds(n, |choices|), choices, n - |choices|, value);
    assert Bounds(n, |choices| + 1) == Bounds(n, |choices|) + [n - |choices|];
  }

  method SwapItems<T>(items: array<T>, i: nat, j: nat)
    requires i < items.Length && j < items.Length
    modifies items
    ensures items[..] == Swap(old(items[..]), i, j)
  {
    var current := items[i];
    items[i] := items[j];
    items[j] := current;
    assert items[..] == old(items[..])[i := old(items[j])][j := old(items[i])];
    SwapIsTwoUpdates(old(items[..]), i, j);
  }

  method ShuffleInPlace<T>(items: array<T>, source: RandomSource) returns (ghost choices: seq<nat>)
    requires Fair(source.words)
    requires items.Length <= WORDS
    modifies items, source`position
    ensures |choices| == Rounds(items.Length) && ValidChoices(items.Length, choices)
    ensures items[..] == After(old(items[..]), choices)
    ensures Drawn(source.words, old(source.position), source.position, Bounds(items.Length, |choices|), choices)
  {
    choices := [];
    ghost var before := items[..];
    ghost var start := source.position;
    var index := items.Length - 1;
    while index > 0
      invariant items.Length > 0 ==> 0 <= index < items.Length
      invariant |choices| == (if items.Length == 0 then 0 else items.Length - 1 - index)
      invariant ValidChoices(items.Length, choices)
      invariant items[..] == After(before, choices)
      invariant Drawn(source.words, start, source.position, Bounds(items.Length, |choices|), choices)
    {
      ghost var mid := source.position;
      var drawn := SecureRandomInt(source, index + 1);
      var swapIndex := drawn.value;
      NextSlotDrawn(source.words, start, mid, source.position, items.Length, choices, swapIndex);
      OneMoreSwap(before, choices, swapIndex);

      SwapItems(items, index, swapIndex);
      choices := choices + [swapIndex];
      index := index - 1;
    }
  }

  lemma SwapPermutes<T>(s: seq<T>, i: nat, j: nat)
    requires i < |s| && j < |s|
    ensures Permutation(s, Swap(s, i, j))
  {
    SwapIsTwoUpdates(s, i, j);
  }

  lemma OneSwapMorePermutes<T>(s: seq<T>, t: seq<T>, i: nat, j: nat)
    requires Permutation(s, t) && i < |t| && j < |t|
    ensures Permutation(s, Swap(t, i, j))
  {
    SwapPermutes(t, i, j);
  }

  /** Whatever is chosen, the shuffle only reorders. */
  lemma {:induction false} ShufflePermutes<T>(s: seq<T>, choices: seq<nat>, count: nat)
    requires ValidChoices(|s|, choices) && count <= |choices|
    ensures Permutation(s, AfterFirst(s, choices, count))
  {
    if count == 0 {
    } else {
      var t := AfterFirst(s, choices, count - 1);
      ShufflePermutes(s, choices, count - 1);
      OneSwapMorePermutes(s, t, |s| - count, choices[count - 1]);
    }
  }

  lemma UndoSwap<T>(t: seq<T>, u: seq<T>, i: nat, j: nat, k: nat)
    requires |t| == |u| && i < |t| && j <= i && k <= i
    requires AgreeFrom(Swap(t, i, j), Swap(u, i, k), i)
    ensures AgreeFrom(t, u, i + 1)
    ensures t[j] == u[k]
  {
    assert Swap(t, i, j)[i] == Swap(u, i, k)[i];
    forall m | i + 1 <= m < |t| ensures t[m] == u[m] {
      assert Swap(t, i, j)[m] == Swap(u, i, k)[m];
    }
  }

  lemma TwoSlotsCountTwice<T>(t: seq<T>, lo: nat, hi: nat)
    requires lo < hi < |t| && t[lo] == t[hi]
    ensures multiset(t)[t[lo]] >= 2
  {
    assert t == t[..lo] + [t[lo]] + t[lo + 1..hi] + [t[hi]] + t[hi + 1..];
  }

  lemma SameElementSameSlot<T(!new)>(t: seq<T>, i: nat, j: nat)
    requires Distinct(t) && i < |t| && j < |t| && t[i] == t[j]
    ensures i == j
  {
    if i < j {
      TwoSlotsCountTwice(t, i, j);
    } else if j < i {
      TwoSlotsCountTwice(t, j, i);
    }
  }

  lemma ShuffleKeepsSlotsApart<T(!new)>(s: seq<T>, c: seq<nat>, count: nat, j: nat, k: nat)
    requires Distinct(s) && ValidChoices(|s|, c) && count <= |c|
    requires j < |s| && k < |s| && AfterFirst(s, c, count)[j] == AfterFirst(s, c, count)[k]
    ensures j == k
  {
    var t := AfterFirst(s, c, count);
    assert Distinct(t) by { ShufflePermutes(s, c, count); }
    SameElementSameSlot(t, j, k);
  }

  /** Choices can be read off the settled end of the list, so different choices lead to different lists. */
  lemma {:induction false} SettledEndDeterminesChoices<T(!new)>(s: seq<T>, c: seq<nat>, d: seq<nat>, count: nat)
    requires Distinct(s)
    requires ValidChoices(|s|, c) && ValidChoices(|s|, d) && count <= |c| && count <= |d|
    requires AgreeFrom(AfterFirst(s, c, count), AfterFirst(s, d, count), |s| - count)
    ensures forall k :: 0 <= k < count ==> c[k] == d[k]
  {
    if count == 0 {
    } else {
      var t, u := AfterFirst(s, c, count - 1), AfterFirst(s, d, count - 1);
      UndoSwap(t, u, |s| - count, c[count - 1], d[count - 1]);
      SettledEndDeterminesChoices(s, c, d, count - 1);
      LaterChoicesDoNotMatter(s, c, d, count - 1);
      ShuffleKeepsSlotsApart(s, c, count - 1, c[count - 1], d[count - 1]);
    }
  }

  /** If two permutations of one another agree from slot `end` on, the rest of either is a permutation of the rest of the other. */
  lemma SameRest<T>(t: seq<T>, p: seq<T>, end: nat)
    requires Permutation(t, p) && |t| == |p| && end <= |t|
    requires AgreeFrom(t, p, end)
    ensures Permutation(t[..end], p[..end])
  {
    assert t == t[..end] + t[end..] && p == p[..end] + p[end..];
    assert t[end..] == p[end..];
    assert multiset(t[..end]) + multiset(t[end..]) == multiset(p[..end]) + multiset(t[end..]);
    assert multiset(t[..end]) == multiset(p[..end]) + multiset(t[end..]) - multiset(t[end..]);
  }

  /** The slot that holds what belongs into slot `i`, once all later slots are right. */
  lemma NextChoice<T>(t: seq<T>, p: seq<T>, i: nat) returns (j: nat)
    requires Permutation(t, p) && |t| == |p| && i < |t|
    requires AgreeFrom(t, p, i + 1)
    ensures j <= i && t[j] == p[i]
  {
    SameRest(t, p, i + 1);
    assert p[..i + 1][i] == p[i];
    assert p[i] in multiset(p[..i + 1]);
    assert p[i] in t[..i + 1];
    j :| 0 <= j < i + 1 && t[..i + 1][j] == p[i];
  }

  /** Some choices whose swaps move the right elements into the last `count` slots of `p`. */
  lemma {:induction false} ChoicesFor<T>(s: seq<T>, p: seq<T>, count: nat) returns (c: seq<nat>)
    requires Permutation(s, p) && |s| == |p|
    requires count <= Rounds(|s|)
    ensures |c| == count && ValidChoices(|s|, c)
    ensures AgreeFrom(After(s, c), p, |s| - count)
  {
    c := [];
    if count > 0 {
      var c' := ChoicesFor(s, p, count - 1);
      ShufflePermutes(s, c', count - 1);
      var j := NextChoice(After(s, c'), p, |s| - count);
      OneMoreSwap(s, c', j);
      c := c' + [j];
    }
  }

  /** Every rearrangement, with or without repeated items, is the outcome of some choices. */
  lemma EveryPermutationIsReached<T>(s: seq<T>, p: seq<T>)
    requires Permutation(s, p)
    ensures exists c: seq<nat> :: |c| == Rounds(|s|) && ValidChoices(|s|, c) && After(s, c) == p
  {
    assert |multiset(s)| == |s| && |multiset(p)| == |p|;
    var c := ChoicesFor(s, p, Rounds(|s|));
    ShufflePermutes(s, c, |c|);
    if |s| > 0 {
      var j := NextChoice(After(s, c), p, 0);
    }
    assert After(s, c) == p;
  }

  /**
   * The shuffle is a bijection: for distinct items, every permutation is the outcome of one list of choices,
   * and of no other one. With unbiased choices no permutation is therefore preferred.
   */
  lemma ShuffleIsBijection<T(!new)>(s: seq<T>, p: seq<T>)
    requires Distinct(s) && Permutation(s, p)
    ensures exists c: seq<nat> :: |c| == Rounds(|s|) && ValidChoices(|s|, c) && After(s, c) == p
    ensures forall c: seq<nat>, d: seq<nat> ::
              && |c| == |d| == Rounds(|s|)
              && ValidChoices(|s|, c) && After(s, c) == p
              && ValidChoices(|s|, d) && After(s, d) == p
              ==> c == d
  {
    EveryPermutationIsReached(s, p);
    forall c: seq<nat>, d: seq<nat> |
      && |c| == |d| == Rounds(|s|)
      && ValidChoices(|s|, c) && After(s, c) == p
      && ValidChoices(|s|, d) && After(s, d) == p
      ensures c == d
    {
      SettledEndDeterminesChoices(s, c, d, |c|);
    }
  }
}
