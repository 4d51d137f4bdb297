/** The vault's password generator: which passwords it can return, and from which random draws. */
module PasswordGenerator {
  import opened Wrappers
  import opened RandomInt
  import opened Shuffle

  const PASSWORD_LENGTH := 16

  const CHARSET_UPPER := "ABCDEFGHIJKLMNOPQRSTUVWXYZ"
  const CHARSET_LOWER := "abcdefghijklmnopqrstuvwxyz"
  const CHARSET_NUMBERS := "0123456789"
  const CHARSET_SYMBOLS := "!@#$%^&*()-_=+[]{}|;:,.<>?"

  const CHARSETS := [CHARSET_UPPER, CHARSET_LOWER, CHARSET_NUMBERS, CHARSET_SYMBOLS]

  const CHARSET := CHARSET_UPPER + CHARSET_LOWER + CHARSET_NUMBERS + CHARSET_SYMBOLS

  /** The four sets are what their names say, without repetition, and together the alphabet of all passwords. */
  lemma CharsetsAreClasses(c: char)
    ensures c in CHARSETS[0] <==> 'A' <= c <= 'Z'
    ensures c in CHARSETS[1] <==> 'a' <= c <= 'z'
    ensures c in CHARSETS[2] <==> '0' <= c <= '9'
    ensures |CHARSETS[0]| == |CHARSETS[1]| == |CHARSETS[3]| == 26 && |CHARSETS[2]| == 10 && |CHARSET| == 88
    ensures c in CHARSET <==> c in CHARSETS[0] || c in CHARSETS[1] || c in CHARSETS[2] || c in CHARSETS[3]
  {
  }

  /** Some character of `set` occurs in `p`. */
  predicate Contains(p: string, set': string) {
    exists k :: 0 <= k < |p| && p[k] in set'
  }

  /** The promise made to the user: sixteen known characters, at least one from each of the four sets. */
  predicate IsVaultPassword(p: string) {
    && |p| == PASSWORD_LENGTH
    && (forall k :: 0 <= k < |p| ==> p[k] in CHARSET)
    && (forall k :: 0 <= k < 4 ==> Contains(p, CHARSETS[k]))
  }

  /** The set from which the k-th character is picked, before the shuffle. */
  function CharsetAt(k: nat): (r: string)
    ensures 1 <= |r| <= 88
  {
    if k < 4 then CHARSETS[k] else CHARSET
  }

  function PickBounds(count: nat): (r: seq<Bound>)
    ensures |r| == count
  {
    seq(count, k requires 0 <= k < count => |CharsetAt(k)|)
  }

  /** The characters before the shuffle are one pick from each set, then picks from all of them. */
  predicate ValidPicks(picks: string) {
    forall k :: 0 <= k < |picks| ==> picks[k] in CharsetAt(k)
  }

  /** The k-th pick is the character at the k-th drawn index. */
  predicate PickedAt(picks: string, indices: seq<nat>) {
    && |picks| == |indices|
    && forall k :: 0 <= k < |picks| ==> indices[k] < |CharsetAt(k)| && picks[k] == CharsetAt(k)[indices[k]]
  }

  method PickRandomChar(charset: string, source: RandomSource) returns (r: Result<char, Error>, ghost index: nat)
    requires Fair(source.words)
    requires |charset| <= WORDS
    modifies source`position
    ensures r.Err? <==> charset == ""
    ensures r.Ok? ==> index < |charset| && r.value == charset[index]
    ensures r.Ok? ==> source.position > 0
    ensures r.Ok? ==> FirstKept(source.words, old(source.position), |charset|, source.position - 1)
    ensures r.Ok? ==> index == source.words(source.position - 1) % |charset|
  {
    index := 0;
    var drawn := SecureRandomInt(source, |charset|);
    if drawn.Err? {
      return Err(drawn.error), 0;
    }
    return Ok(charset[drawn.value]), drawn.value;
  }

  /** One more pick, and the words it took. */
  lemma NextPickDrawn(words: nat -> Word, start: nat, mid: nat, to: nat, indices: seq<nat>, index: nat)
    requires Drawn(words, start, mid, PickBounds(|indices|), indices)
    requires to > 0 && FirstKept(words, mid, |CharsetAt(|indices|)|, to - 1)
    requires index == words(to - 1) % |CharsetAt(|indices|)|
    ensures Drawn(words, start, to, PickBounds(|indices| + 1), indices + [index])
  {
    var max: Bound := |CharsetAt(|indices|)|;
    DrawnOneMore(words, start, mid, to, PickBounds(|indices|), indices, max, index);
    OneMoreBound(|indices|, max);
  }

  lemma OneMoreBound(count: nat, max: Bound)
    requires max == |CharsetAt(count)|
    ensures PickBounds(count + 1) == PickBounds(count) + [max]
  {
  }

  /** Every generated password keeps the promise, and is determined by thirty-one draws from the random source. */
  method GenerateVaultPassword(source: RandomSource)
    returns (r: Result<string, Error>, ghost indices: seq<nat>, ghost picks: string, ghost choices: seq<nat>)
    requires Fair(source.words)
    modifies source`position
    ensures r.Ok? && IsVaultPassword(r.value) && |r.value| == 16
    ensures |picks| == PASSWORD_LENGTH && PickedAt(picks, indices)
    ensures |choices| == Rounds(PASSWORD_LENGTH) && ValidChoices(PASSWORD_LENGTH, choices)
    ensures r.value == After(picks, choices)
    ensures exists mid: nat ::
              && Drawn(source.words, old(source.position), mid, PickBounds(PASSWORD_LENGTH), indices)
              && Drawn(source.words, mid, source.position, Bounds(PASSWORD_LENGTH, |choices|), choices)
  {
    ghost var start := source.position;
    var chars: string := [];
    indices := [];

    for k := 0 to 4
      invariant |chars| == k && PickedAt(chars, indices)
      invariant Drawn(source.words, start, source.position, PickBounds(k), indices)
    {
      chars, indices := PushPick(chars, CHARSETS[k], source, start, indices);
    }

    while |chars| < PASSWORD_LENGTH
      invariant 4 <= |chars| <= PASSWORD_LENGTH && PickedAt(chars, indices)
      invariant Drawn(source.words, start, source.position, PickBounds(|chars|), indices)
    {
      chars, indices := PushPick(chars, CHARSET, source, start, indices);
    }

    picks := chars;
    ghost var mid := source.position;
    var items := new char[|chars|](i requires 0 <= i < |chars| => chars[i]);
    assert items[..] == picks;
    choices := ShuffleInPlace(items, source);
    r := Ok(items[..]);
    ShuffledPicksKeepThePromise(picks, choices);
    assert Drawn(source.words, start, mid, PickBounds(PASSWORD_LENGTH), indices);
  }

  method PushPick(chars: string, charset: string, source: RandomSource, ghost start: nat, ghost indices: seq<nat>)
    returns (chars': string, ghost indices': seq<nat>)
    requires Fair(source.words)
    requires charset == CharsetAt(|chars|) && PickedAt(chars, indices)
    requires Drawn(source.words, start, source.position, PickBounds(|chars|), indices)
    modifies source`position
    ensures |chars'| == |chars| + 1 && PickedAt(chars', indices')
    ensures Drawn(source.words, start, source.position, PickBounds(|chars'|), indices')
  {
    ghost var mid := source.position;
    var picked, index := PickRandomChar(charset, source);
    NextPickDrawn(source.words, start, mid, source.position, indices, index);
    OneMorePicked(chars, indices, picked.value, index);
    chars' := chars + [picked.value];
    indices' := indices + [index];
  }

  lemma OneMorePicked(chars: string, indices: seq<nat>, c: char, index: nat)
    requires PickedAt(chars, indices) && index < |CharsetAt(|chars|)| && c == CharsetAt(|chars|)[index]
    ensures PickedAt(chars + [c], indices + [index])
  {
  }

  lemma PermutationKeepsMembers(s: string, p: string, c: char)
    requires Permutation(s, p)
    ensures c in s <==> c in p
  {
    assert c in s <==> c in multiset(s);
    assert c in p <==> c in multiset(p);
  }

  lemma SetsAreInCharset(k: nat, c: char)
    requires c in CharsetAt(k)
    ensures c in CHARSET
  {
  }

  lemma ShuffledPicksKeepThePromise(picks: string, choices: seq<nat>)
    requires |picks| == PASSWORD_LENGTH && ValidPicks(picks)
    requires ValidChoices(PASSWORD_LENGTH, choices)
    ensures IsVaultPassword(After(picks, choices))
  {
    var p := After(picks, choices);
    ShufflePermutes(picks, choices, |choices|);
    forall k | 0 <= k < |p| ensures p[k] in CHARSET {
      PermutationKeepsMembers(picks, p, p[k]);
      var m :| 0 <= m < |picks| && picks[m] == p[k];
      SetsAreInCharset(m, picks[m]);
    }
    forall k | 0 <= k < 4 ensures Contains(p, CHARSETS[k]) {
      assert picks[k] in CharsetAt(k);
      PermutationKeepsMembers(picks, p, picks[k]);
      var m :| 0 <= m < |p| && p[m] == picks[k];
    }
  }

  /** The number of the set that a character belongs to. */
  function SetOf(c: char): nat {
    if 'A' <= c <= 'Z' then 0 else if 'a' <= c <= 'z' then 1 else if '0' <= c <= '9' then 2 else 3
  }

  lemma UpperSet(c: char)
    requires c in CHARSET_UPPER
    ensures SetOf(c) == 0
  {
  }

  lemma LowerSet(c: char)
    requires c in CHARSET_LOWER
    ensures SetOf(c) == 1
  {
  }

  lemma NumberSet(c: char)
    requires c in CHARSET_NUMBERS
    ensures SetOf(c) == 2
  {
  }

  lemma SymbolSet(c: char)
    requires c in CHARSET_SYMBOLS
    ensures SetOf(c) == 3
  {
  }

  lemma SetsAreDisjoint(c: char, k: nat)
    requires k < 4 && c in CHARSETS[k]
    ensures SetOf(c) == k
  {
    match k {
      case 0 => UpperSet(c);
      case 1 => LowerSet(c);
      case 2 => NumberSet(c);
      case _ => SymbolSet(c);
    }
  }

  lemma NextPickSlot(p: string, q: string, k: nat) returns (j: nat)
    requires IsVaultPassword(p) && k < 4
    requires Permutation(p, q) && |q| == |p|
    requires forall i :: 0 <= i < k ==> q[i] in CHARSETS[i]
    ensures k <= j < |q| && q[j] in CHARSETS[k]
  {
    assert Contains(p, CHARSETS[k]);
    var i :| 0 <= i < |p| && p[i] in CHARSETS[k];
    PermutationKeepsMembers(p, q, p[i]);
    j :| 0 <= j < |q| && q[j] == p[i];
    SetsAreDisjoint(q[j], k);
    if j < k {
      SetsAreDisjoint(q[j], j);
    }
  }

  lemma SwapSettlesSlot(q: string, k: nat, j: nat)
    requires k < 4 && k <= j < |q| && q[j] in CHARSETS[k]
    requires forall i :: 0 <= i < k ==> q[i] in CHARSETS[i]
    ensures |Swap(q, k, j)| == |q|
    ensures forall i :: 0 <= i <= k ==> Swap(q, k, j)[i] in CHARSETS[i]
  {
  }

  /** Reorders a password so that slots 0 .. count - 1 hold one character of each of the first `count` sets. */
  lemma {:induction false} UnshuffledPicks(p: string, count: nat) returns (q: string)
    requires IsVaultPassword(p) && count <= 4
    ensures Permutation(p, q) && |q| == |p|
    ensures forall k :: 0 <= k < count ==> q[k] in CHARSETS[k]
  {
    if count == 0 {
      q := p;
    } else {
      var q' := UnshuffledPicks(p, count - 1);
      var j := NextPickSlot(p, q', count - 1);
      q := Swap(q', count - 1, j);
      SwapPermutes(q', count - 1, j);
      SwapSettlesSlot(q', count - 1, j);
    }
  }

  /** The generator reaches exactly the passwords that keep the promise: none is impossible, no other is possible. */
  lemma GeneratedExactlyTheVaultPasswords(p: string)
    ensures IsVaultPassword(p) <==>
            exists picks: string, choices: seq<nat> ::
              && |picks| == PASSWORD_LENGTH && ValidPicks(picks)
              && |choices| == Rounds(PASSWORD_LENGTH) && ValidChoices(PASSWORD_LENGTH, choices)
              && After(picks, choices) == p
  {
    if IsVaultPassword(p) {
      var picks := UnshuffledPicks(p, 4);
      forall k | 0 <= k < |picks| ensures picks[k] in CharsetAt(k) {
        PermutationKeepsMembers(p, picks, picks[k]);
      }
      EveryPermutationIsReached(picks, p);
    } else {
      forall picks: string, choices: seq<nat> |
        && |picks| == PASSWORD_LENGTH && ValidPicks(picks)
        && |choices| == Rounds(PASSWORD_LENGTH) && ValidChoices(PASSWORD_LENGTH, choices)
        ensures After(picks, choices) != p
      {
        ShuffledPicksKeepThePromise(picks, choices);
      }
    }
  }
}
