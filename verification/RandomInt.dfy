/** Rejection sampling over 32-bit random words, as used for every random choice of the password generator. */
module RandomInt {
  import opened Wrappers

  const WORDS := 0x1_0000_0000
  const HALF := 0x8000_0000

  type Word = w: int | 0 <= w < WORDS

  type Bound = max: int | 1 <= max witness 1

  datatype Error = MaxNotPositive

  /** Words below this multiple of `max` are kept, the others are drawn again. */
  function Limit(max: Bound): int {
    WORDS / max * max
  }

  predicate Kept(w: Word, max: Bound) {
    w < Limit(max)
  }

  /** The random device: the words it will deliver, and how many were already taken. */
  class RandomSource {
    const words: nat -> Word
    var position: nat

    constructor (words: nat -> Word)
      ensures this.words == words && position == 0
    {
      this.words := words;
      position := 0;
    }
  }

  ghost predicate LowWordAfter(words: nat -> Word, from: nat) {
    exists later: nat :: from <= later && words(later) < HALF
  }

  /** The only thing asked of the device: words from the lower half never stop coming. */
  ghost predicate Fair(words: nat -> Word) {
    forall from: nat :: LowWordAfter(words, from)
  }

  /** Word `at` is the first one from `from` on that is kept for `max`. */
  ghost predicate FirstKept(words: nat -> Word, from: nat, max: Bound, at: nat) {
    && from <= at
    && Kept(words(at), max)
    && forall i: nat :: from <= i < at ==> !Kept(words(i), max)
  }

  method SecureRandomInt(source: RandomSource, max: int) returns (r: Result<nat, Error>)
    requires Fair(source.words)
    requires max <= WORDS
    modifies source`position
    ensures r.Err? <==> max <= 0
    ensures r.Err? ==> source.position == old(source.position)
    ensures r.Ok? ==> r.value < max
    ensures r.Ok? ==> source.position > 0
    ensures r.Ok? ==> FirstKept(source.words, old(source.position), max, source.position - 1)
    ensures r.Ok? ==> r.value == source.words(source.position - 1) % max
  {
    if max <= 0 {
      return Err(MaxNotPositive);
    }
    var limit := WORDS / max * max;
    MoreThanHalfIsKept(max);
    assert LowWordAfter(source.words, source.position);
    ghost var low: nat :| source.position <= low && source.words(low) < HALF;

    var value := source.words(source.position);
    source.position := source.position + 1;
    while value >= limit
      invariant source.position > old(source.position)
      invariant value == source.words(source.position - 1)
      invariant forall i: nat :: old(source.position) <= i < source.position - 1 ==> !Kept(source.words(i), max)
      invariant source.position - 1 <= low
      decreases low - source.position
    {
      value := source.words(source.position);
      source.position := source.position + 1;
    }
    r := Ok(value % max);
  }

  lemma ProductGrows(a: int, b: int, m: nat)
    requires a <= b
    ensures a * m <= b * m
  {
  }

  /** For every admissible `max` more than half of all words are kept; this is why `Fair` suffices. */
  lemma MoreThanHalfIsKept(max: Bound)
    requires max <= WORDS
    ensures HALF < Limit(max) <= WORDS
  {
    var q := WORDS / max;
    assert WORDS == q * max + WORDS % max;
    if max > HALF {
      if q != 1 {
        if q >= 2 {
          ProductGrows(2, q, max);
        } else {
          ProductGrows(q, 0, max);
        }
        assert false;
      }
    }
  }

  /** A word can be kept at all exactly when `max` is at most 2^32; beyond that the loop would never end. */
  lemma SomeWordIsKept(max: Bound)
    ensures (exists w: Word :: Kept(w, max)) <==> max <= WORDS
  {
    if max <= WORDS {
      MoreThanHalfIsKept(max);
      var w: Word := 0;
      assert Kept(w, max);
    } else {
      assert WORDS / max == 0;
    }
  }

  /** The words below `blocks * max` whose remainder is `value`. */
  ghost function Hits(max: int, value: int, blocks: nat): set<int>
    requires 0 <= value < max
  {
    set w | 0 <= w < blocks * max && w % max == value
  }

  lemma BlockHit(max: int, value: int, block: nat, w: int)
    requires 0 <= value < max
    requires block * max <= w < (block + 1) * max
    ensures w % max == value <==> w == block * max + value
  {
    var q := w / max;
    assert w == q * max + w % max;
    if q < block {
      ProductGrows(q + 1, block, max);
      assert false;
    } else if q > block {
      ProductGrows(block + 1, q, max);
      assert false;
    }
  }

  lemma {:induction false} HitCount(max: int, value: int, blocks: nat)
    requires 0 <= value < max
    ensures |Hits(max, value, blocks)| == blocks
  {
    if blocks == 0 {
      assert Hits(max, value, 0) == {};
    } else {
      var block := blocks - 1;
      HitCount(max, value, block);
      var fresh' := block * max + value;
      assert blocks * max == block * max + max;
      assert 0 <= block * max by { ProductGrows(0, block, max); }
      forall w | block * max <= w < blocks * max
        ensures w % max == value <==> w == fresh'
      {
        BlockHit(max, value, block, w);
      }
      assert Hits(max, value, blocks) == Hits(max, value, block) + {fresh'};
    }
  }

  /** The random words that make the sampler answer `value`. */
  ghost function WordsFor(max: int, value: int): set<int>
    requires 0 <= value < max
  {
    set w | 0 <= w < WORDS && w < Limit(max) && w % max == value
  }

  /** No bias: every value below `max` is produced by exactly the same number of kept words. */
  lemma SamplingIsUniform(max: int, value: int)
    requires 0 <= value < max <= WORDS
    ensures |WordsFor(max, value)| == WORDS / max
  {
    MoreThanHalfIsKept(max);
    HitCount(max, value, WORDS / max);
    assert WordsFor(max, value) == Hits(max, value, WORDS / max);
  }

  /** The `values` are the successive answers for the bounds `maxes`, and use the words from `from` up to `to`. */
  ghost predicate Drawn(words: nat -> Word, from: nat, to: nat, maxes: seq<Bound>, values: seq<nat>)
    decreases |maxes|
  {
    && |values| == |maxes|
    && if maxes == [] then from == to
       else
         var last := |maxes| - 1;
         && to > 0
         && values[last] == words(to - 1) % maxes[last]
         && exists mid: nat ::
              && Drawn(words, from, mid, maxes[..last], values[..last])
              && FirstKept(words, mid, maxes[last], to - 1)
  }

  lemma DrawnOneMore(words: nat -> Word, from: nat, mid: nat, to: nat, maxes: seq<Bound>, values: seq<nat>, max: Bound, value: nat)
    requires Drawn(words, from, mid, maxes, values)
    requires to > 0 && FirstKept(words, mid, max, to - 1) && value == words(to - 1) % max
    ensures Drawn(words, from, to, maxes + [max], values + [value])
  {
    var maxes', values' := maxes + [max], values + [value];
    assert maxes'[..|maxes|] == maxes && values'[..|maxes|] == values;
  }

  /** The same words cannot lead to two different lists of answers: the draws are a function of the device. */
  lemma {:induction false} DrawnIsDetermined(words: nat -> Word, from: nat, to: nat, to': nat,
                                             maxes: seq<Bound>, values: seq<nat>, values': seq<nat>)
    requires Drawn(words, from, to, maxes, values)
    requires Drawn(words, from, to', maxes, values')
    ensures values == values' && to == to'
    decreases |maxes|
  {
    if maxes == [] {
    } else {
      var last := |maxes| - 1;
      var mid: nat :| Drawn(words, from, mid, maxes[..last], values[..last]) && FirstKept(words, mid, maxes[last], to - 1);
      var mid': nat :| Drawn(words, from, mid', maxes[..last], values'[..last]) && FirstKept(words, mid', maxes[last], to' - 1);
      DrawnIsDetermined(words, from, mid, mid', maxes[..last], values[..last], values'[..last]);
      assert values == values[..last] + [values[last]];
      assert values' == values'[..last] + [values'[last]];
    }
  }
}
