/**
  The seeded generator behind the deck shuffle: SplitMix64 lanes feeding the xoshiro256** step. Both are
  run backwards here: two seeds part at the start, except for one pair, and two states never meet later.
 */
module SeededRng {
  const GOLDEN: bv64 := 0x9e37_79b9_7f4a_7c15
  const UINT32_RANGE := 0x1_0000_0000

  // ---- SplitMix64 -------------------------------------------------------------------------------

  function Fold30(z: bv64): bv64 { z ^ (z >> 30) }
  function Fold27(z: bv64): bv64 { z ^ (z >> 27) }
  function Fold31(z: bv64): bv64 { z ^ (z >> 31) }
  function FirstProduct(z: bv64): bv64 { z * 0xbf58_476d_1ce4_e5b9 }
  function SecondProduct(z: bv64): bv64 { z * 0x94d0_49bb_1331_11eb }

  function SplitMix64(value: bv64): bv64 {
    Fold31(SecondProduct(Fold27(FirstProduct(Fold30(value + GOLDEN)))))
  }

  function Unfold30(y: bv64): bv64 { y ^ (y >> 30) ^ (y >> 60) }
  function Unfold27(y: bv64): bv64 { y ^ (y >> 27) ^ (y >> 54) }
  function Unfold31(y: bv64): bv64 { y ^ (y >> 31) ^ (y >> 62) }
  function FirstQuotient(y: bv64): bv64 { y * 0x96de_1b17_3f11_9089 }
  function SecondQuotient(y: bv64): bv64 { y * 0x3196_42b2_d24d_8ec3 }

  /** SplitMix64 run backwards. */
  function Unmix(mixed: bv64): bv64 {
    Unfold30(FirstQuotient(Unfold27(SecondQuotient(Unfold31(mixed))))) - GOLDEN
  }

  lemma Undone30(z: bv64)
    ensures Unfold30(z ^ (z >> 30)) == z
  {
  }

  lemma Undone27(z: bv64)
    ensures Unfold27(z ^ (z >> 27)) == z
  {
  }

  lemma Undone31(z: bv64)
    ensures Unfold31(z ^ (z >> 31)) == z
  {
  }

  lemma ProductsUndone(z: bv64)
    ensures FirstQuotient(z * 0xbf58_476d_1ce4_e5b9) == z
    ensures SecondQuotient(z * 0x94d0_49bb_1331_11eb) == z
  {
  }

  lemma FoldsCancel(z: bv64)
    ensures Unfold30(Fold30(z)) == z && Unfold27(Fold27(z)) == z && Unfold31(Fold31(z)) == z
  {
    hide Unfold30, Unfold27, Unfold31;
    Undone30(z);
    Undone27(z);
    Undone31(z);
  }

  lemma ProductsCancel(z: bv64)
    ensures FirstQuotient(FirstProduct(z)) == z && SecondQuotient(SecondProduct(z)) == z
  {
    hide FirstQuotient, SecondQuotient;
    ProductsUndone(z);
  }

  lemma SumCancels(value: bv64)
    ensures (value + GOLDEN) - GOLDEN == value
  {
  }

  /** SplitMix64 loses nothing: every word can be recovered from what it is mixed to. */
  lemma UnmixInverts(value: bv64)
    ensures Unmix(SplitMix64(value)) == value
  {
    var z := value + GOLDEN;
    SumCancels(value);
    hide Fold30, Fold27, Fold31, FirstProduct, SecondProduct, Unfold30, Unfold27, Unfold31, FirstQuotient, SecondQuotient;
    FoldsCancel(z);
    ProductsCancel(Fold30(z));
    FoldsCancel(FirstProduct(Fold30(z)));
    ProductsCancel(Fold27(FirstProduct(Fold30(z))));
    FoldsCancel(SecondProduct(Fold27(FirstProduct(Fold30(z)))));
  }

  lemma SplitMixInjective(a: bv64, b: bv64)
    ensures SplitMix64(a) == SplitMix64(b) <==> a == b
  {
    hide SplitMix64, Unmix;
    UnmixInverts(a);
    UnmixInverts(b);
  }

  // ---- the generator ---------------------------------------------------------------------------

  datatype State = State(s0: bv64, s1: bv64, s2: bv64, s3: bv64)

  const ZERO := State(0, 0, 0, 0)

  function Xor(a: bv64, b: bv64): bv64 { a ^ b }
  function XorShift17(a: bv64, b: bv64): bv64 { a ^ (b << 17) }
  function Rotl45(x: bv64): bv64 { (x << 45) | (x >> 19) }
  function Rotl7(x: bv64): bv64 { (x << 7) | (x >> 57) }

  /** One xoshiro256** step. The word shifted by 17 is the one from before it. */
  function Next(s: State): State {
    var s2 := Xor(s.s2, s.s0);
    var s3 := Xor(s.s3, s.s1);
    var s1 := Xor(s.s1, s2);
    var s0 := Xor(s.s0, s3);
    State(s0, s1, XorShift17(s2, s.s1), Rotl45(s3))
  }

  function OutputWord(s: State): bv32 {
    ((Rotl7(s.s1 * 5) * 9) >> 32) as bv32
  }

  function Output(s: State): (value: nat)
    ensures value < UINT32_RANGE
  {
    OutputWord(s) as nat
  }

  function Rotl19(x: bv64): bv64 { (x << 19) | (x >> 45) }
  function Unxor(a: bv64, b: bv64): bv64 { a ^ b }
  function Unfold17(y: bv64): bv64 { y ^ (y << 17) ^ (y << 34) ^ (y << 51) }

  /** One step backwards. */
  function Previous(s: State): State {
    var s3 := Rotl19(s.s3);
    var s0 := Unxor(s.s0, s3);
    var s1 := Unfold17(Unxor(s.s1, s.s2));
    var s2 := Unxor(s.s1, s1);
    State(s0, s1, Unxor(s2, s0), Unxor(s3, s1))
  }

  lemma RotationUndone(x: bv64)
    ensures Rotl19((x << 45) | (x >> 19)) == x
  {
  }

  lemma RotationCancels(x: bv64)
    ensures Rotl19(Rotl45(x)) == x
  {
    hide Rotl19;
    RotationUndone(x);
  }

  lemma FirstXorUndone(a: bv64, b: bv64)
    ensures Unxor(a ^ b, b) == a
  {
  }

  lemma SecondXorUndone(a: bv64, b: bv64)
    ensures Unxor(a ^ b, a) == b
  {
  }

  lemma XorCancels(a: bv64, b: bv64)
    ensures Unxor(Xor(a, b), b) == a && Unxor(Xor(a, b), a) == b
  {
    hide Unxor;
    FirstXorUndone(a, b);
    SecondXorUndone(a, b);
  }

  function Fold17(x: bv64): bv64 { x ^ (x << 17) }

  lemma Undone17(x: bv64)
    ensures Unfold17(x ^ (x << 17)) == x
  {
  }

  lemma SharedUndone(x: bv64, y: bv64)
    ensures Unxor(x ^ y, y ^ (x << 17)) == Fold17(x)
  {
  }

  lemma SharedCancels(x: bv64, y: bv64)
    ensures Unxor(Xor(x, y), XorShift17(y, x)) == Fold17(x)
  {
    hide Unxor, Fold17;
    SharedUndone(x, y);
  }

  lemma Fold17Cancels(x: bv64)
    ensures Unfold17(Fold17(x)) == x
  {
    hide Unfold17;
    Undone17(x);
  }

  /** The 256-bit state before a step can be recovered from the state after it. */
  lemma PreviousInverts(s: State)
    ensures Previous(Next(s)) == s
  {
    hide Rotl45, Rotl19, Xor, XorShift17, Unxor, Unfold17, Fold17;
    RotationCancels(Xor(s.s3, s.s1));
    XorCancels(s.s0, Xor(s.s3, s.s1));
    SharedCancels(s.s1, Xor(s.s2, s.s0));
    Fold17Cancels(s.s1);
    XorCancels(s.s1, Xor(s.s2, s.s0));
    XorCancels(s.s2, s.s0);
    XorCancels(s.s3, s.s1);
  }

  lemma NextInjective(a: State, b: State)
    ensures Next(a) == Next(b) <==> a == b
  {
    hide Next, Previous;
    PreviousInverts(a);
    PreviousInverts(b);
  }

  function Steps(s: State, n: nat): State {
    if n == 0 then s else Next(Steps(s, n - 1))
  }

  lemma ZeroIsFixed()
    ensures Next(ZERO) == ZERO
  {
  }

  /** No run from a live state ever reaches the all-zero state, whose output would never change again. */
  lemma {:induction false} NeverZero(s: State, n: nat)
    requires s != ZERO
    ensures Steps(s, n) != ZERO
  {
    hide Next;
    if n > 0 {
      NeverZero(s, n - 1);
      ZeroIsFixed();
      NextInjective(Steps(s, n - 1), ZERO);
    }
  }

  // ---- seeding ------------------------------------------------------------------------------------

  /** Word `index` of the seed, already reduced to 32 bits; missing words are zero. */
  function Word(seed: seq<bv32>, index: nat): bv32 {
    if index < |seed| then seed[index] else 0
  }

  function Join(high: bv32, low: bv32): bv64 { ((high as bv64) << 32) | (low as bv64) }
  function High(lane: bv64): bv32 { (lane >> 32) as bv32 }
  function Low(lane: bv64): bv32 { (lane & 0xffff_ffff) as bv32 }

  lemma HalvesUndone(high: bv32, low: bv32)
    ensures High(((high as bv64) << 32) | (low as bv64)) == high
    ensures Low(((high as bv64) << 32) | (low as bv64)) == low
  {
  }

  lemma HalvesRecovered(high: bv32, low: bv32)
    ensures High(Join(high, low)) == high && Low(Join(high, low)) == low
  {
    hide High, Low;
    HalvesUndone(high, low);
  }

  function Lane(seed: seq<bv32>, index: nat): bv64 {
    Join(Word(seed, 2 * index + 1), Word(seed, 2 * index))
  }

  function Lanes(seed: seq<bv32>): State {
    State(Lane(seed, 0), Lane(seed, 1), Lane(seed, 2), Lane(seed, 3))
  }

  function Mixed(lanes: State): State {
    State(SplitMix64(lanes.s0), SplitMix64(lanes.s1), SplitMix64(lanes.s2), SplitMix64(lanes.s3))
  }

  function Seeded(seed: seq<bv32>): State {
    var mixed := Mixed(Lanes(seed));
    if mixed == ZERO then ZERO.(s0 := GOLDEN) else mixed
  }

  /** Every run of a seeded generator stays clear of the all-zero state. */
  lemma SeededNeverZero(seed: seq<bv32>, n: nat)
    ensures Steps(Seeded(seed), n) != ZERO
  {
    assert Seeded(seed) != ZERO by {
      hide Mixed, Lanes;
    }
    hide *;
    NeverZero(Seeded(seed), n);
  }

  /** The eight words of a seed, missing ones as zero. */
  predicate SameWords(a: seq<bv32>, b: seq<bv32>) {
    forall i :: 0 <= i < 8 ==> Word(a, i) == Word(b, i)
  }

  lemma LaneIsWords(a: seq<bv32>, b: seq<bv32>, index: nat)
    ensures Lane(a, index) == Lane(b, index) <==>
            Word(a, 2 * index) == Word(b, 2 * index) && Word(a, 2 * index + 1) == Word(b, 2 * index + 1)
  {
    hide Word, Join, High, Low;
    HalvesRecovered(Word(a, 2 * index + 1), Word(a, 2 * index));
    HalvesRecovered(Word(b, 2 * index + 1), Word(b, 2 * index));
  }

  lemma LanesAreWords(a: seq<bv32>, b: seq<bv32>)
    ensures Lanes(a) == Lanes(b) <==> SameWords(a, b)
  {
    hide Word, Lane;
    LaneIsWords(a, b, 0);
    LaneIsWords(a, b, 1);
    LaneIsWords(a, b, 2);
    LaneIsWords(a, b, 3);
  }

  lemma MixedInjective(a: State, b: State)
    ensures Mixed(a) == Mixed(b) <==> a == b
  {
    hide SplitMix64;
    SplitMixInjective(a.s0, b.s0);
    SplitMixInjective(a.s1, b.s1);
    SplitMixInjective(a.s2, b.s2);
    SplitMixInjective(a.s3, b.s3);
  }

  /** The word SplitMix64 sends to zero, and the word it sends to its own golden constant. */
  const TO_ZERO: bv64 := 0x61c8_8646_80b5_83eb
  const TO_GOLDEN: bv64 := 0xcd36_da00_563c_5ef6

  /** The seed whose lanes mix to the all-zero state, and the one other seed it is mistaken for. */
  const ZERO_LANES := State(TO_ZERO, TO_ZERO, TO_ZERO, TO_ZERO)
  const GOLDEN_LANES := State(TO_GOLDEN, TO_ZERO, TO_ZERO, TO_ZERO)

  lemma SpecialLanes()
    ensures SplitMix64(TO_ZERO) == 0 && SplitMix64(TO_GOLDEN) == GOLDEN
    ensures Mixed(ZERO_LANES) == ZERO && Mixed(GOLDEN_LANES) == ZERO.(s0 := GOLDEN)
    ensures ZERO_LANES != GOLDEN_LANES && ZERO != ZERO.(s0 := GOLDEN)
  {
  }

  predicate Collides(lanes: State) {
    lanes == ZERO_LANES || lanes == GOLDEN_LANES
  }

  /**
    Two seeds give the same starting state if and only if their eight words are the same, or both are
    among the two seeds that the replacement of the all-zero state makes collide.
   */
  lemma SeedsCollide(a: seq<bv32>, b: seq<bv32>)
    ensures Seeded(a) == Seeded(b) <==> SameWords(a, b) || (Collides(Lanes(a)) && Collides(Lanes(b)))
  {
    var la, lb, zero, golden := Lanes(a), Lanes(b), ZERO_LANES, GOLDEN_LANES;
    SeededIs(a);
    SeededIs(b);
    CollidesIs(la);
    CollidesIs(lb);
    hide *;
    SpecialLanes();
    LanesAreWords(a, b);
    MixedInjective(la, lb);
    MixedInjective(la, zero);
    MixedInjective(lb, zero);
    MixedInjective(la, golden);
    MixedInjective(lb, golden);
  }

  lemma SeededIs(seed: seq<bv32>)
    ensures Seeded(seed) == if Mixed(Lanes(seed)) == ZERO then ZERO.(s0 := GOLDEN) else Mixed(Lanes(seed))
  {
    hide Mixed, Lanes;
  }

  lemma CollidesIs(lanes: State)
    ensures Collides(lanes) <==> lanes == ZERO_LANES || lanes == GOLDEN_LANES
  {
  }

  const ZERO_SEED: seq<bv32> :=
    [0x80b5_83eb, 0x61c8_8646, 0x80b5_83eb, 0x61c8_8646, 0x80b5_83eb, 0x61c8_8646, 0x80b5_83eb, 0x61c8_8646]
  const GOLDEN_SEED: seq<bv32> :=
    [0x563c_5ef6, 0xcd36_da00, 0x80b5_83eb, 0x61c8_8646, 0x80b5_83eb, 0x61c8_8646, 0x80b5_83eb, 0x61c8_8646]

  lemma SpecialWords()
    ensures Join(0x61c8_8646, 0x80b5_83eb) == TO_ZERO && Join(0xcd36_da00, 0x563c_5ef6) == TO_GOLDEN
    ensures (0x80b5_83eb as bv32) != (0x563c_5ef6 as bv32)
  {
  }

  /** The two seeds: they differ, and every deck is shuffled alike under both. */
  lemma TwoSeedsCollide()
    ensures !SameWords(ZERO_SEED, GOLDEN_SEED) && Seeded(ZERO_SEED) == Seeded(GOLDEN_SEED)
  {
    SpecialWords();
    hide Join, Mixed, Seeded;
    assert Word(ZERO_SEED, 0) != Word(GOLDEN_SEED, 0);
    assert Lanes(ZERO_SEED) == ZERO_LANES && Lanes(GOLDEN_SEED) == GOLDEN_LANES;
    SeedsCollide(ZERO_SEED, GOLDEN_SEED);
  }

  // ---- known values --------------------------------------------------------------------------------

  const PLAIN_SEED: seq<bv32> := [1, 2, 3, 4, 5, 6, 7, 8]
  const PLAIN_LANES := State(0x0000_0002_0000_0001, 0x0000_0004_0000_0003, 0x0000_0006_0000_0005, 0x0000_0008_0000_0007)
  const PLAIN_STATES := [
    State(0xc485_8308_e594_9c49, 0x6adb_2215_a1e3_5b7d, 0xc711_b69f_5278_ddaa, 0xf801_ae37_493e_df37),
    State(0x565f_0f2a_0d49_1803, 0x694f_1782_160f_1a9e, 0x47bf_7651_0116_41e3, 0xb089_525b_5184_5d1b),
    State(0x8f99_4af3_4ac2_5f86, 0x78af_6ef9_1a50_437e, 0x3ee4_5565_3963_59e0, 0x68f0_bb38_c8bb_28f1),
    State(0x9fc6_9f32_9829_3409, 0xc9d2_716f_69f1_4518, 0x6c8f_2b36_f55d_0666, 0x6d71_e20b_fab8_3a5d)]

  /** SplitMix64 of the first counter is its published first output. */
  lemma KnownMix()
    ensures SplitMix64(0) == 0xe220_a839_7b1d_cdaf
  {
  }

  /** The seed 1 to 8 puts its first word of each pair in the low half, and its lanes mix to these words. */
  lemma KnownSeed()
    ensures Lanes(PLAIN_SEED) == PLAIN_LANES && Seeded(PLAIN_SEED) == PLAIN_STATES[0]
  {
    assert Lanes(PLAIN_SEED) == PLAIN_LANES;
    KnownLanes();
    hide Lanes, SplitMix64;
  }

  lemma KnownLanes()
    ensures SplitMix64(PLAIN_LANES.s0) == PLAIN_STATES[0].s0 && SplitMix64(PLAIN_LANES.s1) == PLAIN_STATES[0].s1
    ensures SplitMix64(PLAIN_LANES.s2) == PLAIN_STATES[0].s2 && SplitMix64(PLAIN_LANES.s3) == PLAIN_STATES[0].s3
  {
  }

  lemma KnownSteps()
    ensures Next(PLAIN_STATES[0]) == PLAIN_STATES[1] && Next(PLAIN_STATES[1]) == PLAIN_STATES[2]
    ensures Next(PLAIN_STATES[2]) == PLAIN_STATES[3]
  {
  }

  lemma KnownWords()
    ensures Output(PLAIN_STATES[0]) == 1115612858 && Output(PLAIN_STATES[1]) == 1938878192
    ensures Output(PLAIN_STATES[2]) == 1799414992 && Output(PLAIN_STATES[3]) == 4277684943
  {
  }

  /** The first four outputs after the seed 1 to 8. */
  lemma KnownOutputs()
    ensures OutputAt(Seeded(PLAIN_SEED), 0) == 1115612858 && OutputAt(Seeded(PLAIN_SEED), 1) == 1938878192
    ensures OutputAt(Seeded(PLAIN_SEED), 2) == 1799414992 && OutputAt(Seeded(PLAIN_SEED), 3) == 4277684943
  {
    var g, a, b, c, d := Seeded(PLAIN_SEED), PLAIN_STATES[0], PLAIN_STATES[1], PLAIN_STATES[2], PLAIN_STATES[3];
    KnownSeed();
    KnownSteps();
    KnownWords();
    hide Seeded, Next, Output, PLAIN_STATES;
    assert Steps(g, 0) == a;
    assert Steps(g, 1) == b;
    assert Steps(g, 2) == c;
    assert Steps(g, 3) == d;
  }

  // ---- the generator as the program holds it ------------------------------------------------------

  /** Output `n` of a generator, counting from its start. */
  function OutputAt(start: State, n: nat): (value: nat)
    ensures value < UINT32_RANGE
  {
    Output(Steps(start, n))
  }

  class Rng {
    var s0: bv64
    var s1: bv64
    var s2: bv64
    var s3: bv64
    ghost const start: State
    /** How many outputs were taken. */
    ghost var taken: nat

    ghost predicate Valid()
      reads this
    {
      State(s0, s1, s2, s3) == Steps(start, taken)
    }

    constructor (seed: seq<bv32>)
      ensures Valid() && start == Seeded(seed) && taken == 0
    {
      var seeded := Seeded(seed);
      s0, s1, s2, s3 := seeded.s0, seeded.s1, seeded.s2, seeded.s3;
      start, taken := seeded, 0;
    }

    method NextU32() returns (value: nat)
      requires Valid()
      modifies this
      ensures Valid() && taken == old(taken) + 1
      ensures value == OutputAt(start, old(taken))
    {
      ghost var s := State(s0, s1, s2, s3);
      hide Xor, XorShift17, Rotl45, Output;
      value := Output(State(s0, s1, s2, s3));
      var was := s1;
      s2 := Xor(s2, s0);
      s3 := Xor(s3, s1);
      s1 := Xor(s1, s2);
      s0 := Xor(s0, s3);
      s2 := XorShift17(s2, was);
      s3 := Rotl45(s3);
      taken := taken + 1;
      assert State(s0, s1, s2, s3) == Next(s);
    }
  }
}
