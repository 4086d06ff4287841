/** Ethash difficulty of pre-merge L1 blocks, in 256-bit arithmetic that wraps. */
module Difficulty {
  import opened Prelude
  import opened Arithmetic

  const MIN_ETHASH_DIFFICULTY: nat := 131_072

  datatype Hardfork =
    | Byzantium | Constantinople | Petersburg | Istanbul | MuirGlacier | Berlin | London
    | ArrowGlacier | GrayGlacier
    | Merge | Shanghai | Cancun | Prague | Osaka | Amsterdam

  datatype Header = Header(difficulty: U256, timestamp: U64, hasOmmers: bool)

  predicate IsPreMerge(hardfork: Hardfork) {
    !(hardfork.Merge? || hardfork.Shanghai? || hardfork.Cancun? || hardfork.Prague? || hardfork.Osaka?
      || hardfork.Amsterdam?)
  }

  function BombDelay(hardfork: Hardfork): nat
    requires IsPreMerge(hardfork)
  {
    match hardfork
    case Byzantium => 3_000_000
    case Constantinople => 5_000_000
    case Petersburg => 5_000_000
    case Istanbul => 5_000_000
    case MuirGlacier => 9_000_000
    case Berlin => 9_000_000
    case London => 9_000_000
    case ArrowGlacier => 10_700_000
    case GrayGlacier => 11_400_000
  }

  // ----- the reference: EIP-100 and section 4.3.4 of the Yellow Paper -----

  function Pow2(n: nat): nat {
    if n == 0 then 1 else 2 * Pow2(n - 1)
  }

  /** floor(2 ^ (floor(H' / 100000) - 2)) with H' = max(number - delay, 0). */
  function Bomb(hardfork: Hardfork, number: nat): nat
    requires IsPreMerge(hardfork)
  {
    var exponent := Max(number - BombDelay(hardfork), 0) / 100_000 - 2;
    if exponent < 0 then 0 else Pow2(exponent)
  }

  /** max(y - floor(elapsed / 9), -99) * floor(parent / 2048) */
  function Adjustment(parent: Header, elapsed: nat): int {
    var y := if parent.hasOmmers then 2 else 1;
    Max(y - elapsed / 9, -99) * (parent.difficulty / 2048)
  }

  /** What the formula asks for before the minimum is applied, unbounded; `elapsed` is the
      time since the parent. */
  function Target(hardfork: Hardfork, parent: Header, number: nat, elapsed: nat): int
    requires IsPreMerge(hardfork)
  {
    parent.difficulty + Adjustment(parent, elapsed) + Bomb(hardfork, number)
  }

  function CanonicalDifficulty(hardfork: Hardfork, parent: Header, number: nat, elapsed: nat, minimum: nat): int
    requires IsPreMerge(hardfork)
  {
    Max(minimum, Target(hardfork, parent, number, elapsed))
  }

  /** The first block at which the bomb adds to the difficulty, by EIPs 649, 1234, 2384, 4345
      and 5133; London keeps the delay of EIP-2384. */
  function BombStart(hardfork: Hardfork): nat
    requires IsPreMerge(hardfork)
  {
    match hardfork
    case Byzantium => 3_200_000
    case Constantinople | Petersburg | Istanbul => 5_200_000
    case MuirGlacier | Berlin | London => 9_200_000
    case ArrowGlacier => 10_900_000
    case GrayGlacier => 11_600_000
  }

  /** The bomb is silent before its start, adds 1 from there and doubles with every further
      hundred thousand blocks. */
  lemma BombDoubles(hardfork: Hardfork, number: nat)
    requires IsPreMerge(hardfork)
    ensures number < BombStart(hardfork) ==> Bomb(hardfork, number) == 0
    ensures BombStart(hardfork) <= number < BombStart(hardfork) + 100_000 ==> Bomb(hardfork, number) == 1
    ensures number >= BombStart(hardfork) ==> Bomb(hardfork, number + 100_000) == 2 * Bomb(hardfork, number)
  {
  }

  /** A block within nine seconds of its parent raises the difficulty by a 2048th of the
      parent's, or two if the parent has uncles; each further nine seconds take one away, down
      to a reduction of 99. */
  lemma AdjustmentSteps(parent: Header, elapsed: nat)
    ensures var step, raise := parent.difficulty / 2048, if parent.hasOmmers then 2 else 1;
            && (elapsed < 9 ==> Adjustment(parent, elapsed) == raise * step)
            && (elapsed < 9 * (raise + 99) ==> Adjustment(parent, elapsed + 9) == Adjustment(parent, elapsed) - step)
            && (elapsed >= 9 * (raise + 99) ==> Adjustment(parent, elapsed) == -99 * step)
  {
    var step, raise := parent.difficulty / 2048, if parent.hasOmmers then 2 else 1;
    if elapsed < 9 * (raise + 99) {
      var factor := raise - elapsed / 9;
      assert (elapsed + 9) / 9 == elapsed / 9 + 1 && factor > -99;
      assert Adjustment(parent, elapsed + 9) == (factor - 1) * step;
      assert Adjustment(parent, elapsed) == factor * step;
    }
  }

  // ----- the code -----

  /** What a 256-bit operation makes of its exact result. */
  function Wrap(x: int): U256 {
    x % U256_MODULUS
  }

  /** The reduction never exceeds the parent's difficulty: no subtraction underflows. */
  lemma ReductionFits(difficulty: nat, steps: nat)
    requires steps <= 99
    ensures 0 <= steps * (difficulty / 2048) <= difficulty
  {
    var offset := difficulty / 2048;
    assert steps * offset <= 99 * offset by {
      assert (99 - steps) * offset >= 0;
    }
  }

  /** The code's `block_timestamp - parent.timestamp`. Where the parent is the later one it
      panics if the build checks for overflow, and wraps at 64 bits if not. */
  function Elapsed(checked: bool, parent: U64, timestamp: U64): Option<U64> {
    if parent <= timestamp then Some(timestamp - parent)
    else if checked then None
    else Some(timestamp + U64_MODULUS - parent)
  }

  /** The part of the code above the bomb. */
  method AdjustDifficulty(parent: Header, elapsed: U64) returns (difficulty: U256)
    ensures difficulty == Wrap(parent.difficulty + Adjustment(parent, elapsed))
  {
    hide Wrap;
    var offset := parent.difficulty / 2048;
    var uncleAddend := if parent.hasOmmers then 2 else 1;
    var a := elapsed / 9;
    if a >= uncleAddend {
      var steps := a - uncleAddend;
      steps := if steps <= 99 then steps else 99;
      ReductionFits(parent.difficulty, steps);
      WrapSmall(steps * offset);
      assert Adjustment(parent, elapsed) == -(steps * offset);
      difficulty := Wrap(parent.difficulty - Wrap(steps * offset));
    } else {
      var steps := uncleAddend - a;
      ReductionFits(parent.difficulty, steps);
      WrapSmall(steps * offset);
      difficulty := Wrap(parent.difficulty + Wrap(steps * offset));
    }
  }

  /** The difficulty the code computes: the reference target cut to 256 bits and then
      raised to the minimum; or a panic, exactly for a timestamp before the parent's in a
      build that checks for overflow. */
  method CalculateEthashCanonicalDifficulty(checked: bool, hardfork: Hardfork, parent: Header, number: U64,
                                            timestamp: U64, minimum: U64)
    returns (r: Option<U256>)
    requires IsPreMerge(hardfork)
    ensures r.None? <==> checked && timestamp < parent.timestamp
    ensures r == EthashDifficulty(checked, hardfork, parent, number, timestamp, minimum)
  {
    hide Adjustment, Wrap, Pow2, BombDelay;
    var elapsed := Elapsed(checked, parent.timestamp, timestamp);
    if elapsed.None? {
      return None;
    }
    var difficulty := AdjustDifficulty(parent, elapsed.value);
    AdjustmentIsBounded(parent, elapsed.value);
    var delay := BombDelay(hardfork);
    if number >= delay && (number - delay) / 100_000 >= 2 {
      var exp := (number - delay) / 100_000 - 2;
      AddOfRemainders(parent.difficulty + Adjustment(parent, elapsed.value), Pow2(exp));
      difficulty := Wrap(difficulty + Wrap(Pow2(exp)));
    }
    return Some(if difficulty >= minimum then difficulty else minimum);
  }

  lemma WrapSmall(x: nat)
    requires x < U256_MODULUS
    ensures Wrap(x) == x
  {
  }

  lemma AddOfRemainders(x: nat, y: nat)
    ensures Wrap(Wrap(x) + Wrap(y)) == Wrap(x + y)
  {
    var m := U256_MODULUS;
    var q, s := x / m, y / m;
    var rest := x % m + y % m;
    assert x + y == rest + (q + s) * m;
    RemainderOfSum(rest, q + s);
  }

  lemma {:induction false} RemainderOfSum(rest: nat, k: nat)
    ensures Wrap(rest + k * U256_MODULUS) == Wrap(rest)
  {
    if k > 0 {
      RemainderOfSum(rest, k - 1);
      var x := rest + (k - 1) * U256_MODULUS;
      assert rest + k * U256_MODULUS == x + U256_MODULUS;
    }
  }

  function Ethash(hardfork: Hardfork, parent: Header, number: nat, elapsed: nat, minimum: U64): U256
    requires IsPreMerge(hardfork)
  {
    Max(minimum, Wrap(Target(hardfork, parent, number, elapsed)))
  }

  function EthashDifficulty(checked: bool, hardfork: Hardfork, parent: Header, number: nat, timestamp: U64,
                            minimum: U64): Option<U256>
    requires IsPreMerge(hardfork)
  {
    match Elapsed(checked, parent.timestamp, timestamp)
    case None => None
    case Some(elapsed) => Some(Ethash(hardfork, parent, number, elapsed, minimum))
  }

  // ----- what the code promises -----

  lemma AdjustmentIsBounded(parent: Header, elapsed: nat)
    ensures 0 <= parent.difficulty + Adjustment(parent, elapsed) <= 2 * parent.difficulty
  {
    var y := if parent.hasOmmers then 2 else 1;
    var steps := Max(y - elapsed / 9, -99);
    ReductionFits(parent.difficulty, if steps < 0 then -steps else steps);
    assert -steps * (parent.difficulty / 2048) == -(steps * (parent.difficulty / 2048));
  }

  lemma AdjustmentIsMonotone(parent: Header, sooner: nat, later: nat)
    requires sooner <= later
    ensures Adjustment(parent, later) <= Adjustment(parent, sooner)
  {
    var y := if parent.hasOmmers then 2 else 1;
    QuotientIsMonotone(sooner, later);
    ScaledIsMonotone(Max(y - later / 9, -99), Max(y - sooner / 9, -99), parent.difficulty / 2048);
  }

  lemma QuotientIsMonotone(x: nat, y: nat)
    requires x <= y
    ensures x / 9 <= y / 9
  {
  }

  /** Past the parent's timestamp, the code returns the canonical difficulty exactly when
      the target fits 256 bits. */
  lemma DifficultyIsCanonicalIff(checked: bool, hardfork: Hardfork, parent: Header, number: U64, timestamp: U64,
                                 minimum: U64)
    requires IsPreMerge(hardfork) && parent.timestamp <= timestamp
    ensures var elapsed := timestamp - parent.timestamp;
            var r := EthashDifficulty(checked, hardfork, parent, number, timestamp, minimum);
            r.Some? &&
            (r.value == CanonicalDifficulty(hardfork, parent, number, elapsed, minimum)
             <==> Target(hardfork, parent, number, elapsed) < U256_MODULUS)
  {
    hide Adjustment, Bomb;
    AdjustmentIsBounded(parent, timestamp - parent.timestamp);
  }

  /** A timestamp before the parent's, such as the zero of a header that was given none: a
      build without overflow checks takes it for one far in the future, so the block gets
      the largest reduction there is. */
  lemma EarlierTimestampReducesMost(hardfork: Hardfork, parent: Header, number: U64, timestamp: U64, minimum: U64)
    requires IsPreMerge(hardfork) && timestamp < parent.timestamp <= U64_MODULUS - 1000
    ensures EthashDifficulty(true, hardfork, parent, number, timestamp, minimum).None?
    ensures EthashDifficulty(false, hardfork, parent, number, timestamp, minimum)
         == Some(Max(minimum, Wrap(parent.difficulty - 99 * (parent.difficulty / 2048) + Bomb(hardfork, number))))
  {
    hide Bomb, Wrap;
    var elapsed := Elapsed(false, parent.timestamp, timestamp).value;
    assert elapsed >= 1000;
    assert elapsed / 9 >= 101;
  }

  lemma {:induction false} Pow2IsMonotone(m: nat, n: nat)
    requires m <= n
    ensures 1 <= Pow2(m) <= Pow2(n)
  {
    if m < n {
      Pow2IsMonotone(m, n - 1);
    } else if m > 0 {
      Pow2IsMonotone(m - 1, m - 1);
    }
  }

  lemma Doubled(x: nat, y: nat)
    ensures 2 * (x * y) == 2 * x * y
  {
  }

  lemma {:induction false} Pow2Adds(m: nat, n: nat)
    ensures Pow2(m + n) == Pow2(m) * Pow2(n)
  {
    if m > 0 {
      Pow2Adds(m - 1, n);
      Doubled(Pow2(m - 1), Pow2(n));
    }
  }

  lemma Pow2Of8()
    ensures Pow2(8) == 256
  {
    assert Pow2(4) == 16;
  }

  lemma Pow2Of256()
    ensures Pow2(256) == U256_MODULUS
  {
    Pow2Of8();
    hide Pow2;
    Pow2Adds(8, 8);
    Pow2Adds(16, 16);
    Pow2Adds(32, 32);
    Pow2Adds(64, 64);
    Pow2Adds(128, 128);
  }

  /** From the period in which the exponent reaches 256 the bomb is silently gone: the
      power wraps to zero, where the formula asks for at least 2 ^ 256. */
  lemma BombWrapsToZero(exp: nat)
    requires exp >= 256
    ensures Wrap(Pow2(exp)) == 0 && Pow2(exp) >= U256_MODULUS
  {
    Pow2Of256();
    Pow2Adds(exp - 256, 256);
    Pow2IsMonotone(256, exp);
    RemainderOfSum(0, Pow2(exp - 256));
  }

  /** So no block at least 25.8 million past the delay has the canonical difficulty. */
  lemma LateBlocksAreNotCanonical(checked: bool, hardfork: Hardfork, parent: Header, number: U64, timestamp: U64,
                                  minimum: U64)
    requires IsPreMerge(hardfork) && parent.timestamp <= timestamp && number >= BombDelay(hardfork) + 25_800_000
    ensures EthashDifficulty(checked, hardfork, parent, number, timestamp, minimum)
         != Some(CanonicalDifficulty(hardfork, parent, number, timestamp - parent.timestamp, minimum))
  {
    hide EthashDifficulty, CanonicalDifficulty, Adjustment, Pow2, BombDelay;
    DifficultyIsCanonicalIff(checked, hardfork, parent, number, timestamp, minimum);
    AdjustmentIsBounded(parent, timestamp - parent.timestamp);
    BombWrapsToZero((number - BombDelay(hardfork)) / 100_000 - 2);
  }

  /** As long as the exponent stays below 255 and the parent's difficulty below 2 ^ 254,
      nothing wraps. */
  lemma OrdinaryBlocksAreCanonical(checked: bool, hardfork: Hardfork, parent: Header, number: U64, timestamp: U64,
                                   minimum: U64)
    requires IsPreMerge(hardfork) && parent.timestamp <= timestamp
    requires number < BombDelay(hardfork) + 25_700_000 && parent.difficulty < Pow2(254)
    ensures EthashDifficulty(checked, hardfork, parent, number, timestamp, minimum)
         == Some(CanonicalDifficulty(hardfork, parent, number, timestamp - parent.timestamp, minimum))
  {
    hide EthashDifficulty, CanonicalDifficulty, Adjustment, Pow2, Bomb, BombDelay;
    DifficultyIsCanonicalIff(checked, hardfork, parent, number, timestamp, minimum);
    BombIsBounded(hardfork, number);
    Pow2Doubles();
    Pow2Of256();
    AdjustmentIsBounded(parent, timestamp - parent.timestamp);
  }

  lemma Pow2Doubles()
    ensures Pow2(255) == 2 * Pow2(254) && Pow2(256) == 2 * Pow2(255)
  {
  }

  lemma BombIsBounded(hardfork: Hardfork, number: nat)
    requires IsPreMerge(hardfork) && number < BombDelay(hardfork) + 25_700_000
    ensures Bomb(hardfork, number) <= Pow2(254)
  {
    hide Pow2, BombDelay;
    var exponent := Max(number - BombDelay(hardfork), 0) / 100_000 - 2;
    Pow2IsMonotone(if exponent < 0 then 0 else exponent, 254);
  }

  // ----- in the course of time -----

  /** What the code adds up before it wraps: the bomb has wrapped already. */
  function Sum(hardfork: Hardfork, parent: Header, number: nat, elapsed: nat): nat
    requires IsPreMerge(hardfork)
  {
    AdjustmentIsBounded(parent, elapsed);
    parent.difficulty + Adjustment(parent, elapsed) + Wrap(Bomb(hardfork, number))
  }

  /** How often that sum wraps. */
  function Wraps(hardfork: Hardfork, parent: Header, number: nat, elapsed: nat): nat
    requires IsPreMerge(hardfork)
  {
    Div(Sum(hardfork, parent, number, elapsed), U256_MODULUS)
  }

  lemma EthashBySum(hardfork: Hardfork, parent: Header, number: nat, elapsed: nat, minimum: U64)
    requires IsPreMerge(hardfork)
    ensures Ethash(hardfork, parent, number, elapsed, minimum)
         == Max(minimum, Mod(Sum(hardfork, parent, number, elapsed), U256_MODULUS))
  {
    AdjustmentIsBounded(parent, elapsed);
    var bomb := Bomb(hardfork, number);
    hide Adjustment, Bomb;
    var sum := Sum(hardfork, parent, number, elapsed);
    assert bomb == bomb / U256_MODULUS * U256_MODULUS + Wrap(bomb);
    RemainderOfSum(sum, bomb / U256_MODULUS);
  }

  lemma AdjustmentsAreClose(parent: Header, sooner: nat, longer: nat)
    requires sooner <= longer
    ensures 0 <= Adjustment(parent, sooner) - Adjustment(parent, longer) < U256_MODULUS - U64_MODULUS
  {
    AdjustmentIsMonotone(parent, sooner, longer);
    var y := if parent.hasOmmers then 2 else 1;
    var offset := parent.difficulty / 2048;
    var a, b := Max(y - sooner / 9, -99), Max(y - longer / 9, -99);
    ScaledIsMonotone(a, 2, offset);
    ScaledIsMonotone(-99, b, offset);
  }

  /** The later block of two is not the harder one, for any two times since the parent, if
      and only if the code's sum wraps as often for both. */
  lemma NonIncreasingInElapsedIff(hardfork: Hardfork, parent: Header, number: nat, sooner: nat, longer: nat,
                                  minimum: U64)
    requires IsPreMerge(hardfork) && sooner <= longer
    ensures Ethash(hardfork, parent, number, longer, minimum) <= Ethash(hardfork, parent, number, sooner, minimum)
       <==> Wraps(hardfork, parent, number, longer) == Wraps(hardfork, parent, number, sooner)
  {
    hide Adjustment, Bomb, Wrap, Ethash, Mod, Div;
    EthashBySum(hardfork, parent, number, sooner, minimum);
    EthashBySum(hardfork, parent, number, longer, minimum);
    AdjustmentsAreClose(parent, sooner, longer);
    RemaindersCompare(Sum(hardfork, parent, number, longer), Sum(hardfork, parent, number, sooner), U256_MODULUS,
                      minimum);
  }

  /** Among the timestamps from the parent's on, and among those before it in a build
      without overflow checks, difficulty does not increase if and only if the sum wraps as
      often for both. */
  lemma NonIncreasingInTimestampIff(checked: bool, hardfork: Hardfork, parent: Header, number: U64, earlier: U64,
                                    later: U64, minimum: U64)
    requires IsPreMerge(hardfork) && earlier <= later
    requires parent.timestamp <= earlier || (!checked && later < parent.timestamp)
    ensures var sooner := Elapsed(checked, parent.timestamp, earlier);
            var longer := Elapsed(checked, parent.timestamp, later);
            && sooner.Some? && longer.Some?
            && (EthashDifficulty(checked, hardfork, parent, number, later, minimum).value
                <= EthashDifficulty(checked, hardfork, parent, number, earlier, minimum).value
                <==> Wraps(hardfork, parent, number, longer.value) == Wraps(hardfork, parent, number, sooner.value))
  {
    hide Ethash, Wraps;
    NonIncreasingInElapsedIff(hardfork, parent, number, Elapsed(checked, parent.timestamp, earlier).value,
                              Elapsed(checked, parent.timestamp, later).value, minimum);
  }

  /** Across the parent's timestamp such a build has it the other way round: the earlier
      block counts as the later one. Difficulty then does not increase if and only if the
      sums wrap differently, are equal, or the later block is on the minimum. */
  lemma NonIncreasingAcrossParentIff(hardfork: Hardfork, parent: Header, number: U64, earlier: U64, later: U64,
                                     minimum: U64)
    requires IsPreMerge(hardfork) && earlier < parent.timestamp <= later
    ensures var longer := Elapsed(false, parent.timestamp, earlier).value;
            var sooner := Elapsed(false, parent.timestamp, later).value;
            EthashDifficulty(false, hardfork, parent, number, later, minimum).value
            <= EthashDifficulty(false, hardfork, parent, number, earlier, minimum).value
            <==> Wraps(hardfork, parent, number, longer) != Wraps(hardfork, parent, number, sooner)
                 || Sum(hardfork, parent, number, longer) == Sum(hardfork, parent, number, sooner)
                 || Mod(Sum(hardfork, parent, number, sooner), U256_MODULUS) <= minimum
  {
    hide Adjustment, Bomb, Wrap, Ethash, Mod, Div;
    var longer := Elapsed(false, parent.timestamp, earlier).value;
    var sooner := Elapsed(false, parent.timestamp, later).value;
    EthashBySum(hardfork, parent, number, sooner, minimum);
    EthashBySum(hardfork, parent, number, longer, minimum);
    AdjustmentsAreClose(parent, sooner, longer);
    RemaindersCompare(Sum(hardfork, parent, number, longer), Sum(hardfork, parent, number, sooner), U256_MODULUS,
                      minimum);
  }

  /** The sum does wrap for one time and not for another: under a parent of the largest
      difficulty, a block nine seconds later is harder than one at the same time. */
  lemma LaterBlockCanBeHarder()
    ensures var parent := Header(U256_MODULUS - 1, 0, false);
            && EthashDifficulty(true, Byzantium, parent, 1, 0, MIN_ETHASH_DIFFICULTY) == Some(U256_MODULUS / 2048 - 2)
            && EthashDifficulty(true, Byzantium, parent, 1, 9, MIN_ETHASH_DIFFICULTY) == Some(U256_MODULUS - 1)
  {
    var parent := Header(U256_MODULUS - 1, 0, false);
    assert Bomb(Byzantium, 1) == 0;
    assert Adjustment(parent, 0) == U256_MODULUS / 2048 - 1;
    assert Adjustment(parent, 9) == 0;
  }

  /** For instance: a block at time 0 is easier than one at the parent's time 2000. */
  lemma EarlierBlockCanBeEasier()
    ensures var parent := Header(2_048_000, 2000, false);
            && EthashDifficulty(false, Byzantium, parent, 1, 0, MIN_ETHASH_DIFFICULTY) == Some(1_949_000)
            && EthashDifficulty(false, Byzantium, parent, 1, 2000, MIN_ETHASH_DIFFICULTY) == Some(2_049_000)
  {
    var parent := Header(2_048_000, 2000, false);
    EarlierTimestampReducesMost(Byzantium, parent, 1, 0, MIN_ETHASH_DIFFICULTY);
    assert Bomb(Byzantium, 1) == 0;
    assert Adjustment(parent, 0) == 1000;
  }

  /** Past the point where the bomb has wrapped to zero, no more than the parent's
      difficulty decides: below 2 ^ 255 the sum never wraps. */
  lemma LateBlocksAreNonIncreasing(hardfork: Hardfork, parent: Header, number: U64, sooner: nat, longer: nat,
                                   minimum: U64)
    requires IsPreMerge(hardfork) && sooner <= longer
    requires number >= BombDelay(hardfork) + 25_800_000 && parent.difficulty < Pow2(255)
    ensures Ethash(hardfork, parent, number, longer, minimum) <= Ethash(hardfork, parent, number, sooner, minimum)
  {
    hide Adjustment, Ethash, Pow2, BombDelay, Wrap;
    BombWrapsToZero((number - BombDelay(hardfork)) / 100_000 - 2);
    Pow2Doubles();
    Pow2Of256();
    AdjustmentIsBounded(parent, sooner);
    AdjustmentIsBounded(parent, longer);
    DivIsUnique(Sum(hardfork, parent, number, sooner), U256_MODULUS, 0);
    DivIsUnique(Sum(hardfork, parent, number, longer), U256_MODULUS, 0);
    NonIncreasingInElapsedIff(hardfork, parent, number, sooner, longer, minimum);
  }

  // ----- along a chain -----

  method DefaultBlockDifficulty(checked: bool, hardfork: Hardfork, parent: Option<Header>, number: U64,
                                timestamp: U64)
    returns (r: Option<U256>)
    ensures r.None? <==> IsPreMerge(hardfork) && parent.Some? && checked && timestamp < parent.value.timestamp
    ensures r == ChainDifficulty(checked, hardfork, parent, number, timestamp)
  {
    if IsPreMerge(hardfork) {
      if parent.Some? {
        r := CalculateEthashCanonicalDifficulty(checked, hardfork, parent.value, number, timestamp,
                                                MIN_ETHASH_DIFFICULTY);
      } else {
        r := Some(1);
      }
    } else {
      r := Some(0);
    }
  }

  function ChainDifficulty(checked: bool, hardfork: Hardfork, parent: Option<Header>, number: nat, timestamp: U64)
    : Option<U256>
  {
    if !IsPreMerge(hardfork) then Some(0)
    else if parent.None? then Some(1)
    else EthashDifficulty(checked, hardfork, parent.value, number, timestamp, MIN_ETHASH_DIFFICULTY)
  }

  /** After the merge the difficulty is zero, and a first block has difficulty one. */
  lemma DefaultDifficultyWithoutParent(checked: bool, hardfork: Hardfork, parent: Option<Header>, number: nat,
                                       timestamp: U64)
    ensures hardfork in {Merge, Shanghai, Cancun, Prague, Osaka, Amsterdam} ==>
              ChainDifficulty(checked, hardfork, parent, number, timestamp) == Some(0)
    ensures hardfork !in {Merge, Shanghai, Cancun, Prague, Osaka, Amsterdam} ==>
              ChainDifficulty(checked, hardfork, None, number, timestamp) == Some(1)
  {
  }

  function ParentOf(headers: seq<Header>, k: nat): Option<Header>
    requires k < |headers|
  {
    if k == 0 then None else Some(headers[k - 1])
  }

  /** Block k of the chain has number k and the default difficulty under some pre-merge
      hardfork, whatever its timestamp. */
  predicate IsChain(checked: bool, headers: seq<Header>, hardforks: seq<Hardfork>) {
    && |headers| == |hardforks|
    && (forall k | 0 <= k < |hardforks| :: IsPreMerge(hardforks[k]))
    && (forall k | 0 <= k < |headers| ::
          Some(headers[k].difficulty)
          == ChainDifficulty(checked, hardforks[k], ParentOf(headers, k), k, headers[k].timestamp))
  }

  /** No uncles up to block k, and every block at least nine seconds after its parent. */
  predicate Unhurried(headers: seq<Header>, k: nat)
    requires k < |headers|
  {
    k == 0 ||
    (Unhurried(headers, k - 1)
     && !headers[k - 1].hasOmmers && headers[k - 1].timestamp + 9 <= headers[k].timestamp)
  }

  /** Past a genesis of difficulty 1, no block falls below the minimum; and as the bomb is
      silent for the first 3.2 million blocks, an unhurried chain rests exactly on it. */
  lemma {:induction false} ChainStaysAboveMinimum(checked: bool, headers: seq<Header>, hardforks: seq<Hardfork>, k: nat)
    requires IsChain(checked, headers, hardforks) && k < |headers|
    ensures k == 0 ==> headers[k].difficulty == 1
    ensures k > 0 ==> headers[k].difficulty >= 131_072
    ensures 0 < k < 3_200_000 && Unhurried(headers, k) ==> headers[k].difficulty == 131_072
  {
    hide Target, Wrap;
    var header := headers[k];
    assert Some(header.difficulty) == ChainDifficulty(checked, hardforks[k], ParentOf(headers, k), k, header.timestamp);
    if k > 0 {
      ChainStaysAboveMinimum(checked, headers, hardforks, k - 1);
      var parent := headers[k - 1];
      if k < 3_200_000 && Unhurried(headers, k) {
        var elapsed := header.timestamp - parent.timestamp;
        QuietTarget(hardforks[k], parent, k, elapsed);
        WrapSmall(Target(hardforks[k], parent, k, elapsed));
      }
    }
  }

  lemma QuietTarget(hardfork: Hardfork, parent: Header, number: nat, elapsed: nat)
    requires IsPreMerge(hardfork) && number < 3_200_000
    requires !parent.hasOmmers && elapsed >= 9
    ensures 0 <= Target(hardfork, parent, number, elapsed) <= parent.difficulty
  {
    assert Bomb(hardfork, number) == 0;
    AdjustmentIsBounded(parent, elapsed);
    ScaledIsMonotone(Max(1 - elapsed / 9, -99), 0, parent.difficulty / 2048);
  }
}
