/** Specification of the SplitMix64 latency sampler: the output mix is a bijection on 64-bit words and
    the counter has full period, so raw outputs never repeat within 2^64 draws. */
module Latency {
  import opened Bits

  // The generator's multipliers and modulus are written out where they are used: arithmetic by a literal is linear.

  const WORD := 0x1_0000_0000_0000_0000
  const STRESS_SCALE := 1_000_000

  predicate IsWord(x: int) { 0 <= x < WORD }

  function NextState(state: nat): nat { (state + 0x9E3779B97F4A7C15) % 0x1_0000_0000_0000_0000 }

  function Scramble1(x: nat): nat { XorShift(x, 30) * 0xBF58476D1CE4E5B9 % 0x1_0000_0000_0000_0000 }

  function Scramble2(x: nat): nat { XorShift(x, 27) * 0x94D049BB133111EB % 0x1_0000_0000_0000_0000 }

  /** The output function of the generator, with each product cut to 64 bits. */
  function Mix(state: nat): nat {
    XorShift(Scramble2(Scramble1(state)), 31) % 0x1_0000_0000_0000_0000
  }

  // ----- the sampler -----

  datatype Mode = Fixed | Empirical | StressTail | OtherMode(name: string)

  datatype Component = NewOrder | CancelRequest | OtherComponent(name: string)

  datatype Config = Config(mode: Mode, fixedNew: int, fixedCancel: int, samples: seq<int>, stressPpm: int)

  datatype ConfigError = UnknownMode | NegativeFixed | NegativeSample | MissingSamples | StressBelowOne

  datatype Validation = Valid | Invalid(error: ConfigError)

  /** The constructor's checks, in their order. */
  function Validate(c: Config): Validation {
    if c.mode.OtherMode? then Invalid(UnknownMode)
    else if c.fixedNew < 0 || c.fixedCancel < 0 then Invalid(NegativeFixed)
    else if exists i :: 0 <= i < |c.samples| && c.samples[i] < 0 then Invalid(NegativeSample)
    else if !c.mode.Fixed? && |c.samples| == 0 then Invalid(MissingSamples)
    else if c.stressPpm < STRESS_SCALE then Invalid(StressBelowOne)
    else Valid
  }

  function MaxSample(samples: seq<int>): (m: int)
    requires |samples| > 0
    ensures m in samples && forall i :: 0 <= i < |samples| ==> samples[i] <= m
  {
    if |samples| == 1 then samples[0]
    else
      var rest := MaxSample(samples[1..]);
      assert samples == [samples[0]] + samples[1..];
      if samples[0] >= rest then samples[0] else rest
  }

  datatype Sample = Sampled(value: int, state: nat) | UnknownComponent

  function Draw(c: Config, state: nat, component: Component): Sample
    requires Validate(c).Valid?
  {
    if component.OtherComponent? then UnknownComponent
    else if c.mode.Fixed? then Sampled(if component.NewOrder? then c.fixedNew else c.fixedCancel, state)
    else if c.mode.StressTail? then Sampled(MaxSample(c.samples) * c.stressPpm / STRESS_SCALE, state)
    else Sampled(c.samples[Mix(NextState(state)) % |c.samples|], NextState(state))
  }

  // ----- the mix is a bijection -----

  function Unscramble1(y: nat): nat { Unshift(y * 0x96DE1B173F119089 % 0x1_0000_0000_0000_0000, 30) }

  function Unscramble2(y: nat): nat { Unshift(y * 0x319642B2D24D8EC3 % 0x1_0000_0000_0000_0000, 27) }

  function Unmix(output: nat): nat { Unscramble1(Unscramble2(Unshift(output, 31))) }

  lemma WordIsPow2()
    ensures Pow2(64) == WORD
  {
    assert Pow2(4) == 16;
    Pow2Add(4, 4);
    Pow2Add(8, 8);
    Pow2Add(16, 16);
    Pow2Add(32, 32);
  }

  lemma {:induction false} Pow2Add(a: nat, b: nat)
    ensures Pow2(a + b) == Pow2(a) * Pow2(b)
  {
    if b > 0 {
      Pow2Add(a, b - 1);
      assert Pow2(a) * (2 * Pow2(b - 1)) == 2 * (Pow2(a) * Pow2(b - 1));
    }
  }

  /** Removing whole words does not change a residue. */
  lemma WordResidue(x: int, q: int)
    requires 0 <= x < 0x1_0000_0000_0000_0000
    ensures (x + q * 0x1_0000_0000_0000_0000) % 0x1_0000_0000_0000_0000 == x
  {
  }

  lemma Mix1Invertible(x: nat)
    requires IsWord(x)
    ensures x * 0xBF58476D1CE4E5B9 % 0x1_0000_0000_0000_0000 * 0x96DE1B173F119089 % 0x1_0000_0000_0000_0000 == x
    ensures x * 0x96DE1B173F119089 % 0x1_0000_0000_0000_0000 * 0xBF58476D1CE4E5B9 % 0x1_0000_0000_0000_0000 == x
  {
    var q := x * 0xBF58476D1CE4E5B9 / 0x1_0000_0000_0000_0000;
    WordResidue(x, x * 8125545580553827436 - q * 0x96DE1B173F119089);
    var r := x * 0x96DE1B173F119089 / 0x1_0000_0000_0000_0000;
    WordResidue(x, x * 8125545580553827436 - r * 0xBF58476D1CE4E5B9);
  }

  lemma Mix2Invertible(x: nat)
    requires IsWord(x)
    ensures x * 0x94D049BB133111EB % 0x1_0000_0000_0000_0000 * 0x319642B2D24D8EC3 % 0x1_0000_0000_0000_0000 == x
    ensures x * 0x319642B2D24D8EC3 % 0x1_0000_0000_0000_0000 * 0x94D049BB133111EB % 0x1_0000_0000_0000_0000 == x
  {
    var q := x * 0x94D049BB133111EB / 0x1_0000_0000_0000_0000;
    WordResidue(x, x * 2077064247507883091 - q * 0x319642B2D24D8EC3);
    var r := x * 0x319642B2D24D8EC3 / 0x1_0000_0000_0000_0000;
    WordResidue(x, x * 2077064247507883091 - r * 0x94D049BB133111EB);
  }

  lemma GoldenInvertible(x: nat)
    requires IsWord(x)
    ensures x * 0x9E3779B97F4A7C15 % 0x1_0000_0000_0000_0000 * 0xF1DE83E19937733D % 0x1_0000_0000_0000_0000 == x
    ensures x * 0xF1DE83E19937733D % 0x1_0000_0000_0000_0000 * 0x9E3779B97F4A7C15 % 0x1_0000_0000_0000_0000 == x
  {
    var q := x * 0x9E3779B97F4A7C15 / 0x1_0000_0000_0000_0000;
    WordResidue(x, x * 10771413168148108919 - q * 0xF1DE83E19937733D);
    var r := x * 0xF1DE83E19937733D / 0x1_0000_0000_0000_0000;
    WordResidue(x, x * 10771413168148108919 - r * 0x9E3779B97F4A7C15);
  }

  lemma WordShift(x: nat, k: nat)
    requires IsWord(x) && 3 * k >= 64
    ensures IsWord(XorShift(x, k)) && IsWord(Unshift(x, k))
    ensures Unshift(XorShift(x, k), k) == x && XorShift(Unshift(x, k), k) == x
  {
    WordIsPow2();
    ShiftBounds(x, 64, k);
    UnshiftShift(x, 64, k);
    ShiftUnshift(x, 64, k);
  }

  lemma Scramble1Bijective(x: nat)
    requires IsWord(x)
    ensures IsWord(Scramble1(x)) && IsWord(Unscramble1(x))
    ensures Unscramble1(Scramble1(x)) == x && Scramble1(Unscramble1(x)) == x
  {
    WordShift(x, 30);
    Mix1Invertible(XorShift(x, 30));
    WordShift(x * 0x96DE1B173F119089 % 0x1_0000_0000_0000_0000, 30);
    Mix1Invertible(x);
  }

  lemma Scramble2Bijective(x: nat)
    requires IsWord(x)
    ensures IsWord(Scramble2(x)) && IsWord(Unscramble2(x))
    ensures Unscramble2(Scramble2(x)) == x && Scramble2(Unscramble2(x)) == x
  {
    WordShift(x, 27);
    Mix2Invertible(XorShift(x, 27));
    WordShift(x * 0x319642B2D24D8EC3 % 0x1_0000_0000_0000_0000, 27);
    Mix2Invertible(x);
  }

  lemma UnmixUndoesMix(x: nat)
    requires IsWord(x)
    ensures IsWord(Mix(x)) && Unmix(Mix(x)) == x
  {
    hide Scramble1, Scramble2, Unscramble1, Unscramble2, XorShift, Unshift;
    Scramble1Bijective(x);
    Scramble2Bijective(Scramble1(x));
    WordShift(Scramble2(Scramble1(x)), 31);
  }

  lemma MixUndoesUnmix(y: nat)
    requires IsWord(y)
    ensures IsWord(Unmix(y)) && Mix(Unmix(y)) == y
  {
    hide Scramble1, Scramble2, Unscramble1, Unscramble2, XorShift, Unshift;
    WordShift(y, 31);
    Scramble2Bijective(Unshift(y, 31));
    Scramble1Bijective(Unscramble2(Unshift(y, 31)));
  }

  /** The output mix is a bijection on 64-bit words, with an explicit inverse on both sides. */
  lemma MixBijective(x: nat)
    requires IsWord(x)
    ensures IsWord(Mix(x)) && IsWord(Unmix(x))
    ensures Unmix(Mix(x)) == x && Mix(Unmix(x)) == x
  {
    UnmixUndoesMix(x);
    MixUndoesUnmix(x);
  }

  // ----- the counter has full period -----

  function StateAfter(seed: nat, n: nat): nat {
    if n == 0 then seed else NextState(StateAfter(seed, n - 1))
  }

  lemma WordAdd(a: int, b: int)
    ensures (a % 0x1_0000_0000_0000_0000 + b) % 0x1_0000_0000_0000_0000 == (a + b) % 0x1_0000_0000_0000_0000
  {
    var q := a / 0x1_0000_0000_0000_0000;
    var c := a % 0x1_0000_0000_0000_0000 + b;
    assert a + b == c + q * 0x1_0000_0000_0000_0000;
    var r := c % 0x1_0000_0000_0000_0000;
    WordResidue(r, c / 0x1_0000_0000_0000_0000 + q);
  }

  /** After n draws the counter is seed + n times the golden increment, modulo 2^64. */
  lemma {:induction false} StateClosedForm(seed: nat, n: nat)
    requires IsWord(seed)
    ensures StateAfter(seed, n) == (seed + n * 0x9E3779B97F4A7C15) % 0x1_0000_0000_0000_0000
  {
    if n == 0 {
      WordResidue(seed, 0);
    } else {
      StateClosedForm(seed, n - 1);
      WordAdd(seed + (n - 1) * 0x9E3779B97F4A7C15, 0x9E3779B97F4A7C15);
      assert seed + (n - 1) * 0x9E3779B97F4A7C15 + 0x9E3779B97F4A7C15 == seed + n * 0x9E3779B97F4A7C15;
    }
  }

  lemma {:induction false} StateCompose(seed: nat, i: nat, j: nat)
    ensures StateAfter(StateAfter(seed, i), j) == StateAfter(seed, i + j)
  {
    if j > 0 { StateCompose(seed, i, j - 1); }
  }

  /** The n-th raw output, counting from one. */
  function Raw(seed: nat, n: nat): nat { Mix(StateAfter(seed, n)) }

  /** Residues that are equal differ by whole words. */
  lemma SameResidue(a: int, b: int)
    ensures a % 0x1_0000_0000_0000_0000 == b % 0x1_0000_0000_0000_0000 ==> (b - a) % 0x1_0000_0000_0000_0000 == 0
  {
    var q := b / 0x1_0000_0000_0000_0000 - a / 0x1_0000_0000_0000_0000;
    WordResidue(0, q);
  }

  lemma CounterDistinct(seed: nat, i: nat, j: nat)
    requires IsWord(seed) && i < j < i + WORD
    ensures StateAfter(seed, i) != StateAfter(seed, j)
  {
    StateClosedForm(seed, i);
    StateClosedForm(seed, j);
    GoldenInvertible(j - i);
    SameResidue(seed + i * 0x9E3779B97F4A7C15, seed + j * 0x9E3779B97F4A7C15);
    assert (j - i) * 0x9E3779B97F4A7C15 == (seed + j * 0x9E3779B97F4A7C15) - (seed + i * 0x9E3779B97F4A7C15);
  }

  /** Any 2^64 consecutive raw outputs are pairwise distinct. */
  lemma RawDistinct(seed: nat, i: nat, j: nat)
    requires IsWord(seed) && i < j < i + WORD
    ensures Raw(seed, i) != Raw(seed, j)
  {
    CounterDistinct(seed, i, j);
    StateClosedForm(seed, i);
    StateClosedForm(seed, j);
    MixBijective(StateAfter(seed, i));
    MixBijective(StateAfter(seed, j));
  }

  /** How many draws take the counter from one value to another. */
  function Distance(seed: nat, target: nat): (n: nat)
    ensures n < WORD
  {
    (target - seed) % 0x1_0000_0000_0000_0000 * 0xF1DE83E19937733D % 0x1_0000_0000_0000_0000
  }

  lemma CounterReaches(seed: nat, target: nat)
    requires IsWord(seed) && IsWord(target)
    ensures StateAfter(seed, Distance(seed, target)) == target
  {
    var d := (target - seed) % 0x1_0000_0000_0000_0000;
    var n := Distance(seed, target);
    GoldenInvertible(d);
    StateClosedForm(seed, n);
    WordAdd(n * 0x9E3779B97F4A7C15, seed);
    WordAdd(target - seed, seed);
    WordResidue(target, 0);
  }

  lemma RawUnique(seed: nat, start: nat, n: nat, m: nat)
    requires IsWord(seed) && start <= n < start + WORD && start <= m < start + WORD
    ensures Raw(seed, n) == Raw(seed, m) ==> n == m
  {
    hide Mix;
    if m < n { RawDistinct(seed, m, n); }
    if n < m { RawDistinct(seed, n, m); }
  }

  lemma RawReaches(seed: nat, start: nat, output: nat) returns (n: nat)
    requires IsWord(seed) && IsWord(output)
    ensures start <= n < start + WORD && Raw(seed, n) == output
  {
    hide Mix, Unmix, Distance;
    var base := StateAfter(seed, start);
    StateClosedForm(seed, start);
    MixBijective(output);
    CounterReaches(base, Unmix(output));
    n := start + Distance(base, Unmix(output));
    StateCompose(seed, start, Distance(base, Unmix(output)));
  }

  /** Full period: every 64-bit word comes up exactly once in any window of 2^64 consecutive outputs. */
  lemma FullPeriod(seed: nat, start: nat, output: nat) returns (n: nat)
    requires IsWord(seed) && IsWord(output)
    ensures start <= n < start + WORD && Raw(seed, n) == output
    ensures forall m: nat :: start <= m < start + WORD && Raw(seed, m) == output ==> m == n
  {
    hide Mix;
    n := RawReaches(seed, start, output);
    forall m: nat | start <= m < start + WORD && Raw(seed, m) == output ensures m == n { RawUnique(seed, start, n, m); }
  }

  // ----- streams of draws -----

  /** Each draw with the counter it leaves, and the counter at the end. */
  datatype Stream = Stream(rows: seq<(int, nat)>, state: nat) | BadComponent

  function Draws(c: Config, state: nat, components: seq<Component>): Stream
    requires Validate(c).Valid?
    decreases |components|
  {
    if |components| == 0 then Stream([], state) else
      match Draw(c, state, components[0])
      case UnknownComponent => BadComponent
      case Sampled(value, state') =>
        match Draws(c, state', components[1..])
        case BadComponent => BadComponent
        case Stream(rows, end) => Stream([(value, state')] + rows, end)
  }

  /** Saving the counter after some draws and restoring it later continues the exact stream. */
  lemma {:induction false} RestoreContinues(c: Config, state: nat, first: seq<Component>, second: seq<Component>)
    requires Validate(c).Valid? && Draws(c, state, first).Stream?
    ensures var saved := Draws(c, state, first);
      Draws(c, state, first + second) ==
        match Draws(c, saved.state, second)
        case BadComponent => BadComponent
        case Stream(rows, end) => Stream(saved.rows + rows, end)
    decreases |first|
  {
    hide Mix, Draw;
    if |first| == 0 {
      assert first + second == second;
      var saved := Draws(c, state, first);
      match Draws(c, saved.state, second) {
        case BadComponent =>
        case Stream(rows, end) => assert saved.rows + rows == rows;
      }
    } else {
      assert (first + second)[1..] == first[1..] + second;
      var d := Draw(c, state, first[0]);
      RestoreContinues(c, d.state, first[1..], second);
      var rest := Draws(c, d.state, first[1..]);
      match Draws(c, rest.state, second) {
        case BadComponent =>
        case Stream(rows, end) =>
          var first := [(d.value, d.state)];
          assert first + (rest.rows + rows) == (first + rest.rows) + rows;
      }
    }
  }

  /** The k-th draw of an empirical stream indexes the samples by the k-th raw output and leaves the counter
      k golden steps on; in the other modes the counter stays. */
  lemma {:induction false} StreamOfRaws(c: Config, seed: nat, components: seq<Component>)
    requires Validate(c).Valid? && Draws(c, seed, components).Stream?
    ensures var s := Draws(c, seed, components);
      && |s.rows| == |components|
      && s.state == CounterAfter(c, seed, |components|)
      && forall k :: 0 <= k < |components| ==> IsDraw(c, seed, k, components[k], s.rows[k])
    decreases |components|
  {
    hide Mix, IsStressed;
    if |components| > 0 {
      var d := Draw(c, seed, components[0]);
      StreamOfRaws(c, d.state, components[1..]);
      var rest := Draws(c, d.state, components[1..]);
      FirstDraw(c, seed, components[0]);
      hide Draw, IsDraw, StateAfter;
      CounterShift(c, seed, d.state, |components| - 1);
      forall k | 0 <= k < |components|
        ensures IsDraw(c, seed, k, components[k], ([(d.value, d.state)] + rest.rows)[k])
      {
        if k > 0 {
          CounterShift(c, seed, d.state, k);
          DrawShift(c, seed, d.state, k - 1, components[k], rest.rows[k - 1]);
        }
      }
    }
  }

  function CounterAfter(c: Config, seed: nat, n: nat): nat { if c.mode.Empirical? then StateAfter(seed, n) else seed }

  /** What the k-th row of a trace must be, counting from zero. */
  ghost predicate IsDraw(c: Config, seed: nat, k: nat, component: Component, row: (int, nat))
    requires Validate(c).Valid?
  {
    && row.1 == CounterAfter(c, seed, k + 1)
    && match c.mode {
      case Empirical => row.0 == c.samples[Raw(seed, k + 1) % |c.samples|]
      case StressTail => IsStressed(c, row.0)
      case _ => row.0 == if component.NewOrder? then c.fixedNew else c.fixedCancel
    }
  }

  lemma FirstDraw(c: Config, seed: nat, component: Component)
    requires Validate(c).Valid? && Draw(c, seed, component).Sampled?
    ensures var d := Draw(c, seed, component);
      d.state == CounterAfter(c, seed, 1) && IsDraw(c, seed, 0, component, (d.value, d.state))
  {
    hide Mix;
    assert StateAfter(seed, 1) == NextState(StateAfter(seed, 0));
    if c.mode.StressTail? { StressAtLeastMax(c); }
  }

  lemma CounterShift(c: Config, seed: nat, next: nat, n: nat)
    requires next == CounterAfter(c, seed, 1)
    ensures CounterAfter(c, next, n) == CounterAfter(c, seed, n + 1)
  {
    StateCompose(seed, 1, n);
  }

  lemma DrawShift(c: Config, seed: nat, next: nat, k: nat, component: Component, row: (int, nat))
    requires Validate(c).Valid? && next == CounterAfter(c, seed, 1)
    requires IsDraw(c, next, k, component, row)
    ensures IsDraw(c, seed, k + 1, component, row)
  {
    hide Mix;
    CounterShift(c, seed, next, k + 1);
  }

  /** The scaled maximum, rounded down: never below any sample, less than one microsecond below the
      exact product of the largest sample and the multiplier. */
  ghost predicate IsStressed(c: Config, value: int) {
    exists m :: m in c.samples && (forall i :: 0 <= i < |c.samples| ==> c.samples[i] <= m <= value)
      && value * 1_000_000 <= m * c.stressPpm < value * 1_000_000 + 1_000_000
  }

  lemma StressAtLeastMax(c: Config)
    requires Validate(c).Valid? && c.mode.StressTail?
    ensures IsStressed(c, MaxSample(c.samples) * c.stressPpm / STRESS_SCALE)
  {
    var m := MaxSample(c.samples);
    assert m >= 0;
    assert m * (c.stressPpm - STRESS_SCALE) >= 0;
    assert m * c.stressPpm >= m * STRESS_SCALE;
  }

  // ----- what is checked, and the stages of one raw output -----

  /** A configuration is valid exactly when its mode is known, no latency is negative, samples are there where
      they are needed and the multiplier is at least a million; otherwise the first failed check is named. */
  lemma ValidateMeaning(c: Config)
    ensures var known := !c.mode.OtherMode?;
      var fixedFine := c.fixedNew >= 0 && c.fixedCancel >= 0;
      var samplesFine := forall i :: 0 <= i < |c.samples| ==> c.samples[i] >= 0;
      var enough := c.mode.Fixed? || |c.samples| > 0;
      && (Validate(c) == Valid <==> known && fixedFine && samplesFine && enough && c.stressPpm >= 1_000_000)
      && (Validate(c) == Invalid(UnknownMode) <==> !known)
      && (Validate(c) == Invalid(NegativeFixed) <==> known && !fixedFine)
      && (Validate(c) == Invalid(NegativeSample) <==> known && fixedFine && !samplesFine)
      && (Validate(c) == Invalid(MissingSamples) <==> known && fixedFine && samplesFine && !enough)
      && (Validate(c) == Invalid(StressBelowOne) <==>
        known && fixedFine && samplesFine && enough && c.stressPpm < 1_000_000)
  {
  }

  /** An unknown component is refused in every mode, and no other is. */
  lemma DrawRefusal(c: Config, state: nat, component: Component)
    requires Validate(c).Valid?
    ensures Draw(c, state, component) == UnknownComponent <==> component != NewOrder && component != CancelRequest
  {
  }

  lemma Shifts(x: nat)
    ensures Shr(x, 30) == x / 1_073_741_824 && Shr(x, 27) == x / 134_217_728 && Shr(x, 31) == x / 2_147_483_648
  {
    assert Pow2(3) == 8 && Pow2(4) == 16;
    Pow2Add(4, 4);
    Pow2Add(8, 8);
    Pow2Add(16, 8);
    Pow2Add(24, 3);
    Pow2Add(27, 3);
    Pow2Add(27, 4);
  }

  /** The stages of one raw output, with the constants of SplitMix64 written out: three xor-shifts by 30, 27 and
      31 places, with a multiplication modulo 2^64 after each of the first two. */
  lemma MixStages(x: nat)
    requires IsWord(x)
    ensures var a := Xor(x, x / 1_073_741_824);
      var b := a * 0xBF58476D1CE4E5B9 % 0x1_0000_0000_0000_0000;
      var c := Xor(b, b / 134_217_728);
      var d := c * 0x94D049BB133111EB % 0x1_0000_0000_0000_0000;
      Mix(x) == Xor(d, d / 2_147_483_648)
  {
    hide Xor, Shr;
    var b := Scramble1(x);
    var d := Scramble2(b);
    Shifts(x);
    Shifts(b);
    Shifts(d);
    WordShift(d, 31);
    WordResidue(XorShift(d, 31), 0);
  }
}
