/** Day 22 (day22/src/main.rs): monkey market secrets. Each secret number is
    the seed put through 2000 rounds of mix and prune; part 1 sums them. */
module Day22 {
  import opened Wrappers
  import Parse
  import opened Bitwise

  /** `% 16777216`: the secret keeps its low 24 bits. */
  const MODULUS: nat := 16777216

  const ROUNDS: nat := 2000

  /** `value %= 16777216`. */
  function Prune(v: nat): (r: nat)
    ensures r < MODULUS
    ensures v < MODULUS ==> r == v
  {
    v % MODULUS
  }

  /** One round of `generate_secret`: mix in `value * 64`, prune, mix in
      `value / 32`, prune, mix in `value * 2048`, prune. */
  function Round(v: nat): (r: nat)
    ensures r < MODULUS
  {
    var a := Prune(Xor(v, v * 64));
    var b := Prune(Xor(a, a / 32));
    Prune(Xor(b, b * 2048))
  }

  /** `n` rounds from `v`. */
  function Rounds(v: nat, n: nat): (r: nat)
    ensures n > 0 ==> r < MODULUS
  {
    if n == 0 then v else Round(Rounds(v, n - 1))
  }

  /** `generate_secret(seed)`, as a function of the seed. */
  function Secret(seed: nat): nat
    requires seed <= Parse.U32_MAX
  {
    Rounds(seed, ROUNDS)
  }

  /** `generate_secret`: 2000 rounds on a `u64` starting from the `u32` seed. */
  method GenerateSecret(seed: nat) returns (value: nat)
    requires seed <= Parse.U32_MAX
    ensures value == Secret(seed) && value < MODULUS
  {
    value := seed;
    for i := 0 to ROUNDS
      invariant value == Rounds(seed, i)
      invariant value <= Parse.U32_MAX
    {
      RoundNoOverflow(value);
      value := Xor(value, value * 64);
      value := value % 16777216;
      value := Xor(value, value / 32);
      value := value % 16777216;
      value := Xor(value, value * 2048);
      value := value % 16777216;
    }
  }

  /** No multiplication of a round leaves the `u64` range: the first starts
      from a value at most 2^32 - 1 (a seed or an earlier secret), the second
      from a pruned value below 2^24. */
  lemma RoundNoOverflow(v: nat)
    requires v <= Parse.U32_MAX
    ensures v * 64 <= Parse.U64_MAX
    ensures var a := Prune(Xor(v, v * 64)); var b := Prune(Xor(a, a / 32)); b * 2048 <= Parse.U64_MAX
  {
  }

  /** Seed 0 stays 0: every mix of 0 is 0. */
  lemma {:induction false} RoundsOfZero(n: nat)
    ensures Rounds(0, n) == 0
  {
    if n > 0 {
      RoundsOfZero(n - 1);
      RoundOfZero();
    }
  }

  lemma RoundOfZero()
    ensures Round(0) == 0
  {
    assert Xor(0, 0) == 0;
    assert Prune(0) == 0;
  }

  /** `calculate_p1`: the secrets of all seeds, summed. */
  function CalculateP1(seeds: seq<nat>): (r: nat)
    requires forall i :: 0 <= i < |seeds| ==> seeds[i] <= Parse.U32_MAX
    ensures r <= |seeds| * (MODULUS - 1)
  {
    if seeds == [] then 0
    else CalculateP1(seeds[..|seeds| - 1]) + Secret(seeds[|seeds| - 1])
  }

  /** The total splits over any cut of the seed list. */
  lemma {:induction false} CalculateP1Append(xs: seq<nat>, ys: seq<nat>)
    requires forall i :: 0 <= i < |xs| ==> xs[i] <= Parse.U32_MAX
    requires forall i :: 0 <= i < |ys| ==> ys[i] <= Parse.U32_MAX
    ensures CalculateP1(xs + ys) == CalculateP1(xs) + CalculateP1(ys)
    decreases |ys|
  {
    if ys == [] {
      assert xs + ys == xs;
    } else {
      assert (xs + ys)[..|xs + ys| - 1] == xs + ys[..|ys| - 1];
      CalculateP1Append(xs, ys[..|ys| - 1]);
    }
  }

  /** `parse_input`: one `u32` per line, `InvalidInput` on the first line that is not one. */
  function ParseInput(lines: seq<string>): (r: Option<seq<nat>>)
    ensures r.Some? ==> |r.value| == |lines| && forall i :: 0 <= i < |lines| ==> r.value[i] <= Parse.U32_MAX
    ensures r.Some? <==> forall i :: 0 <= i < |lines| ==> Parse.ParseUnsigned(lines[i], Parse.U32_MAX).Some?
  {
    Parse.ParseUnsignedAll(lines, Parse.U32_MAX)
  }
}
