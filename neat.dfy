/** The evolutionary trainer for the lander: the parameters of the fixed
    two-layer control network, crossover and mutation of those parameters,
    fitness evaluation against the environment, elite selection and the
    generational loop. Random draws arrive as inputs (functions of a draw
    index), and the network's forward pass followed by the arg-max of its
    output arrives as a `policy` from observations to actions. */
module Neat {
  import opened MoonLander

  // Fixed by the training loop.
  const HiddenSize: nat := 10
  const MaxSteps: nat := 1000
  const Episodes: nat := 3
  const MutationRate: real := 0.1

  /** The fitness of a controller that never fires on the 600 x 400 field. */
  const IdleScore: real := -188.0

  /** A dense matrix as a sequence of rows. */
  type Matrix = seq<seq<real>>

  predicate Shaped(m: Matrix, rows: nat, cols: nat) {
    |m| == rows && forall i :: 0 <= i < rows ==> |m[i]| == cols
  }

  predicate SameShape(a: Matrix, b: Matrix) {
    |a| == |b| && forall i :: 0 <= i < |a| ==> |a[i]| == |b[i]|
  }

  /** The four parameter tensors of a network: input-to-hidden weights and
      bias row, hidden-to-output weights and bias row. */
  datatype Params = Params(w1: Matrix, b1: Matrix, w2: Matrix, b2: Matrix)

  predicate Conforms(p: Params, inputSize: nat, hiddenSize: nat, outputSize: nat) {
    && Shaped(p.w1, inputSize, hiddenSize)
    && Shaped(p.b1, 1, hiddenSize)
    && Shaped(p.w2, hiddenSize, outputSize)
    && Shaped(p.b2, 1, outputSize)
  }

  /** The shape of every network the trainer builds for the lander. */
  predicate Genome(p: Params) {
    Conforms(p, ObservationSize, HiddenSize, ActionCount)
  }

  predicate Compatible(p: Params, q: Params) {
    SameShape(p.w1, q.w1) && SameShape(p.b1, q.b1) && SameShape(p.w2, q.w2) && SameShape(p.b2, q.b2)
  }

  // ---------------------------------------------------------------- crossover

  /** Element-wise mean of two matrices of the same shape. */
  function Mean(a: Matrix, b: Matrix): (r: Matrix)
    requires SameShape(a, b)
    ensures SameShape(r, a)
    ensures forall i, j :: 0 <= i < |a| && 0 <= j < |a[i]| ==>
              (a[i][j] <= b[i][j] ==> a[i][j] <= r[i][j] <= b[i][j]) &&
              (b[i][j] <= a[i][j] ==> b[i][j] <= r[i][j] <= a[i][j]) &&
              r[i][j] - a[i][j] == b[i][j] - r[i][j]
  {
    seq(|a|, i requires 0 <= i < |a| =>
      seq(|a[i]|, j requires 0 <= j < |a[i]| => (a[i][j] + b[i][j]) / 2.0))
  }

  /** The child of two parents: every parameter is the mean of the parents'. */
  function Crossover(parent1: Params, parent2: Params): (child: Params)
    requires Compatible(parent1, parent2)
    ensures Compatible(child, parent1) && Compatible(child, parent2)
  {
    Params(Mean(parent1.w1, parent2.w1), Mean(parent1.b1, parent2.b1),
           Mean(parent1.w2, parent2.w2), Mean(parent1.b2, parent2.b2))
  }

  lemma MeanOfSelf(a: Matrix)
    ensures Mean(a, a) == a
  {
    var r := Mean(a, a);
    forall i | 0 <= i < |a|
      ensures r[i] == a[i]
    {
      assert |r[i]| == |a[i]|;
    }
  }

  lemma MeanCommutes(a: Matrix, b: Matrix)
    requires SameShape(a, b)
    ensures Mean(a, b) == Mean(b, a)
  {
    var r, q := Mean(a, b), Mean(b, a);
    forall i | 0 <= i < |a|
      ensures r[i] == q[i]
    {
      assert |r[i]| == |q[i]|;
    }
  }

  /** Crossing a network with itself gives it back. */
  lemma CrossoverOfSelf(p: Params)
    ensures Crossover(p, p) == p
  {
    MeanOfSelf(p.w1);
    MeanOfSelf(p.b1);
    MeanOfSelf(p.w2);
    MeanOfSelf(p.b2);
  }

  /** The order of the parents does not matter. */
  lemma CrossoverCommutes(p: Params, q: Params)
    requires Compatible(p, q)
    ensures Crossover(p, q) == Crossover(q, p)
  {
    MeanCommutes(p.w1, q.w1);
    MeanCommutes(p.b1, q.b1);
    MeanCommutes(p.w2, q.w2);
    MeanCommutes(p.b2, q.b2);
  }

  lemma CompatibleGenomes(p: Params, q: Params)
    requires Genome(p) && Genome(q)
    ensures Compatible(p, q)
  {
  }

  lemma GenomeOfCompatible(p: Params, q: Params)
    requires Genome(q) && Compatible(p, q)
    ensures Genome(p)
  {
  }

  // ----------------------------------------------------------------- mutation

  /** The draws for one matrix, indexed by entry: a uniform draw in [0, 1) that
      decides whether the entry mutates, and a normal draw (already scaled by
      the mutation strength) that is added when it does. */
  datatype MatrixDraws = MatrixDraws(uniform: (nat, nat) -> real, normal: (nat, nat) -> real)

  datatype MutationDraws = MutationDraws(w1: MatrixDraws, b1: MatrixDraws, w2: MatrixDraws, b2: MatrixDraws)

  ghost predicate UniformDraws(d: MatrixDraws) {
    forall i: nat, j: nat :: 0.0 <= d.uniform(i, j) < 1.0
  }

  ghost predicate UniformMutation(d: MutationDraws) {
    UniformDraws(d.w1) && UniformDraws(d.b1) && UniformDraws(d.w2) && UniformDraws(d.b2)
  }

  function MutatedEntry(v: real, rate: real, d: MatrixDraws, i: nat, j: nat): real {
    if d.uniform(i, j) < rate then v + d.normal(i, j) else v
  }

  /** A matrix after mutation: the same shape; an entry whose uniform draw is
      below the rate moves by its normal draw, every other entry is kept. */
  function Mutated(m: Matrix, rate: real, d: MatrixDraws): (r: Matrix)
    ensures SameShape(r, m)
    ensures forall i, j :: 0 <= i < |m| && 0 <= j < |m[i]| ==>
              (d.uniform(i, j) < rate ==> r[i][j] == m[i][j] + d.normal(i, j)) &&
              (d.uniform(i, j) >= rate ==> r[i][j] == m[i][j])
  {
    seq(|m|, i requires 0 <= i < |m| =>
      seq(|m[i]|, j requires 0 <= j < |m[i]| => MutatedEntry(m[i][j], rate, d, i, j)))
  }

  function MutatedParams(p: Params, rate: real, d: MutationDraws): (r: Params)
    ensures Compatible(r, p)
  {
    Params(Mutated(p.w1, rate, d.w1), Mutated(p.b1, rate, d.b1),
           Mutated(p.w2, rate, d.w2), Mutated(p.b2, rate, d.b2))
  }

  lemma MutatedAtZeroRate(m: Matrix, rate: real, d: MatrixDraws)
    requires UniformDraws(d) && rate <= 0.0
    ensures Mutated(m, rate, d) == m
  {
    var r := Mutated(m, rate, d);
    forall i | 0 <= i < |m|
      ensures r[i] == m[i]
    {
      assert |r[i]| == |m[i]|;
    }
  }

  /** With a rate of zero (or below) no uniform draw is below it, so mutation
      leaves a network unchanged. */
  lemma MutationAtZeroRate(p: Params, rate: real, d: MutationDraws)
    requires UniformMutation(d) && rate <= 0.0
    ensures MutatedParams(p, rate, d) == p
  {
    MutatedAtZeroRate(p.w1, rate, d.w1);
    MutatedAtZeroRate(p.b1, rate, d.b1);
    MutatedAtZeroRate(p.w2, rate, d.w2);
    MutatedAtZeroRate(p.b2, rate, d.b2);
  }

  /** With a rate of one (or above) every uniform draw is below it, so every
      entry moves, and it moves off its old value when its normal draw is not 0. */
  lemma MutationAtFullRate(m: Matrix, rate: real, d: MatrixDraws, i: nat, j: nat)
    requires UniformDraws(d) && rate >= 1.0
    requires i < |m| && j < |m[i]| && d.normal(i, j) != 0.0
    ensures Mutated(m, rate, d)[i][j] != m[i][j]
  {
    assert d.uniform(i, j) < 1.0;
  }

  /** The network object, whose parameter tensors are replaced in place by
      `SetParams` and `Mutate`. */
  class NeatNet {
    var inputSize: nat
    var hiddenSize: nat
    var outputSize: nat
    var w1: Matrix
    var b1: Matrix
    var w2: Matrix
    var b2: Matrix

    function GetParams(): (p: Params)
      reads this
      ensures p.w1 == w1 && p.b1 == b1 && p.w2 == w2 && p.b2 == b2
    {
      Params(w1, b1, w2, b2)
    }

    ghost predicate Valid()
      reads this
    {
      Conforms(GetParams(), inputSize, hiddenSize, outputSize)
    }

    /** `init` stands for the uniform [0, 1) fill of the four tensors. */
    constructor (inputSize: nat, hiddenSize: nat, outputSize: nat, init: Params)
      requires Conforms(init, inputSize, hiddenSize, outputSize)
      ensures this.inputSize == inputSize && this.hiddenSize == hiddenSize && this.outputSize == outputSize
      ensures GetParams() == init && Valid()
    {
      this.inputSize := inputSize;
      this.hiddenSize := hiddenSize;
      this.outputSize := outputSize;
      w1 := init.w1;
      b1 := init.b1;
      w2 := init.w2;
      b2 := init.b2;
    }

    method SetParams(w1New: Matrix, b1New: Matrix, w2New: Matrix, b2New: Matrix)
      modifies this
      ensures GetParams() == Params(w1New, b1New, w2New, b2New)
      ensures inputSize == old(inputSize) && hiddenSize == old(hiddenSize) && outputSize == old(outputSize)
    {
      w1 := w1New;
      b1 := b1New;
      w2 := w2New;
      b2 := b2New;
    }

    /** A fresh network with the same sizes and parameters; the fill drawn by
        its construction is overwritten at once, so zeros stand for it. */
    method Copy() returns (net: NeatNet)
      ensures fresh(net)
      ensures net.GetParams() == GetParams()
      ensures net.inputSize == inputSize && net.hiddenSize == hiddenSize && net.outputSize == outputSize
      ensures Valid() ==> net.Valid()
    {
      net := new NeatNet(inputSize, hiddenSize, outputSize, Zeros(inputSize, hiddenSize, outputSize));
      net.SetParams(w1, b1, w2, b2);
    }

    /** Mutates every entry of `arr` independently, as `Mutated` describes. */
    static method MutateArray(arr: Matrix, rate: real, d: MatrixDraws) returns (mutated: Matrix)
      ensures mutated == Mutated(arr, rate, d)
    {
      mutated := arr;
      var i := 0;
      while i < |arr|
        invariant 0 <= i <= |arr|
        invariant SameShape(mutated, arr)
        invariant forall k :: 0 <= k < i ==> mutated[k] == Mutated(arr, rate, d)[k]
        invariant forall k :: i <= k < |arr| ==> mutated[k] == arr[k]
      {
        var j := 0;
        while j < |arr[i]|
          invariant 0 <= j <= |arr[i]|
          invariant SameShape(mutated, arr)
          invariant forall k :: 0 <= k < i ==> mutated[k] == Mutated(arr, rate, d)[k]
          invariant forall k :: i < k < |arr| ==> mutated[k] == arr[k]
          invariant forall l :: 0 <= l < j ==> mutated[i][l] == MutatedEntry(arr[i][l], rate, d, i, l)
          invariant forall l :: j <= l < |arr[i]| ==> mutated[i][l] == arr[i][l]
        {
          if d.uniform(i, j) < rate {
            mutated := mutated[i := mutated[i][j := mutated[i][j] + d.normal(i, j)]];
          }
          j := j + 1;
        }
        assert mutated[i] == Mutated(arr, rate, d)[i];
        i := i + 1;
      }
    }

    method Mutate(rate: real, draws: MutationDraws)
      modifies this
      ensures GetParams() == MutatedParams(old(GetParams()), rate, draws)
      ensures inputSize == old(inputSize) && hiddenSize == old(hiddenSize) && outputSize == old(outputSize)
      ensures old(Valid()) ==> Valid()
    {
      w1 := MutateArray(w1, rate, draws.w1);
      b1 := MutateArray(b1, rate, draws.b1);
      w2 := MutateArray(w2, rate, draws.w2);
      b2 := MutateArray(b2, rate, draws.b2);
    }
  }

  function ZeroMatrix(rows: nat, cols: nat): (m: Matrix)
    ensures Shaped(m, rows, cols)
  {
    seq(rows, i => seq(cols, j => 0.0))
  }

  function Zeros(inputSize: nat, hiddenSize: nat, outputSize: nat): (p: Params)
    ensures Conforms(p, inputSize, hiddenSize, outputSize)
  {
    Params(ZeroMatrix(inputSize, hiddenSize), ZeroMatrix(1, hiddenSize),
           ZeroMatrix(hiddenSize, outputSize), ZeroMatrix(1, outputSize))
  }

  // --------------------------------------------------------------- evaluation

  /** A controller: the network's forward pass on an observation followed by
      the index of its largest output. */
  type Policy = seq<real> -> int

  /** Pad draws for a batch of episodes, each inside the field's margins. */
  predicate PadDraws(width: int, draws: seq<int>) {
    forall k :: 0 <= k < |draws| ==> ValidPadDraw(width, draws[k])
  }

  /** Total reward of one episode run from `s` with at most `budget` steps
      left: it stops after the first step that reports the episode done. */
  function EpisodeReturn(s: Lander, policy: Policy, trig: Trig, width: int, height: int, budget: nat): (ret: real)
    requires ValidConfig(width, height)
    ensures budget == 0 ==> ret == 0.0
    decreases budget
  {
    if budget == 0 then 0.0
    else
      var r := Transition(s, policy(Observe(s, width, height)), trig, width, height);
      r.reward + if r.done then 0.0 else EpisodeReturn(r.next, policy, trig, width, height, budget - 1)
  }

  /** Sum of the episode returns over a batch, each episode starting from a
      reset with its own pad draw and allowed 1000 steps. */
  function TotalReturn(width: int, height: int, policy: Policy, trig: Trig, draws: seq<int>): (total: real)
    requires ValidConfig(width, height) && PadDraws(width, draws)
    ensures draws == [] ==> total == 0.0
  {
    if draws == [] then 0.0
    else
      var last := |draws| - 1;
      TotalReturn(width, height, policy, trig, draws[..last]) +
      EpisodeReturn(Start(width, height, draws[last]), policy, trig, width, height, MaxSteps)
  }

  lemma TotalReturnStep(width: int, height: int, policy: Policy, trig: Trig, draws: seq<int>, i: nat)
    requires ValidConfig(width, height) && PadDraws(width, draws) && i < |draws|
    ensures TotalReturn(width, height, policy, trig, draws[..i + 1]) ==
            TotalReturn(width, height, policy, trig, draws[..i]) +
            EpisodeReturn(Start(width, height, draws[i]), policy, trig, width, height, MaxSteps)
  {
    assert draws[..i + 1][..i] == draws[..i];
  }

  /** The fitness of a controller: its mean episode return over the batch. */
  function Fitness(width: int, height: int, policy: Policy, trig: Trig, draws: seq<int>): (f: real)
    requires ValidConfig(width, height) && PadDraws(width, draws) && |draws| > 0
    ensures f == TotalReturn(width, height, policy, trig, draws) / |draws| as real
  {
    MeanOf(TotalReturn(width, height, policy, trig, draws), |draws|)
  }

  function MeanOf(total: real, count: nat): (mean: real)
    requires count > 0
    ensures mean * count as real == total
  {
    total / count as real
  }

  /** One episode earns at least -1 per step plus one crash, and at most one
      landing: -budget - 99 <= return <= 1000. */
  lemma {:induction false} EpisodeReturnBounds(s: Lander, policy: Policy, trig: Trig, width: int, height: int, budget: nat)
    requires ValidConfig(width, height)
    ensures -(budget as real) + CrashReward + 1.0 <= EpisodeReturn(s, policy, trig, width, height, budget) <= LandReward
    decreases budget
  {
    if budget > 0 {
      var r := Transition(s, policy(Observe(s, width, height)), trig, width, height);
      TransitionReward(s, policy(Observe(s, width, height)), trig, width, height);
      if !r.done {
        EpisodeReturnBounds(r.next, policy, trig, width, height, budget - 1);
      }
    }
  }

  lemma {:induction false} TotalReturnBounds(width: int, height: int, policy: Policy, trig: Trig, draws: seq<int>)
    requires ValidConfig(width, height) && PadDraws(width, draws)
    ensures var n := |draws| as real;
      -1099.0 * n <= TotalReturn(width, height, policy, trig, draws) <= 1000.0 * n
  {
    if draws != [] {
      var last := |draws| - 1;
      TotalReturnBounds(width, height, policy, trig, draws[..last]);
      EpisodeReturnBounds(Start(width, height, draws[last]), policy, trig, width, height, MaxSteps);
    }
  }

  /** Every fitness lies between -1099 (1000 steps ending in a crash, every
      episode) and 1000, the reward of one landing per episode. From the
      reset on a field taller than 80 no landing happens, and the ceiling
      drops to -1 (`FitnessWithoutLanding`). */
  lemma FitnessBounds(width: int, height: int, policy: Policy, trig: Trig, draws: seq<int>)
    requires ValidConfig(width, height) && PadDraws(width, draws) && |draws| > 0
    ensures -1099.0 <= Fitness(width, height, policy, trig, draws) <= 1000.0
  {
    TotalReturnBounds(width, height, policy, trig, draws);
    ScaledBound(TotalReturn(width, height, policy, trig, draws), |draws|);
  }

  /** From a state above the floor no step pays +1000, so an episode of at
      least one step returns at most -1. */
  lemma {:induction false} EpisodeReturnWithoutLanding(s: Lander, policy: Policy, trig: Trig, width: int, height: int, budget: nat)
    requires ValidConfig(width, height) && Invariant(s, width, height) && !OnFloor(s, height) && budget > 0
    ensures EpisodeReturn(s, policy, trig, width, height, budget) <= TimePenalty
    decreases budget
  {
    var action := policy(Observe(s, width, height));
    var r := Transition(s, action, trig, width, height);
    EpisodeReturnStep(s, policy, trig, width, height, budget);
    TransitionReward(s, action, trig, width, height);
    NoLandingFromAboveFloor(s, action, trig, width, height);
    if !r.done && budget > 1 {
      TransitionPreservesInvariant(s, action, trig, width, height);
      EpisodeReturnWithoutLanding(r.next, policy, trig, width, height, budget - 1);
    }
  }

  /** On a field taller than 80 the reset leaves the lander above the floor,
      so every episode returns at most -1 ... */
  lemma {:induction false} TotalReturnWithoutLanding(width: int, height: int, policy: Policy, trig: Trig, draws: seq<int>)
    requires ValidConfig(width, height) && height > 80 && PadDraws(width, draws)
    ensures TotalReturn(width, height, policy, trig, draws) <= -(|draws| as real)
  {
    if draws != [] {
      var last := |draws| - 1;
      TotalReturnWithoutLanding(width, height, policy, trig, draws[..last]);
      EpisodeReturnWithoutLanding(Start(width, height, draws[last]), policy, trig, width, height, MaxSteps);
    }
  }

  /** ... and so does every fitness: the +1000 of a landing is never earned. */
  lemma FitnessWithoutLanding(width: int, height: int, policy: Policy, trig: Trig, draws: seq<int>)
    requires ValidConfig(width, height) && height > 80 && PadDraws(width, draws) && |draws| > 0
    ensures Fitness(width, height, policy, trig, draws) <= TimePenalty
  {
    TotalReturnWithoutLanding(width, height, policy, trig, draws);
    MeanAtMostPenalty(TotalReturn(width, height, policy, trig, draws), |draws|);
  }

  lemma MeanAtMostPenalty(t: real, n: nat)
    requires n > 0 && t <= -(n as real)
    ensures MeanOf(t, n) <= TimePenalty
  {
  }

  lemma ScaledBound(t: real, n: nat)
    requires n > 0 && -1099.0 * n as real <= t <= 1000.0 * n as real
    ensures -1099.0 <= MeanOf(t, n) <= 1000.0
  {
    var q := t / n as real;
    assert t == q * n as real;
  }

  /** A controller that never fires, from k steps into the free fall on the
      600 x 400 field: it pays -1 for each of the remaining steps before step
      89 and then crashes. */
  lemma {:induction false} FallingEpisodeReturn(s: Lander, k: nat, budget: nat, policy: Policy, trig: Trig)
    requires Falling(s, k) && k <= 88 && k + budget >= 89
    requires forall o :: policy(o) == 0
    ensures EpisodeReturn(s, policy, trig, 600, 400, budget) == -(88 - k) as real + CrashReward
    decreases 88 - k
  {
    assert policy(Observe(s, 600, 400)) == 0;
    EpisodeReturnStep(s, policy, trig, 600, 400, budget);
    if k < 88 {
      FallingStep(s, k, trig);
      FallingEpisodeReturn(Transition(s, 0, trig, 600, 400).next, k + 1, budget - 1, policy, trig);
    } else {
      FastDescentCrashes(s, trig);
    }
  }

  /** From the start, such a controller's episode returns -188. */
  lemma IdleEpisodeReturn(padDraw: int, budget: nat, policy: Policy, trig: Trig)
    requires ValidPadDraw(600, padDraw) && budget >= 89
    requires forall o :: policy(o) == 0
    ensures EpisodeReturn(Start(600, 400, padDraw), policy, trig, 600, 400, budget) == IdleScore
  {
    FallingEpisodeReturn(Start(600, 400, padDraw), 0, budget, policy, trig);
  }

  lemma EpisodeReturnStep(s: Lander, policy: Policy, trig: Trig, width: int, height: int, budget: nat)
    requires ValidConfig(width, height) && budget > 0
    ensures var r := Transition(s, policy(Observe(s, width, height)), trig, width, height);
      EpisodeReturn(s, policy, trig, width, height, budget) ==
        r.reward + if r.done then 0.0 else EpisodeReturn(r.next, policy, trig, width, height, budget - 1)
  {
  }

  lemma {:induction false} IdleTotalReturn(policy: Policy, trig: Trig, draws: seq<int>)
    requires PadDraws(600, draws)
    requires forall o :: policy(o) == 0
    ensures TotalReturn(600, 400, policy, trig, draws) == IdleScore * |draws| as real
  {
    if draws != [] {
      var last := |draws| - 1;
      IdleTotalReturn(policy, trig, draws[..last]);
      IdleEpisodeReturn(draws[last], MaxSteps, policy, trig);
    }
  }

  /** On the 600 x 400 field a controller that always picks action 0 scores
      exactly -188 (88 steps at -1, then a crash at -100) over the trainer's
      three episodes, whatever the pads. */
  lemma IdleFitness(policy: Policy, trig: Trig, draws: seq<int>)
    requires PadDraws(600, draws) && |draws| == Episodes
    requires forall o :: policy(o) == 0
    ensures Fitness(600, 400, policy, trig, draws) == IdleScore
  {
    IdleTotalReturn(policy, trig, draws);
    FitnessOfTotal(600, 400, policy, trig, draws, IdleScore);
  }

  lemma FitnessOfTotal(width: int, height: int, policy: Policy, trig: Trig, draws: seq<int>, c: real)
    requires ValidConfig(width, height) && PadDraws(width, draws) && |draws| == Episodes
    requires TotalReturn(width, height, policy, trig, draws) == c * 3.0
    ensures Fitness(width, height, policy, trig, draws) == c
  {
  }

  /** Runs the batch of episodes on a copy of `env` (the environment is passed
      by value) and returns the mean total reward. */
  method Evaluate(policy: Policy, env: MoonLanderEnv, trig: Trig, draws: seq<int>, episodes: nat)
    returns (fitness: real)
    requires env.Valid() && |draws| == episodes > 0 && PadDraws(env.width, draws)
    ensures fitness == Fitness(env.width, env.height, policy, trig, draws)
  {
    var local := new MoonLanderEnv.CopyOf(env);
    var totalReward := 0.0;
    var i := 0;
    while i < episodes
      invariant 0 <= i <= episodes
      invariant local.Valid() && local.width == env.width && local.height == env.height
      invariant totalReward == TotalReturn(env.width, env.height, policy, trig, draws[..i])
    {
      var episodeReward := RunEpisode(policy, local, trig, draws[i]);
      totalReward := totalReward + episodeReward;
      TotalReturnStep(env.width, env.height, policy, trig, draws, i);
      i := i + 1;
    }
    assert draws[..episodes] == draws;
    fitness := totalReward / episodes as real;
  }

  /** One episode of an evaluation: a reset with the pad draw `padDraw`, then
      steps under the policy until the episode is done or 1000 steps have run.
      Returns the summed rewards. */
  method RunEpisode(policy: Policy, env: MoonLanderEnv, trig: Trig, padDraw: int)
    returns (episodeReward: real)
    requires env.Valid() && ValidPadDraw(env.width, padDraw)
    modifies env
    ensures env.Valid()
    ensures episodeReward == EpisodeReturn(Start(env.width, env.height, padDraw), policy, trig, env.width, env.height, MaxSteps)
  {
    var state := env.Reset(padDraw);
    ghost var start := env.State();
    episodeReward := 0.0;
    var done := false;
    var steps := MaxSteps;
    var step := 0;
    while !done && step < steps
      invariant 0 <= step <= steps == MaxSteps
      invariant env.Valid()
      invariant state == Observe(env.State(), env.width, env.height)
      invariant episodeReward + (if done then 0.0 else EpisodeReturn(env.State(), policy, trig, env.width, env.height, steps - step))
                == EpisodeReturn(start, policy, trig, env.width, env.height, MaxSteps)
    {
      EpisodeReturnStep(env.State(), policy, trig, env.width, env.height, steps - step);
      step := step + 1;
      var action := policy(state);
      var nextState, reward;
      nextState, reward, done := env.Step(action, trig);
      episodeReward := episodeReward + reward;
      state := nextState;
    }
  }

  // ---------------------------------------------------------------- selection

  function Iota(n: nat): (r: seq<nat>)
    ensures |r| == n && forall k :: 0 <= k < n ==> r[k] == k
  {
    seq(n, k requires 0 <= k => k as nat)
  }

  /** `order` lists each index below `n` exactly once. */
  ghost predicate IndexPermutation(order: seq<nat>, n: nat) {
    && |order| == n
    && (forall k :: 0 <= k < n ==> order[k] < n)
    && (forall k, l :: 0 <= k < l < n ==> order[k] != order[l])
    && multiset(order) == multiset(Iota(n))
  }

  /** Positions lo .. hi-1 of `order` are by non-increasing fitness. */
  ghost predicate FittestFirst(fitnesses: seq<real>, order: seq<nat>, lo: nat, hi: nat)
    requires hi <= |order| && forall k :: 0 <= k < |order| ==> order[k] < |fitnesses|
  {
    forall k, l :: lo <= k < l < hi ==> fitnesses[order[k]] >= fitnesses[order[l]]
  }

  /** Mid-insertion: the prefix up to i is fittest-first except for the index
      being inserted, now at position j, which is fitter than all after it. */
  ghost predicate Inserting(fitnesses: seq<real>, order: seq<nat>, i: nat, j: nat)
    requires i < |order| && forall k :: 0 <= k < |order| ==> order[k] < |fitnesses|
  {
    && j <= i
    && (forall k, l :: 0 <= k < l <= i && k != j && l != j ==> fitnesses[order[k]] >= fitnesses[order[l]])
    && (forall l :: j < l <= i ==> fitnesses[order[j]] > fitnesses[order[l]])
  }

  lemma SwapKeepsPermutation(order: seq<nat>, swapped: seq<nat>, j: nat)
    requires IndexPermutation(order, |order|) && 0 < j < |order|
    requires swapped == order[j - 1 := order[j]][j := order[j - 1]]
    ensures IndexPermutation(swapped, |order|)
  {
    assert multiset(swapped) == multiset(order);
  }

  /** Swapping the inserted index one place left keeps the insertion state. */
  lemma SwapStep(fitnesses: seq<real>, order: seq<nat>, swapped: seq<nat>, i: nat, j: nat)
    requires i < |order| && forall k :: 0 <= k < |order| ==> order[k] < |fitnesses|
    requires 0 < j && Inserting(fitnesses, order, i, j)
    requires fitnesses[order[j - 1]] < fitnesses[order[j]]
    requires swapped == order[j - 1 := order[j]][j := order[j - 1]]
    ensures forall k :: 0 <= k < |swapped| ==> swapped[k] < |fitnesses|
    ensures Inserting(fitnesses, swapped, i, j - 1)
  {
  }

  /** Once the inserted index meets one at least as fit, the prefix through i
      is fittest-first. */
  lemma InsertionDone(fitnesses: seq<real>, order: seq<nat>, i: nat, j: nat)
    requires i < |order| && forall k :: 0 <= k < |order| ==> order[k] < |fitnesses|
    requires Inserting(fitnesses, order, i, j)
    requires j == 0 || fitnesses[order[j - 1]] >= fitnesses[order[j]]
    ensures FittestFirst(fitnesses, order, 0, i + 1)
  {
  }

  /** One pass of insertion: moves the index at position i left past every
      index of lower fitness. */
  method InsertByFitness(fitnesses: seq<real>, indices: array<nat>, i: nat)
    requires indices.Length == |fitnesses| && i < indices.Length
    requires IndexPermutation(indices[..], indices.Length)
    requires FittestFirst(fitnesses, indices[..], 0, i)
    modifies indices
    ensures IndexPermutation(indices[..], indices.Length)
    ensures FittestFirst(fitnesses, indices[..], 0, i + 1)
  {
    var j: nat := i;
    while j > 0 && fitnesses[indices[j - 1]] < fitnesses[indices[j]]
      invariant IndexPermutation(indices[..], indices.Length)
      invariant Inserting(fitnesses, indices[..], i, j)
    {
      ghost var before := indices[..];
      indices[j - 1], indices[j] := indices[j], indices[j - 1];
      SwapKeepsPermutation(before, indices[..], j);
      SwapStep(fitnesses, before, indices[..], i, j);
      j := j - 1;
    }
    InsertionDone(fitnesses, indices[..], i, j);
  }

  /** The indices 0 .. n-1 ordered by non-increasing fitness. */
  method SortByFitness(fitnesses: seq<real>) returns (order: seq<nat>)
    ensures IndexPermutation(order, |fitnesses|)
    ensures FittestFirst(fitnesses, order, 0, |fitnesses|)
  {
    var n := |fitnesses|;
    var indices := new nat[n](k => k);
    assert indices[..] == Iota(n);
    var i := 0;
    while i < n
      invariant 0 <= i <= n
      invariant IndexPermutation(indices[..], n)
      invariant FittestFirst(fitnesses, indices[..], 0, i)
    {
      InsertByFitness(fitnesses, indices, i);
      i := i + 1;
    }
    order := indices[..];
  }

  /** A prefix of a fittest-first permutation holds the fittest indices: no
      index outside it is fitter than one inside. */
  lemma PrefixIsElite(fitnesses: seq<real>, order: seq<nat>, count: nat)
    requires IndexPermutation(order, |fitnesses|) && count <= |fitnesses|
    requires FittestFirst(fitnesses, order, 0, |fitnesses|)
    ensures forall k, j :: 0 <= k < count && 0 <= j < |fitnesses| && j !in order[..count] ==>
              fitnesses[j] <= fitnesses[order[k]]
  {
    var n := |fitnesses|;
    forall k, j | 0 <= k < count && 0 <= j < n && j !in order[..count]
      ensures fitnesses[j] <= fitnesses[order[k]]
    {
      assert Iota(n)[j] == j;
      assert j in multiset(order);
      var p :| 0 <= p < n && order[p] == j;
      assert p >= count;
    }
  }

  /** `elite` lists the indices of the `eliteNum` fittest members (all of
      them when there are fewer): distinct valid indices, fittest first, and
      no index left out is fitter than any index kept. */
  predicate EliteIndices(fitnesses: seq<real>, eliteNum: nat, elite: seq<nat>) {
    && |elite| == (if eliteNum < |fitnesses| then eliteNum else |fitnesses|)
    && (forall k :: 0 <= k < |elite| ==> elite[k] < |fitnesses|)
    && (forall k, l :: 0 <= k < l < |elite| ==> elite[k] != elite[l])
    && (forall k, l :: 0 <= k < l < |elite| ==> fitnesses[elite[k]] >= fitnesses[elite[l]])
    && (forall k, j :: 0 <= k < |elite| && 0 <= j < |fitnesses| && j !in elite ==>
          fitnesses[j] <= fitnesses[elite[k]])
  }

  /** The elite indices: the indices sorted by decreasing fitness, then
      truncated. */
  method GetEliteIndices(fitnesses: seq<real>, eliteNum: nat) returns (elite: seq<nat>)
    ensures EliteIndices(fitnesses, eliteNum, elite)
  {
    var n := |fitnesses|;
    var indices := SortByFitness(fitnesses);
    var count := if eliteNum > n then n else eliteNum;
    elite := indices[..count];
    PrefixIsElite(fitnesses, indices, count);
  }

  /** Position of the first largest fitness, as a forward scan that only
      moves on a strictly larger value finds it. */
  function ArgMax(xs: seq<real>): (k: nat)
    requires |xs| > 0
    ensures k < |xs|
    ensures forall j :: 0 <= j < |xs| ==> xs[j] <= xs[k]
    ensures forall j :: 0 <= j < k ==> xs[j] < xs[k]
  {
    if |xs| == 1 then 0
    else
      var k := ArgMax(xs[..|xs| - 1]);
      if xs[k] < xs[|xs| - 1] then |xs| - 1 else k
  }

  /** The conversion of a real to an integer, which truncates toward zero. */
  function Truncate(v: real): (t: int)
    ensures v >= 0.0 ==> 0 <= t && t as real <= v < t as real + 1.0
    ensures v < 0.0 ==> t <= 0 && t as real - 1.0 < v <= t as real
  {
    if v >= 0.0 then v.Floor else -((-v).Floor)
  }

  /** The number of elites: the truncated share of the population, at least 1. */
  function EliteCount(eliteFraction: real, populationSize: int): (n: int)
    ensures n >= 1
  {
    var t := Truncate(eliteFraction * populationSize as real);
    if 1 < t then t else 1
  }

  /** For a fraction in [0, 1] the elite count is the rounded-down share, at
      least 1 and at most the population. */
  lemma EliteCountWithinPopulation(eliteFraction: real, populationSize: int)
    requires 0.0 <= eliteFraction <= 1.0 && populationSize >= 1
    ensures var share := (eliteFraction * populationSize as real).Floor;
      EliteCount(eliteFraction, populationSize) == (if share < 1 then 1 else share)
    ensures EliteCount(eliteFraction, populationSize) <= populationSize
  {
    var p := populationSize as real;
    assert 0.0 <= eliteFraction * p <= 1.0 * p;
  }

  // ------------------------------------------------------------- reproduction

  /** The draws for one child: the two parents' positions among the elites and
      the mutation draws. */
  datatype BreedDraws = BreedDraws(parent1: int, parent2: int, mutation: MutationDraws)

  predicate ValidBreed(b: BreedDraws, poolSize: int) {
    0 <= b.parent1 < poolSize && 0 <= b.parent2 < poolSize
  }

  /** The child bred from two elites: their crossover, mutated at rate 0.1. */
  function Child(elites: seq<Params>, b: BreedDraws): (c: Params)
    requires ValidBreed(b, |elites|) && forall k :: 0 <= k < |elites| ==> Genome(elites[k])
    ensures Genome(c)
  {
    var parent1, parent2 := elites[b.parent1], elites[b.parent2];
    CompatibleGenomes(parent1, parent2);
    var mean := Crossover(parent1, parent2);
    GenomeOfCompatible(mean, parent1);
    var c := MutatedParams(mean, MutationRate, b.mutation);
    GenomeOfCompatible(c, mean);
    c
  }

  /** The size the rebuilt population reaches: the rebuild loop re-reads the
      size before adding, so once it adds any child it adds one more than the
      target. */
  function NextSize(eliteCount: int, populationSize: int): (n: int)
    ensures eliteCount < populationSize ==> n == populationSize + 1
    ensures eliteCount >= populationSize ==> n == eliteCount
  {
    if eliteCount < populationSize then populationSize + 1 else eliteCount
  }

  /** The next generation: the elites in rank order, then children bred from
      them (draw c for the c-th child) until the size check stops the loop. */
  method Repopulate(elites: seq<Params>, populationSize: int, generation: nat, breed: (nat, nat) -> BreedDraws)
    returns (newPopulation: seq<Params>)
    requires forall k :: 0 <= k < |elites| ==> Genome(elites[k])
    requires forall c: nat :: ValidBreed(breed(generation, c), |elites|)
    ensures |newPopulation| == NextSize(|elites|, populationSize)
    ensures newPopulation[..|elites|] == elites
    ensures forall k :: |elites| <= k < |newPopulation| ==>
              newPopulation[k] == Child(elites, breed(generation, k - |elites|))
    ensures forall k :: 0 <= k < |newPopulation| ==> Genome(newPopulation[k])
  {
    newPopulation := elites;
    var newPopulationSize := |newPopulation|;
    while newPopulationSize < populationSize
      invariant |elites| <= |newPopulation|
      invariant newPopulation[..|elites|] == elites
      invariant newPopulationSize == if |newPopulation| == |elites| then |elites| else |newPopulation| - 1
      invariant |newPopulation| > |elites| ==> |elites| < populationSize && |newPopulation| <= populationSize + 1
      invariant forall k :: |elites| <= k < |newPopulation| ==>
                  newPopulation[k] == Child(elites, breed(generation, k - |elites|))
      decreases populationSize + 1 - |newPopulation|
    {
      newPopulationSize := |newPopulation|;
      var child := Breed(elites, breed(generation, |newPopulation| - |elites|));
      newPopulation := newPopulation + [child];
    }
    BredAreGenomes(elites, newPopulation, generation, breed);
  }

  /** Elites followed by children bred from them all have the genome shape. */
  lemma BredAreGenomes(elites: seq<Params>, population: seq<Params>, generation: nat, breed: (nat, nat) -> BreedDraws)
    requires forall k :: 0 <= k < |elites| ==> Genome(elites[k])
    requires forall c: nat :: ValidBreed(breed(generation, c), |elites|)
    requires |elites| <= |population| && population[..|elites|] == elites
    requires forall k :: |elites| <= k < |population| ==>
               population[k] == Child(elites, breed(generation, k - |elites|))
    ensures forall k :: 0 <= k < |population| ==> Genome(population[k])
  {
    forall k | 0 <= k < |population|
      ensures Genome(population[k])
    {
      if k < |elites| {
        assert population[k] == elites[k];
      }
    }
  }

  /** Picks the two parents, builds their crossover as a new network and
      mutates it in place. */
  method Breed(elites: seq<Params>, draws: BreedDraws) returns (child: Params)
    requires ValidBreed(draws, |elites|) && forall k :: 0 <= k < |elites| ==> Genome(elites[k])
    ensures child == Child(elites, draws)
  {
    var parent1 := elites[draws.parent1];
    var parent2 := elites[draws.parent2];
    CompatibleGenomes(parent1, parent2);
    var mean := Crossover(parent1, parent2);
    GenomeOfCompatible(mean, parent1);
    var net := new NeatNet(ObservationSize, HiddenSize, ActionCount, mean);
    net.Mutate(MutationRate, draws.mutation);
    child := net.GetParams();
  }

  // --------------------------------------------------------------- generations

  /** Pad draws for every evaluation of a run, indexed by generation and
      member; the final evaluation uses the generation after the last. */
  type PadSchedule = (nat, nat) -> seq<int>

  ghost predicate ValidSchedule(width: int, pads: PadSchedule) {
    forall g: nat, m: nat :: |pads(g, m)| == Episodes && PadDraws(width, pads(g, m))
  }

  /** Evaluates every member of a population, in order. */
  method EvaluateAll(population: seq<Params>, policyOf: Params -> Policy, env: MoonLanderEnv,
                     trig: Trig, pads: PadSchedule, generation: nat)
    returns (fitnesses: seq<real>)
    requires env.Valid() && ValidSchedule(env.width, pads)
    ensures |fitnesses| == |population|
    ensures forall k :: 0 <= k < |population| ==>
              fitnesses[k] == Fitness(env.width, env.height, policyOf(population[k]), trig, pads(generation, k))
  {
    ghost var score := (k: nat) => MemberFitness(env.width, env.height, population, policyOf, trig, pads, generation, k);
    fitnesses := [];
    for k := 0 to |population|
      invariant fitnesses == Prefix(score, k)
    {
      var fitness := Evaluate(policyOf(population[k]), env, trig, pads(generation, k), Episodes);
      fitnesses := fitnesses + [fitness];
    }
    PrefixAt(score, |population|);
  }

  /** The fitness of member k of a population in generation g (0 past the end). */
  ghost function MemberFitness(width: int, height: int, population: seq<Params>, policyOf: Params -> Policy,
                               trig: Trig, pads: PadSchedule, g: nat, k: nat): real
  {
    if ValidConfig(width, height) && k < |population| && |pads(g, k)| > 0 && PadDraws(width, pads(g, k))
    then Fitness(width, height, policyOf(population[k]), trig, pads(g, k))
    else 0.0
  }

  /** The list f(0), ..., f(n-1). */
  ghost function Prefix(f: nat -> real, n: nat): (p: seq<real>)
    ensures |p| == n
  {
    if n == 0 then [] else Prefix(f, n - 1) + [f(n - 1)]
  }

  lemma {:induction false} PrefixAt(f: nat -> real, n: nat)
    ensures forall k :: 0 <= k < n ==> Prefix(f, n)[k] == f(k)
  {
    if n > 0 {
      PrefixAt(f, n - 1);
    }
  }

  /** The number of elites actually kept from a population of the target size. */
  function PoolSize(eliteFraction: real, populationSize: int): int {
    var e := EliteCount(eliteFraction, populationSize);
    if e < populationSize then e else populationSize
  }

  /** `fitnesses` are the fitnesses of `ranked` measured in generation g, and
      position `top` holds the largest. */
  ghost predicate Ranked(width: int, height: int, ranked: seq<Params>, fitnesses: seq<real>, top: nat,
                         policyOf: Params -> Policy, trig: Trig, pads: PadSchedule, g: nat)
    requires ValidConfig(width, height) && ValidSchedule(width, pads)
  {
    && |fitnesses| == |ranked| && top < |ranked|
    && (forall k :: 0 <= k < |ranked| ==> fitnesses[k] <= fitnesses[top])
    && (forall k :: 0 <= k < |ranked| ==>
          fitnesses[k] == Fitness(width, height, policyOf(ranked[k]), trig, pads(g, k)))
  }

  /** One generation: evaluate every member, keep the elites in rank order
      and breed the rest. The next generation starts with the elites of this
      one, fittest first, so its first member is the fittest member of this
      one. */
  method NextGeneration(env: MoonLanderEnv, population: seq<Params>, populationSize: int, eliteFraction: real,
                        policyOf: Params -> Policy, trig: Trig, pads: PadSchedule,
                        breed: (nat, nat) -> BreedDraws, generation: nat)
    returns (next: seq<Params>, ghost fitnesses: seq<real>, ghost eliteIndices: seq<nat>, ghost top: nat,
             ghost elites: seq<Params>)
    requires env.Valid() && ValidSchedule(env.width, pads) && populationSize >= 1
    requires |population| == populationSize ||
             |population| == NextSize(PoolSize(eliteFraction, populationSize), populationSize)
    requires forall k :: 0 <= k < |population| ==> Genome(population[k])
    requires forall c: nat :: ValidBreed(breed(generation, c), PoolSize(eliteFraction, populationSize))
    ensures |next| == NextSize(PoolSize(eliteFraction, populationSize), populationSize)
    ensures forall k :: 0 <= k < |next| ==> Genome(next[k])
    ensures Ranked(env.width, env.height, population, fitnesses, top, policyOf, trig, pads, generation)
    ensures EliteIndices(fitnesses, EliteCount(eliteFraction, populationSize), eliteIndices)
    ensures |eliteIndices| <= |next| &&
            forall q :: 0 <= q < |eliteIndices| ==> next[q] == population[eliteIndices[q]]
    ensures |elites| == |eliteIndices| && next[..|elites|] == elites
    ensures forall k :: |elites| <= k < |next| ==> next[k] == Child(elites, breed(generation, k - |elites|))
    ensures next[0] == population[top]
  {
    var fitnessList := EvaluateAll(population, policyOf, env, trig, pads, generation);
    var chosen;
    chosen, eliteIndices, top := SelectElites(population, fitnessList, EliteCount(eliteFraction, populationSize));
    next := Repopulate(chosen, populationSize, generation, breed);
    fitnesses, elites := fitnessList, chosen;
  }

  /** The elites of a population: the members at the elite indices, in rank
      order; `top` is the first elite index, which holds the largest fitness. */
  method SelectElites(population: seq<Params>, fitnesses: seq<real>, eliteNum: nat)
    returns (elites: seq<Params>, ghost eliteIndices: seq<nat>, ghost top: nat)
    requires |population| == |fitnesses| > 0 && eliteNum >= 1
    requires forall k :: 0 <= k < |population| ==> Genome(population[k])
    ensures EliteIndices(fitnesses, eliteNum, eliteIndices)
    ensures |elites| == |eliteIndices| &&
            forall q :: 0 <= q < |elites| ==> elites[q] == population[eliteIndices[q]]
    ensures |elites| == if eliteNum < |population| then eliteNum else |population|
    ensures forall k :: 0 <= k < |elites| ==> Genome(elites[k])
    ensures top == eliteIndices[0] && top < |population| && elites[0] == population[top]
    ensures forall k :: 0 <= k < |population| ==> fitnesses[k] <= fitnesses[top]
  {
    var indices := GetEliteIndices(fitnesses, eliteNum);
    elites := [];
    for m := 0 to |indices|
      invariant |elites| == m
      invariant forall q :: 0 <= q < m ==> elites[q] == population[indices[q]]
    {
      elites := elites + [population[indices[m]]];
    }
    TopEliteIsFittest(fitnesses, indices);
    eliteIndices, top := indices, indices[0];
  }

  /** The training loop. After the generations, the final population is
      evaluated once more, but the index of its best member is stored in a new
      variable that goes out of scope, so the member returned is the one at
      position 0: the top elite of the last generation (or the first initial
      network when there are no generations). */
  method Run(env: MoonLanderEnv, generations: int, populationSize: int, eliteFraction: real,
             initial: seq<Params>, policyOf: Params -> Policy, trig: Trig,
             pads: PadSchedule, breed: (nat, nat) -> BreedDraws)
    returns (best: Params, ghost population: seq<Params>, ghost ranked: seq<Params>,
             ghost fitnesses: seq<real>, ghost top: nat)
    requires env.Valid() && ValidSchedule(env.width, pads)
    requires populationSize >= 1 && |initial| == populationSize
    requires forall k :: 0 <= k < |initial| ==> Genome(initial[k])
    requires forall g: nat, c: nat :: ValidBreed(breed(g, c), PoolSize(eliteFraction, populationSize))
    ensures |population| >= 1 && best == population[0]
    ensures generations <= 0 ==> population == initial
    ensures generations <= 0 ==> best == initial[0]
    ensures generations > 0 ==>
              |population| == NextSize(PoolSize(eliteFraction, populationSize), populationSize)
    ensures generations > 0 ==>
              Ranked(env.width, env.height, ranked, fitnesses, top, policyOf, trig, pads, generations - 1) &&
              best == ranked[top]
  {
    var current := initial;
    ranked, fitnesses, top := [], [], 0;
    var gen: nat := 0;
    while gen < generations
      invariant gen == 0 || gen <= generations
      invariant |current| >= 1 && forall k :: 0 <= k < |current| ==> Genome(current[k])
      invariant gen == 0 ==> current == initial
      invariant gen > 0 ==> |current| == NextSize(PoolSize(eliteFraction, populationSize), populationSize)
      invariant gen > 0 ==>
                  Ranked(env.width, env.height, ranked, fitnesses, top, policyOf, trig, pads, gen - 1) &&
                  current[0] == ranked[top]
    {
      ranked := current;
      ghost var eliteIndices, elites;
      current, fitnesses, eliteIndices, top, elites := NextGeneration(env, current, populationSize, eliteFraction, policyOf, trig, pads, breed, gen);
      gen := gen + 1;
    }
    best := FinalPick(env, current, policyOf, trig, pads, gen);
    population := current;
  }

  /** The closing evaluation of the run. The position of the best final
      fitness is found, but into a variable local to the branch, and the
      member returned is read at the outer index, which is still 0. */
  method FinalPick(env: MoonLanderEnv, population: seq<Params>, policyOf: Params -> Policy,
                   trig: Trig, pads: PadSchedule, generation: nat)
    returns (best: Params)
    requires env.Valid() && ValidSchedule(env.width, pads) && |population| >= 1
    ensures best == population[0]
  {
    var bestIndex := 0;
    var newFitnesses := EvaluateAll(population, policyOf, env, trig, pads, generation);
    if |newFitnesses| > 0 {
      var bestIndex := ArgMax(newFitnesses);
    }
    best := population[bestIndex];
  }

  /** The first of the elite indices holds the largest fitness overall. */
  lemma TopEliteIsFittest(fitnesses: seq<real>, elite: seq<nat>)
    requires |elite| > 0
    requires forall k :: 0 <= k < |elite| ==> elite[k] < |fitnesses|
    requires forall k, l :: 0 <= k < l < |elite| ==> fitnesses[elite[k]] >= fitnesses[elite[l]]
    requires forall k, j :: 0 <= k < |elite| && 0 <= j < |fitnesses| && j !in elite ==>
               fitnesses[j] <= fitnesses[elite[k]]
    ensures forall j :: 0 <= j < |fitnesses| ==> fitnesses[j] <= fitnesses[elite[0]]
  {
    forall j | 0 <= j < |fitnesses|
      ensures fitnesses[j] <= fitnesses[elite[0]]
    {
      if j in elite {
        var q :| 0 <= q < |elite| && elite[q] == j;
        if q > 0 {
          assert fitnesses[elite[0]] >= fitnesses[elite[q]];
        }
      }
    }
  }
}
