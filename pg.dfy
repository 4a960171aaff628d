/**
 * The return and advantage arithmetic of the policy-gradient (actor-critic)
 * script: one episode is rolled out step by step, its rewards are discounted
 * by `DISCOUNT ** t`, summed from every step to the end of the episode, the
 * critic's state values are subtracted, and the advantages weight the log
 * probabilities of the chosen actions in the loss.
 *
 * The environment, the actor's sampling and the critic network are foreign
 * code: what they produce enters as parameters (the outcomes of each
 * environment step, and the critic's values).
 */
module PolicyGradient {
  import opened Wrappers
  import opened PySlice
  import V = Vectors

  /** The default of the `--discount` flag. */
  const DISCOUNT: real := 0.9999

  // ---------------------------------------------------------------------
  // G(rewards, start=0, end=None)

  /** `sum(rewards[start:end])`. */
  function G(rewards: V.Vector, start: int, end: Option<int>): (g: real)
    ensures g == V.Sum(Slice(rewards, Some(start), end))
    ensures Lo(|rewards|, Some(start)) == Hi(|rewards|, Some(start), end) ==> g == 0.0
  {
    var slice := Slice(rewards, Some(start), end);
    V.FoldSum(slice, 0.0)
  }

  /** For bounds inside the sequence, `G` is the sum of the entries from `start` up to `end`. */
  lemma GRange(rewards: V.Vector, start: nat, end: nat)
    requires start <= end <= |rewards|
    ensures G(rewards, start, Some(end)) == V.Sum(rewards[start..end])
    ensures G(rewards, start, None) == V.Sum(rewards[start..])
  {
  }

  /** An empty slice, one that starts at or after its end, sums to zero. */
  lemma GEmpty(rewards: V.Vector, start: nat, end: nat)
    requires end <= start || |rewards| <= start
    ensures G(rewards, start, Some(end)) == 0.0
  {
  }

  /** The suffix-sum recurrence: the rest of the episode is one reward plus the rest after it. */
  lemma GSuffix(rewards: V.Vector, t: nat)
    requires t < |rewards|
    ensures G(rewards, t, None) == rewards[t] + G(rewards, t + 1, None)
  {
    V.SumSuffix(rewards, t);
  }

  /** Nothing is left after the last step. */
  lemma GEnd(rewards: V.Vector)
    ensures G(rewards, |rewards|, None) == 0.0
  {
  }

  // ---------------------------------------------------------------------
  // discounted_rewards = [DISCOUNT ** t * r for t, r in enumerate(rewards)]

  /** Each reward discounted by the discount raised to its step number. */
  function DiscountedRewards(rewards: V.Vector, discount: real): (d: V.Vector)
    ensures |d| == |rewards|
    ensures forall t :: 0 <= t < |d| ==> d[t] == V.Pow(discount, t) * rewards[t]
  {
    seq(|rewards|, t requires 0 <= t < |rewards| => V.Pow(discount, t) * rewards[t])
  }

  /** Step `t`'s discounted reward is the reward times the discount raised to `t`. */
  lemma DiscountedAt(rewards: V.Vector, discount: real, t: nat)
    requires t < |rewards|
    ensures DiscountedRewards(rewards, discount)[t] == V.Pow(discount, t) * rewards[t]
  {
  }

  /** Without discounting the rewards are unchanged. */
  lemma UndiscountedRewards(rewards: V.Vector)
    ensures DiscountedRewards(rewards, 1.0) == rewards
  {
    forall t | 0 <= t < |rewards|
      ensures DiscountedRewards(rewards, 1.0)[t] == rewards[t]
    {
      DiscountedAt(rewards, 1.0, t);
      V.PowBounds(1.0, t);
    }
  }

  // ---------------------------------------------------------------------
  // cumulative_returns = [G(discounted_rewards, t) for t, _ in enumerate(discounted_rewards)]

  /** At every step, the discounted rewards from that step to the end of the episode. */
  function CumulativeReturns(d: V.Vector): (c: V.Vector)
    ensures |c| == |d|
    ensures forall t :: 0 <= t < |c| ==> c[t] == V.Sum(d[t..])
  {
    seq(|d|, t requires 0 <= t < |d| => G(d, t, None))
  }

  /** The return at the first step is the whole episode's discounted reward. */
  lemma CumulativeFirst(d: V.Vector)
    requires |d| > 0
    ensures CumulativeReturns(d)[0] == V.Sum(d)
  {
    assert d[0..] == d;
  }

  /** The return at the last step is the last discounted reward. */
  lemma CumulativeLast(d: V.Vector)
    requires |d| > 0
    ensures CumulativeReturns(d)[|d| - 1] == d[|d| - 1]
  {
    var last := [d[|d| - 1]];
    assert d[|d| - 1..] == last && last[1..] == [];
    assert V.Sum(last) == d[|d| - 1] + V.Sum([]);
  }

  /** Each return is the step's discounted reward plus the next step's return. */
  lemma CumulativeStep(d: V.Vector, t: nat)
    requires t + 1 < |d|
    ensures CumulativeReturns(d)[t] == d[t] + CumulativeReturns(d)[t + 1]
  {
    V.SumSuffix(d, t);
  }

  /** With no negative discounted reward, the returns never grow along the episode. */
  lemma CumulativeNonIncreasing(d: V.Vector)
    requires forall t :: 0 <= t < |d| ==> d[t] >= 0.0
    ensures forall i, j :: 0 <= i <= j < |d| ==>
      CumulativeReturns(d)[i] >= CumulativeReturns(d)[j]
  {
    forall i, j | 0 <= i <= j < |d|
      ensures CumulativeReturns(d)[i] >= CumulativeReturns(d)[j]
    {
      SuffixShrinks(d, i, j);
    }
  }

  /** Over non-negative entries, a later suffix sums to no more than an earlier one. */
  lemma SuffixShrinks(d: V.Vector, i: nat, j: nat)
    requires i <= j <= |d|
    requires forall t :: 0 <= t < |d| ==> d[t] >= 0.0
    ensures V.Sum(d[i..]) >= V.Sum(d[j..])
  {
    assert d[i..] == d[i..j] + d[j..];
    V.SumConcat(d[i..j], d[j..]);
    V.SumNonNegative(d[i..j]);
  }

  /**
   * With the script's discount and rewards that are never negative, as the
   * reward of 1 per step that CartPole pays, the returns never grow along
   * the episode.
   */
  lemma ScriptReturnsNonIncreasing(rewards: V.Vector)
    requires forall t :: 0 <= t < |rewards| ==> rewards[t] >= 0.0
    ensures var c := CumulativeReturns(DiscountedRewards(rewards, DISCOUNT));
      forall i, j :: 0 <= i <= j < |c| ==> c[i] >= c[j]
  {
    var d := DiscountedRewards(rewards, DISCOUNT);
    forall t | 0 <= t < |d|
      ensures d[t] >= 0.0
    {
      DiscountedAt(rewards, DISCOUNT, t);
      V.PowBounds(DISCOUNT, t);
    }
    CumulativeNonIncreasing(d);
  }

  /**
   * The discounted return of a reward sequence counted from its own first
   * step: `r[0] + discount * r[1] + discount^2 * r[2] + ...`.
   */
  function Return(rewards: V.Vector, discount: real): real
  {
    if rewards == [] then 0.0 else rewards[0] + discount * Return(rewards[1..], discount)
  }

  /** With `y == a + g * x`, `p * a + (g * p) * x` is `p * y`. */
  lemma FactorOut(p: real, a: real, g: real, x: real, y: real)
    requires y == a + g * x
    ensures p * a + (g * p) * x == p * y
  {
  }

  /**
   * The return with each step's weight carried along instead of factored
   * out: `p * r[0] + (discount * p) * r[1] + (discount^2 * p) * r[2] + ...`.
   */
  function ScaledReturn(rewards: V.Vector, discount: real, p: real): real
  {
    if rewards == [] then 0.0
    else p * rewards[0] + ScaledReturn(rewards[1..], discount, discount * p)
  }

  /** The weighted return from step `t` is its first term plus the rest, one weight further on. */
  lemma ScaledHead(rewards: V.Vector, discount: real, p: real, t: nat)
    requires t < |rewards|
    ensures ScaledReturn(rewards[t..], discount, p)
         == p * rewards[t] + ScaledReturn(rewards[t + 1..], discount, discount * p)
  {
    assert rewards[t..][1..] == rewards[t + 1..];
  }

  /** Carrying the weight `p` along is the same as multiplying the return by it. */
  lemma {:induction false} ScaledReturnIsScaled(rewards: V.Vector, discount: real, p: real)
    ensures ScaledReturn(rewards, discount, p) == p * Return(rewards, discount)
  {
    if rewards != [] {
      ScaledReturnIsScaled(rewards[1..], discount, discount * p);
      FactorOut(p, rewards[0], discount, Return(rewards[1..], discount), Return(rewards, discount));
    }
  }

  /** The discounted suffix sum from step `t` carries the weight `discount^t` from its first step. */
  lemma {:induction false} AnchoredScaled(rewards: V.Vector, discount: real, t: nat)
    requires t <= |rewards|
    ensures V.Sum(DiscountedRewards(rewards, discount)[t..])
         == ScaledReturn(rewards[t..], discount, V.Pow(discount, t))
    decreases |rewards| - t
  {
    var d := DiscountedRewards(rewards, discount);
    if t < |rewards| {
      AnchoredScaled(rewards, discount, t + 1);
      V.PowStep(discount, t);
      DiscountedAt(rewards, discount, t);
      V.SumSuffix(d, t);
      ScaledHead(rewards, discount, V.Pow(discount, t), t);
    } else {
      assert d[t..] == [] && rewards[t..] == [];
    }
  }

  /**
   * The discount stays anchored at the start of the episode: the suffix sum
   * from step `t` is `discount^t` times the return counted from step `t`.
   */
  lemma {:induction false} AnchoredSuffix(rewards: V.Vector, discount: real, t: nat)
    requires t <= |rewards|
    ensures V.Sum(DiscountedRewards(rewards, discount)[t..])
         == V.Pow(discount, t) * Return(rewards[t..], discount)
  {
    AnchoredScaled(rewards, discount, t);
    ScaledReturnIsScaled(rewards[t..], discount, V.Pow(discount, t));
  }

  /**
   * `cumulative_returns[t]` is `DISCOUNT^t` times the usual discounted
   * return from step `t`, not that return itself.
   */
  lemma CumulativeAnchored(rewards: V.Vector, discount: real, t: nat)
    requires t < |rewards|
    ensures CumulativeReturns(DiscountedRewards(rewards, discount))[t]
         == V.Pow(discount, t) * Return(rewards[t..], discount)
  {
    AnchoredSuffix(rewards, discount, t);
  }

  /** Rewards `[1, 1, 1]` with discount 0.5 discount to `[1, 0.5, 0.25]`. */
  lemma ExampleDiscounts(rewards: V.Vector)
    requires rewards == [1.0, 1.0, 1.0]
    ensures DiscountedRewards(rewards, 0.5) == [1.0, 0.5, 0.25]
  {
    var d := DiscountedRewards(rewards, 0.5);
    assert V.Pow(0.5, 1) == 0.5 * V.Pow(0.5, 0);
    assert V.Pow(0.5, 2) == 0.5 * V.Pow(0.5, 1);
    assert d == [1.0, 0.5, 0.25];
  }

  /** Rewards `[1, 1, 1]` with discount 0.5 discount to `[1, 0.5, 0.25]` and return `[1.75, 0.75, 0.25]`. */
  lemma ExampleReturns(rewards: V.Vector)
    requires rewards == [1.0, 1.0, 1.0]
    ensures DiscountedRewards(rewards, 0.5) == [1.0, 0.5, 0.25]
    ensures CumulativeReturns([1.0, 0.5, 0.25]) == [1.75, 0.75, 0.25]
  {
    ExampleDiscounts(rewards);
    var e: V.Vector := [1.0, 0.5, 0.25];
    CumulativeLast(e);
    CumulativeStep(e, 1);
    CumulativeStep(e, 0);
  }

  // ---------------------------------------------------------------------
  // Adv = cumulative_returns - state_values

  /** The advantage of every step: its return minus the critic's value of its state. */
  function Advantage(ret: V.Vector, values: V.Vector): (adv: V.Vector)
    requires |ret| == |values|
    ensures |adv| == |ret|
    ensures forall t :: 0 <= t < |adv| ==> adv[t] == ret[t] - values[t]
  {
    V.Sub(ret, values)
  }

  /** Adding the critic's values back to the advantages recovers the returns. */
  lemma AdvantageRestoresReturns(ret: V.Vector, values: V.Vector)
    requires |ret| == |values|
    ensures V.Add(Advantage(ret, values), values) == ret
  {
  }

  /** A critic that predicts every return exactly leaves no advantage. */
  lemma ExactCriticNoAdvantage(ret: V.Vector)
    ensures forall t :: 0 <= t < |ret| ==> Advantage(ret, ret)[t] == 0.0
  {
  }

  // ---------------------------------------------------------------------
  // loss = -(Adv @ log_probs) / len(rewards)

  /** The advantage-weighted negative log-likelihood, averaged over the `steps` steps. */
  function Loss(adv: V.Vector, logProbs: V.Vector, steps: nat): (l: real)
    requires |adv| == |logProbs|
    requires steps > 0
    ensures l == -V.Sum(V.Mul(adv, logProbs)) / steps as real
  {
    -V.Dot(adv, logProbs) / steps as real
  }

  /**
   * The critic's values enter the loss as a baseline subtracted from the
   * return-weighted loss.
   */
  lemma LossBaseline(ret: V.Vector, values: V.Vector, logProbs: V.Vector, steps: nat)
    requires |ret| == |values| == |logProbs|
    requires steps > 0
    ensures Loss(Advantage(ret, values), logProbs, steps)
         == Loss(ret, logProbs, steps) - Loss(values, logProbs, steps)
  {
    V.DotSubLeft(ret, values, logProbs);
    NegatedQuotients(V.Dot(Advantage(ret, values), logProbs), V.Dot(ret, logProbs),
                     V.Dot(values, logProbs), steps as real);
  }

  /** `-(b - c) / s` is `-b / s - (-c / s)`. */
  lemma NegatedQuotients(a: real, b: real, c: real, s: real)
    requires a == b - c && s != 0.0
    ensures -a / s == -b / s - -c / s
  {
  }

  /** With an exact critic the loss is zero. */
  lemma ExactCriticZeroLoss(ret: V.Vector, logProbs: V.Vector, steps: nat)
    requires |ret| == |logProbs|
    requires steps > 0
    ensures Loss(Advantage(ret, ret), logProbs, steps) == 0.0
  {
    V.DotZeroLeft(Advantage(ret, ret), logProbs);
  }

  /** The loss of one episode, from its rewards, the critic's values and the log probabilities. */
  function EpisodeLoss(rewards: V.Vector, values: V.Vector, logProbs: V.Vector, discount: real)
    : (l: real)
    requires |values| == |rewards| == |logProbs| > 0
    ensures l == -V.Sum(EpisodeTerms(rewards, values, logProbs, discount)) / |rewards| as real
  {
    var ret := CumulativeReturns(DiscountedRewards(rewards, discount));
    EpisodeProducts(rewards, values, logProbs, discount);
    Loss(Advantage(ret, values), logProbs, |rewards|)
  }

  /**
   * Step `t`'s term of the episode's policy-gradient sum: the discounted
   * rewards from `t` on, less the critic's value, times the log probability.
   */
  function EpisodeTerms(rewards: V.Vector, values: V.Vector, logProbs: V.Vector, discount: real)
    : (terms: V.Vector)
    requires |values| == |rewards| == |logProbs|
    ensures |terms| == |rewards|
  {
    var d := DiscountedRewards(rewards, discount);
    seq(|rewards|, t requires 0 <= t < |rewards| =>
      (V.Sum(d[t..]) - values[t]) * logProbs[t])
  }

  /** The products that the loss sums are the episode's terms. */
  lemma EpisodeProducts(rewards: V.Vector, values: V.Vector, logProbs: V.Vector, discount: real)
    requires |values| == |rewards| == |logProbs|
    ensures var ret := CumulativeReturns(DiscountedRewards(rewards, discount));
      V.Mul(Advantage(ret, values), logProbs) == EpisodeTerms(rewards, values, logProbs, discount)
  {
    var d := DiscountedRewards(rewards, discount);
    var ret := CumulativeReturns(d);
    var adv := Advantage(ret, values);
    var products := V.Mul(adv, logProbs);
    var terms := EpisodeTerms(rewards, values, logProbs, discount);
    forall t | 0 <= t < |rewards|
      ensures products[t] == terms[t]
    {
      assert adv[t] == V.Sum(d[t..]) - values[t];
      assert products[t] == adv[t] * logProbs[t];
    }
  }

  /** A critic whose values are the returns gives the episode a zero loss. */
  lemma EpisodeExactCritic(rewards: V.Vector, logProbs: V.Vector, discount: real)
    requires |rewards| == |logProbs| > 0
    ensures var ret := CumulativeReturns(DiscountedRewards(rewards, discount));
      EpisodeLoss(rewards, ret, logProbs, discount) == 0.0
  {
    var ret := CumulativeReturns(DiscountedRewards(rewards, discount));
    ExactCriticZeroLoss(ret, logProbs, |rewards|);
  }

  // ---------------------------------------------------------------------
  // The rollout: while not done, append the state, the reward and the log probability

  /**
   * What one pass of the rollout loop sees besides the state it starts in:
   * the log probability of the action the actor samples, and the successor
   * state, reward and `done` flag that `env.step` answers.
   */
  datatype Outcome = Outcome(logProb: real, succ: V.Vector, reward: real, done: bool)

  /** Some step of the environment ends the episode. */
  predicate Ends(outcomes: seq<Outcome>)
  {
    exists k :: 0 <= k < |outcomes| && outcomes[k].done
  }

  /** The step at which the episode ends: the first one whose `done` is set. */
  function FirstDone(outcomes: seq<Outcome>): (k: nat)
    requires Ends(outcomes)
    ensures k < |outcomes| && outcomes[k].done
    ensures forall j :: 0 <= j < k ==> !outcomes[j].done
  {
    if outcomes[0].done then 0
    else
      assert Ends(outcomes[1..]) by {
        var k :| 0 <= k < |outcomes| && outcomes[k].done;
        assert outcomes[1..][k - 1].done;
      }
      1 + FirstDone(outcomes[1..])
  }

  /**
   * `while not done`, from the state `start` that `env.reset()` returns: one
   * state, one reward and one log probability per step, up to and including
   * the step that ends the episode. Each step acts in the successor state of
   * the step before it. The loop body runs before `done` is first tested
   * true, so an episode has at least one step.
   */
  method Rollout(start: V.Vector, outcomes: seq<Outcome>)
    returns (states: seq<V.Vector>, rewards: V.Vector, logProbs: V.Vector)
    requires Ends(outcomes)
    ensures |states| == |rewards| == |logProbs| == FirstDone(outcomes) + 1
    ensures states[0] == start
    ensures forall t :: 0 < t < |states| ==> states[t] == outcomes[t - 1].succ
    ensures forall t :: 0 <= t < |rewards| ==>
      rewards[t] == outcomes[t].reward && logProbs[t] == outcomes[t].logProb
  {
    var last := FirstDone(outcomes);
    states, rewards, logProbs := [], [], [];
    var s := start;
    var done := false;
    var k := 0;
    while !done
      invariant k <= last + 1
      invariant done <==> k == last + 1
      invariant |states| == |rewards| == |logProbs| == k
      invariant s == if k == 0 then start else outcomes[k - 1].succ
      invariant k > 0 ==> states[0] == start
      invariant forall t :: 0 < t < k ==> states[t] == outcomes[t - 1].succ
      invariant forall t :: 0 <= t < k ==>
        rewards[t] == outcomes[t].reward && logProbs[t] == outcomes[t].logProb
      decreases last + 1 - k
    {
      var o := outcomes[k];
      states := states + [s];
      rewards := rewards + [o.reward];
      logProbs := logProbs + [o.logProb];
      s := o.succ;
      done := o.done;
      k := k + 1;
    }
  }
}
