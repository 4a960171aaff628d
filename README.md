# REPTILE and policy-gradient arithmetic, in Dafny

This project models the numeric core of two reinforcement-learning experiment
scripts from `rl_implementations`, and proves properties of that model.

- **REPTILE** (`reptile/main.py`) is a first-order meta-learning loop.
  - Each meta-iteration dispatches `meta_batch_size` task-local SGD runs that all start from the meta-weights.
  - It then moves the meta-weights toward the weights those runs return:
    `meta += (META_LR / epochs) * sum((w - meta for w in weights), 0 * meta)`.
  - The script repeats this for `META_EPOCHS` iterations.
  - The `shuffle` helper reorders several tensors by one random permutation, optionally cut to `length` entries.
- **Policy gradient** (`pg/main.py`) is an actor-critic script.
  - One episode is rolled out until the environment says `done`.
  - The rewards are discounted by `DISCOUNT ** t`, and suffix-summed into cumulative returns by `G`.
  - The critic's state values are subtracted to give advantages.
  - The loss is `-(Adv @ log_probs) / len(rewards)`.

Modules:

- `Wrappers`: `Option` and `Result`.
- `Vectors`: `seq<real>` tensors, with `Sum`, Python's left-fold `sum`, element-wise `Add`/`Sub`/`Scale`/`Mul`, `Dot` and `Pow`.
- `PySlice`: Python's `s[start:end]`. A missing bound is `None`, negative bounds count from the end, and bounds are clamped.
- `ParamDict`: a weight dictionary `map<string, seq<real>>`, with the key-by-key vector-space operations the REPTILE script uses. Python's `sum(gen, start)` is a left fold.
- `Reptile`: covers `reptile/main.py`.
  - One meta-update (`Combine`) and one iteration (`Iteration`).
  - The main loop (`MetaTrain`, an imperative `for` loop proved against `Run`).
  - `Shuffle`.
- `PolicyGradient`: covers `pg/main.py`.
  - `G`, the discounted rewards, the cumulative returns, the advantages and the loss.
  - The rollout loop (`Rollout`, an imperative `while` loop).

## Model

| member | source | states |
|---|---|---|
| PySlice.Slice | pg/main.py:44 | `s[start:end]` is the run between the normalised bounds. Both bounds `None` gives the whole sequence. An in-range start with no end gives the suffix. The slice is never longer than `s`. |
| PySlice.Bound | reptile/main.py:42 | Normalises a slice bound. `None` gives the default. A non-negative bound is clamped to the length. A negative bound counts from the end and is clamped at 0. |
| Vectors.FoldSum | pg/main.py:44 | Python's left-to-right `sum(s, start)` equals `start` plus the sum of the entries. |
| Vectors.SumSuffix | pg/main.py:44 | A suffix sum is its first entry plus the suffix sum after it. |
| Vectors.Dot | pg/main.py:79 | `x @ y` is the sum of the element-wise products. |
| Vectors.PowBounds | pg/main.py:66 | `1 ** n == 1`. A power of a non-negative base is non-negative. A power of a base in `[0, 1]` is at most 1. |
| Vectors.SumConcat | pg/main.py:44 | A sum over a concatenation is the sum of the two sums. |
| ParamDict.Add | reptile/main.py:137 | `a + b` keeps the keys and tensor shapes, and each entry is the sum of the two entries. |
| ParamDict.Sub | reptile/main.py:138 | `w - meta` keeps the keys and shapes, and each entry is the difference. |
| ParamDict.Scale | reptile/main.py:137 | `c * a` keeps the keys and shapes, and each entry is multiplied by `c`. |
| ParamDict.Zero | reptile/main.py:138 | `0 * meta` has the keys and shapes of `meta`, and every entry is 0. |
| ParamDict.ZeroIsIdentity | reptile/main.py:134-138 | `0 * meta` is an identity for `+` on every dictionary of the shape of `meta`. |
| ParamDict.Sum | reptile/main.py:137-139 | Python's `sum(ws, start)`, a left fold of `+`, keeps the shape of `start`. Its entries are given by `SumAt`. |
| ParamDict.SumAt | reptile/main.py:137-139 | The left fold `sum(ws, start)` adds, entry by entry, the column of that entry to `start`. |
| ParamDict.SumSingleton | reptile/main.py:137-139 | `sum([w], start) == start + w`. |
| ParamDict.AddCommutes | reptile/main.py:137 | `a + b == b + a`. |
| ParamDict.SubUndoesAdd | reptile/main.py:137-138 | `(a + b) - b == a`. |
| ParamDict.SubSelf | reptile/main.py:138 | `a - a` is the zero dictionary `0 * a`. |
| Reptile.TaskCount | reptile/main.py:130 | `range(meta_batch_size)` dispatches `meta_batch_size` tasks, or none when it is negative. |
| Reptile.Gather | reptile/main.py:129-132 | Exactly one result per dispatched task is gathered, in dispatch order. |
| Reptile.Deltas | reptile/main.py:138 | The generator yields one `w - meta` per gathered weight set, in order. |
| Reptile.TryDeltasSpec | reptile/main.py:138 | The generator `(w - meta_weights for w in weights)` on arbitrary gathered weights succeeds if and only if every weight set has meta's keys and shapes, and then yields exactly `Deltas`. |
| Reptile.Total | reptile/main.py:137-139 | `sum((w - meta for w in weights), 0 * meta)` has the shape of `meta`. Its entries are given by `TotalAt`. |
| Reptile.TotalAt | reptile/main.py:137-139 | Entry by entry, the summed deltas are the sum over tasks of `w[k][j] - meta[k][j]`. |
| Reptile.TotalTensor | reptile/main.py:137-139 | Tensor by tensor, the summed deltas are the vector of those sums. |
| Reptile.StepSize | reptile/main.py:137 | `META_LR / epochs` is the factor `c` with `c * epochs == META_LR`. It is positive for a positive `epochs` and equals `META_LR` for the script's `EPOCHS`. |
| Reptile.Combine | reptile/main.py:137-140 | The update fails (`ZeroDivisionError`) if and only if `epochs == 0`. Otherwise the result has the shape of `meta`. |
| Reptile.CombineAt | reptile/main.py:137-139 | Closed form: tensor `k` becomes `meta[k] + (META_LR/epochs) * Σ_i (ws[i][k] - meta[k])`. |
| Reptile.Iteration | reptile/main.py:125-140 | One REPTILE call fails if and only if `epochs == 0`, and it keeps the shape of the meta-weights. |
| Reptile.IterationAt | reptile/main.py:125-140 | Closed form of one iteration over exactly `TaskCount(meta_batch_size)` gathered results. |
| Reptile.EmptyBatchIsNoOp | reptile/main.py:129-139 | For a non-zero `epochs` and `meta_batch_size <= 0`, no results are gathered, the generator sum is exactly `0 * meta` (`Total(meta, []) == Zero(meta)`), and the meta-weights come back unchanged. |
| Reptile.CombineFixedPoint | reptile/main.py:137-139 | For a non-zero `epochs`, if every returned weight set equals `meta`, the update returns `meta`. |
| Reptile.FixedPoint | reptile/main.py:125-140 | For a non-zero `epochs`, if every task returns the meta-weights, one iteration is a fixed point. |
| Reptile.ExampleUpdate | reptile/main.py:137-139 | The worked example: meta `[1]`, weights `[3]` and `[5]`, one epoch, gives `[1.6]`. |
| Reptile.Step | reptile/main.py:172 | `REPTILE(P(meta_weights))` with training that keeps shapes yields weights of the same shape. |
| Reptile.Stepper | reptile/main.py:170-172 | The loop body, as a function of the weights and the iteration number, keeps shapes. |
| Reptile.RunKeepsShape | reptile/main.py:170-172 | Any number of shape-keeping iterations keeps the shape of the initial weights. |
| Reptile.RunFixedPoint | reptile/main.py:170-172 | Iterating a step that leaves every weight set unchanged leaves the initial weights unchanged. |
| Reptile.MetaTrain | reptile/main.py:170-172 | The loop `for iteration in range(1, n + 1): meta = step(meta, iteration)` ends with `Run(init, n, step)` in the shape of `init`. |
| Reptile.ScriptKeepsShape | reptile/main.py:170-172 | The script's own run, `META_EPOCHS` iterations with `META_BATCH_SIZE` and `EPOCHS`, ends with weights of the initial model's shape. |
| Reptile.StepFixedPoint | reptile/main.py:172 | For a non-zero `epochs`, an iteration whose tasks return their starting weights changes nothing. |
| Reptile.TrainedFixedPoint | reptile/main.py:170-172 | For a non-zero `epochs`, if training never moves a task's weights, the whole main loop ends where it began. |
| Reptile.Select | reptile/main.py:44 | `tensor[perm]` has one element per index, and element `j` is `tensor[perm[j]]`. |
| Reptile.Shuffle | reptile/main.py:36-44 | An empty argument list fails (no `tensors[0]`). Otherwise it succeeds exactly when every kept index `perm[:length]` is in range for every tensor, as `tensor[perm]` raises otherwise; in particular every tensor at least as long as the first gives success. On success there is one output per input. Each output has length `Bound(n, length, n)`, that is `min` with Python slice clamping, and the full length when `length` is `None`. Output `i` at `j` is `tensors[i][perm[j]]`, with the same `perm` for all. |
| Reptile.SelectPermutation | reptile/main.py:42-44 | Indexing by a whole permutation rearranges the tensor (multiset equality). |
| Reptile.ShuffleReorders | reptile/main.py:36-44 | Each output's elements are a sub-multiset of its input's. They are all of them when `length` is `None` or at least the length. |
| PolicyGradient.G | pg/main.py:43-44 | `G` is the sum of the Python slice `rewards[start:end]`, and 0 when the slice is empty. |
| PolicyGradient.GRange | pg/main.py:43-44 | For in-range bounds, `G` is the sum of `rewards[start..end]`, or of `rewards[start..]` for `end=None`. |
| PolicyGradient.GEmpty | pg/main.py:43-44 | A slice that starts at or after its end, or past the sequence, sums to 0. |
| PolicyGradient.GSuffix | pg/main.py:43-44 | `G(r, t) == r[t] + G(r, t+1)`. |
| PolicyGradient.GEnd | pg/main.py:43-44 | `G(r, len(r)) == 0`. |
| PolicyGradient.DiscountedRewards | pg/main.py:66 | Same length as the rewards, and element `t` is `DISCOUNT^t * r_t`. |
| PolicyGradient.UndiscountedRewards | pg/main.py:66 | With discount 1 the rewards are unchanged. |
| PolicyGradient.CumulativeReturns | pg/main.py:67-69 | Same length, and element `t` is the sum of the discounted rewards from `t` to the end. |
| PolicyGradient.CumulativeFirst | pg/main.py:67-69 | Element 0 is the whole episode's discounted reward. |
| PolicyGradient.CumulativeLast | pg/main.py:67-69 | The last element is the last discounted reward. |
| PolicyGradient.CumulativeStep | pg/main.py:67-69 | `c[t] == d[t] + c[t+1]`. |
| PolicyGradient.CumulativeNonIncreasing | pg/main.py:67-69 | With non-negative discounted rewards, the returns never grow along the episode. |
| PolicyGradient.ScriptReturnsNonIncreasing | pg/main.py:66-69 | With the default discount 0.9999 and rewards that are never negative, the cumulative returns never grow along the episode. |
| PolicyGradient.AnchoredSuffix | pg/main.py:66-69 | The suffix sum of the discounted rewards from `t` is `DISCOUNT^t` times the textbook return from `t`. |
| PolicyGradient.CumulativeAnchored | pg/main.py:66-69 | `cumulative_returns[t] == DISCOUNT^t * Σ_k DISCOUNT^k r_{t+k}`. The discount stays anchored at the episode start. |
| PolicyGradient.ExampleReturns | pg/main.py:66-69 | Rewards `[1,1,1]` with discount 0.5 give `[1, 0.5, 0.25]` and returns `[1.75, 0.75, 0.25]`. |
| PolicyGradient.Advantage | pg/main.py:75 | Same length, and element `t` is `R_t - V(s_t)`. |
| PolicyGradient.AdvantageRestoresReturns | pg/main.py:75 | Adding the critic's values back to the advantages recovers the returns. |
| PolicyGradient.ExactCriticNoAdvantage | pg/main.py:75 | A critic equal to the returns gives zero advantage at every step. |
| PolicyGradient.Loss | pg/main.py:79 | `-(Adv @ log_probs) / len(rewards)` is minus the sum of the products of advantage and log probability, divided by the episode length. |
| PolicyGradient.LossBaseline | pg/main.py:75-79 | The loss with advantages is the return-weighted loss minus the value-weighted loss (the critic as a baseline). |
| PolicyGradient.ExactCriticZeroLoss | pg/main.py:75-79 | With an exact critic the loss is 0. |
| PolicyGradient.EpisodeLoss | pg/main.py:66-79 | An episode's loss is minus the sum over steps of (discounted rewards from that step on, less the critic's value) times the log probability, divided by the episode length. |
| PolicyGradient.EpisodeExactCritic | pg/main.py:66-79 | An episode whose critic values equal its cumulative returns has a zero loss. |
| PolicyGradient.FirstDone | pg/main.py:53-58 | The episode ends at the first step whose `done` is set. |
| PolicyGradient.Rollout | pg/main.py:50-64 | The rollout records steps up to and including the first `done`, so at least one. The first state is the reset state, and each later state is the previous step's successor. The rewards and log probabilities are those of each step. |

## Left out

- Neural networks, SGD and Adam training, `loss.backward()`, evaluation, and the `state_dict` plumbing are left out. In REPTILE, what task-local training returns is the parameter `trained`, or `trainer` for the main loop. The only thing assumed of it is that it keeps the weights' keys and shapes.
- The remote task pool (`ray.remote`/`ray.get`, `ray.init`) is left out. Its results are the `trained` function, gathered in dispatch order.
- Randomness is left out: `randperm`, `gen_task`'s amplitude and phase, and the actor's `Categorical` sampling. The permutation of `shuffle` is the parameter `perm`, and each environment step's outcome is a parameter of `Rollout`.
- The gym environment and the critic network are left out. Their answers are the rollout's `Outcome`s and the `values` vector.
- Plotting, file output, `argparse`, the `pudb` breakpoint and `print` are left out. They have no effect on the arithmetic.
- Floating point is left out: every tensor entry, reward and return is a `real`.
  - Python's left-to-right `sum` is modelled exactly (`Vectors.FoldSum`, `ParamDict.Sum`).
  - Real addition is associative, so rounding order does not matter here.
- Tensors are flattened to one dimension. A tensor's shape is its length.
- Since `utils.ParamDict` is not part of this model, a key or shape mismatch is modelled as an error (`ShapeMismatch`). Torch's broadcasting of a size-1 tensor against a longer one is not modelled.
- `meta_weights + ...` at reptile/main.py:137 has no error path in the model. `Combine` requires gathered weights of meta's shape, and the mismatch case is covered only on the `w - meta_weights` path (`TryDeltas`).
- `utils.ParamDict` is not part of this model. Its operations are modelled from how the script uses them: key-by-key and element-by-element, on matching keys and shapes.
- `meta_weights +=` is modelled as producing a new value. In-place aliasing of the dictionary passed in is not modelled.
- Reptile.MetaTrain: this member is stated for any shape-keeping step. The script's step is `Stepper(META_BATCH_SIZE, EPOCHS, trainer)` run for `META_EPOCHS`. Its per-iteration closed form is `IterationAt` and is not repeated inside the loop contract.
- The evaluation every `PLOT_EVERY` iterations (fine-tuning a copy of the model on the plot points) is left out. It does not change the meta-weights.
- PolicyGradient.Rollout: it requires that some step ends the episode. An environment that never sets `done` makes the script loop forever, and that case is not modelled.
- PolicyGradient.Loss: it requires a non-empty episode. `torch.stack` of an empty list raises, and the loop always runs at least once.
- The outer episode loop and the optimiser step per episode are left out. They only repeat the rollout-and-loss computation.
