/**
 * The arithmetic of the REPTILE meta-learning driver: one meta-iteration
 * combines the weights that `meta_batch_size` task-local training runs return
 * into new meta-weights, and `shuffle` reorders several equal-length tensors
 * by one permutation.
 *
 * Task-local training (SGD on a random sine-wave task, dispatched through a
 * remote task pool) is foreign code; its results enter as the parameter
 * `trained`, one weight dictionary per task index. The random permutation of
 * `shuffle` enters as the parameter `perm`.
 */
module Reptile {
  import opened Wrappers
  import opened PySlice
  import V = Vectors
  import P = ParamDict

  const META_LR: real := 0.1
  const META_BATCH_SIZE: int := 3
  const EPOCHS: int := 1
  const META_EPOCHS: nat := 30000

  /**
   * The exceptions the driver's arithmetic can raise: `META_LR / epochs` with
   * a zero `epochs`, and indexing past the end of a sequence.
   */
  datatype Error = ZeroDivisionError | IndexError

  /** How many tasks `range(metaBatchSize)` dispatches. */
  function TaskCount(metaBatchSize: int): (n: nat)
    ensures metaBatchSize >= 0 ==> n == metaBatchSize
    ensures metaBatchSize < 0 ==> n == 0
  {
    if metaBatchSize < 0 then 0 else metaBatchSize
  }

  /** The gathered task results: one per dispatched task, in dispatch order. */
  function Gather(metaBatchSize: int, trained: nat -> P.Params): (ws: seq<P.Params>)
    ensures |ws| == TaskCount(metaBatchSize)
    ensures forall i :: 0 <= i < |ws| ==> ws[i] == trained(i)
  {
    seq(TaskCount(metaBatchSize), i requires 0 <= i < TaskCount(metaBatchSize) => trained(i))
  }

  /** The generator `(w - meta_weights for w in weights)`. */
  function Deltas(ws: seq<P.Params>, meta: P.Params): (ds: seq<P.Params>)
    requires P.AllSameShape(ws, meta)
    ensures |ds| == |ws| && P.AllSameShape(ds, meta)
    ensures forall i :: 0 <= i < |ds| ==> ds[i] == P.Sub(ws[i], meta)
  {
    seq(|ws|, i requires 0 <= i < |ws| => P.Sub(ws[i], meta))
  }

  /**
   * The same generator on arbitrary gathered weights, each `w - meta_weights`
   * taken with `TrySub`: the first mismatched weight set fails the whole sum.
   */
  function TryDeltas(ws: seq<P.Params>, meta: P.Params): Result<seq<P.Params>, P.ShapeError>
  {
    if ws == [] then Ok([])
    else
      match P.TrySub(ws[0], meta)
      case Err(e) => Err(e)
      case Ok(d) =>
        match TryDeltas(ws[1..], meta)
        case Err(e) => Err(e)
        case Ok(rest) => Ok([d] + rest)
  }

  /** The generator succeeds exactly on weights of meta's shape, and then gives `Deltas`. */
  lemma {:induction false} TryDeltasSpec(ws: seq<P.Params>, meta: P.Params)
    ensures TryDeltas(ws, meta).Ok? <==> P.AllSameShape(ws, meta)
    ensures TryDeltas(ws, meta).Ok? ==> TryDeltas(ws, meta).value == Deltas(ws, meta)
  {
    if ws != [] {
      TryDeltasSpec(ws[1..], meta);
      AllSameShapeCons(ws, meta);
      if P.AllSameShape(ws, meta) {
        DeltasCons(ws, meta);
      }
    }
  }

  /** Weights have meta's shape exactly when the first and all the rest do. */
  lemma AllSameShapeCons(ws: seq<P.Params>, meta: P.Params)
    requires ws != []
    ensures P.AllSameShape(ws, meta) <==> P.SameShape(ws[0], meta) && P.AllSameShape(ws[1..], meta)
  {
    if P.SameShape(ws[0], meta) && P.AllSameShape(ws[1..], meta) {
      forall i | 0 < i < |ws|
        ensures P.SameShape(ws[i], meta)
      {
        assert ws[i] == ws[1..][i - 1];
      }
    }
  }

  /** The deltas of a non-empty batch are the first delta followed by the rest. */
  lemma DeltasCons(ws: seq<P.Params>, meta: P.Params)
    requires ws != [] && P.AllSameShape(ws, meta)
    ensures P.AllSameShape(ws[1..], meta)
    ensures Deltas(ws, meta) == [P.Sub(ws[0], meta)] + Deltas(ws[1..], meta)
  {
    AllSameShapeCons(ws, meta);
    var ds := [P.Sub(ws[0], meta)] + Deltas(ws[1..], meta);
    forall i | 0 <= i < |ws|
      ensures ds[i] == Deltas(ws, meta)[i]
    {
      if i > 0 {
        assert ws[1..][i - 1] == ws[i];
      }
    }
  }

  /** `sum((w - meta_weights for w in weights), 0 * meta_weights)`. */
  function Total(meta: P.Params, ws: seq<P.Params>): (t: P.Params)
    requires P.AllSameShape(ws, meta)
    ensures P.SameShape(t, meta)
  {
    P.Sum(Deltas(ws, meta), P.Zero(meta))
  }

  /** How far entry `j` of tensor `k` of each weight set lies from the meta entry. */
  function Pulls(meta: P.Params, ws: seq<P.Params>, k: string, j: nat): (c: V.Vector)
    requires P.AllSameShape(ws, meta)
    requires k in meta && j < |meta[k]|
    ensures |c| == |ws|
    ensures forall i :: 0 <= i < |ws| ==> c[i] == ws[i][k][j] - meta[k][j]
  {
    seq(|ws|, i requires 0 <= i < |ws| => ws[i][k][j] - meta[k][j])
  }

  /**
   * For tensor `k`: entry by entry, the sum over all weight sets of how far
   * that weight set's entry lies from the meta entry.
   */
  function PullSums(meta: P.Params, ws: seq<P.Params>, k: string): (t: V.Vector)
    requires P.AllSameShape(ws, meta)
    requires k in meta
    ensures |t| == |meta[k]|
    ensures forall j :: 0 <= j < |t| ==> t[j] == V.Sum(Pulls(meta, ws, k, j))
  {
    seq(|meta[k]|, j requires 0 <= j < |meta[k]| => V.Sum(Pulls(meta, ws, k, j)))
  }

  /** Entry by entry, the total is the sum of the pulls of all weight sets. */
  lemma TotalAt(meta: P.Params, ws: seq<P.Params>, k: string, j: nat)
    requires P.AllSameShape(ws, meta)
    requires k in meta && j < |meta[k]|
    ensures k in Total(meta, ws) && j < |Total(meta, ws)[k]|
    ensures Total(meta, ws)[k][j] == V.Sum(Pulls(meta, ws, k, j))
  {
    var ds := Deltas(ws, meta);
    P.SumAt(ds, P.Zero(meta), k, j);
    DeltaColumn(meta, ws, k, j);
  }

  /** Entry `j` of tensor `k` across the deltas is the column of pulls. */
  lemma DeltaColumn(meta: P.Params, ws: seq<P.Params>, k: string, j: nat)
    requires P.AllSameShape(ws, meta)
    requires k in meta && j < |meta[k]|
    ensures P.Column(Deltas(ws, meta), k, j) == Pulls(meta, ws, k, j)
  {
    var ds := Deltas(ws, meta);
    forall i | 0 <= i < |ds|
      ensures P.Column(ds, k, j)[i] == Pulls(meta, ws, k, j)[i]
    {
      assert ds[i] == P.Sub(ws[i], meta);
    }
  }

  /** Tensor by tensor, the total is the vector of pull sums. */
  lemma TotalTensor(meta: P.Params, ws: seq<P.Params>, k: string)
    requires P.AllSameShape(ws, meta)
    requires k in meta
    ensures k in Total(meta, ws)
    ensures Total(meta, ws)[k] == PullSums(meta, ws, k)
  {
    var total := Total(meta, ws);
    forall j | 0 <= j < |meta[k]|
      ensures total[k][j] == PullSums(meta, ws, k)[j]
    {
      TotalAt(meta, ws, k, j);
    }
  }

  /** The factor `META_LR / epochs` that the total is scaled by. */
  function StepSize(epochs: int): (c: real)
    requires epochs != 0
    ensures epochs > 0 ==> c > 0.0
    ensures epochs == EPOCHS ==> c == META_LR
    ensures c * epochs as real == META_LR
  {
    META_LR / epochs as real
  }

  /**
   * `meta_weights += (META_LR / epochs) * sum(...)` over the gathered
   * weights; a zero `epochs` raises instead.
   */
  function Combine(meta: P.Params, ws: seq<P.Params>, epochs: int): (r: Result<P.Params, Error>)
    requires P.AllSameShape(ws, meta)
    ensures r.Err? <==> epochs == 0
    ensures r.Ok? ==> P.SameShape(r.value, meta)
  {
    if epochs == 0 then Err(ZeroDivisionError)
    else Ok(P.Add(meta, P.Scale(StepSize(epochs), Total(meta, ws))))
  }

  /**
   * The closed form of the update, tensor by tensor: tensor `k` becomes
   * `meta[k] + (META_LR / epochs) * sum_i (ws[i][k] - meta[k])`.
   */
  lemma CombineAt(meta: P.Params, ws: seq<P.Params>, epochs: int, k: string)
    requires P.AllSameShape(ws, meta)
    requires epochs != 0
    requires k in meta
    ensures Combine(meta, ws, epochs).value[k]
         == V.Add(meta[k], V.Scale(StepSize(epochs), PullSums(meta, ws, k)))
  {
    var total := Total(meta, ws);
    var moved := P.Scale(StepSize(epochs), total);
    assert Combine(meta, ws, epochs).value == P.Add(meta, moved);
    assert P.Add(meta, moved)[k] == V.Add(meta[k], moved[k]);
    assert moved[k] == V.Scale(StepSize(epochs), total[k]);
    TotalTensor(meta, ws, k);
  }

  /** Every task returns weights of the meta-weights' architecture. */
  predicate ShapedLike(trained: nat -> P.Params, n: nat, meta: P.Params)
  {
    forall i :: 0 <= i < n ==> P.SameShape(trained(i), meta)
  }

  /** One iteration of REPTILE: gather one trained weight set per task, then combine. */
  function Iteration(meta: P.Params, metaBatchSize: int, epochs: int, trained: nat -> P.Params)
    : (r: Result<P.Params, Error>)
    requires ShapedLike(trained, TaskCount(metaBatchSize), meta)
    ensures r.Err? <==> epochs == 0
    ensures r.Ok? ==> P.SameShape(r.value, meta)
  {
    var ws := Gather(metaBatchSize, trained);
    assert P.AllSameShape(ws, meta);
    Combine(meta, ws, epochs)
  }

  /**
   * The closed form of one iteration: tensor `k` moves by `META_LR / epochs`
   * times the summed pulls of exactly the dispatched tasks.
   */
  lemma IterationAt(meta: P.Params, metaBatchSize: int, epochs: int, trained: nat -> P.Params,
                    k: string)
    requires ShapedLike(trained, TaskCount(metaBatchSize), meta)
    requires epochs != 0
    requires k in meta
    ensures var ws := Gather(metaBatchSize, trained);
      |ws| == TaskCount(metaBatchSize) && P.AllSameShape(ws, meta) &&
      Iteration(meta, metaBatchSize, epochs, trained).value[k]
        == V.Add(meta[k], V.Scale(StepSize(epochs), PullSums(meta, ws, k)))
  {
    var ws := Gather(metaBatchSize, trained);
    assert P.AllSameShape(ws, meta);
    assert Iteration(meta, metaBatchSize, epochs, trained) == Combine(meta, ws, epochs);
    CombineAt(meta, ws, epochs, k);
  }

  /** `x + c * z` is `x` when every entry of `z` is zero. */
  lemma AddScaledZeros(x: V.Vector, c: real, z: V.Vector)
    requires |z| == |x|
    requires forall j :: 0 <= j < |z| ==> z[j] == 0.0
    ensures V.Add(x, V.Scale(c, z)) == x
  {
  }

  /** Weight sets equal to the meta-weights pull them nowhere. */
  lemma NoPull(meta: P.Params, ws: seq<P.Params>, k: string)
    requires forall i :: 0 <= i < |ws| ==> ws[i] == meta
    requires k in meta
    ensures P.AllSameShape(ws, meta)
    ensures forall j :: 0 <= j < |meta[k]| ==> PullSums(meta, ws, k)[j] == 0.0
  {
    forall j | 0 <= j < |meta[k]|
      ensures PullSums(meta, ws, k)[j] == 0.0
    {
      V.SumZeros(Pulls(meta, ws, k, j));
    }
  }

  /** A tensor whose pulls all sum to zero is left where it is. */
  lemma StaysPut(meta: P.Params, metaBatchSize: int, epochs: int, trained: nat -> P.Params,
                 k: string)
    requires ShapedLike(trained, TaskCount(metaBatchSize), meta)
    requires epochs != 0
    requires k in meta
    requires forall j :: 0 <= j < |meta[k]| ==>
      PullSums(meta, Gather(metaBatchSize, trained), k)[j] == 0.0
    ensures Iteration(meta, metaBatchSize, epochs, trained).value[k] == meta[k]
  {
    IterationAt(meta, metaBatchSize, epochs, trained, k);
    var ws := Gather(metaBatchSize, trained);
    AddScaledZeros(meta[k], StepSize(epochs), PullSums(meta, ws, k));
  }

  /** With no tasks the sum is just `0 * meta` and the meta-weights are unchanged. */
  lemma EmptyBatchIsNoOp(meta: P.Params, metaBatchSize: int, epochs: int, trained: nat -> P.Params)
    requires metaBatchSize <= 0
    requires epochs != 0
    ensures Gather(metaBatchSize, trained) == []
    ensures Total(meta, Gather(metaBatchSize, trained)) == P.Zero(meta)
    ensures Iteration(meta, metaBatchSize, epochs, trained) == Ok(meta)
  {
    var r := Iteration(meta, metaBatchSize, epochs, trained);
    var ws := Gather(metaBatchSize, trained);
    assert r.value.Keys == meta.Keys;
    forall k | k in meta
      ensures r.value[k] == meta[k]
    {
      forall j | 0 <= j < |meta[k]|
        ensures PullSums(meta, ws, k)[j] == 0.0
      {
        assert Pulls(meta, ws, k, j) == [];
      }
      StaysPut(meta, metaBatchSize, epochs, trained, k);
    }
    assert r.value == meta;
  }

  /** When every weight set equals the meta-weights, the update leaves them unchanged. */
  lemma CombineFixedPoint(meta: P.Params, ws: seq<P.Params>, epochs: int)
    requires forall i :: 0 <= i < |ws| ==> ws[i] == meta
    requires epochs != 0
    ensures P.AllSameShape(ws, meta)
    ensures Combine(meta, ws, epochs) == Ok(meta)
  {
    var r := Combine(meta, ws, epochs);
    assert r.value.Keys == meta.Keys;
    forall k | k in meta
      ensures r.value[k] == meta[k]
    {
      NoPull(meta, ws, k);
      CombineAt(meta, ws, epochs, k);
      AddScaledZeros(meta[k], StepSize(epochs), PullSums(meta, ws, k));
    }
    assert r.value == meta;
  }

  /** When every task returns the meta-weights, the meta-weights are a fixed point. */
  lemma FixedPoint(meta: P.Params, metaBatchSize: int, epochs: int, trained: nat -> P.Params)
    requires forall i :: 0 <= i < TaskCount(metaBatchSize) ==> trained(i) == meta
    requires epochs != 0
    ensures Iteration(meta, metaBatchSize, epochs, trained) == Ok(meta)
  {
    var ws := Gather(metaBatchSize, trained);
    CombineFixedPoint(meta, ws, epochs);
    assert Iteration(meta, metaBatchSize, epochs, trained) == Combine(meta, ws, epochs);
  }

  /** The update of one worked example: 1 + 0.1 * ((3 - 1) + (5 - 1)) = 1.6. */
  lemma ExampleUpdate(meta: P.Params, ws: seq<P.Params>)
    requires meta == map["w" := [1.0]]
    requires ws == [map["w" := [3.0]], map["w" := [5.0]]]
    ensures P.AllSameShape(ws, meta)
    ensures Combine(meta, ws, 1) == Ok(map["w" := [1.6]])
  {
    ExamplePulls(meta, ws);
    var r := Combine(meta, ws, 1);
    CombineAt(meta, ws, 1, "w");
    assert V.Add([1.0], V.Scale(StepSize(1), [6.0])) == [1.6];
    assert r.value.Keys == {"w"};
    assert r.value == map["w" := [1.6]];
  }

  /** The pulls of the worked example sum to (3 - 1) + (5 - 1) = 6. */
  lemma ExamplePulls(meta: P.Params, ws: seq<P.Params>)
    requires meta == map["w" := [1.0]]
    requires ws == [map["w" := [3.0]], map["w" := [5.0]]]
    ensures P.AllSameShape(ws, meta)
    ensures PullSums(meta, ws, "w") == [6.0]
  {
    assert P.AllSameShape(ws, meta);
    var pulls := Pulls(meta, ws, "w", 0);
    assert pulls == [2.0, 4.0];
    assert pulls[1..] == [4.0] && pulls[1..][1..] == [];
    assert V.Sum([4.0]) == 4.0 + V.Sum([]);
    assert V.Sum(pulls) == 2.0 + V.Sum([4.0]);
  }

  // ---------------------------------------------------------------------
  // The main loop: `meta_weights = REPTILE(P(meta_weights))`, META_EPOCHS times

  /**
   * Task-local training keeps the shape of the weights it starts from: the
   * model's `state_dict()` has the keys and tensor sizes of the weights the
   * model was built from. `trainer(iteration, i, meta)` is what task `i` of
   * that iteration returns.
   */
  ghost predicate KeepsShape(trainer: (nat, nat, P.Params) -> P.Params)
  {
    forall it, i, w :: P.SameShape(trainer(it, i, w), w)
  }

  /**
   * Iteration `iteration` of the main loop, from the meta-weights `meta`:
   * `REPTILE(meta, metaBatchSize, epochs)`. The script itself passes the
   * defaults META_BATCH_SIZE and EPOCHS.
   */
  function Step(meta: P.Params, iteration: nat, metaBatchSize: int, epochs: int,
                trainer: (nat, nat, P.Params) -> P.Params): (next: P.Params)
    requires KeepsShape(trainer)
    requires epochs != 0
    ensures P.SameShape(next, meta)
  {
    var r := Iteration(meta, metaBatchSize, epochs, (i: nat) => trainer(iteration, i, meta));
    r.value
  }

  /** One iteration of the main loop as a function of the meta-weights and the iteration number. */
  function Stepper(metaBatchSize: int, epochs: int, trainer: (nat, nat, P.Params) -> P.Params)
    : (step: (P.Params, nat) -> P.Params)
    requires KeepsShape(trainer)
    requires epochs != 0
    ensures forall meta, iteration :: P.SameShape(step(meta, iteration), meta)
  {
    (meta: P.Params, iteration: nat) => Step(meta, iteration, metaBatchSize, epochs, trainer)
  }

  /** The weights after `n` iterations of `step`, numbered from 1, starting from `init`. */
  function Run(init: P.Params, n: nat, step: (P.Params, nat) -> P.Params): P.Params
  {
    if n == 0 then init else step(Run(init, n - 1, step), n)
  }

  /** A step that keeps the shape of its weights keeps it over any number of iterations. */
  lemma {:induction false} RunKeepsShape(init: P.Params, n: nat, step: (P.Params, nat) -> P.Params)
    requires forall meta, iteration :: P.SameShape(step(meta, iteration), meta)
    ensures P.SameShape(Run(init, n, step), init)
  {
    if n > 0 {
      RunKeepsShape(init, n - 1, step);
    }
  }

  /** A step that leaves every weight set where it is leaves `init` where it is. */
  lemma {:induction false} RunFixedPoint(init: P.Params, n: nat, step: (P.Params, nat) -> P.Params)
    requires forall meta, iteration :: step(meta, iteration) == meta
    ensures Run(init, n, step) == init
  {
    if n > 0 {
      RunFixedPoint(init, n - 1, step);
    }
  }

  /**
   * The main loop `for iteration in range(1, iterations + 1)`, each iteration
   * replacing the meta-weights by `step(meta_weights, iteration)`. The script
   * runs it for META_EPOCHS iterations of
   * `Stepper(META_BATCH_SIZE, EPOCHS, trainer)`, one REPTILE call each.
   */
  method MetaTrain(init: P.Params, iterations: nat, step: (P.Params, nat) -> P.Params)
    returns (meta: P.Params)
    requires forall m, iteration :: P.SameShape(step(m, iteration), m)
    ensures meta == Run(init, iterations, step)
    ensures P.SameShape(meta, init)
  {
    meta := init;
    for iteration := 1 to iterations + 1
      invariant meta == Run(init, iteration - 1, step)
    {
      meta := step(meta, iteration);
    }
    RunKeepsShape(init, iterations, step);
  }

  /**
   * The script's own run: META_EPOCHS iterations of REPTILE with the default
   * META_BATCH_SIZE and EPOCHS end with weights of the initial model's shape.
   */
  lemma ScriptKeepsShape(init: P.Params, trainer: (nat, nat, P.Params) -> P.Params)
    requires KeepsShape(trainer)
    ensures P.SameShape(Run(init, META_EPOCHS, Stepper(META_BATCH_SIZE, EPOCHS, trainer)), init)
  {
    RunKeepsShape(init, META_EPOCHS, Stepper(META_BATCH_SIZE, EPOCHS, trainer));
  }

  /** Task-local training that returns the weights it was given, unchanged. */
  ghost predicate Idle(trainer: (nat, nat, P.Params) -> P.Params)
  {
    forall it, i, w :: trainer(it, i, w) == w
  }

  /** An iteration whose tasks all return their starting weights changes nothing. */
  lemma StepFixedPoint(meta: P.Params, iteration: nat, metaBatchSize: int, epochs: int,
                       trainer: (nat, nat, P.Params) -> P.Params)
    requires Idle(trainer)
    requires epochs != 0
    ensures KeepsShape(trainer)
    ensures Step(meta, iteration, metaBatchSize, epochs, trainer) == meta
  {
    var trained := (i: nat) => trainer(iteration, i, meta);
    assert forall i :: 0 <= i < TaskCount(metaBatchSize) ==> trained(i) == meta;
    FixedPoint(meta, metaBatchSize, epochs, trained);
  }

  /** Training that never moves a task's weights leaves the meta-weights where they began. */
  lemma TrainedFixedPoint(init: P.Params, n: nat, metaBatchSize: int, epochs: int,
                          trainer: (nat, nat, P.Params) -> P.Params)
    requires Idle(trainer)
    requires epochs != 0
    ensures KeepsShape(trainer)
    ensures Run(init, n, Stepper(metaBatchSize, epochs, trainer)) == init
  {
    var step := Stepper(metaBatchSize, epochs, trainer);
    forall meta, iteration: nat
      ensures step(meta, iteration) == meta
    {
      StepFixedPoint(meta, iteration, metaBatchSize, epochs, trainer);
    }
    RunFixedPoint(init, n, step);
  }

  // ---------------------------------------------------------------------
  // shuffle(*tensors, length=None)

  /** `perm` is a permutation of `0 .. n-1`, as `randperm(n)` returns. */
  predicate IsPermutation(perm: seq<nat>, n: nat)
  {
    && |perm| == n
    && (forall j :: 0 <= j < n ==> perm[j] < n)
    && (forall j, j' :: 0 <= j < j' < n ==> perm[j] != perm[j'])
    && (forall v :: 0 <= v < n ==> v in perm)
  }

  /** `idx` only names positions of a sequence of length `m`. */
  predicate InRange(idx: seq<nat>, m: nat)
  {
    forall j :: 0 <= j < |idx| ==> idx[j] < m
  }

  /** `s[idx]` for an index tensor `idx`: the elements of `s` at `idx`, in that order. */
  function Select<T>(s: seq<T>, idx: seq<nat>): (r: seq<T>)
    requires InRange(idx, |s|)
    ensures |r| == |idx|
    ensures forall j :: 0 <= j < |r| ==> r[j] == s[idx[j]]
  {
    seq(|idx|, j requires 0 <= j < |idx| => s[idx[j]])
  }

  /**
   * `shuffle(*tensors, length=length)` when `randperm(len(tensors[0]))`
   * returns `perm`: every tensor is indexed by the same prefix
   * `perm[:length]`. There is no `tensors[0]` for an empty argument list, and
   * a tensor shorter than the first may be indexed past its end; both raise.
   */
  function Shuffle<T>(tensors: seq<seq<T>>, length: Option<int>, perm: seq<nat>)
    : (r: Result<seq<seq<T>>, Error>)
    requires tensors != [] ==> IsPermutation(perm, |tensors[0]|)
    ensures tensors == [] ==> r == Err(IndexError)
    ensures tensors != [] && (forall i :: 0 <= i < |tensors| ==> |tensors[0]| <= |tensors[i]|)
            ==> r.Ok?
    ensures r.Ok? <==>
      (tensors != [] && forall i :: 0 <= i < |tensors| ==> InRange(Slice(perm, None, length), |tensors[i]|))
    ensures r.Ok? ==>
      var n := |tensors[0]|;
      && |r.value| == |tensors|
      && forall i :: 0 <= i < |tensors| ==>
           && |r.value[i]| == Bound(n, length, n)
           && (forall j :: 0 <= j < |r.value[i]| ==> perm[j] < |tensors[i]|)
           && forall j :: 0 <= j < |r.value[i]| ==> r.value[i][j] == tensors[i][perm[j]]
  {
    if tensors == [] then Err(IndexError)
    else
      var idx := Slice(perm, None, length);
      if forall i :: 0 <= i < |tensors| ==> InRange(idx, |tensors[i]|) then
        Ok(seq(|tensors|, i requires 0 <= i < |tensors| => Select(tensors[i], idx)))
      else
        Err(IndexError)
  }

  /** Dropping the position of the largest value leaves a permutation of the rest. */
  lemma DropTop(perm: seq<nat>, n: nat, q: nat)
    requires IsPermutation(perm, n)
    requires q < n && perm[q] == n - 1
    ensures IsPermutation(perm[..q] + perm[q + 1..], n - 1)
  {
    var rest := perm[..q] + perm[q + 1..];
    assert forall j :: 0 <= j < |rest| ==> rest[j] == (if j < q then perm[j] else perm[j + 1]);
    forall v | 0 <= v < n - 1
      ensures v in rest
    {
      assert v in perm;
      var p :| 0 <= p < n && perm[p] == v;
      if p < q { assert rest[p] == v; } else { assert rest[p - 1] == v; }
    }
  }

  /**
   * Selecting by a permutation is selecting the last element at position `q`
   * and the others by the remaining positions.
   */
  lemma SelectAround<T>(s: seq<T>, perm: seq<nat>, q: nat)
    requires |s| > 0 && IsPermutation(perm, |s|)
    requires q < |s| && perm[q] == |s| - 1
    requires IsPermutation(perm[..q] + perm[q + 1..], |s| - 1)
    ensures InRange(perm, |s|)
    ensures var inner := Select(s[..|s| - 1], perm[..q] + perm[q + 1..]);
      Select(s, perm) == inner[..q] + [s[|s| - 1]] + inner[q..]
  {
    var n := |s|;
    var rest := perm[..q] + perm[q + 1..];
    var inner := Select(s[..n - 1], rest);
    var whole := Select(s, perm);
    var glued := inner[..q] + [s[n - 1]] + inner[q..];
    assert |glued| == |whole|;
    forall j | 0 <= j < n
      ensures whole[j] == glued[j]
    {
      if j < q {
        assert rest[j] == perm[j];
      } else if j > q {
        assert rest[j - 1] == perm[j];
      }
    }
  }

  /** Selecting by a whole permutation rearranges the sequence. */
  lemma {:induction false} SelectPermutation<T>(s: seq<T>, perm: seq<nat>)
    requires IsPermutation(perm, |s|)
    ensures InRange(perm, |s|)
    ensures multiset(Select(s, perm)) == multiset(s)
  {
    var n := |s|;
    if n > 0 {
      assert n - 1 in perm;
      var q :| 0 <= q < n && perm[q] == n - 1;
      var rest := perm[..q] + perm[q + 1..];
      DropTop(perm, n, q);
      SelectPermutation(s[..n - 1], rest);
      SelectAround(s, perm, q);
      var inner := Select(s[..n - 1], rest);
      InsertKeepsMultiset(inner, q, s[n - 1]);
      LastKeepsMultiset(s);
    }
  }

  /** Inserting `x` at position `q` adds one `x` to the multiset. */
  lemma InsertKeepsMultiset<T>(inner: seq<T>, q: nat, x: T)
    requires q <= |inner|
    ensures multiset(inner[..q] + [x] + inner[q..]) == multiset(inner) + multiset{x}
  {
    assert inner == inner[..q] + inner[q..];
  }

  /** A non-empty sequence holds its front and its last element. */
  lemma LastKeepsMultiset<T>(s: seq<T>)
    requires |s| > 0
    ensures multiset(s) == multiset(s[..|s| - 1]) + multiset{s[|s| - 1]}
  {
    assert s == s[..|s| - 1] + [s[|s| - 1]];
  }

  /**
   * Each output of `shuffle` is a reordering of some of its input's elements,
   * and of all of them when `length` keeps the whole permutation.
   */
  lemma ShuffleReorders<T>(tensors: seq<seq<T>>, length: Option<int>, perm: seq<nat>, i: nat)
    requires tensors != [] ==> IsPermutation(perm, |tensors[0]|)
    requires Shuffle(tensors, length, perm).Ok?
    requires i < |tensors| && |tensors[i]| == |tensors[0]|
    ensures multiset(Shuffle(tensors, length, perm).value[i]) <= multiset(tensors[i])
    ensures length.None? || length.value >= |tensors[0]| ==>
      multiset(Shuffle(tensors, length, perm).value[i]) == multiset(tensors[i])
  {
    var out := Shuffle(tensors, length, perm).value[i];
    var all := Select(tensors[i], perm);
    SelectPermutation(tensors[i], perm);
    assert out == all[..|out|];
    assert all == all[..|out|] + all[|out|..];
  }
}
