/**
 * The parameter dictionary that the REPTILE driver imports from `utils` as
 * `ParamDict`: a model's weights as a mapping from parameter name to tensor,
 * with the vector-space operations `+`, `-` and scalar `*` applied key by key
 * and element by element. Every operation yields a new value.
 *
 * A tensor is flattened to a `Vector`; its shape is its length.
 */
module ParamDict {
  import opened Wrappers
  import V = Vectors

  type Params = map<string, V.Vector>

  /** Same parameter names, and the same tensor shape under each name. */
  predicate SameShape(a: Params, b: Params)
  {
    a.Keys == b.Keys && forall k :: k in a ==> |a[k]| == |b[k]|
  }

  /** `a + b`. */
  function Add(a: Params, b: Params): (r: Params)
    requires SameShape(a, b)
    ensures SameShape(r, a)
    ensures forall k, j :: k in r && 0 <= j < |r[k]| ==> r[k][j] == a[k][j] + b[k][j]
  {
    map k | k in a :: V.Add(a[k], b[k])
  }

  /** `a - b`. */
  function Sub(a: Params, b: Params): (r: Params)
    requires SameShape(a, b)
    ensures SameShape(r, a)
    ensures forall k, j :: k in r && 0 <= j < |r[k]| ==> r[k][j] == a[k][j] - b[k][j]
  {
    map k | k in a :: V.Sub(a[k], b[k])
  }

  /** `c * a`. */
  function Scale(c: real, a: Params): (r: Params)
    ensures SameShape(r, a)
    ensures forall k, j :: k in r && 0 <= j < |r[k]| ==> r[k][j] == c * a[k][j]
  {
    map k | k in a :: V.Scale(c, a[k])
  }

  /** `0 * a`, the additive identity of the shape of `a`. */
  function Zero(a: Params): (r: Params)
    ensures SameShape(r, a)
    ensures forall k, j :: k in r && 0 <= j < |r[k]| ==> r[k][j] == 0.0
  {
    Scale(0.0, a)
  }

  /** The error a key-by-key operation on mismatched keys or tensor shapes fails with. */
  datatype ShapeError = ShapeMismatch

  /** `a - b` on arbitrary operands: mismatched keys or shapes fail. */
  function TrySub(a: Params, b: Params): (r: Result<Params, ShapeError>)
    ensures r.Ok? <==> SameShape(a, b)
    ensures r.Ok? ==> r.value == Sub(a, b)
  {
    if SameShape(a, b) then Ok(Sub(a, b)) else Err(ShapeMismatch)
  }

  /** Every dictionary in `ws` has the shape of `a`. */
  predicate AllSameShape(ws: seq<Params>, a: Params)
  {
    forall i :: 0 <= i < |ws| ==> SameShape(ws[i], a)
  }

  /**
   * Python's `sum(ws, start)`: `((start + ws[0]) + ws[1]) + ...`, a left fold
   * of `+` from `start`.
   */
  function Sum(ws: seq<Params>, start: Params): (r: Params)
    requires AllSameShape(ws, start)
    ensures SameShape(r, start)
    decreases |ws|
  {
    if ws == [] then start
    else
      var acc := Add(start, ws[0]);
      assert AllSameShape(ws[1..], acc);
      Sum(ws[1..], acc)
  }

  /** Entry `j` of tensor `k` across all dictionaries of `ws`, in order. */
  function Column(ws: seq<Params>, k: string, j: nat): (c: V.Vector)
    requires forall i :: 0 <= i < |ws| ==> k in ws[i] && j < |ws[i][k]|
    ensures |c| == |ws|
    ensures forall i :: 0 <= i < |c| ==> c[i] == ws[i][k][j]
  {
    seq(|ws|, i requires 0 <= i < |ws| => ws[i][k][j])
  }

  /** The fold adds, entry by entry, the column of that entry to `start`. */
  lemma {:induction false} SumAt(ws: seq<Params>, start: Params, k: string, j: nat)
    requires AllSameShape(ws, start)
    requires k in start && j < |start[k]|
    ensures k in Sum(ws, start) && j < |Sum(ws, start)[k]|
    ensures Sum(ws, start)[k][j] == start[k][j] + V.Sum(Column(ws, k, j))
    decreases |ws|
  {
    if ws != [] {
      var acc := Add(start, ws[0]);
      assert AllSameShape(ws[1..], acc);
      SumAt(ws[1..], acc, k, j);
      assert Column(ws, k, j)[1..] == Column(ws[1..], k, j);
    }
  }

  /** `a + b == b + a`. */
  lemma AddCommutes(a: Params, b: Params)
    requires SameShape(a, b)
    ensures Add(a, b) == Add(b, a)
  {
    forall k | k in a
      ensures Add(a, b)[k] == Add(b, a)[k]
    {
      assert Add(a, b)[k] == V.Add(a[k], b[k]);
      assert Add(b, a)[k] == V.Add(b[k], a[k]);
    }
  }

  /** `(a + b) - b == a`. */
  lemma SubUndoesAdd(a: Params, b: Params)
    requires SameShape(a, b)
    ensures Sub(Add(a, b), b) == a
  {
    forall k | k in a
      ensures Sub(Add(a, b), b)[k] == a[k]
    {
      assert Sub(Add(a, b), b)[k] == V.Sub(V.Add(a[k], b[k]), b[k]);
    }
  }

  /** `0 * a` is an identity for `+` on every dictionary of the shape of `a`. */
  lemma ZeroIsIdentity(a: Params, w: Params)
    requires SameShape(w, a)
    ensures Add(Zero(a), w) == w
  {
    forall k | k in w
      ensures Add(Zero(a), w)[k] == w[k]
    {
      assert Add(Zero(a), w)[k] == V.Add(Zero(a)[k], w[k]);
    }
  }

  /** `a - a` is the zero dictionary of the shape of `a`. */
  lemma SubSelf(a: Params)
    ensures Sub(a, a) == Zero(a)
  {
    forall k | k in a
      ensures Sub(a, a)[k] == Zero(a)[k]
    {
      assert Sub(a, a)[k] == V.Sub(a[k], a[k]);
      assert Zero(a)[k] == V.Scale(0.0, a[k]);
    }
  }

  /** `sum([w], zero) == zero + w`. */
  lemma SumSingleton(w: Params, start: Params)
    requires SameShape(w, start)
    ensures Sum([w], start) == Add(start, w)
  {
    assert [w][1..] == [];
  }
}
