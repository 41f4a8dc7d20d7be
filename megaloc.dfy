/**
  The covisibility graph builder of MegaLocMPS (src/vggt_mps/megaloc_mps.py).

  Per-view descriptors are an input: the DINOv2 backbone, the SALAD
  aggregation and the L2 normalisation that produce them are not modelled.
  From an N x D descriptor matrix the builder forms the N x N similarity
  matrix F * F^T, thresholds it strictly, forces every row's top-min(k, N)
  entries on in both directions, sets the diagonal, and optionally adds the
  sequential chain i <-> i+1. The mask is a 2-D array updated in place; its
  intended content is the pure function CovisibilityMask (and WithChain),
  about which the graph properties are proved.
*/
module MegaLoc {

  import opened Wrappers

  /** A dense real matrix given row by row: a 2-D tensor as a value. */
  type Matrix = seq<seq<real>>

  // ---------------------------------------------------------------------
  // Configuration and input geometry (MegaLocMPS.__init__, extract_features)
  // ---------------------------------------------------------------------

  /** Patch stride of the ViT-B/14 backbone: input sides must be multiples of it. */
  const PatchSize: nat := 14

  /** The constructor's size parameters (the device choice is not modelled). */
  datatype Config = Config(numClusters: nat, clusterDim: nat, tokenDim: nat, mlpDim: nat)

  /** `MegaLocMPS()` with its default arguments. */
  const DefaultConfig: Config := Config(64, 256, 256, 512)

  /** `out_dim`: a local SALAD block of num_clusters * cluster_dim values followed by token_dim global values. */
  function OutDim(c: Config): nat
  {
    c.numClusters * c.clusterDim + c.tokenDim
  }

  /** The final `torch.cat([local_desc, global_desc])`: the descriptor is out_dim long, local part first. */
  function Descriptor(c: Config, local: seq<real>, global: seq<real>): (d: seq<real>)
    requires |local| == c.numClusters * c.clusterDim && |global| == c.tokenDim
    ensures |d| == OutDim(c)
    ensures d[..c.numClusters * c.clusterDim] == local && d[c.numClusters * c.clusterDim..] == global
  {
    local + global
  }

  lemma DefaultOutDim()
    ensures OutDim(DefaultConfig) == 16640
  {
  }

  /** `(H // 14) * 14`: the largest multiple of the patch size not above h. */
  function ResizeTarget(h: nat): (r: nat)
    ensures r % PatchSize == 0 && r <= h && h < r + PatchSize
  {
    (h / PatchSize) * PatchSize
  }

  /** Images are interpolated exactly when a side is not already a multiple of the patch size. */
  function NeedsResize(h: nat, w: nat): (b: bool)
    ensures b <==> h % PatchSize != 0 || w % PatchSize != 0
  {
    h != ResizeTarget(h) || w != ResizeTarget(w)
  }

  // ---------------------------------------------------------------------
  // Matrices
  // ---------------------------------------------------------------------

  /** Every row has the length of the first: what a 2-D tensor always is. */
  predicate Rectangular(f: Matrix)
  {
    forall i :: 0 <= i < |f| ==> |f[i]| == |f[0]|
  }

  predicate IsSquare(m: Matrix)
  {
    forall i :: 0 <= i < |m| ==> |m[i]| == |m|
  }

  predicate Symmetric(m: Matrix)
    requires IsSquare(m)
  {
    forall i, j :: 0 <= i < |m| && 0 <= j < |m| ==> m[i][j] == m[j][i]
  }

  /** Every entry is 0.0 or 1.0. */
  predicate Binary(m: Matrix)
  {
    forall i, j :: 0 <= i < |m| && 0 <= j < |m[i]| ==> m[i][j] == 0.0 || m[i][j] == 1.0
  }

  /** The contents of a 2-D array, row by row. */
  function Rows(a: array2<real>): (m: Matrix)
    reads a
    ensures |m| == a.Length0 && forall i :: 0 <= i < |m| ==> |m[i]| == a.Length1
    ensures forall i, j :: 0 <= i < a.Length0 && 0 <= j < a.Length1 ==> m[i][j] == a[i, j]
  {
    seq(a.Length0, i requires 0 <= i < a.Length0 reads a =>
      seq(a.Length1, j requires 0 <= j < a.Length1 reads a => a[i, j]))
  }

  /** Two square matrices of one size with equal entries are equal. */
  lemma MatrixExtensionality(a: Matrix, b: Matrix)
    requires IsSquare(a) && IsSquare(b) && |a| == |b|
    requires forall i, j :: 0 <= i < |a| && 0 <= j < |a| ==> a[i][j] == b[i][j]
    ensures a == b
  {
    forall i | 0 <= i < |a|
      ensures a[i] == b[i]
    {
      assert |a[i]| == |b[i]|;
    }
  }

  /** Inner product of two vectors of one length. */
  function Dot(u: seq<real>, v: seq<real>): real
    requires |u| == |v|
  {
    if u == [] then 0.0 else Dot(u[..|u| - 1], v[..|v| - 1]) + u[|u| - 1] * v[|v| - 1]
  }

  lemma {:induction false} DotSymmetric(u: seq<real>, v: seq<real>)
    requires |u| == |v|
    ensures Dot(u, v) == Dot(v, u)
  {
    if u != [] {
      DotSymmetric(u[..|u| - 1], v[..|v| - 1]);
    }
  }

  /** `torch.mm(features, features.t())`: the pairwise similarity matrix. */
  function Gram(f: Matrix): (s: Matrix)
    requires Rectangular(f)
    ensures IsSquare(s) && |s| == |f|
  {
    seq(|f|, i requires 0 <= i < |f| =>
      seq(|f|, j requires 0 <= j < |f| => Dot(f[i], f[j])))
  }

  /** F * F^T is symmetric, for every descriptor matrix F. */
  lemma GramSymmetric(f: Matrix)
    requires Rectangular(f)
    ensures Symmetric(Gram(f))
  {
    forall i, j | 0 <= i < |f| && 0 <= j < |f|
      ensures Gram(f)[i][j] == Gram(f)[j][i]
    {
      DotSymmetric(f[i], f[j]);
    }
  }

  // ---------------------------------------------------------------------
  // Top-k selection (torch.topk over each whole row)
  // ---------------------------------------------------------------------

  predicate Distinct(s: seq<nat>)
  {
    forall a, b :: 0 <= a < b < |s| ==> s[a] != s[b]
  }

  /**
    What `row.topk(m)` returns, up to the order of ties: m distinct positions
    of the row, each holding a value at least as large as every position not
    chosen. The row's own view is not excluded.
  */
  predicate IsTopK(row: seq<real>, m: nat, idx: seq<nat>)
  {
    && |idx| == m
    && Distinct(idx)
    && (forall t :: 0 <= t < |idx| ==> idx[t] < |row|)
    && (forall a, b :: a in idx && 0 <= b < |row| && b !in idx ==> row[a] >= row[b])
  }

  /** The first position of rest holding the largest row value among rest. */
  method MaxPosition(row: seq<real>, rest: seq<nat>) returns (p: nat)
    requires |rest| > 0 && forall t :: 0 <= t < |rest| ==> rest[t] < |row|
    ensures p < |rest|
    ensures forall u :: 0 <= u < |rest| ==> row[rest[u]] <= row[rest[p]]
  {
    p := 0;
    var t := 1;
    while t < |rest|
      invariant 0 <= p < |rest| && 1 <= t <= |rest|
      invariant forall u :: 0 <= u < t ==> row[rest[u]] <= row[rest[p]]
    {
      if row[rest[t]] > row[rest[p]] {
        p := t;
      }
      t := t + 1;
    }
  }

  /** Dropping position p of a sequence of distinct positions. */
  lemma RemoveAt(rest: seq<nat>, p: nat)
    requires p < |rest| && Distinct(rest)
    ensures var r := rest[..p] + rest[p + 1..];
      && |r| == |rest| - 1 && Distinct(r)
      && (forall x :: x in r <==> x in rest && x != rest[p])
  {
    var r := rest[..p] + rest[p + 1..];
    assert forall t :: 0 <= t < |r| ==> r[t] == if t < p then rest[t] else rest[t + 1];
    forall x | x in rest && x != rest[p] ensures x in r {
      var t :| 0 <= t < |rest| && rest[t] == x;
      if t < p { assert r[t] == x; } else { assert r[t - 1] == x; }
    }
  }

  /** Selection of the m largest entries of a row, first position on ties. */
  method TopK(row: seq<real>, m: nat) returns (idx: seq<nat>)
    requires m <= |row|
    ensures IsTopK(row, m, idx)
  {
    idx := [];
    var rest: seq<nat> := seq(|row|, j requires 0 <= j < |row| => j);
    forall b | 0 <= b < |row|
      ensures b in rest
    {
      assert rest[b] == b;
    }
    while |idx| < m
      invariant |idx| <= m
      invariant |idx| + |rest| == |row|
      invariant Distinct(idx) && Distinct(rest)
      invariant forall t :: 0 <= t < |idx| ==> idx[t] < |row|
      invariant forall t :: 0 <= t < |rest| ==> rest[t] < |row|
      invariant forall b :: 0 <= b < |row| ==> (b in idx <==> b !in rest)
      invariant forall a, b :: a in idx && b in rest ==> row[a] >= row[b]
    {
      var p := MaxPosition(row, rest);
      var chosen := rest[p];
      RemoveAt(rest, p);
      assert chosen in rest;
      assert chosen !in idx;
      idx := idx + [chosen];
      rest := rest[..p] + rest[p + 1..];
    }
  }

  /** One top-k selection per row of a square matrix. */
  predicate ValidSelection(sim: Matrix, m: nat, selected: seq<seq<nat>>)
  {
    |selected| == |sim| && forall i :: 0 <= i < |sim| ==> IsTopK(sim[i], m, selected[i])
  }

  /** `similarities.topk(m, dim=1)`: the indices of every row. */
  method TopKRows(sim: Matrix, m: nat) returns (indices: seq<seq<nat>>)
    requires IsSquare(sim) && m <= |sim|
    ensures ValidSelection(sim, m, indices)
  {
    indices := [];
    while |indices| < |sim|
      invariant |indices| <= |sim|
      invariant forall i :: 0 <= i < |indices| ==> IsTopK(sim[i], m, indices[i])
    {
      var top := TopK(sim[|indices|], m);
      indices := indices + [top];
    }
  }

  // ---------------------------------------------------------------------
  // The mask, as a function of the similarities
  // ---------------------------------------------------------------------

  /** `k_nearest is not None and k_nearest > 0`. */
  predicate Augments(kNearest: Option<int>)
  {
    kNearest.Some? && kNearest.value > 0
  }

  /** `min(k_nearest, N)`. */
  function TopCount(kNearest: Option<int>, n: nat): (m: nat)
    requires Augments(kNearest)
    ensures m <= n && m <= kNearest.value && (m == n || m == kNearest.value)
  {
    if kNearest.value < n then kNearest.value else n
  }

  /**
    Whether the builder sets entry (i, j): on the diagonal, above the
    threshold (strictly), or, when augmenting, j selected for row i or i
    selected for row j.
  */
  predicate Edge(sim: Matrix, threshold: real, augment: bool, selected: seq<seq<nat>>, i: nat, j: nat)
    requires i < |sim| && j < |sim[i]|
    requires augment ==> i < |selected| && j < |selected|
  {
    i == j || sim[i][j] > threshold || (augment && (j in selected[i] || i in selected[j]))
  }

  /** The mask `compute_covisibility_matrix` returns for the given top-k selections. */
  function CovisibilityMask(sim: Matrix, threshold: real, augment: bool, selected: seq<seq<nat>>): (m: Matrix)
    requires IsSquare(sim)
    requires augment ==> |selected| == |sim|
    ensures IsSquare(m) && |m| == |sim| && Binary(m)
  {
    seq(|sim|, i requires 0 <= i < |sim| =>
      seq(|sim|, j requires 0 <= j < |sim| =>
        if Edge(sim, threshold, augment, selected, i, j) then 1.0 else 0.0))
  }

  /** Whether the chain i <-> i+1 joins i and j. */
  predicate ChainLink(i: int, j: int)
  {
    j == i + 1 || i == j + 1
  }

  /** The mask after `_ensure_graph_connectivity`. */
  function WithChain(m: Matrix): (r: Matrix)
    requires IsSquare(m)
    ensures IsSquare(r) && |r| == |m|
  {
    seq(|m|, i requires 0 <= i < |m| =>
      seq(|m|, j requires 0 <= j < |m| => if ChainLink(i, j) then 1.0 else m[i][j]))
  }

  /** The b-th mask of `generate_attention_mask_for_vggt`. */
  function BatchMask(features: Matrix, threshold: real, kNearest: int, ensureConnected: bool, selected: seq<seq<nat>>): (m: Matrix)
    requires Rectangular(features)
    requires kNearest > 0 ==> |selected| == |features|
    ensures IsSquare(m) && |m| == |features|
  {
    var base := CovisibilityMask(Gram(features), threshold, Augments(Some(kNearest)), selected);
    if ensureConnected then WithChain(base) else base
  }

  // ---------------------------------------------------------------------
  // The imperative builder
  // ---------------------------------------------------------------------

  /** After the k-NN scatter of rows 0 .. done-1 (and `t` entries of row `done`). */
  ghost predicate Scattered(sim: Matrix, threshold: real, sel: seq<seq<nat>>, done: nat, t: nat, a: nat, b: nat)
    requires a < |sim| && b < |sim[a]| && done <= |sel|
    requires done < |sel| ==> t <= |sel[done]|
    requires a < |sel| && b < |sel|
  {
    || sim[a][b] > threshold
    || (a < done && b in sel[a]) || (b < done && a in sel[b])
    || (done < |sel| && a == done && b in sel[done][..t])
    || (done < |sel| && b == done && a in sel[done][..t])
  }

  /** `mask[i, indices[i]] = 1.0; mask[indices[i], i] = 1.0` for every row i. */
  method ScatterNearest(mask: array2<real>, sim: Matrix, threshold: real, sel: seq<seq<nat>>, m: nat)
    requires IsSquare(sim) && mask.Length0 == |sim| && mask.Length1 == |sim|
    requires ValidSelection(sim, m, sel)
    requires forall a, b :: 0 <= a < |sim| && 0 <= b < |sim| ==>
      mask[a, b] == if sim[a][b] > threshold then 1.0 else 0.0
    modifies mask
    ensures forall a, b :: 0 <= a < |sim| && 0 <= b < |sim| ==>
      mask[a, b] == if sim[a][b] > threshold || b in sel[a] || a in sel[b] then 1.0 else 0.0
  {
    var n := |sim|;
    var i := 0;
    while i < n
      invariant 0 <= i <= n
      invariant forall a, b :: 0 <= a < n && 0 <= b < n ==>
        mask[a, b] == if Scattered(sim, threshold, sel, i, 0, a, b) then 1.0 else 0.0
    {
      var t := 0;
      while t < |sel[i]|
        invariant 0 <= t <= |sel[i]|
        invariant forall a, b :: 0 <= a < n && 0 <= b < n ==>
          mask[a, b] == if Scattered(sim, threshold, sel, i, t, a, b) then 1.0 else 0.0
      {
        var j := sel[i][t];
        assert sel[i][..t + 1] == sel[i][..t] + [j];
        mask[i, j] := 1.0;
        mask[j, i] := 1.0;
        t := t + 1;
      }
      assert sel[i][..t] == sel[i];
      i := i + 1;
    }
  }

  /** `mask.fill_diagonal_(1.0)`. */
  method FillDiagonal(mask: array2<real>)
    requires mask.Length0 == mask.Length1
    modifies mask
    ensures forall a, b :: 0 <= a < mask.Length0 && 0 <= b < mask.Length1 ==>
      mask[a, b] == if a == b then 1.0 else old(mask[a, b])
  {
    var i := 0;
    while i < mask.Length0
      invariant 0 <= i <= mask.Length0
      invariant forall a, b :: 0 <= a < mask.Length0 && 0 <= b < mask.Length1 ==>
        mask[a, b] == if a == b && a < i then 1.0 else old(mask[a, b])
    {
      mask[i, i] := 1.0;
      i := i + 1;
    }
  }

  /**
    `compute_covisibility_matrix(features, threshold, k_nearest)`. The top-k
    positions chosen for each row are returned as a ghost value, since ties
    are left to the tensor library.
  */
  method ComputeCovisibilityMatrix(features: Matrix, threshold: real, kNearest: Option<int>)
    returns (mask: array2<real>, ghost selected: seq<seq<nat>>)
    requires Rectangular(features)
    ensures fresh(mask)
    ensures mask.Length0 == |features| && mask.Length1 == |features|
    ensures Augments(kNearest) ==> ValidSelection(Gram(features), TopCount(kNearest, |features|), selected)
    ensures Augments(kNearest) ==> |selected| == |features|
    ensures forall i, j :: 0 <= i < |features| && 0 <= j < |features| ==>
      mask[i, j] == CovisibilityMask(Gram(features), threshold, Augments(kNearest), selected)[i][j]
  {
    var n := |features|;
    var sim := Gram(features);
    mask := new real[n, n]((i, j) => if 0 <= i < n && 0 <= j < n && sim[i][j] > threshold then 1.0 else 0.0);
    selected := [];
    if kNearest.Some? && kNearest.value > 0 {
      var m := if kNearest.value < n then kNearest.value else n;
      var indices := TopKRows(sim, m);
      ScatterNearest(mask, sim, threshold, indices, m);
      selected := indices;
    }
    FillDiagonal(mask);
  }

  /** `_ensure_graph_connectivity(mask)`: sets the chain in place (and returns the same tensor). */
  method EnsureGraphConnectivity(mask: array2<real>)
    requires mask.Length0 == mask.Length1
    modifies mask
    ensures forall i, j :: 0 <= i < mask.Length0 && 0 <= j < mask.Length1 ==>
      mask[i, j] == if ChainLink(i, j) then 1.0 else old(mask[i, j])
  {
    var n := mask.Length0;
    if n == 0 {
      return;
    }
    var i := 0;
    while i < n - 1
      invariant 0 <= i <= n - 1
      invariant forall a, b :: 0 <= a < n && 0 <= b < n ==>
        mask[a, b] == if ChainLink(a, b) && a <= i && b <= i then 1.0 else old(mask[a, b])
    {
      mask[i, i + 1] := 1.0;
      mask[i + 1, i] := 1.0;
      i := i + 1;
    }
  }

  /** The masks of a batch: one per element, each built from that element's descriptors alone. */
  ghost predicate BatchMasks(batch: seq<Matrix>, threshold: real, kNearest: int, ensureConnected: bool,
                             masks: seq<Matrix>, selected: seq<seq<seq<nat>>>)
    requires forall b :: 0 <= b < |batch| ==> Rectangular(batch[b])
  {
    && |masks| == |batch| && |selected| == |batch|
    && forall b :: 0 <= b < |batch| ==>
         && (kNearest > 0 ==> ValidSelection(Gram(batch[b]), TopCount(Some(kNearest), |batch[b]|), selected[b]))
         && (kNearest > 0 ==> |selected[b]| == |batch[b]|)
         && masks[b] == BatchMask(batch[b], threshold, kNearest, ensureConnected, selected[b])
  }

  /** `torch.stack` of an empty list of tensors raises a RuntimeError. */
  datatype StackError = EmptyStack

  /**
    `generate_attention_mask_for_vggt`, with the descriptors of batch element
    b (what `extract_features(images[b])` yields) given as batch[b]. The
    result is the stacked [B, S, S] tensor; an empty batch cannot be stacked.
    Every element of the [B, S, 3, H, W] input has the same S views.
  */
  method GenerateAttentionMask(batch: seq<Matrix>, threshold: real, kNearest: int, ensureConnected: bool)
    returns (r: Result<seq<Matrix>, StackError>, ghost selected: seq<seq<seq<nat>>>)
    requires forall b :: 0 <= b < |batch| ==> Rectangular(batch[b]) && |batch[b]| == |batch[0]|
    ensures r.Failure? <==> |batch| == 0
    ensures r.Success? ==> BatchMasks(batch, threshold, kNearest, ensureConnected, r.value, selected)
    ensures r.Success? ==> forall b :: 0 <= b < |r.value| ==> IsSquare(r.value[b]) && |r.value[b]| == |batch[0]|
  {
    var masks: seq<Matrix> := [];
    selected := [];
    while |masks| < |batch|
      invariant |masks| <= |batch| && |selected| == |masks|
      invariant BatchMasks(batch[..|masks|], threshold, kNearest, ensureConnected, masks, selected)
    {
      var b := |masks|;
      var mask, sel := ComputeCovisibilityMatrix(batch[b], threshold, Some(kNearest));
      if ensureConnected {
        EnsureGraphConnectivity(mask);
      }
      MatrixExtensionality(Rows(mask), BatchMask(batch[b], threshold, kNearest, ensureConnected, sel));
      masks := masks + [Rows(mask)];
      selected := selected + [sel];
      assert batch[..|masks|][b] == batch[b];
    }
    assert batch[..|masks|] == batch;
    if |masks| == 0 {
      return Failure(EmptyStack), selected;
    }
    r := Success(masks);
  }

  // ---------------------------------------------------------------------
  // Properties of the covisibility graph
  // ---------------------------------------------------------------------

  /** Thresholding is strict: equality with the threshold does not make an edge. */
  lemma ThresholdOnly(sim: Matrix, threshold: real, selected: seq<seq<nat>>, i: nat, j: nat)
    requires IsSquare(sim) && i < |sim| && j < |sim|
    ensures CovisibilityMask(sim, threshold, false, selected)[i][j] == 1.0 <==> i == j || sim[i][j] > threshold
    ensures i != j && sim[i][j] == threshold ==> CovisibilityMask(sim, threshold, false, selected)[i][j] == 0.0
  {
  }

  /** Augmentation and the diagonal only turn entries on: a thresholded edge is never cleared. */
  lemma ThresholdEdgesKept(sim: Matrix, threshold: real, augment: bool, selected: seq<seq<nat>>, i: nat, j: nat)
    requires IsSquare(sim) && (augment ==> |selected| == |sim|) && i < |sim| && j < |sim|
    ensures CovisibilityMask(sim, threshold, false, selected)[i][j] == 1.0 ==>
            CovisibilityMask(sim, threshold, augment, selected)[i][j] == 1.0
    ensures sim[i][j] > threshold ==> CovisibilityMask(sim, threshold, augment, selected)[i][j] == 1.0
  {
  }

  /** Every view is covisible with itself. */
  lemma SelfCovisible(sim: Matrix, threshold: real, augment: bool, selected: seq<seq<nat>>, i: nat)
    requires IsSquare(sim) && (augment ==> |selected| == |sim|) && i < |sim|
    ensures CovisibilityMask(sim, threshold, augment, selected)[i][i] == 1.0
  {
  }

  /** Each selected neighbour j of row i is joined to i in both directions. */
  lemma SelectedNeighboursJoined(sim: Matrix, threshold: real, m: nat, selected: seq<seq<nat>>, i: nat, t: nat)
    requires IsSquare(sim) && ValidSelection(sim, m, selected) && i < |sim| && t < |selected[i]|
    ensures CovisibilityMask(sim, threshold, true, selected)[i][selected[i][t]] == 1.0
    ensures CovisibilityMask(sim, threshold, true, selected)[selected[i][t]][i] == 1.0
  {
  }

  /** A symmetric similarity matrix gives a symmetric mask, whatever the selections. */
  lemma MaskSymmetric(sim: Matrix, threshold: real, augment: bool, selected: seq<seq<nat>>)
    requires IsSquare(sim) && Symmetric(sim) && (augment ==> |selected| == |sim|)
    ensures Symmetric(CovisibilityMask(sim, threshold, augment, selected))
  {
    var m := CovisibilityMask(sim, threshold, augment, selected);
    forall i, j | 0 <= i < |sim| && 0 <= j < |sim|
      ensures m[i][j] == m[j][i]
    {
      assert Edge(sim, threshold, augment, selected, i, j) == Edge(sim, threshold, augment, selected, j, i);
    }
  }

  /** Number of entries equal to 1.0 in a row: `sum(M[i, :])` for a 0/1 row. */
  function Ones(row: seq<real>): nat
  {
    if row == [] then 0 else Ones(row[..|row| - 1]) + (if row[|row| - 1] == 1.0 then 1 else 0)
  }

  lemma {:induction false} OnesAtLeast(row: seq<real>, s: set<nat>)
    requires forall j :: j in s ==> j < |row| && row[j] == 1.0
    ensures |s| <= Ones(row)
    decreases |row|
  {
    if row == [] {
      assert s == {};
    } else {
      var last := |row| - 1;
      var rest := s - {last};
      assert forall j :: j in rest ==> j < last && row[..last][j] == 1.0;
      OnesAtLeast(row[..last], rest);
    }
  }

  function Elements(s: seq<nat>): set<nat>
  {
    set x | x in s
  }

  lemma {:induction false} DistinctCard(s: seq<nat>)
    requires Distinct(s)
    ensures |Elements(s)| == |s|
  {
    if s != [] {
      var init := s[..|s| - 1];
      var last := s[|s| - 1];
      assert Distinct(init);
      DistinctCard(init);
      assert last !in Elements(init);
      assert Elements(s) == Elements(init) + {last};
    }
  }

  /**
    With augmentation every row has at least min(k, N) ones. The count
    includes the diagonal, because top-k may select the view itself.
  */
  lemma MinimumDegree(sim: Matrix, threshold: real, m: nat, selected: seq<seq<nat>>, i: nat)
    requires IsSquare(sim) && ValidSelection(sim, m, selected) && i < |sim|
    ensures Ones(CovisibilityMask(sim, threshold, true, selected)[i]) >= m
  {
    var row := CovisibilityMask(sim, threshold, true, selected)[i];
    var chosen := Elements(selected[i]);
    DistinctCard(selected[i]);
    assert IsTopK(sim[i], m, selected[i]);
    OnesAtLeast(row, chosen);
    assert |chosen| == m;
  }

  /** Ones of a row pointwise dominated by another are no more numerous. */
  lemma {:induction false} OnesMonotone(lo: seq<real>, hi: seq<real>)
    requires |lo| == |hi|
    requires forall j :: 0 <= j < |lo| && lo[j] == 1.0 ==> hi[j] == 1.0
    ensures Ones(lo) <= Ones(hi)
  {
    if lo != [] {
      OnesMonotone(lo[..|lo| - 1], hi[..|hi| - 1]);
    }
  }

  /** Total number of ones of a matrix: `mask.sum()` for a 0/1 mask. */
  function TotalOnes(m: Matrix): nat
  {
    if m == [] then 0 else TotalOnes(m[..|m| - 1]) + Ones(m[|m| - 1])
  }

  lemma {:induction false} TotalOnesMonotone(lo: Matrix, hi: Matrix)
    requires |lo| == |hi| && forall i :: 0 <= i < |lo| ==> |lo[i]| == |hi[i]|
    requires forall i, j :: 0 <= i < |lo| && 0 <= j < |lo[i]| && lo[i][j] == 1.0 ==> hi[i][j] == 1.0
    ensures TotalOnes(lo) <= TotalOnes(hi)
  {
    if lo != [] {
      var n := |lo| - 1;
      TotalOnesMonotone(lo[..n], hi[..n]);
      OnesMonotone(lo[n], hi[n]);
    }
  }

  /**
    Raising the threshold (same selections) never adds an edge, so the
    number of edges is non-increasing in the threshold.
  */
  lemma ThresholdMonotone(sim: Matrix, low: real, high: real, augment: bool, selected: seq<seq<nat>>)
    requires IsSquare(sim) && (augment ==> |selected| == |sim|) && low <= high
    ensures forall i, j ::
      0 <= i < |sim| && 0 <= j < |sim| && CovisibilityMask(sim, high, augment, selected)[i][j] == 1.0 ==>
        CovisibilityMask(sim, low, augment, selected)[i][j] == 1.0
    ensures TotalOnes(CovisibilityMask(sim, high, augment, selected)) <= TotalOnes(CovisibilityMask(sim, low, augment, selected))
  {
    TotalOnesMonotone(CovisibilityMask(sim, high, augment, selected), CovisibilityMask(sim, low, augment, selected));
  }

  /** When every similarity exceeds the threshold the mask is all ones, whatever the selections. */
  lemma AllSimilarFullyConnected(sim: Matrix, threshold: real, augment: bool, selected: seq<seq<nat>>)
    requires IsSquare(sim) && (augment ==> |selected| == |sim|)
    requires forall i, j :: 0 <= i < |sim| && 0 <= j < |sim| ==> sim[i][j] > threshold
    ensures forall i, j :: 0 <= i < |sim| && 0 <= j < |sim| ==> CovisibilityMask(sim, threshold, augment, selected)[i][j] == 1.0
    ensures TotalOnes(CovisibilityMask(sim, threshold, augment, selected)) == |sim| * |sim|
  {
    var m := CovisibilityMask(sim, threshold, augment, selected);
    AllOnesTotal(m, |sim|);
  }

  lemma {:induction false} AllOnesRow(row: seq<real>)
    requires forall j :: 0 <= j < |row| ==> row[j] == 1.0
    ensures Ones(row) == |row|
  {
    if row != [] {
      AllOnesRow(row[..|row| - 1]);
    }
  }

  lemma {:induction false} AllOnesTotal(m: Matrix, width: nat)
    requires forall i :: 0 <= i < |m| ==> |m[i]| == width
    requires forall i, j :: 0 <= i < |m| && 0 <= j < width ==> m[i][j] == 1.0
    ensures TotalOnes(m) == |m| * width
  {
    if m != [] {
      AllOnesTotal(m[..|m| - 1], width);
      AllOnesRow(m[|m| - 1]);
    }
  }

  /**
    The row's own view may take a top-k slot: with two dissimilar views and
    k = 1 each view selects itself, and neither gains a neighbour.
  */
  lemma SelfMaySelectItself()
    ensures var sim: Matrix := [[1.0, 0.0], [0.0, 1.0]];
            ValidSelection(sim, 1, [[0], [1]]) &&
            CovisibilityMask(sim, 0.7, true, [[0], [1]]) == [[1.0, 0.0], [0.0, 1.0]]
  {
    var sim: Matrix := [[1.0, 0.0], [0.0, 1.0]];
    var m := CovisibilityMask(sim, 0.7, true, [[0], [1]]);
    assert !Edge(sim, 0.7, true, [[0], [1]], 0, 1);
    assert !Edge(sim, 0.7, true, [[0], [1]], 1, 0);
    MatrixExtensionality(m, [[1.0, 0.0], [0.0, 1.0]]);
  }

  /** The positions 0 .. n-1, in order. */
  function Range(n: nat): (r: seq<nat>)
    ensures |r| == n && forall t :: 0 <= t < n ==> r[t] == t
  {
    seq(n, t requires 0 <= t < n => t)
  }

  lemma ProperSubsetSmaller(a: set<nat>, b: set<nat>)
    requires a <= b && a != b
    ensures |a| < |b|
  {
    var missing :| missing in b && missing !in a;
    var rest := b - {missing};
    assert b == rest + {missing};
    assert rest == a + (rest - a);
  }

  /** n distinct positions below n are all the positions below n. */
  lemma SelectsEverything(idx: seq<nat>, n: nat)
    requires |idx| == n && Distinct(idx) && forall t :: 0 <= t < |idx| ==> idx[t] < n
    ensures forall j :: 0 <= j < n ==> j in idx
  {
    var all := Range(n);
    DistinctCard(idx);
    DistinctCard(all);
    forall x | x in Elements(idx) ensures x in Elements(all) {
      assert all[x] == x;
    }
    if Elements(idx) != Elements(all) {
      ProperSubsetSmaller(Elements(idx), Elements(all));
      assert false;
    }
    forall j | 0 <= j < n
      ensures j in idx
    {
      assert all[j] == j;
      assert j in Elements(idx);
    }
  }

  /**
    When min(k, N) == N, top-k selects every view of every row, so the
    augmented mask is all ones whatever the similarities and the threshold.
  */
  lemma FullSelectionDense(sim: Matrix, threshold: real, selected: seq<seq<nat>>)
    requires IsSquare(sim) && ValidSelection(sim, |sim|, selected)
    ensures forall i, j :: 0 <= i < |sim| && 0 <= j < |sim| ==> CovisibilityMask(sim, threshold, true, selected)[i][j] == 1.0
    ensures TotalOnes(CovisibilityMask(sim, threshold, true, selected)) == |sim| * |sim|
  {
    var m := CovisibilityMask(sim, threshold, true, selected);
    forall i, j | 0 <= i < |sim| && 0 <= j < |sim|
      ensures m[i][j] == 1.0
    {
      assert IsTopK(sim[i], |sim|, selected[i]);
      SelectsEverything(selected[i], |sim|);
      assert Edge(sim, threshold, true, selected, i, j);
    }
    AllOnesTotal(m, |sim|);
  }

  // ---------------------------------------------------------------------
  // Connectivity
  // ---------------------------------------------------------------------

  /** A walk through the graph: consecutive views joined by an edge. */
  ghost predicate IsWalk(m: Matrix, p: seq<nat>)
  {
    && |p| >= 1
    && (forall t :: 0 <= t < |p| ==> p[t] < |m|)
    && (forall t :: 0 <= t < |p| - 1 ==> p[t + 1] < |m[p[t]]| && m[p[t]][p[t + 1]] == 1.0)
  }

  ghost predicate Linked(m: Matrix, i: nat, j: nat)
  {
    exists p :: IsWalk(m, p) && p[0] == i && p[|p| - 1] == j
  }

  /** The graph has a single connected component. */
  ghost predicate Connected(m: Matrix)
  {
    forall i: nat, j: nat :: i < |m| && j < |m| ==> Linked(m, i, j)
  }

  /** The views i, i+1, ..., j (or downwards): a walk along the chain. */
  function ChainWalk(i: nat, j: nat): (p: seq<nat>)
    ensures |p| >= 1 && p[0] == i && p[|p| - 1] == j
    ensures forall t :: 0 <= t < |p| - 1 ==> ChainLink(p[t], p[t + 1])
    ensures forall t :: 0 <= t < |p| ==> p[t] <= i || p[t] <= j
  {
    if i <= j then seq(j - i + 1, t requires 0 <= t <= j - i => i + t)
    else seq(i - j + 1, t requires 0 <= t <= i - j => i - t)
  }

  /** After the chain is added every pair of views is joined by a walk. */
  lemma ChainConnected(m: Matrix)
    requires IsSquare(m)
    ensures Connected(WithChain(m))
  {
    var r := WithChain(m);
    forall i: nat, j: nat | i < |m| && j < |m|
      ensures Linked(r, i, j)
    {
      var p := ChainWalk(i, j);
      assert IsWalk(r, p);
    }
  }

  /** The chain changes only chain entries, and only turns them on. */
  lemma ChainOnlyAdds(m: Matrix)
    requires IsSquare(m)
    ensures forall i, j :: 0 <= i < |m| && 0 <= j < |m| && !ChainLink(i, j) ==> WithChain(m)[i][j] == m[i][j]
    ensures forall i, j :: 0 <= i < |m| && 0 <= j < |m| && ChainLink(i, j) ==> WithChain(m)[i][j] == 1.0
    ensures forall i, j :: 0 <= i < |m| && 0 <= j < |m| && m[i][j] == 1.0 ==> WithChain(m)[i][j] == 1.0
  {
  }

  /** A single view has no chain to add: the mask is unchanged. */
  lemma ChainSingleView(m: Matrix)
    requires IsSquare(m) && |m| <= 1
    ensures WithChain(m) == m
  {
    MatrixExtensionality(WithChain(m), m);
  }

  /** The chain keeps a mask symmetric and binary. */
  lemma ChainKeepsShape(m: Matrix)
    requires IsSquare(m)
    ensures Binary(m) ==> Binary(WithChain(m))
    ensures Symmetric(m) ==> Symmetric(WithChain(m))
  {
  }

  /**
    Every mask `generate_attention_mask_for_vggt` returns is binary,
    symmetric, has a full diagonal, has min(k, S) ones per row when k > 0,
    and is connected when `ensure_connected` holds; a single view gives [[1]].
  */
  lemma BatchMaskProperties(features: Matrix, threshold: real, kNearest: int, ensureConnected: bool,
                            selected: seq<seq<nat>>)
    requires Rectangular(features)
    requires kNearest > 0 ==> ValidSelection(Gram(features), TopCount(Some(kNearest), |features|), selected)
    requires kNearest > 0 ==> |selected| == |features|
    ensures var m := BatchMask(features, threshold, kNearest, ensureConnected, selected);
      && Binary(m) && Symmetric(m)
      && (forall i :: 0 <= i < |m| ==> m[i][i] == 1.0)
      && (kNearest > 0 ==> forall i :: 0 <= i < |m| ==> Ones(m[i]) >= TopCount(Some(kNearest), |features|))
      && (ensureConnected ==> Connected(m))
      && (|features| == 1 ==> m == [[1.0]])
  {
    BatchMaskShape(features, threshold, kNearest, ensureConnected, selected);
    if kNearest > 0 {
      BatchMaskDegree(features, threshold, kNearest, ensureConnected, selected);
    }
  }

  /** The binary, symmetric, self-attending part of BatchMaskProperties. */
  lemma BatchMaskShape(features: Matrix, threshold: real, kNearest: int, ensureConnected: bool,
                       selected: seq<seq<nat>>)
    requires Rectangular(features)
    requires kNearest > 0 ==> |selected| == |features|
    ensures var m := BatchMask(features, threshold, kNearest, ensureConnected, selected);
      && Binary(m) && Symmetric(m)
      && (forall i :: 0 <= i < |m| ==> m[i][i] == 1.0)
      && (ensureConnected ==> Connected(m))
      && (|features| == 1 ==> m == [[1.0]])
  {
    var sim := Gram(features);
    var augment := Augments(Some(kNearest));
    var base := CovisibilityMask(sim, threshold, augment, selected);
    GramSymmetric(features);
    MaskSymmetric(sim, threshold, augment, selected);
    ChainKeepsShape(base);
    if ensureConnected {
      ChainConnected(base);
    }
    if |features| == 1 {
      ChainSingleView(base);
      MatrixExtensionality(base, [[1.0]]);
    }
  }

  /** The minimum-degree part of BatchMaskProperties. */
  lemma BatchMaskDegree(features: Matrix, threshold: real, kNearest: int, ensureConnected: bool,
                        selected: seq<seq<nat>>)
    requires Rectangular(features) && kNearest > 0
    requires ValidSelection(Gram(features), TopCount(Some(kNearest), |features|), selected)
    requires |selected| == |features|
    ensures var m := BatchMask(features, threshold, kNearest, ensureConnected, selected);
      forall i :: 0 <= i < |m| ==> Ones(m[i]) >= TopCount(Some(kNearest), |features|)
  {
    var sim := Gram(features);
    var base := CovisibilityMask(sim, threshold, true, selected);
    var m := BatchMask(features, threshold, kNearest, ensureConnected, selected);
    assert m == if ensureConnected then WithChain(base) else base;
    forall i | 0 <= i < |m|
      ensures Ones(m[i]) >= TopCount(Some(kNearest), |features|)
    {
      MinimumDegree(sim, threshold, TopCount(Some(kNearest), |features|), selected, i);
      if ensureConnected {
        OnesMonotone(base[i], m[i]);
      }
    }
  }
}
