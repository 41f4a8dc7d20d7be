/**
  The attention gate of src/vggt_sparse_attention.py.

  SparseAttentionAggregator wraps a frozen aggregator. Before each model
  forward pass it recomputes its `attention_mask` (threshold 0.7, k = 10, no
  chain); during its own forward pass it swaps the wrapped aggregator's
  `attention` function for a closure that fills every score whose mask
  entry is 0 with -1e9, and puts the original back afterwards, unless the
  aggregator raised (there is no try/finally).
  `make_vggt_sparse` installs the wrapper in a model and overrides the
  model's forward so that the mask is set first.

  The frozen networks are not modelled: an aggregator call is represented
  by a record of its input and of the scoring rule in force while it ran,
  and the raw attention scores it computes are an input.
*/
module SparseAttention {

  import opened Wrappers
  import opened MegaLoc

  // ---------------------------------------------------------------------
  // The masking rule of `sparse_attention`
  // ---------------------------------------------------------------------

  /** The score given to non-covisible pairs. */
  const MaskedScore: real := -1000000000.0

  /** A 4-D score tensor [batch, heads, queries, keys] with its shape. */
  datatype Scores = Scores(batch: nat, heads: nat, queries: nat, keys: nat, at: seq<seq<seq<seq<real>>>>)

  predicate WellShaped(s: Scores)
  {
    && |s.at| == s.batch
    && (forall b :: 0 <= b < s.batch ==> |s.at[b]| == s.heads)
    && (forall b, h :: 0 <= b < s.batch && 0 <= h < s.heads ==> |s.at[b][h]| == s.queries)
    && (forall b, h, q :: 0 <= b < s.batch && 0 <= h < s.heads && 0 <= q < s.queries ==> |s.at[b][h][q]| == s.keys)
  }

  /** A stack of B square masks of one size S: the [B, S, S] `attention_mask`. */
  predicate StackedMasks(m: seq<Matrix>)
  {
    |m| >= 1 && forall b :: 0 <= b < |m| ==> IsSquare(m[b]) && |m[b]| == |m[0]|
  }

  /** Two tensor dimensions broadcast when equal or when either is 1. */
  predicate Broadcasts(d: nat, e: nat)
  {
    d == e || d == 1 || e == 1
  }

  /** The size of a broadcast dimension. */
  function Joined(d: nat, e: nat): nat
  {
    if d == 1 then e else d
  }

  /** The index into a dimension of size d that position i of the broadcast result reads. */
  function Pick(i: nat, d: nat): nat
  {
    if d == 1 then 0 else i
  }

  /** torch raises when the mask does not broadcast against the scores. */
  datatype ShapeError = NotBroadcastable

  /** The mask [B, S, S] after `unsqueeze(1)` broadcasts against the scores [B', H, Q, K]. */
  predicate MaskFits(s: Scores, m: seq<Matrix>)
    requires StackedMasks(m)
  {
    Broadcasts(s.batch, |m|) && Broadcasts(s.queries, |m[0]|) && Broadcasts(s.keys, |m[0]|)
  }

  function MaskAt(m: seq<Matrix>, b: nat, q: nat, k: nat): real
    requires StackedMasks(m)
    requires b < |m| && q < |m[0]| && k < |m[0]|
  {
    m[b][q][k]
  }

  /** `scores.masked_fill(mask.unsqueeze(1) == 0, -1e9)`, broadcasting mask and scores against each other. */
  function MaskedFill(s: Scores, m: seq<Matrix>): (r: Scores)
    requires WellShaped(s) && StackedMasks(m) && MaskFits(s, m)
    ensures WellShaped(r)
    ensures r.batch == Joined(s.batch, |m|) && r.heads == s.heads
    ensures r.queries == Joined(s.queries, |m[0]|) && r.keys == Joined(s.keys, |m[0]|)
  {
    var sz := |m[0]|;
    var nb, nq, nk := Joined(s.batch, |m|), Joined(s.queries, sz), Joined(s.keys, sz);
    Scores(nb, s.heads, nq, nk, seq(nb, b requires 0 <= b < nb => FilledHeads(s, m, b)))
  }

  /** Batch entry b of the masked scores, [heads, queries, keys]. */
  function FilledHeads(s: Scores, m: seq<Matrix>, b: nat): (r: seq<seq<seq<real>>>)
    requires WellShaped(s) && StackedMasks(m) && MaskFits(s, m) && b < Joined(s.batch, |m|)
    ensures |r| == s.heads
    ensures forall h :: 0 <= h < s.heads ==> |r[h]| == Joined(s.queries, |m[0]|)
    ensures forall h, q :: 0 <= h < s.heads && 0 <= q < |r[h]| ==> |r[h][q]| == Joined(s.keys, |m[0]|)
  {
    seq(s.heads, h requires 0 <= h < s.heads => FilledQueries(s, m, b, h))
  }

  /** Head h of batch entry b of the masked scores, [queries, keys]. */
  function FilledQueries(s: Scores, m: seq<Matrix>, b: nat, h: nat): (r: seq<seq<real>>)
    requires WellShaped(s) && StackedMasks(m) && MaskFits(s, m) && b < Joined(s.batch, |m|) && h < s.heads
    ensures |r| == Joined(s.queries, |m[0]|)
    ensures forall q :: 0 <= q < |r| ==> |r[q]| == Joined(s.keys, |m[0]|)
  {
    var nq := Joined(s.queries, |m[0]|);
    seq(nq, q requires 0 <= q < nq => FilledKeys(s, m, b, h, q))
  }

  /** Query q of head h of batch entry b of the masked scores, [keys]. */
  function FilledKeys(s: Scores, m: seq<Matrix>, b: nat, h: nat, q: nat): (r: seq<real>)
    requires WellShaped(s) && StackedMasks(m) && MaskFits(s, m)
    requires b < Joined(s.batch, |m|) && h < s.heads && q < Joined(s.queries, |m[0]|)
    ensures |r| == Joined(s.keys, |m[0]|)
  {
    var nk := Joined(s.keys, |m[0]|);
    seq(nk, k requires 0 <= k < nk => FilledScore(s, m, b, h, q, k))
  }

  /** Entry (b, h, q, k) of the masked scores. */
  function FilledScore(s: Scores, m: seq<Matrix>, b: nat, h: nat, q: nat, k: nat): real
    requires WellShaped(s) && StackedMasks(m) && MaskFits(s, m)
    requires b < Joined(s.batch, |m|) && h < s.heads
    requires q < Joined(s.queries, |m[0]|) && k < Joined(s.keys, |m[0]|)
  {
    var sz := |m[0]|;
    var sb, sq, sk := Pick(b, s.batch), Pick(q, s.queries), Pick(k, s.keys);
    assert |s.at[sb]| == s.heads && |s.at[sb][h]| == s.queries && |s.at[sb][h][sq]| == s.keys;
    if MaskAt(m, Pick(b, |m|), Pick(q, sz), Pick(k, sz)) == 0.0 then MaskedScore
    else s.at[sb][h][sq][sk]
  }

  /**
    The scores `sparse_attention` passes on to the softmax: unchanged when
    no mask is set, masked otherwise (the scaling by sqrt(d) that precedes
    this and the softmax that follows are not modelled).
  */
  function GateScores(s: Scores, mask: Option<seq<Matrix>>): (r: Result<Scores, ShapeError>)
    requires WellShaped(s) && (mask.Some? ==> StackedMasks(mask.value))
    ensures r.Failure? <==> mask.Some? && !MaskFits(s, mask.value)
    ensures r.Success? ==> WellShaped(r.value) && r.value.heads == s.heads
    ensures mask.None? ==> r == Success(s)
  {
    match mask
    case None => Success(s)
    case Some(m) => if MaskFits(s, m) then Success(MaskedFill(s, m)) else Failure(NotBroadcastable)
  }

  /** Without a mask the scores pass through unmasked. */
  lemma NoMaskPassesThrough(s: Scores)
    requires WellShaped(s)
    ensures GateScores(s, None) == Success(s)
  {
  }

  /** The mask has one entry per (batch, query, key) and one mask for all heads. */
  predicate SameShape(s: Scores, m: seq<Matrix>)
    requires StackedMasks(m)
  {
    s.batch == |m| && s.queries == |m[0]| && s.keys == |m[0]|
  }

  /**
    With a mask of the scores' own shape, a position scores -1e9 exactly
    when its mask entry is 0, for every head, and keeps its score otherwise.
  */
  lemma MaskRule(s: Scores, m: seq<Matrix>, b: nat, h: nat, q: nat, k: nat)
    requires WellShaped(s) && StackedMasks(m) && SameShape(s, m)
    requires b < s.batch && h < s.heads && q < s.queries && k < s.keys
    ensures GateScores(s, Some(m)).Success?
    ensures var r := GateScores(s, Some(m)).value;
      && r.batch == s.batch && r.heads == s.heads && r.queries == s.queries && r.keys == s.keys
      && (m[b][q][k] == 0.0 ==> r.at[b][h][q][k] == MaskedScore)
      && (m[b][q][k] != 0.0 ==> r.at[b][h][q][k] == s.at[b][h][q][k])
  {
    assert Pick(b, |m|) == b && Pick(b, s.batch) == b;
    assert Pick(q, |m[0]|) == q && Pick(q, s.queries) == q;
    assert Pick(k, |m[0]|) == k && Pick(k, s.keys) == k;
    var r := MaskedFill(s, m);
    assert r.at[b][h][q][k] ==
      if MaskAt(m, b, q, k) == 0.0 then MaskedScore else s.at[b][h][q][k];
  }

  /** A mask that is 1 everywhere leaves the scores as they are: dense attention. */
  lemma FullMaskIsDense(s: Scores, m: seq<Matrix>)
    requires WellShaped(s) && StackedMasks(m) && SameShape(s, m)
    requires forall b, q, k :: 0 <= b < |m| && 0 <= q < |m[0]| && 0 <= k < |m[0]| ==> m[b][q][k] == 1.0
    ensures GateScores(s, Some(m)) == Success(s)
  {
    var r := MaskedFill(s, m);
    forall b, h, q, k | 0 <= b < s.batch && 0 <= h < s.heads && 0 <= q < s.queries && 0 <= k < s.keys
      ensures r.at[b][h][q][k] == s.at[b][h][q][k]
    {
      MaskRule(s, m, b, h, q, k);
    }
    ScoresExtensionality(r, s);
  }

  /** Masking twice with the same mask is masking once. */
  lemma MaskIdempotent(s: Scores, m: seq<Matrix>)
    requires WellShaped(s) && StackedMasks(m) && SameShape(s, m)
    ensures GateScores(s, Some(m)).Success?
    ensures GateScores(GateScores(s, Some(m)).value, Some(m)) == GateScores(s, Some(m))
  {
    var r := MaskedFill(s, m);
    var rr := MaskedFill(r, m);
    forall b, h, q, k | 0 <= b < s.batch && 0 <= h < s.heads && 0 <= q < s.queries && 0 <= k < s.keys
      ensures rr.at[b][h][q][k] == r.at[b][h][q][k]
    {
      MaskRule(s, m, b, h, q, k);
      MaskRule(r, m, b, h, q, k);
    }
    ScoresExtensionality(rr, r);
  }

  lemma ScoresExtensionality(r: Scores, s: Scores)
    requires WellShaped(r) && WellShaped(s)
    requires r.batch == s.batch && r.heads == s.heads && r.queries == s.queries && r.keys == s.keys
    requires forall b, h, q, k :: 0 <= b < s.batch && 0 <= h < s.heads && 0 <= q < s.queries && 0 <= k < s.keys ==>
      r.at[b][h][q][k] == s.at[b][h][q][k]
    ensures r == s
  {
    forall b | 0 <= b < s.batch
      ensures r.at[b] == s.at[b]
    {
      forall h | 0 <= h < s.heads
        ensures r.at[b][h] == s.at[b][h]
      {
        forall q | 0 <= q < s.queries
          ensures r.at[b][h][q] == s.at[b][h][q]
        {
        }
      }
    }
  }

  // ---------------------------------------------------------------------
  // Images, masks for a batch
  // ---------------------------------------------------------------------

  /**
    A [B, S, 3, H, W] image batch, represented by the descriptor that
    `extract_features` gives each view: descriptors[b][s] for view s of
    batch element b.
  */
  datatype Images = Images(batch: nat, views: nat, descriptors: seq<Matrix>)

  predicate ValidImages(x: Images)
  {
    |x.descriptors| == x.batch &&
    forall b :: 0 <= b < x.batch ==> |x.descriptors[b]| == x.views && Rectangular(x.descriptors[b])
  }

  /** Similarity threshold of `set_covisibility_mask`. */
  const GateThreshold: real := 0.7
  /** Number of nearest views forced on by `set_covisibility_mask`. */
  const GateNearest: int := 10

  /**
    The masks `set_covisibility_mask` stores: mask b is
    `compute_covisibility_matrix(features[b], 0.7, 10)`, without the chain.
  */
  ghost predicate GateMasks(x: Images, masks: seq<Matrix>, selected: seq<seq<seq<nat>>>): (ok: bool)
    requires ValidImages(x)
    ensures ok ==> |masks| == x.batch && forall b :: 0 <= b < x.batch ==> IsSquare(masks[b]) && |masks[b]| == x.views
  {
    && |masks| == x.batch && |selected| == x.batch
    && forall b :: 0 <= b < x.batch ==>
         && ValidSelection(Gram(x.descriptors[b]), TopCount(Some(GateNearest), x.views), selected[b])
         && masks[b] == CovisibilityMask(Gram(x.descriptors[b]), GateThreshold, true, selected[b])
  }

  /**
    The stored masks form a [B, S, S] stack of symmetric 0/1 masks with a full
    diagonal and at least min(10, S) ones per row.
  */
  lemma GateMaskProperties(x: Images, masks: seq<Matrix>, selected: seq<seq<seq<nat>>>)
    requires ValidImages(x) && x.batch >= 1 && GateMasks(x, masks, selected)
    ensures StackedMasks(masks) && |masks[0]| == x.views
    ensures forall b :: 0 <= b < |masks| ==>
      && Binary(masks[b]) && Symmetric(masks[b])
      && (forall i :: 0 <= i < x.views ==> masks[b][i][i] == 1.0 && Ones(masks[b][i]) >= TopCount(Some(GateNearest), x.views))
  {
    forall b | 0 <= b < |masks|
      ensures Binary(masks[b]) && Symmetric(masks[b])
      ensures forall i :: 0 <= i < x.views ==> masks[b][i][i] == 1.0 && Ones(masks[b][i]) >= TopCount(Some(GateNearest), x.views)
    {
      var sim := Gram(x.descriptors[b]);
      GramSymmetric(x.descriptors[b]);
      MaskSymmetric(sim, GateThreshold, true, selected[b]);
      forall i | 0 <= i < x.views
        ensures masks[b][i][i] == 1.0 && Ones(masks[b][i]) >= TopCount(Some(GateNearest), x.views)
      {
        SelfCovisible(sim, GateThreshold, true, selected[b], i);
        MinimumDegree(sim, GateThreshold, TopCount(Some(GateNearest), x.views), selected[b], i);
      }
    }
  }

  /**
    With at most ten views, min(10, S) == S, so every view selects every
    other: the stored masks are all ones and the gate changes no score.
  */
  lemma GateDenseUpToTenViews(x: Images, masks: seq<Matrix>, selected: seq<seq<seq<nat>>>)
    requires ValidImages(x) && GateMasks(x, masks, selected) && x.views <= GateNearest
    ensures forall b, i, j :: 0 <= b < x.batch && 0 <= i < x.views && 0 <= j < x.views ==> masks[b][i][j] == 1.0
  {
    forall b | 0 <= b < x.batch
      ensures forall i, j :: 0 <= i < x.views && 0 <= j < x.views ==> masks[b][i][j] == 1.0
    {
      FullSelectionDense(Gram(x.descriptors[b]), GateThreshold, selected[b]);
    }
  }

  // ---------------------------------------------------------------------
  // The wrapped aggregator and the swap of its `attention` function
  // ---------------------------------------------------------------------

  /** The attention functions an aggregator can hold. */
  datatype AttentionFn =
    | Dense(id: nat)                                    // a function of the frozen model
    | Gated(owner: SparseAttentionAggregator)           // the `sparse_attention` closure of a wrapper

  /** A Python value stored in the `attention` attribute. */
  datatype PyValue = PyNone | Fn(f: AttentionFn)

  /** The `attention` attribute: missing, or holding a value. */
  datatype Slot = Absent | Holds(value: PyValue)

  /** How scores are computed during one aggregator call. */
  datatype Scoring =
    | BuiltIn                                              // no `attention` attribute: the aggregator's own computation
    | Calls(value: PyValue)                                // whatever the attribute holds, called as is
    | Masked(mask: Option<seq<Matrix>>, scores: Scores)    // `sparse_attention`: its owner's current mask and the scores it passes to the softmax

  /** The result of one call of the frozen aggregator. */
  datatype AggregatorOutput = AggregatorOutput(input: Images, scoring: Scoring)

  function SlotReads(a: Slot): set<object>
  {
    if a.Holds? && a.value.Fn? && a.value.f.Gated? then {a.value.f.owner} else {}
  }

  /** The `sparse_attention` of a wrapper, installed in a slot. */
  predicate IsGated(a: Slot)
  {
    a.Holds? && a.value.Fn? && a.value.f.Gated?
  }

  /**
    One call of `sparse_attention` on the raw scores `s` the frozen network
    computes: `masked_fill` raises when the owner's mask does not broadcast
    against them, and the exception leaves the aggregator call.
  */
  function GatedRun(x: Images, s: Scores, mask: Option<seq<Matrix>>): (r: Result<AggregatorOutput, ShapeError>)
    requires WellShaped(s) && (mask.Some? ==> StackedMasks(mask.value))
    ensures r.Failure? <==> mask.Some? && !MaskFits(s, mask.value)
    ensures r.Success? ==> r.value.input == x && r.value.scoring.Masked? && r.value.scoring.mask == mask
    ensures mask.None? ==> r == Success(AggregatorOutput(x, Masked(None, s)))
  {
    match GateScores(s, mask)
    case Success(g) => Success(AggregatorOutput(x, Masked(mask, g)))
    case Failure(e) => Failure(e)
  }

  /**
    The frozen aggregator: only its `attention` attribute is modelled. The
    network itself is represented by the raw scores its attention computes.
  */
  class Aggregator {
    var attention: Slot

    constructor(attention: Slot)
      ensures this.attention == attention
    {
      this.attention := attention;
    }

    /** An installed gate belongs to a wrapper whose mask is a [B, S, S] stack. */
    predicate Ready()
      reads this, SlotReads(attention)
    {
      IsGated(attention) ==> attention.value.f.owner.Valid()
    }

    /**
      `aggregator(x)`: run with the attention function currently installed,
      on the raw scores `s`; a gate whose mask does not fit them raises.
    */
    function Call(x: Images, s: Scores): (r: Result<AggregatorOutput, ShapeError>)
      requires WellShaped(s) && Ready()
      reads this, SlotReads(attention)
      ensures attention.Absent? ==> r == Success(AggregatorOutput(x, BuiltIn))
      ensures attention.Holds? && !IsGated(attention) ==> r == Success(AggregatorOutput(x, Calls(attention.value)))
      ensures r.Failure? <==>
        IsGated(attention) && attention.value.f.owner.attentionMask.Some?
        && !MaskFits(s, attention.value.f.owner.attentionMask.value)
    {
      match attention
      case Absent => Success(AggregatorOutput(x, BuiltIn))
      case Holds(v) =>
        if v.Fn? && v.f.Gated? then GatedRun(x, s, v.f.owner.attentionMask)
        else Success(AggregatorOutput(x, Calls(v)))
    }
  }

  /** SparseAttentionAggregator. */
  class SparseAttentionAggregator {
    const aggregator: Aggregator
    const megaloc: Config
    var attentionMask: Option<seq<Matrix>>
    /** The top-k choices (ties are the tensor library's) behind the current mask. */
    ghost var selected: seq<seq<seq<nat>>>

    /** The stored mask, when there is one, is a [B, S, S] tensor. */
    predicate Valid()
      reads this
    {
      attentionMask.Some? ==> StackedMasks(attentionMask.value)
    }

    /** `__init__`: keeps the original aggregator and starts without a mask. */
    constructor(original: Aggregator, megaloc: Config)
      ensures aggregator == original && this.megaloc == megaloc
      ensures attentionMask == None
      ensures Valid()
    {
      aggregator := original;
      this.megaloc := megaloc;
      attentionMask := None;
      selected := [];
    }

    /**
      `set_covisibility_mask(images)`: replaces the mask with one computed for
      these images. Stacking fails (and the old mask stays) when there are no
      views or no batch elements.
    */
    method SetCovisibilityMask(x: Images) returns (ok: bool)
      requires ValidImages(x) && Valid()
      modifies this`attentionMask, this`selected
      ensures Valid()
      ensures ok <==> x.batch >= 1 && x.views >= 1
      ensures ok ==> attentionMask.Some? && GateMasks(x, attentionMask.value, selected)
      ensures !ok ==> attentionMask == old(attentionMask) && selected == old(selected)
    {
      if x.batch == 0 || x.views == 0 {
        return false;
      }
      var masks: seq<Matrix> := [];
      ghost var sels: seq<seq<seq<nat>>> := [];
      while |masks| < x.batch
        invariant |masks| <= x.batch && |sels| == |masks|
        invariant forall b :: 0 <= b < |masks| ==>
          && ValidSelection(Gram(x.descriptors[b]), TopCount(Some(GateNearest), x.views), sels[b])
          && masks[b] == CovisibilityMask(Gram(x.descriptors[b]), GateThreshold, true, sels[b])
      {
        var b := |masks|;
        var mask, sel := ComputeCovisibilityMatrix(x.descriptors[b], GateThreshold, Some(GateNearest));
        MatrixExtensionality(Rows(mask), CovisibilityMask(Gram(x.descriptors[b]), GateThreshold, true, sel));
        masks := masks + [Rows(mask)];
        sels := sels + [sel];
      }
      attentionMask := Some(masks);
      selected := sels;
      GateMaskProperties(x, masks, sels);
      ok := true;
    }

    /**
      `forward(x)`: installs `sparse_attention` while the wrapped aggregator
      runs on raw scores `s`, when it has an `attention` attribute, and
      restores the previous function afterwards unless that previous value
      was None. An exception from the aggregator skips the restore, so the
      gate stays installed.
    */
    method Forward(x: Images, s: Scores) returns (r: Result<AggregatorOutput, ShapeError>)
      requires WellShaped(s) && Valid()
      modifies aggregator`attention
      ensures old(aggregator.attention).Absent? ==>
        aggregator.attention == Absent && r == Success(AggregatorOutput(x, BuiltIn))
      ensures old(aggregator.attention).Holds? ==> r == GatedRun(x, s, attentionMask)
      ensures old(aggregator.attention).Holds? && old(aggregator.attention).value.Fn? && r.Success? ==>
        aggregator.attention == old(aggregator.attention)
      ensures old(aggregator.attention).Holds? && (old(aggregator.attention).value == PyNone || r.Failure?) ==>
        aggregator.attention == Holds(Fn(Gated(this)))
    {
      var original := if aggregator.attention.Holds? then aggregator.attention.value else PyNone;
      if aggregator.attention.Holds? {
        aggregator.attention := Holds(Fn(Gated(this)));
      }
      r := aggregator.Call(x, s);
      if r.Failure? {
        return;
      }
      if original != PyNone {
        aggregator.attention := Holds(original);
      }
    }
  }

  // ---------------------------------------------------------------------
  // The model and make_vggt_sparse
  // ---------------------------------------------------------------------

  /** What `model.aggregator` holds. */
  datatype AggregatorRef = Plain(agg: Aggregator) | Sparse(wrapper: SparseAttentionAggregator)

  /** What `model.forward` is: the model's own method, or `forward_with_mask`. */
  datatype ForwardFn = OriginalForward | ForwardWithMask

  /** A model output: the heads are not modelled, only what they were given. */
  datatype ModelOutput = ModelOutput(aggregated: AggregatorOutput, queryPoints: Option<seq<real>>)

  /**
    A model call raises inside `set_covisibility_mask` when the masks cannot
    be stacked, or inside the aggregator when the mask does not fit the scores.
  */
  datatype ForwardError = StackFailed | Attention(error: ShapeError)

  class Vggt {
    var aggregator: AggregatorRef
    var forward: ForwardFn

    constructor(agg: Aggregator)
      ensures aggregator == Plain(agg) && forward == OriginalForward
    {
      aggregator := Plain(agg);
      forward := OriginalForward;
    }

    /** The objects a forward pass may change. */
    function Touches(): set<object>
      reads this
    {
      if aggregator.Sparse? then {aggregator.wrapper, aggregator.wrapper.aggregator} else {}
    }

    /** The objects `Valid` looks at. */
    function Parts(): set<object>
      reads this, if aggregator.Plain? then {aggregator.agg} else {}
    {
      match aggregator
      case Plain(a) => {a} + SlotReads(a.attention)
      case Sparse(w) => {w}
    }

    /** Every mask the model can read is a [B, S, S] stack. */
    predicate Valid()
      reads this, Parts()
    {
      match aggregator
      case Plain(a) => a.Ready()
      case Sparse(w) => w.Valid()
    }

    /** The model's own forward: the aggregator runs on the images, the heads follow. */
    method RunOriginal(x: Images, s: Scores, queryPoints: Option<seq<real>>) returns (r: Result<ModelOutput, ShapeError>)
      requires WellShaped(s) && Valid()
      modifies if aggregator.Sparse? then {aggregator.wrapper.aggregator} else {}
      ensures aggregator == old(aggregator) && forward == old(forward)
      ensures aggregator.Plain? ==> r == Lift(old(aggregator.agg.Call(x, s)), queryPoints)
      ensures aggregator.Sparse? ==> var w := aggregator.wrapper;
        && w.attentionMask == old(w.attentionMask)
        && (old(w.aggregator.attention).Holds? ==> r == Lift(GatedRun(x, s, w.attentionMask), queryPoints))
        && (old(w.aggregator.attention).Absent? ==>
              w.aggregator.attention == Absent && r == Success(ModelOutput(AggregatorOutput(x, BuiltIn), queryPoints)))
        && (old(w.aggregator.attention).Holds? && old(w.aggregator.attention).value.Fn? && r.Success? ==>
              w.aggregator.attention == old(w.aggregator.attention))
        && (old(w.aggregator.attention).Holds? && (old(w.aggregator.attention).value == PyNone || r.Failure?) ==>
              w.aggregator.attention == Holds(Fn(Gated(w))))
    {
      match aggregator
      case Plain(a) =>
        r := Lift(a.Call(x, s), queryPoints);
      case Sparse(w) =>
        var agg := w.Forward(x, s);
        r := Lift(agg, queryPoints);
    }

    /**
      `model(images, query_points)`. After `make_vggt_sparse` the mask is
      recomputed for these images first, then the original forward runs on
      the same arguments with the gate in place.
    */
    method Call(x: Images, s: Scores, queryPoints: Option<seq<real>>) returns (r: Result<ModelOutput, ForwardError>)
      requires ValidImages(x) && WellShaped(s) && Valid()
      modifies Touches()
      ensures aggregator == old(aggregator) && forward == old(forward)
      ensures forward == OriginalForward && aggregator.Plain? ==>
        r == Raise(Lift(old(aggregator.agg.Call(x, s)), queryPoints))
      ensures forward == ForwardWithMask && aggregator.Sparse? ==> var w := aggregator.wrapper;
        && (r == Failure(StackFailed) <==> x.batch == 0 || x.views == 0)
        && (r == Failure(StackFailed) ==>
              && w.attentionMask == old(w.attentionMask) && w.selected == old(w.selected)
              && w.aggregator.attention == old(w.aggregator.attention))
        && (r != Failure(StackFailed) ==>
              && w.attentionMask.Some? && GateMasks(x, w.attentionMask.value, w.selected)
              && (old(w.aggregator.attention).Holds? ==>
                    r == Raise(Lift(GatedRun(x, s, w.attentionMask), queryPoints)))
              && (old(w.aggregator.attention).Absent? ==>
                    w.aggregator.attention == Absent && r == Success(ModelOutput(AggregatorOutput(x, BuiltIn), queryPoints)))
              && (old(w.aggregator.attention).Holds? && old(w.aggregator.attention).value.Fn? && r.Success? ==>
                    w.aggregator.attention == old(w.aggregator.attention))
              && (old(w.aggregator.attention).Holds? && (old(w.aggregator.attention).value == PyNone || r.Failure?) ==>
                    w.aggregator.attention == Holds(Fn(Gated(w)))))
    {
      if forward == ForwardWithMask && aggregator.Sparse? {
        var ok := aggregator.wrapper.SetCovisibilityMask(x);
        if !ok {
          return Failure(StackFailed);
        }
      }
      var out := RunOriginal(x, s, queryPoints);
      r := Raise(out);
    }
  }

  /** The heads run on the aggregator's output, or its exception propagates. */
  function Lift(a: Result<AggregatorOutput, ShapeError>, queryPoints: Option<seq<real>>): (r: Result<ModelOutput, ShapeError>)
    ensures r.Success? <==> a.Success?
    ensures r.Success? ==> r.value.aggregated == a.value && r.value.queryPoints == queryPoints
    ensures r.Failure? ==> r.error == a.error
  {
    match a
    case Success(o) => Success(ModelOutput(o, queryPoints))
    case Failure(e) => Failure(e)
  }

  /** An exception from the attention computation leaves the model call. */
  function Raise(a: Result<ModelOutput, ShapeError>): (r: Result<ModelOutput, ForwardError>)
    ensures r.Success? <==> a.Success?
    ensures r.Success? ==> r.value == a.value
    ensures r.Failure? ==> r.error == Attention(a.error)
  {
    match a
    case Success(o) => Success(o)
    case Failure(e) => Failure(Attention(e))
  }

  /**
    `make_vggt_sparse(model)`: the model's aggregator becomes a fresh wrapper
    around the previous one (with no mask yet, and a `MegaLocMPS` with its
    default sizes), and its forward becomes `forward_with_mask`.
  */
  method MakeVggtSparse(model: Vggt)
    requires model.aggregator.Plain? && model.forward == OriginalForward
    modifies model
    ensures model.aggregator.Sparse? && fresh(model.aggregator.wrapper)
    ensures model.aggregator.wrapper.aggregator == old(model.aggregator.agg)
    ensures model.aggregator.wrapper.megaloc == DefaultConfig
    ensures model.aggregator.wrapper.attentionMask == None
    ensures model.aggregator.wrapper.aggregator.attention == old(model.aggregator.agg.attention)
    ensures model.forward == ForwardWithMask
    ensures model.Valid()
  {
    var original := model.aggregator.agg;
    var sparse := new SparseAttentionAggregator(original, DefaultConfig);
    model.aggregator := Sparse(sparse);
    model.forward := ForwardWithMask;
  }
}
