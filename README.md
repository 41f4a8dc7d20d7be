# Covisibility-gated sparse attention of VGGT-MPS, in Dafny

This project models the covisibility-gated sparse attention of the VGGT-MPS
repository and proves properties of that model. It also models the small
deterministic pieces around it: the workspace cleaner, the point-cloud and
mesh exporters, and the frame sampler and GLB file naming of the Gradio demo.

- `MegaLoc` (`megaloc.dfy`) is the covisibility graph builder of `MegaLocMPS`.
  - Per-view descriptors are an input.
  - The similarity matrix is F·Fᵗ (`Gram`).
  - The N×N mask is a 2-D array that is mutated in place, as in the source:
    it is thresholded strictly, the top-`min(k, N)` entries of every row are
    forced on symmetrically, the diagonal is set, and the chain i↔i+1 is
    optionally added.
  - Each method is proved against a pure function (`CovisibilityMask`,
    `WithChain`, `BatchMask`), and the graph properties are proved about
    those functions.
  - Top-k is specified abstractly (`IsTopK`), because the tensor library
    breaks ties: m distinct positions, each at least as large as every
    position left out.
- `SparseAttention` (`sparse_attention.dfy`) is `SparseAttentionAggregator`.
  - It has a mutable mask field.
  - The masking rule is a pure function of a 4-D score tensor; the mask is
    broadcast over heads.
  - `forward` swaps the wrapped aggregator's `attention` attribute and
    restores it afterwards, unless the aggregator raised: there is no
    try/finally, so an exception leaves the gate installed.
  - The raw attention scores of the frozen network are an input; a mask
    that does not broadcast against them makes `masked_fill` raise.
  - `make_vggt_sparse` rewires a model object: its aggregator and its forward.
- `Cleanup` (`cleanup.dfy`) is `scripts/cleanup.py`: the group defaults,
  de-duplication by resolved key, `format_bytes`, `confirm`, `remove_target`
  over a map from paths to entries, and the return codes of `main`.
- `Export` (`export.dfy`) is `src/vggt_mps/utils/export.py`.
  - Files are a map from path to lines.
  - Header lines and face lines are exact strings.
  - Vertex lines keep the point and colour they format.
- `DemoGradio` (`demo_gradio.dfy`) is the frame-sampling loop and summary of
  `vggt_extract_video_frames`, and the GLB file name of `vggt_create_3d_scene`.
- `Text` (`text.dfy`) holds the decimal rendering of integers that the
  f-strings perform, with its parser, plus `str.replace`.
- `Wrappers` (`wrappers.dfy`) holds `Option` and `Result`.

Where the code and its design description disagree, this model follows the
code:

- **Top-k can select the view itself.** `topk` runs over the whole row,
  including the diagonal, so the view is not excluded from its own k nearest.
  A view can therefore spend a slot on itself and gain no neighbour
  (`MegaLoc.SelfMaySelectItself`), and the degree bound counts the diagonal.
- **`forward` does not always restore the attribute.** It restores only when
  the previous value was not `None`, and only when the aggregator returned.
  If the attribute held `None`, or the aggregator raised, the gate stays
  installed after the call (`SparseAttention.SparseAttentionAggregator.Forward`).
- **The summary's frame index is off by one interval.** The summary records
  `original_frame_index = i * frame_interval`. The frame actually saved is
  count `(i + 1) * frame_interval` (1-based), so the recorded index is one
  interval too small (`DemoGradio.SummaryIndexOffset`).

One consequence of the code is worth stating: `set_covisibility_mask` uses
k = 10. With ten views or fewer, every view therefore selects every other
view, and the "sparse" mask is all ones (`SparseAttention.GateDenseUpToTenViews`
with `SparseAttention.FullMaskIsDense`).

## Model

| member | source | states |
|---|---|---|
| MegaLoc.Descriptor | src/vggt_mps/megaloc_mps.py:53 | the descriptor is `num_clusters*cluster_dim + token_dim` long, with the local SALAD block first and the global token part after it |
| MegaLoc.DefaultOutDim | src/vggt_mps/megaloc_mps.py:53 | with the default sizes the descriptor length is 16640 |
| MegaLoc.ResizeTarget | src/vggt_mps/megaloc_mps.py:82-84 | the resized side is a multiple of 14, no larger than the input side, and more than the input side minus 14 |
| MegaLoc.NeedsResize | src/vggt_mps/megaloc_mps.py:85-86 | interpolation happens exactly when a side is not a multiple of 14 |
| MegaLoc.Gram | src/vggt_mps/megaloc_mps.py:139 | the similarity matrix of N descriptors is N×N |
| MegaLoc.GramSymmetric | src/vggt_mps/megaloc_mps.py:139 | F·Fᵗ is symmetric for every descriptor matrix |
| MegaLoc.TopK | src/vggt_mps/megaloc_mps.py:147 | selection returns m distinct positions of the row, each as large as every position not chosen; the row's own position is not excluded |
| MegaLoc.TopKRows | src/vggt_mps/megaloc_mps.py:147 | one valid top-m selection for every row |
| MegaLoc.TopCount | src/vggt_mps/megaloc_mps.py:147 | `min(k_nearest, N)` is at most both and equals one of them |
| MegaLoc.ScatterNearest | src/vggt_mps/megaloc_mps.py:150-152 | after the k-NN loop an entry is 1 exactly when it was above the threshold, or j was selected for row i, or i for row j; otherwise it is 0 |
| MegaLoc.FillDiagonal | src/vggt_mps/megaloc_mps.py:155 | the diagonal becomes 1 and no other entry changes |
| MegaLoc.ComputeCovisibilityMatrix | src/vggt_mps/megaloc_mps.py:119-157 | returns a fresh N×N mask equal to `CovisibilityMask` of F·Fᵗ, with a valid top-`min(k,N)` selection exactly when `k_nearest` is set and positive |
| MegaLoc.EnsureGraphConnectivity | src/vggt_mps/megaloc_mps.py:203-224 | sets mask[i][i+1] and mask[i+1][i] to 1 for every i < N−1 and changes no other entry |
| MegaLoc.GenerateAttentionMask | src/vggt_mps/megaloc_mps.py:159-201 | for a [B, S] batch, fails exactly when the batch is empty (stacking nothing raises); otherwise returns B masks, each S×S, mask b built from element b alone, with the chain iff `ensure_connected` |
| MegaLoc.CovisibilityMask | src/vggt_mps/megaloc_mps.py:142-155 | the mask is square, N×N and 0/1 |
| MegaLoc.WithChain | src/vggt_mps/megaloc_mps.py:217-219 | adding the chain keeps the mask square and of the same size |
| MegaLoc.BatchMask | src/vggt_mps/megaloc_mps.py:188-194 | each batch element's mask is S×S |
| MegaLoc.ThresholdOnly | src/vggt_mps/megaloc_mps.py:142 | without augmentation an off-diagonal entry is 1 iff its similarity is strictly above the threshold; equality gives 0 |
| MegaLoc.ThresholdEdgesKept | src/vggt_mps/megaloc_mps.py:142-155 | augmentation never clears a thresholded edge |
| MegaLoc.SelfCovisible | src/vggt_mps/megaloc_mps.py:155 | every view is covisible with itself |
| MegaLoc.SelectedNeighboursJoined | src/vggt_mps/megaloc_mps.py:150-152 | a selected neighbour j of row i has mask[i][j] = mask[j][i] = 1 |
| MegaLoc.MaskSymmetric | src/vggt_mps/megaloc_mps.py:139-155 | a symmetric similarity matrix gives a symmetric mask, whatever the selections |
| MegaLoc.MinimumDegree | src/vggt_mps/megaloc_mps.py:145-152 | with augmentation every row has at least `min(k, N)` ones |
| MegaLoc.ThresholdMonotone | src/vggt_mps/megaloc_mps.py:142 | raising the threshold never adds an edge, so the number of edges does not increase |
| MegaLoc.AllSimilarFullyConnected | src/vggt_mps/megaloc_mps.py:142-155 | when every similarity exceeds the threshold the mask is all ones (N² ones) |
| MegaLoc.SelfMaySelectItself | src/vggt_mps/megaloc_mps.py:147-152 | with two dissimilar views and k = 1, each view selects only itself and the mask stays the identity |
| MegaLoc.FullSelectionDense | src/vggt_mps/megaloc_mps.py:145-152 | when `min(k, N) = N` the augmented mask is all ones, whatever the similarities and the threshold |
| MegaLoc.ChainConnected | src/vggt_mps/megaloc_mps.py:215-219 | after the chain every pair of views is joined by a walk |
| MegaLoc.ChainOnlyAdds | src/vggt_mps/megaloc_mps.py:217-219 | the chain sets exactly the chain entries to 1, keeps every other entry, and keeps every existing edge |
| MegaLoc.ChainSingleView | src/vggt_mps/megaloc_mps.py:217 | a single view leaves the mask unchanged |
| MegaLoc.ChainKeepsShape | src/vggt_mps/megaloc_mps.py:217-219 | the chain keeps the mask binary and symmetric |
| MegaLoc.BatchMaskProperties | src/vggt_mps/megaloc_mps.py:178-201 | every returned mask is binary and symmetric, has a full diagonal and at least `min(k, S)` ones per row when k > 0, is connected when `ensure_connected` holds, and is [[1]] for a single view |
| SparseAttention.MaskedFill | src/vggt_sparse_attention.py:71-73 | the [B,S,S] mask gains a head axis and broadcasts against the scores; the result has the broadcast shape |
| SparseAttention.GateScores | src/vggt_sparse_attention.py:69-73 | the scores passed to the softmax: unchanged without a mask, masked with one, and a failure exactly when the mask does not broadcast against the scores |
| SparseAttention.NoMaskPassesThrough | src/vggt_sparse_attention.py:69 | with no mask the scores pass through unchanged |
| SparseAttention.MaskRule | src/vggt_sparse_attention.py:69-73 | a position scores −1e9 exactly when its mask entry is 0, for every head, and keeps its score otherwise |
| SparseAttention.FullMaskIsDense | src/vggt_sparse_attention.py:69-73 | an all-ones mask leaves the scores unchanged |
| SparseAttention.MaskIdempotent | src/vggt_sparse_attention.py:73 | masking twice with one mask is masking once |
| SparseAttention.GateMaskProperties | src/vggt_sparse_attention.py:45-55 | the stored masks are a [B,S,S] stack of symmetric 0/1 masks with a full diagonal and at least `min(10, S)` ones per row |
| SparseAttention.GateDenseUpToTenViews | src/vggt_sparse_attention.py:48-52 | with at most ten views every stored mask entry is 1 |
| SparseAttention.GateMasks | src/vggt_sparse_attention.py:45-55 | mask b is the covisibility mask of element b's descriptors with threshold 0.7, k = 10 and no chain, so the masks are B square S×S matrices; the rest is `GateMaskProperties` |
| SparseAttention.GatedRun | src/vggt_sparse_attention.py:63-79 | one call of `sparse_attention`: fails exactly when the owner's mask does not fit the scores, and otherwise records that mask and the masked scores |
| SparseAttention.Aggregator.constructor | src/vggt_sparse_attention.py:60 | the frozen aggregator holds the given `attention` attribute, or none |
| SparseAttention.Aggregator.Call | src/vggt_sparse_attention.py:86 | the aggregator runs with what its `attention` attribute holds, and raises exactly when that is a gate whose mask does not fit the scores |
| SparseAttention.SparseAttentionAggregator.constructor | src/vggt_sparse_attention.py:28-32 | a new wrapper holds the original aggregator and has no mask |
| SparseAttention.SparseAttentionAggregator.SetCovisibilityMask | src/vggt_sparse_attention.py:34-55 | succeeds iff there is at least one batch element and one view; then the mask is replaced by the masks of these images, built with threshold 0.7, k = 10 and no chain; otherwise the mask is unchanged |
| SparseAttention.SparseAttentionAggregator.Forward | src/vggt_sparse_attention.py:57-92 | with no `attention` attribute the aggregator runs unchanged; otherwise it runs with the gate reading the current mask and fails exactly when that mask does not broadcast against the scores; a previous function is restored after a successful run, while a previous `None` or a raise leaves the gate installed |
| SparseAttention.Vggt.constructor | src/vggt_sparse_attention.py:117 | a model starts with its own aggregator and its own forward |
| SparseAttention.Vggt.RunOriginal | src/vggt_sparse_attention.py:132 | the model's own forward runs the aggregator, or the wrapper's forward, on the images and keeps the mask; an exception from the gate propagates and leaves the gate installed, as does a previous `None` |
| SparseAttention.Vggt.Call | src/vggt_sparse_attention.py:126-132 | after conversion a call first recomputes the mask for these images, then delegates with the same arguments; it fails with `StackFailed` iff the masks cannot be stacked, leaving mask and attribute unchanged, and otherwise fails iff the new mask does not fit the scores, in which case the gate stays installed; an unconverted model just runs its aggregator |
| SparseAttention.MakeVggtSparse | src/vggt_sparse_attention.py:113-134 | the model's aggregator becomes a fresh wrapper around the previous one, with a default-sized `MegaLocMPS`, no mask and the previous `attention` attribute untouched, and the forward becomes `forward_with_mask` |
| Cleanup.WithDefault | scripts/cleanup.py:133-134 | runtime becomes selected exactly when it was, or when no group was named; every other flag is kept |
| Cleanup.DefaultSelectsSomething | scripts/cleanup.py:133-134 | after the default at least one group is selected; applying it again changes nothing; a command line that names a group is left as it is |
| Cleanup.Selected | scripts/cleanup.py:77-84 | `all` selects the runtime, build and model groups in that order, no flag selects nothing, and every selected target belongs to one of the groups |
| Cleanup.FirstOccurrencesKeys | scripts/cleanup.py:86-94 | de-duplication leaves no two targets with one resolved key and loses no key |
| Cleanup.FirstOccurrencesOrder | scripts/cleanup.py:86-94 | the kept targets are the first occurrences of their keys, in their original relative order; every dropped target has a key seen earlier |
| Cleanup.FirstOccurrencesOfDistinct | scripts/cleanup.py:86-94 | targets with distinct keys are kept as they are |
| Cleanup.FirstOccurrencesIdempotent | scripts/cleanup.py:86-94 | de-duplicating twice is de-duplicating once |
| Cleanup.Deduplicate | scripts/cleanup.py:87-94 | the `seen`-set loop computes the first occurrences of the targets |
| Cleanup.CollectTargets | scripts/cleanup.py:74-94 | the result is the first occurrences of the selected groups, taken in the order runtime, build, models |
| Cleanup.FirstOccurrencesCovers | scripts/cleanup.py:86-94 | every input target's key appears in the output |
| Cleanup.SelectedGroupsCovered | scripts/cleanup.py:77-84 | every target of a group that `all` or its own flag selects has its key in the output |
| Cleanup.AllCollectsEverything | scripts/cleanup.py:77-84 | with `all` and resolution as the identity, the output is all ten targets in group order |
| Cleanup.UnitFrom | scripts/cleanup.py:67-70 | the unit chosen is the first one from i on at which the running value is below 1024, or TB |
| Cleanup.FormatBytes | scripts/cleanup.py:66-71 | the loop returns the first unit at which the running value is below 1024 (TB otherwise), with the value divided by 1024 once per unit passed |
| Cleanup.UnitFromFirst | scripts/cleanup.py:67-69 | a unit where the loop stops, with no earlier stop, is the one chosen |
| Cleanup.FormatBytesBounds | scripts/cleanup.py:66-71 | the shown value is below 1024 unless the unit is TB, and at least 1 when the unit is above B; below 1024 bytes the unit is B |
| Cleanup.FormatBytesExample | scripts/cleanup.py:66-71 | 1536 bytes is 1.5 KB |
| Cleanup.StripLeft | scripts/cleanup.py:115 | the result is a suffix of the input with any leading whitespace removed, and does not start with whitespace |
| Cleanup.StripRight | scripts/cleanup.py:115 | the result is a prefix of the input with any trailing whitespace removed, and does not end with whitespace |
| Cleanup.Lower | scripts/cleanup.py:115 | upper-case ASCII letters become lower case and other characters are kept |
| Cleanup.StripPadded | scripts/cleanup.py:115 | stripping removes exactly the whitespace padding around a core with no whitespace at its ends |
| Cleanup.Strip | scripts/cleanup.py:115 | the result is no longer than the reply and neither starts nor ends with whitespace; what it removes is `StripPadded` |
| Cleanup.Confirm | scripts/cleanup.py:113-118 | end of input declines and a blank reply confirms; the full rule is `ConfirmPadded` |
| Cleanup.ConfirmPadded | scripts/cleanup.py:113-118 | a padded reply is accepted iff its lower-cased core is "y", "yes" or empty |
| Cleanup.ConfirmDeclines | scripts/cleanup.py:116-118 | end of input and "no" are both refusals |
| Cleanup.WithoutTree | scripts/cleanup.py:105 | removing a tree drops exactly the paths under it and keeps the rest |
| Cleanup.Removal | scripts/cleanup.py:97-110 | raises exactly when `unlink` meets a directory; otherwise only deletes, and only inside the target's tree (only the target itself for `unlink`); removes the target when it is of the kind it claims; `rmtree` on a file, an absent target and a dry run change nothing |
| Cleanup.RemovalAll | scripts/cleanup.py:167-168 | the deletion loop only deletes: every path left is an original path with its original entry |
| Cleanup.RemovalAllKeeps | scripts/cleanup.py:167-168 | a path under none of the targets survives the loop with its entry, whether or not the loop raises |
| Cleanup.RemovalAllStops | scripts/cleanup.py:167-168 | when the loop raises, it raised at some target k: the disk is what the first k targets left without an error, and target k raises on it |
| Cleanup.Workspace.constructor | scripts/cleanup.py:139 | the workspace starts with the given disk |
| Cleanup.Workspace.RemoveTarget | scripts/cleanup.py:97-110 | the disk becomes `Removal`: nothing when the target is absent or in a dry run; `rmtree` deletes a directory tree and leaves a file; `unlink` deletes a file and raises on a directory, leaving the disk unchanged |
| Cleanup.Workspace.RemoveAll | scripts/cleanup.py:167-168 | removes the targets in order, stopping at the first exception; the disk is the one `RemovalAll` reaches, with the earlier targets removed |
| Cleanup.Workspace.Run | scripts/cleanup.py:139-171 | returns 0 with nothing removed when no target exists or on a dry run, 1 with nothing removed when the reply declines, and otherwise removes the existing targets in order and returns 0, or lets the exception escape with the targets before the failing one removed |
| Cleanup.ExistingIn | scripts/cleanup.py:143 | keeps exactly the targets present on disk |
| Cleanup.RemovalAllClears | scripts/cleanup.py:167-168 | when every target is of the kind it claims, removing them raises nothing and none remains |
| Cleanup.RemovalAllMonotone | scripts/cleanup.py:167-168 | removal never creates a path, whether or not it raises |
| Export.ElementCountRoundTrip | src/vggt_mps/utils/export.py:43 | the count written in an `element` line reads back |
| Export.PlyHeaderShape | src/vggt_mps/utils/export.py:39-56 | the point-cloud header is "ply", "format ascii 1.0", "element vertex N", the x/y/z properties, the colour properties iff colours are given, then "end_header" (7 lines or 10), with "end_header" only at the end |
| Export.MeshPlyHeaderShape | src/vggt_mps/utils/export.py:141-161 | the mesh header is the point header up to the vertex properties, then "element face M" and the vertex_indices property immediately before "end_header" |
| Export.PlyHeader | src/vggt_mps/utils/export.py:40-56 | the header has 7 lines, or 10 with colours; its layout is `PlyHeaderShape` |
| Export.MeshPlyHeader | src/vggt_mps/utils/export.py:141-161 | the mesh header has 9 lines, or 12 with colours; its layout is `MeshPlyHeaderShape` |
| Export.SplitSpace | src/vggt_mps/utils/export.py:134 | the first field contains no space |
| Export.SplitSpaceJoin | src/vggt_mps/utils/export.py:134 | splitting at the first space recovers the two parts |
| Export.IntToStringNoSpace | src/vggt_mps/utils/export.py:134 | a rendered integer contains no space |
| Export.ParseTripleRoundTrip | src/vggt_mps/utils/export.py:134 | three space-separated integers read back |
| Export.ObjFaceRoundTrip | src/vggt_mps/utils/export.py:133-134 | an OBJ face line decodes, undoing the +1, to the face |
| Export.PlyFaceRoundTrip | src/vggt_mps/utils/export.py:177-178 | a PLY face line "3 a b c" decodes to the face |
| Export.FaceIndexConventions | src/vggt_mps/utils/export.py:133-134 | OBJ writes indices plus one and PLY writes them as they are; both decode to the same face, and the two lines always differ |
| Export.VertexLines | src/vggt_mps/utils/export.py:63-70 | one line is written per point, or, when colours are too short, one per colour before the IndexError |
| Export.FaceLines | src/vggt_mps/utils/export.py:133-134 | one line per face, in order |
| Export.PlyFile | src/vggt_mps/utils/export.py:35-70 | the header (7 lines, or 10 with colours) plus one line per point written |
| Export.ObjFile | src/vggt_mps/utils/export.py:73-86 | three comment lines plus one line per point written |
| Export.PlyFileBody | src/vggt_mps/utils/export.py:58-70 | the file is the header followed by exactly one vertex line per point, with the point's colour when colours are given |
| Export.PlyMeshFileBody | src/vggt_mps/utils/export.py:163-178 | the mesh PLY file is the header, one line per vertex, then the face lines |
| Export.ObjMeshFileBody | src/vggt_mps/utils/export.py:119-134 | the OBJ mesh file is the comment line, one line per vertex, then the face lines |
| Export.FaceLinesDecode | src/vggt_mps/utils/export.py:133-178 | every OBJ face line decodes, undoing the +1, to its face, and every PLY face line decodes to its face as written |
| Export.RFind | src/vggt_mps/utils/export.py:97 | the last position of a character, or −1 when it does not occur |
| Export.WithPlySuffix | src/vggt_mps/utils/export.py:97 | replacing the suffix keeps the directory and the stem, gives a name with suffix ".ply", and is idempotent |
| Export.StemWithPly | src/vggt_mps/utils/export.py:97 | a non-empty stem with ".ply" appended has suffix ".ply" and that stem |
| Export.Stem | src/vggt_mps/utils/export.py:97 | `Path.stem`: the name is its stem followed by its suffix, and a non-empty name has a non-empty stem |
| Export.WithSuffix | src/vggt_mps/utils/export.py:97 | raises exactly when the name is empty, and otherwise keeps the directory and the length of the path, the new name being the old stem followed by the new suffix |
| Export.Disk.constructor | src/vggt_mps/utils/export.py:59 | the disk starts with the given files |
| Export.Disk.Create | src/vggt_mps/utils/export.py:59 | opening for writing truncates the file and leaves the other files |
| Export.Disk.WriteLine | src/vggt_mps/utils/export.py:61 | a write appends one line to that file only |
| Export.Disk.WriteTexts | src/vggt_mps/utils/export.py:60-61 | the header loop appends the header lines in order |
| Export.Disk.WriteVertices | src/vggt_mps/utils/export.py:63-70 | the vertex loop appends the vertex lines, and raises IndexError at the first missing colour |
| Export.Disk.WriteFaces | src/vggt_mps/utils/export.py:177-178 | the face loop appends one face line per face |
| Export.Disk.BuildHeader | src/vggt_mps/utils/export.py:40-56 | the header list grown with `extend` and `append` is `PlyHeader` |
| Export.Disk.BuildMeshHeader | src/vggt_mps/utils/export.py:141-161 | the mesh header list grown with `extend` and `append` is `MeshPlyHeader` |
| Export.Disk.ExportPly | src/vggt_mps/utils/export.py:35-70 | the file becomes the PLY file of the points; it fails iff colours are shorter than the points |
| Export.Disk.ExportObj | src/vggt_mps/utils/export.py:73-86 | the file becomes the OBJ file of the points; it fails iff colours are shorter than the points |
| Export.Disk.ExportGlb | src/vggt_mps/utils/export.py:89-99 | the PLY file is written at the path with its suffix replaced by ".ply"; an empty name raises and writes nothing |
| Export.Disk.ExportPointCloud | src/vggt_mps/utils/export.py:10-32 | "ply", "obj" and "glb" go to their writers, failing iff the colours are short; "glb" on an empty name raises and writes nothing; any other format raises ValueError and writes nothing |
| Export.Disk.WriteMesh | src/vggt_mps/utils/export.py:119-178 | the file becomes the header, the vertex lines and the face lines; it fails iff colours are shorter than the vertices |
| Export.Disk.WriteMeshBody | src/vggt_mps/utils/export.py:126-134 | appends the vertex lines and then, unless a colour is missing, the face lines |
| Export.Disk.ExportMesh | src/vggt_mps/utils/export.py:102-178 | "obj" and "ply" write the mesh files; any other format does nothing and raises nothing |
| Text.NatToString | src/tools/demo_gradio.py:90 | decimal digits only, no leading zero |
| Text.IntToString | src/vggt_mps/utils/export.py:134 | digits for a non-negative number, '-' and digits otherwise |
| Text.NatToStringRoundTrip | src/vggt_mps/utils/export.py:43 | the digits of n read back as n |
| Text.NatToStringInjective | src/vggt_mps/utils/export.py:43 | different numbers are rendered differently |
| Text.IntToStringRoundTrip | src/vggt_mps/utils/export.py:134 | a rendered integer parses back |
| Text.ZeroPad | src/tools/demo_gradio.py:90 | `{n:06}` is at least six digits long |
| Text.ZeroPadRoundTrip | src/tools/demo_gradio.py:90 | a zero-padded number reads back |
| Text.ZeroPadInjective | src/tools/demo_gradio.py:90 | different numbers give different padded names |
| Text.ReplaceChar | src/tools/demo_gradio.py:339 | `str.replace` of one character keeps the length and changes exactly the occurrences of that character |
| Text.RemoveChar | src/tools/demo_gradio.py:339 | removing a character leaves none of it and keeps every other character |
| Text.RemoveCharCount | src/tools/demo_gradio.py:339 | exactly the occurrences are dropped: every other character keeps its count, and the string shortens by the number of occurrences |
| Text.RemoveCharAbsent | src/tools/demo_gradio.py:339 | removing a character that does not occur changes nothing |
| Text.RemoveCharSnoc | src/tools/demo_gradio.py:339 | appending one character appends it to the result unless it is the removed one |
| Text.RemoveCharSingle | src/tools/demo_gradio.py:339 | one character is dropped when it is the removed one and kept otherwise |
| Text.RemoveCharAppend | src/tools/demo_gradio.py:339 | removing distributes over concatenation, so the kept characters stay in their order |
| DemoGradio.Truncate | src/tools/demo_gradio.py:78 | `int()` rounds toward zero |
| DemoGradio.FrameInterval | src/tools/demo_gradio.py:78 | for a non-negative product, the interval is the whole number of frames in it, rounded down |
| DemoGradio.SubFrameIntervalIsZero | src/tools/demo_gradio.py:78 | an interval shorter than one frame gives `frame_interval` 0 |
| DemoGradio.PyMod | src/tools/demo_gradio.py:89 | Python's `%` has the divisor's sign and is 0 exactly when the divisor divides |
| DemoGradio.PyModZero | src/tools/demo_gradio.py:89 | `count % n == 0` holds exactly when the absolute value of n divides count |
| DemoGradio.Sampled | src/tools/demo_gradio.py:84-93 | T frames give `T div m` saved frames |
| DemoGradio.FramePaths | src/tools/demo_gradio.py:90 | the k saved paths are named by 0, 1, …, k−1 |
| DemoGradio.FramePath | src/tools/demo_gradio.py:90 | the path is inside the directory, ends ".png", and leaves at least six characters for the index; distinctness is `FramePathsDistinct` |
| DemoGradio.Summary | src/tools/demo_gradio.py:98-102 | one summary row per saved image |
| DemoGradio.ExtractVideoFrames | src/tools/demo_gradio.py:59-102 | a missing path raises ValueError and a missing file FileNotFoundError, both before extraction; interval 0 raises ZeroDivisionError iff there is a frame; otherwise the frames written, the paths and the summary are the sampled frames, their names and their rows |
| DemoGradio.ReadFrames | src/tools/demo_gradio.py:84-93 | the loop saves a frame exactly when the 1-based count is a multiple of the interval, under consecutive zero-padded names |
| DemoGradio.SampleStep | src/tools/demo_gradio.py:88-93 | reading one more frame saves it iff the new count is a multiple of the interval |
| DemoGradio.SavedCount | src/tools/demo_gradio.py:84-93 | T frames give `T div abs(n)` saved frames |
| DemoGradio.SummaryIndexOffset | src/tools/demo_gradio.py:89-101 | the i-th summary row records `i*n`, while the frame saved is count `(i+1)*n`, one interval further |
| DemoGradio.FramePathsDistinct | src/tools/demo_gradio.py:90-93 | saved names are distinct and the first is "000000.png" |
| DemoGradio.SanitizeFilterClean | src/tools/demo_gradio.py:339 | the sanitised filter has no '.', ':' or ' ' and keeps every other character except '_' |
| DemoGradio.SanitizeFilterIdempotent | src/tools/demo_gradio.py:339 | sanitising twice is sanitising once |
| DemoGradio.SanitizeFilter | src/tools/demo_gradio.py:339 | only ':' is deleted, so a filter without ':' keeps its length; the rest is `SanitizeFilterClean` and `SanitizeFilterIdempotent` |
| DemoGradio.GlbFileName | src/tools/demo_gradio.py:338-342 | the name holds the confidence text, the sanitised filter and the prediction mode plus at least 55 fixed characters; its layout is `GlbFileNameShape` and `GlbFileNameClean` |
| DemoGradio.GlbFileNameShape | src/tools/demo_gradio.py:338-342 | the name is "glbscene_", the confidence text, '_', the sanitised filter, the flags field `GlbFlags`, the prediction mode with spaces replaced by '_', and ".glb", each at its position |
| DemoGradio.GlbFlagsText | src/tools/demo_gradio.py:339-341 | the flags field is "_maskb", `str(mask_black_bg)`, "_maskw", `str(mask_white_bg)`, "_cam", `str(show_cam)`, "_sky", `str(mask_sky)`, "_pred" |
| DemoGradio.FlagCancel | src/tools/demo_gradio.py:340 | two flags with the same tag are equal only with the same value and the same text after them |
| DemoGradio.GlbFlagsInjective | src/tools/demo_gradio.py:340 | different mask, camera or sky options give different flags fields |
| DemoGradio.GlbFileNameSeparatesOptions | src/tools/demo_gradio.py:338-342 | with the same threshold text, filter and prediction mode, two names are equal only when all four options are, so no two option settings share a GLB file |
| DemoGradio.GlbFileNameClean | src/tools/demo_gradio.py:338-342 | in the name, the filter field holds no '.', ':' or ' ', and the prediction-mode field holds no space |

## Left out

- Descriptors: the DINOv2 backbone, the SALAD MLPs, softmax, sum-pool and the
  L2 normalisation of `extract_features` are a foreign model and floating-point
  arithmetic. Descriptors are an input; only the resize rounding and the
  descriptor length are modelled.
- Similarities and scores are exact reals. Floating-point rounding is not modelled.
- Attention arithmetic: the matmuls, the scaling by sqrt(d) and the softmax of
  `sparse_attention` are floating-point arithmetic. Only the mask-fill rule is
  modelled, and the aggregator's output records which scoring it used.
- `integrate_with_vggt`: a stub that computes a mask and discards it.
- `SparseAttention.MakeVggtSparse`: modelled only for a model that has not been
  converted yet. A second conversion, which wraps the wrapper, is not modelled.
- `SparseAttention.Aggregator.Call`: the frozen aggregator calls its attention
  once per layer; the model gives it one raw score tensor, so all layers are
  taken to have the same score shape. The raw scores are an input.
- Exceptions other than the mask not broadcasting (out of memory, errors
  inside the frozen network) are not modelled.
- Device placement, `torch.no_grad`, and every `print`.
- `CleanupTarget.size` and the printed listing of `main` depend only on the
  filesystem's byte counts and only affect output text, so they are not modelled.
- `Cleanup.FormatBytes`: returns the scaled value and the unit; the one-decimal
  f-string rendering is floating-point formatting.
- `Cleanup.Lower`: lower-cases ASCII letters only; Python's Unicode case mapping is not modelled.
- `Path.resolve` follows symbolic links on the real filesystem. It is a
  parameter (`key`), and the project root is a parameter too.
- `input()` is a parameter: the reply, or None at end of input.
- Exporters: coordinates and colours are written with `:.6f`/`:.3f` and
  `int()`. Each vertex line keeps its point and colour instead of the
  formatted text. Failures of `open()` are not modelled.
- Frames: the cv2 decoder is a sequence of frames, and `fps` is an input.
- `DemoGradio.FrameInterval`: computed in exact real arithmetic; the
  floating-point product of `fps` and the interval is not modelled.
- The demo's timestamped default prefix, `mkdir`, PNG writing and the CSV
  rendering of the summary are I/O. The model returns what would be written.
- The rest of `vggt_create_3d_scene` (loading predictions, building the GLB
  scene) is I/O and foreign code; only the file name is modelled.
- `DemoGradio.GlbFileName`: `conf_thres` is passed as its rendered text, since
  float-to-text conversion is not modelled.
