# Qwen2-VL bookkeeping and model capability queries

A Dafny model of the integer, sequence and set logic of two files of vLLM.

The first file holds the Qwen2-VL vision-language model. Five parts are modelled:

- The input processor rewrites a prompt so that every vision placeholder token
  becomes `t * (h // m) * (w // m)` placeholders, one per visual token of its
  image after spatial merging.
- The vision tower's rotary embedding keeps a frequency table that grows
  lazily and is cached.
- `rot_pos_emb` computes the (row, col) patch positions in block-major order.
- The int32 `cu_seqlens` boundaries split the packed patch sequence into one
  attention window per frame.
- `load_weights` routes checkpoint tensors: it skips some names, renames the
  stacked parameters (the first matching shard name wins) and interleaves the
  heads of the vision qkv tensors. The worst-case token count of
  `_get_max_image_info` and the merge of image rows into the token
  embeddings in `forward` are covered too.

The second file holds the model interfaces:

- The runtime-checkable capability protocols (multimodal, LoRA, pipeline
  parallel and the single-flag ones) and the warnings that `supports_lora`
  and `supports_pp` log.
- The `SupportsQuant` mix-in. It finds the quantization config among the
  constructor arguments and merges its class's packed-module mapping into that
  shared config object in place.

Modules, one per concern:

| module | file | form |
|---|---|---|
| `Common`, `Arith`, `Strings` | common.dfy, arith.dfy, strings.dfy | helpers: counting, sums, arithmetic facts, Python `in` and `str.replace` |
| `Grids` | grids.dfy | functions: visual tokens per grid, `_get_max_image_info` |
| `TokenSplicer` | token_splicer.dfy | a `while` loop method against the specification function `Expand` |
| `RotaryCache` | rotary_cache.dfy | a class whose methods update the cached length and table |
| `VisionPositions` | vision_positions.dfy | functions and lemmas: the position-id ordering; a method for the gather against the rotary module |
| `AttentionWindows` | attention_windows.dfy | functions and lemmas: `cu_seqlens` |
| `WeightLoading` | weight_loading.dfy | loop methods against the routing functions `Route` and `LoadOutcomeOf` |
| `EmbeddingFusion` | embedding_fusion.dfy | functions: the placeholder-row merge in `forward` |
| `Capabilities` | capabilities.dfy | functions over an attribute-presence record |
| `QuantConfig` | quant_config.dfy | a loop method and classes for the shared config object |

Tensors are sequences of abstract rows. Python exceptions, and the failed
`assert` of the input processor, are `Err` or `None` results. The logger's
warnings are returned as values.

Notes on how the model reads the code:

- A runtime-checkable Protocol `isinstance` first asks the abstract-base-class
  question: an object whose class inherits the protocol passes whatever its
  members hold. The flag documentation at interfaces.py:41-43 counts on this:
  a model class that has the protocol in its MRO need not set the flag.
  Otherwise it tests whether each protocol member is present and, for a member
  the protocol declares as a method, that it is not `None`. It never reads a flag's value. The record
  keeps the inherited protocols as a set of its own (`Capabilities.Conforms`).
  For a class object the question is about its metaclass, which in practice
  inherits none of these protocols, so for a class the check is the member test.
- `supports_lora` therefore accepts a model that sets `supports_lora = False`
  but has the three companion attributes (`Capabilities.LoraFalsyFlagPasses`).
- For a model that does not inherit `SupportsPP`, `forward = None` fails the
  pipeline-parallel protocol silently (`Capabilities.PpNoneForwardFailsSilently`).
  For an instance of a class that inherits it, the attribute check passes and
  the keyword warning is logged instead (`Capabilities.PpInheritedNoneForwardWarns`).
  Likewise an instance inheriting `SupportsMultiModal` with
  `get_language_model = None` passes (`Capabilities.MultimodalInheritedNoneMethodPasses`).
- A Python object always has the members of the protocols it inherits
  (`Capabilities.Consistent`). On such records the data-only protocols come
  down to presence (`Capabilities.DataProtocolIsPresence`). The warnings are
  the only place where a flag's truthiness counts.
- `supports_pp` checks for `forward` as a protocol member, but its list of
  companions for the diagnosis holds only `make_empty_intermediate_tensors`.
  So a model with a truthy `supports_pp` and
  `make_empty_intermediate_tensors` but no `forward` fails with no warning
  (`Capabilities.PpFailsSilentlyWithoutForward`).
- `cu_seqlens` is accumulated in int32, so the model wraps each running total
  to 32 bits. The lemmas that give exact values assume the total patch count
  is below 2^31.
- `_freqs_cached[:seqlen]` on a fresh rotary module with `seqlen == 0`
  slices `None`. `Forward` returns `None` for that case.
- `rot_pos_emb` passes `max_grid_size` as a 0-dim tensor, which `seqlen *= 2`
  in `update_freqs_cache` doubles in place, so after a rebuild `forward`
  returns the whole doubled table. `Forward` takes whether its argument is
  such a tensor; `RotPosEmb` passes one.
- The reshape in `rot_pos_emb` raises unless `(h//m)*m*(w//m)*m == h*w`, and
  `torch.cat` of no images raises. `RotPosIds` returns `None` in both cases.
- When every grid of a batch has h = w = 0, `max_grid_size` is 0, and on a
  fresh rotary module the request fails as above (`VisionPositions.RotPosEmb`,
  `VisionPositions.ZeroGridOnFreshModule`).
- `inputs_embeds[mask, :] = image_embeds` also broadcasts a single vision row
  over every placeholder. `ForwardInput` models that code as written;
  `ForwardInputIntended` is the one-row-per-placeholder reading (see Findings).

## Model

| member | source | states |
|---|---|---|
| Grids.VisionLens | vllm/model_executor/models/qwen2_vl.py:596-600 | one length per grid, the i-th being `t * (h // m) * (w // m)` of grid i |
| Grids.GetMaxImageInfo | vllm/model_executor/models/qwen2_vl.py:501-514 | the resized sizes are passed through; with `MaxGrid`, the worst-case grid of `MAX_TEMPORAL_IMAGE_NUM // temporal_patch_size` frames of the resized size in patches, the token count c is the floor of its patch count divided by m twice: c·m·m ≤ patches < (c+1)·m·m |
| Grids.MergedTokensBound | vllm/model_executor/models/qwen2_vl.py:511-512 | merging each side before multiplying never gives more tokens than dividing the product by m twice |
| Grids.MaxImageTokensBound | vllm/model_executor/models/qwen2_vl.py:501-514 | the reported `max_llm_image_tokens` bounds the splice length of every grid within the worst-case grid `MaxGrid` |
| Grids.MaxImageTokensExact | vllm/model_executor/models/qwen2_vl.py:508-512 | when m divides the worst-case grid's sides, the reported maximum is exactly that grid's splice length |
| TokenSplicer.IndexFrom | vllm/model_executor/models/qwen2_vl.py:592 | `list.index(x, start)`: a found position is at or after `start` and holds x |
| TokenSplicer.IndexFromIsFirst | vllm/model_executor/models/qwen2_vl.py:592 | the found position is the first occurrence; `index` fails exactly when no occurrence remains |
| TokenSplicer.IndexFromSplit | vllm/model_executor/models/qwen2_vl.py:587-592 | while placeholders remain, `index` finds one; no placeholder lies before it and one fewer lies after it |
| TokenSplicer.ExpandCons | vllm/model_executor/models/qwen2_vl.py:593 | a non-placeholder token is copied to the front of the output |
| TokenSplicer.ExpandPlaceholder | vllm/model_executor/models/qwen2_vl.py:601 | a placeholder becomes its length's worth of placeholders, and the remaining lengths serve the rest |
| TokenSplicer.ExpandFree | vllm/model_executor/models/qwen2_vl.py:593 | a placeholder-free gap comes out verbatim |
| TokenSplicer.ExpandAt | vllm/model_executor/models/qwen2_vl.py:592-602 | `Expand`, the specification of the splice, is the gap before the first placeholder, its expansion, then the expansion of the rest |
| TokenSplicer.SuffixExpand | vllm/model_executor/models/qwen2_vl.py:592-602 | the same split for the unprocessed suffix from the `start` cursor |
| TokenSplicer.SpliceStep | vllm/model_executor/models/qwen2_vl.py:591-602 | one loop iteration: `index` succeeds, the count of remaining placeholders drops by one, and the extended output plus the expansion of the new suffix is still the whole expansion |
| TokenSplicer.SpliceTokens | vllm/model_executor/models/qwen2_vl.py:586-603 | the loop with its `start` cursor builds exactly the expansion of the prompt |
| TokenSplicer.InputProcessorForQwen2VL | vllm/model_executor/models/qwen2_vl.py:541-609 | inputs come back unchanged without an "image" entry; a processed mapping lacks "vision_infos" (KeyError); an empty image list clears the multimodal data; a processor failure propagates; a count mismatch raises; otherwise the new ids are the expansion, and the data is kept only when there is at least one image |
| TokenSplicer.ExpandLength | vllm/model_executor/models/qwen2_vl.py:590-603 | output length = input length − number of placeholders + sum of the lengths |
| TokenSplicer.ExpandCount | vllm/model_executor/models/qwen2_vl.py:601 | the output holds exactly the sum of the lengths in placeholders |
| TokenSplicer.ExpandKeepsOtherTokens | vllm/model_executor/models/qwen2_vl.py:592-603 | deleting placeholders from output and input gives the same sequence |
| TokenSplicer.ExpandBlocks | vllm/model_executor/models/qwen2_vl.py:592-603 | a prompt of placeholder-free gaps and single placeholders comes out with every gap verbatim and the i-th placeholder repeated lens[i] times |
| TokenSplicer.ExpandByOne | vllm/model_executor/models/qwen2_vl.py:596-601 | with every length 1 the prompt is unchanged |
| TokenSplicer.SpliceExample | vllm/model_executor/models/qwen2_vl.py:587-603 | two 1x2x2 images with merge size 1 turn `[1,1,P,2,P,3]` into `[1,1,P,P,P,P,2,P,P,P,P,3]` |
| TokenSplicer.ExampleLens | vllm/model_executor/models/qwen2_vl.py:596-600 | a 1x2x2 grid with merge size 1 yields 4 tokens |
| TokenSplicer.ExampleExpand | vllm/model_executor/models/qwen2_vl.py:590-603 | the expansion of the example prompt |
| TokenSplicer.ExampleHead | vllm/model_executor/models/qwen2_vl.py:593 | the example's leading gap is copied |
| TokenSplicer.ExampleTail | vllm/model_executor/models/qwen2_vl.py:592-603 | the example's tail from its first placeholder |
| RotaryCache.Table | vllm/model_executor/models/qwen2_vl.py:293-295 | the table built for n positions has n rows |
| RotaryCache.TableRow | vllm/model_executor/models/qwen2_vl.py:293-295 | row p is the row for position p |
| RotaryCache.TablePrefix | vllm/model_executor/models/qwen2_vl.py:298-300 | a shorter table is a prefix of any longer one |
| RotaryCache.Qwen2VisionRotaryEmbedding.constructor | vllm/model_executor/models/qwen2_vl.py:274-280 | dim and theta are stored; the cache starts at length 0 and empty |
| RotaryCache.Qwen2VisionRotaryEmbedding.UpdateFreqsCache | vllm/model_executor/models/qwen2_vl.py:283-296 | the cached length never decreases; a longer request caches twice its length; otherwise nothing changes; the cache invariant is kept; the caller's `seqlen` is doubled by a rebuild exactly when it is a tensor, which `*=` changes in place |
| RotaryCache.Qwen2VisionRotaryEmbedding.Forward | vllm/model_executor/models/qwen2_vl.py:298-300 | the same state change; the answer is exactly the first `seqlen` table rows for an int argument, and all 2·`seqlen` rebuilt rows for a tensor argument that caused a rebuild; it fails only for length 0 on a fresh module |
| RotaryCache.PrefixScenario | vllm/model_executor/models/qwen2_vl.py:283-300 | requests of 5, 3, then 100 rows: the answers agree on their common prefix |
| RotaryCache.TensorArgumentScenario | vllm/model_executor/models/qwen2_vl.py:283-300 | with a tensor argument, a first request of 5 rows answers with all 10 cached rows, and a later request of 3 with their first 3 |
| VisionPositions.Frame | vllm/model_executor/models/qwen2_vl.py:394-404 | one frame has h * w position pairs |
| VisionPositions.PosAtDigits | vllm/model_executor/models/qwen2_vl.py:396-403 | `PosAt`, the reshape/permute/flatten, reads index k as the digits (block row, block col, row in block, col in block) |
| VisionPositions.FlatIndexDigits | vllm/model_executor/models/qwen2_vl.py:396-403 | `FlatIndex`, the inverse ordering, in the same digits |
| VisionPositions.PosAtInFrame | vllm/model_executor/models/qwen2_vl.py:396-403 | an index within the frame maps to a patch within the grid |
| VisionPositions.FlatIndexInFrame | vllm/model_executor/models/qwen2_vl.py:396-403 | a patch within the grid maps to an index within the frame |
| VisionPositions.FlatIndexOfPosAt | vllm/model_executor/models/qwen2_vl.py:396-403 | index → patch → index is the identity |
| VisionPositions.PosAtOfFlatIndex | vllm/model_executor/models/qwen2_vl.py:396-403 | patch → index → patch is the identity |
| VisionPositions.FrameInGrid | vllm/model_executor/models/qwen2_vl.py:394-404 | every pair of a frame lies in [0,h) x [0,w) |
| VisionPositions.FrameInjective | vllm/model_executor/models/qwen2_vl.py:394-404 | no pair occurs twice in a frame |
| VisionPositions.FrameCovers | vllm/model_executor/models/qwen2_vl.py:394-404 | every patch of the grid occurs in the frame, so a frame is a permutation of the grid |
| VisionPositions.FrameBlock | vllm/model_executor/models/qwen2_vl.py:396-404 | each consecutive group of m*m pairs is one merge block (g / (w/m), g % (w/m)) |
| VisionPositions.TileLength | vllm/model_executor/models/qwen2_vl.py:404 | `.repeat(t, 1)` gives t times the frame's length |
| VisionPositions.TileAt | vllm/model_executor/models/qwen2_vl.py:404 | entry k of copy f is entry k of the frame |
| VisionPositions.TileIn | vllm/model_executor/models/qwen2_vl.py:404 | repeating adds no new pair |
| VisionPositions.ReshapeFitsIff | vllm/model_executor/models/qwen2_vl.py:396-403 | the reshape succeeds exactly when the grid is empty or m divides h and w |
| VisionPositions.ImagePosIdsLength | vllm/model_executor/models/qwen2_vl.py:393-404 | `ImagePosIds`: an image contributes t * h * w pairs |
| VisionPositions.ImagePosIdsAt | vllm/model_executor/models/qwen2_vl.py:393-404 | pair k of frame f of an image is pair k of its frame |
| VisionPositions.PosIdsOfSome | vllm/model_executor/models/qwen2_vl.py:392-405 | `PosIdsOf`: the ids exist exactly when every reshape fits, and then there are Σ t·h·w of them |
| VisionPositions.RotPosIdsSome | vllm/model_executor/models/qwen2_vl.py:391-405 | `RotPosIds`: the same, plus at least one image for `torch.cat` |
| VisionPositions.ImagePosIdsInTable | vllm/model_executor/models/qwen2_vl.py:404-408 | an image's pairs index a table of at least max(h, w) rows |
| VisionPositions.PosIdsInTable | vllm/model_executor/models/qwen2_vl.py:405-408 | every pair indexes a table of at least `max_grid_size` rows |
| VisionPositions.RotPosIdsInTable | vllm/model_executor/models/qwen2_vl.py:405-408 | the gather from the rotary table of `max_grid_size` rows stays in bounds |
| VisionPositions.MaxGridSize | vllm/model_executor/models/qwen2_vl.py:406 | `grid_thw[:, 1:].max()`: no height or width exceeds it, and some height or width equals it |
| VisionPositions.RotPosEmb | vllm/model_executor/models/qwen2_vl.py:391-409 | a failed reshape or an empty batch fails and leaves the rotary module unchanged; otherwise the module makes its `max_grid_size` request, the result fails exactly for a zero-size request on a fresh module, and pair i gathers the table rows of its row and column |
| VisionPositions.ZeroGridOnFreshModule | vllm/model_executor/models/qwen2_vl.py:391-409 | a single grid with h = w = 0 on a fresh module fails |
| AttentionWindows.Int32 | vllm/model_executor/models/qwen2_vl.py:432-434 | the int32 accumulator lies in range and is the identity on in-range values |
| AttentionWindows.FrameLensShape | vllm/model_executor/models/qwen2_vl.py:432-434 | `FrameLens`, the `repeat_interleave`, gives Σ t frame lengths summing to the total patch count |
| AttentionWindows.FrameLensOfImage | vllm/model_executor/models/qwen2_vl.py:432-434 | frame f of image i has h_i * w_i patches at its place in the frame list |
| AttentionWindows.FrameLensPrefix | vllm/model_executor/models/qwen2_vl.py:432-434 | the frame lengths of the first i images are a prefix of the list |
| AttentionWindows.CuSeqlensShape | vllm/model_executor/models/qwen2_vl.py:432-435 | `CuSeqlens`, the padded int32 cumulative sum, has 1 + Σ t entries and starts at 0 |
| AttentionWindows.CuSeqlensExact | vllm/model_executor/models/qwen2_vl.py:432-435 | without overflow, entry k is the sum of the first k frame lengths |
| AttentionWindows.CuSeqlensStep | vllm/model_executor/models/qwen2_vl.py:432-435 | each window is h * w of its frame's image long |
| AttentionWindows.CuSeqlensMonotone | vllm/model_executor/models/qwen2_vl.py:432-435 | the boundaries never decrease |
| AttentionWindows.CuSeqlensImageStart | vllm/model_executor/models/qwen2_vl.py:432-435 | an image's first boundary is the patch count before it, so no window spans two images |
| AttentionWindows.CuSeqlensLast | vllm/model_executor/models/qwen2_vl.py:432-435 | the last boundary is the total patch count Σ t·h·w |
| Strings.ContainsIff | vllm/model_executor/models/qwen2_vl.py:713-726 | `Contains`, the substring test, holds exactly when the pattern occurs at some index |
| Strings.ReplaceAllAbsent | vllm/model_executor/models/qwen2_vl.py:720 | `ReplaceAll` without an occurrence changes nothing |
| Strings.ReplaceAllPresent | vllm/model_executor/models/qwen2_vl.py:720 | `replace` with an occurrence puts the new text in the result |
| Strings.ReplaceAllFirst | vllm/model_executor/models/qwen2_vl.py:720 | `ReplaceAll` replaces the first occurrence and continues after it; with `ReplaceAllAbsent` this fixes the result for every string |
| WeightLoading.QkvSourceDigits | vllm/model_executor/models/qwen2_vl.py:730-732 | `QkvSource`: output row (h*3 + s)*D + d comes from input row (s*H + h)*D + d |
| WeightLoading.QkvDestDigits | vllm/model_executor/models/qwen2_vl.py:730-732 | `QkvDest`: input row (s*H + h)*D + d goes to output row (h*3 + s)*D + d |
| WeightLoading.QkvSourceInverse | vllm/model_executor/models/qwen2_vl.py:730-739 | the source map stays in [0, 3HD) and the destination map undoes it |
| WeightLoading.QkvDestInverse | vllm/model_executor/models/qwen2_vl.py:730-739 | the destination map stays in [0, 3HD) and the source map undoes it, so the interleave is a bijection |
| WeightLoading.QkvInterleave | vllm/model_executor/models/qwen2_vl.py:730-732 | the interleaved tensor has as many rows as the input |
| WeightLoading.QkvInterleaveAt | vllm/model_executor/models/qwen2_vl.py:730-739 | input row s·H·D + h·D + d is output row h·3·D + s·D + d |
| WeightLoading.FirstMatch | vllm/model_executor/models/qwen2_vl.py:717-719 | the first mapping entry whose shard name occurs in the name; None when none occurs |
| WeightLoading.VisualQkv | vllm/model_executor/models/qwen2_vl.py:726-739 | for a name that `IsVisualQkv` accepts (contains "visual" and a qkv weight or bias): zero heads raises; a row count other than 3·H·(E//H) fails the view; otherwise the row count is kept |
| WeightLoading.Route | vllm/model_executor/models/qwen2_vl.py:713-743 | the two skip rules, and a loaded parameter exists in the parameter dictionary |
| WeightLoading.LoadEntry | vllm/model_executor/models/qwen2_vl.py:713-743 | the loop body with its `for ... else` scan does what `Route` says |
| WeightLoading.LoadWeights | vllm/model_executor/models/qwen2_vl.py:702-743 | the loop makes the calls and raises the error that `LoadOutcomeOf`, the fold of `Route` over the entries, says |
| WeightLoading.RouteFirstStackedMatch | vllm/model_executor/models/qwen2_vl.py:717-724 | the first matching entry decides the rename, the parameter's own loader and the shard id |
| WeightLoading.RouteLoaded | vllm/model_executor/models/qwen2_vl.py:717-743 | a shard id is passed exactly when some shard name occurs; only a vision qkv tensor is changed; unstacked names are kept |
| WeightLoading.LoadOutcomeError | vllm/model_executor/models/qwen2_vl.py:712-743 | at most one call per entry; loading fails exactly when some entry raises, and with the error of the first such entry |
| WeightLoading.TiedHeadSkipped | vllm/model_executor/models/qwen2_vl.py:715-716 | with tied embeddings, `lm_head.weight` loads nothing |
| EmbeddingFusion.Fill | vllm/model_executor/models/qwen2_vl.py:672-673 | the merged rows have one row per token |
| EmbeddingFusion.Select | vllm/model_executor/models/qwen2_vl.py:672 | the masked rows are one per placeholder |
| EmbeddingFusion.FillAt | vllm/model_executor/models/qwen2_vl.py:672-673 | row i is the text row off a placeholder and image row j on the j-th placeholder |
| EmbeddingFusion.SelectFill | vllm/model_executor/models/qwen2_vl.py:672-673 | reading back the masked rows gives the image rows, all of them in order |
| EmbeddingFusion.MergeAsWritten | vllm/model_executor/models/qwen2_vl.py:672-673 | the masked assignment succeeds exactly when the image rows match the placeholder count or there is a single row |
| EmbeddingFusion.MergeAsWrittenBroadcasts | vllm/model_executor/models/qwen2_vl.py:672-673 | two placeholders and one image row: the row is copied to both |
| EmbeddingFusion.Merge | vllm/model_executor/models/qwen2_vl.py:672-673 | succeeds exactly when there is one image row per placeholder, and the masked rows are then the image rows |
| EmbeddingFusion.MergeRejectsBroadcast | vllm/model_executor/models/qwen2_vl.py:672-673 | the broadcast input is an error |
| EmbeddingFusion.ForwardInput | vllm/model_executor/models/qwen2_vl.py:654-677 | without pixel rows the token ids go through; with them under mrope, a positions shape other than (3, n) fails; otherwise the merge fails exactly when the vision rows are neither one per placeholder nor a single row, and merged embeddings have one row per token |
| EmbeddingFusion.ForwardInputRows | vllm/model_executor/models/qwen2_vl.py:669-673 | every row keeps its token's embedding; the j-th placeholder carries vision row j when the counts match, and otherwise the single broadcast row |
| EmbeddingFusion.ForwardInputBroadcasts | vllm/model_executor/models/qwen2_vl.py:669-673 | two placeholders and one vision row: forward hands both positions that row |
| EmbeddingFusion.ForwardInputIntended | vllm/model_executor/models/qwen2_vl.py:654-677 | the same input selection with the intended merge: it fails exactly when the vision rows are not one per placeholder, and the masked rows are then the vision rows |
| EmbeddingFusion.ForwardInputIntendedRows | vllm/model_executor/models/qwen2_vl.py:669-673 | with the intended merge, the j-th placeholder always carries vision row j |
| Capabilities.DataProtocolIsPresence | vllm/model_executor/models/interfaces.py:124-151 | on a consistent record, a protocol without methods passes exactly when its members are present |
| Capabilities.SupportsMultimodal | vllm/model_executor/models/interfaces.py:98-120 | a class needs the flag member; an instance inheriting `SupportsMultiModal` passes, and any other instance needs the flag and the three methods, none of them `None`; on a consistent class record, exactly the flag's presence |
| Capabilities.MultimodalInstanceImpliesType | vllm/model_executor/models/interfaces.py:114-120 | on a consistent record, an instance that passes, viewed as a class, passes |
| Capabilities.MultimodalTypeNotInstance | vllm/model_executor/models/interfaces.py:114-120 | a class with only the flag passes while the instance check fails |
| Capabilities.MultimodalInheritedNoneMethodPasses | vllm/model_executor/models/interfaces.py:33-43 | an instance inheriting `SupportsMultiModal` passes with `get_language_model = None`, and the same attributes without the inheritance fail |
| Capabilities.Missing | vllm/model_executor/models/interfaces.py:174-175 | exactly the listed attributes that are absent |
| Capabilities.MissingAppend | vllm/model_executor/models/interfaces.py:174-175 | the missing attributes of a concatenation are those of each part, in order |
| Capabilities.MissingOne | vllm/model_executor/models/interfaces.py:174-175 | a single attribute is reported exactly when it is absent; with `MissingAppend`, the missing tuple is the absent attributes in their listed order |
| Capabilities.SupportsLoraCore | vllm/model_executor/models/interfaces.py:193-198 | true exactly when the protocol is inherited or all four LoRA members are present, on both branches of `_supports_lora`; on a consistent record, exactly the four members' presence |
| Capabilities.SupportsLora | vllm/model_executor/models/interfaces.py:163-191 | the result is `_supports_lora`'s; the warning, from `Diagnose`, only comes with a failure |
| Capabilities.LoraTruthyFlagFailure | vllm/model_executor/models/interfaces.py:177-184 | `Diagnose` of a truthy flag that fails names exactly the missing companions, and there is one |
| Capabilities.LoraFlagNotSet | vllm/model_executor/models/interfaces.py:185-189 | with all companions and no truthy flag, the "does not set" warning fires exactly when the flag is absent and the protocol not inherited; otherwise the check passes |
| Capabilities.LoraFalsyFlagMissingCompanion | vllm/model_executor/models/interfaces.py:183-190 | with no truthy flag and a companion missing nothing is logged; the result is whether the protocol is inherited, and on a consistent record it is false |
| Capabilities.LoraFalsyFlagPasses | vllm/model_executor/models/interfaces.py:123-151 | `supports_lora = False` with all companions present passes |
| Capabilities.SupportsPpAttributes | vllm/model_executor/models/interfaces.py:201-305 | the protocol is inherited, or the flag, `make_empty_intermediate_tensors` and `forward` are present with neither method `None` |
| Capabilities.SupportsPpInspect | vllm/model_executor/models/interfaces.py:308-313 | false without a callable `forward`, otherwise the keyword check |
| Capabilities.SupportsPp | vllm/model_executor/models/interfaces.py:268-298 | the result is attributes and inspect; the keyword warning comes exactly when only inspection fails; the flag and companion warnings only when the attributes fail |
| Capabilities.PpFailsSilentlyWithoutForward | vllm/model_executor/models/interfaces.py:279-298 | a truthy flag with the companion but no `forward` fails without a warning |
| Capabilities.PpNoneForwardFailsSilently | vllm/model_executor/models/interfaces.py:201-255 | for an object not inheriting `SupportsPP`, `forward = None` with a truthy flag and the companion fails the attributes with no warning at all |
| Capabilities.PpInheritedNoneForwardWarns | vllm/model_executor/models/interfaces.py:268-277 | an instance inheriting `SupportsPP` with `forward = None` passes the attributes and fails with the keyword warning |
| Capabilities.SupportsCrossEncoding | vllm/model_executor/models/interfaces.py:473-486 | a pooling model that inherits `SupportsCrossEncoding` or has the flag member; on a consistent record, a pooling model with the flag |
| Capabilities.HasInnerState | vllm/model_executor/models/interfaces.py:343-349 | true exactly when the protocol is inherited or `has_inner_state` is present, for a class and an instance alike; on a consistent record, exactly its presence |
| Capabilities.IsAttentionFree | vllm/model_executor/models/interfaces.py:380-386 | true exactly when the protocol is inherited or `is_attention_free` is present, for a class and an instance alike; on a consistent record, exactly its presence |
| Capabilities.IsHybrid | vllm/model_executor/models/interfaces.py:417-423 | true exactly when the protocol is inherited or `is_hybrid` is present, for a class and an instance alike; on a consistent record, exactly its presence |
| Capabilities.HasNoops | vllm/model_executor/models/interfaces.py:446-452 | true exactly when the protocol is inherited or `has_noops` is present, for a class and an instance alike; on a consistent record, exactly its presence |
| Capabilities.SupportsTranscription | vllm/model_executor/models/interfaces.py:537-543 | true exactly when the protocol is inherited or `supports_transcription` is present, for a class and an instance alike; on a consistent record, exactly its presence |
| Capabilities.SupportsV0Only | vllm/model_executor/models/interfaces.py:563-569 | true exactly when the protocol is inherited or `supports_v0_only` is present, for a class and an instance alike; on a consistent record, exactly its presence |
| Capabilities.SingleFlagsOnlyReadPresence | vllm/model_executor/models/interfaces.py:343-452 | on consistent records, the single-flag queries (and `supports_transcription`, `supports_v0_only`, and `supports_cross_encoding` given the pooling bit) depend only on which names are present, for classes and instances alike |
| QuantConfig.QuantizationConfig.constructor | vllm/model_executor/models/interfaces.py:489-502 | a config holding the given packed-module mapping |
| QuantConfig.ArgsValues | vllm/model_executor/models/interfaces.py:508 | positional arguments first, then keyword values in order |
| QuantConfig.FoundConfigFirst | vllm/model_executor/models/interfaces.py:509-514 | `FoundConfig`: the first VllmConfig or QuantizationConfig argument decides; a VllmConfig gives its own quant_config, even when that is None |
| QuantConfig.FoundConfigNone | vllm/model_executor/models/interfaces.py:516 | `FoundConfig` without either kind of argument is None |
| QuantConfig.FindQuantConfig | vllm/model_executor/models/interfaces.py:504-516 | the scan with early return finds that config |
| QuantConfig.Update | vllm/model_executor/models/interfaces.py:500-501 | `dict.update`: the new keys take their values, other keys keep theirs |
| QuantConfig.UpdateTwice | vllm/model_executor/models/interfaces.py:500-501 | two updates in turn equal one update with the later mapping winning |
| QuantConfig.SupportsQuant.constructor | vllm/model_executor/models/interfaces.py:495-502 | the found config is stored by reference (None when none is found), and its mapping becomes the old one updated with the class mapping |
| QuantConfig.TwoModelsShareConfig | vllm/model_executor/models/interfaces.py:495-502 | two models built on one config both hold it, and its mapping gathers both class mappings |

## Left out

- Tensor and floating-point numerics are not modelled: the attention, the MLPs, the patch embedding, the `inv_freq` values and the rotary angles. A frequency row is an abstract value for its position.
- The HuggingFace processor, `smart_resize` and the image processor call are parameters: the processor's output or its failure, and the resized worst-case size.
- `dummy_data_for_qwen2_vl` and the input mapper are not modelled. They only create images and wrap dictionaries.
- The parameters' `weight_loader` and `default_weight_loader` are not run. A call is recorded as its parameter name, which loader, the tensor and the shard id.
- `supports_kw(forward, "intermediate_tensors")` and `is_pooling_model` are foreign predicates, kept as uninterpreted booleans of the model record. The Python Protocol machinery (`TypeIs`, overloads, the abstract-base-class cache and `register`) and the logger are abstracted into inherited protocols, attribute presence and returned warnings.
- The merge size m, the patch size and the temporal patch size are required to be positive throughout. Python would raise ZeroDivisionError at 0; the values come from the processor configuration.
- AttentionWindows.CuSeqlensExact: assumes the total patch count is below 2^31, as do CuSeqlensStep, CuSeqlensMonotone, CuSeqlensImageStart and CuSeqlensLast. `CuSeqlens` itself models the int32 wrap-around for every input.
- WeightLoading.VisualQkv: the width of a weight row is not checked. A tensor is its sequence of leading-axis rows, so the view of the weight (last dimension `embed_dim`) and of the bias (scalars) share one row-count check.
- Strings.ReplaceAll: requires a non-empty pattern. Python's `replace` with an empty pattern inserts between every character, but every shard name in the mapping is non-empty.
- `grid_thw[:, 1:].max()` of an empty batch raises, but `RotPosEmb` fails earlier on `torch.cat`, so `MaxGridSize` of no grids (0) is never used.
- The visual-token data flow between files (ids from the tokenizer, `pixel_values` to the vision tower) is not modelled. `ForwardInput` takes the vision tower's rows as a parameter.
- `SupportsVision`, which `qwen2_vl.py` imports, is not part of this model.
- The debug `print` before the processor's IndexError is re-raised (qwen2_vl.py:580) is output only; `InputProcessorForQwen2VL` returns the failure without it.
- TokenSplicer.InputProcessorForQwen2VL: a processed mapping is taken to be the processor's output, which has no "vision_infos" key, so it always raises KeyError; what keys the external processor's output holds is outside this code.
- QuantConfig.Update: the mapping's values are lists, modelled as `seq<string>` values. The mapping shares those list objects with the class attribute, and later in-place changes to one list would show through the other; the model does not capture that sharing.
- Capabilities: which attributes are `None` is a field of the record, like presence and truthiness; nothing ties the three sets together, and only `Consistent` ties the inherited protocols to presence.
- Capabilities.MultimodalInstanceImpliesType, Capabilities.SingleFlagsOnlyReadPresence: stated for consistent records only, since an inconsistent record (a protocol inherited without its members) does not describe a Python object and would pass on inheritance alone.

## Findings

| source | as written | input that shows it | evidently intended | confidence | as-written member | corrected member |
|---|---|---|---|---|---|---|
| vllm/model_executor/models/qwen2_vl.py:672-673 | `inputs_embeds[mask, :] = image_embeds` broadcasts a single image row over every placeholder, so a one-row vision output with two placeholders is accepted and copied twice | prompt ids `[7, 7]` with placeholder 7, text rows `[a, b]`, image rows `[x]` gives `[x, x]` | one vision row per placeholder, or an error | not executed | EmbeddingFusion.MergeAsWritten / EmbeddingFusion.MergeAsWrittenBroadcasts / EmbeddingFusion.ForwardInput / EmbeddingFusion.ForwardInputBroadcasts | EmbeddingFusion.Merge / EmbeddingFusion.MergeRejectsBroadcast / EmbeddingFusion.ForwardInputIntended / EmbeddingFusion.ForwardInputIntendedRows |
