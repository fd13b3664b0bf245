# Beam search and optimizer wrapper of nmtpytorch, in Dafny

This project models two parts of the nmtpytorch toolkit.

The first is `beam_search` and its helper `tile_ctx_dict` (nmtpytorch/search.py).
The search decodes every batch of a data loader with an ensemble of models:

- It keeps one token store `beam_storage[max_len, max_batch_size, k]` and
  narrows and clears it per batch.
- At each time step it re-tiles the encoder contexts and decoder states along
  the surviving hypotheses and sums the models' log-probabilities.
- It can suppress `<unk>`. Hypotheses that already produced `<eos>` are
  pushed to continue with `<eos>`: their `<eos>` scores 0 and every other
  token scores `inf`.
- It cross-sums the running scores with the step's scores and keeps the `k`
  best candidates per sample.
- It splits every flat candidate index into an ancestor slot and a token, and
  reorders the earlier rows of the store along the ancestors.
- After the loop it writes `<eos>` in the last row, measures each
  hypothesis's content length and keeps, per sample, the hypothesis with the
  best length-normalised score.
- Finally it restores the loader's original sample order.

The second is the `Optimizer` wrapper (nmtpytorch/optimizer.py):

- it selects the trainable parameters;
- it builds the weight-decay parameter groups and leaves out every parameter
  named `discriminator`;
- it counts the parameters left out of every group, for its warning;
- it builds the argument dictionary for the torch optimizer;
- it picks the initial learning rate and the `step` function;
- it keeps the learning rate in step with the scheduler (`lr_step`);
- it renders `__repr__`.

Files:

- `tiling.dfy` (module `Tiling`): contexts as maps from encoder name to a
  `[time][sample]` tensor and an optional mask; `tile_ctx_dict`; gathering.
- `beam_step.dfy` (module `BeamStep`): the per-step score algebra on integer
  scores. It covers:
  - ensembling and `<unk>` suppression;
  - pinning finished rows;
  - the cross-sum and top-k;
  - the ancestor/token split and the backpointer list `tile`.
- `beam_select.dfy` (module `BeamSelect`): hypothesis lengths, the best slot
  per sample, and the recovery of the original order.
- `beam_search.dfy` (module `BeamSearch`): the driver. The token store is an
  `array3<int>` that the step loop, the per-batch code and the whole search
  update in place.
- `optimizer.dfy` (module `Optim`): a class `Optimizer` with the source's
  fields, and the functions and lemmas about parameter groups, arguments and
  `__repr__`.
- `wrappers.dfy` and `arith.dfy`: an `Option` type and one arithmetic fact.

Scores are integers, so top-k and the final comparison are exact. The
search's `inf` is the constant -1000, as in the source. The finished-hypothesis
test uses the literal id 2, as the source does (`EosId`). The final write of
the last row uses the vocabulary's `<eos>`. The models are a datatype of
functions:

- `encode` for `encode`;
- `init` for `dec.f_init`;
- `next` for `dec.f_next` with `dec.emb` folded in;
- `bos` for the id that `get_bos` repeats;
- `vocab` for the target vocabulary.

Their results are opaque apart from their shapes.

## Model

| member | source | states |
|---|---|---|
| Tiling.Columns | MMT/nmtpytorch/search.py:13 | `t[:, idxs]`: every row keeps its length in time, and column `j` of each row is column `idxs[j]` of the input |
| Tiling.TileEntry | MMT/nmtpytorch/search.py:13 | a tiled entry has a mask exactly when the input had one |
| Tiling.TileCtx | MMT/nmtpytorch/search.py:9-15 | the same keys; every tensor and every present mask gets width `len(idxs)`, with column `j` taken from column `idxs[j]`; an absent mask stays absent |
| Tiling.Range | MMT/nmtpytorch/search.py:94 | `range(w)` has length `w` and entry `i` equal to `i` |
| Tiling.Gather | MMT/nmtpytorch/search.py:118 | `h_t[tile]`: entry `j` is entry `tile[j]` of the input |
| Tiling.GatherRange | MMT/nmtpytorch/search.py:94 | gathering `range(w)` by in-range indices gives those indices back |
| Tiling.ColumnsCompose | MMT/nmtpytorch/search.py:13 | selecting columns by `a` and then by `b` equals selecting once by `a[b]` |
| Tiling.ColumnsRange | MMT/nmtpytorch/search.py:13 | selecting the columns `range(w)` of a width-`w` tensor changes nothing |
| Tiling.TileCompose | MMT/nmtpytorch/search.py:112 | re-tiling the already tiled `ctx_dicts` by `b` equals tiling the original by `a[b]`, so the repeated tiling of line 112 composes |
| Tiling.TileRange | MMT/nmtpytorch/search.py:94 | tiling by `range(B)` at the first step leaves a width-`B` context unchanged |
| Tiling.WidthIndexable | MMT/nmtpytorch/search.py:13 | a context of width `w` can be tiled by any indices below `w` |
| BeamStep.FlatSplit | MMT/nmtpytorch/search.py:147-148 | for `v < V`, `(j*V+v) / V == j` and `(j*V+v) % V == v` |
| BeamStep.FlatBound | MMT/nmtpytorch/search.py:135 | a row-major position `b*V+j` with `b < rows` and `j < V` lies inside the flattened matrix |
| BeamStep.DivBound | MMT/nmtpytorch/search.py:147 | a flat index below `rows*V` has row `i / V` below `rows` |
| BeamStep.AddScores | MMT/nmtpytorch/search.py:122 | the element-wise sum of two score matrices |
| BeamStep.Zeros | MMT/nmtpytorch/search.py:122 | the zero matrix that `sum` starts from |
| BeamStep.CellSumLast | MMT/nmtpytorch/search.py:122 | the per-cell sum over the models splits into the sum over all but the last model plus the last model's score |
| BeamStep.SumScores | MMT/nmtpytorch/search.py:122 | `sum(log_ps)`: a matrix of the same shape whose every score is the sum of that score over all the models |
| BeamStep.SumOfTwins | MMT/nmtpytorch/search.py:122 | summing two copies of one model's scores doubles every score |
| BeamStep.TwinsKeepTopK | MMT/nmtpytorch/search.py:122 | an ensemble of two copies of a model keeps exactly the same top-k choices (`IsTopK`) as the model alone |
| BeamStep.SetColumn | MMT/nmtpytorch/search.py:123-124 | `log_p[:, unk] = inf`: column `unk` becomes `inf` and every other score is kept |
| BeamStep.FinishedRows | MMT/nmtpytorch/search.py:127 | `(idxs == 2).nonzero()`: it lists only rows whose previous token is 2, and it lists every such row |
| BeamStep.AllFinishedIff | MMT/nmtpytorch/search.py:127-130 | the count of finished rows equals the number of rows exactly when every previous token is 2 |
| BeamStep.FillRows | MMT/nmtpytorch/search.py:133 | `index_fill_(0, idxs, inf)`: the listed rows become `inf` and the other rows are kept |
| BeamStep.FillFlat | MMT/nmtpytorch/search.py:135 | `view(-1).index_fill_(0, pos, 0)`: exactly the listed row-major positions are overwritten |
| BeamStep.EosPositions | MMT/nmtpytorch/search.py:135 | `idxs * n_vocab + 2`, position by position |
| BeamStep.EosPositionAt | MMT/nmtpytorch/search.py:135 | position `i*V+v` is listed exactly when row `i` is finished and `v` is 2 |
| BeamStep.PinFinished | MMT/nmtpytorch/search.py:126-135 | an unfinished row keeps its scores; a finished row scores 0 for token 2 and `inf` for every other token |
| BeamStep.Pinned | MMT/nmtpytorch/search.py:127-135 | with or without the `if idxs.numel()` guard, an unfinished row keeps its scores and a finished row scores 0 for token 2 and `inf` for every other token |
| BeamStep.ExpandRow | MMT/nmtpytorch/search.py:142-143 | one sample's cross-summed candidate row has `slots*V` entries |
| BeamStep.Expand | MMT/nmtpytorch/search.py:142-143 | the cross-summed candidate matrix has one row of `slots*V` candidates per sample |
| BeamStep.CandidateIndex | MMT/nmtpytorch/search.py:142-143 | a candidate's slot `c / V` and its `log_p` row are in range |
| BeamStep.ExpandAt | MMT/nmtpytorch/search.py:142-143 | candidate `j*V+v` of sample `b` scores `nll[b][j] + log_p[b*slots+j][v]` |
| BeamStep.MinSlot | MMT/nmtpytorch/search.py:142-144 | the position of the weakest of the candidates kept so far |
| BeamStep.TopK | MMT/nmtpytorch/search.py:142-144 | `topk(k, largest=True)`: `k` distinct in-range candidates, none beaten by a candidate left out (`IsTopK`), returned with their scores |
| BeamStep.Admit | MMT/nmtpytorch/search.py:142-144 | one scan step of the top-k: replacing the weakest kept candidate by a stronger new one keeps the selection a top-k of the longer prefix |
| BeamStep.Ancestor | MMT/nmtpytorch/search.py:147 | `pdxs = f / V` is the slot whose block of `V` candidates contains `f` |
| BeamStep.Token | MMT/nmtpytorch/search.py:148 | `f % V` is below `V` and recombines with the ancestor into `f` |
| BeamStep.AncestorBound | MMT/nmtpytorch/search.py:147 | a candidate below `slots*V` has an ancestor below `slots` |
| BeamStep.Ancestors | MMT/nmtpytorch/search.py:147 | `beam[t] / n_vocab` on a `[B, k]` matrix: the same shape, each entry the ancestor of its pick |
| BeamStep.Tokens | MMT/nmtpytorch/search.py:148 | `beam[t].remainder_(n_vocab)` on a `[B, k]` matrix: the same shape, each entry the token of its pick |
| BeamStep.Flatten | MMT/nmtpytorch/search.py:149 | `view(-1)` of a `B x k` matrix has `B*k` entries |
| BeamStep.FlattenAt | MMT/nmtpytorch/search.py:149 | entry `b*k+j` of the flattening is entry `[b][j]` |
| BeamStep.FlattenAll | MMT/nmtpytorch/search.py:127-129 | when every entry of `view(-1)` is `x`, every entry of the matrix is `x` |
| BeamStep.FlattenBelow | MMT/nmtpytorch/search.py:153 | bounded entries stay bounded when flattened |
| BeamStep.Owners | MMT/nmtpytorch/search.py:153 | `nk_mask / k`: entry `i` is `i / k`, below the number of samples |
| BeamStep.BlockShift | MMT/nmtpytorch/search.py:153 | adding `(nk_mask / k) * k` keeps each backpointer inside its sample's block of `k` rows |
| BeamStep.Backpointers | MMT/nmtpytorch/search.py:153 | at the first step (all ancestors 0) `tile` is `nk_mask / k`; later every backpointer stays in its sample's block |
| BeamStep.BackpointersInRange | MMT/nmtpytorch/search.py:153 | `tile` indexes the `B` rows of the first step or the `B*k` rows of later steps |
| BeamStep.BackpointerAt | MMT/nmtpytorch/search.py:153 | slot `j` of sample `b` continues row `b*slots + pdxs[b][j]` |
| BeamStep.OwnersStable | MMT/nmtpytorch/search.py:112-153 | gathering the sample owners by an in-block `tile` gives the owners back, so every row stays with its sample |
| BeamSelect.ContentCount | MMT/nmtpytorch/search.py:163 | `beam.gt(2).sum(0)` for one hypothesis is at most its length |
| BeamSelect.ContentCountIsCard | MMT/nmtpytorch/search.py:163 | the count equals the number of positions holding an id above 2 |
| BeamSelect.ContentCountAppend | MMT/nmtpytorch/search.py:163 | the count is additive over concatenation |
| BeamSelect.HypLength | MMT/nmtpytorch/search.py:163 | `clamp(min=1)`: the length is the content count, or 1 when that is 0 |
| BeamSelect.SpecialTailKeepsLength | MMT/nmtpytorch/search.py:160-163 | appending ids at most 2 (the `<eos>` of line 160) does not change the length |
| BeamSelect.NormTrans | MMT/nmtpytorch/search.py:169-170 | comparing `nll / lp` by cross-multiplication with positive lengths is transitive |
| BeamSelect.BestSlot | MMT/nmtpytorch/search.py:169-170 | `div_(lp).topk(1)`: a slot whose normalised score no other slot exceeds |
| BeamSelect.Enumerate | MMT/nmtpytorch/search.py:178-179 | `enumerate(orig_idxs)`: pair `i` is `(i, orig_idxs[i])`, with membership stated both ways |
| BeamSelect.InsertByKey | MMT/nmtpytorch/search.py:178-179 | one insertion step of the sort: one element longer, the same members plus the new one |
| BeamSelect.InsertSorted | MMT/nmtpytorch/search.py:178-179 | insertion keeps the list sorted by key |
| BeamSelect.InsertDistinct | MMT/nmtpytorch/search.py:178-179 | inserting a new element keeps the list free of repeats |
| BeamSelect.InsertStable | MMT/nmtpytorch/search.py:178-179 | inserting a pair that comes after every pair already sorted keeps equal keys in input order |
| BeamSelect.ConsStable | MMT/nmtpytorch/search.py:178-179 | a stable list stays stable behind a head numbered before every pair that shares its key |
| BeamSelect.TailOrdered | MMT/nmtpytorch/search.py:178-179 | the tail of a key-sorted, stable list is key-sorted and stable |
| BeamSelect.SortByKey | MMT/nmtpytorch/search.py:178-179 | `sorted(..., key=lambda k: k[1])`: a permutation of the input (same multiset), sorted by key, repeat-free when the input is, and stable: pairs with equal keys keep their input order |
| BeamSelect.RecoverOrder | MMT/nmtpytorch/search.py:176-179 | the recovered list has one result per original index |
| BeamSelect.StrictRanks | MMT/nmtpytorch/search.py:178-179 | `n` strictly increasing keys below `n` are `0..n-1` |
| BeamSelect.RanksFromBelow | MMT/nmtpytorch/search.py:178-179 | in that list, key `p` is at least `p` |
| BeamSelect.RanksFromAbove | MMT/nmtpytorch/search.py:178-179 | in that list, key `p` is at most `p` |
| BeamSelect.SortedRanks | MMT/nmtpytorch/search.py:178-179 | when `orig_idxs` is a permutation, sorted position `p` holds the sample whose original index is `p` |
| BeamSelect.RecoverPermutation | MMT/nmtpytorch/search.py:176-179 | when `orig_idxs` is a permutation, result `i` lands at position `orig_idxs[i]`, so the recovery inverts the loader's sort |
| BeamSearch.TotalSize | MMT/nmtpytorch/search.py:174 | `results.extend` grows by each batch's size |
| BeamSearch.ZeroSlice | MMT/nmtpytorch/search.py:85 | `narrow(1, 0, B).zero_()`: the first `B` sample columns become 0 and the others are untouched |
| BeamSearch.Snapshot | MMT/nmtpytorch/search.py:85 | the narrowed store `beam` as a value: `[max_len][B][k]`, entry by entry the array's |
| BeamSearch.Rest | MMT/nmtpytorch/search.py:85 | the sample columns from `B` on, which `narrow(1, 0, B)` hides, as a value entry by entry |
| BeamSearch.RestIs | MMT/nmtpytorch/search.py:85 | a store holding those columns' values is `Rest`, so a write inside the narrowed view keeps `Rest` |
| BeamSearch.SetRow | MMT/nmtpytorch/search.py:146-148 | `beam[s] = vals` on the narrowed view: row `s` of the first `B` columns becomes `vals`, every other entry is kept |
| BeamSearch.Row | MMT/nmtpytorch/search.py:149 | row `t` of the narrowed store, entry by entry |
| BeamSearch.GatherPrefix | MMT/nmtpytorch/search.py:155-157 | rows before `t` of sample `b` move slot `pdxs[b][j]` to slot `j`; everything else is untouched |
| BeamSearch.FillRow | MMT/nmtpytorch/search.py:160 | `beam[max_len-1] = eos` on the narrowed columns only |
| BeamSearch.Column | MMT/nmtpytorch/search.py:173 | `beam[:, b, j]`, entry by entry |
| BeamSearch.TopKRows | MMT/nmtpytorch/search.py:142-144 | `topk` along every row, with each row's selection a top-k |
| BeamSearch.SingleSlot | MMT/nmtpytorch/search.py:129-130 | an early exit at the first step needs `B*k == B`, that is `k == 1` |
| BeamSearch.Widen | MMT/nmtpytorch/search.py:142-144 | `k <= V` leaves at least `k` candidates per sample |
| BeamSearch.Lineage | MMT/nmtpytorch/search.py:94-153 | the sample each decoder-state row belongs to is in range |
| BeamSearch.NextLineage | MMT/nmtpytorch/search.py:112-153 | tiling the lineage of step `t` by `tile` gives the lineage of step `t+1`, so every context row stays with its own sample |
| BeamSearch.Logits | MMT/nmtpytorch/search.py:117-119 | the first result of every model's `f_next` on its own context and state rows |
| BeamSearch.GatherStates | MMT/nmtpytorch/search.py:118 | `h_t[tile]` for every model |
| BeamSearch.Ensemble | MMT/nmtpytorch/search.py:117-122 | every model's `f_next` runs on its tiled context and gathered state; the scores are a `B*slots x V` matrix and the new states are that call's states |
| BeamSearch.RecordStep | MMT/nmtpytorch/search.py:142-148 | row `t` holds each pick's token, `pdxs` is `Ancestors` of the picks and below `slots`, the returned row is `Tokens` of the picks; nothing else changes |
| BeamSearch.NextTile | MMT/nmtpytorch/search.py:153 | `tile` has the shape the next step expects |
| BeamSearch.NextTileAt | MMT/nmtpytorch/search.py:153 | slot `j` of sample `b` continues state row `b*slots + pdxs[b][j]` |
| BeamSearch.Choose | MMT/nmtpytorch/search.py:142-144 | each sample's picks are a top-k of its cross-summed candidates, and the new `nll` holds their scores |
| BeamSearch.Commit | MMT/nmtpytorch/search.py:146-157 | the store changes as `Records` states (row `t` holds the tokens, earlier rows follow the ancestors, later rows are kept); `pdxs` are the ancestors, `idxs` is row `t` flattened, `tile` the backpointers; other samples are untouched |
| BeamSearch.Reorder | MMT/nmtpytorch/search.py:146-157 | the store changes as `Records` states, `pdxs` and the stored row are the picks' ancestors and tokens, and other samples are untouched |
| BeamSearch.RecordsFill | MMT/nmtpytorch/search.py:146-157 | recording step `t` over a store whose rows before `t` hold vocabulary ids and later rows 0 gives one whose rows up to `t` hold vocabulary ids and later rows 0 |
| BeamSearch.Advance | MMT/nmtpytorch/search.py:136-157 | the picks and new scores are a top-k selection of the cross-summed candidates (`Selects`); the store changes as `Records`; `idxs` is the picks' tokens flattened and `tile` their backpointers; other samples are untouched |
| BeamSearch.EarlyExit | MMT/nmtpytorch/search.py:126-130 | breaking needs every previous token to be 2: at the first step `<bos>` is 2 and `k == 1`, later row `t-1` is all 2 |
| BeamSearch.AllEos | MMT/nmtpytorch/search.py:127-129 | when all `B*k` flattened previous tokens are 2, every slot's token is 2 |
| BeamSearch.FirstExit | MMT/nmtpytorch/search.py:103-129 | at the first step the `B` repeated `<bos>` tokens are all finished only if `<bos>` is 2 and `k == 1` |
| BeamSearch.Score | MMT/nmtpytorch/search.py:109-124 | every context is the input context tiled by `tile`; every new state is that model's `f_next` state on its tiled context, the tokens and its gathered states; every score is the sum over the models (`CellSum` of `Logits`), except that `<unk>` scores `inf` when suppressed |
| BeamSearch.Retile | MMT/nmtpytorch/search.py:112-118 | a `tile` of the step's shape indexes the contexts and states, and the re-tiled context follows the next step's lineage |
| BeamSearch.Step | MMT/nmtpytorch/search.py:106-157 | one loop iteration: it stops exactly when all `B*k` previous tokens are 2, and then leaves the store unchanged; otherwise the stage it reaches follows from the current one by `Next` (scored, pinned, top-k selected, recorded, re-tiled) and is appended to the trace |
| BeamSearch.Proceed | MMT/nmtpytorch/search.py:126-157 | a step that did not break pins, advances, and reaches a stage that extends the `Chain` of `Next` steps |
| BeamSearch.ExtendRun | MMT/nmtpytorch/search.py:106-157 | a chain of steps followed by one more `Next` step is a chain |
| BeamSearch.Iterate | MMT/nmtpytorch/search.py:106-157 | one pass of the loop body: it stops exactly when all previous tokens are 2 and changes nothing then; otherwise the next stage is appended and `t` advances |
| BeamSearch.Begin | MMT/nmtpytorch/search.py:91-104 | before the loop every sample scores 0, every previous token is `<bos>`, `tile = range(B)`, and the trace is the one starting stage |
| BeamSearch.Loop | MMT/nmtpytorch/search.py:106-157 | the loop runs until `max_len` steps or a step stops, from the starting stage, keeping the trace a chain of `Next` steps |
| BeamSearch.LoopDone | MMT/nmtpytorch/search.py:106-157 | when the loop ends, its trace is a `Run` whose last stage holds the store and the scores |
| BeamSearch.RunSteps | MMT/nmtpytorch/search.py:98-157 | the trace is a `Run`: it starts from the cleared store, zero scores, `<bos>` tokens and `range(B)`, every stage follows from the one before by `Next`, and it ends early exactly when all previous tokens are 2; the last stage holds the store and scores; other samples are untouched |
| BeamSearch.Lengths | MMT/nmtpytorch/search.py:163 | `lp` is every slot's clamped content length, at least 1 |
| BeamSearch.BestSlots | MMT/nmtpytorch/search.py:169-170 | per sample, a slot whose `nll / lp` no other slot exceeds |
| BeamSearch.PickBest | MMT/nmtpytorch/search.py:160-173 | the last row becomes `<eos>`; every hypothesis is its sample's best slot's column, which no slot beats on `nll / lp` |
| BeamSearch.FinalColumn | MMT/nmtpytorch/search.py:160-173 | a slot's column once the last row holds `<eos>`: the store's entries before it, `<eos>` last |
| BeamSearch.DecodeBatch | MMT/nmtpytorch/search.py:80-173 | `Decoded`: the trace is a `Run` of the step loop from the batch's starting stage, and every hypothesis is its best slot's column of the last stage with `<eos>` last, which no slot beats on `nll / lp`; it is well formed, and other samples' columns are untouched |
| BeamSearch.Conclude | MMT/nmtpytorch/search.py:160-173 | after a `Run` from the batch's start, the hypotheses picked from the store it left make the batch `Decoded`; each is well formed and other samples' columns are untouched |
| BeamSearch.DecodedOne | MMT/nmtpytorch/search.py:80-173 | one decoded batch is a decoded list of batches |
| BeamSearch.AppendDecoded | MMT/nmtpytorch/search.py:80-174 | appending a decoded batch to decoded batches keeps them decoded |
| BeamSearch.DecodedEach | MMT/nmtpytorch/search.py:80-174 | every batch of a decoded list was decoded as `Decoded` states |
| BeamSearch.DecodeNext | MMT/nmtpytorch/search.py:80-174 | one pass of the batch loop: batch `i` is decoded and its hypotheses are appended, so `results` is the decoded batches end to end |
| BeamSearch.DecodeAll | MMT/nmtpytorch/search.py:80-174 | every batch is decoded as `Decoded` states, and the results are their hypotheses end to end, one per sample |
| BeamSearch.Search | MMT/nmtpytorch/search.py:18-180 | every batch is decoded as `Decoded` states and the hypotheses laid end to end are well formed, one per sample; when the loader sorted, the results are the recovered order, and for a permutation result `i` is at `orig_idxs[i]` |
| Optim.Contains | MMT/nmtpytorch/optimizer.py:74 | `sub in s` holds exactly when `sub` occurs at some position of `s` |
| Optim.GetParams | MMT/nmtpytorch/optimizer.py:33-36 | exactly the named parameters with `requires_grad`, and no more of them than the model has |
| Optim.GetParamsAppend | MMT/nmtpytorch/optimizer.py:35-36 | the filter distributes over concatenation, so model order is kept |
| Optim.Select | MMT/nmtpytorch/optimizer.py:74-83 | a list comprehension over names keeps exactly the parameters whose name passes the test |
| Optim.ParamsOf | MMT/nmtpytorch/optimizer.py:68 | `self.params` lists the parameters of `named_params` in order |
| Optim.SelectSplit | MMT/nmtpytorch/optimizer.py:74-83 | a test and its negation split the parameters without overlap or loss |
| Optim.WeightBiasSplit | MMT/nmtpytorch/optimizer.py:72-80 | the weight and bias groups together are as large as the kept parameters |
| Optim.SelectNone | MMT/nmtpytorch/optimizer.py:85-89 | nothing is selected exactly when no name passes the test |
| Optim.ParamGroups | MMT/nmtpytorch/optimizer.py:72-83 | two groups with a positive weight decay, one otherwise |
| Optim.GroupsCover | MMT/nmtpytorch/optimizer.py:72-83 | a parameter is in some group exactly when it is trainable under a name without `discriminator`; only the weight group of a positive decay carries `weight_decay` |
| Optim.GroupsDisjoint | MMT/nmtpytorch/optimizer.py:73-79 | with distinct parameters, the weight and bias groups share none |
| Optim.Unassigned | MMT/nmtpytorch/optimizer.py:85-88 | the safety loop yields `len(params)` minus the sizes of all groups |
| Optim.WarningIff | MMT/nmtpytorch/optimizer.py:85-89 | the safety count is non-zero exactly when some trainable parameter is named `discriminator` |
| Optim.OptimArgs | MMT/nmtpytorch/optimizer.py:55-62 | `lr` is present exactly when positive; `momentum` and `nesterov` exactly for SGD; no other keys; the values are the arguments |
| Optim.BuildArgs | MMT/nmtpytorch/optimizer.py:55-62 | the key-by-key construction gives that dictionary |
| Optim.Optimizer.constructor | MMT/nmtpytorch/optimizer.py:38-114 | it stores every argument; the optimizer arguments, trainable parameters and groups are as above; it warns exactly when a `discriminator` parameter is trainable; the initial and current lr are the explicit lr, or the class default when none is given; `step` clips exactly when `gclip != 0`; a scheduler exists exactly when lr decay is on |
| Optim.Optimizer.LrStep | MMT/nmtpytorch/optimizer.py:121-130 | without a scheduler it returns False and changes nothing; with one it returns True and adopts the new lr when that lr moved, and None otherwise |
| Optim.Optimizer.Repr | MMT/nmtpytorch/optimizer.py:136-146 | the text starts with `Optimizer => `, the name and ` (`, ends with `)`, and between them holds exactly the rendered fields |
| Optim.Optimizer.ReprFields | MMT/nmtpytorch/optimizer.py:137-145 | `lr`, `weight_decay` and `g_clip` with their values first, then `momentum` and `nesterov` for SGD, and last, when lr decay is on, `lr_decay` with the value `(patience=…, factor=…)`; `3 + 2*sgd + decay` fields |
| Optim.Render | MMT/nmtpytorch/optimizer.py:137-145 | the `key: value` list joined by `, `: empty exactly when there are no fields, one field is its `key: value`, led by the first key and closed by the last value, as long as `Width` counts from the front |
| Optim.WidthSnoc | MMT/nmtpytorch/optimizer.py:139-145 | each appended clause adds its `, key: value` length |
| Optim.RenderSnoc | MMT/nmtpytorch/optimizer.py:139-145 | one more field after a non-empty list adds `, ` and its `key: value` |
| Optim.RenderAppend | MMT/nmtpytorch/optimizer.py:139-145 | rendering two non-empty lists one after the other joins their texts with `, ` |
| Optim.RenderList | MMT/nmtpytorch/optimizer.py:137-145 | the mandatory entries, then the SGD entries and the lr-decay entry when present, joined by `, ` |
| Optim.Labels | MMT/nmtpytorch/optimizer.py:136-146 | the field names in order |
| Optim.ReprClauses | MMT/nmtpytorch/optimizer.py:136-146 | lr, weight_decay and g_clip come first; momentum and nesterov appear exactly for SGD and lr_decay exactly with lr decay; there are `3 + 2*sgd + decay` fields |
| Optim.ReprText | MMT/nmtpytorch/optimizer.py:136-146 | the whole `__repr__` text as the source builds it: `Optimizer => name (lr: …, weight_decay: …, g_clip: …`, then `, momentum: …, nesterov: …` exactly for SGD, `, lr_decay: (patience=…, factor=…)` exactly with lr decay, and `)` |

## Left out

- `lp_alpha > 0` (lines 165-166 of search.py): the model has no floating
  point, so only plain length normalisation is modelled. The division
  `nll / lp` is compared by cross-multiplication, which orders the slots the
  same way because every length is at least 1.
- Floating-point scores: scores are integers. Float rounding and the NaN
  behaviour of `topk` are not modelled.
- The `task_id` branch (`Topology`, `get_decoder`, per-task vocabularies):
  Topology is not part of this model. The model covers the single-decoder
  branch.
- `vocab.list_of_idxs_to_sents`: the vocabulary code is not part of this
  model. Results are the token-id hypotheses that would be converted.
- `pbar`, `to_gpu`, `.cuda()`, `Variable` and `volatile`: progress display and
  device placement do not change values.
- The encoders and decoders (`encode`, `f_init`, `f_next`, `emb`) are opaque
  functions. Only their output shapes are assumed.
- BeamStep.TopK: `topk(..., sorted=False)` returns the `k` best in an order
  that torch does not specify, and it breaks ties its own way. The model
  promises a top-k set with the scores, not torch's particular order or tie
  choice.
- BeamSearch.Search: a beam size larger than the vocabulary makes `topk`
  raise at line 144 of search.py; the model requires `k <= V` instead.
- BeamSearch.Search: a batch larger than the sampler's batch size makes
  `narrow` raise at line 85 of search.py; the model requires every batch to
  fit the store instead.
- BeamSearch.Search: an empty batch never comes out of the loader; the model
  requires every batch to hold at least one sample.
- `nll_storage`: its narrowed view is rebound by the step loop, so it only
  provides the initial zero scores. It is modelled as a fresh `B x 1` zero
  matrix.
- `mask` and `nk_mask` are modelled by the values they produce (`Owners`),
  not as stored tensors.
- BeamSearch.Search: the loader's `orig_idxs` must not be longer than the
  number of results, since Python would raise an IndexError otherwise. Order
  recovery is proved to invert the sort only when `orig_idxs` is a
  permutation of the sample positions.
- Optim.Optimizer.constructor: an unknown optimizer name raises a KeyError in
  the source; the model requires a known name instead.
- Optim.Optimizer.constructor: the torch optimizer's `defaults['lr']` is not
  modelled. With an explicit positive lr it is that lr; otherwise it is the
  class default, which is the `classDefaultLr` input.
- Optim.Optimizer.LrStep: `ReduceLROnPlateau` is outside the model. The lr it
  leaves in parameter group 0 is the `scheduledLr` input. The scheduler's
  mode, factor, patience and minimum are stored but not acted on.
- `_step`, `clip_grad_norm` and `zero_grad`: they act on gradients, which are
  outside the model. Only the choice between the plain and the clipping step
  is modelled (`StepKind`).
- The warning `print` and the `logger.info` call are outputs. The model
  records only whether the warning is printed (`warned`).
- Optim.Optimizer.Repr: Python's float and int formatting is passed in as the
  `num` and `whole` functions. Booleans render as `True` and `False`.
- Optim.GroupsDisjoint: it assumes every parameter object appears once in
  `named_parameters()`, which torch guarantees and which the model does not
  derive.
