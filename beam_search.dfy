/*
 * The beam search driver: the `[max_len, max_batch_size, k]` token store that
 * every batch reuses, the time-step loop that grows and reorders it in place,
 * the final pick of one hypothesis per sample, and the recovery of the
 * loader's original sample order.
 */
module BeamSearch {
  import opened Wrappers
  import opened Arith
  import opened Tiling
  import opened BeamStep
  import opened BeamSelect

  /** The target vocabulary as the search sees it: its size and the ids of `<unk>` and `<eos>`. */
  datatype Vocab = Vocab(size: nat, unk: nat, eos: nat)

  /**
   * One model of the ensemble, seen only through the calls the search makes:
   * `encode(batch)`, `dec.f_init(ctx)`, `dec.f_next(ctx, dec.emb(y), h)` (with
   * the embedding folded into `next`), the `<bos>` id `get_bos` repeats and the
   * target vocabulary.
   */
  datatype Model<!Src, !F, !S> = Model(
    encode: Src -> Ctx<F>,
    init: Ctx<F> -> seq<S>,
    next: (Ctx<F>, seq<nat>, seq<S>) -> (Matrix, seq<S>),
    bos: nat,
    vocab: Vocab)

  /** A batch of `size` samples. */
  datatype Batch<Src> = Batch(size: nat, src: Src)

  /** The loader: its batches, the sampler's batch size and, when it sorted the samples, their original positions. */
  datatype Loader<Src> = Loader(batches: seq<Batch<Src>>, maxBatchSize: nat, storeIndices: bool, origIdxs: seq<nat>)

  /** Every decoder step returns one row of `width` log-probabilities and one new state per input row. */
  ghost predicate StepShaped<Src, F(!new), S(!new)>(m: Model<Src, F, S>, width: nat) {
    forall c: Ctx<F>, y: seq<nat>, h: seq<S> :: |y| == |h| ==>
      IsMatrix(m.next(c, y, h).0, |y|, width) && |m.next(c, y, h).1| == |y|
  }

  /** The encoder and the initial decoder state both cover every sample of the batch. */
  ghost predicate Encodes<Src, F(!new), S(!new)>(m: Model<Src, F, S>, batch: Batch<Src>) {
    HasWidth(m.encode(batch.src), batch.size) && |m.init(m.encode(batch.src))| == batch.size
  }

  /** The number of samples in all of `batches`. */
  function TotalSize<Src>(batches: seq<Batch<Src>>): (n: nat)
    ensures |batches| > 0 ==> n >= batches[|batches| - 1].size
    decreases |batches|
  {
    if |batches| == 0 then 0 else TotalSize(batches[..|batches| - 1]) + batches[|batches| - 1].size
  }

  /** A decoded hypothesis: `max_len` ids ending in `<eos>`, every earlier one a vocabulary id. */
  predicate WellFormedHyp(h: seq<int>, maxLen: nat, vocab: Vocab) {
    |h| == maxLen && maxLen >= 1 && h[maxLen - 1] == vocab.eos &&
    forall s :: 0 <= s < maxLen - 1 ==> 0 <= h[s] < vocab.size
  }

  // ------------------------------------------------------------ the token store

  /** `beam_storage.narrow(1, 0, B).zero_()`: the first `B` sample columns are cleared, the rest kept. */
  method ZeroSlice(beam: array3<int>, B: nat)
    requires B <= beam.Length1
    modifies beam
    ensures forall s, b, j :: 0 <= s < beam.Length0 && 0 <= b < beam.Length1 && 0 <= j < beam.Length2 ==>
              beam[s, b, j] == if b < B then 0 else old(beam[s, b, j])
    ensures Rest(beam, B) == old(Rest(beam, B))
  {
    ghost var rest := Rest(beam, B);
    forall s, b, j | 0 <= s < beam.Length0 && 0 <= b < B && 0 <= j < beam.Length2 {
      beam[s, b, j] := 0;
    }
    RestIs(beam, B, rest);
  }

  /** Row `s` of the first `B` sample columns, `beam[s]`. */
  function Row(beam: array3<int>, s: nat, B: nat): (r: seq<seq<nat>>)
    requires s < beam.Length0 && B <= beam.Length1
    requires forall b, j :: 0 <= b < B && 0 <= j < beam.Length2 ==> beam[s, b, j] >= 0
    reads beam
    ensures |r| == B && forall b :: 0 <= b < B ==> |r[b]| == beam.Length2
    ensures forall b, j :: 0 <= b < B && 0 <= j < beam.Length2 ==> r[b][j] == beam[s, b, j]
  {
    seq(B, b requires 0 <= b < B && forall j :: 0 <= j < beam.Length2 ==> beam[s, b, j] >= 0 reads beam =>
      seq(beam.Length2, j requires 0 <= j < beam.Length2 && beam[s, b, j] >= 0 reads beam => beam[s, b, j] as nat))
  }

  /**
   * `beam[:t] = beam[:t].gather(2, pdxs.repeat(t, 1, 1))`: every earlier row
   * of sample `b` is reordered so that slot `j` continues the history of its
   * ancestor slot `pdxs[b][j]`.
   */
  method GatherPrefix(beam: array3<int>, t: nat, B: nat, pdxs: seq<seq<nat>>)
    requires t <= beam.Length0 && B <= beam.Length1
    requires |pdxs| == B
    requires forall b :: 0 <= b < B ==> |pdxs[b]| == beam.Length2
    requires forall b, j :: 0 <= b < B && 0 <= j < beam.Length2 ==> pdxs[b][j] < beam.Length2
    modifies beam
    ensures forall s, b, j :: 0 <= s < beam.Length0 && 0 <= b < beam.Length1 && 0 <= j < beam.Length2 ==>
              beam[s, b, j] == if s < t && b < B then old(beam[s, b, pdxs[b][j]]) else old(beam[s, b, j])
    ensures Rest(beam, B) == old(Rest(beam, B))
  {
    ghost var rest := Rest(beam, B);
    forall s, b, j | 0 <= s < t && 0 <= b < B && 0 <= j < beam.Length2 {
      beam[s, b, j] := beam[s, b, pdxs[b][j]];
    }
    RestIs(beam, B, rest);
  }

  /** `beam[max_len - 1] = eos` on the first `B` sample columns. */
  method FillRow(beam: array3<int>, s: nat, B: nat, x: int)
    requires s < beam.Length0 && B <= beam.Length1
    modifies beam
    ensures forall s', b, j :: 0 <= s' < beam.Length0 && 0 <= b < beam.Length1 && 0 <= j < beam.Length2 ==>
              beam[s', b, j] == if s' == s && b < B then x else old(beam[s', b, j])
  {
    forall b, j | 0 <= b < B && 0 <= j < beam.Length2 {
      beam[s, b, j] := x;
    }
  }

  /** The hypothesis held by slot `j` of sample `b`: `beam[:, b, j]`. */
  function Column(beam: array3<int>, b: nat, j: nat): (col: seq<int>)
    requires b < beam.Length1 && j < beam.Length2
    reads beam
    ensures |col| == beam.Length0 && forall s :: 0 <= s < beam.Length0 ==> col[s] == beam[s, b, j]
  {
    seq(beam.Length0, s requires 0 <= s < beam.Length0 reads beam => beam[s, b, j])
  }

  /** The first `B` sample columns of the store as a value, indexed `[row][sample][slot]`. */
  type Store = seq<seq<seq<int>>>

  predicate StoreShaped(st: Store, L: nat, B: nat, k: nat) {
    |st| == L && forall s :: 0 <= s < L ==> |st[s]| == B && forall b :: 0 <= b < B ==> |st[s][b]| == k
  }

  /** The current contents of the first `B` sample columns. */
  ghost function Snapshot(beam: array3<int>, B: nat): (st: Store)
    requires B <= beam.Length1
    reads beam
    ensures StoreShaped(st, beam.Length0, B, beam.Length2)
    ensures forall s, b, j :: 0 <= s < beam.Length0 && 0 <= b < B && 0 <= j < beam.Length2 ==> st[s][b][j] == beam[s, b, j]
  {
    seq(beam.Length0, s requires 0 <= s < beam.Length0 reads beam =>
      seq(B, b requires 0 <= b < B reads beam =>
        seq(beam.Length2, j requires 0 <= j < beam.Length2 reads beam => beam[s, b, j])))
  }


  /** The sample columns from `B` on, which decoding a batch of `B` samples leaves alone, indexed `[row][sample - B][slot]`. */
  ghost function Rest(beam: array3<int>, B: nat): (st: Store)
    requires B <= beam.Length1
    reads beam
    ensures StoreShaped(st, beam.Length0, beam.Length1 - B, beam.Length2)
    ensures forall s, b, j :: 0 <= s < beam.Length0 && B <= b < beam.Length1 && 0 <= j < beam.Length2 ==>
              st[s][b - B][j] == beam[s, b, j]
  {
    seq(beam.Length0, s requires 0 <= s < beam.Length0 reads beam =>
      seq(beam.Length1 - B, b requires 0 <= b < beam.Length1 - B reads beam =>
        seq(beam.Length2, j requires 0 <= j < beam.Length2 reads beam => beam[s, B + b, j])))
  }

  /** A store shaped like the columns from `B` on and holding their values is their `Rest`. */
  lemma RestIs(beam: array3<int>, B: nat, r: Store)
    requires B <= beam.Length1 && StoreShaped(r, beam.Length0, beam.Length1 - B, beam.Length2)
    requires forall s, b, j :: 0 <= s < beam.Length0 && B <= b < beam.Length1 && 0 <= j < beam.Length2 ==>
               r[s][b - B][j] == beam[s, b, j]
    ensures Rest(beam, B) == r
  {
    var now := Rest(beam, B);
    forall s | 0 <= s < beam.Length0 ensures now[s] == r[s] {
      forall b | 0 <= b < beam.Length1 - B ensures now[s][b] == r[s][b] {
        forall j | 0 <= j < beam.Length2 ensures now[s][b][j] == r[s][b][j] {
          assert now[s][b][j] == beam[s, B + b, j] == r[s][B + b - B][j];
        }
      }
    }
  }

  // ------------------------------------------------------------ one time step

  /** `topk(k)` along every row of `cand`. */
  method TopKRows(cand: Matrix, k: nat) returns (vals: Matrix, sel: seq<seq<nat>>)
    requires forall b :: 0 <= b < |cand| ==> k <= |cand[b]|
    ensures IsMatrix(vals, |cand|, k) && |sel| == |cand|
    ensures forall b :: 0 <= b < |cand| ==>
              IsTopK(cand[b], sel[b], k) && forall i :: 0 <= i < k ==> vals[b][i] == cand[b][sel[b][i]]
  {
    vals, sel := [], [];
    var b := 0;
    while b < |cand|
      invariant 0 <= b <= |cand|
      invariant IsMatrix(vals, b, k) && |sel| == b
      invariant forall b' :: 0 <= b' < b ==>
                  IsTopK(cand[b'], sel[b'], k) && forall i :: 0 <= i < k ==> vals[b'][i] == cand[b'][sel[b'][i]]
    {
      var v, s := TopK(cand[b], k);
      vals, sel := vals + [v], sel + [s];
      b := b + 1;
    }
  }

  /** `B` samples cannot fill `B * k` slots with `k > 1`: the early exit at the first step needs `k == 1`. */
  lemma SingleSlot(B: nat, k: nat)
    requires B >= 1 && k >= 1 && B * k <= B
    ensures k == 1
  {
    MulNonneg(B, k - 2);
    assert B * (k - 2) == B * k - 2 * B;
  }

  /** A positive factor does not shrink a natural number. */
  lemma Widen(k: nat, width: nat)
    requires width >= 1
    ensures k <= k * width
  {
    MulNonneg(k, width - 1);
  }

  /** The sample each row of the decoder state belongs to when step `t` starts. */
  function Lineage(t: nat, B: nat, k: nat): (r: seq<nat>)
    requires k > 0
    ensures InRange(r, B)
  {
    if t <= 1 then Range(B) else Owners(B, k)
  }

  /** What `tile` looks like entering step `t`: `range(B)`, then `k` copies of every sample, then in-block backpointers. */
  ghost predicate TileShape(tile: seq<nat>, t: nat, B: nat, k: nat)
    requires k > 0
  {
    && |tile| == B * Slots(t, k)
    && InRange(tile, |Lineage(t, B, k)|)
    && (t == 0 ==> tile == Range(B))
    && (t == 1 ==> tile == Owners(B, k))
    && (t >= 2 ==> InBlock(tile, k))
  }

  /** Tiling the lineage of step `t` by that step's `tile` gives the lineage of step `t + 1`. */
  lemma NextLineage(tile: seq<nat>, t: nat, B: nat, k: nat)
    requires k > 0 && TileShape(tile, t, B, k)
    ensures Gather(Lineage(t, B, k), tile) == Lineage(t + 1, B, k)
  {
    if t <= 1 { GatherRange(B, tile); } else { OwnersStable(B, k, tile); }
  }

  /** Context `c` is the encoder's context `c0` re-tiled along `lineage`. */
  ghost predicate Follows<F>(c0: Ctx<F>, c: Ctx<F>, lineage: seq<nat>) {
    HasWidth(c, |lineage|) && CtxIndexable(c0, lineage) && c == TileCtx(c0, lineage)
  }

  /** Rows before `t` of the first `B` sample columns hold vocabulary ids and the later rows are still zero. */
  ghost predicate Filled(beam: array3<int>, B: nat, t: nat, V: nat)
    requires B <= beam.Length1
    reads beam
  {
    forall s, b, j :: 0 <= s < beam.Length0 && 0 <= b < B && 0 <= j < beam.Length2 ==>
      if s < t then 0 <= beam[s, b, j] < V else beam[s, b, j] == 0
  }

  /**
   * `idxs` holds the previous tokens: `<bos>` for every sample at the first
   * step, later the flattening of `last`, which is row `beam[t - 1]`.
   */
  ghost predicate Previous(idxs: seq<nat>, last: seq<seq<nat>>, beam: array3<int>, B: nat, t: nat, bos: nat)
    requires B <= beam.Length1 && t <= beam.Length0
    reads beam
  {
    if t == 0 then |idxs| == B && forall i :: 0 <= i < B ==> idxs[i] == bos
    else
      && |last| == B && (forall b :: 0 <= b < B ==> |last[b]| == beam.Length2)
      && idxs == Flatten(last, beam.Length2)
      && forall b, j :: 0 <= b < B && 0 <= j < beam.Length2 ==> last[b][j] == beam[t - 1, b, j]
  }

  /** Every model's `f_next` scores on its own context and state rows. */
  function Logits<Src, F, S>(models: seq<Model<Src, F, S>>, ctxs: seq<Ctx<F>>, idxs: seq<nat>, hs: seq<seq<S>>): (ls: seq<Matrix>)
    requires |ctxs| == |models| && |hs| == |models|
    ensures |ls| == |models| && forall m :: 0 <= m < |models| ==> ls[m] == models[m].next(ctxs[m], idxs, hs[m]).0
  {
    seq(|models|, m requires 0 <= m < |models| => models[m].next(ctxs[m], idxs, hs[m]).0)
  }

  /**
   * `f_next` of every model on its context, the previous tokens and its state
   * rows: every score is the sum of the models' scores (`sum(log_ps)`), and
   * every model's new state is its own call's.
   */
  function Ensemble<Src, F(!new), S(!new)>(models: seq<Model<Src, F, S>>, ctxs: seq<Ctx<F>>, idxs: seq<nat>, hs: seq<seq<S>>, V: nat)
    : (r: (Matrix, seq<seq<S>>))
    requires |ctxs| == |models| && |hs| == |models|
    requires forall m :: 0 <= m < |models| ==> StepShaped(models[m], V) && |hs[m]| == |idxs|
    ensures AllShaped(Logits(models, ctxs, idxs, hs), |idxs|, V)
    ensures IsMatrix(r.0, |idxs|, V) && |r.1| == |models|
    ensures forall i, v :: 0 <= i < |idxs| && 0 <= v < V ==> r.0[i][v] == CellSum(Logits(models, ctxs, idxs, hs), |idxs|, V, i, v)
    ensures forall m :: 0 <= m < |models| ==> r.1[m] == models[m].next(ctxs[m], idxs, hs[m]).1 && |r.1[m]| == |idxs|
  {
    var ls := Logits(models, ctxs, idxs, hs);
    forall m | 0 <= m < |models| ensures IsMatrix(ls[m], |idxs|, V) && |models[m].next(ctxs[m], idxs, hs[m]).1| == |idxs| {
      var next := models[m].next;
      assert StepShaped(models[m], V);
      assert ls[m] == next(ctxs[m], idxs, hs[m]).0;
    }
    (SumScores(ls, |idxs|, V), seq(|models|, m requires 0 <= m < |models| => models[m].next(ctxs[m], idxs, hs[m]).1))
  }

  /** `h_t[tile]` for every model. */
  function GatherStates<S>(hs: seq<seq<S>>, tile: seq<nat>): (gs: seq<seq<S>>)
    requires forall m :: 0 <= m < |hs| ==> InRange(tile, |hs[m]|)
    ensures |gs| == |hs| && forall m :: 0 <= m < |hs| ==> gs[m] == Gather(hs[m], tile)
  {
    seq(|hs|, m requires 0 <= m < |hs| => Gather(hs[m], tile))
  }

  /** What the decoder calls of one step need: a context and a state list per model, both indexable by `tile`. */
  ghost predicate Ready<Src, F(!new), S(!new)>(models: seq<Model<Src, F, S>>, vocab: Vocab, ctxs: seq<Ctx<F>>, hs: seq<seq<S>>,
                                              idxs: seq<nat>, tile: seq<nat>) {
    && |ctxs| == |models| && |hs| == |models| && |idxs| == |tile| && vocab.unk < vocab.size
    && forall m :: 0 <= m < |models| ==> StepShaped(models[m], vocab.size) && CtxIndexable(ctxs[m], tile) && InRange(tile, |hs[m]|)
  }

  /**
   * Lines 109-124 of one step: every model's context is re-tiled along
   * `tile`, every decoder runs on the previous tokens and its state rows
   * gathered along `tile`, the scores are summed over the models and, when
   * asked, `<unk>` scores `inf`.
   */
  function Score<Src, F(!new), S(!new)>(models: seq<Model<Src, F, S>>, ctxs: seq<Ctx<F>>, hs: seq<seq<S>>, idxs: seq<nat>,
                                        tile: seq<nat>, vocab: Vocab, suppressUnk: bool)
    : (r: (seq<Ctx<F>>, seq<seq<S>>, Matrix))
    requires Ready(models, vocab, ctxs, hs, idxs, tile)
    ensures |r.0| == |models| && |r.1| == |models| && IsMatrix(r.2, |idxs|, vocab.size)
    ensures forall m :: 0 <= m < |models| ==> r.0[m] == TileCtx(ctxs[m], tile)
    ensures forall m :: 0 <= m < |models| ==> r.1[m] == models[m].next(r.0[m], idxs, Gather(hs[m], tile)).1 && |r.1[m]| == |idxs|
    ensures AllShaped(Logits(models, r.0, idxs, GatherStates(hs, tile)), |idxs|, vocab.size)
    ensures forall i, v :: 0 <= i < |idxs| && 0 <= v < vocab.size ==>
              r.2[i][v] == if suppressUnk && v == vocab.unk then Inf
                           else CellSum(Logits(models, r.0, idxs, GatherStates(hs, tile)), |idxs|, vocab.size, i, v)
  {
    var M, V := |models|, vocab.size;
    var ctxs' := seq(M, m requires 0 <= m < M => TileCtx(ctxs[m], tile));
    var out := Ensemble(models, ctxs', idxs, GatherStates(hs, tile), V);
    (ctxs', out.1, if suppressUnk then SetColumn(out.0, |idxs|, V, vocab.unk, Inf) else out.0)
  }

  /**
   * A `tile` of step `t`'s shape can index a context and the state rows that
   * follow the lineage of step `t`, and the re-tiled context follows the
   * lineage of step `t + 1`.
   */
  lemma Retile<F>(c0: Ctx<F>, c: Ctx<F>, rows: nat, tile: seq<nat>, t: nat, B: nat, k: nat)
    requires k > 0 && TileShape(tile, t, B, k) && Follows(c0, c, Lineage(t, B, k)) && rows == |Lineage(t, B, k)|
    ensures CtxIndexable(c, tile) && InRange(tile, rows)
    ensures |tile| == |Lineage(t + 1, B, k)| && Follows(c0, TileCtx(c, tile), Lineage(t + 1, B, k))
  {
    WidthIndexable(c, rows, tile);
    TileCompose(c0, Lineage(t, B, k), tile);
    NextLineage(tile, t, B, k);
  }

  // ------------------------------------------------------------ one step, stated on values

  /**
   * What the step loop holds entering a step: the store's first `B` columns,
   * the running scores `nll`, the previous tokens `idxs`, the backpointers
   * `tile`, every model's context and state, and the picks that led here.
   */
  datatype Stage<F, S> = Stage(store: Store, nll: Matrix, idxs: seq<nat>, tile: seq<nat>,
                               ctxs: seq<Ctx<F>>, hs: seq<seq<S>>, picked: seq<seq<nat>>)

  /**
   * Lines 142-144: each sample's picks are a top-k of its cross-summed
   * candidates, and the new running scores are the picked candidates' scores.
   */
  ghost predicate Selects(nll: Matrix, logp: Matrix, B: nat, slots: nat, k: nat, V: nat, picked: seq<seq<nat>>, nll': Matrix)
    requires V > 0 && IsMatrix(nll, B, slots) && IsMatrix(logp, B * slots, V)
  {
    && |picked| == B && IsMatrix(nll', B, k)
    && forall b :: 0 <= b < B ==>
         && IsTopK(Expand(nll, logp, slots, V)[b], picked[b], k)
         && forall j :: 0 <= j < k ==> nll'[b][j] == Expand(nll, logp, slots, V)[b][picked[b][j]]
  }

  /**
   * Lines 146-157 on the store: row `t` receives the picks' tokens, every
   * earlier row is reordered along the picks' ancestor slots, and the later
   * rows are kept.
   */
  ghost predicate Records(st: Store, st': Store, t: nat, B: nat, k: nat, V: nat, picked: seq<seq<nat>>)
    requires V > 0
  {
    && t < |st| && StoreShaped(st, |st|, B, k) && StoreShaped(st', |st|, B, k)
    && |picked| == B && (forall b :: 0 <= b < B ==> |picked[b]| == k)
    && (forall b, j :: 0 <= b < B && 0 <= j < k ==> Ancestor(picked[b][j], V) < k)
    && forall s, b, j :: 0 <= s < |st| && 0 <= b < B && 0 <= j < k ==>
         st'[s][b][j] == if s < t then st[s][b][Ancestor(picked[b][j], V)]
                         else if s == t then Token(picked[b][j], V)
                         else st[s][b][j]
  }

  /**
   * Step `t` of the loop (lines 106-157) from stage `a` to stage `c` when it
   * does not break: not every previous token is 2; the scores are those of
   * `Score`, pinned; `c` holds a top-k selection of the cross-summed
   * candidates, the store recorded along it, the new tokens as `idxs`, the
   * backpointers of line 153 as `tile`, and the models' new contexts and states.
   */
  ghost predicate Next<Src, F(!new), S(!new)>(models: seq<Model<Src, F, S>>, vocab: Vocab, suppressUnk: bool, B: nat, k: nat, t: nat,
                                             a: Stage<F, S>, c: Stage<F, S>) {
    && 0 < k && EosId < vocab.size
    && Ready(models, vocab, a.ctxs, a.hs, a.idxs, a.tile)
    && |a.idxs| == B * Slots(t, k) && IsMatrix(a.nll, B, Slots(t, k))
    && |FinishedRows(a.idxs)| != B * k
    && var scored := Score(models, a.ctxs, a.hs, a.idxs, a.tile, vocab, suppressUnk);
       && Selects(a.nll, Pinned(scored.2, a.idxs, vocab.size), B, Slots(t, k), k, vocab.size, c.picked, c.nll)
       && Records(a.store, c.store, t, B, k, vocab.size, c.picked)
       && c.idxs == Flatten(Tokens(c.picked, vocab.size), k)
       && c.tile == Backpointers(Flatten(Ancestors(c.picked, vocab.size), k), k, t)
       && c.ctxs == scored.0 && c.hs == scored.1
  }

  /** Every stage of `trace` follows from the one before it by `Next`, stage `i` entering step `i`. */
  ghost predicate Chain<Src, F(!new), S(!new)>(models: seq<Model<Src, F, S>>, vocab: Vocab, suppressUnk: bool, B: nat, k: nat,
                                              trace: seq<Stage<F, S>>)
    decreases |trace|, 1
  {
    |trace| <= 1 || Linked(models, vocab, suppressUnk, B, k, trace)
  }

  /** The last stage of `trace` follows from the one before, and the rest is a `Chain`. */
  ghost predicate Linked<Src, F(!new), S(!new)>(models: seq<Model<Src, F, S>>, vocab: Vocab, suppressUnk: bool, B: nat, k: nat,
                                               trace: seq<Stage<F, S>>)
    requires |trace| >= 2
    decreases |trace|, 0
  {
    && Chain(models, vocab, suppressUnk, B, k, trace[..|trace| - 1])
    && Next(models, vocab, suppressUnk, B, k, |trace| - 2, trace[|trace| - 2], trace[|trace| - 1])
  }

  /**
   * `trace[i]` is what the loop holds entering step `i`: each stage follows
   * from the one before by `Next`, and the loop ends after `max_len` steps
   * or, earlier, exactly when every previous token of the last stage is 2.
   */
  ghost predicate Run<Src, F(!new), S(!new)>(models: seq<Model<Src, F, S>>, vocab: Vocab, suppressUnk: bool, B: nat, k: nat, L: nat,
                                            trace: seq<Stage<F, S>>) {
    && 1 <= |trace| <= L + 1
    && Chain(models, vocab, suppressUnk, B, k, trace)
    && (|trace| <= L ==> |FinishedRows(trace[|trace| - 1].idxs)| == B * k)
  }

  /**
   * Lines 85-104: before the first step the store is cleared, every sample
   * scores 0, every previous token is `<bos>`, `tile = range(B)`, and the
   * contexts and states are the encoders' and `f_init`'s.
   */
  ghost predicate IsStart<Src, F, S>(models: seq<Model<Src, F, S>>, batch: Batch<Src>, L: nat, k: nat, a: Stage<F, S>)
    requires |models| >= 1
  {
    && StoreShaped(a.store, L, batch.size, k)
    && (forall s, b, j :: 0 <= s < L && 0 <= b < batch.size && 0 <= j < k ==> a.store[s][b][j] == 0)
    && IsMatrix(a.nll, batch.size, 1) && (forall b :: 0 <= b < batch.size ==> a.nll[b][0] == 0)
    && |a.idxs| == batch.size && (forall i :: 0 <= i < batch.size ==> a.idxs[i] == models[0].bos)
    && a.tile == Range(batch.size)
    && |a.ctxs| == |models| && |a.hs| == |models|
    && forall m :: 0 <= m < |models| ==> a.ctxs[m] == models[m].encode(batch.src) && a.hs[m] == models[m].init(a.ctxs[m])
  }

  /** Slot `j` of sample `b` once the last row holds `eos` (line 160). */
  ghost function FinalColumn(st: Store, b: nat, j: nat, eos: int): (col: seq<int>)
    requires |st| >= 1 && forall s :: 0 <= s < |st| ==> b < |st[s]| && j < |st[s][b]|
    ensures |col| == |st| && col[|st| - 1] == eos && forall s :: 0 <= s < |st| - 1 ==> col[s] == st[s][b][j]
  {
    seq(|st|, s requires 0 <= s < |st| => if s == |st| - 1 then eos else st[s][b][j])
  }

  /**
   * One batch decoded (lines 85-173): `trace` is a run of the step loop from
   * the start, every hypothesis is its sample's `best` slot of the last
   * stage with `<eos>` in the last row, and no slot of that sample has a
   * larger score per content token.
   */
  ghost predicate Decoded<Src, F(!new), S(!new)>(models: seq<Model<Src, F, S>>, batch: Batch<Src>, L: nat, k: nat, suppressUnk: bool,
                                                trace: seq<Stage<F, S>>, best: seq<nat>, hyps: seq<seq<int>>) {
    && |models| >= 1 && L >= 1
    && Run(models, models[0].vocab, suppressUnk, batch.size, k, L, trace) && IsStart(models, batch, L, k, trace[0])
    && var last := trace[|trace| - 1];
       && StoreShaped(last.store, L, batch.size, k) && IsMatrix(last.nll, batch.size, k)
       && |best| == batch.size && |hyps| == batch.size
       && (forall b :: 0 <= b < batch.size ==> best[b] < k && hyps[b] == FinalColumn(last.store, b, best[b], models[0].vocab.eos))
       && forall b, j :: 0 <= b < batch.size && 0 <= j < k ==>
            NormLeq(last.nll[b][j], HypLength(FinalColumn(last.store, b, j, models[0].vocab.eos)),
                    last.nll[b][best[b]], HypLength(FinalColumn(last.store, b, best[b], models[0].vocab.eos)))
  }

  /**
   * Every batch `n` of `batches` was decoded to `chunks[n]` as `Decoded`
   * states, by the run `traces[n]` with best slots `bests[n]`.
   */
  ghost predicate AllDecoded<Src, F(!new), S(!new)>(models: seq<Model<Src, F, S>>, batches: seq<Batch<Src>>, L: nat, k: nat,
                                                   suppressUnk: bool, traces: seq<seq<Stage<F, S>>>, bests: seq<seq<nat>>,
                                                   chunks: seq<seq<seq<int>>>)
    decreases |batches|, 1
  {
    && |traces| == |batches| && |bests| == |batches| && |chunks| == |batches|
    && (|batches| == 0 || LastDecoded(models, batches, L, k, suppressUnk, traces, bests, chunks))
  }

  /** The last batch was decoded as `Decoded` states, and the ones before it as `AllDecoded` states. */
  ghost predicate LastDecoded<Src, F(!new), S(!new)>(models: seq<Model<Src, F, S>>, batches: seq<Batch<Src>>, L: nat, k: nat,
                                                    suppressUnk: bool, traces: seq<seq<Stage<F, S>>>, bests: seq<seq<nat>>,
                                                    chunks: seq<seq<seq<int>>>)
    requires 1 <= |batches| == |traces| == |bests| == |chunks|
    decreases |batches|, 0
  {
    var n := |batches| - 1;
    && AllDecoded(models, batches[..n], L, k, suppressUnk, traces[..n], bests[..n], chunks[..n])
    && Decoded(models, batches[n], L, k, suppressUnk, traces[n], bests[n], chunks[n])
  }

  /** A single decoded batch is `AllDecoded`. */
  lemma DecodedOne<Src, F(!new), S(!new)>(models: seq<Model<Src, F, S>>, batch: Batch<Src>, L: nat, k: nat, suppressUnk: bool,
                                          trace: seq<Stage<F, S>>, best: seq<nat>, hyps: seq<seq<int>>)
    requires Decoded(models, batch, L, k, suppressUnk, trace, best, hyps)
    ensures AllDecoded(models, [batch], L, k, suppressUnk, [trace], [best], [hyps])
  {
    assert LastDecoded(models, [batch], L, k, suppressUnk, [trace], [best], [hyps]);
  }

  /** Batches decoded one after the other are `AllDecoded` together. */
  lemma AppendDecoded<Src, F(!new), S(!new)>(models: seq<Model<Src, F, S>>, batches: seq<Batch<Src>>, L: nat, k: nat,
                                             suppressUnk: bool, traces: seq<seq<Stage<F, S>>>, bests: seq<seq<nat>>,
                                             chunks: seq<seq<seq<int>>>, batch: Batch<Src>, trace: seq<Stage<F, S>>,
                                             best: seq<nat>, hyps: seq<seq<int>>)
    requires AllDecoded(models, batches, L, k, suppressUnk, traces, bests, chunks)
    requires AllDecoded(models, [batch], L, k, suppressUnk, [trace], [best], [hyps])
    ensures AllDecoded(models, batches + [batch], L, k, suppressUnk, traces + [trace], bests + [best], chunks + [hyps])
  {
    var n := |batches|;
    assert LastDecoded(models, [batch], L, k, suppressUnk, [trace], [best], [hyps]);
    assert (batches + [batch])[..n] == batches && (traces + [trace])[..n] == traces;
    assert (bests + [best])[..n] == bests && (chunks + [hyps])[..n] == chunks;
    assert LastDecoded(models, batches + [batch], L, k, suppressUnk, traces + [trace], bests + [best], chunks + [hyps]);
  }

  lemma {:induction false} DecodedEach<Src, F(!new), S(!new)>(models: seq<Model<Src, F, S>>, batches: seq<Batch<Src>>, L: nat, k: nat,
                                                             suppressUnk: bool, traces: seq<seq<Stage<F, S>>>,
                                                             bests: seq<seq<nat>>, chunks: seq<seq<seq<int>>>)
    requires AllDecoded(models, batches, L, k, suppressUnk, traces, bests, chunks)
    ensures forall n :: 0 <= n < |batches| ==> Decoded(models, batches[n], L, k, suppressUnk, traces[n], bests[n], chunks[n])
    decreases |batches|
  {
    if |batches| > 0 {
      var n := |batches| - 1;
      assert LastDecoded(models, batches, L, k, suppressUnk, traces, bests, chunks);
      DecodedEach(models, batches[..n], L, k, suppressUnk, traces[..n], bests[..n], chunks[..n]);
    }
  }

  /** The batches' hypotheses laid end to end (`results.extend`). */
  function Concat<T>(chunks: seq<seq<T>>): seq<T>
    decreases |chunks|
  {
    if |chunks| == 0 then [] else Concat(chunks[..|chunks| - 1]) + chunks[|chunks| - 1]
  }

  // ------------------------------------------------------------ the step loop

  /** `beam[s] = vals` on the first `B` sample columns; everything else is kept. */
  method SetRow(beam: array3<int>, s: nat, B: nat, vals: seq<seq<nat>>)
    requires s < beam.Length0 && B <= beam.Length1
    requires |vals| == B && forall b :: 0 <= b < B ==> |vals[b]| == beam.Length2
    modifies beam
    ensures forall s', b, j :: 0 <= s' < beam.Length0 && 0 <= b < beam.Length1 && 0 <= j < beam.Length2 ==>
              beam[s', b, j] == if s' == s && b < B then vals[b][j] else old(beam[s', b, j])
    ensures Rest(beam, B) == old(Rest(beam, B))
  {
    ghost var rest := Rest(beam, B);
    forall b, j | 0 <= b < B && 0 <= j < beam.Length2 {
      beam[s, b, j] := vals[b][j];
    }
    RestIs(beam, B, rest);
  }

  /**
   * `beam[t] = <flat top-k indices>`, `pdxs = beam[t] / n_vocab` and
   * `beam[t].remainder_(n_vocab)`: row `t` keeps the chosen tokens and the
   * ancestor slots are returned.
   */
  method RecordStep(beam: array3<int>, t: nat, B: nat, flat: seq<seq<nat>>, slots: nat, V: nat)
    returns (pdxs: seq<seq<nat>>, row: seq<seq<nat>>)
    requires t < beam.Length0 && B <= beam.Length1 && V > 0
    requires |flat| == B && forall b :: 0 <= b < B ==> |flat[b]| == beam.Length2
    requires forall b, j :: 0 <= b < B && 0 <= j < beam.Length2 ==> flat[b][j] < slots * V
    modifies beam
    ensures |pdxs| == B && forall b :: 0 <= b < B ==> |pdxs[b]| == beam.Length2
    ensures forall b, j :: 0 <= b < B && 0 <= j < beam.Length2 ==> pdxs[b][j] == Ancestor(flat[b][j], V) < slots
    ensures forall b, j :: 0 <= b < B && 0 <= j < beam.Length2 ==> beam[t, b, j] == Token(flat[b][j], V)
    ensures forall s, b, j :: 0 <= s < beam.Length0 && 0 <= b < B && 0 <= j < beam.Length2 && s != t ==>
              beam[s, b, j] == old(beam[s, b, j])
    ensures Rest(beam, B) == old(Rest(beam, B))
    ensures pdxs == Ancestors(flat, V) && row == Tokens(flat, V)
  {
    SetRow(beam, t, B, flat);
    var stored := Row(beam, t, B);
    forall b | 0 <= b < B ensures stored[b] == flat[b] {
    }
    assert stored == flat;
    pdxs := Ancestors(stored, V);
    SetRow(beam, t, B, Tokens(stored, V));
    forall b, j | 0 <= b < B && 0 <= j < beam.Length2 ensures pdxs[b][j] < slots {
      AncestorBound(flat[b][j], slots, V);
    }
    row := Row(beam, t, B);
    forall b | 0 <= b < B ensures row[b] == Tokens(flat, V)[b] {
    }
  }

  /** `tile = pdxs.view(-1) + (nk_mask / k) * (k if t else 1)`: the state rows the next step's slots continue. */
  function NextTile(pdxs: seq<seq<nat>>, B: nat, k: nat, t: nat): (tile: seq<nat>)
    requires k > 0 && |pdxs| == B && forall b :: 0 <= b < B ==> |pdxs[b]| == k
    requires forall b, j :: 0 <= b < B && 0 <= j < k ==> pdxs[b][j] < Slots(t, k)
    ensures TileShape(tile, t + 1, B, k)
  {
    FlattenBelow(pdxs, k, Slots(t, k));
    var flat := Flatten(pdxs, k);
    BackpointersInRange(flat, B, k, t);
    var tile := Backpointers(flat, k, t);
    assert TileShape(tile, t + 1, B, k) by {
      if t == 0 {
        assert tile == Owners(B, k);
      } else {
        assert InBlock(tile, k);
        assert InRange(tile, B * k);
      }
    }
    tile
  }

  /** Slot `j` of sample `b` continues state row `b * slots + pdxs[b][j]`. */
  lemma NextTileAt(pdxs: seq<seq<nat>>, B: nat, k: nat, t: nat, b: nat, j: nat)
    requires k > 0 && |pdxs| == B && forall b :: 0 <= b < B ==> |pdxs[b]| == k
    requires forall b, j :: 0 <= b < B && 0 <= j < k ==> pdxs[b][j] < Slots(t, k)
    requires b < B && j < k
    ensures b * k + j < |NextTile(pdxs, B, k, t)| && NextTile(pdxs, B, k, t)[b * k + j] == b * Slots(t, k) + pdxs[b][j]
  {
    BackpointerAt(pdxs, k, t, b, j);
  }

  /**
   * Lines 142-144: cross-sum the running scores `nll` of every slot with the
   * step's `logp` and keep, per sample, the `k` best of the `slots * V`
   * candidates; `picked` holds their flat candidate indices.
   */
  method Choose(nll: Matrix, logp: Matrix, B: nat, slots: nat, k: nat, V: nat) returns (scores: Matrix, picked: seq<seq<nat>>)
    requires 1 <= k <= V && 1 <= slots && (slots == 1 || slots == k)
    requires IsMatrix(nll, B, slots) && IsMatrix(logp, B * slots, V)
    ensures IsMatrix(scores, B, k) && |picked| == B
    ensures forall b :: 0 <= b < B ==>
              && IsTopK(Expand(nll, logp, slots, V)[b], picked[b], k)
              && forall j :: 0 <= j < k ==> picked[b][j] < slots * V && scores[b][j] == Expand(nll, logp, slots, V)[b][picked[b][j]]
    ensures Selects(nll, logp, B, slots, k, V, picked, scores)
  {
    var cand := Expand(nll, logp, slots, V);
    Widen(k, V);
    scores, picked := TopKRows(cand, k);
  }

  /**
   * Lines 146-157: record the tokens of the picked candidates in row `t`,
   * read them back as the next step's previous tokens, compute the
   * backpointers and reorder the earlier rows along the ancestors `pdxs`.
   */
  method Commit(beam: array3<int>, t: nat, B: nat, picked: seq<seq<nat>>, slots: nat, V: nat, ghost bos: nat)
    returns (pdxs: seq<seq<nat>>, idxs: seq<nat>, tile: seq<nat>, ghost last: seq<seq<nat>>)
    requires t < beam.Length0 && 1 <= B <= beam.Length1 && 1 <= beam.Length2 <= V
    requires slots == Slots(t, beam.Length2) && Filled(beam, B, t, V)
    requires |picked| == B && forall b :: 0 <= b < B ==> |picked[b]| == beam.Length2
    requires forall b, j :: 0 <= b < B && 0 <= j < beam.Length2 ==> picked[b][j] < slots * V
    modifies beam
    ensures pdxs == Ancestors(picked, V) && last == Tokens(picked, V) && idxs == Flatten(Tokens(picked, V), beam.Length2)
    ensures forall b, j :: 0 <= b < B && 0 <= j < beam.Length2 ==> pdxs[b][j] < slots
    ensures Rest(beam, B) == old(Rest(beam, B))
    ensures tile == NextTile(pdxs, B, beam.Length2, t) && TileShape(tile, t + 1, B, beam.Length2)
    ensures Filled(beam, B, t + 1, V) && Previous(idxs, last, beam, B, t + 1, bos)
    ensures Records(old(Snapshot(beam, B)), Snapshot(beam, B), t, B, beam.Length2, V, picked)
  {
    var k := beam.Length2;
    ghost var before := Snapshot(beam, B);
    var row;
    pdxs, row := Reorder(beam, t, B, picked, slots, V);
    idxs, last := Flatten(row, k), row;
    tile := NextTile(pdxs, B, k, t);
    ghost var after := Snapshot(beam, B);
    forall s, b, j | 0 <= s < beam.Length0 && 0 <= b < B && 0 <= j < k
      ensures if s < t then 0 <= before[s][b][j] < V else before[s][b][j] == 0
    {
      assert before[s][b][j] == old(beam[s, b, j]);
    }
    RecordsFill(before, after, t, B, k, V, picked);
    forall s, b, j | 0 <= s < beam.Length0 && 0 <= b < B && 0 <= j < k
      ensures if s < t + 1 then 0 <= beam[s, b, j] < V else beam[s, b, j] == 0
    {
      assert beam[s, b, j] == after[s][b][j];
    }
    forall b, j | 0 <= b < B && 0 <= j < k ensures last[b][j] == beam[t, b, j] {
      assert beam[t, b, j] == after[t][b][j];
    }
  }

  /** Recording step `t` fills row `t` with vocabulary ids and keeps the rows after it zero. */
  lemma RecordsFill(st: Store, st': Store, t: nat, B: nat, k: nat, V: nat, picked: seq<seq<nat>>)
    requires V > 0 && Records(st, st', t, B, k, V, picked)
    requires forall s, b, j :: 0 <= s < |st| && 0 <= b < B && 0 <= j < k ==>
               if s < t then 0 <= st[s][b][j] < V else st[s][b][j] == 0
    ensures forall s, b, j :: 0 <= s < |st| && 0 <= b < B && 0 <= j < k ==>
              if s < t + 1 then 0 <= st'[s][b][j] < V else st'[s][b][j] == 0
  {
    forall s, b, j | 0 <= s < |st| && 0 <= b < B && 0 <= j < k
      ensures if s < t + 1 then 0 <= st'[s][b][j] < V else st'[s][b][j] == 0
    {
      var a := Ancestor(picked[b][j], V);
      assert st'[s][b][j] == if s < t then st[s][b][a] else if s == t then Token(picked[b][j], V) else st[s][b][j];
      if s < t {
        assert a < k && 0 <= st[s][b][a] < V;
      }
    }
  }

  /**
   * Lines 146-148 and 151-152 on the store: row `t` receives the picks'
   * tokens and every earlier row is reordered along their ancestor slots.
   * `pdxs` and the stored row are returned.
   */
  method Reorder(beam: array3<int>, t: nat, B: nat, picked: seq<seq<nat>>, slots: nat, V: nat)
    returns (pdxs: seq<seq<nat>>, row: seq<seq<nat>>)
    requires t < beam.Length0 && 1 <= B <= beam.Length1 && 1 <= beam.Length2 <= V
    requires slots == Slots(t, beam.Length2)
    requires |picked| == B && forall b :: 0 <= b < B ==> |picked[b]| == beam.Length2
    requires forall b, j :: 0 <= b < B && 0 <= j < beam.Length2 ==> picked[b][j] < slots * V
    modifies beam
    ensures forall b, j :: 0 <= b < B && 0 <= j < beam.Length2 ==> Ancestor(picked[b][j], V) < slots
    ensures pdxs == Ancestors(picked, V) && row == Tokens(picked, V)
    ensures Rest(beam, B) == old(Rest(beam, B))
    ensures Records(old(Snapshot(beam, B)), Snapshot(beam, B), t, B, beam.Length2, V, picked)
  {
    var k := beam.Length2;
    ghost var before := Snapshot(beam, B);
    pdxs, row := RecordStep(beam, t, B, picked, slots, V);
    label recorded:
    if t > 0 {
      GatherPrefix(beam, t, B, pdxs);
    }
    ghost var after := Snapshot(beam, B);
    forall s, b, j | 0 <= s < beam.Length0 && 0 <= b < B && 0 <= j < k
      ensures after[s][b][j] == if s < t then before[s][b][Ancestor(picked[b][j], V)]
                                else if s == t then Token(picked[b][j], V)
                                else before[s][b][j]
    {
      if s < t {
        assert beam[s, b, j] == old@recorded(beam[s, b, pdxs[b][j]]) == old(beam[s, b, pdxs[b][j]]);
      }
    }
  }

  /**
   * Lines 136-157 of one step: `Choose` followed by `Commit`. The picks are
   * a top-k selection of the candidates, the store is recorded along them,
   * and the next step's previous tokens and backpointers are theirs.
   */
  method Advance(beam: array3<int>, nll: Matrix, logp: Matrix, t: nat, B: nat, V: nat, ghost bos: nat)
    returns (nll': Matrix, idxs: seq<nat>, tile: seq<nat>, ghost last: seq<seq<nat>>, picked: seq<seq<nat>>)
    requires t < beam.Length0 && 1 <= B <= beam.Length1 && 1 <= beam.Length2 <= V
    requires Filled(beam, B, t, V)
    requires IsMatrix(nll, B, Slots(t, beam.Length2)) && IsMatrix(logp, B * Slots(t, beam.Length2), V)
    modifies beam
    ensures Selects(nll, logp, B, Slots(t, beam.Length2), beam.Length2, V, picked, nll')
    ensures Records(old(Snapshot(beam, B)), Snapshot(beam, B), t, B, beam.Length2, V, picked)
    ensures idxs == Flatten(Tokens(picked, V), beam.Length2)
    ensures tile == Backpointers(Flatten(Ancestors(picked, V), beam.Length2), beam.Length2, t)
    ensures Filled(beam, B, t + 1, V) && Previous(idxs, last, beam, B, t + 1, bos) && TileShape(tile, t + 1, B, beam.Length2)
    ensures Rest(beam, B) == old(Rest(beam, B))
  {
    var k, slots := beam.Length2, Slots(t, beam.Length2);
    var pdxs;
    nll', picked := Choose(nll, logp, B, slots, k, V);
    pdxs, idxs, tile, last := Commit(beam, t, B, picked, slots, V, bos);
  }

  /** When every flattened previous token is `<eos>`, so is every slot's token. */
  lemma AllEos(last: seq<seq<nat>>, B: nat, k: nat)
    requires |last| == B && forall b :: 0 <= b < B ==> |last[b]| == k
    requires |FinishedRows(Flatten(last, k))| == B * k
    ensures forall b, j :: 0 <= b < B && 0 <= j < k ==> last[b][j] == EosId
  {
    AllFinishedIff(Flatten(last, k));
    FlattenAll(last, k, EosId);
  }

  /** At the first step the `B` previous tokens are all `<bos>`: they fill `B * k` slots only with `k == 1` and `<bos>` equal to `<eos>`. */
  lemma FirstExit(idxs: seq<nat>, B: nat, k: nat, bos: nat)
    requires 1 <= B && 1 <= k && |idxs| == B && forall i :: 0 <= i < B ==> idxs[i] == bos
    requires |FinishedRows(idxs)| == B * k
    ensures bos == EosId && k == 1
  {
    SingleSlot(B, k);
    AllFinishedIff(idxs);
    assert idxs[0] == bos;
  }

  /**
   * Line 129: the loop stops when all `B * k` previous tokens are `<eos>`.
   * At the first step that needs `k == 1` and `<bos>` equal to `<eos>`;
   * later it means every slot's last stored token is `<eos>`.
   */
  lemma EarlyExit(idxs: seq<nat>, last: seq<seq<nat>>, beam: array3<int>, B: nat, t: nat, bos: nat)
    requires 1 <= B <= beam.Length1 && t <= beam.Length0 && beam.Length2 >= 1
    requires Previous(idxs, last, beam, B, t, bos) && |FinishedRows(idxs)| == B * beam.Length2
    ensures t == 0 ==> bos == EosId && beam.Length2 == 1
    ensures forall s, b, j :: 0 <= s && s + 1 == t && 0 <= b < B && 0 <= j < beam.Length2 ==> beam[s, b, j] == EosId
  {
    var k := beam.Length2;
    if t == 0 {
      FirstExit(idxs, B, k, bos);
    } else {
      AllEos(last, B, k);
      forall s, b, j | 0 <= s && s + 1 == t && 0 <= b < B && 0 <= j < k ensures beam[s, b, j] == EosId {
        assert last[b][j] == beam[s, b, j];
      }
    }
  }


  /**
   * One iteration of the step loop (lines 106-157): score the previous
   * tokens, stop exactly when every one of the `B * k` of them is `<eos>`,
   * and otherwise pin the finished hypotheses and advance, as `Next` states.
   */
  method Step<Src, F(!new), S(!new)>(beam: array3<int>, models: seq<Model<Src, F, S>>, ghost ctxs0: seq<Ctx<F>>, ctxs: seq<Ctx<F>>,
                                     hs: seq<seq<S>>, nll: Matrix, idxs: seq<nat>, tile: seq<nat>, ghost last: seq<seq<nat>>,
                                     ghost picked: seq<seq<nat>>, ghost trace: seq<Stage<F, S>>,
                                     t: nat, B: nat, ghost bos: nat, vocab: Vocab, suppressUnk: bool)
    returns (stop: bool, ctxs': seq<Ctx<F>>, hs': seq<seq<S>>, nll': Matrix, idxs': seq<nat>, tile': seq<nat>,
             ghost last': seq<seq<nat>>, ghost picked': seq<seq<nat>>)
    requires t < beam.Length0 && 1 <= B <= beam.Length1 && 1 <= beam.Length2 <= vocab.size
    requires EosId < vocab.size && vocab.unk < vocab.size
    requires forall m :: 0 <= m < |models| ==> StepShaped(models[m], vocab.size)
    requires Looping(beam, models, ctxs0, vocab, suppressUnk, B, bos, t, nll, idxs, last, tile, ctxs, hs, picked, trace)
    modifies beam
    ensures stop <==> |FinishedRows(idxs)| == B * beam.Length2
    ensures stop ==> unchanged(beam)
    ensures stop && t == 0 ==> bos == EosId && beam.Length2 == 1
    ensures stop ==> forall s, b, j :: 0 <= s && s + 1 == t && 0 <= b < B && 0 <= j < beam.Length2 ==> beam[s, b, j] == EosId
    ensures !stop ==>
              Looping(beam, models, ctxs0, vocab, suppressUnk, B, bos, t + 1, nll', idxs', last', tile', ctxs', hs', picked',
                      trace + [Stage(Snapshot(beam, B), nll', idxs', tile', ctxs', hs', picked')])
    ensures Rest(beam, B) == old(Rest(beam, B))
  {
    var k, V := beam.Length2, vocab.size;
    forall m | 0 <= m < |models|
      ensures CtxIndexable(ctxs[m], tile) && InRange(tile, |hs[m]|)
      ensures |tile| == |Lineage(t + 1, B, k)| && Follows(ctxs0[m], TileCtx(ctxs[m], tile), Lineage(t + 1, B, k))
    {
      Retile(ctxs0[m], ctxs[m], |hs[m]|, tile, t, B, k);
    }
    assert |idxs| == |tile|;
    var scored := Score(models, ctxs, hs, idxs, tile, vocab, suppressUnk);
    ctxs', hs' := scored.0, scored.1;
    nll', idxs', tile', last', picked' := nll, idxs, tile, last, picked;
    stop := false;
    if |FinishedRows(idxs)| == B * k {
      EarlyExit(idxs, last, beam, B, t, bos);
      stop := true;
      return;
    }
    nll', idxs', tile', last', picked' := Proceed(beam, models, ctxs, hs, nll, idxs, tile, picked, trace, scored, t, B, bos, vocab, suppressUnk);
  }

  /**
   * Lines 126-157, the part of a step after the early exit did not fire:
   * the scores of finished hypotheses are pinned and the step advances;
   * the stage it reaches extends the run.
   */
  method Proceed<Src, F(!new), S(!new)>(beam: array3<int>, models: seq<Model<Src, F, S>>, ctxs: seq<Ctx<F>>, hs: seq<seq<S>>,
                                        nll: Matrix, idxs: seq<nat>, tile: seq<nat>, ghost picked: seq<seq<nat>>,
                                        ghost trace: seq<Stage<F, S>>, scored: (seq<Ctx<F>>, seq<seq<S>>, Matrix),
                                        t: nat, B: nat, ghost bos: nat, vocab: Vocab, suppressUnk: bool)
    returns (nll': Matrix, idxs': seq<nat>, tile': seq<nat>, ghost last': seq<seq<nat>>, ghost picked': seq<seq<nat>>)
    requires t < beam.Length0 && 1 <= B <= beam.Length1 && 1 <= beam.Length2 <= vocab.size && EosId < vocab.size
    requires Filled(beam, B, t, vocab.size) && IsMatrix(nll, B, Slots(t, beam.Length2))
    requires Ready(models, vocab, ctxs, hs, idxs, tile) && |idxs| == B * Slots(t, beam.Length2)
    requires |FinishedRows(idxs)| != B * beam.Length2
    requires scored == Score(models, ctxs, hs, idxs, tile, vocab, suppressUnk)
    requires |trace| == t + 1 && trace[t] == Stage(Snapshot(beam, B), nll, idxs, tile, ctxs, hs, picked)
    requires Chain(models, vocab, suppressUnk, B, beam.Length2, trace)
    modifies beam
    ensures Chain(models, vocab, suppressUnk, B, beam.Length2,
                  trace + [Stage(Snapshot(beam, B), nll', idxs', tile', scored.0, scored.1, picked')])
    ensures Filled(beam, B, t + 1, vocab.size) && IsMatrix(nll', B, beam.Length2)
    ensures Previous(idxs', last', beam, B, t + 1, bos) && TileShape(tile', t + 1, B, beam.Length2)
    ensures Rest(beam, B) == old(Rest(beam, B))
  {
    // Hypotheses whose last token was <eos> are pushed to continue with <eos>.
    var logp := Pinned(scored.2, idxs, vocab.size);
    nll', idxs', tile', last', picked' := Advance(beam, nll, logp, t, B, vocab.size, bos);
    ExtendRun(models, vocab, suppressUnk, B, beam.Length2, t, trace, Stage(Snapshot(beam, B), nll', idxs', tile', scored.0, scored.1, picked'));
  }

  /**
   * What the step loop keeps entering step `t`: the store and the loop
   * variables are those of a well-formed step, and `trace` ends in them
   * after `t` steps related by `Next`.
   */
  ghost predicate Looping<Src, F(!new), S(!new)>(beam: array3<int>, models: seq<Model<Src, F, S>>, ctxs0: seq<Ctx<F>>, vocab: Vocab,
                                                suppressUnk: bool, B: nat, bos: nat, t: nat, nll: Matrix, idxs: seq<nat>,
                                                last: seq<seq<nat>>, tile: seq<nat>, ctxs: seq<Ctx<F>>, hs: seq<seq<S>>,
                                                picked: seq<seq<nat>>, trace: seq<Stage<F, S>>)
    requires t <= beam.Length0 && B <= beam.Length1 && beam.Length2 >= 1
    reads beam
  {
    var k := beam.Length2;
    && Filled(beam, B, t, vocab.size) && IsMatrix(nll, B, Slots(t, k))
    && Previous(idxs, last, beam, B, t, bos) && TileShape(tile, t, B, k)
    && |ctxs| == |models| && |hs| == |models| && |ctxs0| == |models|
    && (forall m :: 0 <= m < |models| ==> |hs[m]| == |Lineage(t, B, k)| && Follows(ctxs0[m], ctxs[m], Lineage(t, B, k)))
    && |trace| == t + 1 && trace[t] == Stage(Snapshot(beam, B), nll, idxs, tile, ctxs, hs, picked)
    && Chain(models, vocab, suppressUnk, B, k, trace)
  }

  /** A run of `t` steps followed by one more step is a run of `t + 1` steps. */
  lemma ExtendRun<Src, F(!new), S(!new)>(models: seq<Model<Src, F, S>>, vocab: Vocab, suppressUnk: bool, B: nat, k: nat, t: nat,
                                         trace: seq<Stage<F, S>>, c: Stage<F, S>)
    requires |trace| == t + 1 && Chain(models, vocab, suppressUnk, B, k, trace)
    requires Next(models, vocab, suppressUnk, B, k, t, trace[t], c)
    ensures Chain(models, vocab, suppressUnk, B, k, trace + [c])
  {
    var ext := trace + [c];
    assert ext[..|ext| - 1] == trace && ext[|ext| - 2] == trace[t] && ext[|ext| - 1] == c;
  }

  /**
   * One pass of the loop body: `Step`, and when it does not stop, the loop
   * variables move on to the stage it reaches, which is appended to `trace`;
   * when it stops they stay as they were.
   */
  method Iterate<Src, F(!new), S(!new)>(beam: array3<int>, models: seq<Model<Src, F, S>>, ghost ctxs0: seq<Ctx<F>>, ctxs: seq<Ctx<F>>,
                                        hs: seq<seq<S>>, nll: Matrix, idxs: seq<nat>, tile: seq<nat>, ghost last: seq<seq<nat>>,
                                        ghost picked: seq<seq<nat>>, ghost trace: seq<Stage<F, S>>,
                                        t: nat, B: nat, ghost bos: nat, vocab: Vocab, suppressUnk: bool)
    returns (stop: bool, ctxs': seq<Ctx<F>>, hs': seq<seq<S>>, nll': Matrix, idxs': seq<nat>, tile': seq<nat>,
             ghost last': seq<seq<nat>>, ghost picked': seq<seq<nat>>, ghost trace': seq<Stage<F, S>>, t': nat)
    requires t < beam.Length0 && 1 <= B <= beam.Length1 && 1 <= beam.Length2 <= vocab.size
    requires EosId < vocab.size && vocab.unk < vocab.size
    requires forall m :: 0 <= m < |models| ==> StepShaped(models[m], vocab.size)
    requires Looping(beam, models, ctxs0, vocab, suppressUnk, B, bos, t, nll, idxs, last, tile, ctxs, hs, picked, trace)
    modifies beam
    ensures t' == if stop then t else t + 1
    ensures Looping(beam, models, ctxs0, vocab, suppressUnk, B, bos, t', nll', idxs', last', tile', ctxs', hs', picked', trace')
    ensures trace'[0] == trace[0]
    ensures stop <==> |FinishedRows(idxs)| == B * beam.Length2
    ensures stop ==> unchanged(beam) && idxs' == idxs && trace' == trace
    ensures stop && t' == 0 ==> bos == EosId && beam.Length2 == 1
    ensures stop ==> forall s, b, j :: 0 <= s && s + 1 == t' && 0 <= b < B && 0 <= j < beam.Length2 ==> beam[s, b, j] == EosId
    ensures Rest(beam, B) == old(Rest(beam, B))
  {
    stop, ctxs', hs', nll', idxs', tile', last', picked' :=
      Step(beam, models, ctxs0, ctxs, hs, nll, idxs, tile, last, picked, trace, t, B, bos, vocab, suppressUnk);
    if stop {
      ctxs', hs', nll', idxs', tile', last', picked', trace', t' := ctxs, hs, nll, idxs, tile, last, picked, trace, t;
    } else {
      trace' := trace + [Stage(Snapshot(beam, B), nll', idxs', tile', ctxs', hs', picked')];
      t' := t + 1;
    }
  }

  /**
   * Stage `a` is where the loop starts from: the store `st`, a score of 0 for
   * every sample, `<bos>` as every previous token, `tile = range(B)`, and
   * the given contexts and states.
   */
  ghost predicate Initial<F, S>(a: Stage<F, S>, st: Store, B: nat, bos: nat, ctxs0: seq<Ctx<F>>, hs0: seq<seq<S>>) {
    && a.store == st && a.tile == Range(B) && a.ctxs == ctxs0 && a.hs == hs0
    && IsMatrix(a.nll, B, 1) && (forall b :: 0 <= b < B ==> a.nll[b][0] == 0)
    && |a.idxs| == B && forall i :: 0 <= i < B ==> a.idxs[i] == bos
  }

  /**
   * Lines 98-104, before the loop: every sample scores 0, every previous
   * token is `<bos>` and `tile = range(B)`; the trace holds the starting stage.
   */
  method Begin<Src, F(!new), S(!new)>(beam: array3<int>, models: seq<Model<Src, F, S>>, ctxs0: seq<Ctx<F>>, hs0: seq<seq<S>>,
                                      B: nat, bos: nat, vocab: Vocab, suppressUnk: bool)
    returns (nll: Matrix, idxs: seq<nat>, tile: seq<nat>, ghost last: seq<seq<nat>>, ghost picked: seq<seq<nat>>,
             ghost trace: seq<Stage<F, S>>)
    requires |ctxs0| == |models| && |hs0| == |models|
    requires beam.Length0 >= 1 && 1 <= B <= beam.Length1 && beam.Length2 >= 1
    requires forall m :: 0 <= m < |models| ==> HasWidth(ctxs0[m], B) && |hs0[m]| == B
    requires Filled(beam, B, 0, vocab.size)
    ensures Looping(beam, models, ctxs0, vocab, suppressUnk, B, bos, 0, nll, idxs, last, tile, ctxs0, hs0, picked, trace)
    ensures Initial(trace[0], Snapshot(beam, B), B, bos, ctxs0, hs0)
  {
    nll := seq(B, b => [0]);
    idxs := seq(B, b => bos);
    tile := Range(B);
    forall m | 0 <= m < |models| ensures Follows(ctxs0[m], ctxs0[m], Lineage(0, B, beam.Length2)) {
      TileRange(ctxs0[m], B);
    }
    last, picked := [], [];
    trace := [Stage(Snapshot(beam, B), nll, idxs, tile, ctxs0, hs0, picked)];
  }

  /**
   * The `for t in range(max_len)` loop itself, from the state `Begin` sets
   * up: it runs until `max_len` steps are taken or a step stops, and keeps
   * `Looping` throughout.
   */
  method Loop<Src, F(!new), S(!new)>(beam: array3<int>, models: seq<Model<Src, F, S>>, ctxs0: seq<Ctx<F>>, hs0: seq<seq<S>>,
                                     B: nat, bos: nat, vocab: Vocab, suppressUnk: bool)
    returns (t: nat, stop: bool, nll: Matrix, idxs: seq<nat>, tile: seq<nat>, ctxs: seq<Ctx<F>>, hs: seq<seq<S>>,
             ghost last: seq<seq<nat>>, ghost picked: seq<seq<nat>>, ghost trace: seq<Stage<F, S>>)
    requires |ctxs0| == |models| && |hs0| == |models|
    requires beam.Length0 >= 1 && 1 <= B <= beam.Length1 && 1 <= beam.Length2 <= vocab.size
    requires EosId < vocab.size && vocab.unk < vocab.size
    requires forall m :: 0 <= m < |models| ==> StepShaped(models[m], vocab.size) && HasWidth(ctxs0[m], B) && |hs0[m]| == B
    requires Filled(beam, B, 0, vocab.size)
    modifies beam
    ensures t <= beam.Length0 && (t < beam.Length0 ==> stop)
    ensures Looping(beam, models, ctxs0, vocab, suppressUnk, B, bos, t, nll, idxs, last, tile, ctxs, hs, picked, trace)
    ensures Initial(trace[0], old(Snapshot(beam, B)), B, bos, ctxs0, hs0)
    ensures Rest(beam, B) == old(Rest(beam, B))
    ensures stop ==> |FinishedRows(idxs)| == B * beam.Length2 && (t == 0 ==> bos == EosId && beam.Length2 == 1)
    ensures stop ==> forall s, b, j :: 0 <= s && s + 1 == t && 0 <= b < B && 0 <= j < beam.Length2 ==> beam[s, b, j] == EosId
  {
    var L, k := beam.Length0, beam.Length2;
    nll, idxs, tile, last, picked, trace := Begin(beam, models, ctxs0, hs0, B, bos, vocab, suppressUnk);
    ctxs, hs := ctxs0, hs0;
    t, stop := 0, false;
    while t < L && !stop
      invariant 0 <= t <= L
      invariant Looping(beam, models, ctxs0, vocab, suppressUnk, B, bos, t, nll, idxs, last, tile, ctxs, hs, picked, trace)
      invariant Initial(trace[0], old(Snapshot(beam, B)), B, bos, ctxs0, hs0)
      invariant Rest(beam, B) == old(Rest(beam, B))
      invariant stop ==> |FinishedRows(idxs)| == B * k && (t == 0 ==> bos == EosId && k == 1)
      invariant stop ==> forall s, b, j :: 0 <= s && s + 1 == t && 0 <= b < B && 0 <= j < k ==> beam[s, b, j] == EosId
      decreases L - t, if stop then 0 else 1
    {
      stop, ctxs, hs, nll, idxs, tile, last, picked, trace, t :=
        Iterate(beam, models, ctxs0, ctxs, hs, nll, idxs, tile, last, picked, trace, t, B, bos, vocab, suppressUnk);
    }
  }

  /**
   * The step loop for one batch of `B` samples (lines 98-157). `trace`
   * records what the loop holds entering every step it takes: it starts from
   * the given state and each stage follows from the one before by `Next`;
   * the loop stops early exactly when every slot's previous token was
   * `<eos>`. On return the first `steps` rows hold vocabulary ids, the rest
   * are still zero, and the other sample columns are untouched.
   */
  method RunSteps<Src, F(!new), S(!new)>(beam: array3<int>, models: seq<Model<Src, F, S>>, ctxs0: seq<Ctx<F>>, hs0: seq<seq<S>>,
                                         B: nat, bos: nat, vocab: Vocab, suppressUnk: bool)
    returns (nll: Matrix, ghost steps: nat, ghost trace: seq<Stage<F, S>>)
    requires |ctxs0| == |models| && |hs0| == |models|
    requires beam.Length0 >= 1 && 1 <= B <= beam.Length1 && 1 <= beam.Length2 <= vocab.size
    requires EosId < vocab.size && vocab.unk < vocab.size
    requires forall m :: 0 <= m < |models| ==> StepShaped(models[m], vocab.size) && HasWidth(ctxs0[m], B) && |hs0[m]| == B
    requires Filled(beam, B, 0, vocab.size)
    modifies beam
    ensures Run(models, vocab, suppressUnk, B, beam.Length2, beam.Length0, trace) && |trace| == steps + 1
    ensures Initial(trace[0], old(Snapshot(beam, B)), B, bos, ctxs0, hs0)
    ensures trace[steps].store == Snapshot(beam, B) && trace[steps].nll == nll
    ensures IsMatrix(nll, B, beam.Length2) && steps <= beam.Length0
    ensures Filled(beam, B, steps, vocab.size)
    ensures Rest(beam, B) == old(Rest(beam, B))
    ensures steps < beam.Length0 ==>
              if steps == 0 then bos == EosId
              else forall s, b, j :: 0 <= s && s + 1 == steps && 0 <= b < B && 0 <= j < beam.Length2 ==> beam[s, b, j] == EosId
  {
    var t, stop, idxs, tile, ctxs, hs;
    ghost var last, picked;
    t, stop, nll, idxs, tile, ctxs, hs, last, picked, trace := Loop(beam, models, ctxs0, hs0, B, bos, vocab, suppressUnk);
    LoopDone(beam, models, ctxs0, vocab, suppressUnk, B, bos, t, stop, nll, idxs, last, tile, ctxs, hs, picked, trace);
    steps := t;
  }

  /**
   * When the loop ends, by the early exit or after `L` steps, its trace is a
   * `Run` whose last stage holds the store and the scores.
   */
  lemma LoopDone<Src, F(!new), S(!new)>(beam: array3<int>, models: seq<Model<Src, F, S>>, ctxs0: seq<Ctx<F>>, vocab: Vocab,
                                         suppressUnk: bool, B: nat, bos: nat, t: nat, stop: bool, nll: Matrix, idxs: seq<nat>,
                                         last: seq<seq<nat>>, tile: seq<nat>, ctxs: seq<Ctx<F>>, hs: seq<seq<S>>,
                                         picked: seq<seq<nat>>, trace: seq<Stage<F, S>>)
    requires 1 <= beam.Length0 && t <= beam.Length0 && B <= beam.Length1 && beam.Length2 >= 1 && (t < beam.Length0 ==> stop)
    requires Looping(beam, models, ctxs0, vocab, suppressUnk, B, bos, t, nll, idxs, last, tile, ctxs, hs, picked, trace)
    requires stop ==> |FinishedRows(idxs)| == B * beam.Length2 && (t == 0 ==> beam.Length2 == 1)
    ensures Run(models, vocab, suppressUnk, B, beam.Length2, beam.Length0, trace) && |trace| == t + 1
    ensures trace[t].store == Snapshot(beam, B) && trace[t].nll == nll
    ensures IsMatrix(nll, B, beam.Length2) && Filled(beam, B, t, vocab.size)
  {
    assert Slots(t, beam.Length2) == beam.Length2;
  }

  // ------------------------------------------------------------ one batch

  /** `lp = beam.gt(2).float().sum(0).clamp(min=1)` for every slot of the first `B` samples. */
  function Lengths(beam: array3<int>, B: nat): (lens: seq<seq<nat>>)
    requires B <= beam.Length1
    reads beam
    ensures |lens| == B && forall b :: 0 <= b < B ==> |lens[b]| == beam.Length2
    ensures forall b, j :: 0 <= b < B && 0 <= j < beam.Length2 ==> lens[b][j] == HypLength(Column(beam, b, j)) >= 1
  {
    seq(B, b requires 0 <= b < B reads beam =>
      seq(beam.Length2, j requires 0 <= j < beam.Length2 reads beam => HypLength(Column(beam, b, j))))
  }

  /** `nll.div_(lp).topk(1)` per sample, with the division compared by cross-multiplication. */
  method BestSlots(scores: Matrix, lens: seq<seq<nat>>) returns (best: seq<nat>)
    requires |lens| == |scores|
    requires forall b :: 0 <= b < |scores| ==> |scores[b]| == |lens[b]| > 0
    requires forall b, j :: 0 <= b < |scores| && 0 <= j < |lens[b]| ==> lens[b][j] >= 1
    ensures |best| == |scores|
    ensures forall b :: 0 <= b < |scores| ==> best[b] < |scores[b]|
    ensures forall b, j :: 0 <= b < |scores| && 0 <= j < |scores[b]| ==>
              NormLeq(scores[b][j], lens[b][j], scores[b][best[b]], lens[b][best[b]])
  {
    best := [];
    var b := 0;
    while b < |scores|
      invariant 0 <= b <= |scores| && |best| == b
      invariant forall b' :: 0 <= b' < b ==> best[b'] < |scores[b']|
      invariant forall b', j :: 0 <= b' < b && 0 <= j < |scores[b']| ==>
                  NormLeq(scores[b'][j], lens[b'][j], scores[b'][best[b']], lens[b'][best[b']])
    {
      var j := BestSlot(scores[b], lens[b]);
      best := best + [j];
      b := b + 1;
    }
  }


  /**
   * Lines 160-173: put `<eos>` in the last row of the first `B` sample
   * columns and return, for every sample, the slot whose score per content
   * token is largest, with the hypothesis that slot holds.
   */
  method PickBest(beam: array3<int>, B: nat, scores: Matrix, vocab: Vocab) returns (hyps: seq<seq<int>>, best: seq<nat>)
    requires beam.Length0 >= 1 && 1 <= B <= beam.Length1 && beam.Length2 >= 1
    requires IsMatrix(scores, B, beam.Length2)
    requires forall s, b, j :: 0 <= s < beam.Length0 && 0 <= b < B && 0 <= j < beam.Length2 ==> 0 <= beam[s, b, j] < vocab.size
    modifies beam
    ensures |hyps| == B && |best| == B
    ensures forall b :: 0 <= b < B ==>
              && best[b] < beam.Length2
              && hyps[b] == Column(beam, b, best[b]) == FinalColumn(old(Snapshot(beam, B)), b, best[b], vocab.eos)
              && WellFormedHyp(hyps[b], beam.Length0, vocab)
    ensures forall b, j :: 0 <= b < B && 0 <= j < beam.Length2 ==>
              NormLeq(scores[b][j], HypLength(FinalColumn(old(Snapshot(beam, B)), b, j, vocab.eos)),
                      scores[b][best[b]], HypLength(FinalColumn(old(Snapshot(beam, B)), b, best[b], vocab.eos)))
    ensures forall s, b, j :: 0 <= s < beam.Length0 && B <= b < beam.Length1 && 0 <= j < beam.Length2 ==>
              beam[s, b, j] == old(beam[s, b, j])
    ensures Rest(beam, B) == old(Rest(beam, B))
  {
    var L, k := beam.Length0, beam.Length2;
    ghost var final, rest := Snapshot(beam, B), Rest(beam, B);
    FillRow(beam, L - 1, B, vocab.eos);
    forall b, j | 0 <= b < B && 0 <= j < k ensures Column(beam, b, j) == FinalColumn(final, b, j, vocab.eos) {
      forall s | 0 <= s < L - 1 ensures beam[s, b, j] == final[s][b][j] {
        assert beam[s, b, j] == old(beam[s, b, j]);
      }
    }
    var lens := Lengths(beam, B);
    best := BestSlots(scores, lens);
    hyps := seq(B, b requires 0 <= b < B reads beam => Column(beam, b, best[b]));
    forall b | 0 <= b < B ensures WellFormedHyp(hyps[b], L, vocab) {
      forall s | 0 <= s < L - 1 ensures 0 <= hyps[b][s] < vocab.size {
        assert hyps[b][s] == beam[s, b, best[b]] == old(beam[s, b, best[b]]);
      }
    }
    RestIs(beam, B, rest);
  }

  /**
   * One batch: clear its columns of the store, encode, run the steps, put an
   * explicit `<eos>` in the last row and return, for every sample, the
   * hypothesis whose score per content token is largest, as `Decoded` states.
   */
  method DecodeBatch<Src, F(!new), S(!new)>(beam: array3<int>, models: seq<Model<Src, F, S>>, batch: Batch<Src>, suppressUnk: bool)
    returns (hyps: seq<seq<int>>, ghost trace: seq<Stage<F, S>>, ghost best: seq<nat>)
    requires |models| >= 1 && beam.Length0 >= 1
    requires 1 <= batch.size <= beam.Length1
    requires 1 <= beam.Length2 <= models[0].vocab.size && EosId < models[0].vocab.size && models[0].vocab.unk < models[0].vocab.size
    requires forall m :: 0 <= m < |models| ==> StepShaped(models[m], models[0].vocab.size) && Encodes(models[m], batch)
    modifies beam
    ensures Decoded(models, batch, beam.Length0, beam.Length2, suppressUnk, trace, best, hyps)
    ensures AllDecoded(models, [batch], beam.Length0, beam.Length2, suppressUnk, [trace], [best], [hyps])
    ensures forall b :: 0 <= b < batch.size ==> hyps[b] == Column(beam, b, best[b])
    ensures forall b :: 0 <= b < batch.size ==> WellFormedHyp(hyps[b], beam.Length0, models[0].vocab)
    ensures Rest(beam, batch.size) == old(Rest(beam, batch.size))
  {
    var B, M, vocab := batch.size, |models|, models[0].vocab;
    var L, k := beam.Length0, beam.Length2;
    ZeroSlice(beam, B);
    var ctxs := seq(M, m requires 0 <= m < M => models[m].encode(batch.src));
    var hs := seq(M, m requires 0 <= m < M => models[m].init(ctxs[m]));
    var scores;
    ghost var steps;
    scores, steps, trace := RunSteps(beam, models, ctxs, hs, B, models[0].bos, vocab, suppressUnk);
    assert IsStart(models, batch, L, k, trace[0]);
    forall s, b, j | 0 <= s < L && 0 <= b < B && 0 <= j < k ensures 0 <= beam[s, b, j] < vocab.size {
    }
    hyps, best := Conclude(beam, models, batch, suppressUnk, trace, scores);
  }

  /**
   * Lines 160-173 after the step loop of a batch: the best hypotheses of
   * the store the run left make the batch `Decoded`.
   */
  method Conclude<Src, F(!new), S(!new)>(beam: array3<int>, models: seq<Model<Src, F, S>>, batch: Batch<Src>, suppressUnk: bool,
                                         ghost trace: seq<Stage<F, S>>, scores: Matrix)
    returns (hyps: seq<seq<int>>, best: seq<nat>)
    requires |models| >= 1 && beam.Length0 >= 1 && 1 <= batch.size <= beam.Length1 && beam.Length2 >= 1
    requires Run(models, models[0].vocab, suppressUnk, batch.size, beam.Length2, beam.Length0, trace)
    requires IsStart(models, batch, beam.Length0, beam.Length2, trace[0])
    requires trace[|trace| - 1].store == Snapshot(beam, batch.size) && trace[|trace| - 1].nll == scores
    requires IsMatrix(scores, batch.size, beam.Length2)
    requires forall s, b, j :: 0 <= s < beam.Length0 && 0 <= b < batch.size && 0 <= j < beam.Length2 ==>
               0 <= beam[s, b, j] < models[0].vocab.size
    modifies beam
    ensures Decoded(models, batch, beam.Length0, beam.Length2, suppressUnk, trace, best, hyps)
    ensures AllDecoded(models, [batch], beam.Length0, beam.Length2, suppressUnk, [trace], [best], [hyps])
    ensures forall b :: 0 <= b < batch.size ==> hyps[b] == Column(beam, b, best[b])
    ensures forall b :: 0 <= b < batch.size ==> WellFormedHyp(hyps[b], beam.Length0, models[0].vocab)
    ensures Rest(beam, batch.size) == old(Rest(beam, batch.size))
  {
    hyps, best := PickBest(beam, batch.size, scores, models[0].vocab);
    DecodedOne(models, batch, beam.Length0, beam.Length2, suppressUnk, trace, best, hyps);
  }

  // ------------------------------------------------------------ the whole search

  /**
   * One pass of the batch loop (lines 77-173): decode batch `i` into the
   * shared store and append its hypotheses to `all`.
   */
  method DecodeNext<Src, F(!new), S(!new)>(beam: array3<int>, models: seq<Model<Src, F, S>>, batches: seq<Batch<Src>>, i: nat,
                                           suppressUnk: bool, all: seq<seq<int>>, ghost chunks: seq<seq<seq<int>>>,
                                           ghost traces: seq<seq<Stage<F, S>>>, ghost bests: seq<seq<nat>>)
    returns (all': seq<seq<int>>, ghost chunks': seq<seq<seq<int>>>, ghost traces': seq<seq<Stage<F, S>>>,
             ghost bests': seq<seq<nat>>)
    requires |models| >= 1 && beam.Length0 >= 1 && i < |batches|
    requires 1 <= batches[i].size <= beam.Length1
    requires 1 <= beam.Length2 <= models[0].vocab.size && EosId < models[0].vocab.size && models[0].vocab.unk < models[0].vocab.size
    requires forall m :: 0 <= m < |models| ==> StepShaped(models[m], models[0].vocab.size) && Encodes(models[m], batches[i])
    requires AllDecoded(models, batches[..i], beam.Length0, beam.Length2, suppressUnk, traces, bests, chunks)
    requires all == Concat(chunks) && |all| == TotalSize(batches[..i])
    requires forall n :: 0 <= n < |all| ==> WellFormedHyp(all[n], beam.Length0, models[0].vocab)
    modifies beam
    ensures AllDecoded(models, batches[..i + 1], beam.Length0, beam.Length2, suppressUnk, traces', bests', chunks')
    ensures all' == Concat(chunks') && |all'| == TotalSize(batches[..i + 1])
    ensures forall n :: 0 <= n < |all'| ==> WellFormedHyp(all'[n], beam.Length0, models[0].vocab)
  {
    var hyps;
    ghost var trace, best;
    hyps, trace, best := DecodeBatch(beam, models, batches[i], suppressUnk);
    AppendDecoded(models, batches[..i], beam.Length0, beam.Length2, suppressUnk, traces, bests, chunks,
                  batches[i], trace, best, hyps);
    assert batches[..i + 1] == batches[..i] + [batches[i]];
    assert batches[..i + 1][..i] == batches[..i];
    assert (chunks + [hyps])[..i] == chunks;
    all' := all + hyps;
    chunks', traces', bests' := chunks + [hyps], traces + [trace], bests + [best];
  }

  /** Lines 77-173: every batch in turn is decoded with the one shared store. */
  method DecodeAll<Src, F(!new), S(!new)>(beam: array3<int>, models: seq<Model<Src, F, S>>, batches: seq<Batch<Src>>, suppressUnk: bool)
    returns (all: seq<seq<int>>, ghost chunks: seq<seq<seq<int>>>, ghost traces: seq<seq<Stage<F, S>>>, ghost bests: seq<seq<nat>>)
    requires |models| >= 1 && beam.Length0 >= 1
    requires 1 <= beam.Length2 <= models[0].vocab.size && EosId < models[0].vocab.size && models[0].vocab.unk < models[0].vocab.size
    requires forall m :: 0 <= m < |models| ==> StepShaped(models[m], models[0].vocab.size)
    requires forall i, m :: 0 <= i < |batches| && 0 <= m < |models| ==>
               1 <= batches[i].size <= beam.Length1 && Encodes(models[m], batches[i])
    modifies beam
    ensures AllDecoded(models, batches, beam.Length0, beam.Length2, suppressUnk, traces, bests, chunks)
    ensures all == Concat(chunks) && |all| == TotalSize(batches)
    ensures forall n :: 0 <= n < |all| ==> WellFormedHyp(all[n], beam.Length0, models[0].vocab)
  {
    all, chunks, traces, bests := [], [], [], [];
    var i := 0;
    while i < |batches|
      invariant 0 <= i <= |batches|
      invariant AllDecoded(models, batches[..i], beam.Length0, beam.Length2, suppressUnk, traces, bests, chunks)
      invariant all == Concat(chunks) && |all| == TotalSize(batches[..i])
      invariant forall n :: 0 <= n < |all| ==> WellFormedHyp(all[n], beam.Length0, models[0].vocab)
    {
      all, chunks, traces, bests := DecodeNext(beam, models, batches, i, suppressUnk, all, chunks, traces, bests);
      i := i + 1;
    }
    assert batches[..i] == batches;
  }

  /**
   * `beam_search`: decode every batch with one shared store and, when the
   * loader sorted its samples, put the hypotheses back in input order.
   * `decoded` lays the batches' hypotheses end to end, and every batch's
   * hypotheses are those `Decoded` states for it.
   */
  method Search<Src, F(!new), S(!new)>(models: seq<Model<Src, F, S>>, loader: Loader<Src>, beamSize: nat, maxLen: nat, suppressUnk: bool)
    returns (results: seq<seq<int>>, ghost decoded: seq<seq<int>>, ghost chunks: seq<seq<seq<int>>>,
             ghost traces: seq<seq<Stage<F, S>>>, ghost bests: seq<seq<nat>>)
    requires |models| >= 1 && beamSize >= 1 && maxLen >= 1
    requires beamSize <= models[0].vocab.size && EosId < models[0].vocab.size && models[0].vocab.unk < models[0].vocab.size
    requires forall m :: 0 <= m < |models| ==> StepShaped(models[m], models[0].vocab.size)
    requires forall i, m :: 0 <= i < |loader.batches| && 0 <= m < |models| ==>
               1 <= loader.batches[i].size <= loader.maxBatchSize && Encodes(models[m], loader.batches[i])
    requires loader.storeIndices ==> |loader.origIdxs| <= TotalSize(loader.batches)
    ensures |chunks| == |loader.batches| && |traces| == |loader.batches| && |bests| == |loader.batches|
    ensures forall i :: 0 <= i < |loader.batches| ==>
              Decoded(models, loader.batches[i], maxLen, beamSize, suppressUnk, traces[i], bests[i], chunks[i])
    ensures decoded == Concat(chunks) && |decoded| == TotalSize(loader.batches)
    ensures forall i :: 0 <= i < |decoded| ==> WellFormedHyp(decoded[i], maxLen, models[0].vocab)
    ensures results == if loader.storeIndices then RecoverOrder(decoded, loader.origIdxs) else decoded
    ensures loader.storeIndices && IsPermutation(loader.origIdxs, |decoded|) ==>
              |results| == |decoded| && forall i :: 0 <= i < |decoded| ==> results[loader.origIdxs[i]] == decoded[i]
  {
    var beam := new int[maxLen, loader.maxBatchSize, beamSize]((s, b, j) => 0);
    var all;
    all, chunks, traces, bests := DecodeAll(beam, models, loader.batches, suppressUnk);
    DecodedEach(models, loader.batches, maxLen, beamSize, suppressUnk, traces, bests, chunks);
    decoded := all;
    if loader.storeIndices {
      results := RecoverOrder(all, loader.origIdxs);
      if IsPermutation(loader.origIdxs, |all|) {
        RecoverPermutation(all, loader.origIdxs);
      }
    } else {
      results := all;
    }
  }
}
