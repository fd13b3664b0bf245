/**
 * `tile_ctx_dict` of nmtpytorch/search.py: every encoder context is a pair
 * (feature tensor, optional mask) whose second axis is the sample axis, and
 * tiling gathers that axis by an index list.
 */
module Tiling {
  import opened Wrappers

  /** A tensor indexed `[time][sample]`; whatever trails the sample axis is the element type. */
  type Grid<T> = seq<seq<T>>

  /** One context entry: the features and an optional mask over the same `[time, sample]` axes. */
  datatype Entry<F> = Entry(feats: Grid<F>, mask: Option<Grid<bool>>)

  /** The context dictionary, keyed by encoder name. */
  type Ctx<F> = map<string, Entry<F>>

  /** Every row of `g` has each column that `idxs` names (otherwise indexing raises). */
  predicate Indexable<T>(g: Grid<T>, idxs: seq<nat>) {
    forall s, j :: 0 <= s < |g| && 0 <= j < |idxs| ==> idxs[j] < |g[s]|
  }

  predicate EntryIndexable<F>(e: Entry<F>, idxs: seq<nat>) {
    Indexable(e.feats, idxs) && (e.mask.Some? ==> Indexable(e.mask.value, idxs))
  }

  predicate CtxIndexable<F>(c: Ctx<F>, idxs: seq<nat>) {
    forall key :: key in c ==> EntryIndexable(c[key], idxs)
  }

  /** Every row of `g` holds exactly `w` samples. */
  predicate GridWidth<T>(g: Grid<T>, w: nat) {
    forall s :: 0 <= s < |g| ==> |g[s]| == w
  }

  /** Every tensor and every present mask of `c` holds exactly `w` samples. */
  predicate HasWidth<F>(c: Ctx<F>, w: nat) {
    forall key :: key in c ==>
      GridWidth(c[key].feats, w) && (c[key].mask.Some? ==> GridWidth(c[key].mask.value, w))
  }

  predicate InRange(idxs: seq<nat>, w: nat) {
    forall j :: 0 <= j < |idxs| ==> idxs[j] < w
  }

  /** `t[:, idxs]`: column `j` of the result is column `idxs[j]` of `g`. */
  function Columns<T>(g: Grid<T>, idxs: seq<nat>): (r: Grid<T>)
    requires Indexable(g, idxs)
    ensures |r| == |g| && GridWidth(r, |idxs|)
    ensures forall s, j :: 0 <= s < |g| && 0 <= j < |idxs| ==> r[s][j] == g[s][idxs[j]]
  {
    seq(|g|, s requires 0 <= s < |g| => seq(|idxs|, j requires 0 <= j < |idxs| => g[s][idxs[j]]))
  }

  function TileEntry<F>(e: Entry<F>, idxs: seq<nat>): (r: Entry<F>)
    requires EntryIndexable(e, idxs)
    ensures r.mask.None? <==> e.mask.None?
  {
    Entry(Columns(e.feats, idxs), if e.mask.None? then None else Some(Columns(e.mask.value, idxs)))
  }

  /**
   * `tile_ctx_dict(ctx_dict, idxs)`: the same keys; column `j` of every tensor
   * and of every mask is the input's column `idxs[j]`; an absent mask stays absent.
   */
  function TileCtx<F>(c: Ctx<F>, idxs: seq<nat>): (r: Ctx<F>)
    requires CtxIndexable(c, idxs)
    ensures r.Keys == c.Keys
    ensures HasWidth(r, |idxs|)
    ensures forall key :: key in c ==> (r[key].mask.None? <==> c[key].mask.None?)
    ensures forall key :: key in c ==> |r[key].feats| == |c[key].feats|
    ensures forall key, s, j :: key in c && 0 <= s < |c[key].feats| && 0 <= j < |idxs| ==>
              r[key].feats[s][j] == c[key].feats[s][idxs[j]]
    ensures forall key :: key in c && c[key].mask.Some? ==> |r[key].mask.value| == |c[key].mask.value|
    ensures forall key, s, j :: key in c && c[key].mask.Some? && 0 <= s < |c[key].mask.value| && 0 <= j < |idxs| ==>
              r[key].mask.value[s][j] == c[key].mask.value[s][idxs[j]]
  {
    map key | key in c :: TileEntry(c[key], idxs)
  }

  /** The index list `0, 1, ..., w-1` (`range(w)`). */
  function Range(w: nat): (r: seq<nat>)
    ensures |r| == w && forall i :: 0 <= i < w ==> r[i] == i
  {
    seq(w, i => i)
  }

  /** `xs[idxs]`: entry `j` is `xs[idxs[j]]`. */
  function Gather<T>(xs: seq<T>, idxs: seq<nat>): (r: seq<T>)
    requires InRange(idxs, |xs|)
    ensures |r| == |idxs| && forall j :: 0 <= j < |idxs| ==> r[j] == xs[idxs[j]]
  {
    seq(|idxs|, j requires 0 <= j < |idxs| => xs[idxs[j]])
  }

  /** Gathering `range(w)` by in-range indices gives the indices back. */
  lemma GatherRange(w: nat, idxs: seq<nat>)
    requires InRange(idxs, w)
    ensures Gather(Range(w), idxs) == idxs
  {
  }

  lemma ColumnsCompose<T>(g: Grid<T>, a: seq<nat>, b: seq<nat>)
    requires Indexable(g, a) && InRange(b, |a|)
    ensures Indexable(g, Gather(a, b))
    ensures Columns(Columns(g, a), b) == Columns(g, Gather(a, b))
  {
    var l, r := Columns(Columns(g, a), b), Columns(g, Gather(a, b));
    forall s | 0 <= s < |g| ensures l[s] == r[s] { }
  }

  lemma ColumnsRange<T>(g: Grid<T>, w: nat)
    requires GridWidth(g, w)
    ensures Indexable(g, Range(w)) && Columns(g, Range(w)) == g
  {
    var r := Columns(g, Range(w));
    forall s | 0 <= s < |g| ensures r[s] == g[s] { }
  }

  /** Tiling twice equals tiling once by the composed index list. */
  lemma {:induction false} TileCompose<F>(c: Ctx<F>, a: seq<nat>, b: seq<nat>)
    requires CtxIndexable(c, a) && InRange(b, |a|)
    ensures CtxIndexable(c, Gather(a, b))
    ensures TileCtx(TileCtx(c, a), b) == TileCtx(c, Gather(a, b))
  {
    forall key | key in c ensures EntryIndexable(c[key], Gather(a, b)) {
      ColumnsCompose(c[key].feats, a, b);
      if c[key].mask.Some? { ColumnsCompose(c[key].mask.value, a, b); }
    }
    var l, r := TileCtx(TileCtx(c, a), b), TileCtx(c, Gather(a, b));
    forall key | key in c ensures l[key] == r[key] {
      ColumnsCompose(c[key].feats, a, b);
      if c[key].mask.Some? { ColumnsCompose(c[key].mask.value, a, b); }
    }
  }

  /** Tiling by `range(w)` a context of width `w` gives back the same context. */
  lemma {:induction false} TileRange<F>(c: Ctx<F>, w: nat)
    requires HasWidth(c, w)
    ensures CtxIndexable(c, Range(w)) && TileCtx(c, Range(w)) == c
  {
    forall key | key in c ensures EntryIndexable(c[key], Range(w)) && TileEntry(c[key], Range(w)) == c[key] {
      ColumnsRange(c[key].feats, w);
      if c[key].mask.Some? { ColumnsRange(c[key].mask.value, w); }
    }
  }

  /** A context of width `w` can be tiled by any index list whose entries are below `w`. */
  lemma WidthIndexable<F>(c: Ctx<F>, w: nat, idxs: seq<nat>)
    requires HasWidth(c, w) && InRange(idxs, w)
    ensures CtxIndexable(c, idxs)
  {
  }
}
