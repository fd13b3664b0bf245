/**
 * The per-step bookkeeping of `beam_search` in nmtpytorch/search.py, on
 * integer scores: ensembling, `<unk>` suppression, pinning of finished
 * hypotheses, the cross-sum with the running scores, top-k, the split of a
 * flat index into ancestor slot and token, and the backpointer list.
 */
module BeamStep {
  import opened Arith
  import opened Tiling

  /** The large negative constant the search uses in place of minus infinity. */
  const Inf: int := -1000

  /** The search tests finished hypotheses against the literal id 2, not against the vocabulary's `<eos>`. */
  const EosId: nat := 2

  /** A score tensor `[rows, vocabulary]`. */
  type Matrix = seq<seq<int>>

  predicate IsMatrix(m: Matrix, rows: nat, cols: nat) {
    |m| == rows && forall i :: 0 <= i < rows ==> |m[i]| == cols
  }

  // ---------------------------------------------------------------- arithmetic

  /** A flat index `j * V + v` with `v < V` splits back into `j` and `v`. */
  lemma FlatSplit(j: nat, v: nat, width: nat)
    requires v < width
    ensures (j * width + v) / width == j && (j * width + v) % width == v
  {
    var f := j * width + v;
    var q, r := f / width, f % width;
    assert q * width + r == j * width + v;
    MulNonneg(q - j - 1, width);
    MulNonneg(j - q - 1, width);
  }

  /** Row-major flattening of `rows x width` stays inside `rows * width`. */
  lemma FlatBound(b: nat, j: nat, rows: nat, width: nat)
    requires b < rows && j < width
    ensures b * width + j < rows * width
  {
    assert b * width + j < (b + 1) * width;
    assert (b + 1) * width <= rows * width;
  }

  /** A flat index below `rows * width` has its row below `rows`. */
  lemma DivBound(i: nat, rows: nat, width: nat)
    requires width > 0 && i < rows * width
    ensures i / width < rows && (i / width) * width + width <= rows * width
  {
    var q, r := i / width, i % width;
    assert q * width + r == i;
    MulNonneg(q - rows, width);
    MulNonneg(rows - q - 1, width);
  }

  // ---------------------------------------------------------------- ensembling

  function AddScores(a: Matrix, b: Matrix, rows: nat, cols: nat): (r: Matrix)
    requires IsMatrix(a, rows, cols) && IsMatrix(b, rows, cols)
    ensures IsMatrix(r, rows, cols)
    ensures forall i, v :: 0 <= i < rows && 0 <= v < cols ==> r[i][v] == a[i][v] + b[i][v]
  {
    seq(rows, i requires 0 <= i < rows => seq(cols, v requires 0 <= v < cols => a[i][v] + b[i][v]))
  }

  function Zeros(rows: nat, cols: nat): (r: Matrix)
    ensures IsMatrix(r, rows, cols) && forall i, v :: 0 <= i < rows && 0 <= v < cols ==> r[i][v] == 0
  {
    seq(rows, i => seq(cols, v => 0))
  }

  /** Every matrix of `ms` is `rows x cols`. */
  predicate AllShaped(ms: seq<Matrix>, rows: nat, cols: nat) {
    forall n :: 0 <= n < |ms| ==> IsMatrix(ms[n], rows, cols)
  }

  /** The score at `(i, v)` summed over the models, first model first. */
  function CellSum(ms: seq<Matrix>, rows: nat, cols: nat, i: nat, v: nat): int
    requires AllShaped(ms, rows, cols) && i < rows && v < cols
    decreases |ms|
  {
    if |ms| == 0 then 0 else ms[0][i][v] + CellSum(ms[1..], rows, cols, i, v)
  }

  /** Peeling the last model off the per-cell sum. */
  lemma {:induction false} CellSumLast(ms: seq<Matrix>, rows: nat, cols: nat, i: nat, v: nat)
    requires AllShaped(ms, rows, cols) && i < rows && v < cols && |ms| > 0
    ensures CellSum(ms, rows, cols, i, v) == CellSum(ms[..|ms| - 1], rows, cols, i, v) + ms[|ms| - 1][i][v]
    decreases |ms|
  {
    if |ms| > 1 {
      assert ms[1..][..|ms[1..]| - 1] == ms[..|ms| - 1][1..];
      CellSumLast(ms[1..], rows, cols, i, v);
    }
  }

  /** `sum(log_ps)`: Python's `sum` folds `+` from the left starting at 0; every score is the models' sum. */
  function SumScores(ms: seq<Matrix>, rows: nat, cols: nat): (r: Matrix)
    requires AllShaped(ms, rows, cols)
    ensures IsMatrix(r, rows, cols)
    ensures forall i, v :: 0 <= i < rows && 0 <= v < cols ==> r[i][v] == CellSum(ms, rows, cols, i, v)
    decreases |ms|
  {
    if |ms| == 0 then Zeros(rows, cols)
    else
      var r := AddScores(SumScores(ms[..|ms| - 1], rows, cols), ms[|ms| - 1], rows, cols);
      assert forall i, v :: 0 <= i < rows && 0 <= v < cols ==> r[i][v] == CellSum(ms, rows, cols, i, v) by {
        forall i, v | 0 <= i < rows && 0 <= v < cols ensures r[i][v] == CellSum(ms, rows, cols, i, v) {
          CellSumLast(ms, rows, cols, i, v);
        }
      }
      r
  }

  /** Ensembling two identical models doubles every score. */
  lemma {:induction false} SumOfTwins(m: Matrix, rows: nat, cols: nat)
    requires IsMatrix(m, rows, cols)
    ensures forall i, v :: 0 <= i < rows && 0 <= v < cols ==> SumScores([m, m], rows, cols)[i][v] == 2 * m[i][v]
  {
    var one := SumScores([m], rows, cols);
    assert [m][..0] == [] && [m, m][..1] == [m];
    assert one == AddScores(SumScores([], rows, cols), m, rows, cols);
    assert SumScores([m, m], rows, cols) == AddScores(one, m, rows, cols);
  }

  // ---------------------------------------------------------------- suppression and pinning

  /** `log_p[:, unk] = inf`. */
  function SetColumn(m: Matrix, rows: nat, cols: nat, c: nat, x: int): (r: Matrix)
    requires IsMatrix(m, rows, cols)
    ensures IsMatrix(r, rows, cols)
    ensures forall i, v :: 0 <= i < rows && 0 <= v < cols ==> r[i][v] == (if v == c then x else m[i][v])
  {
    seq(rows, i requires 0 <= i < rows => seq(cols, v requires 0 <= v < cols => if v == c then x else m[i][v]))
  }

  /** `(idxs == 2).nonzero()`: the positions holding id 2. */
  function FinishedRows(prev: seq<nat>): (r: seq<nat>)
    ensures |r| <= |prev|
    ensures forall n :: 0 <= n < |r| ==> r[n] < |prev| && prev[r[n]] == EosId
    ensures forall i :: 0 <= i < |prev| && prev[i] == EosId ==> i in r
    decreases |prev|
  {
    if |prev| == 0 then []
    else FinishedRows(prev[..|prev| - 1]) + (if prev[|prev| - 1] == EosId then [|prev| - 1] else [])
  }

  /** The early exit fires exactly when every previous token is id 2. */
  lemma {:induction false} AllFinishedIff(prev: seq<nat>)
    ensures |FinishedRows(prev)| == |prev| <==> forall i :: 0 <= i < |prev| ==> prev[i] == EosId
    decreases |prev|
  {
    if |prev| > 0 {
      var init := prev[..|prev| - 1];
      AllFinishedIff(init);
      if forall i :: 0 <= i < |prev| ==> prev[i] == EosId {
        assert forall i :: 0 <= i < |init| ==> init[i] == EosId;
      }
      if |FinishedRows(prev)| == |prev| {
        assert prev[|prev| - 1] == EosId;
        forall i | 0 <= i < |prev| ensures prev[i] == EosId {
          if i < |init| { assert init[i] == prev[i]; }
        }
      }
    }
  }

  /** `log_p.index_fill_(0, rows, x)`: every listed row is filled with `x`. */
  function FillRows(m: Matrix, rows: nat, cols: nat, which: seq<nat>, x: int): (r: Matrix)
    requires IsMatrix(m, rows, cols)
    ensures IsMatrix(r, rows, cols)
    ensures forall i, v :: 0 <= i < rows && 0 <= v < cols ==> r[i][v] == (if i in which then x else m[i][v])
  {
    seq(rows, i requires 0 <= i < rows => if i in which then seq(cols, v => x) else m[i])
  }

  /** `log_p.view(-1).index_fill_(0, pos, x)`: fill by positions of the row-major flattening. */
  function FillFlat(m: Matrix, rows: nat, cols: nat, pos: seq<nat>, x: int): (r: Matrix)
    requires IsMatrix(m, rows, cols)
    ensures IsMatrix(r, rows, cols)
    ensures forall i, v :: 0 <= i < rows && 0 <= v < cols ==> r[i][v] == (if i * cols + v in pos then x else m[i][v])
  {
    seq(rows, i requires 0 <= i < rows =>
      seq(cols, v requires 0 <= v < cols => if i * cols + v in pos then x else m[i][v]))
  }

  /** `idxs * n_vocab + 2`: the flat position of column 2 in each listed row. */
  function EosPositions(fin: seq<nat>, width: nat): (pos: seq<nat>)
    ensures |pos| == |fin| && forall n :: 0 <= n < |fin| ==> pos[n] == fin[n] * width + EosId
  {
    seq(|fin|, n requires 0 <= n < |fin| => fin[n] * width + EosId)
  }

  /** A flat position is one of the `<eos>` positions exactly when its row is listed and its column is 2. */
  lemma EosPositionAt(fin: seq<nat>, width: nat, i: nat, v: nat)
    requires EosId < width && v < width
    ensures i * width + v in EosPositions(fin, width) <==> i in fin && v == EosId
  {
    var pos := EosPositions(fin, width);
    if i * width + v in pos {
      var n :| 0 <= n < |fin| && pos[n] == i * width + v;
      FlatSplit(fin[n], EosId, width);
      FlatSplit(i, v, width);
    }
    if i in fin && v == EosId {
      var n :| 0 <= n < |fin| && fin[n] == i;
      assert pos[n] == i * width + v;
    }
  }

  /**
   * Pinning of finished hypotheses: every row whose previous token is id 2 is
   * filled with `inf` and then flat position `row * V + 2` is reset to 0.
   * The row of a finished slot becomes `inf` everywhere but column 2, which
   * becomes 0; the rows of the other slots are unchanged.
   */
  function PinFinished(logp: Matrix, prev: seq<nat>, width: nat): (r: Matrix)
    requires IsMatrix(logp, |prev|, width) && width > EosId
    ensures IsMatrix(r, |prev|, width)
    ensures forall i, v :: 0 <= i < |prev| && 0 <= v < width ==>
              r[i][v] == if prev[i] != EosId then logp[i][v] else if v == EosId then 0 else Inf
  {
    var fin := FinishedRows(prev);
    var filled := FillRows(logp, |prev|, width, fin, Inf);
    var r := FillFlat(filled, |prev|, width, EosPositions(fin, width), 0);
    assert forall i, v :: 0 <= i < |prev| && 0 <= v < width ==>
             r[i][v] == if prev[i] != EosId then logp[i][v] else if v == EosId then 0 else Inf by {
      forall i, v | 0 <= i < |prev| && 0 <= v < width
        ensures r[i][v] == if prev[i] != EosId then logp[i][v] else if v == EosId then 0 else Inf
      {
        EosPositionAt(fin, width, i, v);
      }
    }
    r
  }

  /**
   * Lines 128-135 as written: the pinning runs only when some previous token
   * is 2, and skipping it then changes nothing.
   */
  function Pinned(logp: Matrix, prev: seq<nat>, width: nat): (r: Matrix)
    requires IsMatrix(logp, |prev|, width) && width > EosId
    ensures IsMatrix(r, |prev|, width)
    ensures forall i, v :: 0 <= i < |prev| && 0 <= v < width ==>
              r[i][v] == if prev[i] != EosId then logp[i][v] else if v == EosId then 0 else Inf
  {
    if |FinishedRows(prev)| > 0 then PinFinished(logp, prev, width) else logp
  }

  // ---------------------------------------------------------------- expansion and top-k

  /**
   * `nll.unsqueeze_(2).add(log_p.view(B, -1, V)).view(B, -1)`: one row of
   * `K * V` candidates per sample, `K` the number of slots so far (1 at the
   * first step); `ExpandAt` states what each candidate scores.
   */
  function Expand(nll: Matrix, logp: Matrix, slots: nat, width: nat): (r: Matrix)
    requires width > 0 && IsMatrix(nll, |nll|, slots) && IsMatrix(logp, |nll| * slots, width)
    ensures IsMatrix(r, |nll|, slots * width)
  {
    seq(|nll|, b requires 0 <= b < |nll| => ExpandRow(nll, logp, slots, width, b))
  }

  function ExpandRow(nll: Matrix, logp: Matrix, slots: nat, width: nat, b: nat): (r: seq<int>)
    requires width > 0 && IsMatrix(nll, |nll|, slots) && IsMatrix(logp, |nll| * slots, width) && b < |nll|
    ensures |r| == slots * width
  {
    seq(slots * width, c requires 0 <= c < slots * width =>
      CandidateIndex(c, b, |nll|, slots, width);
      nll[b][c / width] + logp[b * slots + c / width][c % width])
  }

  /** Candidate `c` of sample `b` extends slot `c / V`, whose score row is `b * K + c / V`. */
  lemma CandidateIndex(c: nat, b: nat, samples: nat, slots: nat, width: nat)
    requires width > 0 && c < slots * width && b < samples
    ensures c / width < slots && b * slots + c / width < samples * slots
  {
    DivBound(c, slots, width);
    FlatBound(b, c / width, samples, slots);
  }

  /** Candidate `j * V + v` of sample `b` is slot `j`'s running score plus token `v`'s score in row `b * K + j`. */
  lemma ExpandAt(nll: Matrix, logp: Matrix, slots: nat, width: nat, b: nat, j: nat, v: nat)
    requires width > 0 && IsMatrix(nll, |nll|, slots) && IsMatrix(logp, |nll| * slots, width)
    requires b < |nll| && j < slots && v < width
    ensures j * width + v < slots * width && b * slots + j < |nll| * slots
    ensures Expand(nll, logp, slots, width)[b][j * width + v] == nll[b][j] + logp[b * slots + j][v]
  {
    FlatBound(j, v, slots, width);
    FlatBound(b, j, |nll|, slots);
    FlatSplit(j, v, width);
    assert Expand(nll, logp, slots, width)[b] == ExpandRow(nll, logp, slots, width, b);
  }

  /**
   * `sel` holds `k` distinct positions of `row` whose values are the `k`
   * largest: nothing left out beats anything chosen.
   */
  ghost predicate IsTopK(row: seq<int>, sel: seq<nat>, k: nat) {
    && |sel| == k
    && (forall i :: 0 <= i < k ==> sel[i] < |row|)
    && (forall i, i' :: 0 <= i < i' < k ==> sel[i] != sel[i'])
    && (forall i, c :: 0 <= i < k && 0 <= c < |row| && c !in sel ==> row[c] <= row[sel[i]])
  }

  /** The slot of `sel` holding the smallest value. */
  method MinSlot(row: seq<int>, sel: seq<nat>) returns (m: nat)
    requires |sel| > 0 && forall i :: 0 <= i < |sel| ==> sel[i] < |row|
    ensures m < |sel| && forall i :: 0 <= i < |sel| ==> row[sel[m]] <= row[sel[i]]
  {
    m := 0;
    var i := 1;
    while i < |sel|
      invariant 1 <= i <= |sel| && m < i
      invariant forall i' :: 0 <= i' < i ==> row[sel[m]] <= row[sel[i']]
    {
      if row[sel[i]] < row[sel[m]] { m := i; }
      i := i + 1;
    }
  }

  /**
   * `topk(k, sorted=False, largest=True)` on one sample's candidates: the
   * values and positions of `k` largest entries, in no promised order.
   */
  method TopK(row: seq<int>, k: nat) returns (vals: seq<int>, sel: seq<nat>)
    requires k <= |row|
    ensures IsTopK(row, sel, k)
    ensures |vals| == k && forall i :: 0 <= i < k ==> vals[i] == row[sel[i]]
  {
    sel := seq(k, i => i);
    forall d | 0 <= d < k ensures d in sel { assert sel[d] == d; }
    var c := k;
    while c < |row|
      invariant k <= c <= |row| && TopOfPrefix(row, sel, k, c)
    {
      if k > 0 {
        var m := MinSlot(row, sel);
        Admit(row, sel, k, c, m);
        if row[c] > row[sel[m]] {
          sel := sel[m := c];
        }
      }
      c := c + 1;
    }
    vals := seq(k, i requires 0 <= i < k => row[sel[i]]);
  }

  /** `sel` holds `k` distinct indices below `c`, and no other index below `c` scores more than any of them. */
  ghost predicate TopOfPrefix(row: seq<int>, sel: seq<nat>, k: nat, c: nat) {
    && c <= |row| && |sel| == k
    && (forall i :: 0 <= i < k ==> sel[i] < c)
    && (forall i, i' :: 0 <= i < i' < k ==> sel[i] != sel[i'])
    && (forall i, d :: 0 <= i < k && 0 <= d < c && d !in sel ==> row[d] <= row[sel[i]])
  }

  /**
   * One pass of `TopK`'s scan: index `c` replaces the smallest selected one
   * `sel[m]` when it scores more, and the selection stays the top of the
   * longer prefix.
   */
  lemma Admit(row: seq<int>, sel: seq<nat>, k: nat, c: nat, m: nat)
    requires c < |row| && TopOfPrefix(row, sel, k, c)
    requires m < k && forall i :: 0 <= i < k ==> row[sel[m]] <= row[sel[i]]
    ensures TopOfPrefix(row, if row[c] > row[sel[m]] then sel[m := c] else sel, k, c + 1)
  {
    if row[c] > row[sel[m]] {
      var after := sel[m := c];
      assert after[m] == c;
      forall i, d | 0 <= i < k && 0 <= d < c + 1 && d !in after ensures row[d] <= row[after[i]] {
        if i != m { assert after[i] == sel[i]; }
        if d != sel[m] {
          forall i' | 0 <= i' < k ensures sel[i'] != d {
            if i' != m { assert after[i'] == sel[i']; }
          }
          assert d !in sel;
        }
      }
    } else {
      forall i, d | 0 <= i < k && 0 <= d < c + 1 && d !in sel ensures row[d] <= row[sel[i]] {
        if d == c { assert row[c] <= row[sel[m]]; }
      }
    }
  }

  /** Ensembling two identical models leaves every top-k choice a top-k choice, and no other. */
  lemma TwinsKeepTopK(m: Matrix, rows: nat, cols: nat, i: nat, sel: seq<nat>, k: nat)
    requires IsMatrix(m, rows, cols) && i < rows
    ensures IsTopK(SumScores([m, m], rows, cols)[i], sel, k) <==> IsTopK(m[i], sel, k)
  {
    SumOfTwins(m, rows, cols);
  }

  // ---------------------------------------------------------------- flat indices and backpointers

  /** `pdxs = beam[t] / n_vocab`: the slot a candidate extends. */
  function Ancestor(f: nat, width: nat): (p: nat)
    requires width > 0
    ensures p * width <= f < p * width + width
  {
    f / width
  }

  /** `beam[t].remainder_(n_vocab)`: the token a candidate appends; with the ancestor it rebuilds `f`. */
  function Token(f: nat, width: nat): (tok: nat)
    requires width > 0
    ensures tok < width && Ancestor(f, width) * width + tok == f
  {
    f % width
  }

  /** Among `slots * V` candidates the ancestor is a slot: 0 at the first step (one slot), below `k` after. */
  lemma AncestorBound(f: nat, slots: nat, width: nat)
    requires width > 0 && f < slots * width
    ensures Ancestor(f, width) < slots
  {
    DivBound(f, slots, width);
  }

  /** `beam[t] / n_vocab` for every pick of a `[B, k]` matrix. */
  function Ancestors(picked: seq<seq<nat>>, width: nat): (pdxs: seq<seq<nat>>)
    requires width > 0
    ensures |pdxs| == |picked| && forall b :: 0 <= b < |picked| ==> |pdxs[b]| == |picked[b]|
    ensures forall b, j :: 0 <= b < |picked| && 0 <= j < |picked[b]| ==> pdxs[b][j] == Ancestor(picked[b][j], width)
  {
    seq(|picked|, b requires 0 <= b < |picked| => seq(|picked[b]|, j requires 0 <= j < |picked[b]| => Ancestor(picked[b][j], width)))
  }

  /** `beam[t].remainder_(n_vocab)` for every pick of a `[B, k]` matrix. */
  function Tokens(picked: seq<seq<nat>>, width: nat): (toks: seq<seq<nat>>)
    requires width > 0
    ensures |toks| == |picked| && forall b :: 0 <= b < |picked| ==> |toks[b]| == |picked[b]|
    ensures forall b, j :: 0 <= b < |picked| && 0 <= j < |picked[b]| ==> toks[b][j] == Token(picked[b][j], width)
  {
    seq(|picked|, b requires 0 <= b < |picked| => seq(|picked[b]|, j requires 0 <= j < |picked[b]| => Token(picked[b][j], width)))
  }

  /** `x.view(-1)` for a `[B, k]` tensor: the rows laid end to end. */
  function Flatten(m: seq<seq<nat>>, k: nat): (r: seq<nat>)
    requires forall b :: 0 <= b < |m| ==> |m[b]| == k
    ensures |r| == |m| * k
    decreases |m|
  {
    if |m| == 0 then [] else Flatten(m[..|m| - 1], k) + m[|m| - 1]
  }

  /** Entry `b * k + j` of the flattening is entry `(b, j)`. */
  lemma {:induction false} FlattenAt(m: seq<seq<nat>>, k: nat, b: nat, j: nat)
    requires forall b :: 0 <= b < |m| ==> |m[b]| == k
    requires b < |m| && j < k
    ensures b * k + j < |m| * k && Flatten(m, k)[b * k + j] == m[b][j]
    decreases |m|
  {
    FlatBound(b, j, |m|, k);
    var init := m[..|m| - 1];
    assert |Flatten(init, k)| == (|m| - 1) * k;
    if b < |m| - 1 {
      FlatBound(b, j, |m| - 1, k);
      FlattenAt(init, k, b, j);
    } else {
      assert b * k == (|m| - 1) * k;
    }
  }

  /** A flattening whose every entry is `x` comes from rows whose every entry is `x`. */
  lemma {:induction false} FlattenAll(m: seq<seq<nat>>, k: nat, x: nat)
    requires forall b :: 0 <= b < |m| ==> |m[b]| == k
    requires forall i :: 0 <= i < |Flatten(m, k)| ==> Flatten(m, k)[i] == x
    ensures forall b, j :: 0 <= b < |m| && 0 <= j < k ==> m[b][j] == x
    decreases |m|
  {
    if |m| > 0 {
      var init, top := m[..|m| - 1], m[|m| - 1];
      var flat := Flatten(init, k);
      assert Flatten(m, k) == flat + top;
      forall i | 0 <= i < |flat| ensures flat[i] == x {
        assert Flatten(m, k)[i] == flat[i];
      }
      FlattenAll(init, k, x);
      forall b, j | 0 <= b < |m| && 0 <= j < k ensures m[b][j] == x {
        if b < |m| - 1 {
          assert m[b] == init[b];
        } else {
          assert Flatten(m, k)[|flat| + j] == top[j];
        }
      }
    }
  }

  /** Every entry of the flattening is an entry of the rows, so a common bound carries over. */
  lemma {:induction false} FlattenBelow(m: seq<seq<nat>>, k: nat, bound: nat)
    requires forall b :: 0 <= b < |m| ==> |m[b]| == k
    requires forall b, j :: 0 <= b < |m| && 0 <= j < k ==> m[b][j] < bound
    ensures forall i :: 0 <= i < |Flatten(m, k)| ==> Flatten(m, k)[i] < bound
    decreases |m|
  {
    if |m| > 0 {
      FlattenBelow(m[..|m| - 1], k, bound);
    }
  }

  /** Slot `i` reads a row of its own sample's block of `k` rows. */
  predicate InBlock(tile: seq<nat>, k: nat)
    requires k > 0
  {
    forall i :: 0 <= i < |tile| ==> (i / k) * k <= tile[i] < (i / k) * k + k
  }

  /** The sample owning each of the `B * k` slots: slot `i` belongs to sample `i / k`. */
  function Owners(samples: nat, k: nat): (r: seq<nat>)
    requires k > 0
    ensures |r| == samples * k && InRange(r, samples)
    ensures forall i :: 0 <= i < samples * k ==> r[i] == i / k
  {
    var r := seq(samples * k, i => i / k);
    assert InRange(r, samples) by {
      forall i | 0 <= i < samples * k ensures r[i] < samples { DivBound(i, samples, k); }
    }
    r
  }

  /** Slot `i` moved to the start of its sample's block of `k` rows. */
  function BlockShift(pdxs: seq<nat>, k: nat): (tile: seq<nat>)
    requires k > 0
    ensures |tile| == |pdxs|
    ensures (forall i :: 0 <= i < |pdxs| ==> pdxs[i] < k) ==> InBlock(tile, k)
  {
    seq(|pdxs|, i requires 0 <= i < |pdxs| => pdxs[i] + (i / k) * k)
  }

  /**
   * `tile = pdxs.view(-1) + (nk_mask / k) * (k if t else 1)` with
   * `nk_mask = range(B * k)`: slot `i` reads state row `pdxs[i] + (i / k) * k`
   * (`+ i / k` at the first step).
   */
  function Backpointers(pdxs: seq<nat>, k: nat, t: nat): (tile: seq<nat>)
    requires k > 0
    ensures |tile| == |pdxs|
    ensures t == 0 && (forall i :: 0 <= i < |pdxs| ==> pdxs[i] == 0) ==>
              forall i :: 0 <= i < |pdxs| ==> tile[i] == i / k
    ensures t > 0 && (forall i :: 0 <= i < |pdxs| ==> pdxs[i] < k) ==> InBlock(tile, k)
  {
    if t > 0 then BlockShift(pdxs, k)
    else seq(|pdxs|, i requires 0 <= i < |pdxs| => pdxs[i] + i / k)
  }

  /** At the first step every sample is repeated `k` times; later every slot reads a row of its own sample's block. */
  lemma {:induction false} BackpointersInRange(pdxs: seq<nat>, samples: nat, k: nat, t: nat)
    requires k > 0 && |pdxs| == samples * k
    requires forall i :: 0 <= i < |pdxs| ==> pdxs[i] < (if t == 0 then 1 else k)
    ensures t == 0 ==> Backpointers(pdxs, k, t) == Owners(samples, k)
    ensures InRange(Backpointers(pdxs, k, t), if t == 0 then samples else samples * k)
  {
    var tile := Backpointers(pdxs, k, t);
    forall i | 0 <= i < |pdxs| ensures tile[i] < (if t == 0 then samples else samples * k) {
      DivBound(i, samples, k);
    }
  }

  /** Hypothesis slots per sample entering step `t`: the single `<bos>` row at the first step, `k` after. */
  function Slots(t: nat, k: nat): nat {
    if t == 0 then 1 else k
  }

  /** Slot `j` of sample `b` reads state row `b * slots + pdxs[b][j]`, with one slot per sample at the first step and `k` after. */
  lemma {:induction false} BackpointerAt(pdxs: seq<seq<nat>>, k: nat, t: nat, b: nat, j: nat)
    requires k > 0 && forall b' :: 0 <= b' < |pdxs| ==> |pdxs[b']| == k
    requires b < |pdxs| && j < k
    ensures b * k + j < |Flatten(pdxs, k)| && Backpointers(Flatten(pdxs, k), k, t)[b * k + j] == b * Slots(t, k) + pdxs[b][j]
  {
    FlattenAt(pdxs, k, b, j);
    FlatSplit(b, j, k);
    var flat, i := Flatten(pdxs, k), b * k + j;
    assert i / k == b && flat[i] == pdxs[b][j];
    if t > 0 {
      assert Backpointers(flat, k, t)[i] == flat[i] + (i / k) * k;
    } else {
      assert Backpointers(flat, k, t)[i] == flat[i] + i / k;
    }
  }

  /** Re-tiling by in-block backpointers keeps every slot on its own sample: `Owners` is a fixed point. */
  lemma {:induction false} OwnersStable(samples: nat, k: nat, tile: seq<nat>)
    requires k > 0 && |tile| == samples * k && InBlock(tile, k)
    ensures InRange(tile, |Owners(samples, k)|)
    ensures Gather(Owners(samples, k), tile) == Owners(samples, k)
  {
    var o := Owners(samples, k);
    forall i | 0 <= i < |tile| ensures tile[i] < samples * k && o[tile[i]] == i / k {
      DivBound(i, samples, k);
      FlatSplit(i / k, tile[i] - (i / k) * k, k);
    }
  }
}
