/**
 * What `beam_search` in nmtpytorch/search.py does once a batch's step loop
 * ends: hypothesis lengths, the choice of one slot per sample, and the
 * restoration of the samples' original order across batches.
 */
module BeamSelect {
  import opened Arith

  // ---------------------------------------------------------------- lengths

  /** `beam.gt(2).sum(0)` for one slot: the tokens other than `<pad>`, `<bos>` and `<eos>` (ids 0, 1, 2). */
  function ContentCount(col: seq<int>): (n: nat)
    ensures n <= |col|
    decreases |col|
  {
    if |col| == 0 then 0 else ContentCount(col[..|col| - 1]) + (if col[|col| - 1] > 2 then 1 else 0)
  }

  /** The positions of a hypothesis that hold a content token. */
  ghost function ContentPositions(col: seq<int>): set<nat> {
    set s: nat | s < |col| && col[s] > 2
  }

  /** The count is exactly the number of positions holding a content token. */
  lemma {:induction false} ContentCountIsCard(col: seq<int>)
    ensures ContentCount(col) == |ContentPositions(col)|
    decreases |col|
  {
    if |col| > 0 {
      var init := col[..|col| - 1];
      ContentCountIsCard(init);
      var last := |col| - 1;
      assert ContentPositions(init) == set s: nat | s < last && col[s] > 2;
      if col[last] > 2 {
        assert ContentPositions(col) == ContentPositions(init) + {last};
      } else {
        assert ContentPositions(col) == ContentPositions(init);
      }
    }
  }

  /** Counting splits over concatenation. */
  lemma {:induction false} ContentCountAppend(a: seq<int>, b: seq<int>)
    ensures ContentCount(a + b) == ContentCount(a) + ContentCount(b)
    decreases |b|
  {
    if |b| > 0 {
      assert (a + b)[..|a + b| - 1] == a + b[..|b| - 1];
      ContentCountAppend(a, b[..|b| - 1]);
    } else {
      assert a + b == a;
    }
  }

  /** `clamp(min=1)`: a hypothesis with no content token still has length 1. */
  function HypLength(col: seq<int>): (len: nat)
    ensures 1 <= len && (len == 1 || len == ContentCount(col))
    ensures ContentCount(col) <= len <= |col| + 1
  {
    if ContentCount(col) < 1 then 1 else ContentCount(col)
  }

  /**
   * Running past the end of a hypothesis only appends special tokens
   * (`<pad>`, `<bos>`, `<eos>`), so its length does not change.
   */
  lemma SpecialTailKeepsLength(col: seq<int>, tail: seq<int>)
    requires forall s :: 0 <= s < |tail| ==> tail[s] <= 2
    ensures HypLength(col + tail) == HypLength(col)
  {
    ContentCountAppend(col, tail);
    ContentCountIsCard(tail);
    assert ContentPositions(tail) == {};
  }

  // ---------------------------------------------------------------- selection

  /** `a / la <= b / lb` for positive lengths, stated without division. */
  predicate NormLeq(a: int, la: nat, b: int, lb: nat) {
    a * lb <= b * la
  }

  /** Comparing length-normalised scores is transitive. */
  lemma NormTrans(a: int, la: nat, b: int, lb: nat, c: int, lc: nat)
    requires la >= 1 && lb >= 1 && lc >= 1
    requires NormLeq(a, la, b, lb) && NormLeq(b, lb, c, lc)
    ensures NormLeq(a, la, c, lc)
  {
    MulNonneg(b * la - a * lb, lc);
    MulNonneg(c * lb - b * lc, la);
    // lb * (c * la - a * lc) >= 0 and lb > 0
    var d := c * la - a * lc;
    assert lb * d == (b * la - a * lb) * lc + (c * lb - b * lc) * la;
    MulNonneg(-d - 1, lb - 1);
    MulNonneg(-d - 1, 1);
  }

  /**
   * `nll.div_(lp).topk(1)` for one sample with `lp_alpha = 0`: a slot whose
   * score divided by its length is largest (the first such slot).
   */
  method BestSlot(scores: seq<int>, lens: seq<nat>) returns (best: nat)
    requires |scores| == |lens| > 0
    requires forall j :: 0 <= j < |lens| ==> lens[j] >= 1
    ensures best < |scores|
    ensures forall j :: 0 <= j < |scores| ==> NormLeq(scores[j], lens[j], scores[best], lens[best])
  {
    best := 0;
    var i := 1;
    while i < |scores|
      invariant 1 <= i <= |scores| && best < i
      invariant forall j :: 0 <= j < i ==> NormLeq(scores[j], lens[j], scores[best], lens[best])
    {
      if scores[best] * lens[i] < scores[i] * lens[best] {
        forall j | 0 <= j < i ensures NormLeq(scores[j], lens[j], scores[i], lens[i]) {
          NormTrans(scores[j], lens[j], scores[best], lens[best], scores[i], lens[i]);
        }
        best := i;
      }
      i := i + 1;
    }
  }

  // ---------------------------------------------------------------- original order

  type Pair = (nat, nat)

  /** `enumerate(orig_idxs)`. */
  function Enumerate(orig: seq<nat>): (r: seq<Pair>)
    ensures |r| == |orig|
    ensures forall i :: 0 <= i < |orig| ==> r[i] == (i, orig[i])
    ensures forall x: Pair :: x in r <==> x.0 < |orig| && x.1 == orig[x.0]
  {
    var r := seq(|orig|, i requires 0 <= i < |orig| => (i, orig[i]));
    assert forall x: Pair :: x.0 < |orig| && x.1 == orig[x.0] ==> r[x.0] == x;
    r
  }

  predicate SortedByKey(s: seq<Pair>) {
    forall p, q :: 0 <= p < q < |s| ==> s[p].1 <= s[q].1
  }

  predicate Distinct<T(==)>(s: seq<T>) {
    forall p, q :: 0 <= p < q < |s| ==> s[p] != s[q]
  }

  /** The first components rise strictly along `s`, as those of `Enumerate` do. */
  predicate FirstsIncreasing(s: seq<Pair>) {
    forall p, q :: 0 <= p < q < |s| ==> s[p].0 < s[q].0
  }

  /** Pairs with equal keys appear in order of their first components: the sort is stable. */
  predicate KeyStable(s: seq<Pair>) {
    forall p, q :: 0 <= p < q < |s| && s[p].1 == s[q].1 ==> s[p].0 < s[q].0
  }

  /** Insert after every element whose key is not larger (which keeps equal keys in arrival order). */
  function InsertByKey(x: Pair, s: seq<Pair>): (r: seq<Pair>)
    ensures |r| == |s| + 1
    ensures forall y :: y in r <==> y == x || y in s
    ensures multiset(r) == multiset(s) + multiset{x}
    decreases |s|
  {
    if |s| == 0 then [x]
    else if x.1 < s[0].1 then [x] + s
    else
      assert s == [s[0]] + s[1..];
      assert forall y :: y in s <==> y == s[0] || y in s[1..];
      [s[0]] + InsertByKey(x, s[1..])
  }

  /** Inserting into a list sorted by key keeps it sorted. */
  lemma {:induction false} InsertSorted(x: Pair, s: seq<Pair>)
    requires SortedByKey(s)
    ensures SortedByKey(InsertByKey(x, s))
    decreases |s|
  {
    if |s| > 0 && x.1 >= s[0].1 {
      var rest := InsertByKey(x, s[1..]);
      InsertSorted(x, s[1..]);
      forall q | 0 <= q < |rest| ensures s[0].1 <= rest[q].1 {
        assert rest[q] in rest;
        if rest[q] != x {
          var p :| 0 <= p < |s[1..]| && s[1..][p] == rest[q];
          assert s[p + 1] == rest[q];
        }
      }
    }
  }

  /** Inserting a new element into a list without repeats leaves none. */
  lemma {:induction false} InsertDistinct(x: Pair, s: seq<Pair>)
    requires Distinct(s) && x !in s
    ensures Distinct(InsertByKey(x, s))
    decreases |s|
  {
    if |s| > 0 && x.1 >= s[0].1 {
      InsertDistinct(x, s[1..]);
      assert s[0] !in InsertByKey(x, s[1..]);
    }
  }

  /**
   * Inserting a pair whose first component exceeds every other one into a
   * sorted, stable list keeps it stable: it goes after the pairs with its key.
   */
  lemma {:induction false} InsertStable(x: Pair, s: seq<Pair>)
    requires SortedByKey(s) && KeyStable(s)
    requires forall y :: y in s ==> y.0 < x.0
    ensures KeyStable(InsertByKey(x, s))
    decreases |s|
  {
    if |s| == 0 {
    } else if x.1 < s[0].1 {
      forall q | 0 <= q < |s| ensures x.1 != s[q].1 {
        assert s[0].1 <= s[q].1;
      }
      ConsStable(x, s);
    } else {
      var t := s[1..];
      TailOrdered(s);
      forall y | y in t ensures y.0 < x.0 {
        var p :| 0 <= p < |t| && t[p] == y;
        assert s[p + 1] == y;
      }
      InsertStable(x, t);
      var rest := InsertByKey(x, t);
      forall q | 0 <= q < |rest| && s[0].1 == rest[q].1 ensures s[0].0 < rest[q].0 {
        assert rest[q] in rest;
        if rest[q] != x {
          var p :| 0 <= p < |t| && t[p] == rest[q];
          assert s[p + 1] == rest[q];
        }
      }
      ConsStable(s[0], rest);
    }
  }

  /** A stable list stays stable behind a head that precedes every pair sharing its key. */
  lemma ConsStable(h: Pair, s: seq<Pair>)
    requires KeyStable(s)
    requires forall q :: 0 <= q < |s| && h.1 == s[q].1 ==> h.0 < s[q].0
    ensures KeyStable([h] + s)
  {
    var r := [h] + s;
    forall p, q | 0 <= p < q < |r| && r[p].1 == r[q].1 ensures r[p].0 < r[q].0 {
      assert r[q] == s[q - 1];
      if p > 0 {
        assert r[p] == s[p - 1];
      }
    }
  }

  /** Dropping the head of a sorted, stable list leaves it sorted and stable. */
  lemma TailOrdered(s: seq<Pair>)
    requires |s| > 0 && SortedByKey(s) && KeyStable(s)
    ensures SortedByKey(s[1..]) && KeyStable(s[1..])
  {
    var t := s[1..];
    forall p, q | 0 <= p < q < |t| ensures t[p].1 <= t[q].1 && (t[p].1 == t[q].1 ==> t[p].0 < t[q].0) {
      assert t[p] == s[p + 1] && t[q] == s[q + 1];
    }
  }

  /**
   * `sorted(pairs, key=lambda k: k[1])`: a stable insertion sort on the
   * second component. The result is a permutation of the input, sorted by
   * key, and on pairs numbered in order (as `Enumerate` numbers them) equal
   * keys keep that order.
   */
  function SortByKey(ps: seq<Pair>): (r: seq<Pair>)
    ensures |r| == |ps|
    ensures multiset(r) == multiset(ps)
    ensures forall y :: y in r <==> y in ps
    ensures SortedByKey(r)
    ensures FirstsIncreasing(ps) ==> KeyStable(r)
    ensures Distinct(ps) ==> Distinct(r)
    decreases |ps|
  {
    if |ps| == 0 then []
    else
      var init := ps[..|ps| - 1];
      var x := ps[|ps| - 1];
      assert ps == init + [x];
      assert forall y :: y in ps <==> y in init || y == x;
      InsertSorted(x, SortByKey(init));
      assert FirstsIncreasing(ps) ==> KeyStable(InsertByKey(x, SortByKey(init))) by {
        if FirstsIncreasing(ps) {
          assert FirstsIncreasing(init);
          forall y | y in SortByKey(init) ensures y.0 < x.0 {
            var p :| 0 <= p < |init| && init[p] == y;
            assert ps[p] == y;
          }
          InsertStable(x, SortByKey(init));
        }
      }
      assert Distinct(ps) ==> Distinct(InsertByKey(x, SortByKey(init))) by {
        if Distinct(ps) {
          assert Distinct(init) && x !in init;
          InsertDistinct(x, SortByKey(init));
        }
      }
      InsertByKey(x, SortByKey(init))
  }

  /**
   * `[results[i] for i, j in sorted(enumerate(orig_idxs), key=lambda k: k[1])]`.
   * Indexing `results` past its end raises, hence the requirement.
   */
  function RecoverOrder<T>(results: seq<T>, orig: seq<nat>): (out: seq<T>)
    requires |orig| <= |results|
    ensures |out| == |orig|
  {
    var s := SortByKey(Enumerate(orig));
    seq(|s|, r requires 0 <= r < |s| => assert s[r] in s; results[s[r].0])
  }

  /** `orig` lists each of `0 .. n-1` once. */
  predicate IsPermutation(orig: seq<nat>, n: nat) {
    |orig| == n && (forall i :: 0 <= i < n ==> orig[i] < n) && Distinct(orig)
  }

  /** A strictly increasing run of `n` naturals below `n` is `0, 1, ..., n-1`. */
  lemma {:induction false} StrictRanks(s: seq<Pair>, n: nat)
    requires |s| == n && (forall p :: 0 <= p < n ==> s[p].1 < n)
    requires forall p :: 0 <= p < n - 1 ==> s[p].1 < s[p + 1].1
    ensures forall p :: 0 <= p < n ==> s[p].1 == p
  {
    forall p | 0 <= p < n ensures s[p].1 >= p { RanksFromBelow(s, n, p); }
    forall p | 0 <= p < n ensures s[p].1 <= p { RanksFromAbove(s, n, p); }
  }

  lemma {:induction false} RanksFromBelow(s: seq<Pair>, n: nat, p: nat)
    requires |s| == n && p < n
    requires forall q :: 0 <= q < n - 1 ==> s[q].1 < s[q + 1].1
    ensures s[p].1 >= p
    decreases p
  {
    if p > 0 { RanksFromBelow(s, n, p - 1); }
  }

  lemma {:induction false} RanksFromAbove(s: seq<Pair>, n: nat, p: nat)
    requires |s| == n && p < n && (forall q :: 0 <= q < n ==> s[q].1 < n)
    requires forall q :: 0 <= q < n - 1 ==> s[q].1 < s[q + 1].1
    ensures s[p].1 <= p
    decreases n - p
  {
    if p < n - 1 { RanksFromAbove(s, n, p + 1); }
  }

  /**
   * When `orig_idxs` is a permutation of the result positions, the recovered
   * list has the same length and puts result `i` back at position `orig_idxs[i]`.
   */
  lemma RecoverPermutation<T>(results: seq<T>, orig: seq<nat>)
    requires IsPermutation(orig, |results|)
    ensures |RecoverOrder(results, orig)| == |results|
    ensures forall i :: 0 <= i < |orig| ==> RecoverOrder(results, orig)[orig[i]] == results[i]
  {
    var n := |orig|;
    var s := SortByKey(Enumerate(orig));
    SortedRanks(orig);
    var out := RecoverOrder(results, orig);
    forall i | 0 <= i < n ensures out[orig[i]] == results[i] {
      var p := orig[i];
      assert orig[s[p].0] == p == orig[i];
    }
  }

  /** Sorting the enumeration of a permutation puts the pair whose key is `p` at position `p`. */
  lemma SortedRanks(orig: seq<nat>)
    requires IsPermutation(orig, |orig|)
    ensures forall p :: 0 <= p < |orig| ==>
              SortByKey(Enumerate(orig))[p].1 == p && SortByKey(Enumerate(orig))[p].0 < |orig| &&
              orig[SortByKey(Enumerate(orig))[p].0] == p
  {
    var n := |orig|;
    var e := Enumerate(orig);
    var s := SortByKey(e);
    assert Distinct(e);
    forall p | 0 <= p < n ensures s[p].1 < n && s[p].0 < n && orig[s[p].0] == s[p].1 {
      assert s[p] in s;
    }
    forall p | 0 <= p < n - 1 ensures s[p].1 < s[p + 1].1 {
      assert s[p] in s && s[p + 1] in s;
    }
    StrictRanks(s, n);
  }
}
