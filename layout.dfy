/**
 * The frame layout planned by one iteration of `interpolate_between_two_frames`:
 * which positions of the new, longer video are inserted (`tgt_idx`), which are kept
 * (`original_idx`), where each kept entry comes from, and the two kept neighbours
 * whose embeddings are blended into each inserted one.
 *
 * Frames are counted by position only; prompts, noise frames and embeddings are
 * opaque values.  `f` is the current frame count and `sel` the gaps chosen for
 * insertion, sorted: gap g lies between frames g and g + 1.
 */
module InterpolationLayout {
  import opened Wrappers

  /** Strictly increasing, hence free of duplicates. */
  predicate Increasing(s: seq<nat>) {
    forall a, b :: 0 <= a < b < |s| ==> s[a] < s[b]
  }

  /** `sorted(idx)` for top-k indices of the f - 1 adjacent-frame distances. */
  predicate ValidSelection(f: nat, sel: seq<nat>) {
    Increasing(sel) && forall r :: 0 <= r < |sel| ==> sel[r] + 1 < f
  }

  /** `tgt_idx = [id + 1 + i for i, id in enumerate(idx)]`: the r-th gap is shifted by
      the r insertions that precede it. */
  function TargetIndices(sel: seq<nat>): (tgt: seq<nat>)
    // the r-th inserted frame lands after old frame idx[r], moved up by the r frames
    // inserted before it
    ensures |tgt| == |sel| && forall r :: 0 <= r < |sel| ==> tgt[r] == sel[r] + 1 + r
  {
    assert forall r :: 0 <= r < |sel| ==> ShiftedFrom(sel, 0)[r] == sel[r] + 1 + r by {
      forall r | 0 <= r < |sel| {
        ShiftedFromAt(sel, 0, r);
      }
    }
    ShiftedFrom(sel, 0)
  }

  /** `[id + 1 + k + i for i, id in enumerate(s)]`. */
  function ShiftedFrom(s: seq<nat>, k: nat): (t: seq<nat>)
    ensures |t| == |s|
  {
    if s == [] then [] else [s[0] + 1 + k] + ShiftedFrom(s[1..], k + 1)
  }

  lemma {:induction false} ShiftedFromAt(s: seq<nat>, k: nat, r: nat)
    requires r < |s|
    ensures ShiftedFrom(s, k)[r] == s[r] + 1 + k + r
  {
    if r > 0 {
      ShiftedFromAt(s[1..], k + 1, r - 1);
    }
  }

  /** Number of inserted positions below i. */
  function InsertedBefore(tgt: seq<nat>, i: nat): nat {
    if i == 0 then 0 else InsertedBefore(tgt, i - 1) + (if i - 1 in tgt then 1 else 0)
  }

  /** The value of the counter `prompt_i` when position i is reached: the number of
      kept positions below i, which is also the old index of a kept position i. */
  function KeptBefore(tgt: seq<nat>, i: nat): nat {
    if i == 0 then 0 else KeptBefore(tgt, i - 1) + (if i - 1 in tgt then 0 else 1)
  }

  /** `[i for i in range(n) if i not in tgt]`. */
  function OriginalIndices(tgt: seq<nat>, n: nat): (orig: seq<nat>)
    ensures |orig| == KeptBefore(tgt, n)
  {
    if n == 0 then [] else OriginalIndices(tgt, n - 1) + (if n - 1 in tgt then [] else [n - 1])
  }

  /** `tgt_video_length`, `tgt_idx` and `original_idx` of one iteration. */
  datatype LayoutPlan = LayoutPlan(length: nat, tgt: seq<nat>, orig: seq<nat>)

  /** The planned layout: the new length grows by one per selected gap, inserted and kept
      positions partition `range(tgt_video_length)`, the first and the last position are
      kept. */
  function Plan(f: nat, sel: seq<nat>): (p: LayoutPlan)
    requires ValidSelection(f, sel)
    ensures p.length == f + |sel| && |p.tgt| == |sel| && |p.orig| == f
    ensures forall r :: 0 <= r < |sel| ==> p.tgt[r] == sel[r] + 1 + r
    ensures Increasing(p.tgt) && Increasing(p.orig)
    ensures forall r :: 0 <= r < |sel| ==> 1 <= p.tgt[r] && p.tgt[r] + 1 < p.length
    ensures forall m :: 0 <= m < f ==> p.orig[m] < p.length
    ensures forall x :: 0 <= x < p.length ==> (x in p.tgt <==> x !in p.orig)
    ensures 0 < f ==> p.orig[0] == 0 && p.orig[f - 1] == p.length - 1
  {
    var tgt := TargetIndices(sel);
    TargetsSpread(f, sel);
    KeptEnds(f, sel);
    OriginalIndicesSpec(tgt, f + |sel|);
    LayoutPlan(f + |sel|, tgt, OriginalIndices(tgt, f + |sel|))
  }

  /** `sorted(original_idx + [i])` for a sorted `original_idx` that does not hold i. */
  function SortedInsert(s: seq<nat>, x: nat): (r: seq<nat>)
    ensures |r| == |s| + 1 && x in r
  {
    if s == [] then [x]
    else if x <= s[0] then [x] + s
    else [s[0]] + SortedInsert(s[1..], x)
  }

  /** Python's `list.index`: the first position holding x. */
  function IndexOf(s: seq<nat>, x: nat): (j: nat)
    requires x in s
    ensures j < |s| && s[j] == x
    ensures forall k :: 0 <= k < j ==> s[k] != x
  {
    if s[0] == x then 0 else 1 + IndexOf(s[1..], x)
  }

  /** Python indexing, where -1 denotes the last element. */
  function PyIndex(s: seq<nat>, j: int): nat
    requires -|s| <= j < |s|
  {
    if j < 0 then s[|s| + j] else s[j]
  }

  /** `pre_idx, next_idx = search_idx[find - 1], search_idx[find + 1]`; None stands for
      the IndexError raised when i would be the last element of `search_idx`. */
  function Neighbours(orig: seq<nat>, i: nat): Option<(nat, nat)> {
    var search := SortedInsert(orig, i);
    var find := IndexOf(search, i);
    if find + 1 < |search| then Some((PyIndex(search, find - 1), search[find + 1])) else None
  }

  /** The neighbour search around a position i that is not kept, with k kept positions
      below it: it raises exactly when i lies above every kept position; otherwise the next
      neighbour is the first kept position above i, and the previous one the last kept
      position below it or, through Python's index -1, the last kept position of all. */
  lemma {:induction false} NeighboursSpec(orig: seq<nat>, i: nat, k: nat)
    requires Increasing(orig) && k <= |orig|
    requires forall j :: 0 <= j < k ==> orig[j] < i
    requires forall j :: k <= j < |orig| ==> i < orig[j]
    ensures Neighbours(orig, i).None? <==> k == |orig|
    ensures k < |orig| ==>
      Neighbours(orig, i) == Some((if k == 0 then orig[|orig| - 1] else orig[k - 1], orig[k]))
  {
    var search := SortedInsert(orig, i);
    SortedInsertAt(orig, i, k);
    assert IndexOf(search, i) == k;
  }

  /** `(next_idx - i) / length` and `(i - pre_idx) / length`: a convex pair of weights. */
  function Weights(pre: nat, i: nat, next: nat): (w: (real, real))
    requires pre < i < next
    ensures 0.0 < w.0 < 1.0 && 0.0 < w.1 < 1.0
    ensures w.0 + w.1 == 1.0
  {
    var length := (next - pre) as real;
    assert (next - i) as real + (i - pre) as real == length;
    ((next - i) as real / length, (i - pre) as real / length)
  }

  // ---------------------------------------------------------------------------
  // Counting lemmas

  /** In a strictly increasing tgt whose first r entries lie below x and the rest at or
      above it, exactly r inserted positions lie below x. */
  lemma {:induction false} InsertedBeforeRank(tgt: seq<nat>, x: nat, r: nat)
    requires Increasing(tgt) && r <= |tgt|
    requires forall q :: 0 <= q < r ==> tgt[q] < x
    requires forall q :: r <= q < |tgt| ==> x <= tgt[q]
    ensures InsertedBefore(tgt, x) == r
  {
    if x == 0 {
      if 0 < |tgt| {
        assert tgt[0] >= x;
      }
    } else if x - 1 in tgt {
      var q :| 0 <= q < |tgt| && tgt[q] == x - 1;
      assert q < r;
      assert tgt[r - 1] < x;
      assert q == r - 1;
      InsertedBeforeRank(tgt, x - 1, r - 1);
    } else {
      InsertedBeforeRank(tgt, x - 1, r);
    }
  }

  /** Every position below i is either kept or inserted. */
  lemma {:induction false} KeptPlusInserted(tgt: seq<nat>, i: nat)
    ensures KeptBefore(tgt, i) + InsertedBefore(tgt, i) == i
  {
    if i > 0 {
      KeptPlusInserted(tgt, i - 1);
    }
  }

  /** The shifted targets are spread at least two apart, start at 1 and end two below
      the new length, so the first and the last position are never inserted. */
  lemma {:induction false} TargetsSpread(f: nat, sel: seq<nat>)
    requires ValidSelection(f, sel)
    ensures |TargetIndices(sel)| == |sel|
    ensures forall r :: 0 <= r < |sel| ==> TargetIndices(sel)[r] == sel[r] + 1 + r
    ensures Increasing(TargetIndices(sel))
    ensures forall r, s :: 0 <= r < s < |sel| ==> TargetIndices(sel)[r] + 2 <= TargetIndices(sel)[s]
    ensures forall r :: 0 <= r < |sel| ==> 1 <= TargetIndices(sel)[r] <= f + |sel| - 2
  {
    var tgt := TargetIndices(sel);
    forall r | 0 <= r < |sel|
      ensures tgt[r] == sel[r] + 1 + r
    {
      ShiftedFromAt(sel, 0, r);
    }
    forall r | 0 <= r < |sel|
      ensures tgt[r] <= f + |sel| - 2
    {
      var last := |sel| - 1;
      assert sel[r] <= sel[last];
    }
  }

  /** Every kept entry of the old layout is used: f of the f + |sel| positions are kept. */
  lemma {:induction false} KeptCount(f: nat, sel: seq<nat>)
    requires ValidSelection(f, sel)
    ensures KeptBefore(TargetIndices(sel), f + |sel|) == f
  {
    TargetsSpread(f, sel);
    InsertedBeforeRank(TargetIndices(sel), f + |sel|, |sel|);
    KeptPlusInserted(TargetIndices(sel), f + |sel|);
  }

  lemma {:induction false} KeptBeforeMonotone(tgt: seq<nat>, a: nat, b: nat)
    requires a <= b
    ensures KeptBefore(tgt, a) <= KeptBefore(tgt, b)
    decreases b
  {
    if a < b {
      KeptBeforeMonotone(tgt, a, b - 1);
    }
  }

  /** The m-th entry of `original_idx` is a kept position holding the m-th old entry. */
  lemma {:induction false} OriginalIndicesEntries(tgt: seq<nat>, n: nat)
    ensures forall m :: 0 <= m < |OriginalIndices(tgt, n)| ==>
      OriginalIndices(tgt, n)[m] < n && OriginalIndices(tgt, n)[m] !in tgt &&
      KeptBefore(tgt, OriginalIndices(tgt, n)[m]) == m
  {
    if n > 0 {
      OriginalIndicesEntries(tgt, n - 1);
      var prev := OriginalIndices(tgt, n - 1);
      if n - 1 !in tgt {
        var cur := prev + [n - 1];
        assert OriginalIndices(tgt, n) == cur;
        forall m | 0 <= m < |cur|
          ensures cur[m] < n && cur[m] !in tgt && KeptBefore(tgt, cur[m]) == m
        {
          if m < |prev| {
            assert cur[m] == prev[m];
          }
        }
      }
    }
  }

  /** Every kept position below n appears in `original_idx`. */
  lemma {:induction false} OriginalIndicesComplete(tgt: seq<nat>, n: nat, p: nat)
    requires p < n && p !in tgt
    ensures p in OriginalIndices(tgt, n)
  {
    if p < n - 1 {
      OriginalIndicesComplete(tgt, n - 1, p);
    }
    assert OriginalIndices(tgt, n - 1) <= OriginalIndices(tgt, n);
  }

  /** `original_idx` is exactly the kept positions below n, in increasing order. */
  lemma {:induction false} OriginalIndicesSpec(tgt: seq<nat>, n: nat)
    ensures Increasing(OriginalIndices(tgt, n))
    ensures forall m :: 0 <= m < |OriginalIndices(tgt, n)| ==> OriginalIndices(tgt, n)[m] < n
    ensures forall p :: 0 <= p < n ==> (p in OriginalIndices(tgt, n) <==> p !in tgt)
  {
    var orig := OriginalIndices(tgt, n);
    OriginalIndicesEntries(tgt, n);
    forall a, b | 0 <= a < b < |orig|
      ensures orig[a] < orig[b]
    {
      if orig[b] <= orig[a] {
        KeptBeforeMonotone(tgt, orig[b], orig[a]);
      }
    }
    forall p | 0 <= p < n && p !in tgt
      ensures p in orig
    {
      OriginalIndicesComplete(tgt, n, p);
    }
  }

  /** The first and the last of the f + |sel| positions are kept. */
  lemma {:induction false} KeptEnds(f: nat, sel: seq<nat>)
    requires ValidSelection(f, sel)
    ensures |OriginalIndices(TargetIndices(sel), f + |sel|)| == f
    ensures 0 < f ==> OriginalIndices(TargetIndices(sel), f + |sel|)[0] == 0
    ensures 0 < f ==> OriginalIndices(TargetIndices(sel), f + |sel|)[f - 1] == f + |sel| - 1
  {
    var tgt, n := TargetIndices(sel), f + |sel|;
    var orig := OriginalIndices(tgt, n);
    KeptCount(f, sel);
    if 0 < f {
      TargetsSpread(f, sel);
      assert 0 !in tgt && n - 1 !in tgt;
      OriginalIndicesComplete(tgt, n, 0);
      OriginalIndicesComplete(tgt, n, n - 1);
      OriginalIndicesEntries(tgt, n);
      var a :| 0 <= a < f && orig[a] == 0;
      var b :| 0 <= b < f && orig[b] == n - 1;
      assert KeptBefore(tgt, n) == KeptBefore(tgt, n - 1) + 1;
    }
  }

  // ---------------------------------------------------------------------------
  // One inserted frame per iteration (`num_insert = 1`)

  /** With the single inserted position t, the m-th entry of `original_idx` below n is m
      for the positions before t and m + 1 for those after it. */
  lemma {:induction false} OriginalAroundGap(t: nat, n: nat)
    ensures |OriginalIndices([t], n)| == if t < n then n - 1 else n
    ensures forall m :: 0 <= m < |OriginalIndices([t], n)| ==>
      OriginalIndices([t], n)[m] == if m < t then m else m + 1
  {
    if n > 0 {
      OriginalAroundGap(t, n - 1);
      var prev := OriginalIndices([t], n - 1);
      if n - 1 != t {
        assert n - 1 !in [t];
        assert OriginalIndices([t], n) == prev + [n - 1];
      } else {
        assert n - 1 in [t];
      }
    }
  }

  /** `sorted(s + [x])` places x after the k entries of s that lie below it. */
  lemma {:induction false} SortedInsertAt(s: seq<nat>, x: nat, k: nat)
    requires k <= |s|
    requires forall j :: 0 <= j < k ==> s[j] < x
    requires forall j :: k <= j < |s| ==> x < s[j]
    ensures forall j :: 0 <= j < k ==> SortedInsert(s, x)[j] == s[j]
    ensures SortedInsert(s, x)[k] == x
    ensures forall j :: k < j <= |s| ==> SortedInsert(s, x)[j] == s[j - 1]
  {
    if k > 0 {
      SortedInsertAt(s[1..], x, k - 1);
      var r := SortedInsert(s, x);
      assert r == [s[0]] + SortedInsert(s[1..], x);
    }
  }

  /** The single inserted position t, strictly inside `range(n)`, finds its neighbours
      t - 1 and t + 1 in `search_idx`; no IndexError is raised. */
  lemma {:induction false} OneGapNeighbours(orig: seq<nat>, t: nat, n: nat)
    requires 1 <= t && t + 1 < n && |orig| == n - 1
    requires forall m :: 0 <= m < |orig| ==> orig[m] == if m < t then m else m + 1
    ensures Neighbours(orig, t) == Some((t - 1, t + 1))
  {
    SortedInsertAt(orig, t, t);
    var search := SortedInsert(orig, t);
    var find := IndexOf(search, t);
    assert PyIndex(search, find - 1) == t - 1;
  }

  /** The neighbours of the inserted position of a one-gap plan are its adjacent positions. */
  lemma {:induction false} PlannedNeighbours(f: nat, sel: seq<nat>)
    requires ValidSelection(f, sel) && |sel| == 1
    ensures var t := sel[0] + 1;
      Neighbours(OriginalIndices(TargetIndices(sel), f + |sel|), t) == Some((t - 1, t + 1))
  {
    var t := sel[0] + 1;
    assert TargetIndices(sel) == [t];
    OriginalAroundGap(t, f + 1);
    OneGapNeighbours(OriginalIndices(TargetIndices(sel), f + |sel|), t, f + 1);
  }

  /** Two neighbours one step away on each side weigh one half each. */
  lemma HalfWeights(i: nat)
    requires 1 <= i
    ensures Weights(i - 1, i, i + 1) == (0.5, 0.5)
  {
    assert (i + 1 - (i - 1)) as real == 2.0;
    assert (i + 1 - i) as real == 1.0 && (i - (i - 1)) as real == 1.0;
  }

  /** One position of the rebuilt lists: `prompt_after_inner[i]`, `x_temp[i]` and
      `text_embeddings_temp[i]`, which the loop appends in lockstep. */
  datatype Frame<N, E> = Frame(prompt: string, noise: N, emb: E)

  /** The old frames with x placed at position t. */
  function Spliced<N, E>(frames: seq<Frame<N, E>>, f: nat, t: nat, x: Frame<N, E>): (out: seq<Frame<N, E>>)
    requires t <= f <= |frames|
    ensures |out| == f + 1
  {
    frames[..t] + [x] + frames[t..f]
  }

  lemma SplicedAt<N, E>(frames: seq<Frame<N, E>>, f: nat, t: nat, x: Frame<N, E>, j: nat)
    requires t <= f <= |frames| && j <= f
    ensures |Spliced(frames, f, t, x)| == f + 1
    ensures Spliced(frames, f, t, x)[j] == if j < t then frames[j] else if j == t then x else frames[j - 1]
  {
  }

  /** A one-gap plan keeps the positions before the gap and shifts the rest up by one. */
  lemma {:induction false} OneGapPlan(f: nat, sel: seq<nat>)
    requires ValidSelection(f, sel) && |sel| == 1
    ensures Plan(f, sel).length == f + 1 && Plan(f, sel).tgt == [sel[0] + 1]
    ensures forall m :: 0 <= m < f ==> Plan(f, sel).orig[m] == if m <= sel[0] then m else m + 1
  {
    var t := sel[0] + 1;
    assert TargetIndices(sel) == [t];
    OriginalAroundGap(t, f + 1);
    assert Plan(f, sel).orig == OriginalIndices([t], f + 1);
  }

  /** Deleting the inserted position of the plan from the spliced frames gives back the
      old frames, in order, and the inserted position holds x. */
  lemma {:induction false} SplicedAtPlan<N, E>(f: nat, sel: seq<nat>, frames: seq<Frame<N, E>>,
                                               x: Frame<N, E>)
    requires ValidSelection(f, sel) && |sel| == 1 && f <= |frames|
    ensures |Spliced(frames, f, sel[0] + 1, x)| == Plan(f, sel).length
    ensures forall m :: 0 <= m < f ==> Spliced(frames, f, sel[0] + 1, x)[Plan(f, sel).orig[m]] == frames[m]
    ensures Spliced(frames, f, sel[0] + 1, x)[Plan(f, sel).tgt[0]] == x
  {
    var t := sel[0] + 1;
    OneGapPlan(f, sel);
    SplicedAt(frames, f, t, x, t);
    forall m | 0 <= m < f
      ensures Spliced(frames, f, t, x)[Plan(f, sel).orig[m]] == frames[m]
    {
      if m < t {
        SplicedAt(frames, f, t, x, m);
      } else {
        SplicedAt(frames, f, t, x, m + 1);
      }
    }
  }

  /**
   * The embedding of the inserted position i, reached with counter `prompt_i`: its
   * neighbours `pre_idx` and `next_idx` are looked up in `search_idx`, and the old
   * embeddings `prompt_i - 1` and `prompt_i` are blended with weights
   * `(next_idx - i) / length` and `(i - pre_idx) / length`, one half each when the
   * neighbours are i - 1 and i + 1.
   */
  method BlendAt<N, E>(orig: seq<nat>, i: nat, promptI: nat, frames: seq<Frame<N, E>>,
                       lerp: (real, E, real, E) -> E) returns (e: E)
    requires 1 <= i && Neighbours(orig, i) == Some((i - 1, i + 1))
    requires 1 <= promptI < |frames|
    ensures e == lerp(0.5, frames[promptI - 1].emb, 0.5, frames[promptI].emb)
  {
    var nb := Neighbours(orig, i);
    var pre, next := nb.value.0, nb.value.1;
    HalfWeights(i);
    var w := Weights(pre, i, next);
    e := lerp(w.0, frames[promptI - 1].emb, w.1, frames[promptI].emb);
  }

  /**
   * The inner `for i in range(tgt_video_length)` loop for the one selected gap g: kept
   * positions copy the next old prompt, noise frame and embedding (advancing `prompt_i`);
   * the inserted position g + 1 gets an empty prompt, the fresh noise `insertedNoise(g + 1)`
   * and the blend of the embeddings of its neighbours, `prompt_i - 1 == g` and
   * `prompt_i == g + 1`, weighted by their distances to it.
   */
  method Rebuild<N, E>(f: nat, sel: seq<nat>, frames: seq<Frame<N, E>>,
                       insertedNoise: nat -> N, lerp: (real, E, real, E) -> E)
    returns (out: seq<Frame<N, E>>)
    requires ValidSelection(f, sel) && |sel| == 1 && f <= |frames|
    // the new frame sits between the two old frames of the selected gap, one half of each
    ensures out == Spliced(frames, f, sel[0] + 1,
                           Frame("", insertedNoise(sel[0] + 1),
                                 lerp(0.5, frames[sel[0]].emb, 0.5, frames[sel[0] + 1].emb)))
    // deleting the inserted position gives back the old frames, in order
    ensures |out| == Plan(f, sel).length
    ensures forall m :: 0 <= m < f ==> out[Plan(f, sel).orig[m]] == frames[m]
  {
    var tgt, n := TargetIndices(sel), f + |sel|;
    var orig := OriginalIndices(tgt, n);
    ghost var t := sel[0] + 1;
    ghost var x := Frame("", insertedNoise(t), lerp(0.5, frames[t - 1].emb, 0.5, frames[t].emb));
    assert tgt == [t];
    ghost var target := Spliced(frames, f, t, x);
    out := [];
    var promptI := 0;
    var i := 0;
    while i < n
      invariant i <= n && promptI == (if i <= t then i else i - 1)
      invariant |out| == i && forall j :: 0 <= j < i ==> out[j] == target[j]
    {
      if i in tgt {
        assert i == t;
        PlannedNeighbours(f, sel);
        var e := BlendAt(orig, i, promptI, frames, lerp);
        SplicedAt(frames, f, t, x, i);
        out := out + [Frame("", insertedNoise(i), e)];
      } else {
        SplicedAt(frames, f, t, x, i);
        out := out + [frames[promptI]];
        promptI := promptI + 1;
      }
      i := i + 1;
    }
    assert out == target;
    SplicedAtPlan(f, sel, frames, x);
  }
}
