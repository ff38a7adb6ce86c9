/**
 * The denoising loop of a sampling run (`__call__`): for every timestep, the scheduler
 * step, the optional first-frame mask blend during the first ten steps, the progress and
 * callback policy, the attention controller's step callback, and the overwrite of the
 * fixed frames with stored latents.
 *
 * The latents are frame-indexed: element j of the array is frame j of the latent video
 * (the batch, channel and pixel dimensions are inside the opaque frame type L).  The UNet,
 * the guidance arithmetic and the scheduler are one parameter `step(i, latents, j)`, frame
 * j after step i; the controller's `step_callback(latents, inner_idx)` is `control`.
 */
module Denoising {
  import opened Wrappers

  /** The collaborators of one run and its optional inputs. */
  datatype Sampler<!L> = Sampler(
    step: (nat, seq<L>, nat) -> L,     // frame j after scheduler step i
    mask: Option<(L, L) -> L>,         // `mask[1] * frame0 + mask[0] * frame`, when a mask is given
    control: (seq<L>, seq<nat>, nat) -> L,  // frame j after `controller.step_callback(latents, inner_idx)`
    innerIdx: seq<nat>,                // `inner_idx`, the inserted frames the controller is told of
    fixed: Option<map<int, seq<L>>>,   // `fixed_latents`, keyed by step number
    fixedIdx: seq<nat>)                // `fixed_latents_idx`

  /** The progress and callback settings: `num_inference_steps`, `scheduler.order`, whether a
      callback is given, and `callback_steps`. */
  datatype Policy = Policy(numInference: nat, order: nat, hasCallback: bool, callbackSteps: nat)

  datatype StepError =
    | MissingFixedStep       // `fixed_latents[i + 1]` has no entry
    | FixedIndexOutOfRange   // a fixed frame index beyond the frames
    | FixedValueCount        // stored frames that neither match nor broadcast to the indices
    | MaskRepeatError        // `repeat('b c 1 h w -> ...')` on more than one frame

  /** The step at which the loop stopped, and why. */
  datatype Failure = Failure(step: nat, error: StepError)

  /** `num_warmup_steps = len(timesteps) - num_inference_steps * scheduler.order`. */
  function Warmup(T: nat, policy: Policy): int {
    T - policy.numInference * policy.order
  }

  /** Step i advances the progress bar: the last step, and every `order`-th step after the
      warm-up. */
  predicate UpdatesProgress(i: nat, T: nat, policy: Policy)
    requires policy.order >= 1
  {
    i == T - 1 || (i + 1 > Warmup(T, policy) && (i + 1) % policy.order == 0)
  }

  /** Step i calls the callback: it advances the progress bar and is a multiple of
      `callback_steps`. */
  predicate FiresCallback(i: nat, T: nat, policy: Policy)
    requires policy.order >= 1 && policy.callbackSteps > 0
  {
    UpdatesProgress(i, T, policy) && policy.hasCallback && i % policy.callbackSteps == 0
  }

  /** The step policy: during the warm-up only the last step advances the progress bar;
      the callback fires only on steps that advance it; with no warm-up and an order of 1
      every step advances it, and with `callback_steps == 1` a given callback fires on
      exactly those steps. */
  lemma StepPolicy(i: nat, T: nat, policy: Policy)
    requires policy.order >= 1 && policy.callbackSteps > 0
    ensures i + 1 <= Warmup(T, policy) && i != T - 1 ==> !UpdatesProgress(i, T, policy)
    ensures FiresCallback(i, T, policy) ==> UpdatesProgress(i, T, policy) && policy.hasCallback
    ensures policy.order == 1 && Warmup(T, policy) <= 0 ==> UpdatesProgress(i, T, policy)
    ensures policy.callbackSteps == 1 && policy.hasCallback ==>
      (FiresCallback(i, T, policy) <==> UpdatesProgress(i, T, policy))
  {
  }

  /** The steps among the first k that advance the progress bar, in order. */
  function ProgressSteps(k: nat, T: nat, policy: Policy): (steps: seq<nat>)
    requires policy.order >= 1
    ensures forall x :: x in steps ==> x < k && UpdatesProgress(x, T, policy)
    ensures forall x :: 0 <= x < k && UpdatesProgress(x, T, policy) ==> x in steps
    ensures forall a, b :: 0 <= a < b < |steps| ==> steps[a] < steps[b]
  {
    if k == 0 then []
    else
      var earlier := ProgressSteps(k - 1, T, policy);
      assert forall a :: 0 <= a < |earlier| ==> earlier[a] in earlier;
      earlier + (if UpdatesProgress(k - 1, T, policy) then [k - 1] else [])
  }

  /** The steps among the first k that call the callback, in order. */
  function FiredSteps(k: nat, T: nat, policy: Policy): (steps: seq<nat>)
    requires policy.order >= 1 && policy.callbackSteps > 0
    ensures forall x :: x in steps ==> x < k && FiresCallback(x, T, policy)
    ensures forall x :: 0 <= x < k && FiresCallback(x, T, policy) ==> x in steps
    ensures forall a, b :: 0 <= a < b < |steps| ==> steps[a] < steps[b]
  {
    if k == 0 then []
    else
      var earlier := FiredSteps(k - 1, T, policy);
      assert forall a :: 0 <= a < |earlier| ==> earlier[a] in earlier;
      earlier + (if FiresCallback(k - 1, T, policy) then [k - 1] else [])
  }

  /** The callback only fires on steps that advance the progress bar, and the last step
      always advances it. */
  lemma {:induction false} CallbacksWithinProgress(k: nat, T: nat, policy: Policy)
    requires policy.order >= 1 && policy.callbackSteps > 0
    ensures forall x :: x in FiredSteps(k, T, policy) ==> x in ProgressSteps(k, T, policy)
    ensures 1 <= T <= k ==> T - 1 in ProgressSteps(k, T, policy)
  {
  }

  lemma {:induction false} MulAtLeast(k: nat, d: nat)
    requires k >= 1
    ensures k * d >= d
  {
    if k > 1 {
      MulAtLeast(k - 1, d);
      assert k * d == (k - 1) * d + d;
    }
  }

  /** The quotient and remainder of q * d + r are q and r, for 0 <= r < d. */
  lemma ModUnique(x: int, d: int, q: int, r: int)
    requires d >= 1 && x == q * d + r && 0 <= r < d
    ensures x % d == r && x / d == q
  {
    var q', r' := x / d, x % d;
    assert x == q' * d + r';
    if q > q' {
      assert (q - q') * d == q * d - q' * d;
      MulAtLeast(q - q', d);
    } else if q < q' {
      assert (q' - q) * d == q' * d - q * d;
      MulAtLeast(q' - q, d);
    }
  }

  /** With `len(timesteps) == num_inference_steps * order` (no warm-up), the first
      m * order + j steps (j < order) advance the progress bar m times. */
  lemma {:induction false} ProgressBlocks(m: nat, j: nat, T: nat, policy: Policy)
    requires policy.order >= 1 && j < policy.order && T == policy.numInference * policy.order
    requires m * policy.order + j <= T
    ensures |ProgressSteps(m * policy.order + j, T, policy)| == m
    decreases m, j
  {
    var d := policy.order;
    if j > 0 {
      var i := m * d + j - 1;
      ModUnique(i + 1, d, m, j);
      ModUnique(T, d, policy.numInference, 0);
      assert !UpdatesProgress(i, T, policy);
      ProgressBlocks(m, j - 1, T, policy);
    } else if m > 0 {
      var i := m * d - 1;
      ModUnique(i + 1, d, m, 0);
      assert UpdatesProgress(i, T, policy);
      assert m * d == (m - 1) * d + (d - 1) + 1;
      ProgressBlocks(m - 1, d - 1, T, policy);
    }
  }

  /** One more step adds one to the quotient exactly when it reaches a multiple of d. */
  lemma DivStep(k: nat, d: nat)
    requires d >= 1
    ensures (k + 1) / d == k / d + (if (k + 1) % d == 0 then 1 else 0)
  {
    var q, r := k / d, k % d;
    if r == d - 1 {
      ModUnique(k + 1, d, q + 1, 0);
    } else {
      ModUnique(k + 1, d, q, r + 1);
    }
  }

  /** The warm-up, counted from zero when the scheduler yields fewer timesteps than
      `num_inference_steps * order`. */
  function WarmupSteps(T: nat, policy: Policy): nat {
    if Warmup(T, policy) > 0 then Warmup(T, policy) else 0
  }

  /** Before the last step, the steps i < k that advance the bar are those whose i + 1 is a
      multiple of `order` past the warm-up: k / order of them, less those within it. */
  lemma {:induction false} ProgressBefore(k: nat, T: nat, policy: Policy)
    requires policy.order >= 1 && k < T
    ensures var w := WarmupSteps(T, policy);
      |ProgressSteps(k, T, policy)| == k / policy.order - (if k < w then k else w) / policy.order
  {
    if k > 0 {
      ProgressBefore(k - 1, T, policy);
      DivStep(k - 1, policy.order);
    }
  }

  /** Over a whole run, the last step advances the bar as well. */
  lemma ProgressTotal(T: nat, policy: Policy)
    requires policy.order >= 1 && T >= 1
    ensures var w := WarmupSteps(T, policy);
      |ProgressSteps(T, T, policy)| == (T - 1) / policy.order - (if T - 1 < w then T - 1 else w) / policy.order + 1
  {
    assert UpdatesProgress(T - 1, T, policy);
    ProgressBefore(T - 1, T, policy);
  }

  /** Without a positive warm-up, the step before the last has `num_inference_steps - 1`
      multiples of `order` at or below it. */
  lemma ShortWarmupQuotient(T: nat, policy: Policy)
    requires policy.order >= 1 && policy.numInference >= 1
    requires Warmup(T, policy) + policy.order > 0 && Warmup(T, policy) <= 0
    ensures T >= 1 && (T - 1) / policy.order == policy.numInference - 1
  {
    var d, n, w := policy.order, policy.numInference, Warmup(T, policy);
    assert (n - 1) * d == n * d - d;
    ModUnique(T - 1, d, n - 1, d + w - 1);
  }

  /** With a positive warm-up w, the step before the last has w / order + n multiples of
      `order` at or below it, one fewer when w is a multiple of `order`. */
  lemma LongWarmupQuotient(T: nat, policy: Policy)
    requires policy.order >= 1 && policy.numInference >= 1 && Warmup(T, policy) > 0
    ensures var d, w := policy.order, Warmup(T, policy);
      T >= 1 && (T - 1) / d == w / d + policy.numInference - (if w % d == 0 then 1 else 0)
  {
    var d, n, w := policy.order, policy.numInference, Warmup(T, policy);
    var a, b := w / d, w % d;
    assert w == a * d + b;
    if b == 0 {
      assert (n + a - 1) * d == n * d + a * d - d;
      ModUnique(T - 1, d, n + a - 1, d - 1);
    } else {
      assert (n + a) * d == n * d + a * d;
      ModUnique(T - 1, d, n + a, b - 1);
    }
  }

  /** The progress bar, created with `total=num_inference_steps`, is advanced exactly
      `num_inference_steps` times over a full run when the warm-up is shorter than one
      order (no warm-up, or the single missing timestep of second-order schedulers), and
      once more when a positive warm-up is not a multiple of the order. */
  lemma ProgressCount(T: nat, policy: Policy)
    requires policy.order >= 1 && Warmup(T, policy) + policy.order > 0
    ensures policy.numInference >= 1 ==>
      |ProgressSteps(T, T, policy)| == policy.numInference +
        (if Warmup(T, policy) > 0 && Warmup(T, policy) % policy.order != 0 then 1 else 0)
    ensures policy.numInference == 0 ==> |ProgressSteps(T, T, policy)| == if T == 0 then 0 else 1
  {
    if T > 0 {
      ProgressTotal(T, policy);
      if policy.numInference >= 1 {
        MulAtLeast(policy.numInference, policy.order);
        if Warmup(T, policy) <= 0 {
          ShortWarmupQuotient(T, policy);
        } else {
          LongWarmupQuotient(T, policy);
        }
      }
    }
  }

  /** The mask blend as written: `f_1 = latents[:, :, :1]`, then
      `mask[1] * f_1 + mask[0] * latents`, which keeps every frame, then
      `repeat(latents, 'b c 1 h w -> b c f h w')`, which accepts a single frame only. */
  function MaskBlendAsWritten<L>(s: seq<L>, blend: (L, L) -> L): (r: Result<seq<L>, StepError>)
    ensures r.Ok? <==> |s| == 1
    ensures r.Ok? ==> r.value == [blend(s[0], s[0])]
  {
    var mixed := seq(|s|, j requires 0 <= j < |s| => blend(s[0], s[j]));
    if |mixed| == 1 then Ok(seq(|s|, _ => mixed[0])) else Err(MaskRepeatError)
  }

  /** With two frames or more, the blend as written raises on its first step. */
  lemma MaskBlendAsWrittenFails<L>(s: seq<L>, blend: (L, L) -> L)
    requires |s| >= 2
    ensures MaskBlendAsWritten(s, blend) == Err(MaskRepeatError)
  {
  }

  /** The mask blend as intended: frame 0 is blended and the blended frame 0 is broadcast
      over all frames, so every frame is the same. */
  function MaskBlend<L>(s: seq<L>, blend: (L, L) -> L): (r: seq<L>)
    ensures |r| == |s|
    ensures forall j :: 0 <= j < |r| ==> r[j] == blend(s[0], s[0])
  {
    if s == [] then [] else seq(|s|, _ => blend(s[0], s[0]))
  }

  /** On a single frame, where the code as written does not raise, the two agree. */
  lemma MaskBlendAgreesOnOneFrame<L>(s: seq<L>, blend: (L, L) -> L)
    requires |s| == 1
    ensures MaskBlendAsWritten(s, blend) == Ok(MaskBlend(s, blend))
  {
  }

  /** The stored frames written to the indices: the same number, or one frame broadcast. */
  function ValuesFor<L>(idx: seq<nat>, vals: seq<L>): (w: seq<L>)
    requires |vals| == |idx| || |vals| == 1
    ensures |w| == |idx|
    ensures forall p :: 0 <= p < |idx| ==> w[p] == (if |vals| == |idx| then vals[p] else vals[0])
  {
    if |vals| == |idx| then vals else seq(|idx|, _ => vals[0])
  }

  predicate InRange(idx: seq<nat>, n: nat) {
    forall p :: 0 <= p < |idx| ==> idx[p] < n
  }

  /** `latents[:, :, idx] = vals`, the writes done in index order. */
  function Overwritten<L>(s: seq<L>, idx: seq<nat>, vals: seq<L>): (r: seq<L>)
    requires |vals| == |idx| && InRange(idx, |s|)
    ensures |r| == |s|
  {
    if idx == [] then s
    else
      var n := |idx| - 1;
      Overwritten(s, idx[..n], vals[..n])[idx[n] := vals[n]]
  }

  /** Frames not named by an index keep their value. */
  lemma {:induction false} OverwrittenOutside<L>(s: seq<L>, idx: seq<nat>, vals: seq<L>, j: nat)
    requires |vals| == |idx| && InRange(idx, |s|) && j < |s| && j !in idx
    ensures Overwritten(s, idx, vals)[j] == s[j]
  {
    if idx != [] {
      var n := |idx| - 1;
      assert j !in idx[..n];
      OverwrittenOutside(s, idx[..n], vals[..n], j);
    }
  }

  predicate Distinct(idx: seq<nat>) {
    forall p, q :: 0 <= p < q < |idx| ==> idx[p] != idx[q]
  }

  /** With distinct indices, the frame at idx[p] is vals[p]. */
  lemma {:induction false} OverwrittenAt<L>(s: seq<L>, idx: seq<nat>, vals: seq<L>, p: nat)
    requires |vals| == |idx| && InRange(idx, |s|) && Distinct(idx) && p < |idx|
    ensures Overwritten(s, idx, vals)[idx[p]] == vals[p]
  {
    var n := |idx| - 1;
    if p < n {
      assert idx[..n][p] == idx[p] && vals[..n][p] == vals[p];
      OverwrittenAt(s, idx[..n], vals[..n], p);
    }
  }

  /** Line 458 in place: the array ends as `Overwritten` of its old contents. */
  method OverwriteFrames<L>(a: array<L>, idx: seq<nat>, vals: seq<L>)
    requires |vals| == |idx| && InRange(idx, a.Length)
    modifies a
    ensures a[..] == Overwritten(old(a[..]), idx, vals)
  {
    var p := 0;
    while p < |idx|
      invariant p <= |idx| && a[..] == Overwritten(old(a[..]), idx[..p], vals[..p])
    {
      assert idx[..p + 1][..p] == idx[..p] && vals[..p + 1][..p] == vals[..p];
      a[idx[p]] := vals[p];
      p := p + 1;
    }
    assert idx[..p] == idx && vals[..p] == vals;
  }

  /** Why `latents[:, :, idx] = fixed[i + 1]` raises on a latent video of n frames, if it
      does: the entry is missing (the right-hand side is evaluated first), the stored
      frames neither match the indices in number nor broadcast from a single frame (torch
      checks the value's shape before the index bounds), or an index is past the frames. */
  function FixError<L>(n: nat, i: nat, fixed: map<int, seq<L>>, idx: seq<nat>): (e: Option<StepError>)
    ensures e.None? <==> i + 1 in fixed && InRange(idx, n) && (|fixed[i + 1]| == |idx| || |fixed[i + 1]| == 1)
  {
    if i + 1 !in fixed then Some(MissingFixedStep)
    else if |fixed[i + 1]| != |idx| && |fixed[i + 1]| != 1 then Some(FixedValueCount)
    else if !InRange(idx, n) then Some(FixedIndexOutOfRange)
    else None
  }

  /** `latents[:, :, fixed_latents_idx] = fixed_latents[i + 1]`, with its failure modes. */
  function FixFrames<L>(s: seq<L>, i: nat, sampler: Sampler<L>): (r: Result<seq<L>, StepError>)
    ensures sampler.fixed.None? ==> r == Ok(s)
    ensures r.Ok? ==> |r.value| == |s|
    // each error is raised exactly under its condition, in the order the indexing checks them
    ensures sampler.fixed.Some? ==> var fixed := sampler.fixed.value;
      (r == Err(MissingFixedStep) <==> i + 1 !in fixed) &&
      (r == Err(FixedValueCount) <==>
         i + 1 in fixed && |fixed[i + 1]| != |sampler.fixedIdx| && |fixed[i + 1]| != 1) &&
      (r == Err(FixedIndexOutOfRange) <==>
         i + 1 in fixed && (|fixed[i + 1]| == |sampler.fixedIdx| || |fixed[i + 1]| == 1) &&
         !InRange(sampler.fixedIdx, |s|))
    // and a store that fits is written
    ensures sampler.fixed.Some? ==> var fixed := sampler.fixed.value;
      (r.Ok? <==> i + 1 in fixed && InRange(sampler.fixedIdx, |s|) &&
                  (|fixed[i + 1]| == |sampler.fixedIdx| || |fixed[i + 1]| == 1))
    ensures sampler.fixed.Some? && r.Ok? ==>
      r.value == Overwritten(s, sampler.fixedIdx, ValuesFor(sampler.fixedIdx, sampler.fixed.value[i + 1]))
  {
    if sampler.fixed.None? then Ok(s)
    else
      match FixError(|s|, i, sampler.fixed.value, sampler.fixedIdx)
      case Some(e) => Err(e)
      case None => Ok(Overwritten(s, sampler.fixedIdx, ValuesFor(sampler.fixedIdx, sampler.fixed.value[i + 1])))
  }

  /** The scheduler step i, then the mask blend during the first ten steps: the latents
      the progress callback is handed. */
  function Stepped<L>(s: seq<L>, i: nat, sampler: Sampler<L>): (r: seq<L>)
    ensures |r| == |s|
  {
    var stepped := seq(|s|, j requires 0 <= j < |s| => sampler.step(i, s, j));
    if sampler.mask.Some? && i < 10 then MaskBlend(stepped, sampler.mask.value) else stepped
  }

  /** The controller's `step_callback(latents, inner_idx)`. */
  function Controlled<L>(s: seq<L>, sampler: Sampler<L>): (r: seq<L>)
    ensures |r| == |s|
  {
    seq(|s|, j requires 0 <= j < |s| => sampler.control(s, sampler.innerIdx, j))
  }

  /** Everything step i does before the fixed frames are written: the scheduler step, the
      mask blend during the first ten steps, and the controller's callback. */
  function Advance<L>(s: seq<L>, i: nat, sampler: Sampler<L>): (r: seq<L>)
    ensures |r| == |s|
  {
    Controlled(Stepped(s, i, sampler), sampler)
  }

  /** The latents after steps i .. T - 1, or the first step that raises. */
  function Run<L>(s: seq<L>, i: nat, T: nat, sampler: Sampler<L>): (r: Result<seq<L>, Failure>)
    ensures r.Ok? ==> |r.value| == |s|
    ensures r.Err? ==> i <= r.error.step < T
    decreases T - i
  {
    if i >= T then Ok(s)
    else
      match FixFrames(Advance(s, i, sampler), i, sampler)
      case Err(e) => Err(Failure(i, e))
      case Ok(next) => Run(next, i + 1, T, sampler)
  }

  /** One step of a run: the step raises, or the run goes on from its result. */
  lemma RunStep<L>(s: seq<L>, i: nat, T: nat, sampler: Sampler<L>)
    requires i < T
    ensures var r := FixFrames(Advance(s, i, sampler), i, sampler);
      Run(s, i, T, sampler) == if r.Err? then Err(Failure(i, r.error)) else Run(r.value, i + 1, T, sampler)
  {
  }

  /** A run without fixed latents never raises.  (The mask blend of this model is the
      corrected one, which cannot raise either.) */
  lemma {:induction false} RunTotal<L>(s: seq<L>, i: nat, T: nat, sampler: Sampler<L>)
    requires sampler.fixed.None?
    ensures Run(s, i, T, sampler).Ok?
    decreases T - i
  {
    if i < T {
      RunTotal(Advance(s, i, sampler), i + 1, T, sampler);
    }
  }

  /** The store holds, for every step from i + 1 to T, latents that fit the fixed indices
      of a video of n frames, and those indices lie within the frames. */
  predicate StoreFits<L>(n: nat, i: nat, T: nat, fixed: map<int, seq<L>>, idx: seq<nat>) {
    (i < T ==> InRange(idx, n)) &&
    forall j :: i < j <= T ==> j in fixed && (|fixed[j]| == |idx| || |fixed[j]| == 1)
  }

  /** The first step from i on whose fixed-frame overwrite raises on a video of n frames. */
  function FixedFailure<L>(n: nat, i: nat, T: nat, fixed: map<int, seq<L>>, idx: seq<nat>): (r: Option<Failure>)
    ensures r.None? <==> StoreFits(n, i, T, fixed, idx)
    ensures r.Some? ==> i <= r.value.step < T && FixError(n, r.value.step, fixed, idx) == Some(r.value.error)
    ensures r.Some? ==> forall j :: i <= j < r.value.step ==> FixError(n, j, fixed, idx).None?
    decreases T - i
  {
    if i >= T then None
    else
      match FixError(n, i, fixed, idx)
      case Some(e) => Some(Failure(i, e))
      case None => FixedFailure(n, i + 1, T, fixed, idx)
  }

  /** Whether a run with stored latents raises, and where, depends only on the frame count
      and the store: it stops at the first step whose overwrite does not fit. */
  lemma {:induction false} RunFailure<L>(s: seq<L>, i: nat, T: nat, sampler: Sampler<L>)
    requires sampler.fixed.Some?
    ensures var f := FixedFailure(|s|, i, T, sampler.fixed.value, sampler.fixedIdx);
      (Run(s, i, T, sampler).Err? <==> f.Some?) &&
      (f.Some? ==> Run(s, i, T, sampler).error == f.value)
    decreases T - i
  {
    if i < T {
      var next := FixFrames(Advance(s, i, sampler), i, sampler);
      if next.Ok? {
        RunFailure(next.value, i + 1, T, sampler);
      }
    }
  }

  /** After a successful run of at least one step with stored latents, the fixed frames
      hold the stored latents of the final step, `fixed_latents[T]`. */
  lemma {:induction false} FixedFramesAtEnd<L>(s: seq<L>, i: nat, T: nat, sampler: Sampler<L>, p: nat)
    requires i < T && sampler.fixed.Some? && Run(s, i, T, sampler).Ok?
    requires Distinct(sampler.fixedIdx) && p < |sampler.fixedIdx|
    ensures T in sampler.fixed.value
    ensures var vals := sampler.fixed.value[T];
      (|vals| == |sampler.fixedIdx| || |vals| == 1) &&
      sampler.fixedIdx[p] < |s| &&
      Run(s, i, T, sampler).value[sampler.fixedIdx[p]] == ValuesFor(sampler.fixedIdx, vals)[p]
    decreases T - i
  {
    var mid := Advance(s, i, sampler);
    var next := FixFrames(mid, i, sampler).value;
    if i + 1 == T {
      OverwrittenAt(mid, sampler.fixedIdx, ValuesFor(sampler.fixedIdx, sampler.fixed.value[T]), p);
    } else {
      FixedFramesAtEnd(next, i + 1, T, sampler, p);
    }
  }

  /** From the tenth step on, a mask changes nothing. */
  lemma MaskOnlyEarly<L>(s: seq<L>, i: nat, sampler: Sampler<L>)
    requires i >= 10
    ensures Advance(s, i, sampler) == Advance(s, i, sampler.(mask := None))
  {
  }

  /** During the first ten steps with a mask, every frame reaches the controller as the
      blended frame 0 of the scheduler's output. */
  lemma MaskedFramesIdentical<L>(s: seq<L>, i: nat, sampler: Sampler<L>, j: nat)
    requires i < 10 && sampler.mask.Some? && j < |s|
    ensures Stepped(s, i, sampler)[j] == sampler.mask.value(sampler.step(i, s, 0), sampler.step(i, s, 0))
  {
  }

  /** The scheduler step and the mask blend of step i, in place. */
  method StepFrames<L>(a: array<L>, i: nat, sampler: Sampler<L>)
    modifies a
    ensures a[..] == Stepped(old(a[..]), i, sampler)
  {
    var s := a[..];
    forall j | 0 <= j < a.Length {
      a[j] := sampler.step(i, s, j);
    }
    ghost var stepped := seq(|s|, j requires 0 <= j < |s| => sampler.step(i, s, j));
    assert a[..] == stepped;
    if sampler.mask.Some? && i < 10 && a.Length > 0 {
      var f0 := a[0];
      forall j | 0 <= j < a.Length {
        a[j] := sampler.mask.value(f0, f0);
      }
      assert a[..] == MaskBlend(stepped, sampler.mask.value);
    }
  }

  /** The controller's step callback, in place. */
  method ControlFrames<L>(a: array<L>, sampler: Sampler<L>)
    modifies a
    ensures a[..] == Controlled(old(a[..]), sampler)
  {
    var s := a[..];
    forall j | 0 <= j < a.Length {
      a[j] := sampler.control(s, sampler.innerIdx, j);
    }
  }

  /** The fixed-frame overwrite of step i in place, or the error it raises. */
  method FixFramesInPlace<L>(a: array<L>, i: nat, sampler: Sampler<L>) returns (err: Option<StepError>)
    modifies a
    ensures err.None? <==> FixFrames(old(a[..]), i, sampler).Ok?
    ensures err.None? ==> a[..] == FixFrames(old(a[..]), i, sampler).value
    ensures err.Some? ==> err.value == FixFrames(old(a[..]), i, sampler).error
  {
    err := None;
    if sampler.fixed.Some? {
      err := FixError(a.Length, i, sampler.fixed.value, sampler.fixedIdx);
      if err.None? {
        OverwriteFrames(a, sampler.fixedIdx, ValuesFor(sampler.fixedIdx, sampler.fixed.value[i + 1]));
      }
    }
  }

  /** The progress bar and callback of step i: the bar advances on the steps
      `UpdatesProgress` picks, and the callback fires on those that are multiples of
      `callback_steps`. */
  method Report(i: nat, T: nat, policy: Policy, progress: nat, fired: seq<nat>)
    returns (progress': nat, fired': seq<nat>)
    requires policy.order >= 1 && policy.callbackSteps > 0
    requires progress == |ProgressSteps(i, T, policy)| && fired == FiredSteps(i, T, policy)
    ensures progress' == |ProgressSteps(i + 1, T, policy)| && fired' == FiredSteps(i + 1, T, policy)
  {
    progress', fired' := progress, fired;
    if UpdatesProgress(i, T, policy) {
      progress' := progress + 1;
      if policy.hasCallback && i % policy.callbackSteps == 0 {
        fired' := fired + [i];
      }
    }
  }

  /**
   * The loop of `__call__` over T timesteps on the frame array `a`.  It ends with the
   * latents of `Run`, or stops at the first step that raises; `progress` counts the
   * progress-bar updates and `fired` lists the steps that called the callback, both over
   * the steps that ran (the failing step included, as its error comes last).
   */
  method Denoise<L>(a: array<L>, T: nat, sampler: Sampler<L>, policy: Policy)
    returns (failure: Option<Failure>, progress: nat, fired: seq<nat>)
    requires policy.order >= 1 && policy.callbackSteps > 0
    modifies a
    ensures failure.None? ==> Run(old(a[..]), 0, T, sampler) == Ok(a[..])
    ensures failure.Some? ==> Run(old(a[..]), 0, T, sampler) == Err(failure.value)
    ensures var ran := if failure.None? then T else failure.value.step + 1;
      progress == |ProgressSteps(ran, T, policy)| && fired == FiredSteps(ran, T, policy)
  {
    failure := None;
    progress, fired := 0, [];
    var i := 0;
    while i < T
      invariant i <= T
      invariant Run(old(a[..]), 0, T, sampler) == Run(a[..], i, T, sampler)
      invariant progress == |ProgressSteps(i, T, policy)| && fired == FiredSteps(i, T, policy)
    {
      ghost var before := a[..];
      RunStep(before, i, T, sampler);
      StepFrames(a, i, sampler);
      progress, fired := Report(i, T, policy, progress, fired);
      ControlFrames(a, sampler);
      var err := FixFramesInPlace(a, i, sampler);
      if err.Some? {
        failure := Some(Failure(i, err.value));
        return;
      }
      i := i + 1;
    }
  }
}
