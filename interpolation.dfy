/**
 * `interpolate_between_two_frames`: k times, find the pair of adjacent frames that differ
 * most, insert a new frame between them, and sample the longer video again with the kept
 * frames pinned to the attention controller's stored latents.
 *
 * A video is a sequence of frames of opaque type V, compared by the mean squared error
 * `mse`.  Each frame's conditioning (prompt, noise frame, text embedding) is a `Frame`.
 * The nested sampling run (`self(...)`) raises as the rest of this model says it does:
 * its prompt encoding and embedding override are those of `PromptEncoding`, its
 * fixed-frame overwrites those of `Denoising`; what else it does is given by parameters.
 */
module Interpolation {
  import opened Wrappers
  import opened InterpolationLayout
  import Inputs
  import PromptEncoding
  import Denoising
  import PipelineConfig

  /** The attention controller, reduced to the part the interpolation touches: its store
      of intermediate latents, one frame sequence per key. */
  class Controller<L> {
    var latentsStore: map<int, seq<L>>

    constructor (store: map<int, seq<L>>)
      ensures latentsStore == store
    {
      latentsStore := store;
    }

    /** `for key, value in inner_step.items(): inner_step[key] = value[:, :, where]`,
        through the alias `inner_step = self.controller.latents_store`. */
    method RestrictToFrames(where: seq<nat>)
      requires forall key :: key in latentsStore ==> InRangeOf(where, latentsStore[key])
      modifies this
      ensures latentsStore == Restricted(old(latentsStore), where)
    {
      // every entry is rewritten, each on its own, as the loop over the items does
      latentsStore := map key | key in latentsStore :: Select(latentsStore[key], where);
    }
  }

  predicate InRangeOf<L>(where: seq<nat>, s: seq<L>) {
    forall p :: 0 <= p < |where| ==> where[p] < |s|
  }

  /** `value[:, :, where]`: the frames at the given positions, in that order. */
  function Select<L>(s: seq<L>, where: seq<nat>): (r: seq<L>)
    requires InRangeOf(where, s)
    ensures |r| == |where| && forall p :: 0 <= p < |where| ==> r[p] == s[where[p]]
  {
    seq(|where|, p requires 0 <= p < |where| => s[where[p]])
  }

  /** Every stored frame sequence restricted to the given positions. */
  function Restricted<L>(store: map<int, seq<L>>, where: seq<nat>): (r: map<int, seq<L>>)
    requires forall key :: key in store ==> InRangeOf(where, store[key])
    ensures r.Keys == store.Keys
    ensures forall key :: key in r ==> r[key] == Select(store[key], where)
  {
    map key | key in store :: Select(store[key], where)
  }

  /** `dist_list`: the mean squared error between each frame and the one before it. */
  method AdjacentDistances<V>(samples: seq<V>, mse: (V, V) -> real) returns (dist: seq<real>)
    ensures |dist| == if |samples| == 0 then 0 else |samples| - 1
    ensures forall i :: 0 <= i < |dist| ==> dist[i] == mse(samples[i + 1], samples[i])
  {
    dist := [];
    if |samples| == 0 {
      return;
    }
    var i := 0;
    while i < |samples| - 1
      invariant i == |dist| && i <= |samples| - 1
      invariant forall j :: 0 <= j < i ==> dist[j] == mse(samples[j + 1], samples[j])
    {
      dist := dist + [mse(samples[i + 1], samples[i])];
      i := i + 1;
    }
  }

  /** `torch.topk(dist, k=1)`: an index of a largest distance, or None where `topk`
      raises because there is no distance at all. */
  method Top1(dist: seq<real>) returns (g: Option<nat>)
    ensures g.None? <==> dist == []
    ensures g.Some? ==> g.value < |dist| && forall j :: 0 <= j < |dist| ==> dist[j] <= dist[g.value]
  {
    if dist == [] {
      return None;
    }
    var best := 0;
    var i := 1;
    while i < |dist|
      invariant best < i <= |dist|
      invariant forall j :: 0 <= j < i ==> dist[j] <= dist[best]
    {
      if dist[i] > dist[best] {
        best := i;
      }
      i := i + 1;
    }
    return Some(best);
  }

  /** The arguments of one sampling run: the frames' conditioning (its length is
      `tgt_video_length`), `inner_idx`, the copy of the store passed as `fixed_latents`,
      and `fixed_latents_idx`. */
  datatype SamplerCall<N, E, L> = SamplerCall(frames: seq<Frame<N, E>>, innerIdx: seq<nat>,
                                              fixed: map<int, seq<L>>, fixedIdx: seq<nat>)

  /** What the interpolation is given besides its frames: the distance between frames,
      the fresh noise of each inserted frame, the blend of two embeddings, the arguments
      it passes on to every nested run, and what a nested run does beyond this model. */
  datatype Setting<!V, !N, !E, !L> = Setting(
    mse: (V, V) -> real,                                // `mse_loss` of two frames
    noise: (nat, nat) -> N,                             // the noise frame inserted at iteration t, position i
    lerp: (real, E, real, E) -> E,                      // `w * e + w' * e'` on text embeddings
    guidance: bool,                                     // `guidance_scale > 1.0`
    videosPerPrompt: nat,                               // `num_videos_per_prompt`
    negative: string,                                   // `negative_prompt`, repeated once per frame
    encode: string -> E,                                // the text encoder
    steps: nat,                                         // `len(timesteps)` of the nested run
    height: Option<int>,                                // `height`, as passed on (None by default)
    width: Option<int>,                                 // `width`, as passed on (None by default)
    sampleSize: int,                                    // `unet.config.sample_size`
    scale: nat,                                         // `vae_scale_factor`
    callbackSteps: Inputs.CallbackSteps,                // `callback_steps`, as passed on
    latentsRejected: SamplerCall<N, E, L> -> bool,      // `prepare_latents` raises
    video: (SamplerCall<N, E, L>, nat) -> V,            // frame j of the video the run returns
    storeAfter: SamplerCall<N, E, L> -> map<int, seq<L>>)  // the controller's store the run leaves

  /** The video a nested run returns, frame by frame. */
  function Rendered<V, N, E, L>(call: SamplerCall<N, E, L>, video: (SamplerCall<N, E, L>, nat) -> V): (v: seq<V>)
    ensures |v| == |call.frames| && forall j :: 0 <= j < |v| ==> v[j] == video(call, j)
  {
    seq(|call.frames|, j requires 0 <= j < |call.frames| => video(call, j))
  }

  /** The prompt list of a nested run, `prompt_temp`: one prompt per frame. */
  function NestedPrompts<N, E, L>(call: SamplerCall<N, E, L>): (p: Inputs.Prompt)
    ensures p.Texts? && |p.texts| == |call.frames|
    ensures forall j :: 0 <= j < |call.frames| ==> p.texts[j] == call.frames[j].prompt
  {
    Inputs.Texts(seq(|call.frames|, j requires 0 <= j < |call.frames| => call.frames[j].prompt))
  }

  /** The text embeddings of a nested run: `_encode_prompt` of the frames' prompts with
      the negative prompt repeated once per frame, then
      `text_embeddings[tgt_video_length:] = init_text_embedding` with the frames'
      embeddings. */
  function NestedEmbeddings<V, N, E, L>(call: SamplerCall<N, E, L>, s: Setting<V, N, E, L>)
    : Result<seq<E>, PromptEncoding.EncodeError>
  {
    var m := |call.frames|;
    var negatives := Inputs.Texts(seq(m, _ => s.negative));
    match PromptEncoding.EncodePrompt(NestedPrompts(call), s.videosPerPrompt, s.guidance, Some(negatives), s.encode)
    case Err(e) => Err(e)
    case Ok(rows) => PromptEncoding.OverrideTail(rows, m, seq(m, j requires 0 <= j < m => call.frames[j].emb))
  }

  lemma {:induction false} MulCases(m: nat, n: nat)
    requires m >= 1
    ensures m * n == m <==> n == 1
    ensures m * n == 2 * m <==> n == 2
  {
    if n >= 3 {
      assert m * n == m * (n - 3) + 3 * m;
      assert m * (n - 3) >= 0;
    }
  }

  /** The override of a nested run of two frames or more fits exactly when guidance is on
      with one video per prompt, or off with two: otherwise the slice
      `text_embeddings[tgt_video_length:]` does not have one row per frame and the
      assignment raises.  Under guidance with one video per prompt, the conditional rows
      become exactly the frames' embeddings. */
  lemma {:induction false} NestedEmbeddingsFit<V, N, E, L>(call: SamplerCall<N, E, L>, s: Setting<V, N, E, L>)
    requires |call.frames| >= 2
    ensures NestedEmbeddings(call, s).Ok? <==>
      (s.guidance && s.videosPerPrompt == 1) || (!s.guidance && s.videosPerPrompt == 2)
    ensures NestedEmbeddings(call, s).Err? ==> NestedEmbeddings(call, s).error == PromptEncoding.EmbeddingShapeError
    ensures s.guidance && s.videosPerPrompt == 1 ==>
      var m := |call.frames|;
      |NestedEmbeddings(call, s).value| == 2 * m &&
      forall j :: 0 <= j < m ==> NestedEmbeddings(call, s).value[m + j] == call.frames[j].emb
  {
    var m, n := |call.frames|, s.videosPerPrompt;
    var prompts := NestedPrompts(call);
    var negatives := Inputs.Texts(seq(m, _ => s.negative));
    var embs := seq(m, j requires 0 <= j < m => call.frames[j].emb);
    assert PromptEncoding.UncondTokens(prompts, Some(negatives)).Ok?;
    var rows := PromptEncoding.EncodePrompt(prompts, n, s.guidance, Some(negatives), s.encode).value;
    MulCases(m, n);
    if s.guidance {
      assert |rows| == 2 * (m * n);
    } else {
      assert |rows| == m * n;
    }
    if s.guidance && n == 1 {
      var r := PromptEncoding.OverrideTail(rows, m, embs);
      assert r.Ok? && r.value[m..] == embs;
      assert forall j :: 0 <= j < m ==> r.value[m + j] == r.value[m..][j];
    }
  }

  /** How a nested run raises, in the order `__call__` meets them: rejected by
      `check_inputs`, by the prompt encoding or the embedding override, by
      `prepare_latents`, or at the first step whose `fixed_latents[i + 1]` does not fit
      (`Denoising.RunFailure` shows that this, and only this, is where its denoising loop
      raises). */
  datatype NestedError =
    | InputsRejected(input: Inputs.InputError)
    | EmbeddingError(encoding: PromptEncoding.EncodeError)
    | LatentsRejected
    | FixedFramesError(failure: Denoising.Failure)

  /** Whether a nested run raises, and with which error. */
  function NestedOutcome<V, N, E, L>(call: SamplerCall<N, E, L>, s: Setting<V, N, E, L>): Option<NestedError> {
    var height := PipelineConfig.ResolveSize(s.height, s.sampleSize, s.scale);
    var width := PipelineConfig.ResolveSize(s.width, s.sampleSize, s.scale);
    match Inputs.CheckInputs(NestedPrompts(call), height, width, s.callbackSteps, Some(|call.frames|))
    case Some(e) => Some(InputsRejected(e))
    case None =>
      match NestedEmbeddings(call, s)
      case Err(e) => Some(EmbeddingError(e))
      case Ok(_) =>
        if s.latentsRejected(call) then Some(LatentsRejected)
        else
          match Denoising.FixedFailure(|call.frames|, 0, s.steps, call.fixed, call.fixedIdx)
          case Some(f) => Some(FixedFramesError(f))
          case None => None
  }

  /** A nested run gets one prompt per noise frame (`prompt_temp` and `x_noise` are built
      side by side), so `check_inputs` never reports a prompt/frame mismatch for it: it
      rejects the run exactly when the size the run resolves (a missing or zero size falls
      back to `sample_size * vae_scale_factor`) or `callback_steps` is invalid.  With the
      default size left to the fallback and a scale factor that is a multiple of 8, only
      `callback_steps` can be. */
  lemma NestedPromptsMatch<V, N, E, L>(call: SamplerCall<N, E, L>, s: Setting<V, N, E, L>)
    ensures NestedOutcome(call, s) != Some(InputsRejected(Inputs.PromptFrameMismatch))
    ensures var height := PipelineConfig.ResolveSize(s.height, s.sampleSize, s.scale);
      var width := PipelineConfig.ResolveSize(s.width, s.sampleSize, s.scale);
      NestedOutcome(call, s).Some? && NestedOutcome(call, s).value.InputsRejected? <==>
        !(Inputs.DivisibleBy8(height) && Inputs.DivisibleBy8(width) &&
          s.callbackSteps.IntSteps? && s.callbackSteps.n > 0)
    ensures (s.height.None? || s.height == Some(0)) && (s.width.None? || s.width == Some(0)) && s.scale % 8 == 0
      ==> (NestedOutcome(call, s).Some? && NestedOutcome(call, s).value.InputsRejected? <==>
         !(s.callbackSteps.IntSteps? && s.callbackSteps.n > 0))
  {
    if s.scale % 8 == 0 {
      var q := s.scale / 8;
      assert s.scale == 8 * q;
      assert s.sampleSize * s.scale == 8 * (s.sampleSize * q);
      assert Inputs.Times8(s.sampleSize * q) == s.sampleSize * s.scale;
    }
  }

  /** How each nested run ends; for the interpolation, `NestedOutcome`. */
  type Outcomes<!N, !E, !L> = SamplerCall<N, E, L> -> Option<NestedError>

  function RunOutcomes<V, N, E, L>(s: Setting<V, N, E, L>): Outcomes<N, E, L> {
    call => NestedOutcome(call, s)
  }

  /** The inserted and the pinned positions of a call split its frames, one inserted
      position strictly inside, the first and the last frame pinned. */
  predicate WellLaidOut<N, E, L>(c: SamplerCall<N, E, L>) {
    var n := |c.frames|;
    |c.innerIdx| == 1 && 1 <= c.innerIdx[0] && c.innerIdx[0] + 1 < n &&
    |c.fixedIdx| == n - 1 && Increasing(c.fixedIdx) &&
    (forall p :: 0 <= p < |c.fixedIdx| ==> c.fixedIdx[p] < n) &&
    (forall x :: 0 <= x < n ==> (x in c.innerIdx <==> x !in c.fixedIdx)) &&
    c.fixedIdx[0] == 0 && c.fixedIdx[n - 2] == n - 1
  }

  /** The first nested run gets the store cut down to the frames `where`, so every entry
      has |where| frames: its overwrites fit exactly when the store holds an entry for
      every step and `where` names one frame per pinned frame, or a single frame. */
  lemma {:induction false} FirstRunStore<N, E, L>(call: SamplerCall<N, E, L>, store: map<int, seq<L>>,
                                                  where: seq<nat>, T: nat)
    requires WellLaidOut(call)
    requires forall key :: key in store ==> InRangeOf(where, store[key])
    requires call.fixed == Restricted(store, where)
    ensures Denoising.FixedFailure(|call.frames|, 0, T, call.fixed, call.fixedIdx).None? <==>
      T == 0 || ((forall j :: 1 <= j <= T ==> j in store) && (|where| == |call.frames| - 1 || |where| == 1))
  {
    var n, fixed, idx := |call.frames|, call.fixed, call.fixedIdx;
    assert Denoising.InRange(idx, n);
    if Denoising.StoreFits(n, 0, T, fixed, idx) && T > 0 {
      assert 1 in fixed && |fixed[1]| == |where|;
    }
    if T > 0 && (forall j :: 1 <= j <= T ==> j in store) && (|where| == n - 1 || |where| == 1) {
      forall j | 0 < j <= T
        ensures j in fixed && (|fixed[j]| == |idx| || |fixed[j]| == 1)
      {
        assert |fixed[j]| == |Select(store[j], where)|;
      }
    }
  }

  datatype InterpolationError =
    | TooFewFrames                        // `topk` over no distance: fewer than two frames
    | MissingConditioning                 // fewer prompts, noise frames or embeddings than frames
    | NestedRunFailed(error: NestedError) // the nested sampling run raised

  /** `f` frames sit at increasing positions of a longer sequence. */
  ghost predicate EmbeddedAt<T>(small: seq<T>, big: seq<T>, pos: seq<nat>) {
    |pos| == |small| && Increasing(pos) &&
    (forall m :: 0 <= m < |pos| ==> pos[m] < |big| && big[pos[m]] == small[m])
  }

  /** The positions `pos` followed through `orig`. */
  function Compose(orig: seq<nat>, pos: seq<nat>): (r: seq<nat>)
    requires forall m :: 0 <= m < |pos| ==> pos[m] < |orig|
    ensures |r| == |pos| && forall m :: 0 <= m < |pos| ==> r[m] == orig[pos[m]]
  {
    seq(|pos|, m requires 0 <= m < |pos| => orig[pos[m]])
  }

  /** Following an increasing map into a longer sequence keeps an embedding. */
  lemma {:induction false} EmbeddingStep<T>(small: seq<T>, mid: seq<T>, big: seq<T>, pos: seq<nat>,
                                            orig: seq<nat>)
    requires EmbeddedAt(small, mid, pos)
    requires |orig| == |mid| && Increasing(orig)
    requires forall j :: 0 <= j < |mid| ==> orig[j] < |big| && big[orig[j]] == mid[j]
    ensures EmbeddedAt(small, big, Compose(orig, pos))
  {
  }

  /** The frame inserted into gap g: an empty prompt, fresh noise and one half of each
      neighbour's embedding. */
  function NewFrame<V, N, E, L>(frames: seq<Frame<N, E>>, g: nat, s: Setting<V, N, E, L>, t: nat): Frame<N, E>
    requires g + 1 < |frames|
  {
    Frame("", s.noise(t, g + 1), s.lerp(0.5, frames[g].emb, 0.5, frames[g + 1].emb))
  }

  /** One iteration's layout and rebuild: the plan for gap g and the new frames. */
  method Insert<V, N, E, L>(f: nat, g: nat, frames: seq<Frame<N, E>>, fixed: map<int, seq<L>>,
                            s: Setting<V, N, E, L>, t: nat)
    returns (call: SamplerCall<N, E, L>, ghost orig: seq<nat>)
    requires g + 1 < f <= |frames|
    ensures call.fixed == fixed && |call.frames| == f + 1 && WellLaidOut(call)
    ensures call.innerIdx == [g + 1] && orig == call.fixedIdx
    ensures call.frames == Spliced(frames, f, g + 1, NewFrame(frames, g, s, t))
    ensures forall j :: 0 <= j < f ==> call.frames[orig[j]] == frames[j]
    ensures call.frames[g + 1] == NewFrame(frames, g, s, t)
  {
    var sel := [g];
    assert ValidSelection(f, sel);
    var plan := Plan(f, sel);
    assert plan.tgt == [g + 1];
    var out := Rebuild(f, sel, frames, i => s.noise(t, i), s.lerp);
    SplicedAt(frames, f, g + 1, NewFrame(frames, g, s, t), g + 1);
    call := SamplerCall(out, plan.tgt, fixed, plan.orig);
    orig := plan.orig;
  }

  /**
   * One pass of the `while` body, iteration t: the distances between adjacent frames,
   * the widest gap g (`torch.topk`), and the rebuilt conditioning with a frame inserted
   * at g + 1.  It raises when there is no gap (fewer than two frames) or when the
   * conditioning runs out before the frames do.
   */
  method Iteration<V, N, E, L>(samples: seq<V>, frames: seq<Frame<N, E>>, fixed: map<int, seq<L>>,
                               s: Setting<V, N, E, L>, t: nat)
    returns (r: Result<SamplerCall<N, E, L>, InterpolationError>, g: nat, ghost orig: seq<nat>)
    ensures r.Err? <==> |samples| < 2 || |frames| < |samples|
    ensures r.Err? ==> r.error == if |samples| < 2 then TooFewFrames else MissingConditioning
    ensures r.Ok? ==> var call := r.value;
      call.fixed == fixed && |call.frames| == |samples| + 1 && WellLaidOut(call) &&
      // the frame is inserted into a gap of largest distance
      g + 1 < |samples| && call.innerIdx == [g + 1] &&
      (forall j :: 0 <= j && j + 1 < |samples| ==> s.mse(samples[j + 1], samples[j]) <= s.mse(samples[g + 1], samples[g])) &&
      // with an empty prompt, fresh noise and the mean of its neighbours' embeddings
      call.frames == Spliced(frames, |samples|, g + 1, NewFrame(frames, g, s, t)) &&
      call.frames[g + 1] == Frame("", s.noise(t, g + 1), s.lerp(0.5, frames[g].emb, 0.5, frames[g + 1].emb)) &&
      // and the old frames keep their order at the kept positions
      orig == call.fixedIdx &&
      (forall j :: 0 <= j < |samples| ==> call.frames[orig[j]] == frames[j])
    ensures r.Ok? ==> Builds(r.value, samples, frames, fixed, s, t)
  {
    g, orig := 0, [];
    var f := |samples|;
    var dist := AdjacentDistances(samples, s.mse);
    var top := Top1(dist);
    if top.None? {
      return Err(TooFewFrames), g, orig;
    }
    if |frames| < f {
      return Err(MissingConditioning), g, orig;
    }
    g := top.value;
    var call;
    call, orig := Insert(f, g, frames, fixed, s, t);
    assert call.innerIdx[0] - 1 == g;
    r := Ok(call);
  }

  /** `call` is what iteration t builds from the video `samples`, its conditioning
      `frames` and the store `fixed`: one frame more, inserted into a gap of largest
      distance, and the old frames around it. */
  ghost predicate Builds<V, N, E, L>(call: SamplerCall<N, E, L>, samples: seq<V>, frames: seq<Frame<N, E>>,
                                     fixed: map<int, seq<L>>, s: Setting<V, N, E, L>, t: nat)
  {
    WellLaidOut(call) && |call.frames| == |samples| + 1 && |samples| <= |frames| && call.fixed == fixed &&
    var g := call.innerIdx[0] - 1;
    (forall j :: 0 <= j && j + 1 < |samples| ==> s.mse(samples[j + 1], samples[j]) <= s.mse(samples[g + 1], samples[g])) &&
    call.frames == Spliced(frames, |samples|, g + 1, NewFrame(frames, g, s, t))
  }

  /** The store the next call gets: `first` for the first call, and afterwards the store
      the previous run left. */
  function NextStore<N, E, L>(calls: seq<SamplerCall<N, E, L>>, first: map<int, seq<L>>,
                              storeAfter: SamplerCall<N, E, L> -> map<int, seq<L>>): map<int, seq<L>>
  {
    if calls == [] then first else storeAfter(calls[|calls| - 1])
  }

  /** The video the next iteration starts from: `samples0`, or the last run's video. */
  function LastVideo<V, N, E, L>(calls: seq<SamplerCall<N, E, L>>, samples0: seq<V>, s: Setting<V, N, E, L>): seq<V> {
    if calls == [] then samples0 else Rendered(calls[|calls| - 1], s.video)
  }

  /** The conditioning the next iteration starts from: `frames0`, or the last call's. */
  function LastFrames<N, E, L>(calls: seq<SamplerCall<N, E, L>>, frames0: seq<Frame<N, E>>): seq<Frame<N, E>> {
    if calls == [] then frames0 else calls[|calls| - 1].frames
  }

  /** Call t of an interpolation from `samples0` and `frames0`: the run before it
      succeeded, and it is built from that run's video and its call's conditioning (the
      start, for t == 0), given the store `first` (t == 0) or the store that run left. */
  ghost predicate Linked<V, N, E, L>(calls: seq<SamplerCall<N, E, L>>, samples0: seq<V>, frames0: seq<Frame<N, E>>,
                                     first: map<int, seq<L>>,
                                     s: Setting<V, N, E, L>, outcome: Outcomes<N, E, L>, t: nat)
  {
    t < |calls| && |calls[t].frames| == |samples0| + t + 1 &&
    (0 < t ==> outcome(calls[t - 1]).None?) &&
    Builds(calls[t],
           if t == 0 then samples0 else Rendered(calls[t - 1], s.video),
           if t == 0 then frames0 else calls[t - 1].frames,
           if t == 0 then first else s.storeAfter(calls[t - 1]), s, t)
  }

  /** The calls of an interpolation, each linked to the one before. */
  ghost predicate Chain<V, N, E, L>(calls: seq<SamplerCall<N, E, L>>, samples0: seq<V>, frames0: seq<Frame<N, E>>,
                                    first: map<int, seq<L>>, s: Setting<V, N, E, L>, outcome: Outcomes<N, E, L>)
  {
    forall t: nat :: t < |calls| ==> Linked(calls, samples0, frames0, first, s, outcome, t)
  }

  /** Every nested run of the calls succeeded. */
  predicate NestedRunsSucceed<N, E, L>(calls: seq<SamplerCall<N, E, L>>, outcome: Outcomes<N, E, L>) {
    forall t :: 0 <= t < |calls| ==> outcome(calls[t]).None?
  }

  /** Call t of a chain, spelled out: one frame more than the video before it, a frame
      inserted into a gap of largest distance of that video, the old conditioning kept
      around it, and the store of the run before. */
  lemma ChainAt<V, N, E, L>(calls: seq<SamplerCall<N, E, L>>, samples0: seq<V>, frames0: seq<Frame<N, E>>,
                            first: map<int, seq<L>>, s: Setting<V, N, E, L>, outcome: Outcomes<N, E, L>, t: nat)
    requires Chain(calls, samples0, frames0, first, s, outcome) && t < |calls|
    ensures |calls[t].frames| == |samples0| + t + 1 && WellLaidOut(calls[t])
    ensures var prev := if t == 0 then samples0 else Rendered(calls[t - 1], s.video);
      var frames := if t == 0 then frames0 else calls[t - 1].frames;
      var g := calls[t].innerIdx[0] - 1;
      calls[t].innerIdx == [g + 1] && 0 <= g && g + 1 < |prev| <= |frames| &&
      (forall j :: 0 <= j && j + 1 < |prev| ==> s.mse(prev[j + 1], prev[j]) <= s.mse(prev[g + 1], prev[g])) &&
      calls[t].frames == Spliced(frames, |prev|, g + 1,
                                 Frame("", s.noise(t, g + 1), s.lerp(0.5, frames[g].emb, 0.5, frames[g + 1].emb))) &&
      calls[t].fixed == (if t == 0 then first else s.storeAfter(calls[t - 1])) &&
      (0 < t ==> outcome(calls[t - 1]).None?)
  {
    assert Linked(calls, samples0, frames0, first, s, outcome, t);
    var prev := if t == 0 then samples0 else Rendered(calls[t - 1], s.video);
    var frames := if t == 0 then frames0 else calls[t - 1].frames;
    assert Builds(calls[t], prev, frames, if t == 0 then first else s.storeAfter(calls[t - 1]), s, t);
  }

  /** In a chain every nested run but the last succeeded, so all of them did exactly
      when the last one did. */
  lemma ChainSucceeds<V, N, E, L>(calls: seq<SamplerCall<N, E, L>>, samples0: seq<V>,
                                  frames0: seq<Frame<N, E>>, first: map<int, seq<L>>,
                                  s: Setting<V, N, E, L>, outcome: Outcomes<N, E, L>)
    requires Chain(calls, samples0, frames0, first, s, outcome)
    ensures forall t :: 0 <= t < |calls| - 1 ==> outcome(calls[t]).None?
    ensures NestedRunsSucceed(calls, outcome) <==> calls == [] || outcome(calls[|calls| - 1]).None?
  {
    forall t | 0 <= t < |calls| - 1
      ensures outcome(calls[t]).None?
    {
      assert Linked(calls, samples0, frames0, first, s, outcome, t + 1);
    }
  }

  /** A chain grows by a call built from the last run's video, given the next store. */
  lemma ChainSnoc<V, N, E, L>(calls: seq<SamplerCall<N, E, L>>, call: SamplerCall<N, E, L>, samples0: seq<V>,
                              frames0: seq<Frame<N, E>>, first: map<int, seq<L>>,
                              s: Setting<V, N, E, L>, outcome: Outcomes<N, E, L>)
    requires Chain(calls, samples0, frames0, first, s, outcome)
    requires |call.frames| == |samples0| + |calls| + 1
    requires calls != [] ==> outcome(calls[|calls| - 1]).None?
    requires Builds(call, LastVideo(calls, samples0, s), LastFrames(calls, frames0),
                    NextStore(calls, first, s.storeAfter), s, |calls|)
    ensures Chain(calls + [call], samples0, frames0, first, s, outcome)
  {
    var longer := calls + [call];
    forall t: nat | t < |longer|
      ensures Linked(longer, samples0, frames0, first, s, outcome, t)
    {
      if t < |calls| {
        assert Linked(calls, samples0, frames0, first, s, outcome, t);
        assert longer[t] == calls[t];
        if t > 0 {
          assert longer[t - 1] == calls[t - 1];
        }
      } else if t > 0 {
        assert longer[t - 1] == calls[t - 1];
      }
    }
  }

  /** `Iteration`, with the positions of some earlier frames followed into the new call. */
  method IterationTracked<V, N, E, L>(samples: seq<V>, frames: seq<Frame<N, E>>, fixed: map<int, seq<L>>,
                                      s: Setting<V, N, E, L>, t: nat,
                                      ghost small: seq<Frame<N, E>>, ghost pos: seq<nat>)
    returns (r: Result<SamplerCall<N, E, L>, InterpolationError>, ghost pos': seq<nat>)
    requires |samples| <= |frames| ==> EmbeddedAt(small, frames[..|samples|], pos)
    ensures r.Err? <==> |samples| < 2 || |frames| < |samples|
    ensures r.Err? ==> r.error == if |samples| < 2 then TooFewFrames else MissingConditioning
    ensures r.Ok? ==> Builds(r.value, samples, frames, fixed, s, t)
    ensures r.Ok? ==> EmbeddedAt(small, r.value.frames, pos')
  {
    var g;
    ghost var orig;
    r, g, orig := Iteration(samples, frames, fixed, s, t);
    pos' := [];
    if r.Ok? {
      var mid := frames[..|samples|];
      assert forall j :: 0 <= j < |mid| ==> orig[j] < |r.value.frames| && r.value.frames[orig[j]] == mid[j];
      EmbeddingStep(small, mid, r.value.frames, pos, orig);
      pos' := Compose(orig, pos);
    }
  }

  /** What holds after `times` successful iterations of the loop started from `samples0`,
      `frames0` and the store `first`: the calls so far form a chain and their runs all
      succeeded, the store is the one the last run left, the video and the conditioning
      are those of the last call, and the first frames' conditioning (`small`) sits at the
      positions `pos`. */
  ghost predicate Progress<V, N, E, L>(samples0: seq<V>, frames0: seq<Frame<N, E>>, small: seq<Frame<N, E>>,
                                       first: map<int, seq<L>>,
                                       s: Setting<V, N, E, L>, outcome: Outcomes<N, E, L>, times: nat,
                                       calls: seq<SamplerCall<N, E, L>>, store: map<int, seq<L>>,
                                       samples: seq<V>, frames: seq<Frame<N, E>>, pos: seq<nat>)
  {
    |calls| == times && |samples| == |samples0| + times &&
    Chain(calls, samples0, frames0, first, s, outcome) && store == NextStore(calls, first, s.storeAfter) &&
    samples == LastVideo(calls, samples0, s) && frames == LastFrames(calls, frames0) &&
    (0 < times ==> (2 <= |samples0| <= |frames0| && outcome(calls[times - 1]).None? &&
      |frames| == |samples|)) &&
    (|samples| <= |frames| ==> EmbeddedAt(small, frames[..|samples|], pos))
  }

  /** A call built from where the loop stands joins the chain; when its run succeeds the
      loop stands at that run's video and the call's conditioning. */
  lemma ProgressSnoc<V, N, E, L>(samples0: seq<V>, frames0: seq<Frame<N, E>>, small: seq<Frame<N, E>>,
                                 first: map<int, seq<L>>,
                                 s: Setting<V, N, E, L>, outcome: Outcomes<N, E, L>, times: nat,
                                 calls: seq<SamplerCall<N, E, L>>, store: map<int, seq<L>>,
                                 samples: seq<V>, frames: seq<Frame<N, E>>, pos: seq<nat>,
                                 call: SamplerCall<N, E, L>, pos': seq<nat>)
    requires Progress(samples0, frames0, small, first, s, outcome, times, calls, store, samples, frames, pos)
    requires Builds(call, samples, frames, store, s, times) && EmbeddedAt(small, call.frames, pos')
    ensures 2 <= |samples0| <= |frames0| && Chain(calls + [call], samples0, frames0, first, s, outcome)
    ensures outcome(call).None? ==>
      Progress(samples0, frames0, small, first, s, outcome, times + 1, calls + [call], s.storeAfter(call),
               Rendered(call, s.video), call.frames, pos')
  {
    ChainSnoc(calls, call, samples0, frames0, first, s, outcome);
    var longer := calls + [call];
    assert longer[times] == call;
    assert call.frames[..|Rendered(call, s.video)|] == call.frames;
  }

  /** One iteration of the loop: only the first one can find no gap to fill; otherwise it
      makes one more call, linked to the ones before, and reports its run's error. */
  method Grow<V, N, E, L>(samples0: seq<V>, frames0: seq<Frame<N, E>>, ghost small: seq<Frame<N, E>>,
                          ghost first: map<int, seq<L>>,
                          s: Setting<V, N, E, L>, outcome: Outcomes<N, E, L>, times: nat,
                          calls: seq<SamplerCall<N, E, L>>, store: map<int, seq<L>>,
                          samples: seq<V>, frames: seq<Frame<N, E>>, ghost pos: seq<nat>)
    returns (err: Option<InterpolationError>, call: SamplerCall<N, E, L>, store': map<int, seq<L>>,
             samples': seq<V>, frames': seq<Frame<N, E>>, ghost pos': seq<nat>)
    requires Progress(samples0, frames0, small, first, s, outcome, times, calls, store, samples, frames, pos)
    // no call is made exactly when the first iteration finds no gap or too little conditioning
    ensures (err.Some? && !err.value.NestedRunFailed?) <==> times == 0 && (|samples0| < 2 || |frames0| < |samples0|)
    ensures err.Some? && !err.value.NestedRunFailed? ==>
      err.value == (if |samples0| < 2 then TooFewFrames else MissingConditioning) && store' == store
    // otherwise one more call joins the chain, its run's store is passed on, and the
    // iteration fails exactly when that run raises
    ensures err.None? || err.value.NestedRunFailed? ==>
      2 <= |samples0| <= |frames0| && Chain(calls + [call], samples0, frames0, first, s, outcome) &&
      store' == s.storeAfter(call) && EmbeddedAt(small, call.frames, pos') &&
      (err.None? <==> outcome(call).None?) &&
      (err.Some? ==> err.value.error == outcome(call).value)
    ensures err.None? ==>
      Progress(samples0, frames0, small, first, s, outcome, times + 1, calls + [call], store', samples', frames', pos')
  {
    var step;
    step, pos' := IterationTracked(samples, frames, store, s, times, small, pos);
    call, store', samples', frames' := SamplerCall([], [], map[], []), store, samples, frames;
    if step.Err? {
      return Some(step.error), call, store', samples', frames', pos';
    }
    call := step.value;
    ProgressSnoc(samples0, frames0, small, first, s, outcome, times, calls, store, samples, frames, pos, call, pos');
    store' := s.storeAfter(call);
    var ended := outcome(call);
    if ended.Some? {
      return Some(NestedRunFailed(ended.value)), call, store', samples', frames', pos';
    }
    err := None;
    frames' := call.frames;
    samples' := Rendered(call, s.video);
  }

  /** How the loop from `samples0`, `frames0` and the store `first` ends, after at most k
      iterations, with the result r, the calls made and the store left behind. */
  ghost predicate LoopEnded<V, N, E, L>(samples0: seq<V>, frames0: seq<Frame<N, E>>, k: nat,
                                        first: map<int, seq<L>>, s: Setting<V, N, E, L>,
                                        outcome: Outcomes<N, E, L>, r: Result<seq<V>, InterpolationError>,
                                        calls: seq<SamplerCall<N, E, L>>, store: map<int, seq<L>>, pos: seq<nat>)
  {
    // the calls made form a chain, and the store is the one the last run left
    Chain(calls, samples0, frames0, first, s, outcome) && store == NextStore(calls, first, s.storeAfter) &&
    |calls| <= k &&
    // no call is made exactly when the first iteration finds no gap or too little conditioning
    (calls == [] <==> |samples0| < 2 || |frames0| < |samples0|) &&
    (calls == [] ==> r == Err(if |samples0| < 2 then TooFewFrames else MissingConditioning)) &&
    // the loop stops at the first nested run that raises, with its error
    (calls != [] ==> (r.Err? <==> outcome(calls[|calls| - 1]).Some?)) &&
    (calls != [] && r.Err? ==> r.error == NestedRunFailed(outcome(calls[|calls| - 1]).value)) &&
    // so it succeeds exactly when k calls are made and every nested run succeeds
    (r.Ok? <==> 2 <= |samples0| <= |frames0| && |calls| == k && NestedRunsSucceed(calls, outcome)) &&
    (r.Ok? ==> calls != [] && |r.value| == |samples0| + k && r.value == Rendered(calls[|calls| - 1], s.video)) &&
    // the original frames' conditioning survives, in order, in the last call
    (calls != [] ==> |samples0| <= |frames0| && EmbeddedAt(frames0[..|samples0|], calls[|calls| - 1].frames, pos))
  }

  /** After k successful iterations the loop ends with the last run's video. */
  lemma Completed<V, N, E, L>(samples0: seq<V>, frames0: seq<Frame<N, E>>, small: seq<Frame<N, E>>,
                              first: map<int, seq<L>>, s: Setting<V, N, E, L>, outcome: Outcomes<N, E, L>,
                              k: nat, calls: seq<SamplerCall<N, E, L>>, store: map<int, seq<L>>,
                              samples: seq<V>, frames: seq<Frame<N, E>>, pos: seq<nat>)
    requires 0 < k && small == (if |samples0| <= |frames0| then frames0[..|samples0|] else [])
    requires Progress(samples0, frames0, small, first, s, outcome, k, calls, store, samples, frames, pos)
    ensures LoopEnded(samples0, frames0, k, first, s, outcome, Ok(samples), calls, store, pos)
  {
    assert frames[..|samples|] == frames;
    ChainSucceeds(calls, samples0, frames0, first, s, outcome);
  }

  /** An iteration that raises ends the loop with its error. */
  lemma Stopped<V, N, E, L>(samples0: seq<V>, frames0: seq<Frame<N, E>>, small: seq<Frame<N, E>>,
                            first: map<int, seq<L>>, s: Setting<V, N, E, L>, outcome: Outcomes<N, E, L>,
                            k: nat, times: nat, calls: seq<SamplerCall<N, E, L>>, store: map<int, seq<L>>,
                            samples: seq<V>, frames: seq<Frame<N, E>>, pos: seq<nat>,
                            err: InterpolationError, call: SamplerCall<N, E, L>, store': map<int, seq<L>>,
                            pos': seq<nat>)
    requires times < k && small == (if |samples0| <= |frames0| then frames0[..|samples0|] else [])
    requires Progress(samples0, frames0, small, first, s, outcome, times, calls, store, samples, frames, pos)
    requires !err.NestedRunFailed? <==> times == 0 && (|samples0| < 2 || |frames0| < |samples0|)
    requires !err.NestedRunFailed? ==>
      err == (if |samples0| < 2 then TooFewFrames else MissingConditioning) && store' == store
    requires err.NestedRunFailed? ==>
      2 <= |samples0| <= |frames0| && Chain(calls + [call], samples0, frames0, first, s, outcome) &&
      store' == s.storeAfter(call) && EmbeddedAt(small, call.frames, pos') &&
      outcome(call).Some? && err.error == outcome(call).value
    ensures LoopEnded(samples0, frames0, k, first, s, outcome, Err(err),
                      if err.NestedRunFailed? then calls + [call] else calls, store',
                      if err.NestedRunFailed? then pos' else pos)
  {
    if err.NestedRunFailed? {
      var longer := calls + [call];
      assert longer[|longer| - 1] == call;
      ChainSucceeds(longer, samples0, frames0, first, s, outcome);
    }
  }

  /**
   * The `while times < k` loop, started from the store `first`: each iteration inserts a
   * frame into the widest gap and samples the video again with the store as
   * `fixed_latents` and the kept positions as `fixed_latents_idx`; the store the run
   * leaves behind is the one the next iteration passes on.  A run that raises ends it.
   */
  method InterpolationLoop<V, N, E, L>(samples0: seq<V>, frames0: seq<Frame<N, E>>, k: nat,
                                       first: map<int, seq<L>>, s: Setting<V, N, E, L>,
                                       outcome: Outcomes<N, E, L>)
    returns (r: Result<seq<V>, InterpolationError>, calls: seq<SamplerCall<N, E, L>>,
             store: map<int, seq<L>>, ghost pos: seq<nat>)
    requires 0 < k
    ensures LoopEnded(samples0, frames0, k, first, s, outcome, r, calls, store, pos)
  {
    calls, store := [], first;
    ghost var small := if |samples0| <= |frames0| then frames0[..|samples0|] else [];
    pos := seq(|samples0|, m requires 0 <= m < |samples0| => m);
    assert |samples0| <= |frames0| ==> EmbeddedAt(small, frames0[..|samples0|], pos);
    var samples, frames := samples0, frames0;
    var times := 0;
    while times < k
      invariant times <= k
      invariant Progress(samples0, frames0, small, first, s, outcome, times, calls, store, samples, frames, pos)
    {
      var err, call, store', samples', frames';
      ghost var pos';
      err, call, store', samples', frames', pos' :=
        Grow(samples0, frames0, small, first, s, outcome, times, calls, store, samples, frames, pos);
      if err.Some? {
        Stopped(samples0, frames0, small, first, s, outcome, k, times, calls, store, samples, frames, pos,
                err.value, call, store', pos');
        r := Err(err.value);
        if err.value.NestedRunFailed? {
          calls, pos := calls + [call], pos';
        }
        store := store';
        return;
      }
      calls, store, samples, frames, pos := calls + [call], store', samples', frames', pos';
      times := times + 1;
    }
    Completed(samples0, frames0, small, first, s, outcome, k, calls, store, samples, frames, pos);
    r := Ok(samples);
  }

  /**
   * `interpolate_between_two_frames`: with no iteration nothing happens; otherwise the
   * controller's store is cut down to the frames `where` and the loop runs from it.
   */
  method Interpolate<V, N, E, L>(samples0: seq<V>, frames0: seq<Frame<N, E>>, where: seq<nat>, k: nat,
                                 controller: Controller<L>, s: Setting<V, N, E, L>)
    returns (r: Result<seq<V>, InterpolationError>, calls: seq<SamplerCall<N, E, L>>, ghost pos: seq<nat>)
    requires forall key :: key in controller.latentsStore ==> InRangeOf(where, controller.latentsStore[key])
    modifies controller
    // it succeeds exactly when there is nothing to do, or when the first iteration finds a
    // gap and enough conditioning and each of the k nested runs succeeds
    ensures r.Ok? <==> k == 0 || (2 <= |samples0| <= |frames0| && |calls| == k && NestedRunsSucceed(calls, RunOutcomes(s)))
    ensures r.Err? && calls == [] ==> r.error == (if |samples0| < 2 then TooFewFrames else MissingConditioning)
    ensures calls != [] ==> (r.Err? <==> NestedOutcome(calls[|calls| - 1], s).Some?)
    ensures r.Err? && calls != [] ==> r.error == NestedRunFailed(NestedOutcome(calls[|calls| - 1], s).value)
    ensures k > 0 ==> (calls == [] <==> |samples0| < 2 || |frames0| < |samples0|)
    // each call is built from the video the run before it returned, inserting one frame
    // into a widest gap and pinning all the others; the first gets the store cut down to
    // `where`, each later one the store the run before left
    ensures |calls| <= k && Chain(calls, samples0, frames0, Restricted(old(controller.latentsStore), where), s,
                                       RunOutcomes(s))
    ensures k == 0 ==> calls == [] && r == Ok(samples0) && controller.latentsStore == old(controller.latentsStore)
    ensures k > 0 ==> controller.latentsStore == NextStore(calls, Restricted(old(controller.latentsStore), where), s.storeAfter)
    ensures r.Ok? && 0 < k ==> |r.value| == |samples0| + k && r.value == Rendered(calls[k - 1], s.video)
    // the original frames' conditioning survives, in order, in the last call
    ensures 0 < |calls| ==> |samples0| <= |frames0| && EmbeddedAt(frames0[..|samples0|], calls[|calls| - 1].frames, pos)
  {
    if k == 0 {
      return Ok(samples0), [], [];
    }
    controller.RestrictToFrames(where);
    var store;
    r, calls, store, pos := InterpolationLoop(samples0, frames0, k, controller.latentsStore, s, RunOutcomes(s));
    controller.latentsStore := store;
  }
}
