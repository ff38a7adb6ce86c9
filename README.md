# FreeBloom spatio-temporal pipeline, modelled in Dafny

This project models the core of `SpatioTemporalPipeline`, FreeBloom's text-to-video diffusion
pipeline. A video's latents are denoised jointly over all frames. An attention controller keeps
the frames consistent. An interpolation driver then grows the video one frame at a time: it
inserts a frame into the widest gap between adjacent frames and samples the longer video again,
with every old frame pinned to the latents stored from the previous run.

The model covers seven operations:

- **Configuration clean-up** at construction, the VAE scale factor and the default output size
  (`config.dfy`, module `PipelineConfig`).
- **Input validation** by `check_inputs` (`inputs.dfy`, module `Inputs`).
- **Prompt encoding** by `_encode_prompt`, plus the `init_text_embedding` override of a sampling
  run (`encoding.dfy`, module `PromptEncoding`). The text encoder is one opaque function from a
  string to its embedding. The model states which strings land in which rows of the batch.
- **Scheduler keyword arguments** from `prepare_extra_step_kwargs` (`step_kwargs.dfy`, module
  `StepKwargs`).
- **Initial latents** from `prepare_latents`, and the frame-wise decoding by `decode_latents`
  (`latents.dfy`, module `Latents`).
- **The denoising loop** of `__call__` (`denoising.dfy`, module `Denoising`). It works in place on
  an `array` of frames: the scheduler step, the mask blend of the first ten steps, the progress
  bar and callback policy, the controller's step callback, and the overwrite of the fixed frames.
  It is proved against the functional specification `Run`.
- **Interpolation**, `interpolate_between_two_frames`:
  - `layout.dfy` (module `InterpolationLayout`) holds the layout planner (`tgt_idx`,
    `original_idx`, the neighbour search and its weights) and the rebuild loop.
  - `interpolation.dfy` (module `Interpolation`) holds the driver: the controller's latents store
    as a `class` field, the distance and top-1 loops, and the `while times < k` loop. Whether a
    nested sampling run raises is computed from the prompt encoding, the embedding override and
    the fixed-frame overwrites modelled in the modules above.

Tensors are modelled as sequences indexed by frame, holding values of opaque type. The UNet,
scheduler, VAE, text encoder and random draws are function parameters. So are the video a nested
sampling run returns and the store it leaves behind.
Integers are unbounded. Python's floor `%` agrees with Dafny's Euclidean `%` for the positive
divisors used here (8, `scheduler.order`, `callback_steps`).

## Model

| member | source | states |
|---|---|---|
| PipelineConfig.NormalizeScheduler | freebloom/pipelines/pipeline_spatio_temporal.py:69-93 | Afterwards `steps_offset` is 1 and `clip_sample` is not True wherever present. Absent settings stay absent. An up-to-date configuration is returned unchanged. |
| PipelineConfig.NormalizeUNet | freebloom/pipelines/pipeline_spatio_temporal.py:95-115 | Afterwards no pre-0.9.0 configuration has `sample_size` below 64. A rewritten configuration gets exactly 64. The version and presence are kept. An up-to-date configuration is unchanged. |
| PipelineConfig.NormalizeIdempotent | freebloom/pipelines/pipeline_spatio_temporal.py:69-115 | A second normalisation pass changes nothing. |
| PipelineConfig.ReleaseExamples | freebloom/pipelines/pipeline_spatio_temporal.py:95-97 | Every 0.8.x release counts as older than 0.9.0.dev0. 0.9.0, 0.9 and 0.10 do not. |
| PipelineConfig.ReleaseLessStrict | freebloom/pipelines/pipeline_spatio_temporal.py:95-97 | The release order is asymmetric: no version is older than a version that is older than it. |
| PipelineConfig.ReleaseLessPadding | freebloom/pipelines/pipeline_spatio_temporal.py:95-97 | A trailing zero component changes nothing in the order, so 0.9 and 0.9.0 compare alike. |
| PipelineConfig.VaeScaleFactor | freebloom/pipelines/pipeline_spatio_temporal.py:125 | `2 ** (blocks - 1)` is at least 1. |
| PipelineConfig.VaeScaleFactorDoubles | freebloom/pipelines/pipeline_spatio_temporal.py:125 | Each extra block doubles the factor. One block gives 1 and four blocks give 8. |
| PipelineConfig.VaeScaleFactorDividesEight | freebloom/pipelines/pipeline_spatio_temporal.py:125 | For one to four blocks the factor divides 8. |
| PipelineConfig.VaeScaleFactorMultipleOf8 | freebloom/pipelines/pipeline_spatio_temporal.py:125 | With four blocks or more the factor is a multiple of 8. |
| PipelineConfig.DefaultSizeMultipleOf8 | freebloom/pipelines/pipeline_spatio_temporal.py:374-376 | With no size given (None or 0, through Python `or`), the fallback `sample_size * vae_scale_factor` passes the multiple-of-8 check for four VAE blocks or more. |
| PipelineConfig.DefaultSizeAfterNormalize | freebloom/pipelines/pipeline_spatio_temporal.py:374-375 | After the UNet fix-up the default size with four VAE blocks is 512. |
| Inputs.MultipleOf8 | freebloom/pipelines/pipeline_spatio_temporal.py:284 | `x % 8 == 0` holds exactly for multiples of 8, negatives included. |
| Inputs.CheckInputs | freebloom/pipelines/pipeline_spatio_temporal.py:280-296 | Returns normally if and only if the request is valid, stated declaratively. Otherwise each error is returned exactly when its guard is the first to fail, in source order. |
| Inputs.RejectionExamples | freebloom/pipelines/pipeline_spatio_temporal.py:284-293 | A height of 513 and a `callback_steps` of 0 are rejected. A 512 x 512 single-prompt request is accepted. |
| PromptEncoding.PromptTexts | freebloom/pipelines/pipeline_spatio_temporal.py:162 | A string prompt is a batch of one; a list is a batch of its length. |
| PromptEncoding.UncondTokens | freebloom/pipelines/pipeline_spatio_temporal.py:198-216 | Without a negative prompt there are `batch_size` empty strings. A type mismatch and a list of the wrong length each raise, exactly under their conditions. Otherwise the negative prompts are returned. |
| PromptEncoding.RepeatRows | freebloom/pipelines/pipeline_spatio_temporal.py:193-195 | Repeating each row n times multiplies the row count by n. |
| PromptEncoding.RepeatRowsAt | freebloom/pipelines/pipeline_spatio_temporal.py:193-195 | After `repeat(1, n, 1).view(...)`, row `b * n + j` is copy j of row b. |
| PromptEncoding.EncodePrompt | freebloom/pipelines/pipeline_spatio_temporal.py:161-248 | Without guidance it never raises. With guidance it raises exactly when `uncond_tokens` does, with the same error. The length is `(2 or 1) * batch_size * n`. The conditional rows come last and the unconditional rows first, each block its prompts' rows repeated n times. |
| PromptEncoding.EncodedRow | freebloom/pipelines/pipeline_spatio_temporal.py:239-246 | Each row is the text encoder's embedding of one string: row `offset + b * n + j` is the embedding of prompt b. Under guidance, row `b * n + j` is the embedding of negative prompt b. |
| PromptEncoding.EmptyNegativeRows | freebloom/pipelines/pipeline_spatio_temporal.py:200-201 | Without a negative prompt every unconditional row is the embedding of "". |
| PromptEncoding.OverrideTail | freebloom/pipelines/pipeline_spatio_temporal.py:395-396 | The length is kept and the rows before `video_length` are kept. A replacement of the slice's size lands verbatim, and a single row is broadcast over the slice. Past the end the slice is empty and nothing changes. It raises exactly when the replacement has neither the slice's size nor size 1. |
| PromptEncoding.OverrideReplacesConditional | freebloom/pipelines/pipeline_spatio_temporal.py:391-396 | With guidance, one video per prompt and one prompt per frame, the override keeps the unconditional block and replaces exactly the conditional block. |
| StepKwargs.ExtraStepKwargs | freebloom/pipelines/pipeline_spatio_temporal.py:263-278 | `eta` is present if and only if `step` declares it, and likewise `generator`. No other key appears, and each value is the one passed in. |
| StepKwargs.ExtraStepKwargsExamples | freebloom/pipelines/pipeline_spatio_temporal.py:269-277 | A `step` declaring neither name gets nothing. A DDIM-like `step` gets both. |
| Latents.ExpectedShape | freebloom/pipelines/pipeline_spatio_temporal.py:303-308 | The latent grid is the pixel size floor-divided by the scale factor. There is one frame with `frame_same_noise` and `video_length` frames otherwise. |
| Latents.LatentGridExact | freebloom/pipelines/pipeline_spatio_temporal.py:303-305 | For sizes divisible by 8 and one to four VAE blocks, the floor division loses nothing. |
| Latents.PrepareLatents | freebloom/pipelines/pipeline_spatio_temporal.py:298-339 | A generator list of the wrong length raises, and so, next, do supplied latents of the wrong shape, each exactly under its condition. Drawn latents have `video_length` frames, each the scaled draw; with `frame_same_noise` every frame repeats draw 0. Supplied latents keep their shape and are only scaled, each slab by `init_noise_sigma` in place. |
| Latents.FrameSameNoiseShapes | freebloom/pipelines/pipeline_spatio_temporal.py:306-330 | With `frame_same_noise`, accepted supplied latents have 1 frame and drawn latents have `video_length`. |
| Latents.FlattenLength | freebloom/pipelines/pipeline_spatio_temporal.py:253 | Flattening B elements of F frames gives B * F slabs. |
| Latents.FlattenAt | freebloom/pipelines/pipeline_spatio_temporal.py:253 | `b c f h w -> (b f) c h w` puts frame f of element b at `b * F + f`. |
| Latents.Unflatten | freebloom/pipelines/pipeline_spatio_temporal.py:253-255 | Flattening the chunks again gives the batch back. Every chunk holds 1 to F slabs, and all but the last exactly F; where einops raises on a count that is not a multiple of F, the last chunk is short instead, which `DecodeLatents` never meets. |
| Latents.UnflattenFlatten | freebloom/pipelines/pipeline_spatio_temporal.py:253-255 | The rearrange back with `f=video_length` inverts the flattening. |
| Latents.ToUnitRange | freebloom/pipelines/pipeline_spatio_temporal.py:256 | `(v / 2 + 0.5).clamp(0, 1)` lies in [0, 1]. It is affine on [-1, 1] and saturates outside. |
| Latents.Pixels | freebloom/pipelines/pipeline_spatio_temporal.py:254-256 | Every decoded pixel is brought into [0, 1]. |
| Latents.DecodeFrames | freebloom/pipelines/pipeline_spatio_temporal.py:250-261 | The reference: output frame (b, f) is the decoding of latent frame (b, f). |
| Latents.DecodeLatents | freebloom/pipelines/pipeline_spatio_temporal.py:250-261 | `decode_latents` equals frame-wise decoding: the `(b f)` round trip puts every decoded frame back where it came from. |
| Latents.DecodeEachFlatten | freebloom/pipelines/pipeline_spatio_temporal.py:253-255 | Decoding the flattened batch slab by slab equals flattening the frame-wise decoding. |
| Denoising.ProgressSteps | freebloom/pipelines/pipeline_spatio_temporal.py:446-447 | A step is listed if and only if it is the last step, or lies past the warm-up on an `order` boundary. The list is strictly increasing. |
| Denoising.FiredSteps | freebloom/pipelines/pipeline_spatio_temporal.py:448-449 | A step is listed if and only if it advances the bar, a callback is given, and it is a multiple of `callback_steps`. The list is strictly increasing. |
| Denoising.StepPolicy | freebloom/pipelines/pipeline_spatio_temporal.py:446-448 | During the warm-up only the last step advances the bar. The callback fires only on steps that advance it, and only when one is given. With no warm-up and `order == 1` every step advances it, and with `callback_steps == 1` a given callback fires on exactly those steps. |
| Denoising.CallbacksWithinProgress | freebloom/pipelines/pipeline_spatio_temporal.py:446-449 | The callback only fires on steps that advance the bar. The last step always advances it. |
| Denoising.ProgressBlocks | freebloom/pipelines/pipeline_spatio_temporal.py:421-447 | Without warm-up, the first `m * order + j` steps advance the bar m times. |
| Denoising.ProgressBefore | freebloom/pipelines/pipeline_spatio_temporal.py:421-447 | For any warm-up, the steps before the last that advance the bar number `k / order` less those inside the warm-up. |
| Denoising.ProgressCount | freebloom/pipelines/pipeline_spatio_temporal.py:421-447 | Whenever the warm-up is above `-order` (no warm-up, or the one missing timestep of a second-order scheduler), a full run advances the bar exactly `num_inference_steps` times, its `total`. With a positive warm-up that is not a multiple of `order` it advances one extra time. With `num_inference_steps == 0` it advances once if there are timesteps. |
| Denoising.MaskBlendAsWritten | freebloom/pipelines/pipeline_spatio_temporal.py:439-442 | The blend as written succeeds if and only if there is exactly one frame. |
| Denoising.MaskBlendAsWrittenFails | freebloom/pipelines/pipeline_spatio_temporal.py:439-442 | With two frames or more it raises. |
| Denoising.MaskBlend | freebloom/pipelines/pipeline_spatio_temporal.py:439-442 | Corrected blend: the length is kept and every frame is frame 0's blended value. |
| Denoising.MaskBlendAgreesOnOneFrame | freebloom/pipelines/pipeline_spatio_temporal.py:439-442 | On one frame the corrected and the as-written blend agree. |
| Denoising.MaskOnlyEarly | freebloom/pipelines/pipeline_spatio_temporal.py:439 | From step 10 on, a mask changes nothing. |
| Denoising.MaskedFramesIdentical | freebloom/pipelines/pipeline_spatio_temporal.py:439-442 | During the first ten steps with a mask, every frame handed on to the callback and the controller is frame 0's post-blend value. |
| Denoising.Overwritten | freebloom/pipelines/pipeline_spatio_temporal.py:458 | The overwrite keeps the frame count. |
| Denoising.OverwrittenOutside | freebloom/pipelines/pipeline_spatio_temporal.py:458 | Frames not named in `fixed_latents_idx` keep their value. |
| Denoising.OverwrittenAt | freebloom/pipelines/pipeline_spatio_temporal.py:458 | With distinct indices, frame `idx[p]` holds stored frame p, or the single stored frame when one frame is broadcast. |
| Denoising.OverwriteFrames | freebloom/pipelines/pipeline_spatio_temporal.py:458 | The in-place writes leave the array equal to `Overwritten` of its old contents. |
| Denoising.FixFrames | freebloom/pipelines/pipeline_spatio_temporal.py:457-458 | Without `fixed_latents` nothing changes. Otherwise each error is returned exactly under its condition, in the order the assignment checks them: a missing `fixed_latents[i + 1]` (the right-hand side is evaluated first), then a stored count that neither matches the indices nor is 1 (the value's shape is checked before the index bounds), then an index past the frames. It succeeds exactly when all three checks pass, and then writes the stored frames (broadcast when there is one). |
| Denoising.Advance | freebloom/pipelines/pipeline_spatio_temporal.py:437-455 | The scheduler step, mask and controller callback keep the frame count. |
| Denoising.Run | freebloom/pipelines/pipeline_spatio_temporal.py:423-458 | A run keeps the frame count. A failure names a step of the run. |
| Denoising.RunStep | freebloom/pipelines/pipeline_spatio_temporal.py:423-458 | A run is its first step followed by the rest, or that step's error. |
| Denoising.RunTotal | freebloom/pipelines/pipeline_spatio_temporal.py:457-458 | A run without `fixed_latents` never raises. |
| Denoising.FixedFailure | freebloom/pipelines/pipeline_spatio_temporal.py:457-458 | The first step from i whose overwrite raises, with its error. There is none exactly when the store fits (`StoreFits`): every key from i + 1 to T is present with a matching or broadcast size, and the indices are in range. Otherwise every earlier step fits. |
| Denoising.RunFailure | freebloom/pipelines/pipeline_spatio_temporal.py:423-458 | A run with `fixed_latents` raises exactly when `FixedFailure` finds a step, and then at that step with that error. So whether and where it raises depends only on the frame count and the store. |
| Denoising.FixedFramesAtEnd | freebloom/pipelines/pipeline_spatio_temporal.py:457-458 | After a successful run the fixed frames hold `fixed_latents[T]`, the store of the final step. |
| Denoising.StepFrames | freebloom/pipelines/pipeline_spatio_temporal.py:437-442 | The in-place scheduler step and mask blend leave the array equal to `Stepped` of its old contents. |
| Denoising.ControlFrames | freebloom/pipelines/pipeline_spatio_temporal.py:450-454 | The in-place controller callback leaves the array equal to `Controlled` of its old contents; together with `StepFrames` this is `Advance`. |
| Denoising.FixFramesInPlace | freebloom/pipelines/pipeline_spatio_temporal.py:457-458 | The in-place overwrite succeeds exactly when `FixFrames` does, leaving its result, or returns its error. |
| Denoising.Report | freebloom/pipelines/pipeline_spatio_temporal.py:446-449 | The counters after step i are the progress and callback steps among the first i + 1. |
| Denoising.Denoise | freebloom/pipelines/pipeline_spatio_temporal.py:421-460 | Each step runs the scheduler and mask, then the progress bar and callback, then the controller, then the overwrite. The loop ends with the latents of `Run`, or with the error of the first failing step. The bar is advanced once per progress step and the callback fires exactly on `FiredSteps` of the steps that ran. |
| InterpolationLayout.ShiftedFromAt | freebloom/pipelines/pipeline_spatio_temporal.py:542 | Entry r of the shifted list is `idx[r] + 1 + k + r`. |
| InterpolationLayout.TargetIndices | freebloom/pipelines/pipeline_spatio_temporal.py:542 | `tgt_idx[r] == idx[r] + 1 + r`: the r-th inserted frame lands after old frame `idx[r]`, moved up by the r frames inserted before it. |
| InterpolationLayout.TargetsSpread | freebloom/pipelines/pipeline_spatio_temporal.py:541-542 | The targets are increasing and at least two apart. They lie within `1 .. tgt_video_length - 2`. |
| InterpolationLayout.KeptCount | freebloom/pipelines/pipeline_spatio_temporal.py:539-544 | Exactly f of the `f + num_insert` positions are kept. |
| InterpolationLayout.OriginalIndices | freebloom/pipelines/pipeline_spatio_temporal.py:544 | `original_idx` has one entry per kept position. |
| InterpolationLayout.KeptPlusInserted | freebloom/pipelines/pipeline_spatio_temporal.py:548-566 | At position i, the counter `prompt_i` plus the insertions so far is i. |
| InterpolationLayout.OriginalIndicesEntries | freebloom/pipelines/pipeline_spatio_temporal.py:544-566 | Kept entry m is a non-target position, reached when `prompt_i == m`, so it copies old frame m. |
| InterpolationLayout.OriginalIndicesSpec | freebloom/pipelines/pipeline_spatio_temporal.py:544 | `original_idx` is increasing, in range, and holds a position if and only if it is not a target. |
| InterpolationLayout.KeptEnds | freebloom/pipelines/pipeline_spatio_temporal.py:541-544 | The first and the last position are kept, and `original_idx` has f entries. |
| InterpolationLayout.Plan | freebloom/pipelines/pipeline_spatio_temporal.py:537-544 | The length grows by one per inserted frame, and `tgt_idx[r] == idx[r] + 1 + r`. Both index lists are increasing and inserted and kept positions partition `range(tgt_video_length)`. Insertions lie strictly inside, so the ends are kept. |
| InterpolationLayout.SortedInsert | freebloom/pipelines/pipeline_spatio_temporal.py:552 | `sorted(original_idx + [i])` has one more entry and holds i. |
| InterpolationLayout.SortedInsertAt | freebloom/pipelines/pipeline_spatio_temporal.py:552 | The inserted value lands after the entries below it; the rest shift by one. |
| InterpolationLayout.IndexOf | freebloom/pipelines/pipeline_spatio_temporal.py:553 | `list.index` returns the first position holding the value. |
| InterpolationLayout.NeighboursSpec | freebloom/pipelines/pipeline_spatio_temporal.py:552-554 | Take a position i with k kept positions below it. The search raises exactly when i lies above them all. Otherwise `next_idx` is the first kept position above i. `pre_idx` is the last kept position below i, or, through Python's index -1, the last kept position of all. |
| InterpolationLayout.Weights | freebloom/pipelines/pipeline_spatio_temporal.py:555-561 | The two blend weights lie strictly between 0 and 1 and sum to 1. |
| InterpolationLayout.OriginalAroundGap | freebloom/pipelines/pipeline_spatio_temporal.py:544 | With one inserted position t, kept entry m is m below t and m + 1 above it. |
| InterpolationLayout.OneGapNeighbours | freebloom/pipelines/pipeline_spatio_temporal.py:552-554 | An interior inserted position finds its neighbours t - 1 and t + 1, so no IndexError is raised. |
| InterpolationLayout.PlannedNeighbours | freebloom/pipelines/pipeline_spatio_temporal.py:552-554 | In a one-gap plan the inserted frame's neighbours are its adjacent positions. |
| InterpolationLayout.HalfWeights | freebloom/pipelines/pipeline_spatio_temporal.py:555-561 | Neighbours one step away each weigh one half. |
| InterpolationLayout.Spliced | freebloom/pipelines/pipeline_spatio_temporal.py:549-566 | The rebuilt frames are one longer than the old ones. |
| InterpolationLayout.SplicedAt | freebloom/pipelines/pipeline_spatio_temporal.py:549-566 | Old frames sit before the insertion, the new frame at it, and the shifted old frames after it. |
| InterpolationLayout.OneGapPlan | freebloom/pipelines/pipeline_spatio_temporal.py:537-544 | A one-gap plan has `tgt_idx == [g + 1]` and shifts the kept positions after the gap by one. |
| InterpolationLayout.SplicedAtPlan | freebloom/pipelines/pipeline_spatio_temporal.py:544-566 | Deleting the inserted position gives back the old frames in order, at `original_idx`. The inserted position holds the new frame. |
| InterpolationLayout.BlendAt | freebloom/pipelines/pipeline_spatio_temporal.py:552-561 | The inserted embedding blends embeddings `prompt_i - 1` and `prompt_i`, one half each. |
| InterpolationLayout.Rebuild | freebloom/pipelines/pipeline_spatio_temporal.py:545-566 | The rebuilt prompt, noise and embedding lists are the old frames with an empty-prompt frame spliced in at g + 1. It has fresh noise and the mean of its neighbours' embeddings. Each old frame sits at its `original_idx` position. |
| Interpolation.Controller.RestrictToFrames | freebloom/pipelines/pipeline_spatio_temporal.py:527-530 | Through the alias, every stored entry becomes `value[:, :, where]`. The keys are kept and position p of an entry holds its old frame `where[p]`. |
| Interpolation.AdjacentDistances | freebloom/pipelines/pipeline_spatio_temporal.py:532-535 | There are f - 1 distances, distance i comparing frame i + 1 with frame i. |
| Interpolation.Top1 | freebloom/pipelines/pipeline_spatio_temporal.py:538 | None exactly when there is no distance; otherwise an index of a largest distance. |
| Interpolation.NestedEmbeddingsFit | freebloom/pipelines/pipeline_spatio_temporal.py:391-396 | For a nested run of two frames or more, the override of `text_embeddings[tgt_video_length:]` succeeds exactly when guidance is on with one video per prompt, or off with two. Otherwise it raises the shape error. Under guidance with one video per prompt, the conditional rows are exactly the frames' embeddings. |
| Interpolation.NestedPromptsMatch | freebloom/pipelines/pipeline_spatio_temporal.py:544-577 | A nested run's prompt list has one prompt per noise frame, so `check_inputs` never raises the prompt/frame mismatch for it. It rejects the run exactly when the size the nested run resolves (lines 375-376: a missing or zero `height`/`width` falls back to `sample_size * vae_scale_factor`) or `callback_steps` is invalid. With the default sizes and a scale factor that is a multiple of 8, only `callback_steps` can be invalid. |
| Interpolation.FirstRunStore | freebloom/pipelines/pipeline_spatio_temporal.py:527-530 | The first nested run gets the store cut down to `where`. Its overwrites (lines 457-458) all fit exactly when the run has no step, or when the store holds every step's entry and `where` names one frame per pinned frame or a single frame. |
| Interpolation.EmbeddingStep | freebloom/pipelines/pipeline_spatio_temporal.py:544-566 | Following increasing kept positions into the next call keeps the original frames in order. |
| Interpolation.Insert | freebloom/pipelines/pipeline_spatio_temporal.py:537-567 | For gap g the call is laid out well, with `inner_idx == [g + 1]`. Its frames are the old ones with the new frame spliced in at g + 1. That frame has an empty prompt, the noise of this iteration and the half-and-half embedding, and each old frame sits at its `original_idx` position. |
| Interpolation.Iteration | freebloom/pipelines/pipeline_spatio_temporal.py:532-572 | It raises exactly when there is no gap or too little conditioning. Otherwise the frame goes into a gap of largest distance, with an empty prompt, fresh noise and the half-and-half embedding. The old frames keep their order at the kept positions, the ends included. |
| Interpolation.ChainAt | freebloom/pipelines/pipeline_spatio_temporal.py:523-596 | Call t has `f + t + 1` frames and is laid out well. Its frame is inserted into a gap of largest distance of the video the run before returned (the input video for t == 0). It splices an empty-prompt frame, with noise `noise(t, g + 1)` and the half-and-half embedding, into the conditioning of the call before (the input conditioning for t == 0). It gets the restricted store (t == 0) or the store the run before left, and that run succeeded. |
| Interpolation.ChainSucceeds | freebloom/pipelines/pipeline_spatio_temporal.py:523-596 | In a chain every nested run but the last succeeded. So all of them succeeded exactly when the last one did. |
| Interpolation.ChainSnoc | freebloom/pipelines/pipeline_spatio_temporal.py:523-596 | After a run that succeeded, a call built from that run's video, its call's conditioning and the store it left extends the chain. |
| Interpolation.IterationTracked | freebloom/pipelines/pipeline_spatio_temporal.py:532-572 | The error cases of one iteration. On success the call has one frame more and the earlier frames are followed to their new positions. |
| Interpolation.ProgressSnoc | freebloom/pipelines/pipeline_spatio_temporal.py:523-596 | A call built from where the loop stands joins the chain. When its run succeeds, the loop state holds one iteration later, at that run's video and the call's conditioning. |
| Interpolation.Grow | freebloom/pipelines/pipeline_spatio_temporal.py:523-596 | Only the first iteration can stop before calling: it returns the layout error and leaves the store unchanged. Otherwise one more call joins the chain and the store becomes the one its run left. The iteration raises exactly when that nested run raises, with its error. On success the loop state after `times + 1` iterations holds. |
| Interpolation.Completed | freebloom/pipelines/pipeline_spatio_temporal.py:523-598 | After k successful iterations the loop ends as `LoopEnded` says, with the last run's video. |
| Interpolation.Stopped | freebloom/pipelines/pipeline_spatio_temporal.py:523-596 | An iteration that raises ends the loop as `LoopEnded` says, with its error. |
| Interpolation.InterpolationLoop | freebloom/pipelines/pipeline_spatio_temporal.py:523-596 | `LoopEnded`: no call is made exactly when the first iteration finds fewer than two frames or too little conditioning, and then that error is returned. Otherwise the calls form a chain and the loop stops at the first nested run that raises, with its error. It succeeds exactly when k calls are made and every nested run succeeds. The result then has `f + k` frames and is the last call's video. The store is the one the last run left, and the first f frames' conditioning survives in order. |
| Interpolation.Interpolate | freebloom/pipelines/pipeline_spatio_temporal.py:520-598 | With k == 0 nothing changes. Otherwise the store is first restricted to `where`, and the loop runs with the nested runs' computed outcomes (`NestedOutcome`). A run is rejected by `check_inputs`, or raises in the prompt encoding or override, or is rejected by `prepare_latents`, or raises at the first step whose `fixed_latents[i + 1]` does not fit. The method succeeds exactly when each of the k runs succeeds. An error is the layout error or the failing run's. The controller's store ends as the last run left it. |

## Left out

- Networks and numerics: the UNet, VAE, text encoder, tokenizer and scheduler internals are opaque
  function parameters, and floating-point arithmetic is not modelled. So are the guidance
  arithmetic `uncond + scale * (text - uncond)` and the `1 / 0.18215` latent scaling (inside
  `decode`), and likewise the `cos`/`sin` noise mix of an inserted frame (the parameter `noise`).
- Randomness: `torch.randn` draws are the parameter `draw(b, f)`. The per-generator list draws
  are not told apart from a single generator beyond the length check.
- I/O and devices: device placement, dtype casts, CPU offload, VAE slicing, logging, deprecation
  warnings, tokenizer truncation warnings, the `save_vis_inner` image dumps, and the final tensor
  conversion and output wrapping of `__call__`.
- The attention controller's internals: `reset`, `step_callback` (the parameter `control`),
  `empty_cache` and the registration of attention hooks in `prepare_latents` are out of scope. The
  store a sampling run leaves behind is the parameter `storeAfter`.
- Interpolation.Interpolate: the controller is assumed present. The source calls
  `self.controller.empty_cache()` unconditionally (line 460) and reads `self.controller.latents_store`.
- Interpolation.Interpolate: the `samples[0]` unwrap of a pipeline output (lines 524-525, 598) is not
  modelled.
- Interpolation.NestedOutcome: whether `prepare_latents` rejects a nested run's noise is the
  parameter `latentsRejected`; the remaining arguments the nested run gets (`eta`, `generator`,
  `**kwargs`) are seen only through it.
- Interpolation.Interpolate: the negative prompt is a string (`Setting.negative`). With the default
  `negative_prompt=None` the nested run gets a list of None, which the tokenizer cannot encode.
- Interpolation.Interpolate: `base_noise` is taken to be given; the fresh noise of an inserted frame
  is the parameter `noise`. With the default `base_noise=None`, line 557 raises a TypeError in the
  first iteration.
- Interpolation.Interpolate: prompts, noise frames and embeddings are zipped into one sequence of
  `Frame`s, so their lengths never disagree. The source would fail on the shortest of the three.
- Interpolation.Controller.RestrictToFrames: requires every `where` index to be in range for every
  stored entry. The source would raise an IndexError otherwise.
- InterpolationLayout.Rebuild: proved for one inserted frame per iteration, which the source fixes
  (`num_insert = 1`, line 537). The planner `Plan` is proved for any sorted selection.
- Denoising.Advance, Denoising.Run, Denoising.RunTotal, Denoising.Denoise, Denoising.StepFrames,
  Denoising.MaskedFramesIdentical: the mask blend is the corrected `MaskBlend`. With a mask and two
  frames or more the source raises at step 0 (see Findings); these members do not model that raise.
- Denoising.Overwritten: fixed indices are written in order, so with duplicates the last write
  wins. Negative (Python end-relative) indices are not modelled.
- Latents.DecodeLatents: requires at least one frame. With zero frames the source's `rearrange`
  would fail.
- PipelineConfig.VaeScaleFactor: requires at least one VAE block. With none, `2 ** -1` would be a
  float.
- PromptEncoding.EncodePrompt: `batch_size` follows `_encode_prompt`. The batch size of 1 that
  `__call__` passes to `prepare_latents` is a separate argument of `Latents.PrepareLatents`.
- Interpolation.Interpolate: the first-round text encoding (`_encode_prompt(..., 0, None)`, line
  515) is the `EncodePrompt` case without guidance, but the interpolation takes the frames'
  embeddings as given. With `num_videos_per_prompt` above 1 the source's `text_embeddings[prompt_i]`
  picks repeated rows rather than one row per prompt; the model does not follow that.

## Findings

| source | as written | input that shows it | evidently intended | confidence | as-written member | corrected member |
|---|---|---|---|---|---|---|
| freebloom/pipelines/pipeline_spatio_temporal.py:439-442 | `mask[1] * f_1 + mask[0] * latents` keeps all f frames. The following `repeat(latents, 'b c 1 h w -> b c f h w')` demands a frame axis of size 1, so it raises. | any run with a `mask` and `video_length >= 2`, at step 0 | blend frame 0 and broadcast the blended frame 0 over all frames | medium, not executed | Denoising.MaskBlendAsWritten, Denoising.MaskBlendAsWrittenFails | Denoising.MaskBlend, Denoising.MaskedFramesIdentical |
