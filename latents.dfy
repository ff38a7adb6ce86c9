/**
 * The initial latents of a sampling run (`prepare_latents`) and the frame-wise decoding
 * of the final latents (`decode_latents`).
 *
 * A latent video of shape (b, c, f, h, w) is held as its shape together with its data
 * `data[b][f]`, the (c, h, w) slab of frame f of batch element b.  The random draw is a
 * parameter `draw(b, f)`; the multiplication by `init_noise_sigma` is a parameter `scale`.
 */
module Latents {
  import opened Wrappers
  import opened PipelineConfig

  datatype Shape5 = Shape5(batch: nat, channels: nat, frames: nat, height: int, width: int)

  datatype Video<S> = Video(shape: Shape5, data: seq<seq<S>>)

  /** The data has one row per batch element and one slab per frame. */
  predicate WellShaped<S>(v: Video<S>) {
    |v.data| == v.shape.batch && forall b :: 0 <= b < |v.data| ==> |v.data[b]| == v.shape.frames
  }

  /** The `generator` argument: absent, a single generator, or a list of `n` of them. */
  datatype GeneratorArg = NoGenerator | OneGenerator | GeneratorList(n: nat)

  datatype LatentError =
    | GeneratorCountError   // a list of generators whose length is not the batch size
    | LatentShapeError      // supplied latents of an unexpected shape

  /** `shape`: the latent grid is the pixel size floor-divided by the scale factor; with
      `frame_same_noise` a single frame is drawn. */
  function ExpectedShape(batch: nat, channels: nat, videoLength: nat, height: int, width: int,
                         scale: nat, frameSameNoise: bool): (s: Shape5)
    requires scale >= 1
    ensures s.batch == batch && s.channels == channels
    ensures s.frames == if frameSameNoise then 1 else videoLength
    ensures s.height * scale <= height < (s.height + 1) * scale
    ensures s.width * scale <= width < (s.width + 1) * scale
  {
    Shape5(batch, channels, if frameSameNoise then 1 else videoLength, height / scale, width / scale)
  }

  /** For a size `check_inputs` accepts and a VAE of one to four blocks the latent grid
      loses nothing: scaling it back up gives the requested size. */
  lemma {:induction false} LatentGridExact(height: int, blocks: nat)
    requires height % 8 == 0 && 1 <= blocks <= 4
    ensures (height / VaeScaleFactor(blocks)) * VaeScaleFactor(blocks) == height
  {
    VaeScaleFactorDoubles(1);
    VaeScaleFactorDoubles(2);
    VaeScaleFactorDoubles(3);
    var q := height / 8;
    assert height == 8 * q;
    if blocks == 1 {
      assert VaeScaleFactor(blocks) == 1;
    } else if blocks == 2 {
      assert VaeScaleFactor(blocks) == 2 && height / 2 == 4 * q;
    } else if blocks == 3 {
      assert VaeScaleFactor(blocks) == 4 && height / 4 == 2 * q;
    } else {
      assert VaeScaleFactor(blocks) == 8 && height / 8 == q;
    }
  }

  function PrepareLatents<S>(batch: nat, channels: nat, videoLength: nat, height: int, width: int,
                             scale: nat, generator: GeneratorArg, supplied: Option<Video<S>>,
                             frameSameNoise: bool, draw: (nat, nat) -> S, sigma: S -> S)
    : (r: Result<Video<S>, LatentError>)
    requires scale >= 1
    requires supplied.Some? ==> WellShaped(supplied.value)
    ensures r == Err(GeneratorCountError) <==> generator.GeneratorList? && generator.n != batch
    ensures r == Err(LatentShapeError) <==>
      !(generator.GeneratorList? && generator.n != batch) && supplied.Some? &&
      supplied.value.shape != ExpectedShape(batch, channels, videoLength, height, width, scale, frameSameNoise)
    ensures r.Ok? ==> WellShaped(r.value)
    // drawn latents always have `video_length` frames; with `frame_same_noise` every frame
    // repeats the first draw
    ensures r.Ok? && supplied.None? ==>
      r.value.shape == ExpectedShape(batch, channels, videoLength, height, width, scale, false) &&
      forall b, f :: 0 <= b < batch && 0 <= f < videoLength ==>
        r.value.data[b][f] == sigma(draw(b, if frameSameNoise then 0 else f))
    // supplied latents keep their (checked) shape and are only rescaled
    ensures r.Ok? && supplied.Some? ==>
      r.value.shape == supplied.value.shape &&
      forall b, f :: 0 <= b < batch && 0 <= f < |supplied.value.data[b]| ==>
        r.value.data[b][f] == sigma(supplied.value.data[b][f])
  {
    var expected := ExpectedShape(batch, channels, videoLength, height, width, scale, frameSameNoise);
    if generator.GeneratorList? && generator.n != batch then Err(GeneratorCountError)
    else if supplied.None? then Ok(Video(expected.(frames := videoLength), Drawn(batch, videoLength, frameSameNoise, draw, sigma)))
    else if supplied.value.shape != expected then Err(LatentShapeError)
    else Ok(Video(supplied.value.shape, Rescaled(supplied.value.data, sigma)))
  }

  /** `randn(shape)` scaled by `init_noise_sigma`, with the frame axis repeated when a
      single frame is drawn. */
  function Drawn<S>(batch: nat, videoLength: nat, frameSameNoise: bool, draw: (nat, nat) -> S, sigma: S -> S)
    : (data: seq<seq<S>>)
    ensures |data| == batch && forall b :: 0 <= b < batch ==> |data[b]| == videoLength
    ensures forall b, f :: 0 <= b < batch && 0 <= f < videoLength ==>
      data[b][f] == sigma(draw(b, if frameSameNoise then 0 else f))
  {
    seq(batch, b requires 0 <= b < batch =>
      seq(videoLength, f requires 0 <= f < videoLength => sigma(draw(b, if frameSameNoise then 0 else f))))
  }

  /** Supplied latents scaled by `init_noise_sigma`, slab by slab. */
  function Rescaled<S>(data: seq<seq<S>>, sigma: S -> S): (out: seq<seq<S>>)
    ensures |out| == |data| && forall b :: 0 <= b < |data| ==> |out[b]| == |data[b]|
    ensures forall b, f :: 0 <= b < |data| && 0 <= f < |data[b]| ==> out[b][f] == sigma(data[b][f])
  {
    seq(|data|, b requires 0 <= b < |data| =>
      seq(|data[b]|, f requires 0 <= f < |data[b]| => sigma(data[b][f])))
  }

  /** With `frame_same_noise`, supplied latents must have a single frame, and they are
      returned with that single frame; drawn latents are spread over `video_length`. */
  lemma FrameSameNoiseShapes<S>(batch: nat, channels: nat, videoLength: nat, height: int, width: int,
                                scale: nat, generator: GeneratorArg, supplied: Option<Video<S>>,
                                draw: (nat, nat) -> S, sigma: S -> S)
    requires scale >= 1 && (supplied.Some? ==> WellShaped(supplied.value))
    ensures var r := PrepareLatents(batch, channels, videoLength, height, width, scale, generator,
                                    supplied, true, draw, sigma);
      r.Ok? ==> r.value.shape.frames == if supplied.Some? then 1 else videoLength
  {
  }

  /** `rearrange(x, "b c f h w -> (b f) c h w")`: frame f of element b lands at b * F + f. */
  function Flatten<S>(data: seq<seq<S>>): (flat: seq<S>)
  {
    if data == [] then [] else data[0] + Flatten(data[1..])
  }

  /** `rearrange(x, "(b f) c h w -> b c f h w", f=F)`: consecutive chunks of F slabs.  On a
      slab count that is not a multiple of F, einops raises where this leaves a short last
      chunk; `DecodeLatents`, the only user, always passes B * F slabs. */
  function Unflatten<S>(flat: seq<S>, frames: nat): (data: seq<seq<S>>)
    requires frames > 0
    // flattening again gives the batch back, in chunks of F slabs (the last may be short)
    ensures Flatten(data) == flat
    ensures forall b :: 0 <= b < |data| ==> 0 < |data[b]| <= frames
    ensures forall b :: 0 <= b < |data| - 1 ==> |data[b]| == frames
    decreases |flat|
  {
    if flat == [] then []
    else if |flat| <= frames then
      assert [flat][1..] == [];
      [flat]
    else
      var rest := Unflatten(flat[frames..], frames);
      assert ([flat[..frames]] + rest)[1..] == rest;
      assert flat[..frames] + flat[frames..] == flat;
      [flat[..frames]] + rest
  }

  predicate Rectangular<S>(data: seq<seq<S>>, frames: nat) {
    forall b :: 0 <= b < |data| ==> |data[b]| == frames
  }

  lemma {:induction false} FlattenLength<S>(data: seq<seq<S>>, frames: nat)
    requires Rectangular(data, frames)
    ensures |Flatten(data)| == |data| * frames
  {
    if data != [] {
      FlattenLength(data[1..], frames);
    }
  }

  /** Slab f of element b is at position b * F + f of the flattened batch. */
  lemma {:induction false} FlattenAt<S>(data: seq<seq<S>>, frames: nat, b: nat, f: nat)
    requires Rectangular(data, frames) && b < |data| && f < frames
    ensures b * frames + f < |Flatten(data)| && Flatten(data)[b * frames + f] == data[b][f]
  {
    FlattenLength(data, frames);
    if b > 0 {
      FlattenAt(data[1..], frames, b - 1, f);
      FlattenLength(data[1..], frames);
      assert b * frames + f == frames + ((b - 1) * frames + f);
    }
  }

  /** Splitting the flattened batch back into chunks of F frames gives the batch back. */
  lemma {:induction false} UnflattenFlatten<S>(data: seq<seq<S>>, frames: nat)
    requires frames > 0 && Rectangular(data, frames)
    ensures Unflatten(Flatten(data), frames) == data
  {
    if data != [] {
      var flat := Flatten(data);
      assert flat == data[0] + Flatten(data[1..]);
      assert flat[..frames] == data[0];
      assert flat[frames..] == Flatten(data[1..]);
      UnflattenFlatten(data[1..], frames);
      if data[1..] == [] {
        assert flat == data[0];
        assert data == [data[0]];
      } else {
        assert Flatten(data[1..]) == data[1..][0] + Flatten(data[2..]);
        assert data == [data[0]] + data[1..];
      }
    }
  }

  /** `(video / 2 + 0.5).clamp(0, 1)` for one value. */
  function ToUnitRange(v: real): (p: real)
    ensures 0.0 <= p <= 1.0
    ensures -1.0 <= v <= 1.0 ==> p == (v + 1.0) / 2.0
    ensures v < -1.0 ==> p == 0.0
    ensures v > 1.0 ==> p == 1.0
  {
    var x := v / 2.0 + 0.5;
    if x < 0.0 then 0.0 else if x > 1.0 then 1.0 else x
  }

  /** One latent slab decoded by the VAE, its pixels brought into [0, 1]. */
  function Pixels<S>(x: S, decode: S -> seq<real>): (img: seq<real>)
    ensures |img| == |decode(x)|
    ensures forall p :: 0 <= p < |img| ==> img[p] == ToUnitRange(decode(x)[p]) && 0.0 <= img[p] <= 1.0
  {
    seq(|decode(x)|, p requires 0 <= p < |decode(x)| => ToUnitRange(decode(x)[p]))
  }

  /** The VAE call on the flattened batch: every slab is decoded on its own. */
  function DecodeEach<S>(flat: seq<S>, decode: S -> seq<real>): (out: seq<seq<real>>)
    ensures |out| == |flat| && forall k :: 0 <= k < |flat| ==> out[k] == Pixels(flat[k], decode)
  {
    seq(|flat|, k requires 0 <= k < |flat| => Pixels(flat[k], decode))
  }

  /** `decode_latents`: flatten frames into the batch, decode, unflatten.  The decoder,
      including its 1 / 0.18215 input scaling, is the parameter `decode`. */
  function DecodeLatents<S>(data: seq<seq<S>>, frames: nat, decode: S -> seq<real>)
    : (video: seq<seq<seq<real>>>)
    requires frames > 0 && Rectangular(data, frames)
    // the "(b f)" round trip puts every decoded frame back where it came from
    ensures video == DecodeFrames(data, decode)
  {
    DecodeEachFlatten(data, decode);
    UnflattenFlatten(DecodeFrames(data, decode), frames);
    Unflatten(DecodeEach(Flatten(data), decode), frames)
  }

  /** Decoding slab by slab in place, the reference for `decode_latents`. */
  function DecodeFrames<S>(data: seq<seq<S>>, decode: S -> seq<real>): (video: seq<seq<seq<real>>>)
    ensures |video| == |data|
    ensures forall b :: 0 <= b < |data| ==> |video[b]| == |data[b]|
    ensures forall b, f :: 0 <= b < |data| && 0 <= f < |data[b]| ==> video[b][f] == Pixels(data[b][f], decode)
  {
    seq(|data|, b requires 0 <= b < |data| =>
      seq(|data[b]|, f requires 0 <= f < |data[b]| => Pixels(data[b][f], decode)))
  }

  lemma {:induction false} DecodeEachFlatten<S>(data: seq<seq<S>>, decode: S -> seq<real>)
    ensures DecodeEach(Flatten(data), decode) == Flatten(DecodeFrames(data, decode))
  {
    if data != [] {
      DecodeEachFlatten(data[1..], decode);
      var v := DecodeFrames(data, decode);
      assert v[1..] == DecodeFrames(data[1..], decode);
      assert Flatten(v) == v[0] + Flatten(v[1..]);
    }
  }
}
