/**
 * The configuration clean-up done when the pipeline is constructed, the VAE scale
 * factor it derives, and the default output size used by a sampling run.
 *
 * A configuration attribute that may be missing is an `Option`: `None` stands for
 * `hasattr(config, name)` being false.  A diffusers version is given by its release
 * components (`base_version`), e.g. [0, 8, 1]; parsing version strings is not modelled.
 */
module PipelineConfig {
  import opened Wrappers
  import Inputs

  /** The two scheduler settings that are checked: `steps_offset` and `clip_sample`. */
  datatype SchedulerConfig = SchedulerConfig(stepsOffset: Option<int>, clipSample: Option<bool>)

  /** The two UNet settings that are checked: `_diffusers_version` and `sample_size`. */
  datatype UNetConfig = UNetConfig(diffusersVersion: Option<seq<nat>>, sampleSize: Option<int>)

  /** A scheduler configuration needs no rewrite: `steps_offset` is 1 and `clip_sample`
      is not True wherever they are present. */
  predicate SchedulerUpToDate(c: SchedulerConfig) {
    (c.stepsOffset.Some? ==> c.stepsOffset.value == 1) &&
    (c.clipSample.Some? ==> !c.clipSample.value)
  }

  /** `steps_offset != 1` is reset to 1 and `clip_sample is True` to False; a setting that
      is absent stays absent and everything else is kept. */
  function NormalizeScheduler(c: SchedulerConfig): (r: SchedulerConfig)
    ensures SchedulerUpToDate(r)
    ensures r.stepsOffset.Some? == c.stepsOffset.Some? && r.clipSample.Some? == c.clipSample.Some?
    ensures SchedulerUpToDate(c) ==> r == c
  {
    var c1 := if c.stepsOffset.Some? && c.stepsOffset.value != 1 then c.(stepsOffset := Some(1)) else c;
    if c1.clipSample.Some? && c1.clipSample.value then c1.(clipSample := Some(false)) else c1
  }

  /** Release components compared as `packaging.version` does: missing trailing
      components count as zeros. */
  predicate ReleaseLess(a: seq<nat>, b: seq<nat>)
    decreases |a| + |b|
  {
    if a == [] && b == [] then false
    else
      var x := if a == [] then 0 else a[0];
      var y := if b == [] then 0 else b[0];
      x < y || (x == y && ReleaseLess(if a == [] then [] else a[1..], if b == [] then [] else b[1..]))
  }

  /** `version.parse(base_version) < version.parse("0.9.0.dev0")`.  A base version carries
      no dev suffix, and 0.9.0.dev0 comes before 0.9.0, so this is "released before 0.9.0". */
  predicate BeforeRelease090(v: seq<nat>) {
    ReleaseLess(v, [0, 9, 0])
  }

  /** Pre-0.9.0 UNet configurations with a sample size below 64 are bumped to 64. */
  predicate UNetUpToDate(c: UNetConfig) {
    !(c.diffusersVersion.Some? && BeforeRelease090(c.diffusersVersion.value) &&
      c.sampleSize.Some? && c.sampleSize.value < 64)
  }

  function NormalizeUNet(c: UNetConfig): (r: UNetConfig)
    ensures UNetUpToDate(r)
    ensures r.diffusersVersion == c.diffusersVersion && r.sampleSize.Some? == c.sampleSize.Some?
    ensures UNetUpToDate(c) ==> r == c
    ensures !UNetUpToDate(c) ==> r.sampleSize == Some(64)
  {
    if c.diffusersVersion.Some? && BeforeRelease090(c.diffusersVersion.value) &&
       c.sampleSize.Some? && c.sampleSize.value < 64
    then c.(sampleSize := Some(64))
    else c
  }

  /** Construction-time normalisation is idempotent: a second pass changes nothing. */
  lemma NormalizeIdempotent(s: SchedulerConfig, u: UNetConfig)
    ensures NormalizeScheduler(NormalizeScheduler(s)) == NormalizeScheduler(s)
    ensures NormalizeUNet(NormalizeUNet(u)) == NormalizeUNet(u)
  {
  }

  /** Every 0.8.x release is older than 0.9.0; 0.9.0 itself and 0.10.0 are not. */
  lemma {:induction false} ReleaseExamples(patch: nat)
    ensures BeforeRelease090([0, 8, patch])
    ensures !BeforeRelease090([0, 9, 0]) && !BeforeRelease090([0, 9]) && !BeforeRelease090([0, 10])
  {
    assert [0, 8, patch][1..] == [8, patch];
    assert [0, 9, 0][1..] == [9, 0] && [9, 0][1..] == [0] && [0][1..] == [];
    assert [0, 9][1..] == [9] && [9][1..] == [];
    assert [0, 10][1..] == [10];
  }

  function Pow2(e: nat): (p: nat)
    ensures p >= 1
  {
    if e == 0 then 1 else 2 * Pow2(e - 1)
  }

  /** The release ordering is strict: of two releases at most one comes first, so (with
      b == a) no release precedes itself. */
  lemma {:induction false} ReleaseLessStrict(a: seq<nat>, b: seq<nat>)
    ensures !(ReleaseLess(a, b) && ReleaseLess(b, a))
    decreases |a| + |b|
  {
    if a != [] || b != [] {
      ReleaseLessStrict(if a == [] then [] else a[1..], if b == [] then [] else b[1..]);
    }
  }

  /** A trailing zero component changes nothing: 0.9 and 0.9.0 are the same release. */
  lemma {:induction false} ReleaseLessPadding(a: seq<nat>, b: seq<nat>)
    ensures ReleaseLess(a + [0], b) == ReleaseLess(a, b)
    ensures ReleaseLess(b, a + [0]) == ReleaseLess(b, a)
    decreases |a| + |b|
  {
    if a == [] {
      ZeroRelease(b);
    } else {
      assert (a + [0])[0] == a[0] && (a + [0])[1..] == a[1..] + [0];
      ReleaseLessPadding(a[1..], if b == [] then [] else b[1..]);
    }
  }

  /** The release [0] is the empty release: nothing lies strictly between. */
  lemma {:induction false} ZeroRelease(b: seq<nat>)
    ensures ReleaseLess([0], b) == ReleaseLess([], b)
    ensures ReleaseLess(b, [0]) == ReleaseLess(b, [])
  {
    assert [0][1..] == [];
  }

  /** `vae_scale_factor = 2 ** (len(block_out_channels) - 1)`: each down block after the
      first halves the resolution. */
  function VaeScaleFactor(blocks: nat): (s: nat)
    requires blocks >= 1
    ensures s >= 1
  {
    Pow2(blocks - 1)
  }

  /** One more block doubles the scale factor; the usual four blocks give 8. */
  lemma {:induction false} VaeScaleFactorDoubles(blocks: nat)
    requires blocks >= 1
    ensures VaeScaleFactor(blocks + 1) == 2 * VaeScaleFactor(blocks)
    ensures VaeScaleFactor(1) == 1 && VaeScaleFactor(4) == 8
  {
    assert Pow2(3) == 2 * Pow2(2) && Pow2(2) == 2 * Pow2(1) && Pow2(1) == 2 * Pow2(0);
  }

  /** A scale factor divides the next one: every scale factor up to four blocks divides 8. */
  lemma {:induction false} VaeScaleFactorDividesEight(blocks: nat)
    requires 1 <= blocks <= 4
    ensures 8 % VaeScaleFactor(blocks) == 0
  {
    assert Pow2(3) == 2 * Pow2(2) && Pow2(2) == 2 * Pow2(1) && Pow2(1) == 2 * Pow2(0);
  }

  /** `height = height or unet.config.sample_size * vae_scale_factor`: Python's `or` also
      replaces an explicit 0. */
  function ResolveSize(requested: Option<int>, sampleSize: int, scale: nat): (size: int)
    ensures requested.Some? && requested.value != 0 ==> size == requested.value
    ensures (requested.None? || requested.value == 0) ==> size == sampleSize * scale
    // a size of 0 survives only when the fallback itself is 0
    ensures size == 0 ==> sampleSize * scale == 0
  {
    if requested.Some? && requested.value != 0 then requested.value else sampleSize * scale
  }

  /** From four VAE blocks on, the scale factor is a multiple of 8. */
  lemma {:induction false} VaeScaleFactorMultipleOf8(blocks: nat)
    requires blocks >= 4
    ensures VaeScaleFactor(blocks) % 8 == 0
    decreases blocks
  {
    VaeScaleFactorDoubles(1);
    if blocks > 4 {
      VaeScaleFactorMultipleOf8(blocks - 1);
      VaeScaleFactorDoubles(blocks - 1);
    }
  }

  /** A size left to the default always passes the multiple-of-8 guard of `check_inputs`
      when the VAE has four blocks or more, whatever the UNet's sample size. */
  lemma DefaultSizeMultipleOf8(requested: Option<int>, sampleSize: int, blocks: nat)
    requires requested.None? || requested.value == 0
    requires blocks >= 4
    ensures Inputs.DivisibleBy8(ResolveSize(requested, sampleSize, VaeScaleFactor(blocks)))
  {
    var scale := VaeScaleFactor(blocks);
    VaeScaleFactorMultipleOf8(blocks);
    var q := scale / 8;
    assert scale == 8 * q;
    assert sampleSize * scale == 8 * (sampleSize * q);
    assert Inputs.Times8(sampleSize * q) == sampleSize * scale;
  }

  /** With a normalised pre-0.9.0 configuration whose sample size was too small, the
      default size is 64 latent pixels scaled up, e.g. 512 for the usual four blocks. */
  lemma DefaultSizeAfterNormalize(u: UNetConfig)
    requires !UNetUpToDate(u)
    ensures ResolveSize(None, NormalizeUNet(u).sampleSize.value, VaeScaleFactor(4)) == 512
  {
    VaeScaleFactorDoubles(1);
  }
}
