/**
 * `check_inputs`: the eager validation of a sampling request.  Each guard raises a
 * `ValueError`; the first one that fails decides the error.
 */
module Inputs {
  import opened Wrappers

  /** The `prompt` argument: a `str`, a `list` of them (one per frame) or a value of any
      other Python type. */
  datatype Prompt = Text(text: string) | Texts(texts: seq<string>) | NotText

  /** The `callback_steps` argument: None, a Python int (bool included), or any other type. */
  datatype CallbackSteps = NoSteps | IntSteps(n: int) | NonIntSteps

  datatype InputError =
    | PromptTypeError           // `prompt` is neither str nor list
    | SizeNotMultipleOf8        // `height` or `width` not divisible by 8
    | CallbackStepsNotPositive  // `callback_steps` is None, not an int, or <= 0
    | PromptFrameMismatch       // per-frame prompts do not match the frames of `latents`

  function Times8(q: int): int { 8 * q }

  /** x is a multiple of 8 */
  ghost predicate DivisibleBy8(x: int) {
    exists q :: Times8(q) == x
  }

  /** A request `check_inputs` lets through, stated declaratively. `latentFrames` is
      `latents.shape[2]` when latents are supplied. */
  ghost predicate ValidRequest(prompt: Prompt, height: int, width: int, callbackSteps: CallbackSteps,
                         latentFrames: Option<nat>)
  {
    !prompt.NotText? &&
    DivisibleBy8(height) && DivisibleBy8(width) &&
    callbackSteps.IntSteps? && callbackSteps.n > 0 &&
    (prompt.Texts? && latentFrames.Some? ==> |prompt.texts| == latentFrames.value)
  }

  /** Python's `%` floors, Dafny's is Euclidean; for the divisor 8 both are 0 exactly on
      the multiples of 8. */
  lemma MultipleOf8(x: int)
    ensures x % 8 == 0 <==> DivisibleBy8(x)
  {
    if x % 8 == 0 {
      assert Times8(x / 8) == x;
    }
  }

  function CheckInputs(prompt: Prompt, height: int, width: int, callbackSteps: CallbackSteps,
                       latentFrames: Option<nat>): (r: Option<InputError>)
    // it returns normally exactly on valid requests
    ensures r.None? <==> ValidRequest(prompt, height, width, callbackSteps, latentFrames)
    // and otherwise raises for the first guard that fails
    ensures r == Some(PromptTypeError) <==> prompt.NotText?
    ensures r == Some(SizeNotMultipleOf8) <==>
      !prompt.NotText? && !(DivisibleBy8(height) && DivisibleBy8(width))
    ensures r == Some(CallbackStepsNotPositive) <==>
      !prompt.NotText? && DivisibleBy8(height) && DivisibleBy8(width) &&
      !(callbackSteps.IntSteps? && callbackSteps.n > 0)
    ensures r == Some(PromptFrameMismatch) <==>
      !prompt.NotText? && DivisibleBy8(height) && DivisibleBy8(width) &&
      callbackSteps.IntSteps? && callbackSteps.n > 0 &&
      prompt.Texts? && latentFrames.Some? && |prompt.texts| != latentFrames.value
  {
    MultipleOf8(height);
    MultipleOf8(width);
    if prompt.NotText? then Some(PromptTypeError)
    else if height % 8 != 0 || width % 8 != 0 then Some(SizeNotMultipleOf8)
    else if callbackSteps.NoSteps? || (callbackSteps.NonIntSteps? || callbackSteps.n <= 0)
    then Some(CallbackStepsNotPositive)
    else if prompt.Texts? && latentFrames.Some? && |prompt.texts| != latentFrames.value
    then Some(PromptFrameMismatch)
    else None
  }

  /** A height of 513 or a `callback_steps` of 0 is rejected before anything runs, and a
      single text prompt with a 512 x 512 request and one-step callbacks is accepted. */
  lemma RejectionExamples(prompt: Prompt)
    requires !prompt.NotText?
    ensures CheckInputs(prompt, 513, 512, IntSteps(1), None) == Some(SizeNotMultipleOf8)
    ensures CheckInputs(prompt, 512, 512, IntSteps(0), None) == Some(CallbackStepsNotPositive)
    ensures CheckInputs(Text("a dog running"), 512, 512, IntSteps(1), Some(8)) == None
  {
    assert Times8(64) == 512;
  }
}
