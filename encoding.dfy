/**
 * The batch layout built by `_encode_prompt` and the `init_text_embedding` override of a
 * sampling run.  The tokenizer and text encoder are one opaque function from a prompt
 * string to its embedding; what is modelled is which strings are encoded, in which
 * rows, and when the call raises.
 */
module PromptEncoding {
  import opened Wrappers
  import opened Inputs

  datatype EncodeError =
    | NegativePromptTypeError   // `negative_prompt` is not of the type of `prompt`
    | NegativePromptBatchError  // a list `negative_prompt` of the wrong length
    | EmbeddingShapeError       // the override does not fit the slice it replaces

  /** `batch_size = len(prompt) if isinstance(prompt, list) else 1`. */
  function BatchSize(prompt: Prompt): nat {
    if prompt.Texts? then |prompt.texts| else 1
  }

  /** The strings handed to the tokenizer: a single prompt is a batch of one. */
  function PromptTexts(prompt: Prompt): (texts: seq<string>)
    requires !prompt.NotText?
    ensures |texts| == BatchSize(prompt)
  {
    if prompt.Text? then [prompt.text] else prompt.texts
  }

  /** `type(prompt) is type(negative_prompt)` */
  predicate SameType(a: Prompt, b: Prompt) {
    (a.Text? && b.Text?) || (a.Texts? && b.Texts?) || (a.NotText? && b.NotText?)
  }

  /** `uncond_tokens`: the negative prompts used for the unconditional half of the batch. */
  function UncondTokens(prompt: Prompt, negative: Option<Prompt>): (r: Result<seq<string>, EncodeError>)
    requires !prompt.NotText?
    ensures r.Ok? ==> |r.value| == BatchSize(prompt)
    ensures negative.None? ==> r.Ok? && forall k :: 0 <= k < |r.value| ==> r.value[k] == ""
    ensures negative.Some? && !negative.value.NotText? && r.Ok? ==> r.value == PromptTexts(negative.value)
    ensures r == Err(NegativePromptTypeError) <==> negative.Some? && !SameType(prompt, negative.value)
    ensures r == Err(NegativePromptBatchError) <==>
      negative.Some? && SameType(prompt, negative.value) && negative.value.Texts? &&
      |negative.value.texts| != BatchSize(prompt)
    ensures r.Err? ==> r.error != EmbeddingShapeError
  {
    if negative.None? then Ok(seq(BatchSize(prompt), _ => ""))
    else if !SameType(prompt, negative.value) then Err(NegativePromptTypeError)
    else if negative.value.Text? then Ok([negative.value.text])
    else if BatchSize(prompt) != |negative.value.texts| then Err(NegativePromptBatchError)
    else Ok(negative.value.texts)
  }

  /** `embeddings.repeat(1, n, 1).view(len * n, seq_len, -1)`: each row repeated n times in
      place. */
  function RepeatRows<E>(rows: seq<E>, n: nat): (r: seq<E>)
    ensures |r| == |rows| * n
  {
    if rows == [] then [] else seq(n, _ => rows[0]) + RepeatRows(rows[1..], n)
  }

  /** Row b * n + j of the repeated rows, for j < n, is copy j of row b. */
  lemma {:induction false} RepeatRowsAt<E>(rows: seq<E>, n: nat, b: nat, j: nat)
    requires b < |rows| && j < n
    ensures b * n + j < |RepeatRows(rows, n)| && RepeatRows(rows, n)[b * n + j] == rows[b]
  {
    if b > 0 {
      RepeatRowsAt(rows[1..], n, b - 1, j);
      assert b * n + j == n + ((b - 1) * n + j);
    }
  }

  /** The embeddings of a batch of strings. */
  function EncodeAll<E>(texts: seq<string>, encode: string -> E): (rows: seq<E>)
    ensures |rows| == |texts| && forall k :: 0 <= k < |texts| ==> rows[k] == encode(texts[k])
  {
    seq(|texts|, k requires 0 <= k < |texts| => encode(texts[k]))
  }

  /**
   * `_encode_prompt`: the conditional rows are the prompts' embeddings, each repeated
   * `num_videos_per_prompt` times; under classifier-free guidance the unconditional rows,
   * built the same way from `uncond_tokens`, come first.
   */
  function EncodePrompt<E>(prompt: Prompt, n: nat, guidance: bool, negative: Option<Prompt>,
                           encode: string -> E): (r: Result<seq<E>, EncodeError>)
    requires !prompt.NotText?
    ensures !guidance ==> r.Ok?
    ensures guidance ==> (r.Ok? <==> UncondTokens(prompt, negative).Ok?)
    ensures guidance && r.Err? ==> r.error == UncondTokens(prompt, negative).error
    ensures r.Ok? ==> |r.value| == (if guidance then 2 else 1) * (BatchSize(prompt) * n)
    // the conditional block comes last, the unconditional block (under guidance) first
    ensures r.Ok? ==> var offset := if guidance then BatchSize(prompt) * n else 0;
      r.value[offset..] == RepeatRows(EncodeAll(PromptTexts(prompt), encode), n)
    ensures guidance && r.Ok? ==>
      r.value[..BatchSize(prompt) * n] == RepeatRows(EncodeAll(UncondTokens(prompt, negative).value, encode), n)
  {
    var cond := RepeatRows(EncodeAll(PromptTexts(prompt), encode), n);
    if !guidance then Ok(cond)
    else
      match UncondTokens(prompt, negative)
      case Err(e) => Err(e)
      case Ok(tokens) => Ok(RepeatRows(EncodeAll(tokens, encode), n) + cond)
  }

  /** Row b * n + j of each block is copy j of the embedding of prompt b (of negative
      prompt b in the unconditional block). */
  lemma {:induction false} EncodedRow<E>(prompt: Prompt, n: nat, guidance: bool, negative: Option<Prompt>,
                                         encode: string -> E, b: nat, j: nat)
    requires !prompt.NotText? && EncodePrompt(prompt, n, guidance, negative, encode).Ok?
    requires b < BatchSize(prompt) && j < n
    ensures var rows := EncodePrompt(prompt, n, guidance, negative, encode).value;
      var offset := if guidance then BatchSize(prompt) * n else 0;
      b * n + j < BatchSize(prompt) * n &&
      rows[offset + b * n + j] == encode(PromptTexts(prompt)[b]) &&
      (guidance ==> rows[b * n + j] == encode(UncondTokens(prompt, negative).value[b]))
  {
    var rows := EncodePrompt(prompt, n, guidance, negative, encode).value;
    var offset := if guidance then BatchSize(prompt) * n else 0;
    var cond := EncodeAll(PromptTexts(prompt), encode);
    RepeatRowsAt(cond, n, b, j);
    assert rows[offset..][b * n + j] == rows[offset + b * n + j];
    if guidance {
      var uncond := EncodeAll(UncondTokens(prompt, negative).value, encode);
      RepeatRowsAt(uncond, n, b, j);
      assert rows[..BatchSize(prompt) * n][b * n + j] == rows[b * n + j];
    }
  }

  /** Without a negative prompt the unconditional rows are all the embedding of "". */
  lemma {:induction false} EmptyNegativeRows<E>(prompt: Prompt, n: nat, encode: string -> E, b: nat, j: nat)
    requires !prompt.NotText? && b < BatchSize(prompt) && j < n
    ensures var r := EncodePrompt(prompt, n, true, None, encode);
      r.Ok? && b * n + j < |r.value| && r.value[b * n + j] == encode("")
  {
    EncodedRow(prompt, n, true, None, encode, b, j);
  }

  /**
   * `text_embeddings[video_length:] = init_text_embedding`: the rows from `video_length`
   * on are replaced.  The slice is empty when `video_length` reaches past the end; a
   * replacement of one row is broadcast over the slice; any other size mismatch raises.
   */
  function OverrideTail<E>(rows: seq<E>, videoLength: nat, init: seq<E>): (r: Result<seq<E>, EncodeError>)
    ensures r.Ok? ==> |r.value| == |rows|
    ensures r.Ok? ==> videoLength <= |rows| ==> r.value[..videoLength] == rows[..videoLength]
    ensures r.Ok? && |init| == |rows| - videoLength ==> r.value[videoLength..] == init
    // a single replacement row is broadcast over the slice
    ensures r.Ok? && |init| == 1 ==> forall k :: videoLength <= k < |rows| ==> r.value[k] == init[0]
    // past the end the slice is empty and nothing changes
    ensures r.Ok? && |rows| <= videoLength ==> r.value == rows
    ensures r.Err? <==> var m := if videoLength <= |rows| then |rows| - videoLength else 0;
      |init| != m && |init| != 1
  {
    var keep := if videoLength <= |rows| then videoLength else |rows|;
    var m := |rows| - keep;
    if |init| == m then Ok(rows[..keep] + init)
    else if |init| == 1 then Ok(rows[..keep] + seq(m, _ => init[0]))
    else Err(EmbeddingShapeError)
  }

  /** Under guidance, with one video per prompt and one prompt per frame, the override
      keeps the unconditional rows and replaces exactly the conditional rows. */
  lemma {:induction false} OverrideReplacesConditional<E>(texts: seq<string>, negative: Option<Prompt>,
                                                          encode: string -> E, init: seq<E>)
    requires EncodePrompt(Texts(texts), 1, true, negative, encode).Ok?
    requires |init| == |texts|
    ensures var rows := EncodePrompt(Texts(texts), 1, true, negative, encode).value;
      OverrideTail(rows, |texts|, init) ==
        Ok(RepeatRows(EncodeAll(UncondTokens(Texts(texts), negative).value, encode), 1) + init)
  {
    var rows := EncodePrompt(Texts(texts), 1, true, negative, encode).value;
    assert |rows| == 2 * |texts|;
  }
}
