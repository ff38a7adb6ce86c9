/**
 * `prepare_extra_step_kwargs`: the keyword arguments passed to the scheduler's `step`
 * beyond the model output, chosen by which parameter names its signature declares.
 */
module StepKwargs {
  /** A value passed to `scheduler.step`: the DDIM `eta`, or the random generator. */
  datatype StepArg<G> = Eta(eta: real) | Generator(generator: G)

  /** `params` is the set of parameter names of `scheduler.step`. */
  function ExtraStepKwargs<G>(params: set<string>, generator: G, eta: real): (m: map<string, StepArg<G>>)
    ensures m.Keys <= {"eta", "generator"}
    ensures "eta" in m <==> "eta" in params
    ensures "generator" in m <==> "generator" in params
    ensures "eta" in m ==> m["eta"] == Eta(eta)
    ensures "generator" in m ==> m["generator"] == Generator(generator)
  {
    var withEta: map<string, StepArg<G>> := if "eta" in params then map["eta" := Eta(eta)] else map[];
    if "generator" in params then withEta["generator" := Generator(generator)] else withEta
  }

  /** A scheduler whose `step` declares neither name gets no extra arguments; one that
      declares both (DDIM) gets both. */
  lemma ExtraStepKwargsExamples<G>(generator: G)
    ensures ExtraStepKwargs({"model_output", "timestep", "sample"}, generator, 0.0) == map[]
    ensures ExtraStepKwargs({"eta", "generator", "sample"}, generator, 0.5) ==
      map["eta" := Eta(0.5), "generator" := Generator(generator)]
  {
    var m := ExtraStepKwargs({"model_output", "timestep", "sample"}, generator, 0.0);
    assert "eta" !in {"model_output", "timestep", "sample"};
    assert "generator" !in {"model_output", "timestep", "sample"};
    assert m.Keys == {};
  }
}
