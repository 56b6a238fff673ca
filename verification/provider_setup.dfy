/** The first-run provider form (src/components/ProviderSetup.tsx). */
module ProviderSetup {
  import opened Wrappers
  import JsString
  import opened ProviderStore

  datatype SetupState = SetupState(input: string, loading: bool, error: string)

  const Initial: SetupState := SetupState("", false, "")

  datatype Run = Run(state: SetupState, steps: seq<Step>)

  const BlankError: string := "Please enter a Docker provider name"
  const SubmitFailed: string := "Failed to validate Docker provider. Please try again."

  function InvalidError(input: string): string {
    "\"" + input + "\" is not a valid Docker provider or is not running. Please check your Docker installation."
  }

  /** `handleSubmit`: a blank input is refused with no outside call; otherwise
      the trimmed name is validated and, when valid, persisted and then handed
      to the callback. Any exception gives the generic error; loading ends
      after every attempt that started. */
  function HandleSubmit(s: SetupState, validation: Validation, persist: Outcome): (run: Run)
    ensures JsString.Trim(s.input) == "" ==> run == Run(s.(error := BlankError), [])
    ensures JsString.Trim(s.input) != "" ==> run == Attempt(s, JsString.Trim(s.input), validation, persist)
  {
    var t := JsString.Trim(s.input);
    if t == "" then Run(s.(error := BlankError), []) else Attempt(s, t, validation, persist)
  }

  /** The part of `handleSubmit` past the blank-input guard, for the trimmed name `t`. */
  function Attempt(s: SetupState, t: string, validation: Validation, persist: Outcome): (run: Run)
    requires t != ""
    ensures |run.steps| >= 1 && run.steps[0] == Validate(t)
    ensures !run.state.loading && run.state.input == s.input
    ensures (exists k :: 0 <= k < |run.steps| && run.steps[k].Notify?) <==> validation.Valid? && persist.Pass?
    ensures validation.Valid? && persist.Pass? ==>
      run.steps == [Validate(t), Persist(t), Notify(t)] && run.state.error == ""
    ensures Persists(run.steps) ==> validation.Valid?
    ensures validation.Invalid? ==> run.state.error == InvalidError(s.input) && run.steps == [Validate(t)]
    ensures validation.ValidationThrew? || (validation.Valid? && persist.Fail?) ==> run.state.error == SubmitFailed
  {
    var settled := s.(loading := false, error := "");
    match validation
    case ValidationThrew => Run(settled.(error := SubmitFailed), [Validate(t)])
    case Invalid => Run(settled.(error := InvalidError(s.input)), [Validate(t)])
    case Valid =>
      if persist.Fail? then Run(settled.(error := SubmitFailed), [Validate(t), Persist(t)])
      else
        var steps := [Validate(t), Persist(t), Notify(t)];
        assert steps[2].Notify?;
        Run(settled, steps)
  }

  /** The callback, when it comes, always follows the write of the same name. */
  lemma NotifyFollowsPersist(s: SetupState, validation: Validation, persist: Outcome, k: int)
    requires var run := HandleSubmit(s, validation, persist);
      0 <= k < |run.steps| && run.steps[k].Notify?
    ensures var run := HandleSubmit(s, validation, persist);
      k >= 1 && run.steps[k - 1] == Persist(run.steps[k].name) && run.steps[k].name != ""
  {
    var t := JsString.Trim(s.input);
    if t != "" {
      AttemptNotifyFollowsPersist(s, t, validation, persist, k);
    }
  }

  /** The same for the part past the guard: only the last of the three steps
      of a successful attempt is the callback. */
  lemma AttemptNotifyFollowsPersist(s: SetupState, t: string, validation: Validation, persist: Outcome, k: int)
    requires t != ""
    requires var run := Attempt(s, t, validation, persist);
      0 <= k < |run.steps| && run.steps[k].Notify?
    ensures var run := Attempt(s, t, validation, persist);
      k >= 1 && run.steps[k - 1] == Persist(run.steps[k].name) && run.steps[k].name != ""
  {
  }
}
