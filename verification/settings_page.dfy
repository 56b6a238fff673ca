/** The settings page (src/app/settings/page.tsx): loading the stored
    provider, saving a new one behind its guards, and resetting it. Error and
    success texts are strings, with "" meaning none, as in the page. */
module SettingsPage {
  import opened Wrappers
  import JsString
  import opened ProviderStore

  datatype SettingsState = SettingsState(current: string, input: string, loading: bool, error: string, success: string)

  const Initial: SettingsState := SettingsState("", "", false, "", "")

  /** The state a handler leaves and the outside calls it made. */
  datatype Run = Run(state: SettingsState, steps: seq<Step>)

  const BlankError: string := "Please enter a Docker provider name"
  const SameError: string := "This is already your current provider"
  const SaveFailed: string := "Failed to update Docker provider. Please try again."
  const Saved: string := "Docker provider updated successfully!"
  const ResetFailed: string := "Failed to reset provider settings."
  const ResetDone: string := "Provider settings reset successfully!"

  /** The rejection text quotes the input as typed, not trimmed. */
  function InvalidError(input: string): string {
    "\"" + input + "\" is not a valid Docker provider or is not running."
  }

  /** The initial load: a non-empty stored provider becomes both the current
      provider and the input; an absent or empty one, or a failed read,
      changes nothing. */
  function Load(s: SettingsState, read: StoreRead): (r: SettingsState)
    ensures read.ReadOk? && read.stored.Some? && read.stored.value != "" ==>
      r == s.(current := read.stored.value, input := read.stored.value)
    ensures read.ReadThrew? || read.stored.None? || read.stored.value == "" ==> r == s
  {
    if read.ReadOk? && read.stored.Some? && read.stored.value != "" then
      s.(current := read.stored.value, input := read.stored.value)
    else s
  }

  /** `handleSave`. A blank input or one equal to the current provider is
      rejected with no outside call and nothing else changed; any other input
      goes on to `Attempt` with its trimmed form. */
  function HandleSave(s: SettingsState, validation: Validation, persist: Outcome, reset: Outcome): (run: Run)
    ensures JsString.Trim(s.input) == "" ==> run == Run(s.(error := BlankError), [])
    ensures JsString.Trim(s.input) != "" && JsString.Trim(s.input) == s.current ==> run == Run(s.(error := SameError), [])
    ensures JsString.Trim(s.input) != "" && JsString.Trim(s.input) != s.current ==>
      run == Attempt(s, JsString.Trim(s.input), validation, persist, reset)
    ensures run.state.current != s.current <==>
      JsString.Trim(s.input) != "" && JsString.Trim(s.input) != s.current
      && validation.Valid? && persist.Pass? && reset.Pass?
  {
    var t := JsString.Trim(s.input);
    if t == "" then Run(s.(error := BlankError), [])
    else if t == s.current then Run(s.(error := SameError), [])
    else Attempt(s, t, validation, persist, reset)
  }

  /** A save past the guards, for the trimmed name `t`: the messages are
      cleared, `t` is validated and, when valid, persisted, the engine client
      is reset, and only then does `t` become current. Any exception leaves
      the current provider alone; loading ends whatever happens. */
  function Attempt(s: SettingsState, t: string, validation: Validation, persist: Outcome, reset: Outcome): (run: Run)
    requires t != "" && t != s.current
    ensures |run.steps| >= 1 && run.steps[0] == Validate(t)
    ensures forall k :: 0 <= k < |run.steps| && run.steps[k].Persist? ==> run.steps[k].name == t
    ensures !run.state.loading && run.state.input == s.input
    ensures run.state.current != s.current <==> validation.Valid? && persist.Pass? && reset.Pass?
    ensures run.state.current != s.current ==>
      run.state.current == t && run.state.success == Saved && run.state.error == ""
      && run.steps == [Validate(t), Persist(t), ResetInstance]
    ensures Persists(run.steps) ==> validation.Valid?
    ensures validation.Invalid? ==>
      run == Run(s.(loading := false, error := InvalidError(s.input), success := ""), [Validate(t)])
    ensures validation.ValidationThrew? || (validation.Valid? && (persist.Fail? || reset.Fail?)) ==>
      run.state.error == SaveFailed && run.state.success == ""
  {
    var settled := s.(loading := false, error := "", success := "");
    match validation
    case ValidationThrew => Run(settled.(error := SaveFailed), [Validate(t)])
    case Invalid => Run(settled.(error := InvalidError(s.input)), [Validate(t)])
    case Valid =>
      if persist.Fail? then Run(settled.(error := SaveFailed), [Validate(t), Persist(t)])
      else if reset.Fail? then Run(settled.(error := SaveFailed), [Validate(t), Persist(t), ResetInstance])
      else Run(settled.(current := t, success := Saved), [Validate(t), Persist(t), ResetInstance])
  }

  /** Saving the same input again right after a successful save is refused
      without any outside call. */
  lemma SaveTwiceRefused(s: SettingsState, v: Validation, p: Outcome, r: Outcome)
    requires s.input != "" && s.input != s.current
    requires !JsString.IsWhitespace(s.input[0]) && !JsString.IsWhitespace(s.input[|s.input| - 1])
    ensures var first := HandleSave(s, Valid, Pass, Pass).state;
      first.current == s.input && HandleSave(first, v, p, r) == Run(first.(error := SameError), [])
  {
    JsString.TrimFixedPoint(s.input);
  }

  /** A stored provider loaded at start-up is refused as "already current"
      when saved unedited. */
  lemma LoadedProviderIsCurrent(s: SettingsState, stored: string, v: Validation, p: Outcome, r: Outcome)
    requires stored != "" && JsString.Trim(stored) == stored
    ensures var loaded := Load(s, ReadOk(Some(stored)));
      HandleSave(loaded, v, p, r).steps == [] && HandleSave(loaded, v, p, r).state.error == SameError
  {
  }

  /** When the engine-client reset fails after the write, the store already
      holds the new name but the page still shows the old one. */
  lemma ResetFailureLeavesStoreAhead(s: SettingsState, t: string)
    requires t != "" && t != s.current
    ensures var run := Attempt(s, t, Valid, Pass, Fail("reset"));
      Persists(run.steps) && run.state.current == s.current && run.state.error == SaveFailed
  {
    var run := Attempt(s, t, Valid, Pass, Fail("reset"));
    assert run.steps[1].Persist?;
  }

  /** `handleReset`: nothing unless confirmed; then clear the store, reset the
      engine client, and empty both the current provider and the input. A
      failure on the way reports an error and changes no provider field. */
  function HandleReset(s: SettingsState, confirmed: bool, clear: Outcome, reset: Outcome): (run: Run)
    ensures !confirmed ==> run == Run(s, [])
    ensures confirmed ==> |run.steps| >= 1 && run.steps[0] == ClearStore && !Persists(run.steps)
    ensures confirmed && clear.Pass? && reset.Pass? ==>
      run == Run(s.(current := "", input := "", success := ResetDone), [ClearStore, ResetInstance])
    ensures confirmed && (clear.Fail? || reset.Fail?) ==>
      run.state == s.(error := ResetFailed)
  {
    if !confirmed then Run(s, [])
    else if clear.Fail? then Run(s.(error := ResetFailed), [ClearStore])
    else if reset.Fail? then Run(s.(error := ResetFailed), [ClearStore, ResetInstance])
    else Run(s.(current := "", input := "", success := ResetDone), [ClearStore, ResetInstance])
  }

  /** After a reset nothing is current, so any non-blank name can be saved
      again and reaches validation. */
  lemma ResetReopensSave(s: SettingsState, name: string, v: Validation, p: Outcome, r: Outcome)
    requires JsString.Trim(name) != ""
    ensures var cleared := HandleReset(s, true, Pass, Pass).state;
      HandleSave(cleared.(input := name), v, p, r).steps[0] == Validate(JsString.Trim(name))
  {
  }
}
