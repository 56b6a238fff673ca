/** The gate in front of the app (src/components/ProviderWrapper.tsx): a
    loader while the stored provider is read, the setup form while there is
    none, and the app itself once there is one. */
module ProviderWrapper {
  import opened Wrappers
  import opened ProviderStore
  import ProviderSetup

  datatype WrapperState = WrapperState(provider: Option<string>, loading: bool)

  const Initial: WrapperState := WrapperState(None, true)

  /** `checkProvider`: take whatever was read, even nothing; a failed read
      keeps the provider. Loading ends either way. */
  function CheckProvider(s: WrapperState, read: StoreRead): (r: WrapperState)
    ensures !r.loading
    ensures read.ReadOk? ==> r.provider == read.stored
    ensures read.ReadThrew? ==> r.provider == s.provider
  {
    match read
    case ReadOk(stored) => WrapperState(stored, false)
    case ReadThrew => s.(loading := false)
  }

  /** What the gate renders. */
  datatype View = Loader | Setup | Children

  /** Loader while loading, whatever the provider; then setup for a missing
      or empty provider, the children otherwise. */
  function Render(s: WrapperState): (v: View)
    ensures s.loading <==> v == Loader
    ensures !s.loading ==> (v == Setup <==> s.provider.None? || s.provider.value == "")
    ensures v == Children ==> s.provider.Some? && s.provider.value != ""
  {
    if s.loading then Loader
    else if s.provider.None? || s.provider.value == "" then Setup
    else Children
  }

  /** `handleProviderSet`. */
  function HandleProviderSet(s: WrapperState, p: string): (r: WrapperState)
    ensures r.provider == Some(p) && r.loading == s.loading
  {
    s.(provider := Some(p))
  }

  /** A failed read at start-up leads to the setup form. */
  lemma FailedReadShowsSetup()
    ensures Render(CheckProvider(Initial, ReadThrew)) == Setup
  {
  }

  /** Whatever the start-up read gave, a setup form that reaches its callback
      lets the app through. */
  lemma SetupOpensGate(read: StoreRead, form: ProviderSetup.SetupState, validation: Validation, persist: Outcome, k: int)
    requires var run := ProviderSetup.HandleSubmit(form, validation, persist);
      0 <= k < |run.steps| && run.steps[k].Notify?
    ensures var name := ProviderSetup.HandleSubmit(form, validation, persist).steps[k].name;
      Render(HandleProviderSet(CheckProvider(Initial, read), name)) == Children
  {
    ProviderSetup.NotifyFollowsPersist(form, validation, persist, k);
  }
}
