/** What the provider screens (src/app/settings/page.tsx,
    src/components/ProviderSetup.tsx, src/components/ProviderWrapper.tsx) do
    outside themselves: read and write the stored provider, ask the server
    whether a provider works, and reset the engine client. Each is an input
    to the handlers; a handler's record of calls is a sequence of `Step`s. */
module ProviderStore {
  import opened Wrappers

  /** Reading the stored provider: its value (possibly absent), or an exception. */
  datatype StoreRead = ReadOk(stored: Option<string>) | ReadThrew

  /** What the validation request answered. */
  datatype Validation = Valid | Invalid | ValidationThrew

  /** The outside calls a handler makes, in order. */
  datatype Step =
    | Validate(name: string)      // networkService.getProviderDetails
    | Persist(name: string)       // indexedDBUtils.setDockerProvider
    | ResetInstance               // resetDockerInstance
    | ClearStore                  // indexedDBUtils.clearProvider
    | Notify(name: string)        // the onProviderSet callback

  /** Whether the steps write a provider to the store. */
  predicate Persists(steps: seq<Step>) {
    exists k :: 0 <= k < |steps| && steps[k].Persist?
  }
}
