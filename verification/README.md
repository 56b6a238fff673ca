# docker-ui core, modelled in Dafny

docker-ui is a Next.js dashboard for a local container engine (Docker Desktop, Colima, Podman or Lima). This project models its decision logic as pure functions over immutable data:

- **Provider socket resolution and validation.** The `validate-provider` API route maps a provider name to the engine's control socket. It checks that an engine answers there. Its `POST` handler turns a request body into a status code and a response.
- **The shared engine client.** A lazily built singleton is always bound to Colima's socket. A facade delegates every call to it. `testConnection` reports whether the engine answers. Two command-line fallbacks parse the `|`-separated output of `docker ps` and `docker images`.
- **Card and navigation-bar derivations.**
  - Image card: the repository and tag, the shortened image ID, and the Remove button.
  - Container card: the container name, short ID and state badge, and which action buttons show.
  - Navigation bar: which link is active, and the engine status indicator.
- **The two list pages.**
  - The selection is a JavaScript `Set` of IDs, modelled as an insertion-ordered sequence without repeats.
  - Toggle and select-all.
  - A single action on a container or image sets a per-item marker, awaits the call, then refreshes or alerts. Bulk actions repeat it over the selection.
  - The page statistics, including the images' total size.
- **The provider screens.**
  - The settings page: load, save and reset.
  - The first-run setup form.
  - The wrapper that shows a loader, the setup form or the app.
- **The data hooks.** The list-fetch reducers, the engine-status check, and the log buffer.

Everything outside the browser and the server process is an input to the model:
- shell commands, as `Option<string>` (`None` when the command fails);
- engine calls, as functions from a client handle to a result;
- replies from the network service;
- reads and writes of the provider in the browser store;
- the `USER` environment variable.

A handler's record of outside calls is a sequence of steps or effects. Contracts speak about that sequence and about the resulting state.

JavaScript semantics are spelt out where they matter:
- `String.prototype.trim` uses the ECMAScript white-space and line-terminator set.
- `toLowerCase` is modelled for ASCII letters.
- `split` on one character always yields at least one piece.
- `replace` with a string pattern replaces only the first occurrence.
- `filter(line => line)` and `||` follow JavaScript truthiness.
- `slice` clamps its bounds to the string.
- An unset `USER` prints as `undefined` inside a template literal.

Behaviour of the code worth knowing:
- src/lib/docker.ts takes no provider at all: its socket always comes from Colima's docker context. A provider saved in the settings therefore never changes the shared client.
- The shared client is built once and never rebuilt or invalidated in src/lib/docker.ts.
- src/app/settings/page.tsx imports `resetDockerInstance`, but src/lib/docker.ts does not export it. The model treats it as an opaque call that may succeed or throw. `SettingsPage.ResetFailureLeavesStoreAhead` shows the consequence of a throw: the new provider is already stored, but the page still shows the old one.
- When a discovery command succeeds but prints only white space, resolution returns the empty path rather than the fallback.

## Model

| member | source | states |
|---|---|---|
| JsString.Trim | src/app/api/validate-provider/route.ts:13 | The trimmed text has no white space at either end, and it is empty exactly when the input is all white space |
| JsString.TrimIsSlice | src/app/api/validate-provider/route.ts:13 | The trimmed text is a slice of the input, and only white space lies before and after it |
| JsString.TrimFixedPoint | src/app/api/validate-provider/route.ts:25 | Trimming leaves a string unchanged exactly when it is empty or has no white space at either end |
| JsString.ToLower | src/app/api/validate-provider/route.ts:9 | Lower-casing keeps the length and maps each character on its own, changing only A-Z |
| JsString.ToLowerIdempotent | src/app/api/validate-provider/route.ts:9 | Lower-casing twice is the same as lower-casing once |
| JsString.ReplaceFirst | src/app/api/validate-provider/route.ts:13 | A string pattern replaces only the first occurrence. Text before and after that occurrence is kept; a string without the pattern is unchanged |
| JsString.ReplaceLeading | src/lib/docker.ts:11 | A string that begins with the pattern loses exactly that leading occurrence |
| JsString.Split | src/lib/docker.ts:83 | Splitting on one character gives at least one piece, no piece holds the separator, and joining the pieces with it gives the input back |
| JsString.SplitJoin | src/lib/docker.ts:86 | Splitting a join of separator-free pieces gives back exactly those pieces |
| JsString.NonEmpty | src/lib/docker.ts:84 | The truthiness filter keeps exactly the non-empty strings, each as many times as it occurs |
| JsString.NonEmptyOne | src/lib/docker.ts:84 | One string passes the filter exactly when it is non-empty |
| JsString.NonEmptyAppend | src/lib/docker.ts:84 | Filtering a concatenation filters each part and keeps them in order. With `NonEmptyOne`, this fixes the filter's output, order included, for every list |
| JsString.NonEmptyKeepsAll | src/lib/docker.ts:84 | The filter is the identity on a list without empty strings |
| ProviderResolver.Resolve | src/app/api/validate-provider/route.ts:8-36 | Resolution succeeds exactly for the five known names, compared in lower case. "colima" gives Colima's discovered socket, "podman" Podman's, "docker" and "docker-desktop" /var/run/docker.sock with no command, and "lima" the Lima home socket with no command. Any other name rejects with "Unknown provider: " and the name as given |
| ProviderResolver.ResolveColima | src/lib/docker.ts:10-13 | The lower-case name "colima" resolves to Colima's socket |
| ProviderResolver.PodmanDiscovered | src/app/api/validate-provider/route.ts:22-25 | A "podman" name in any case, with a successful machine command, resolves to the trimmed output after running that command |
| ProviderResolver.PodmanKeepsScheme | src/app/api/validate-provider/route.ts:25 | Podman's answer "unix://<path>" is kept whole; unlike Colima's, no scheme is removed |
| ProviderResolver.ColimaSocket | src/app/api/validate-provider/route.ts:10-16 | Colima runs its context command. On success the path is the trimmed output minus its first "unix://"; on failure it is the conventional path in the user's home |
| ProviderResolver.PodmanSocket | src/app/api/validate-provider/route.ts:22-28 | Podman runs its machine command. On success the path is the trimmed output with no scheme stripping; on failure it is the podman-machine-default socket |
| ProviderResolver.HomePath | src/app/api/validate-provider/route.ts:31 | Home paths begin with "/Users/" and the USER text, and end with the given suffix |
| ProviderResolver.ResolveIgnoresCase | src/app/api/validate-provider/route.ts:9 | A name and its lower-case form succeed or fail together, and a success gives the same resolution |
| ProviderResolver.DockerNeedsNoDiscovery | src/app/api/validate-provider/route.ts:18-20 | "docker" and "docker-desktop", in any case, give /var/run/docker.sock and run no command |
| ProviderResolver.LimaPath | src/app/api/validate-provider/route.ts:30-31 | "lima" gives /Users/<USER>/.lima/default/sock/docker.sock with no command |
| ProviderResolver.DiscoveryNeverFails | src/app/api/validate-provider/route.ts:10-28 | Colima and Podman never reject. A failed command gives their fallback paths |
| ProviderResolver.ColimaStripsScheme | src/app/api/validate-provider/route.ts:12-13 | The usual answer, "unix://" + path + newline, resolves to the bare path |
| ProviderResolver.ColimaStripsOnlyFirstScheme | src/app/api/validate-provider/route.ts:13 | A host naming "unix://" twice keeps the second one |
| ValidateProvider.Validate | src/app/api/validate-provider/route.ts:38-49 | Valid exactly when resolution succeeds and the engine answers `info()` on the resolved socket. Any rejection reads as invalid |
| ValidateProvider.UnknownProviderInvalid | src/app/api/validate-provider/route.ts:33-34 | An unknown name is invalid whatever the engine would answer |
| ValidateProvider.ValidateIgnoresCase | src/app/api/validate-provider/route.ts:9 | Validity does not depend on the case of the name |
| ValidateProvider.DockerValidity | src/app/api/validate-provider/route.ts:18-20 | A Docker Desktop name is valid exactly when the engine answers on the default socket |
| ValidateProvider.ProviderField | src/app/api/validate-provider/route.ts:53 | Destructuring throws exactly on a null body. An object yields its "provider" key; nothing else yields a value |
| ValidateProvider.ValidateValue | src/app/api/validate-provider/route.ts:38-48 | A string provider is valid as `Validate` decides. On a non-string, `toLowerCase` throws inside the try and the catch prints the value. The call rejects exactly when that printing throws: an object with its own "toString" key, or an array holding one. Otherwise the answer is false |
| ValidateProvider.Post | src/app/api/validate-provider/route.ts:51-77 | An unparsable or null body gives 500, and so does a truthy provider whose validation rejects. A falsy provider gives 400. Both are invalid, and 500 always carries "Internal server error". Otherwise the status is 200, and the provider is echoed as sent with its validity |
| ValidateProvider.PostEchoesProvider | src/app/api/validate-provider/route.ts:63-68 | A named provider gets 200 and is echoed unchanged, not lower-cased |
| ValidateProvider.PostRequiresProvider | src/app/api/validate-provider/route.ts:56-61 | A missing or empty provider gets 400 "Provider name is required" |
| ValidateProvider.PostNonStringInvalid | src/app/api/validate-provider/route.ts:63-68 | A truthy non-string provider that prints without throwing gets 200 but is never valid |
| ValidateProvider.PostUnprintableProvider | src/app/api/validate-provider/route.ts:46 | A provider whose printing in the catch throws makes POST answer 500 "Internal server error" |
| ValidateProvider.OwnToStringIsServerError | src/app/api/validate-provider/route.ts:46 | `{"provider": {"toString": 1}}` gets 500, and so does an array holding that object |
| DockerClient.ClientSocketPath | src/lib/docker.ts:8-15 | The shared client's socket is exactly what the route resolves for "colima". When the command fails it is the Colima fallback; no provider is consulted |
| DockerClient.GetInstance | src/lib/docker.ts:18-26 | The first call resolves the socket and builds the client. Later calls return the stored client without resolving, and the instance is set afterwards |
| DockerClient.InstanceIsStable | src/lib/docker.ts:20-25 | Once built, the client is handed out unchanged, even when discovery would now answer differently |
| DockerClient.FirstCallBuildsOnce | src/lib/docker.ts:20-25 | Two calls from the start resolve once and share one client bound to Colima's socket |
| DockerClient.Delegate | src/lib/docker.ts:28-60 | Every facade call obtains the instance first, so the instance is set afterwards, and the call is answered by that instance |
| DockerClient.TestConnection | src/lib/docker.ts:62-71 | True exactly when `info()` on the shared client resolves; a rejection reads as false |
| DockerClient.OutputLines | src/lib/docker.ts:81-84 | Output lines are non-empty and newline-free. Blank output gives no lines, and output whose trimmed text has no newline gives exactly that text as its one line |
| DockerClient.BlankLineDropped | src/lib/docker.ts:81-84 | Printed output with an empty line between two blocks reads back as the first block's lines, then the second's: the empty line is dropped and nothing else is |
| DockerClient.ContainerOfLine | src/lib/docker.ts:86-87 | The ID is the line up to its first `\|`, or the whole line when there is none. The single name entry is the text after that `\|`, up to the next `\|` or the end, and is undefined exactly when the line has no `\|`. The state is the text after the second `\|`, up to a third or the end |
| DockerClient.PsRowReadsBack | src/lib/docker.ts:86-87 | One clean `docker ps` row reads back as `{Id, Names: [name], State}` |
| DockerClient.ImageOfLine | src/lib/docker.ts:106-107 | repo, tag and id are the three fields `ContainerOfLine` finds, by position among the `\|` separators. From just after the second `\|`, id, created and size are found the same way. A field past the last `\|` is undefined, and so is every field after it |
| DockerClient.ImagesRowReadsBack | src/lib/docker.ts:106-107 | One clean `docker images` row reads back as `{repo, tag, id, created, size}` |
| DockerClient.PrintedLinesReadBack | src/lib/docker.ts:81-84 | The lines printed for clean rows read back as themselves |
| DockerClient.ParseContainers | src/lib/docker.ts:80-88 | One container record per non-empty line, in order. Blank output gives none |
| DockerClient.ParseImages | src/lib/docker.ts:100-108 | One image record per non-empty line, in order. Blank output gives none |
| DockerClient.CleanRowLine | src/lib/docker.ts:86 | A row of clean fields prints as one non-empty line that splits back into those fields |
| DockerClient.JoinKeepsOut | src/lib/docker.ts:81-83 | Joining never introduces a character that no piece holds |
| DockerClient.LinesRoundTrip | src/lib/docker.ts:81-84 | Reading back the printed lines gives exactly those lines |
| DockerClient.ContainerParserRoundTrip | src/lib/docker.ts:80-88 | Parsing what `docker ps` prints for clean rows gives exactly those rows, in order, as `{Id, Names: [name], State}` |
| DockerClient.ImageParserRoundTrip | src/lib/docker.ts:100-108 | Parsing what `docker images` prints for clean rows gives exactly those rows, in order |
| DockerClient.ShortLineLeavesFieldsUndefined | src/lib/docker.ts:86 | A line without separators leaves the name and state undefined |
| DockerClient.ListContainers | src/lib/docker.ts:74-91 | The engine's list when it answers, else the parsed `docker ps` output. It rejects only when both fail, and runningCount is the number returned in both branches |
| DockerClient.ListImages | src/lib/docker.ts:94-111 | The engine's list when it answers, else the parsed `docker images` output. It rejects only when both fail |
| ImageCard.RepoTag | src/components/ImageCard.tsx:35 | The first tag when it is a non-empty string, otherwise "none:none" |
| ImageCard.SplitRepoTag | src/components/ImageCard.tsx:36 | The repository is the text before the first colon and holds no colon. A tag exists exactly when a colon does. It holds no colon and is followed by a colon or the end of the string, so it is the whole text between the first and second colons |
| ImageCard.UntaggedShowsNone | src/components/ImageCard.tsx:35-36 | An image with no usable tag shows repository "none" and tag "none" |
| ImageCard.OneColonRoundTrip | src/components/ImageCard.tsx:36 | With exactly one colon, repository, ":" and tag rebuild the tag string |
| ImageCard.RegistryPortSplitsEarly | src/components/ImageCard.tsx:36 | "localhost:5000/app:1.0" shows repository "localhost" and tag "5000/app" |
| ImageCard.ShortId | src/components/ImageCard.tsx:65 | The displayed ID is the text from index 7, clamped to the ID, and at most twelve characters long |
| ImageCard.ShortIdSkipsAlgorithm | src/components/ImageCard.tsx:65 | For "sha256:<digest>" the displayed ID is the digest's first twelve characters |
| ImageCard.OnCheckbox | src/components/ImageCard.tsx:50 | The checkbox toggles this image's ID |
| ImageCard.RemoveControl | src/components/ImageCard.tsx:78-84 | Remove asks to remove this image's ID, and it is disabled and reads "Removing..." exactly while the image is being removed |
| ContainerCard.DisplayName | src/components/ContainerCard.tsx:39 | The first name minus at most one leading slash. "Unnamed Container" is used when there is no name or the result is empty, so the result is never empty |
| ContainerCard.DisplayNameDropsSlash | src/components/ContainerCard.tsx:39 | An engine name "/name" shows as "name" |
| ContainerCard.DisplayNameKeepsSecondSlash | src/components/ContainerCard.tsx:39 | Only one slash is removed |
| ContainerCard.DisplayNameOfEmptyName | src/components/ContainerCard.tsx:39 | A bare "/" or an empty name shows the placeholder |
| ContainerCard.ShortId | src/components/ContainerCard.tsx:52 | The first twelve characters of the ID, or all of a shorter ID |
| ContainerCard.StateBadge | src/components/ContainerCard.tsx:41-47 | Green exactly for "running", yellow exactly for "paused", grey for everything else |
| ContainerCard.BadgeMatchesButtons | src/components/ContainerCard.tsx:41-75 | The badge is green exactly when the card offers Stop, and otherwise the card offers Start |
| ContainerCard.OnCheckbox | src/components/ContainerCard.tsx:32 | The checkbox toggles this container's ID |
| ContainerCard.ActionButtons | src/components/ContainerCard.tsx:65-89 | Start shows exactly when the state is not "running", and Stop exactly when it is; Restart always shows. Every button targets this container and is disabled exactly while it is actioning |
| Navbar.ActiveIsPrefix | src/components/Navbar.tsx:10 | An active link's path is a prefix of the current path |
| Navbar.SiblingIsNotActive | src/components/Navbar.tsx:45 | "/imagesX" does not activate "/images" or the Images link; "/images/abc" activates both |
| Navbar.ContainersLinkActive | src/components/Navbar.tsx:35 | The Containers link is active exactly on "/" |
| Navbar.ImagesLinkActive | src/components/Navbar.tsx:45 | The Images link is active exactly on "/images" and on paths starting with "/images/" |
| Navbar.StatusIndicator | src/components/Navbar.tsx:58-72 | "Checking..." while loading, whatever the connection. Otherwise "Connected" or "Disconnected" |
| Selection.Without | src/app/page.tsx:48 | `delete` removes exactly that ID and keeps the set free of repeats. On a set, the result is the sequence with that one position cut out, so the rest keep their order |
| Selection.Toggle | src/app/page.tsx:45-53 | An absent ID is added at the end. A present one is cut out at its position, and the other IDs keep their order. This is the same code as the images page (src/app/images/page.tsx:36-44) |
| Selection.ToggleTwiceSameMembers | src/app/page.tsx:45-53 | Toggling one ID twice gives back the same members |
| Selection.ToggleTwiceRestoresAbsent | src/app/images/page.tsx:36-44 | Toggling an unselected ID twice restores the selection exactly |
| Selection.WithoutLast | src/app/page.tsx:48-50 | Deleting the ID just added gives back the previous set |
| Selection.ToggleTwiceMovesToEnd | src/app/page.tsx:45-53 | Toggling a selected ID twice moves it to the end of the iteration order |
| Selection.Dedup | src/app/page.tsx:41 | `new Set(ids)` holds exactly the given IDs, without repeats |
| Selection.DedupOfDistinct | src/app/images/page.tsx:32 | Building a set from distinct IDs keeps them all, in order |
| Selection.SelectAll | src/app/page.tsx:37-43 | When the selection's size equals the item count the selection is emptied; otherwise it becomes exactly the items' IDs |
| Selection.SelectAllComparesSizes | src/app/images/page.tsx:28-34 | The rule compares sizes, so one stale ID against one different item still clears |
| Selection.SelectAllTwice | src/app/page.tsx:37-43 | Over distinct IDs, pressing select-all twice selects everything, then nothing |
| Selection.IdsOf | src/app/page.tsx:41 | The IDs of the listed items, one per item, in order; the images page does the same at src/app/images/page.tsx:32 |
| Selection.HeaderControls | src/app/page.tsx:107-123 | Select-all shows when there are items, and reads "Deselect All" exactly when the selection size equals the item count. The bulk button shows when there are items and something is selected. It is disabled exactly when it shows and the page is busy: the containers page passes its action-loading flag at src/app/page.tsx:118. The images page (src/app/images/page.tsx:122-139) passes false, because its bulk button has no disabled property |
| Selection.SelectAllTextMatchesEffect | src/app/page.tsx:113 | Over distinct IDs, "Deselect All" shows exactly when pressing the button empties the selection |
| TrackedCalls.MarkerAfterAppend | src/app/page.tsx:31-33 | The marker after two runs of effects is the marker after the second, started from where the first left it |
| TrackedCalls.CallsAppend | src/app/images/page.tsx:49-51 | The calls and refreshes of two runs add up |
| TrackedCalls.AlertText | src/app/page.tsx:21 | The alert shows the reply's error when it is a non-empty text, otherwise the fallback |
| TrackedCalls.Track | src/app/page.tsx:14-26 | The marker names the item while its call is awaited and is cleared afterwards whatever the reply. The one call is made; a refresh happens exactly on success, otherwise an alert |
| TrackedCalls.TrackShape | src/app/images/page.tsx:15-24 | Effect by effect: mark, call, refresh or alert, unmark |
| TrackedCalls.Bulk | src/app/page.tsx:28-35 | An empty selection does nothing. Otherwise there is one call per selected ID, in selection order, with one refresh per success and the marker cleared, and then the selection is emptied |
| ContainersPage.HandleContainerAction | src/app/page.tsx:14-26 | One call asks for that action on that container. The marker is set during it and cleared after, and a refresh happens exactly on success. A failure alerts with the reply's error or "Failed to <action> container" |
| ContainersPage.RestartFallbackText | src/app/page.tsx:21 | A failed restart without an error text alerts "Failed to restart container" |
| ContainersPage.HandleBulkRestart | src/app/page.tsx:28-35 | An empty selection does nothing. Otherwise exactly one restart per selected container, in selection order, then the selection is cleared |
| ContainersPage.PageStats | src/app/page.tsx:138-158 | The Running stat is runningCount, Total is the container count, and Selected is the selection size |
| ContainersPage.ToggleMovesSelectedByOne | src/app/page.tsx:158 | Ticking one checkbox changes the Selected stat by exactly one |
| ContainersPage.OnlyTargetBusy | src/app/page.tsx:190 | While an action is awaited only its own card is actioning, and afterwards none is |
| ImagesPage.HandleImageRemove | src/app/images/page.tsx:14-26 | One call removes that image. The marker is set during it and cleared after, and a refresh happens exactly on success. A failure alerts with the reply's error or "Failed to remove image" |
| ImagesPage.HandleBulkRemove | src/app/images/page.tsx:46-53 | An empty selection does nothing. Otherwise exactly one removal per selected image, in selection order, then the selection is cleared |
| ImagesPage.SumSizesAppend | src/app/images/page.tsx:55 | The size sum of two lists is the sum of their sums |
| ImagesPage.SumSizesBounds | src/app/images/page.tsx:55 | With no negative sizes, the total is at least any one image's size |
| ImagesPage.SumSizesNonNegative | src/app/images/page.tsx:55 | With no negative sizes, the total is not negative |
| ImagesPage.TotalSize | src/app/images/page.tsx:55 | The accumulating loop computes the sum of all image sizes |
| ImagesPage.OnlyTargetRemoving | src/app/images/page.tsx:207 | While a removal is awaited only its own card shows a disabled Remove button, and afterwards none does |
| DockerHooks.InitialList | src/hooks/useDocker.ts:6-9 | A list hook starts empty, with count 0, loading and no error |
| DockerHooks.BeginFetch | src/hooks/useDocker.ts:12 | A fetch starts by setting loading and changes nothing else |
| DockerHooks.FinishFetch | src/hooks/useDocker.ts:13-29 | An error reply empties the list and count and reports the error. A good reply copies list and count and clears the error. A throw reports the failure text and keeps the data. Loading ends in every case |
| DockerHooks.FetchContainers | src/hooks/useDocker.ts:11-30 | The container fetch follows these rules with "Failed to fetch containers" |
| DockerHooks.FetchImages | src/hooks/useDocker.ts:142-161 | The image fetch is the container fetch: it gives the same state for every reply and differs only in the text a throw reports, "Failed to fetch images" |
| DockerHooks.ResponseForgetsPast | src/hooks/useDocker.ts:15-22 | A reply from the service fixes the resulting state whatever was listed before |
| DockerHooks.GoodReplyRecovers | src/hooks/useDocker.ts:19-25 | A good reply after a failed request clears the error and shows the new list |
| DockerHooks.FetchIdempotent | src/hooks/useDocker.ts:11-30 | Repeating a fetch with the same outcome changes nothing |
| DockerHooks.FetchDockerInfo | src/hooks/useDocker.ts:53-63 | The reported status is taken as is. A throw gives "not connected" with "Failed to check Docker connection", and loading ends |
| DockerHooks.FailedCheckShowsDisconnected | src/hooks/useDocker.ts:58-60 | The bar reads "Checking..." before the first check and "Disconnected" after a thrown check |
| DockerHooks.Subscribe | src/hooks/useDocker.ts:82-86 | No ID, or an empty one, changes nothing. A new ID starts an empty, loading log with no error |
| DockerHooks.OnEvent | src/hooks/useDocker.ts:90-98 | A message appends its data at the end. An error reports "Failed to fetch logs" and keeps the lines. Both end loading |
| DockerHooks.ReplayAccumulates | src/hooks/useDocker.ts:82-98 | After subscribing, the log is exactly the delivered lines in arrival order. The error is set exactly when an error arrived, and loading lasts until the first event |
| DockerHooks.ClearLogs | src/hooks/useDocker.ts:105-107 | Clearing empties the lines and leaves the flags alone |
| DockerHooks.ClearThenReplay | src/hooks/useDocker.ts:105-107 | After a clear, only lines delivered later are shown |
| SettingsPage.Load | src/app/settings/page.tsx:15-29 | A non-empty stored provider becomes both current and input. An absent or empty value, or a failed read, changes nothing |
| SettingsPage.HandleSave | src/app/settings/page.tsx:31-63 | A blank input, or one equal to the current provider after trimming, is refused with its message and no outside call. The current provider changes exactly when validation, persistence and the client reset all succeed |
| SettingsPage.Attempt | src/app/settings/page.tsx:43-62 | The trimmed name is validated first, and only it is persisted. On success the order is persist, reset, then current; nothing is persisted unless valid. Invalid input is quoted as typed, not trimmed. Any throw leaves current alone, and loading ends |
| SettingsPage.SaveTwiceRefused | src/app/settings/page.tsx:38-41 | Right after a successful save the input is current, so saving it again is refused as already current with no outside call |
| SettingsPage.LoadedProviderIsCurrent | src/app/settings/page.tsx:18-22 | A loaded provider saved unedited is refused as already current, with no outside call |
| SettingsPage.ResetFailureLeavesStoreAhead | src/app/settings/page.tsx:51-59 | If the client reset throws after a valid name was written, the store holds the new name, but the page keeps the old one and reports failure |
| SettingsPage.HandleReset | src/app/settings/page.tsx:65-77 | Nothing happens unless confirmed. Otherwise the store is cleared first and the client reset, then current and input are emptied. A failure reports "Failed to reset provider settings." and changes no provider field |
| SettingsPage.ResetReopensSave | src/app/settings/page.tsx:70-71 | After a reset, any non-blank name reaches validation again |
| ProviderSetup.HandleSubmit | src/components/ProviderSetup.tsx:16-43 | A blank input is refused with "Please enter a Docker provider name" and no outside call. Any other input goes on with its trimmed form |
| ProviderSetup.Attempt | src/components/ProviderSetup.tsx:23-42 | The trimmed name is validated, and only when valid is it persisted and then handed to the callback. The callback comes exactly when validation and persistence succeed. Invalid input quotes the input as typed; a throw gives the generic error; loading ends |
| ProviderSetup.NotifyFollowsPersist | src/components/ProviderSetup.tsx:30-32 | The callback always directly follows the write of the same, non-empty name |
| ProviderSetup.AttemptNotifyFollowsPersist | src/components/ProviderSetup.tsx:30-32 | Past the blank-input guard, the callback directly follows the write of the same, non-empty name |
| ProviderWrapper.CheckProvider | src/components/ProviderWrapper.tsx:16-29 | The value read, even an absent one, becomes the provider. A failed read keeps it, and loading ends either way |
| ProviderWrapper.Render | src/components/ProviderWrapper.tsx:35-43 | The Loader shows exactly while loading. Then setup shows exactly for an absent or empty provider, and the app otherwise |
| ProviderWrapper.HandleProviderSet | src/components/ProviderWrapper.tsx:31-33 | The given name becomes the provider |
| ProviderWrapper.FailedReadShowsSetup | src/components/ProviderWrapper.tsx:21-25 | A failed read at start-up leads to the setup form |
| ProviderWrapper.SetupOpensGate | src/components/ProviderWrapper.tsx:31-43 | Whatever the start-up read gave, a setup form that reaches its callback lets the app through |

## Left out

- Shell execution: each discovery or listing command is an input that holds its standard output, or `None` when the command fails. Exit codes, standard error and time-outs are not modelled.
- Engine (dockerode) calls: `info`, `listContainers`, `listImages` and `logs` are functions from a client handle to a result. Their payloads are opaque type parameters.
- Concurrency: `getDockerInstance` has no single-flight guard, so two concurrent first calls can both resolve and build. The model covers sequential calls only. React's batching and re-rendering are likewise not modelled; each handler is one state transition.
- The container logs route, server-sent-event framing, and the container-action route are not part of this model.
- src/services/networkService.ts (fetch and EventSource I/O): its replies are inputs to the hooks and page handlers. Its own code is not part of this model.
- src/utils/indexDBUtils.ts (IndexedDB): the stored provider is an `Option<string>` read, and writes and clears are steps that pass or throw.
- The thin API routes for docker-info, images and containers only forward to src/lib/docker.ts and are not part of this model.
- Floating-point and locale formatting are not modelled: `formatSize` and `formatDate` in the image card, and `formatTotalSize` on the images page. `ImagesPage.TotalSize` sums sizes as integers; JavaScript numbers are modelled as unbounded integers.
- Pure presentation (ActionButton, StatsCard, skeletons, theme toggle, layout, CSS classes, JSX) is not modelled, and neither is the Logs button, which carries no action.
- `useNetworks` and the networks page are outside the modelled core.
- `useContainerActions` and `useImageActions` only pass the network reply through and toggle a loading flag. The pages' handlers take that reply as an input.
- `console.log` and `console.error` output is not modelled. Building the message in the `catch` of `validateDockerProvider` is modelled, because it can throw.
- JsString.ToLower: only A-Z are mapped. JavaScript's full Unicode case mapping is not modelled, so non-ASCII provider names may compare differently.
- DockerClient.ListContainers: the engine's container records are an opaque type, and `listContainers({ all: false })` options are not modelled.
