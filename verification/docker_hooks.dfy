/** The data hooks (src/hooks/useDocker.ts) as state transitions: the list
    fetches of `useContainers` and `useImages`, the engine status of
    `useDockerInfo`, and the log buffer of `useContainerLogs`. What the
    network service answers is an input. The service catches a failed
    request itself and answers with an error reply and an empty list, which
    is a `Response`; `Threw` is an exception in the hook's own handling of
    the reply, such as reading `error` of a `null` body. */
module DockerHooks {
  import opened Wrappers
  import Navbar

  /** What one list request produced: the service's reply, or an exception
      raised while the hook reads it. */
  datatype Fetched<T> = Response(error: Option<string>, items: seq<T>, count: int) | Threw

  /** A list hook's state: the items, their count, and the loading and error flags. */
  datatype ListState<T> = ListState(items: seq<T>, count: int, loading: bool, error: Option<string>)

  /** Before the first fetch: nothing listed, loading. */
  function InitialList<T>(): (s: ListState<T>)
    ensures s.items == [] && s.count == 0 && s.loading && s.error.None?
  {
    ListState([], 0, true, None)
  }

  /** `if (data.error)`: an error text counts only when it is non-empty. */
  predicate HasError<T>(reply: Fetched<T>)
    requires reply.Response?
  {
    reply.error.Some? && reply.error.value != ""
  }

  /** `setLoading(true)` at the start of a fetch. */
  function BeginFetch<T>(s: ListState<T>): (r: ListState<T>)
    ensures r.loading && r.items == s.items && r.count == s.count && r.error == s.error
  {
    s.(loading := true)
  }

  /** The rest of the fetch: an error reply empties the list and reports the
      error; a good reply replaces the list and clears the error; an exception
      reports `failure` and keeps what was listed. Loading ends in every case. */
  function FinishFetch<T>(s: ListState<T>, reply: Fetched<T>, failure: string): (r: ListState<T>)
    ensures !r.loading
    ensures reply.Response? && HasError(reply) ==> r.items == [] && r.count == 0 && r.error == reply.error
    ensures reply.Response? && !HasError(reply) ==> r.items == reply.items && r.count == reply.count && r.error.None?
    ensures reply.Threw? ==> r.items == s.items && r.count == s.count && r.error == Some(failure)
  {
    match reply
    case Threw => s.(loading := false, error := Some(failure))
    case Response(error, items, count) =>
      if HasError(reply) then ListState([], 0, false, error)
      else ListState(items, count, false, None)
  }

  /** One whole fetch of `useContainers`. */
  function FetchContainers<C>(s: ListState<C>, reply: Fetched<C>): (r: ListState<C>)
    ensures !r.loading
    ensures reply.Response? && HasError(reply) ==> r.items == [] && r.count == 0 && r.error == reply.error
    ensures reply.Response? && !HasError(reply) ==> r.items == reply.items && r.count == reply.count && r.error.None?
    ensures reply.Threw? ==> r.items == s.items && r.count == s.count && r.error == Some("Failed to fetch containers")
  {
    FinishFetch(BeginFetch(s), reply, "Failed to fetch containers")
  }

  /** One whole fetch of `useImages`: the same reducer as for containers,
      differing only in the text reported when the request throws. */
  function FetchImages<T>(s: ListState<T>, reply: Fetched<T>): (r: ListState<T>)
    ensures reply.Response? ==> r == FetchContainers(s, reply)
    ensures reply.Threw? ==> r == FetchContainers(s, reply).(error := Some("Failed to fetch images"))
  {
    FinishFetch(BeginFetch(s), reply, "Failed to fetch images")
  }

  /** A reply from the service fixes the state completely: what was listed
      before no longer matters. */
  lemma ResponseForgetsPast<T>(s1: ListState<T>, s2: ListState<T>, reply: Fetched<T>, failure: string)
    requires reply.Response?
    ensures FinishFetch(BeginFetch(s1), reply, failure) == FinishFetch(BeginFetch(s2), reply, failure)
  {
  }

  /** A good reply after a failed request recovers fully: the error is gone
      and the list is the new one. */
  lemma GoodReplyRecovers<T>(s: ListState<T>, items: seq<T>, count: int)
    ensures var failed := FetchContainers(s, Threw);
      FetchContainers(failed, Response(None, items, count)) == ListState(items, count, false, None)
  {
  }

  /** Fetching again with the same reply changes nothing. */
  lemma FetchIdempotent<T>(s: ListState<T>, reply: Fetched<T>, failure: string)
    ensures var once := FinishFetch(BeginFetch(s), reply, failure);
      FinishFetch(BeginFetch(once), reply, failure) == once
  {
  }

  /** The engine status the service reports. */
  datatype DockerInfo = DockerInfo(connected: bool, error: Option<string>)

  datatype InfoState = InfoState(info: DockerInfo, loading: bool)

  /** Before the first check: not connected, loading. */
  const InitialInfo: InfoState := InfoState(DockerInfo(false, None), true)

  /** `fetchDockerInfo`: take the reported status, or report a failed check
      when the request throws (`None`); loading ends either way. */
  function FetchDockerInfo(s: InfoState, reply: Option<DockerInfo>): (r: InfoState)
    ensures !r.loading
    ensures reply.Some? ==> r.info == reply.value
    ensures reply.None? ==> r.info == DockerInfo(false, Some("Failed to check Docker connection"))
  {
    InfoState(reply.GetOr(DockerInfo(false, Some("Failed to check Docker connection"))), false)
  }

  /** What the navigation bar shows for a status state. */
  function Indicator(s: InfoState): Navbar.Status {
    Navbar.StatusIndicator(s.loading, s.info.connected)
  }

  /** The bar reads "Checking..." until the first check settles, and
      "Disconnected" after a check whose request threw. */
  lemma FailedCheckShowsDisconnected(s: InfoState)
    ensures Indicator(InitialInfo).text == "Checking..."
    ensures Indicator(FetchDockerInfo(s, None)) == Navbar.Status(Navbar.Down, "Disconnected")
  {
  }

  /** The log view's state. */
  datatype LogState = LogState(logs: seq<string>, loading: bool, error: Option<string>)

  const InitialLogs: LogState := LogState([], false, None)

  /** `if (!containerId) return`: no ID, or an empty one, opens no stream. */
  predicate Subscribes(containerId: Option<string>) {
    containerId.Some? && containerId.value != ""
  }

  /** Opening a stream for a new container starts from an empty, loading log. */
  function Subscribe(s: LogState, containerId: Option<string>): (r: LogState)
    ensures Subscribes(containerId) ==> r == LogState([], true, None)
    ensures !Subscribes(containerId) ==> r == s
  {
    if Subscribes(containerId) then LogState([], true, None) else s
  }

  /** What the stream delivers. */
  datatype LogEvent = Message(data: string) | StreamError

  /** `onmessage` appends the line; `onerror` reports and keeps the lines. */
  function OnEvent(s: LogState, e: LogEvent): (r: LogState)
    ensures !r.loading
    ensures e.Message? ==> r.logs == s.logs + [e.data] && r.error == s.error
    ensures e.StreamError? ==> r.logs == s.logs && r.error == Some("Failed to fetch logs")
  {
    match e
    case Message(data) => s.(logs := s.logs + [data], loading := false)
    case StreamError => s.(error := Some("Failed to fetch logs"), loading := false)
  }

  /** The events applied in arrival order. */
  function Replay(s: LogState, events: seq<LogEvent>): LogState
    decreases |events|
  {
    if |events| == 0 then s else OnEvent(Replay(s, events[..|events| - 1]), events[|events| - 1])
  }

  /** The message lines among the events, in order. */
  function Lines(events: seq<LogEvent>): seq<string>
    decreases |events|
  {
    if |events| == 0 then []
    else Lines(events[..|events| - 1]) + (if events[|events| - 1].Message? then [events[|events| - 1].data] else [])
  }

  /** Whether any event is a stream error. */
  predicate AnyError(events: seq<LogEvent>) {
    exists k :: 0 <= k < |events| && events[k].StreamError?
  }

  /** After subscribing, the buffer holds exactly the delivered lines in
      arrival order; the error is set exactly when an error event arrived;
      loading lasts until the first event. */
  lemma {:induction false} ReplayAccumulates(s: LogState, id: string, events: seq<LogEvent>)
    requires id != ""
    ensures var r := Replay(Subscribe(s, Some(id)), events);
      r.logs == Lines(events)
      && (r.error.Some? <==> AnyError(events))
      && (r.error.Some? ==> r.error == Some("Failed to fetch logs"))
      && (r.loading <==> |events| == 0)
    decreases |events|
  {
    if |events| > 0 {
      var init := events[..|events| - 1];
      ReplayAccumulates(s, id, init);
      assert AnyError(events) <==> AnyError(init) || events[|events| - 1].StreamError? by {
        if AnyError(events) && !events[|events| - 1].StreamError? {
          var k :| 0 <= k < |events| && events[k].StreamError?;
          assert init[k] == events[k];
        }
        if AnyError(init) {
          var k :| 0 <= k < |init| && init[k].StreamError?;
          assert events[k] == init[k];
        }
      }
    }
  }

  /** `clearLogs` empties the buffer and leaves the flags alone. */
  function ClearLogs(s: LogState): (r: LogState)
    ensures r.logs == [] && r.loading == s.loading && r.error == s.error
  {
    s.(logs := [])
  }

  /** Lines delivered after a clear are the only ones shown. */
  lemma {:induction false} ClearThenReplay(s: LogState, events: seq<LogEvent>)
    ensures Replay(ClearLogs(s), events).logs == Lines(events)
    decreases |events|
  {
    if |events| > 0 {
      ClearThenReplay(s, events[..|events| - 1]);
    }
  }
}
