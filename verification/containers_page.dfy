/** The containers page (src/app/page.tsx): its selection, the single and bulk
    container actions, the header controls and the three statistics. */
module ContainersPage {
  import opened Wrappers
  import Selection
  import TrackedCalls
  import ContainerCard

  /** The remote call the page makes: `performAction(id, action)`. */
  datatype Request = PerformAction(id: string, action: ContainerCard.Action)

  /** The alert shown when an action fails without an error text. */
  function ActionFallback(action: ContainerCard.Action): string {
    "Failed to " + ContainerCard.ActionName(action) + " container"
  }

  /** `handleContainerAction`: mark the container, ask for the action, refresh
      on success or alert with the reply's error (or the fallback), then
      clear the mark. */
  function HandleContainerAction(id: string, action: ContainerCard.Action, reply: TrackedCalls.Reply)
    : (effects: seq<TrackedCalls.Effect<Request>>)
    ensures |effects| == 4
    ensures TrackedCalls.Calls(effects) == [PerformAction(id, action)]
    ensures forall start :: TrackedCalls.MarkerAfter(start, effects[..2]) == Some(id)
    ensures forall start :: TrackedCalls.MarkerAfter(start, effects) == None
    ensures TrackedCalls.Refreshes(effects) == if reply.success then 1 else 0
    ensures !reply.success && (reply.error.None? || reply.error.value == "") ==>
      effects[2] == TrackedCalls.Alert(ActionFallback(action))
    ensures !reply.success && reply.error.Some? && reply.error.value != "" ==>
      effects[2] == TrackedCalls.Alert(reply.error.value)
  {
    TrackedCalls.Track(id, PerformAction(id, action), reply, ActionFallback(action))
  }

  /** A failed restart without an error text alerts "Failed to restart container". */
  lemma RestartFallbackText(id: string)
    ensures HandleContainerAction(id, ContainerCard.Restart, TrackedCalls.Reply(false, None))[2]
         == TrackedCalls.Alert("Failed to restart container")
  {
  }

  /** `handleBulkRestart`: nothing on an empty selection; otherwise one restart
      per selected container, in selection order, then the selection is cleared. */
  method HandleBulkRestart(sel: seq<string>, replies: string -> TrackedCalls.Reply)
    returns (effects: seq<TrackedCalls.Effect<Request>>, after: seq<string>)
    ensures |sel| == 0 ==> effects == [] && after == sel
    ensures |sel| > 0 ==> after == []
    ensures |TrackedCalls.Calls(effects)| == |sel|
    ensures forall k :: 0 <= k < |sel| ==>
      TrackedCalls.Calls(effects)[k] == PerformAction(sel[k], ContainerCard.Restart)
    ensures TrackedCalls.Refreshes(effects) == TrackedCalls.Successes(sel, replies)
    ensures |sel| > 0 ==> forall start :: TrackedCalls.MarkerAfter(start, effects) == None
  {
    effects, after := TrackedCalls.Bulk(sel, id => PerformAction(id, ContainerCard.Restart), replies, ActionFallback(ContainerCard.Restart));
  }

  /** Running, total and selected counts. */
  datatype Stats = Stats(running: int, total: nat, selected: nat)

  function PageStats(runningCount: int, containers: seq<ContainerCard.Container>, sel: seq<string>): (s: Stats)
    ensures s.running == runningCount && s.total == |containers| && s.selected == |sel|
  {
    Stats(runningCount, |containers|, |sel|)
  }

  /** Ticking one checkbox (`toggleContainer`) changes the Selected statistic by exactly one. */
  lemma ToggleMovesSelectedByOne(runningCount: int, containers: seq<ContainerCard.Container>, sel: seq<string>, id: string)
    requires Selection.Distinct(sel)
    ensures PageStats(runningCount, containers, Selection.Toggle(sel, id)).selected
         == PageStats(runningCount, containers, sel).selected + (if id in sel then -1 else 1)
  {
  }

  /** `isActioning` for one card: the page's marker names it. */
  predicate IsActioning(marker: Option<string>, id: string) {
    marker == Some(id)
  }

  /** While an action is awaited only its own card is busy, and once it
      settles no card is. */
  lemma OnlyTargetBusy(id: string, action: ContainerCard.Action, reply: TrackedCalls.Reply, start: Option<string>, other: string)
    requires other != id
    ensures var effects := HandleContainerAction(id, action, reply);
      var during := TrackedCalls.MarkerAfter(start, effects[..2]);
      IsActioning(during, id) && !IsActioning(during, other)
      && !IsActioning(TrackedCalls.MarkerAfter(start, effects), id)
  {
  }
}
