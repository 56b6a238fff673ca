/** The pattern both list pages share for an action on one item
    (`handleContainerAction` in src/app/page.tsx, `handleImageRemove` in
    src/app/images/page.tsx) and for running it over a whole selection
    (`handleBulkRestart`, `handleBulkRemove`): set a per-item marker, await the
    call, refresh on success or alert otherwise, and clear the marker in a
    `finally`.

    A handler's behaviour is the sequence of effects it performs; the replies
    of the network layer, which never rejects, are the oracle `replies`. */
module TrackedCalls {
  import opened Wrappers

  /** `{ success, error? }` as the network service resolves it. */
  datatype Reply = Reply(success: bool, error: Option<string>)

  /** One observable step of a handler; `C` describes the remote call. */
  datatype Effect<C> =
    | Mark(target: Option<string>)   // set the "actioning"/"removing" marker
    | Call(call: C)                  // the awaited network call
    | Refresh                        // re-fetch the list
    | Alert(message: string)         // window.alert

  /** The marker after the effects, starting from `start`. */
  function MarkerAfter<C>(start: Option<string>, effects: seq<Effect<C>>): Option<string>
    decreases |effects|
  {
    if |effects| == 0 then start
    else MarkerAfter(if effects[0].Mark? then effects[0].target else start, effects[1..])
  }

  /** The remote calls made, in order. */
  function Calls<C>(effects: seq<Effect<C>>): seq<C> {
    if |effects| == 0 then []
    else (if effects[0].Call? then [effects[0].call] else []) + Calls(effects[1..])
  }

  /** How many refreshes were asked for. */
  function Refreshes<C>(effects: seq<Effect<C>>): nat {
    if |effects| == 0 then 0
    else (if effects[0].Refresh? then 1 else 0) + Refreshes(effects[1..])
  }

  lemma {:induction false} MarkerAfterAppend<C>(start: Option<string>, a: seq<Effect<C>>, b: seq<Effect<C>>)
    ensures MarkerAfter(start, a + b) == MarkerAfter(MarkerAfter(start, a), b)
    decreases |a|
  {
    if |a| == 0 {
      assert a + b == b;
    } else {
      assert (a + b)[1..] == a[1..] + b;
      MarkerAfterAppend(if a[0].Mark? then a[0].target else start, a[1..], b);
    }
  }

  /** Calls and refreshes add up over concatenated effects. */
  lemma CallsAppend<C>(a: seq<Effect<C>>, b: seq<Effect<C>>)
    ensures Calls(a + b) == Calls(a) + Calls(b)
    ensures Refreshes(a + b) == Refreshes(a) + Refreshes(b)
  {
    CallsOfAppend(a, b);
    RefreshesOfAppend(a, b);
  }

  lemma {:induction false} CallsOfAppend<C>(a: seq<Effect<C>>, b: seq<Effect<C>>)
    ensures Calls(a + b) == Calls(a) + Calls(b)
    decreases |a|
  {
    if |a| == 0 {
      assert a + b == b;
    } else {
      assert (a + b)[1..] == a[1..] + b;
      CallsOfAppend(a[1..], b);
      assert (a + b)[0] == a[0];
    }
  }

  lemma {:induction false} RefreshesOfAppend<C>(a: seq<Effect<C>>, b: seq<Effect<C>>)
    ensures Refreshes(a + b) == Refreshes(a) + Refreshes(b)
    decreases |a|
  {
    if |a| == 0 {
      assert a + b == b;
    } else {
      assert (a + b)[1..] == a[1..] + b;
      RefreshesOfAppend(a[1..], b);
      assert (a + b)[0] == a[0];
    }
  }

  /** `result.error || fallback`: an empty error text counts as missing. */
  function AlertText(reply: Reply, fallback: string): (m: string)
    ensures reply.error.Some? && reply.error.value != "" ==> m == reply.error.value
    ensures reply.error.None? || reply.error.value == "" ==> m == fallback
  {
    if reply.error.Some? && reply.error.value != "" then reply.error.value else fallback
  }

  /** One tracked call on `id`: the marker names `id` while the call is under
      way and is cleared afterwards whatever the reply; the list is refreshed
      only on success, otherwise the user is alerted. */
  function Track<C>(id: string, call: C, reply: Reply, fallback: string): (effects: seq<Effect<C>>)
    ensures |effects| == 4
    ensures effects[1] == Call(call)
    ensures forall start :: MarkerAfter(start, effects[..2]) == Some(id)
    ensures forall start :: MarkerAfter(start, effects) == None
    ensures Calls(effects) == [call]
    ensures Refreshes(effects) == if reply.success then 1 else 0
    ensures !reply.success ==> effects[2] == Alert(AlertText(reply, fallback))
  {
    var outcome := if reply.success then Refresh else Alert(AlertText(reply, fallback));
    var effects := [Mark(Some(id)), Call(call), outcome, Mark(None)];
    TrackShape(id, call, outcome);
    effects
  }

  /** The effect-by-effect account of one tracked call. */
  lemma TrackShape<C>(id: string, call: C, outcome: Effect<C>)
    requires outcome.Refresh? || outcome.Alert?
    ensures forall start :: MarkerAfter(start, [Mark(Some(id)), Call(call), outcome, Mark(None)][..2]) == Some(id)
    ensures forall start :: MarkerAfter(start, [Mark(Some(id)), Call(call), outcome, Mark(None)]) == None
    ensures Calls([Mark(Some(id)), Call(call), outcome, Mark(None)]) == [call]
    ensures Refreshes([Mark(Some(id)), Call(call), outcome, Mark(None)]) == if outcome.Refresh? then 1 else 0
  {
    var effects := [Mark(Some(id)), Call(call), outcome, Mark(None)];
    var e1, e2, e3 := effects[1..], effects[2..], effects[3..];
    assert e1 == [Call(call), outcome, Mark(None)] && e1[1..] == e2;
    assert e2 == [outcome, Mark(None)] && e2[1..] == e3;
    assert e3 == [Mark(None)] && e3[1..] == [];
    assert Calls(e3) == [] && Refreshes(e3) == 0;
    assert Calls(e2) == [] && Refreshes(e2) == (if outcome.Refresh? then 1 else 0);
    assert Calls(e1) == [call];
    forall start
      ensures MarkerAfter(start, effects) == None
      ensures MarkerAfter(start, effects[..2]) == Some(id)
    {
      assert MarkerAfter(Some(id), e3) == None;
      assert MarkerAfter(Some(id), e2) == None;
      assert MarkerAfter(Some(id), e1) == None;
      var p := effects[..2];
      assert p[1..] == [Call(call)] && p[1..][1..] == [];
      assert MarkerAfter(Some(id), p[1..]) == Some(id);
    }
  }

  /** How many of `ids` get a successful reply. */
  function Successes(ids: seq<string>, replies: string -> Reply): nat {
    if |ids| == 0 then 0
    else Successes(ids[..|ids| - 1], replies) + (if replies(ids[|ids| - 1]).success then 1 else 0)
  }

  /** A bulk handler: nothing at all on an empty selection; otherwise one
      tracked call per selected ID, awaited one after another in selection
      order, and then the selection is cleared. */
  method Bulk<C>(sel: seq<string>, mk: string -> C, replies: string -> Reply, fallback: string)
    returns (effects: seq<Effect<C>>, after: seq<string>)
    ensures |sel| == 0 ==> effects == [] && after == sel
    ensures |sel| > 0 ==> after == []
    ensures Calls(effects) == seq(|sel|, i requires 0 <= i < |sel| => mk(sel[i]))
    ensures Refreshes(effects) == Successes(sel, replies)
    ensures |sel| > 0 ==> forall start :: MarkerAfter(start, effects) == None
  {
    if |sel| == 0 {
      return [], sel;
    }
    effects := [];
    var i := 0;
    while i < |sel|
      invariant 0 <= i <= |sel|
      invariant Calls(effects) == seq(i, j requires 0 <= j < i => mk(sel[j]))
      invariant Refreshes(effects) == Successes(sel[..i], replies)
      invariant i > 0 ==> forall start :: MarkerAfter(start, effects) == None
    {
      var step := Track(sel[i], mk(sel[i]), replies(sel[i]), fallback);
      CallsAppend(effects, step);
      forall start
        ensures MarkerAfter(start, effects + step) == None
      {
        MarkerAfterAppend(start, effects, step);
      }
      assert sel[..i + 1][..i] == sel[..i];
      effects := effects + step;
      i := i + 1;
    }
    assert sel[..i] == sel;
    after := [];
  }
}
