/** The images page (src/app/images/page.tsx): its selection, single and bulk
    removal, and the total size of the listed images. */
module ImagesPage {
  import opened Wrappers
  import TrackedCalls
  import ImageCard

  /** The remote call the page makes: `removeImage(id)`. */
  datatype Request = RemoveImage(id: string)

  const RemoveFallback: string := "Failed to remove image"

  /** `handleImageRemove`: mark the image, ask for its removal, refresh on
      success or alert with the reply's error (or the fallback), then clear
      the mark. */
  function HandleImageRemove(id: string, reply: TrackedCalls.Reply): (effects: seq<TrackedCalls.Effect<Request>>)
    ensures |effects| == 4
    ensures TrackedCalls.Calls(effects) == [RemoveImage(id)]
    ensures forall start :: TrackedCalls.MarkerAfter(start, effects[..2]) == Some(id)
    ensures forall start :: TrackedCalls.MarkerAfter(start, effects) == None
    ensures TrackedCalls.Refreshes(effects) == if reply.success then 1 else 0
    ensures !reply.success && (reply.error.None? || reply.error.value == "") ==>
      effects[2] == TrackedCalls.Alert(RemoveFallback)
    ensures !reply.success && reply.error.Some? && reply.error.value != "" ==>
      effects[2] == TrackedCalls.Alert(reply.error.value)
  {
    TrackedCalls.Track(id, RemoveImage(id), reply, RemoveFallback)
  }

  /** `handleBulkRemove`: nothing on an empty selection; otherwise one removal
      per selected image, in selection order, then the selection is cleared. */
  method HandleBulkRemove(sel: seq<string>, replies: string -> TrackedCalls.Reply)
    returns (effects: seq<TrackedCalls.Effect<Request>>, after: seq<string>)
    ensures |sel| == 0 ==> effects == [] && after == sel
    ensures |sel| > 0 ==> after == []
    ensures |TrackedCalls.Calls(effects)| == |sel|
    ensures forall k :: 0 <= k < |sel| ==> TrackedCalls.Calls(effects)[k] == RemoveImage(sel[k])
    ensures TrackedCalls.Refreshes(effects) == TrackedCalls.Successes(sel, replies)
    ensures |sel| > 0 ==> forall start :: TrackedCalls.MarkerAfter(start, effects) == None
  {
    effects, after := TrackedCalls.Bulk(sel, id => RemoveImage(id), replies, RemoveFallback);
  }

  /** `images.reduce((acc, img) => acc + img.Size, 0)`, folded from the left. */
  function SumSizes(images: seq<ImageCard.Image>): int {
    if |images| == 0 then 0 else SumSizes(images[..|images| - 1]) + images[|images| - 1].size
  }

  /** The sum over two lists is the sum of their sums. */
  lemma {:induction false} SumSizesAppend(a: seq<ImageCard.Image>, b: seq<ImageCard.Image>)
    ensures SumSizes(a + b) == SumSizes(a) + SumSizes(b)
    decreases |b|
  {
    if |b| == 0 {
      assert a + b == a;
    } else {
      assert (a + b)[..|a + b| - 1] == a + b[..|b| - 1];
      SumSizesAppend(a, b[..|b| - 1]);
    }
  }

  /** With no negative sizes the total is at least every single image's size. */
  lemma {:induction false} SumSizesBounds(images: seq<ImageCard.Image>, k: int)
    requires forall j :: 0 <= j < |images| ==> images[j].size >= 0
    requires 0 <= k < |images|
    ensures images[k].size <= SumSizes(images)
    decreases |images|
  {
    var n := |images| - 1;
    if k < n {
      SumSizesBounds(images[..n], k);
    } else {
      SumSizesNonNegative(images[..n]);
    }
  }

  lemma {:induction false} SumSizesNonNegative(images: seq<ImageCard.Image>)
    requires forall j :: 0 <= j < |images| ==> images[j].size >= 0
    ensures SumSizes(images) >= 0
    decreases |images|
  {
    if |images| > 0 {
      SumSizesNonNegative(images[..|images| - 1]);
    }
  }

  /** The page's `totalSize`, accumulated as the reduce does. */
  method TotalSize(images: seq<ImageCard.Image>) returns (total: int)
    ensures total == SumSizes(images)
  {
    total := 0;
    var i := 0;
    while i < |images|
      invariant 0 <= i <= |images|
      invariant total == SumSizes(images[..i])
    {
      assert images[..i + 1][..i] == images[..i];
      total := total + images[i].size;
      i := i + 1;
    }
    assert images[..i] == images;
  }

  /** `isRemoving` for one card: the page's marker names it. */
  predicate IsRemoving(marker: Option<string>, id: string) {
    marker == Some(id)
  }

  /** While a removal is awaited only its own card shows "Removing...", and
      once it settles none does. */
  lemma OnlyTargetRemoving(id: string, reply: TrackedCalls.Reply, start: Option<string>, other: string)
    requires other != id
    ensures var effects := HandleImageRemove(id, reply);
      var during := TrackedCalls.MarkerAfter(start, effects[..2]);
      ImageCard.RemoveControl(ImageCard.Image(id, None, 0), IsRemoving(during, id)).disabled
      && !IsRemoving(during, other)
      && !IsRemoving(TrackedCalls.MarkerAfter(start, effects), id)
  {
  }
}
