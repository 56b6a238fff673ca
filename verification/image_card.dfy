/** What an image card derives from an image (src/components/ImageCard.tsx):
    the repository and tag shown, the shortened ID, and the Remove button. */
module ImageCard {
  import opened Wrappers
  import JsString

  /** The image fields the model reads; the card shows `Size` and `Created`
      only through number and date formatting, and the images page adds up `Size`. */
  datatype Image = Image(id: string, repoTags: Option<seq<string>>, size: int)

  const NoRepoTag: string := "none:none"

  /** `image.RepoTags?.[0] || 'none:none'`: the first tag when there is a
      non-empty one, else the placeholder. */
  function RepoTag(repoTags: Option<seq<string>>): (t: string)
    ensures t != ""
    ensures repoTags.Some? && |repoTags.value| > 0 && repoTags.value[0] != "" ==> t == repoTags.value[0]
    ensures repoTags.None? || |repoTags.value| == 0 || repoTags.value[0] == "" ==> t == NoRepoTag
  {
    if repoTags.Some? && |repoTags.value| > 0 && repoTags.value[0] != "" then repoTags.value[0] else NoRepoTag
  }

  /** The repository heading and the tag badge; `None` renders as nothing. */
  datatype RepoAndTag = RepoAndTag(repository: string, tag: Option<string>)

  /** `const [repository, tag] = repoTag.split(':')`: the text before the first
      colon, and the text between the first and the second colon, if any. */
  function SplitRepoTag(t: string): (r: RepoAndTag)
    ensures ':' !in r.repository && JsString.StartsWith(t, r.repository)
    ensures r.tag.None? <==> ':' !in t
    ensures r.tag.None? ==> r.repository == t
    ensures r.tag.Some? ==> ':' !in r.tag.value && JsString.StartsWith(t, r.repository + ":" + r.tag.value)
    ensures r.tag.Some? ==> var e := |r.repository| + 1 + |r.tag.value|; e == |t| || (e < |t| && t[e] == ':')
  {
    var parts := JsString.Split(t, ':');
    JsString.JoinEnds(parts, ':');
    if |parts| == 1 then
      RepoAndTag(parts[0], None)
    else
      JsString.JoinEnds(parts[1..], ':');
      assert t == parts[0] + ":" + JsString.Join(parts[1..], ':');
      assert ':' in t by { assert t[|parts[0]|] == ':'; }
      var e := |parts[0]| + 1 + |parts[1]|;
      assert e == |t| || (e < |t| && t[e] == ':') by {
        if |parts| > 2 {
          var rest := parts[1..];
          assert JsString.Join(rest, ':') == parts[1] + ":" + JsString.Join(rest[1..], ':');
          assert t == parts[0] + ":" + parts[1] + ":" + JsString.Join(rest[1..], ':');
        }
      }
      RepoAndTag(parts[0], Some(parts[1]))
  }

  /** What the card shows for an image. */
  function Labels(image: Image): RepoAndTag {
    SplitRepoTag(RepoTag(image.repoTags))
  }

  /** An image without a usable first tag shows repository "none" and tag "none". */
  lemma UntaggedShowsNone(image: Image)
    requires image.repoTags.None? || |image.repoTags.value| == 0 || image.repoTags.value[0] == ""
    ensures Labels(image) == RepoAndTag("none", Some("none"))
  {
    JsString.SplitJoin(["none", "none"], ':');
    assert JsString.Join(["none", "none"], ':') == NoRepoTag;
  }

  /** With exactly one colon the pair is an exact split: repository, ":" and tag
      give back the tag string. */
  lemma OneColonRoundTrip(repository: string, tag: string)
    requires ':' !in repository && ':' !in tag
    ensures SplitRepoTag(repository + ":" + tag) == RepoAndTag(repository, Some(tag))
  {
    JsString.SplitJoin([repository, tag], ':');
  }

  /** A registry host with a port is cut at its first colon: the repository
      reads "localhost" and the tag "5000/app". */
  lemma RegistryPortSplitsEarly()
    ensures SplitRepoTag("localhost:5000/app:1.0") == RepoAndTag("localhost", Some("5000/app"))
  {
    JsString.SplitJoin(["localhost", "5000/app", "1.0"], ':');
    assert JsString.Join(["localhost", "5000/app", "1.0"], ':') == "localhost:5000/app:1.0";
  }

  /** `image.Id.slice(7, 19)`: up to twelve characters starting at index 7,
      clamped to the ID's length. */
  function ShortId(id: string): (r: string)
    ensures |r| == if |id| <= 7 then 0 else if |id| >= 19 then 12 else |id| - 7
    ensures |id| >= 7 ==> JsString.StartsWith(id[7..], r)
  {
    if |id| <= 7 then "" else if |id| >= 19 then id[7..19] else id[7..]
  }

  /** For an ID of the form "sha256:<digest>", the short ID is the start of the digest. */
  lemma ShortIdSkipsAlgorithm(digest: string)
    ensures ShortId("sha256:" + digest) == digest[..if |digest| < 12 then |digest| else 12]
  {
    var id := "sha256:" + digest;
    assert id[7..] == digest;
  }

  /** What a click on one of the card's controls asks of the page. */
  datatype CardEvent = ToggleImage(id: string) | RemoveImage(id: string)

  /** The checkbox asks to toggle this image. */
  function OnCheckbox(image: Image): (e: CardEvent)
    ensures e.ToggleImage? && e.id == image.id
  {
    ToggleImage(image.id)
  }

  datatype RemoveButton = RemoveButton(onClick: CardEvent, disabled: bool, text: string)

  /** The Remove button asks to remove this image and is disabled exactly while it is being removed. */
  function RemoveControl(image: Image, isRemoving: bool): (b: RemoveButton)
    ensures b.onClick == RemoveImage(image.id)
    ensures b.disabled <==> isRemoving
    ensures b.text == (if isRemoving then "Removing..." else "Remove")
  {
    RemoveButton(RemoveImage(image.id), isRemoving, if isRemoving then "Removing..." else "Remove")
  }
}
