/** The navigation bar's decisions (src/components/Navbar.tsx): which link is
    highlighted for the current path, and the engine status indicator. */
module Navbar {
  import JsString

  /** `isActive(path)`: the current path is `path` itself or lies below it. */
  predicate IsActive(pathname: string, path: string) {
    pathname == path || JsString.StartsWith(pathname, path + "/")
  }

  /** An active link's path is always a prefix of the current path. */
  lemma ActiveIsPrefix(pathname: string, path: string)
    requires IsActive(pathname, path)
    ensures JsString.StartsWith(pathname, path)
  {
    if pathname != path {
      assert pathname[..|path|] == (path + "/")[..|path|];
    }
  }

  /** A sibling path sharing only a prefix does not activate a link. */
  lemma SiblingIsNotActive()
    ensures !IsActive("/imagesX", "/images") && !ImagesLinkActive("/imagesX")
    ensures IsActive("/images/abc", "/images") && ImagesLinkActive("/images/abc")
  {
    assert "/imagesX"[..8][7] == 'X' && ("/images" + "/")[7] == '/';
    assert "/images/abc"[..8] == "/images/";
  }

  /** The Containers link is highlighted exactly on "/". */
  function ContainersLinkActive(pathname: string): (active: bool)
    ensures active <==> pathname == "/"
  {
    IsActive(pathname, "/") && pathname == "/"
  }

  /** The Images link is highlighted on "/images" and below it, and on no
      sibling path that merely starts with the same letters. */
  function ImagesLinkActive(pathname: string): (active: bool)
    ensures active <==> pathname == "/images" || JsString.StartsWith(pathname, "/images/")
    ensures active ==> JsString.StartsWith(pathname, "/images") && (|pathname| == 7 || pathname[7] == '/')
  {
    if IsActive(pathname, "/images") then ActiveIsPrefix(pathname, "/images"); true else false
  }

  /** The indicator's colour and text. */
  datatype Tone = Pending | Up | Down
  datatype Status = Status(tone: Tone, text: string)

  /** Checking while loading, otherwise connected or disconnected; loading wins. */
  function StatusIndicator(loading: bool, connected: bool): (s: Status)
    ensures loading ==> s == Status(Pending, "Checking...")
    ensures !loading && connected ==> s == Status(Up, "Connected")
    ensures !loading && !connected ==> s == Status(Down, "Disconnected")
  {
    if loading then Status(Pending, "Checking...")
    else if connected then Status(Up, "Connected")
    else Status(Down, "Disconnected")
  }
}
