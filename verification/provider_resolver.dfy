/** Mapping a container-engine provider name to the control socket of that
    engine (src/app/api/validate-provider/route.ts), including the Colima
    discovery that src/lib/docker.ts repeats for its shared client.

    The shell commands are not run: `Env` carries what each discovery command
    printed on standard output, or `None` when the command failed. */
module ProviderResolver {
  import opened Wrappers
  import JsString

  /** The two discovery commands. */
  datatype Command =
    | ColimaContextInspect   // docker context inspect colima --format "{{.Endpoints.docker.Host}}"
    | PodmanMachineInspect   // podman machine inspect --format "{{.ConnectionInfo.PodmanSocket.Path}}"

  /** What resolution reads from its surroundings: the USER variable and the
      output of each discovery command (`None` when the command fails). */
  datatype Env = Env(user: Option<string>, colimaContext: Option<string>, podmanMachine: Option<string>)

  /** A resolved socket path and the discovery command that was run for it, if any. */
  datatype Resolution = Resolution(path: string, ran: Option<Command>)

  const DockerSocket: string := "/var/run/docker.sock"
  const UnixScheme: string := "unix://"

  /** `${process.env.USER}` in a template literal: an unset variable prints as "undefined". */
  function UserText(env: Env): string {
    env.user.GetOr("undefined")
  }

  /** A path under the user's macOS home directory. */
  function HomePath(env: Env, rest: string): (p: string)
    ensures JsString.StartsWith(p, "/Users/" + UserText(env))
    ensures |rest| <= |p| && p[|p| - |rest|..] == rest
  {
    "/Users/" + UserText(env) + rest
  }

  function ColimaFallback(env: Env): string {
    HomePath(env, "/.colima/default/docker.sock")
  }

  function PodmanFallback(env: Env): string {
    HomePath(env, "/.local/share/containers/podman/machine/podman-machine-default/podman.sock")
  }

  function LimaSocket(env: Env): string {
    HomePath(env, "/.lima/default/sock/docker.sock")
  }

  /** Colima's socket: the trimmed context host with its first "unix://" removed,
      or the conventional path when the command fails. Never fails itself. */
  function ColimaSocket(env: Env): (r: Resolution)
    ensures r.ran == Some(ColimaContextInspect)
    ensures env.colimaContext.None? ==> r.path == ColimaFallback(env)
    ensures env.colimaContext.Some? ==>
      r.path == JsString.ReplaceFirst(JsString.Trim(env.colimaContext.value), UnixScheme, "")
  {
    match env.colimaContext
    case Some(out) => Resolution(JsString.ReplaceFirst(JsString.Trim(out), UnixScheme, ""), Some(ColimaContextInspect))
    case None => Resolution(ColimaFallback(env), Some(ColimaContextInspect))
  }

  /** Podman's socket: the trimmed machine-inspect output (no scheme is
      stripped), or the conventional machine socket when the command fails. */
  function PodmanSocket(env: Env): (r: Resolution)
    ensures r.ran == Some(PodmanMachineInspect)
    ensures env.podmanMachine.None? ==> r.path == PodmanFallback(env)
    ensures env.podmanMachine.Some? ==> r.path == JsString.Trim(env.podmanMachine.value)
  {
    match env.podmanMachine
    case Some(out) => Resolution(JsString.Trim(out), Some(PodmanMachineInspect))
    case None => Resolution(PodmanFallback(env), Some(PodmanMachineInspect))
  }

  /** The lower-case names the resolver's switch accepts. */
  predicate IsKnownName(lower: string) {
    lower == "colima" || lower == "docker-desktop" || lower == "docker" || lower == "podman" || lower == "lima"
  }

  /** `getDockerSocketPath(provider)` of the validation route: a case-insensitive
      switch; only an unknown name rejects. */
  function Resolve(provider: string, env: Env): (r: Result<Resolution>)
    ensures r.Ok? <==> IsKnownName(JsString.ToLower(provider))
    ensures r.Err? ==> r.error == "Unknown provider: " + provider
    ensures JsString.ToLower(provider) == "colima" ==> r == Ok(ColimaSocket(env))
    ensures JsString.ToLower(provider) == "podman" ==> r == Ok(PodmanSocket(env))
    ensures JsString.ToLower(provider) == "docker" || JsString.ToLower(provider) == "docker-desktop" ==>
      r == Ok(Resolution(DockerSocket, None))
    ensures JsString.ToLower(provider) == "lima" ==> r == Ok(Resolution(LimaSocket(env), None))
  {
    var name := JsString.ToLower(provider);
    if name == "colima" then Ok(ColimaSocket(env))
    else if name == "docker-desktop" || name == "docker" then Ok(Resolution(DockerSocket, None))
    else if name == "podman" then Ok(PodmanSocket(env))
    else if name == "lima" then Ok(Resolution(LimaSocket(env), None))
    else Err("Unknown provider: " + provider)
  }

  /** "colima" as written in src/lib/docker.ts resolves to Colima's socket. */
  lemma ResolveColima(env: Env)
    ensures Resolve("colima", env) == Ok(ColimaSocket(env))
  {
    JsString.ToLowerKeepsLower("colima");
  }

  /** Case does not matter: a name and its lower-case form resolve alike (only
      the rejection message, which quotes the name as given, can differ). */
  lemma ResolveIgnoresCase(provider: string, env: Env)
    ensures Resolve(provider, env).Ok? == Resolve(JsString.ToLower(provider), env).Ok?
    ensures Resolve(provider, env).Ok? ==> Resolve(provider, env) == Resolve(JsString.ToLower(provider), env)
  {
    JsString.ToLowerIdempotent(provider);
  }

  /** "docker" and "docker-desktop", in any case, give the default socket and run no command. */
  lemma DockerNeedsNoDiscovery(provider: string, env: Env)
    requires JsString.ToLower(provider) == "docker" || JsString.ToLower(provider) == "docker-desktop"
    ensures Resolve(provider, env) == Ok(Resolution("/var/run/docker.sock", None))
  {
  }

  /** "lima" needs no command and lands in the user's Lima directory. */
  lemma LimaPath(env: Env)
    ensures Resolve("lima", env) == Ok(Resolution("/Users/" + UserText(env) + "/.lima/default/sock/docker.sock", None))
  {
  }

  /** Colima and Podman resolution never reject, whatever their commands do,
      and a failed command always yields a non-empty conventional path. */
  lemma DiscoveryNeverFails(provider: string, env: Env)
    requires JsString.ToLower(provider) == "colima" || JsString.ToLower(provider) == "podman"
    ensures Resolve(provider, env).Ok?
    ensures Resolve(provider, env).value.ran.Some?
    ensures JsString.ToLower(provider) == "colima" && env.colimaContext.None? ==>
      Resolve(provider, env).value.path == "/Users/" + UserText(env) + "/.colima/default/docker.sock"
    ensures JsString.ToLower(provider) == "podman" && env.podmanMachine.None? ==>
      Resolve(provider, env).value.path ==
        "/Users/" + UserText(env) + "/.local/share/containers/podman/machine/podman-machine-default/podman.sock"
  {
  }

  /** A successful Podman discovery, in any case spelling of the name, yields
      the trimmed output as the path after running the machine command. */
  lemma PodmanDiscovered(provider: string, env: Env)
    requires JsString.ToLower(provider) == "podman" && env.podmanMachine.Some?
    ensures Resolve(provider, env) == Ok(Resolution(JsString.Trim(env.podmanMachine.value), Some(PodmanMachineInspect)))
  {
  }

  /** Podman output is not stripped of a scheme, unlike Colima's: an answer
      "unix://<path>" stays as it is. */
  lemma PodmanKeepsScheme(env: Env, path: string)
    requires env.podmanMachine == Some(UnixScheme + path)
    requires path == [] || !JsString.IsWhitespace(path[|path| - 1])
    ensures PodmanSocket(env) == Resolution(UnixScheme + path, Some(PodmanMachineInspect))
  {
    var out := UnixScheme + path;
    assert out[0] == 'u';
    assert out[|out| - 1] == if path == [] then '/' else path[|path| - 1];
    JsString.TrimFixedPoint(out);
  }

  /** The usual `docker context inspect` answer, "unix://<path>" and a newline,
      resolves to the bare path. */
  lemma ColimaStripsScheme(env: Env, path: string)
    requires env.colimaContext == Some("unix://" + path + "\n")
    requires path == [] || !JsString.IsWhitespace(path[|path| - 1])
    ensures ColimaSocket(env).path == path
  {
    var host := UnixScheme + path;
    assert host[0] == 'u';
    assert host[|host| - 1] == if path == [] then '/' else path[|path| - 1];
    JsString.TrimLineEnd(host);
    JsString.ReplaceLeading(UnixScheme, path, "");
  }

  /** Only the first "unix://" is removed: a host naming the scheme twice keeps the second. */
  lemma ColimaStripsOnlyFirstScheme(env: Env)
    requires env.colimaContext == Some("unix://unix://x")
    ensures ColimaSocket(env).path == "unix://x"
  {
    var host := UnixScheme + "unix://x";
    assert host == "unix://unix://x";
    assert !JsString.IsWhitespace(host[0]) && !JsString.IsWhitespace(host[|host| - 1]);
    JsString.TrimFixedPoint(host);
    JsString.ReplaceLeading(UnixScheme, "unix://x", "");
  }
}
