/** The provider validation endpoint (src/app/api/validate-provider/route.ts):
    `validateDockerProvider` and the status decisions of `POST`.

    The engine's `info()` call on a freshly built client is the oracle `probe`,
    which answers for a socket path whether the call resolves. Neither function
    takes the shared client of src/lib/docker.ts: validation builds its own. */
module ValidateProvider {
  import opened Wrappers
  import JsString
  import opened ProviderResolver

  /** A JSON value as `request.json()` yields it (numbers as integers). */
  datatype Json =
    | JNull
    | JBool(b: bool)
    | JNumber(n: int)
    | JString(s: string)
    | JArray(items: seq<Json>)
    | JObject(fields: map<string, Json>)

  /** The endpoint's answer: HTTP status and the JSON fields it carries. */
  datatype Response = Response(status: int, valid: bool, provider: Option<Json>, error: Option<string>)

  /** `validateDockerProvider(provider)`: resolves the socket, then asks a fresh
      client for `info()`; any rejection on the way reads as invalid. */
  function Validate(provider: string, env: Env, probe: string -> bool): (valid: bool)
    ensures valid <==> Resolve(provider, env).Ok? && probe(Resolve(provider, env).value.path)
  {
    match Resolve(provider, env)
    case Ok(res) => probe(res.path)
    case Err(_) => false
  }

  /** A name outside the five known providers is invalid whatever the engine says. */
  lemma UnknownProviderInvalid(provider: string, env: Env, probe: string -> bool)
    requires !IsKnownName(JsString.ToLower(provider))
    ensures !Validate(provider, env, probe)
  {
  }

  /** Validity does not depend on the case of the name. */
  lemma ValidateIgnoresCase(provider: string, env: Env, probe: string -> bool)
    ensures Validate(provider, env, probe) == Validate(JsString.ToLower(provider), env, probe)
  {
    ResolveIgnoresCase(provider, env);
  }

  /** A Docker Desktop name is valid exactly when the engine answers on the default socket. */
  lemma DockerValidity(provider: string, env: Env, probe: string -> bool)
    requires JsString.ToLower(provider) == "docker" || JsString.ToLower(provider) == "docker-desktop"
    ensures Validate(provider, env, probe) == probe("/var/run/docker.sock")
  {
    DockerNeedsNoDiscovery(provider, env);
  }

  /** JavaScript truthiness of a property value; `None` is `undefined`. */
  predicate Truthy(v: Option<Json>) {
    match v
    case None => false
    case Some(JNull) => false
    case Some(JBool(b)) => b
    case Some(JNumber(n)) => n != 0
    case Some(JString(s)) => s != ""
    case Some(_) => true
  }

  /** `const { provider } = body`: destructuring `null` throws, an object yields
      its "provider" key, and any other value has no such property. */
  function ProviderField(body: Json): (r: Result<Option<Json>>)
    ensures r.Err? <==> body.JNull?
    ensures body.JObject? && "provider" in body.fields ==> r == Ok(Some(body.fields["provider"]))
    ensures r.Ok? && r.value.Some? ==> body.JObject?
  {
    match body
    case JNull => Err("Cannot destructure property 'provider' of null")
    case JObject(fields) => Ok(if "provider" in fields then Some(fields["provider"]) else None)
    case _ => Ok(None)
  }

  /** Whether converting a JSON value to text, as the template literal in the
      `catch` of `validateDockerProvider` does, throws. An object with its own
      "toString" key holds a value that is not callable there, and the inherited
      `valueOf` returns the object itself, so the conversion is a TypeError; an
      array converts through `join`, which converts each element. */
  predicate TextConversionThrows(v: Json)
    decreases v
  {
    match v
    case JObject(fields) => "toString" in fields
    case JArray(items) => exists i :: 0 <= i < |items| && TextConversionThrows(items[i])
    case _ => false
  }

  /** `validateDockerProvider` applied to whatever JSON value arrived. On a
      non-string, `toLowerCase` throws inside its `try`; the `catch` then prints
      the value, and when that printing throws the call itself rejects. */
  function ValidateValue(v: Json, env: Env, probe: string -> bool): (r: Result<bool>)
    ensures r.Err? <==> TextConversionThrows(v)
    ensures r.Ok? && r.value ==> v.JString? && Validate(v.s, env, probe)
    ensures v.JString? ==> r == Ok(Validate(v.s, env, probe))
  {
    match v
    case JString(s) => Ok(Validate(s, env, probe))
    case _ => if TextConversionThrows(v) then Err("Cannot convert object to primitive value") else Ok(false)
  }

  /** `POST`: `body` is `None` when the request body is not JSON. */
  function Post(body: Option<Json>, env: Env, probe: string -> bool): (r: Response)
    ensures r.status == 500 <==>
      || body.None? || body.value.JNull?
      || (Truthy(ProviderField(body.value).value) && ValidateValue(ProviderField(body.value).value.value, env, probe).Err?)
    ensures r.status == 400 <==> body.Some? && !body.value.JNull? && !Truthy(ProviderField(body.value).value)
    ensures r.status == 500 ==> r == Response(500, false, None, Some("Internal server error"))
    ensures r.status != 200 ==> !r.valid && r.provider.None? && r.error.Some?
    ensures r.status == 200 ==>
      && body.Some? && ProviderField(body.value).Ok?
      && r.provider == ProviderField(body.value).value
      && Truthy(r.provider)
      && ValidateValue(r.provider.value, env, probe) == Ok(r.valid)
      && r.error.None?
  {
    if body.None? then Response(500, false, None, Some("Internal server error"))
    else match ProviderField(body.value)
      case Err(_) => Response(500, false, None, Some("Internal server error"))
      case Ok(provider) =>
        if !Truthy(provider) then Response(400, false, None, Some("Provider name is required"))
        else match ValidateValue(provider.value, env, probe)
          case Err(_) => Response(500, false, None, Some("Internal server error"))
          case Ok(valid) => Response(200, valid, provider, None)
  }

  /** A request naming a provider gets status 200 and the name echoed exactly as
      sent (not lower-cased), with the validity of that name. */
  lemma PostEchoesProvider(name: string, env: Env, probe: string -> bool)
    requires name != ""
    ensures var r := Post(Some(JObject(map["provider" := JString(name)])), env, probe);
      r == Response(200, Validate(name, env, probe), Some(JString(name)), None)
  {
  }

  /** A request whose provider is missing or empty is refused with 400 before any resolution. */
  lemma PostRequiresProvider(fields: map<string, Json>, env: Env, probe: string -> bool)
    requires "provider" !in fields || fields["provider"] == JString("")
    ensures Post(Some(JObject(fields)), env, probe) == Response(400, false, None, Some("Provider name is required"))
  {
  }

  /** A truthy provider that is not a string, and prints without throwing, is
      answered 200 but never valid. */
  lemma PostNonStringInvalid(v: Json, env: Env, probe: string -> bool)
    requires !v.JString? && Truthy(Some(v)) && !TextConversionThrows(v)
    ensures Post(Some(JObject(map["provider" := v])), env, probe) == Response(200, false, Some(v), None)
  {
  }

  /** A provider whose printing throws in the `catch` of `validateDockerProvider`
      escapes it, and `POST` answers 500. */
  lemma PostUnprintableProvider(v: Json, env: Env, probe: string -> bool)
    requires TextConversionThrows(v)
    ensures Post(Some(JObject(map["provider" := v])), env, probe) == Response(500, false, None, Some("Internal server error"))
  {
  }

  /** The body `{"provider": {"toString": 1}}`, and an array holding that object,
      are answered 500. */
  lemma OwnToStringIsServerError(env: Env, probe: string -> bool)
    ensures var o := JObject(map["toString" := JNumber(1)]);
      && Post(Some(JObject(map["provider" := o])), env, probe).status == 500
      && Post(Some(JObject(map["provider" := JArray([JNull, o])])), env, probe).status == 500
  {
    var o := JObject(map["toString" := JNumber(1)]);
    assert [JNull, o][1] == o;
  }
}
