/**
  The HTTP front door (pprofweb.go, `rootHandler` and `handler`).

  `rootHandler` answers `/`: it either serves the landing page or, given a
  `profile` query parameter, validates it, runs the profile loader under a
  fresh session id and redirects to the new session. Its checks run in a
  fixed order and the first one that fails decides the response. The
  collaborators it calls are parameters here: URL decoding, path cleaning
  and joining onto the base directory, `os.Stat`, and the pprof driver,
  whose calls back into `startHTTP` are returned as a list of reports.
 */
module FrontDoor {
  import opened Strings
  import opened Router
  import opened Registry

  const WrongMethod: string := "wrong method"
  const PathNotFound: string := "not found"
  const UndecodableQuery: string := "could not url decode query param"
  const ExtensionNotAllowed: string := "file extension is not allowed"
  const ProfileNotFound: string := "profile not found"
  const LoaderFailed: string := "pprof error"

  /**
    The parts of a request the server looks at. `profile` is the value of
    the `profile` query parameter as `URL.Query().Get` returns it: `""` when
    the parameter is absent.
   */
  datatype Request = Request(httpMethod: string, path: string, profile: string)

  /** Result of `url.QueryUnescape`. */
  datatype Decoded = Decoded(value: string) | Undecodable

  /** Result of `os.Stat`: no error, an error matching `os.ErrNotExist`, or any other error. */
  datatype StatResult = Exists | Missing | StatFailed

  /**
    One run of the pprof driver on a profile file: the handler maps it
    reported through the `startHTTP` callback, in order, and whether it
    returned an error.
   */
  datatype LoaderRun<H> = LoaderRun(reports: seq<Handlers<H>>, failed: bool)

  /**
    The collaborators of `rootHandler`: `unescape` is `url.QueryUnescape`,
    `resolve` is `filepath.Join(base, filepath.Clean(q))` for the configured
    base directory, `stat` is `os.Stat`, and `load(file, id)` runs the pprof
    driver on `file` with `id` as the HTTP host it reports back.
   */
  datatype Env<H> = Env(
    unescape: string -> Decoded,
    resolve: string -> string,
    stat: string -> StatResult,
    load: (string, string) -> LoaderRun<H>)

  /** The server's answer to a request. */
  datatype Response<H> =
    | Landing                          // 200 with the informational page
    | SeeOther(location: string)       // 303 to the new session
    | BadRequest(message: string)      // 400
    | NotFound(message: string)        // 404
    | MethodNotAllowed(message: string) // 405
    | ServerError(message: string)     // 500
    | Delegated(mux: Mux<H>)           // handed to a session's mux
    | Aborted(pattern: string)         // a panic in `startHTTP` unwound the handler

  /** The allow-list of profile file names: they must end in `.pb.gz` or `.pb.`. */
  predicate AllowedExtension(file: string) {
    HasSuffix(file, ".pb.gz") || HasSuffix(file, ".pb.")
  }

  /** A GET of `/` that carries a `profile` parameter. */
  predicate AsksForProfile(req: Request) {
    req.httpMethod == "GET" && req.path == "/" && req.profile != ""
  }

  /** The resolved profile file of a request whose parameter decodes. */
  function ProfileFile<H>(req: Request, env: Env<H>): string
    requires env.unescape(req.profile).Decoded?
  {
    env.resolve(env.unescape(req.profile).value)
  }

  /** Every check before the loader passes: the request reaches `driver.PProf`. */
  predicate PassesChecks<H>(req: Request, env: Env<H>) {
    && AsksForProfile(req)
    && env.unescape(req.profile).Decoded?
    && AllowedExtension(ProfileFile(req, env))
    && env.stat(ProfileFile(req, env)) != Missing
  }

  /**
    The loader's reports applied to the registry, in order, as `startHTTP`
    calls. A panic stops the run. Since every report names the same id,
    only the first one can change anything: the rest find the id live (or
    never run, after a panic).
   */
  function RegisterAll<H>(s: Sessions<H>, id: string, reports: seq<Handlers<H>>, now: nat): (r: (Sessions<H>, Status))
    ensures reports == [] ==> r == (s, Ok)
    ensures reports != [] ==> r == Register(s, id, reports[0], now)
    decreases |reports|
  {
    if |reports| == 0 then (s, Ok)
    else
      var first := Register(s, id, reports[0], now);
      if first.1.Panicked? then first
      else RegisterAll(first.0, id, reports[1..], now)
  }

  /**
    `rootHandler` with fresh session id `id` at time `now`. The checks run in
    the source's order — method, path, presence of the parameter, decoding,
    extension, existence — and the first failure decides the response with
    the registry untouched. Only a request that passes them all runs the
    loader, and only then can the registry change, and only at `id`. A
    redirect, to `path.Join("/pprofweb/", id)`, is sent exactly when the
    loader neither failed nor panicked.
   */
  function RootHandler<H>(s: Sessions<H>, req: Request, env: Env<H>, id: string, now: nat): (r: (Sessions<H>, Response<H>))
    ensures req.httpMethod != "GET" ==> r == (s, MethodNotAllowed(WrongMethod))
    ensures req.httpMethod == "GET" && req.path != "/" ==> r == (s, NotFound(PathNotFound))
    ensures req.httpMethod == "GET" && req.path == "/" && req.profile == "" ==> r == (s, Landing)
    ensures AsksForProfile(req) && env.unescape(req.profile).Undecodable? ==> r == (s, BadRequest(UndecodableQuery))
    ensures (AsksForProfile(req) && env.unescape(req.profile).Decoded? && !AllowedExtension(ProfileFile(req, env)))
      ==> r == (s, BadRequest(ExtensionNotAllowed))
    ensures (AsksForProfile(req) && env.unescape(req.profile).Decoded? && AllowedExtension(ProfileFile(req, env))
             && env.stat(ProfileFile(req, env)) == Missing)
      ==> r == (s, NotFound(ProfileNotFound))
    ensures !PassesChecks(req, env) ==> r.0 == s
    ensures forall k :: k in s ==> k in r.0 && r.0[k] == s[k]
    ensures forall k :: k in r.0 && k !in s ==> k == id
    ensures PassesChecks(req, env) ==>
      var run := env.load(ProfileFile(req, env), id);
      && (r.1.SeeOther? <==> !run.failed && RegisterAll(s, id, run.reports, now).1 == Ok)
      && (r.1 == ServerError(LoaderFailed) <==> run.failed && RegisterAll(s, id, run.reports, now).1 == Ok)
    ensures PassesChecks(req, env) ==>
      var reg := RegisterAll(s, id, env.load(ProfileFile(req, env), id).reports, now);
      && r.0 == reg.0
      && (r.1.Aborted? <==> reg.1.Panicked?)
    ensures r.1.SeeOther? ==> r.1.location == RedirectTarget(id)
  {
    if req.httpMethod != "GET" then (s, MethodNotAllowed(WrongMethod))
    else if req.path != "/" then (s, NotFound(PathNotFound))
    else if req.profile == "" then (s, Landing)
    else
      match env.unescape(req.profile)
      case Undecodable => (s, BadRequest(UndecodableQuery))
      case Decoded(q) =>
        var file := env.resolve(q);
        if !AllowedExtension(file) then (s, BadRequest(ExtensionNotAllowed))
        else if env.stat(file) == Missing then (s, NotFound(ProfileNotFound))
        else
          var run := env.load(file, id);
          var reg := RegisterAll(s, id, run.reports, now);
          if reg.1.Panicked? then (reg.0, Aborted(reg.1.pattern))
          else if run.failed then (reg.0, ServerError(LoaderFailed))
          else (reg.0, SeeOther(RedirectTarget(id)))
  }

  /**
    `handler`: the two-route table. Paths under `/pprofweb/` are session
    traffic for `servePprof`, which never loads or registers anything;
    everything else goes to `rootHandler`, which never renews a session.
   */
  function Handle<H>(s: Sessions<H>, req: Request, env: Env<H>, id: string, now: nat, ttl: nat): (r: (Sessions<H>, Response<H>))
    ensures HasPrefix(req.path, Prefix) ==>
      && r.0.Keys == s.Keys
      && (r.1.Delegated? <==> ExtractId(req.path) in s)
      && (r.1.Delegated? ==> r.1.mux == s[ExtractId(req.path)].mux)
      && (!r.1.Delegated? ==> r == (s, NotFound(NotLoadedMessage)))
    ensures HasPrefix(req.path, Prefix) ==> r.0 == Serve(s, req.path, now, ttl).0
    ensures !HasPrefix(req.path, Prefix) ==> r == RootHandler(s, req, env, id, now)
    ensures forall k :: k in s ==> k in r.0 && r.0[k].mux == s[k].mux
  {
    if HasPrefix(req.path, Prefix) then
      var served := Serve(s, req.path, now, ttl);
      match served.1
      case Dispatched(mux) => (served.0, Delegated(mux))
      case NotLoaded => (served.0, NotFound(NotLoadedMessage))
    else RootHandler(s, req, env, id, now)
  }
}
