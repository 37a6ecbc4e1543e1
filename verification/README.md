# pprofweb session registry and router, modelled in Dafny

pprofweb is a small Go web server that opens a captured pprof profile on
request and serves pprof's interactive web UI for it. Each opened profile
becomes a *session* with a fresh UUID. The session's pages live under the URL
subtree `/pprofweb/<id>/`. The session is dropped again when its timer fires.
That timer starts at 30 seconds and is pushed to `now + validity` on every hit.

This project models the core of `pprofweb.go` as pure functions:

- `strings.dfy` (module `Strings`): the pieces of Go's `strings` package the
  server uses. These are `HasPrefix`, `HasSuffix`, `TrimPrefix`, and `Split`
  with its inverse `Join`.
- `gopath.dfy` (module `GoPath`): Go's `path.Clean` and two-argument
  `path.Join`, written over `/`-separated segments.
- `router.dfy` (module `Router`): namespacing of the loader's URL patterns
  under `/pprofweb/<id>/` (`startHTTP`), and reading the session id back
  from a request path (`servePprof`).
- `registry.dfy` (module `Registry`): the registry `map<string, Entry>`.
  An entry holds the session's mux and the deadline of its eviction timer.
  The operations are `Register` (`startHTTP`), `Lookup` and `Serve`
  (`servePprof`), `Expire` (the timer callback) and `Advance` (the clock
  reaching a time at which some timers have fired).
- `lifecycle.dfy` (module `Lifecycle`): properties of a session's life.
- `frontdoor.dfy` (module `FrontDoor`): `rootHandler`, with its ordered
  checks and its extension allow-list, and `handler`, the two-route table.
- `frontdoor_props.dfy` (module `FrontDoorProps`): the order of the checks,
  the allow-list, and the redirect into the new session.

The clock is a `nat` in nanoseconds, the unit of Go's `time.Duration`. The
collaborators that `rootHandler` calls are parameters of the model:
`url.QueryUnescape`, `filepath.Clean` plus `filepath.Join` onto the base
directory, `os.Stat`, and `driver.PProf`. The fresh UUID is a parameter too.
A run of `driver.PProf` is given as the list of handler maps it reported
through the `startHTTP` callback, plus whether it returned an error. The
loader's handler map is a sequence of (pattern, handler) pairs, in the order
in which Go's `range` visited it. A Go map never repeats a key, but the
sequence may repeat a pattern; that only adds inputs (which `Install` rejects
as a conflict) and takes away none of the map's. Go strings are byte
sequences and the model's are character sequences. This makes no difference
here: every constant the code compares with or splits on (`/pprofweb/`, `/`,
`.`, `.pb.gz`, `.pb.`) is ASCII, and UTF-8 never places an ASCII byte inside
a multibyte character.

In these details the model follows the code:

- A new session's timer is a fixed 30 seconds (pprofweb.go:75). The
  configured validity duration applies only from the first hit on.
- Registering an id that is already live is a silent success that changes
  nothing. It is not an error.
- Only an `os.Stat` error that is `os.ErrNotExist` gives 404. Any other stat
  error lets the request go on to the loader (pprofweb.go:146).
- The allow-list accepts names ending in `.pb.gz` or in `.pb.` (with the
  trailing dot). It rejects a bare `.pb` (pprofweb.go:140-141).
- The loader may report its handlers and still fail. The 500 is then sent,
  but the session stays registered until its timer fires.
- `mux.Handle` panics when two loader patterns land on the same namespaced
  path. Such a panic leaves the registry unchanged and aborts the request.

## Model

| member | source | states |
|---|---|---|
| `Strings.TrimPrefix` | pprofweb.go:91 | with the prefix present, prefix plus result is the input; otherwise the input comes back unchanged |
| `Strings.Split` | pprofweb.go:92 | `strings.Split` on `/` yields at least one piece, no piece contains `/`, and joining the pieces gives the input back |
| `Strings.SplitJoin` | pprofweb.go:92 | round trip: `/`-free pieces survive join followed by split |
| `Strings.SplitHead` | pprofweb.go:92-93 | the first piece of a split is a prefix of the input and is followed by `/` or the end of the input |
| `GoPath.Clean` | pprofweb.go:67 | `path.Clean` never returns the empty string, and its result is rooted exactly when the input is |
| `GoPath.Join2` | pprofweb.go:67 | two-argument `path.Join` is empty exactly when both arguments are, and its result is rooted exactly when its first nonempty argument is |
| `GoPath.CleanRooted` | pprofweb.go:67 | `path.Clean` of a rooted path with no `..` segment keeps exactly its nonempty, non-`.` segments |
| `Router.ExtractId` | pprofweb.go:91-94 | the extracted id never contains `/`; for a path under `/pprofweb/` it is exactly the text after the prefix up to the next `/` or the end |
| `Router.Namespace` | pprofweb.go:63-67 | the root pattern is installed at the subtree root `/pprofweb/<id>/`; any other pattern without `..` segments is installed at `/pprofweb/<id>` followed by its kept segments |
| `Router.JoinUnderSessionRoot` | pprofweb.go:67 | joining a pattern without `..` segments onto `/pprofweb/<id>/` gives `/pprofweb/<id>` followed by the pattern's kept segments |
| `Router.JoinDropsRootSlash` | pprofweb.go:64-65 | `path.Join` would turn the root pattern into `/pprofweb/<id>` without the trailing slash; the special case installs it at `/pprofweb/<id>/` |
| `Router.NamespaceUnderSessionRoot` | pprofweb.go:63-68 | every installed pattern (root, or one with a real segment and no `..`) starts with `/pprofweb/<id>/`; non-root patterns land strictly below it |
| `Router.ExtractIdRoundTrip` | pprofweb.go:91-94 | for a `/`-free id, both `/pprofweb/<id>` and `/pprofweb/<id>/<rest>` route to `id` |
| `Router.ExtractNamespaced` | pprofweb.go:63-94 | namespacing followed by id extraction gives back the session id, for patterns without `..` segments |
| `Router.NamespacesDisjoint` | pprofweb.go:63-68 | for generated ids and loader patterns without `..` segments, two distinct sessions never install a pattern at the same path |
| `Router.RedirectTarget` | pprofweb.go:186 | for a generated id, the redirect target `path.Join("/pprofweb/", id)` is `/pprofweb/<id>` and routes back to `id` |
| `Router.JoinOntoPrefix` | pprofweb.go:186 | `path.Join` of `/pprofweb/` and an id keeps a single `/` between them and adds no trailing `/` |
| `Registry.HandleAll` | pprofweb.go:61-70 | `mux.Handle` over the routes succeeds exactly when the patterns are pairwise distinct; the mux then holds exactly those patterns, each with its own handler |
| `Registry.Install` | pprofweb.go:62-70 | the session mux holds exactly the namespaced loader patterns, each mapped to its handler, and building it panics exactly when two patterns collide |
| `Registry.Register` | pprofweb.go:53-88 | a live id leaves the map unchanged and succeeds; a new id is added alone, with deadline `now` + 30 s and the installed mux; a panic leaves the map unchanged; other sessions are never touched |
| `Registry.Lookup` | pprofweb.go:99-105 | a hit dispatches to the stored mux and moves only that session's deadline to `now + ttl`; a miss is "profile handler not loaded" with the map unchanged |
| `Registry.Serve` | pprofweb.go:90-106 | the session named by the path's first segment after the prefix is dispatched exactly when it is live, and its deadline is reset to `now + ttl` with its mux kept; every other session is untouched and no session appears or disappears |
| `Registry.Expire` | pprofweb.go:75-80 | the timer callback removes exactly the firing id and keeps every other entry; an absent id is a no-op |
| `Registry.Advance` | pprofweb.go:75-80 | once the clock reaches `now`, a session survives exactly when its deadline is later than `now`, with its entry unchanged |
| `Lifecycle.RegisterTwiceKeepsFirst` | pprofweb.go:57-59 | a second registration under the same id succeeds and changes nothing; lookups are served by the first handlers' mux |
| `Lifecycle.FreshSessionLifetime` | pprofweb.go:75 | an untouched new session lives exactly 30 s, whatever the configured validity |
| `Lifecycle.RenewalSetsExpiry` | pprofweb.go:100 | after a hit at `now` the session is live exactly until `now + ttl`, even when that is earlier than its previous deadline |
| `Lifecycle.CreateHitThenServe` | pprofweb.go:75-101 | a session created at `t0` and hit at `t1` within its first 30 s is still served at `t2` exactly when `t2 < t1 + ttl` |
| `Lifecycle.ExpiredUntilRecreated` | pprofweb.go:75-80 | after the timer fires, lookups miss without changing the map; registering the id again succeeds and is served by the new handlers |
| `Lifecycle.ExpireIsAdvanceStep` | pprofweb.go:75-80 | firing one due timer first does not change the state reached when the clock advances |
| `Lifecycle.WellFormedPreserved` | pprofweb.go:151 | every registry operation keeps all live ids well-formed (nonempty, `/`-free, not `.` or `..`), as generated UUIDs are |
| `Lifecycle.BareNamespaceMisses` | pprofweb.go:91-105 | the bare `/pprofweb/` carries the empty id, which never names a session, so it is a 404 that changes nothing |
| `Lifecycle.ServeRoutesToOwner` | pprofweb.go:90-105 | any request under `/pprofweb/<id>/` reaches session `id` only; an unknown id is a 404 that changes nothing; other sessions stay as they were |
| `Lifecycle.InstalledPathsRouteBack` | pprofweb.go:62-69 | every path in a session's mux routes back to that session, for loader patterns without `..` segments |
| `FrontDoor.RegisterAll` | pprofweb.go:176-180 | however many times the loader reports its handlers, only the first report can change the registry |
| `FrontDoor.RootHandler` | pprofweb.go:116-187 | the checks are ordered method 405, path 404, empty parameter landing page, decode 400, extension 400, missing file 404; any failure leaves the map unchanged; only `id` can be added; once every check passes, the registry becomes what the loader's reports make of it and the request aborts exactly when that panics; 303 to `path.Join("/pprofweb/", id)` exactly when the loader neither failed nor panicked, 500 with "pprof error" when it failed |
| `FrontDoor.Handle` | pprofweb.go:190-201 | paths under `/pprofweb/` leave the registry exactly as the session lookup leaves it (the hit session renewed, nothing added); all other paths go to the root handler; no session's mux ever changes |
| `FrontDoorProps.ExtensionDecidesBadRequest` | pprofweb.go:140-144 | a decodable parameter gets the "file extension is not allowed" 400 exactly when the resolved name ends in neither `.pb.gz` nor `.pb.`, whatever `os.Stat` and the loader say |
| `FrontDoorProps.AllowedExtensionExamples` | pprofweb.go:140-144 | through the root handler, `trace.pb.gz` and `trace.pb.` pass the allow-list, while `notes.txt`, `trace.pb` and `trace.gz` get the 400 with the registry unchanged |
| `FrontDoorProps.MethodCheckedFirst` | pprofweb.go:118-121 | a non-GET is 405 whatever its path, its parameter, the collaborators and the fresh id |
| `FrontDoorProps.PathCheckedBeforeQuery` | pprofweb.go:123-126 | a GET of a path other than `/` is 404 even with a `profile` parameter |
| `FrontDoorProps.DecodeCheckedBeforeExtension` | pprofweb.go:133-137 | an undecodable parameter is 400 whatever path resolution, the file system and the loader say |
| `FrontDoorProps.ExtensionCheckedBeforeStat` | pprofweb.go:138-149 | a disallowed name is 400 before the file system is asked, whether or not the file exists |
| `FrontDoorProps.OnlyMissingFileIsNotFound` | pprofweb.go:146-149 | a stat error other than not-exist passes the check and never yields 404 |
| `FrontDoorProps.RedirectReachesNewSession` | pprofweb.go:151-186 | a successful load redirects to `/pprofweb/<id>`; following it within 30 s reaches the new session's mux |
| `FrontDoorProps.RedirectWithoutReportDangles` | pprofweb.go:180-186 | a loader that succeeds without reporting handlers still redirects, and following the redirect is a 404 |
| `FrontDoorProps.FailedLoadMayLeaveSession` | pprofweb.go:180-184 | a loader that reports its handlers and then fails gives 500, yet the session stays registered |

## Left out

- Concurrency: the `sync.RWMutex` is not modelled, and each operation is one atomic state transition. The model therefore does not show that `servePprof` resets the timer while holding only the read lock (pprofweb.go:96-100). A timer whose callback is already waiting for the lock still deletes the session right after that hit.
- Real timers: `time.AfterFunc` and `Timer.Reset` become a deadline per entry. Their firing is the explicit `Expire` or `Advance` step on an abstract clock.
- Durations are unbounded naturals. The model has no `int64` overflow of `time.Duration`, and no negative validity duration (Go's `Reset` with a negative duration fires at once).
- Registry.Advance: it removes every due session at once. The order in which due timers fire is not modelled, beyond `Lifecycle.ExpireIsAdvanceStep`.
- HTTP plumbing: `http.ListenAndServe` and `server.Run`; the gzip wrapper (pprofweb.go:73); request logging (pprofweb.go:109-114); the landing page HTML, modelled as the bare `Landing` response.
- ServeMux internals: the outer mux's cleaning of non-canonical paths and its redirect from `/pprofweb` to `/pprofweb/`; dispatch inside a session's mux by longest matching pattern. A session's mux is modelled as the map it holds.
- Router.NamespaceUnderSessionRoot: it states the prefix property only for patterns without `..` segments that have at least one real segment (or are the root pattern). With `..`, `path.Join` can climb out of the session subtree, and the code does not guard against that. A pattern with no real segment other than `/` itself, such as `""`, `"."` or `"/."`, is joined to `/pprofweb/<id>` without the trailing `/`: that path routes back to the session but lies outside the subtree pattern `/pprofweb/<id>/`.
- No traversal-safety claim is made for `rootHandler`. `filepath.Clean` keeps leading `..` segments, so the comment at pprofweb.go:138 is not backed by the code. Path cleaning and joining onto the base directory stay one uninterpreted `resolve` parameter.
- Foreign calls are parameters: `uuid.New` becomes the fresh id; `url.QueryUnescape`, `filepath.Clean`/`filepath.Join` and `os.Stat` become functions of the environment; `driver.PProf`, the fetcher and `profile.Parse` become one loader run. The query value is already decoded once by `URL.Query()` and is decoded again by `url.QueryUnescape`; the model takes the first decoding as given and makes the second a parameter.
- `newServer` only builds an empty map; the model's registry is any map, and the empty one is a special case.
- The CLI in `main`, `pprofFlags` (a wrapper over `flag.FlagSet`), `fakeUI` and `fetcherFn` are thin wrappers around library interfaces.
- A panic in `startHTTP` is modelled as the `Aborted` response. How `net/http` recovers from it and closes the connection is not modelled.
