/**
  The session registry (pprofweb.go, `server.pprofHandler`, `startHTTP`,
  `servePprof` and the eviction timer).

  The registry maps a session id to the session's mux (the loader's handlers,
  installed under the session's namespace) and to the deadline of its
  eviction timer. Time is an abstract clock in nanoseconds, the unit of Go's
  `time.Duration`; a timer that fires is the explicit operation `Expire`.
 */
module Registry {
  import opened Router

  /** One second in `time.Duration` units. */
  const Second: nat := 1_000_000_000

  /** A new session's timer is armed for a fixed 30 seconds, not the configured validity. */
  const InitialLifetime: nat := 30 * Second

  /** The 404 body when a request names no loaded session. */
  const NotLoadedMessage: string := "profile handler not loaded"

  /**
    The loader's pattern-to-handler map, listed in the order in which Go's
    `range` happened to visit it.
   */
  type Handlers<H> = seq<(string, H)>

  /** A session's `http.ServeMux`: installed pattern to handler. */
  type Mux<H> = map<string, H>

  /** A live session: its mux and the time at which its eviction timer fires. */
  datatype Entry<H> = Entry(mux: Mux<H>, deadline: nat)

  /** The registry: session id to live session. */
  type Sessions<H> = map<string, Entry<H>>

  /** Building a session's mux either succeeds or panics on a pattern registered twice. */
  datatype Installed<H> = Installed(mux: Mux<H>) | Conflict(pattern: string)

  /** What `startHTTP` does: it returns nil, or `mux.Handle` panics on a duplicate pattern. */
  datatype Status = Ok | Panicked(pattern: string)

  /** What `servePprof` does with a request: hand it to a session's mux, or answer 404. */
  datatype Served<H> = Dispatched(mux: Mux<H>) | NotLoaded

  /** No two routes share a pattern. */
  predicate DistinctPatterns<H>(routes: Handlers<H>) {
    forall i, j :: 0 <= i < j < |routes| ==> routes[i].0 != routes[j].0
  }

  /** The patterns of `routes`. */
  function Patterns<H>(routes: Handlers<H>): set<string> {
    set i | 0 <= i < |routes| :: routes[i].0
  }

  /**
    `mux.Handle` applied to each route in turn, starting from an empty mux;
    `Handle` panics when a pattern is already taken. It succeeds exactly when
    the patterns are pairwise distinct, and then the mux maps each pattern to
    its own handler and holds nothing else.
   */
  function HandleAll<H>(routes: Handlers<H>): (r: Installed<H>)
    ensures r.Installed? <==> DistinctPatterns(routes)
    ensures r.Installed? ==> r.mux.Keys == Patterns(routes)
    ensures r.Installed? ==> forall i :: 0 <= i < |routes| ==> routes[i].0 in r.mux && r.mux[routes[i].0] == routes[i].1
    decreases |routes|
  {
    if |routes| == 0 then Installed(map[])
    else
      var n := |routes| - 1;
      var init := routes[..n];
      assert forall i :: 0 <= i < n ==> init[i] == routes[i];
      assert Patterns(routes) == Patterns(init) + {routes[n].0};
      match HandleAll(init)
      case Conflict(p) => Conflict(p)
      case Installed(mux) =>
        if routes[n].0 in mux then Conflict(routes[n].0)
        else
          assert DistinctPatterns(routes) by {
            forall i, j | 0 <= i < j < |routes| ensures routes[i].0 != routes[j].0 {
              if j == n {
                assert init[i].0 in Patterns(init);
              }
            }
          }
          Installed(mux[routes[n].0 := routes[n].1])
  }

  /** The loader's routes with each pattern moved under session `id`'s namespace. */
  function Namespaced<H>(id: string, handlers: Handlers<H>): Handlers<H>
  {
    seq(|handlers|, i requires 0 <= i < |handlers| => (Namespace(id, handlers[i].0), handlers[i].1))
  }

  /** No two of the loader's patterns are installed at the same path. */
  predicate InstallsDistinct<H>(id: string, handlers: Handlers<H>) {
    forall i, j :: 0 <= i < j < |handlers| ==> Namespace(id, handlers[i].0) != Namespace(id, handlers[j].0)
  }

  /** The paths at which the loader's patterns are installed for session `id`. */
  function InstalledPaths<H>(id: string, handlers: Handlers<H>): set<string> {
    set i | 0 <= i < |handlers| :: Namespace(id, handlers[i].0)
  }

  /**
    The `for pattern, handler := range args.Handlers` loop of `startHTTP`:
    each loader pattern is namespaced and handed to `mux.Handle`. It
    succeeds exactly when the namespaced patterns are pairwise distinct, and
    then the mux maps each of them to its own handler and holds nothing else.
   */
  function Install<H>(id: string, handlers: Handlers<H>): (r: Installed<H>)
    ensures r.Installed? <==> InstallsDistinct(id, handlers)
    ensures r.Installed? ==> r.mux.Keys == InstalledPaths(id, handlers)
    ensures r.Installed? ==> forall i :: 0 <= i < |handlers| ==>
      Namespace(id, handlers[i].0) in r.mux && r.mux[Namespace(id, handlers[i].0)] == handlers[i].1
  {
    var routes := Namespaced(id, handlers);
    assert |routes| == |handlers| && forall i :: 0 <= i < |routes| ==> routes[i] == (Namespace(id, handlers[i].0), handlers[i].1);
    assert Patterns(routes) == InstalledPaths(id, handlers) by {
      forall q | q in InstalledPaths(id, handlers) ensures q in Patterns(routes) {
        var i :| 0 <= i < |handlers| && q == Namespace(id, handlers[i].0);
        assert routes[i].0 == q;
      }
    }
    HandleAll(routes)
  }

  /**
    `startHTTP` for session `id` at time `now`. An id that is already live is
    left exactly as it was and the call still succeeds; otherwise the session
    is added with the mux that `Install` builds and a deadline 30 seconds
    out, or, when `Install` panics, the registry is left unchanged. No other
    session is touched in any case.
   */
  function Register<H>(sessions: Sessions<H>, id: string, handlers: Handlers<H>, now: nat): (r: (Sessions<H>, Status))
    ensures id in sessions ==> r == (sessions, Ok)
    ensures id !in sessions ==> (r.1 == Ok <==> InstallsDistinct(id, handlers))
    ensures r.1.Panicked? ==> r.0 == sessions
    ensures r.1 == Ok ==> r.0.Keys == sessions.Keys + {id}
    ensures forall k :: k in sessions ==> k in r.0 && r.0[k] == sessions[k]
    ensures id !in sessions && r.1 == Ok ==>
      && r.0[id].deadline == now + InitialLifetime
      && r.0[id].mux.Keys == InstalledPaths(id, handlers)
      && forall i :: 0 <= i < |handlers| ==> r.0[id].mux[Namespace(id, handlers[i].0)] == handlers[i].1
  {
    if id in sessions then (sessions, Ok)
    else
      match Install(id, handlers)
      case Conflict(p) => (sessions, Panicked(p))
      case Installed(mux) => (sessions[id := Entry(mux, now + InitialLifetime)], Ok)
  }

  /**
    The lookup inside `servePprof`: a live id gets its timer reset to fire
    `ttl` after `now` (its mux is kept) and the request goes to its mux; an
    unknown id is a 404 and changes nothing. No other session is touched.
   */
  function Lookup<H>(sessions: Sessions<H>, id: string, now: nat, ttl: nat): (r: (Sessions<H>, Served<H>))
    ensures r.1.Dispatched? <==> id in sessions
    ensures r.1.NotLoaded? ==> r.0 == sessions
    ensures r.0.Keys == sessions.Keys
    ensures forall k :: k in sessions && k != id ==> r.0[k] == sessions[k]
    ensures id in sessions ==>
      && r.1.mux == sessions[id].mux
      && r.0[id].mux == sessions[id].mux
      && r.0[id].deadline == now + ttl
  {
    if id in sessions then
      var e := sessions[id];
      (sessions[id := e.(deadline := now + ttl)], Dispatched(e.mux))
    else (sessions, NotLoaded)
  }

  /**
    `servePprof` on request path `path`: the session named by the path's
    first segment after `/pprofweb/` is looked up and renewed.
   */
  function Serve<H>(sessions: Sessions<H>, path: string, now: nat, ttl: nat): (r: (Sessions<H>, Served<H>))
    ensures r.1.Dispatched? <==> ExtractId(path) in sessions
    ensures r.1.Dispatched? ==> r.1.mux == sessions[ExtractId(path)].mux
    ensures r.0.Keys == sessions.Keys
    ensures forall k :: k in sessions && k != ExtractId(path) ==> r.0[k] == sessions[k]
    ensures ExtractId(path) in sessions ==>
      r.0[ExtractId(path)] == sessions[ExtractId(path)].(deadline := now + ttl)
  {
    Lookup(sessions, ExtractId(path), now, ttl)
  }

  /**
    The eviction timer of session `id` fires: exactly `id` is removed, every
    other session is kept as it was, and firing for an absent id is a no-op.
   */
  function Expire<H>(sessions: Sessions<H>, id: string): (r: Sessions<H>)
    ensures r.Keys == sessions.Keys - {id}
    ensures forall k :: k in r ==> r[k] == sessions[k]
    ensures id !in sessions ==> r == sessions
  {
    sessions - {id}
  }

  /**
    The clock reaches `now`: every timer due by then has fired. A session
    survives exactly when its deadline is still in the future.
   */
  function Advance<H>(sessions: Sessions<H>, now: nat): (r: Sessions<H>)
    ensures forall k :: k in r <==> k in sessions && now < sessions[k].deadline
    ensures forall k :: k in r ==> r[k] == sessions[k]
  {
    map k | k in sessions && now < sessions[k].deadline :: sessions[k]
  }

  /** Every live id is one the server could have generated. */
  predicate WellFormed<H>(sessions: Sessions<H>) {
    forall k :: k in sessions ==> ValidId(k)
  }
}
