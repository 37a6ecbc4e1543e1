/**
  Properties of a session's life in the registry: idempotent registration,
  the fixed first lifetime, renewal on each hit, eviction when the timer
  fires, and the isolation between sessions that id routing guarantees.
 */
module Lifecycle {
  import opened Strings
  import opened GoPath
  import opened Router
  import opened Registry

  /**
    Registering twice under one id (as the loader's callback may do) keeps
    the first registration in effect: the second call succeeds and changes
    nothing, and a later lookup is served by the first handlers' mux.
   */
  lemma RegisterTwiceKeepsFirst<H>(s: Sessions<H>, id: string, h1: Handlers<H>, h2: Handlers<H>,
                                    t1: nat, t2: nat, t3: nat, ttl: nat)
    requires id !in s && InstallsDistinct(id, h1)
    ensures Register(Register(s, id, h1, t1).0, id, h2, t2) == (Register(s, id, h1, t1).0, Ok)
    ensures Lookup(Register(s, id, h1, t1).0, id, t3, ttl).1 == Dispatched(Install(id, h1).mux)
  {
  }

  /**
    A freshly registered session, left alone, lives exactly 30 seconds,
    whatever validity duration the server was configured with.
   */
  lemma FreshSessionLifetime<H>(s: Sessions<H>, id: string, h: Handlers<H>, now: nat, later: nat)
    requires id !in s && InstallsDistinct(id, h)
    ensures id in Advance(Register(s, id, h, now).0, later) <==> later < now + InitialLifetime
  {
  }

  /**
    A hit at time `now` moves the session's expiry to `now + ttl`: with no
    further activity it is still live at every earlier instant and gone from
    then on, whether that is later or earlier than its previous deadline.
   */
  lemma RenewalSetsExpiry<H>(s: Sessions<H>, id: string, now: nat, ttl: nat, later: nat)
    requires id in s
    ensures id in Advance(Lookup(s, id, now, ttl).0, later) <==> later < now + ttl
  {
  }

  /**
    The renewal scenario end to end: a session created at `t0` and hit at
    `t1`, before its first 30 seconds ran out, is still served at `t2`
    exactly when `t2` falls before `t1 + ttl`.
   */
  lemma CreateHitThenServe<H>(s: Sessions<H>, id: string, h: Handlers<H>, t0: nat, t1: nat, t2: nat, ttl: nat)
    requires id !in s && InstallsDistinct(id, h)
    requires t0 <= t1 < t0 + InitialLifetime
    ensures id in Advance(Register(s, id, h, t0).0, t1)
    ensures
      var s1 := Lookup(Advance(Register(s, id, h, t0).0, t1), id, t1, ttl).0;
      Lookup(Advance(s1, t2), id, t2, ttl).1.Dispatched? <==> t2 < t1 + ttl
  {
  }

  /**
    Eviction is terminal until the id is registered again: once the timer
    has fired, lookups miss; a new registration under the same id succeeds
    and is served by the new handlers.
   */
  lemma ExpiredUntilRecreated<H>(s: Sessions<H>, id: string, h: Handlers<H>, now: nat, ttl: nat)
    requires id in s && s[id].deadline <= now
    requires InstallsDistinct(id, h)
    ensures Lookup(Advance(s, now), id, now, ttl) == (Advance(s, now), NotLoaded)
    ensures Register(Advance(s, now), id, h, now).1 == Ok
    ensures Lookup(Register(Advance(s, now), id, h, now).0, id, now, ttl).1 == Dispatched(Install(id, h).mux)
  {
  }

  /**
    Firing one due timer ahead of the others changes nothing about the
    registry once the clock has advanced: `Expire` is the single-timer step
    of `Advance`.
   */
  lemma ExpireIsAdvanceStep<H>(s: Sessions<H>, id: string, now: nat)
    requires id in s && s[id].deadline <= now
    ensures Advance(Expire(s, id), now) == Advance(s, now)
    ensures Expire(Advance(s, now), id) == Advance(s, now)
  {
  }

  /** Every registry operation keeps the invariant that live ids are ones the server could generate. */
  lemma WellFormedPreserved<H>(s: Sessions<H>, id: string, h: Handlers<H>, path: string, now: nat, ttl: nat)
    requires WellFormed(s)
    ensures ValidId(id) ==> WellFormed(Register(s, id, h, now).0)
    ensures WellFormed(Serve(s, path, now, ttl).0)
    ensures WellFormed(Expire(s, id))
    ensures WellFormed(Advance(s, now))
  {
  }

  /**
    A request for the bare namespace `/pprofweb/` carries the empty id,
    which no session has: it is a 404 and changes nothing.
   */
  lemma BareNamespaceMisses<H>(s: Sessions<H>, now: nat, ttl: nat)
    requires WellFormed(s)
    ensures ExtractId(Prefix) == ""
    ensures Serve(s, Prefix, now, ttl) == (s, NotLoaded)
  {
  }

  /**
    Any request under `/pprofweb/<id>/` reaches session `id` and nothing
    else: a live session is renewed and serves it, every other session is
    left as it was; an unknown id is a 404 that changes nothing.
   */
  lemma ServeRoutesToOwner<H>(s: Sessions<H>, id: string, rest: string, now: nat, ttl: nat)
    requires '/' !in id
    ensures id in s ==> Serve(s, Prefix + id + "/" + rest, now, ttl).1 == Dispatched(s[id].mux)
    ensures id !in s ==> Serve(s, Prefix + id + "/" + rest, now, ttl) == (s, NotLoaded)
    ensures forall k :: k in s && k != id ==> Serve(s, Prefix + id + "/" + rest, now, ttl).0[k] == s[k]
  {
    ExtractIdRoundTrip(id, rest);
  }

  /**
    Every path a session's mux holds routes back to that session, provided
    the loader's patterns have no `..` segments.
   */
  lemma InstalledPathsRouteBack<H>(id: string, h: Handlers<H>)
    requires ValidId(id)
    requires forall i :: 0 <= i < |h| ==> NoDotDot(Split(h[i].0, '/'))
    ensures forall q :: q in InstalledPaths(id, h) ==> ExtractId(q) == id
  {
    forall q | q in InstalledPaths(id, h) ensures ExtractId(q) == id {
      var i :| 0 <= i < |h| && q == Namespace(id, h[i].0);
      ExtractNamespaced(id, h[i].0);
    }
  }
}
