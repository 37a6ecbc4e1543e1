/**
  Properties of the front door: the extension allow-list, the order of the
  root handler's checks (an earlier failure answers the same whatever the
  later collaborators would have said), and the redirect that leads the
  browser into the session it just created.
 */
module FrontDoorProps {
  import opened Router
  import opened Registry
  import opened FrontDoor

  /**
    The allow-list decides the "file extension is not allowed" answer: a
    decodable `profile` parameter gets that 400 exactly when the resolved
    file name does not end in `.pb.gz` or `.pb.`, whatever `os.Stat` and the
    loader would say. An allowed name is never answered with that 400.
   */
  lemma ExtensionDecidesBadRequest<H>(s: Sessions<H>, req: Request, env: Env<H>, id: string, now: nat)
    requires AsksForProfile(req) && env.unescape(req.profile).Decoded?
    ensures RootHandler(s, req, env, id, now).1 == BadRequest(ExtensionNotAllowed) <==> !AllowedExtension(ProfileFile(req, env))
  {
  }

  /**
    Concrete names through the root handler: a gzipped profile and a name
    with the trailing `.pb.` pass the allow-list, while a text file, a bare
    `.pb` and a bare `.gz` are answered 400.
   */
  lemma AllowedExtensionExamples<H>(s: Sessions<H>, req: Request, env: Env<H>, id: string, now: nat)
    requires AsksForProfile(req) && env.unescape(req.profile).Decoded?
    ensures ProfileFile(req, env) in {"profiles/trace.pb.gz", "profiles/trace.pb."} ==>
      RootHandler(s, req, env, id, now).1 != BadRequest(ExtensionNotAllowed)
    ensures ProfileFile(req, env) in {"profiles/notes.txt", "profiles/trace.pb", "profiles/trace.gz"} ==>
      RootHandler(s, req, env, id, now) == (s, BadRequest(ExtensionNotAllowed))
  {  }

  /**
    The method is checked first: a request that is not a GET is answered
    405 whatever its path and parameter and whatever the collaborators and
    the fresh id would have been.
   */
  lemma MethodCheckedFirst<H>(s: Sessions<H>, req: Request, env1: Env<H>, env2: Env<H>,
                              id1: string, id2: string, t1: nat, t2: nat)
    requires req.httpMethod != "GET"
    ensures RootHandler(s, req, env1, id1, t1) == RootHandler(s, req, env2, id2, t2) == (s, MethodNotAllowed(WrongMethod))
  {
  }

  /**
    The path is checked before the parameter: a GET of any other path is
    404, even when it carries a `profile` parameter.
   */
  lemma PathCheckedBeforeQuery<H>(s: Sessions<H>, req: Request, env1: Env<H>, env2: Env<H>,
                                  id1: string, id2: string, t1: nat, t2: nat)
    requires req.httpMethod == "GET" && req.path != "/"
    ensures RootHandler(s, req, env1, id1, t1) == RootHandler(s, req, env2, id2, t2) == (s, NotFound(PathNotFound))
  {
  }

  /**
    Decoding comes before the extension check: an undecodable parameter is
    400 whatever the path resolution, the file system and the loader say.
   */
  lemma DecodeCheckedBeforeExtension<H>(s: Sessions<H>, req: Request, env1: Env<H>, env2: Env<H>,
                                        id1: string, id2: string, t1: nat, t2: nat)
    requires AsksForProfile(req)
    requires env1.unescape == env2.unescape && env1.unescape(req.profile).Undecodable?
    ensures RootHandler(s, req, env1, id1, t1) == RootHandler(s, req, env2, id2, t2) == (s, BadRequest(UndecodableQuery))
  {
  }

  /**
    The extension is checked before the file system is consulted: a
    disallowed name is 400 whatever `os.Stat` and the loader would report,
    and whether or not the file exists.
   */
  lemma ExtensionCheckedBeforeStat<H>(s: Sessions<H>, req: Request, env1: Env<H>, env2: Env<H>,
                                      id1: string, id2: string, t1: nat, t2: nat)
    requires AsksForProfile(req)
    requires env1.unescape == env2.unescape && env1.resolve == env2.resolve
    requires env1.unescape(req.profile).Decoded? && !AllowedExtension(ProfileFile(req, env1))
    ensures RootHandler(s, req, env1, id1, t1) == RootHandler(s, req, env2, id2, t2) == (s, BadRequest(ExtensionNotAllowed))
  {
  }

  /**
    Only a missing file is a 404: when `os.Stat` fails for another reason,
    the request still goes on to the loader.
   */
  lemma OnlyMissingFileIsNotFound<H>(s: Sessions<H>, req: Request, env: Env<H>, id: string, now: nat)
    requires AsksForProfile(req) && env.unescape(req.profile).Decoded?
    requires AllowedExtension(ProfileFile(req, env)) && env.stat(ProfileFile(req, env)) == StatFailed
    ensures PassesChecks(req, env)
    ensures !RootHandler(s, req, env, id, now).1.NotFound?
  {
  }

  /**
    A loader that reports its handlers once and succeeds creates the
    session under the fresh id and redirects to it; following the redirect
    within the first 30 seconds reaches the new session's mux. The redirect
    is requested by the browser as a GET of the location.
   */
  lemma RedirectReachesNewSession<H>(s: Sessions<H>, req: Request, env: Env<H>, id: string, now: nat,
                                     later: nat, ttl: nat, nextId: string)
    requires ValidId(id) && id !in s
    requires PassesChecks(req, env)
    requires env.load(ProfileFile(req, env), id).reports != []
    requires !env.load(ProfileFile(req, env), id).failed
    requires InstallsDistinct(id, env.load(ProfileFile(req, env), id).reports[0])
    requires now <= later < now + InitialLifetime
    ensures RootHandler(s, req, env, id, now).1 == SeeOther(Prefix + id)
    ensures
      var s1 := RootHandler(s, req, env, id, now).0;
      var follow := Request("GET", Prefix + id, "");
      Handle(Advance(s1, later), follow, env, nextId, later, ttl).1
        == Delegated(Install(id, env.load(ProfileFile(req, env), id).reports[0]).mux)
  {  }

  /**
    A loader that succeeds without ever reporting its handlers still earns
    a redirect, but the redirect leads nowhere: the id was never registered,
    so following it is a 404.
   */
  lemma RedirectWithoutReportDangles<H>(s: Sessions<H>, req: Request, env: Env<H>, id: string, now: nat,
                                        later: nat, ttl: nat, nextId: string)
    requires ValidId(id) && id !in s
    requires PassesChecks(req, env)
    requires env.load(ProfileFile(req, env), id) == LoaderRun([], false)
    ensures RootHandler(s, req, env, id, now) == (s, SeeOther(Prefix + id))
    ensures Handle(s, Request("GET", Prefix + id, ""), env, nextId, later, ttl) == (s, NotFound(NotLoadedMessage))
  {  }

  /**
    A loader that fails after reporting its handlers answers 500, yet the
    session it reported stays registered until its timer fires.
   */
  lemma FailedLoadMayLeaveSession<H>(s: Sessions<H>, req: Request, env: Env<H>, id: string, now: nat)
    requires id !in s
    requires PassesChecks(req, env)
    requires env.load(ProfileFile(req, env), id).failed
    requires env.load(ProfileFile(req, env), id).reports != []
    requires InstallsDistinct(id, env.load(ProfileFile(req, env), id).reports[0])
    ensures RootHandler(s, req, env, id, now).1 == ServerError(LoaderFailed)
    ensures id in RootHandler(s, req, env, id, now).0
  {
  }
}
