/**
  Per-session URL namespacing (pprofweb.go, `startHTTP` and `servePprof`).

  Every session owns the URL subtree `/pprofweb/<id>/`. When a session is
  registered, each URL pattern produced by the profile loader is moved under
  that subtree; when a request arrives under `/pprofweb/`, the session id is
  read back from the first path segment after the prefix.
 */
module Router {
  import opened Strings
  import opened GoPath

  /** The fixed namespace prefix of all session traffic (`pprofWebPath`). */
  const Prefix: string := "/pprofweb/"

  /**
    Ids the server generates are UUID strings: nonempty, free of `/`, and
    neither `.` nor `..`, so that path cleaning leaves them alone.
   */
  predicate ValidId(id: string) {
    id != "" && id != "." && id != ".." && '/' !in id
  }

  /** The subtree pattern that owns all of a session's pages: `/pprofweb/<id>/`. */
  function SessionRoot(id: string): string {
    Prefix + id + "/"
  }

  /**
    The path `/pprofweb/<id>` followed, when `rest` is nonempty, by `/` and
    the segments of `rest` joined with `/`.
   */
  function SessionPath(id: string, rest: seq<string>): string {
    if rest == [] then Prefix + id else Prefix + id + "/" + Join(rest, '/')
  }

  /**
    Where a loader pattern is installed for session `id`: the root pattern `/`
    becomes the session's subtree root itself, every other pattern is
    `path.Join`ed onto it.
   */
  function Namespace(id: string, pattern: string): (r: string)
    ensures pattern == "/" ==> r == SessionRoot(id)
    ensures ValidId(id) && pattern != "/" && NoDotDot(Split(pattern, '/')) ==>
      r == SessionPath(id, Kept(Split(pattern, '/')))
  {
    if pattern == "/" then SessionRoot(id)
    else
      assert ValidId(id) && NoDotDot(Split(pattern, '/')) ==>
        Join2(SessionRoot(id), pattern) == SessionPath(id, Kept(Split(pattern, '/'))) by {
        if ValidId(id) && NoDotDot(Split(pattern, '/')) {
          JoinUnderSessionRoot(id, pattern);
        }
      }
      Join2(SessionRoot(id), pattern)
  }

  /**
    The id a request path is routed to: the path with the `/pprofweb/` prefix
    trimmed, up to (not including) the first `/`. The id never contains `/`;
    when the path is under the prefix, the id is exactly the text after the
    prefix up to the next `/` or the end of the path.
   */
  function ExtractId(path: string): (id: string)
    ensures '/' !in id
    ensures HasPrefix(path, Prefix) ==>
      && HasPrefix(path, Prefix + id)
      && (|path| == |Prefix| + |id| || path[|Prefix| + |id|] == '/')
    ensures !HasPrefix(path, Prefix) ==>
      && HasPrefix(path, id)
      && (|path| == |id| || path[|id|] == '/')
  {
    var rest := TrimPrefix(path, Prefix);
    SplitHead(rest, '/');
    var id := Split(rest, '/')[0];
    assert HasPrefix(path, Prefix) ==> path == Prefix + rest && Prefix + id == path[..|Prefix| + |id|];
    id
  }

  /**
    The redirect target after a session is created, `path.Join("/pprofweb/", id)`:
    for a generated id it is `/pprofweb/<id>`, which routes back to `id`.
   */
  function RedirectTarget(id: string): (r: string)
    ensures ValidId(id) ==> r == Prefix + id && ExtractId(r) == id
  {
    assert ValidId(id) ==> Join2(Prefix, id) == Prefix + id && ExtractId(Prefix + id) == id by {
      if ValidId(id) {
        JoinOntoPrefix(id);
        ExtractIdRoundTrip(id, "");
      }
    }
    Join2(Prefix, id)
  }

  /**
    `path.Join` of the session root with any pattern free of `..` segments is
    the session path of the pattern's kept segments: it never climbs out of
    the session, and it ends without a trailing `/`.
   */
  lemma JoinUnderSessionRoot(id: string, pattern: string)
    requires ValidId(id)
    requires NoDotDot(Split(pattern, '/'))
    ensures Join2(SessionRoot(id), pattern) == SessionPath(id, Kept(Split(pattern, '/')))
  {
    var t := "pprofweb/" + id + "//" + pattern;
    var tail := Split(pattern, '/');
    JoinIsCleanOfTail(id, pattern);
    assert Clean("/" + t) == RootedPath(["pprofweb", id] + Kept(tail)) by {
      SplitSessionTail(id, pattern);
      assert NoDotDot(Split(t, '/')) by {
        forall i | 0 <= i < |Split(t, '/')| ensures Split(t, '/')[i] != ".." {
          if i >= 3 {
            assert Split(t, '/')[i] == tail[i - 3];
          }
        }
      }
      CleanRooted(t);
      KeptSessionTail(id, tail);
    }
    SessionPathIsRooted(id, Kept(tail));
  }

  /** Joining onto the session root cleans `/pprofweb/<id>//<pattern>`. */
  lemma JoinIsCleanOfTail(id: string, pattern: string)
    ensures Join2(SessionRoot(id), pattern) == Clean("/" + ("pprofweb/" + id + "//" + pattern))
  {
    var a := SessionRoot(id) + "/" + pattern;
    assert Join2(SessionRoot(id), pattern) == Clean(a);
    assert a == "/" + ("pprofweb/" + id + "//" + pattern) by {
      assert a == "/" + "pprofweb/" + id + "/" + "/" + pattern;
    }
  }

  /** The pieces of `pprofweb/<id>//<pattern>`: `pprofweb`, the id, an empty piece, then the pattern's. */
  lemma SplitSessionTail(id: string, pattern: string)
    requires ValidId(id)
    ensures Split("pprofweb/" + id + "//" + pattern, '/') == ["pprofweb", id, ""] + Split(pattern, '/')
  {
    var x := "" + ['/'] + pattern;
    var y := id + ['/'] + x;
    assert "pprofweb/" + id + "//" + pattern == "pprofweb" + ['/'] + y;
    SplitCons("", pattern, '/');
    SplitCons(id, x, '/');
    SplitCons("pprofweb", y, '/');
    assert ["pprofweb"] + ([id] + ([""] + Split(pattern, '/'))) == ["pprofweb", id, ""] + Split(pattern, '/');
  }

  /** The kept segments of a session-root join: `pprofweb`, the id, then the pattern's own. */
  lemma KeptSessionTail(id: string, tail: seq<string>)
    requires ValidId(id)
    ensures Kept(["pprofweb", id, ""] + tail) == ["pprofweb", id] + Kept(tail)
  {
    KeptAppend(["pprofweb", id, ""], tail);
    KeptCons("pprofweb", [id, ""]);
    KeptCons(id, [""]);
    assert Kept([""]) == [];
  }

  /** A segment that is neither empty nor `.` is kept in front of the rest. */
  lemma KeptCons(x: string, rest: seq<string>)
    requires x != "" && x != "."
    ensures Kept([x] + rest) == [x] + Kept(rest)
  {
  }

  /** `SessionPath` is the rooted path of the stack `pprofweb`, id, segments. */
  lemma SessionPathIsRooted(id: string, k: seq<string>)
    ensures RootedPath(["pprofweb", id] + k) == SessionPath(id, k)
  {
    assert Join(["pprofweb", id], '/') == "pprofweb" + "/" + id by {
      assert ["pprofweb", id][1..] == [id];
    }
    if k == [] {
      assert ["pprofweb", id] + k == ["pprofweb", id];
    } else {
      JoinConcat(["pprofweb", id], k, '/');
    }
  }

  /** `Kept` distributes over concatenation. */
  lemma {:induction false} KeptAppend(a: seq<string>, b: seq<string>)
    ensures Kept(a + b) == Kept(a) + Kept(b)
  {
    if |a| > 0 {
      assert (a + b)[0] == a[0];
      assert (a + b)[1..] == a[1..] + b;
      KeptAppend(a[1..], b);
    } else {
      assert a + b == b;
    }
  }

  /**
    Why the root pattern is special-cased: `path.Join` would strip the
    trailing `/` from the session root, leaving `/pprofweb/<id>`, which as a
    mux pattern matches that one path instead of the session's whole subtree.
   */
  lemma JoinDropsRootSlash(id: string)
    requires ValidId(id)
    ensures Join2(SessionRoot(id), "/") == Prefix + id
    ensures Namespace(id, "/") == SessionRoot(id) != Prefix + id
  {
    assert "/" == "" + ['/'] + "";
    SplitConcat("", "", '/');
    assert Split("", '/') == [""];
    assert Split("/", '/') == ["", ""];
    JoinUnderSessionRoot(id, "/");
    assert |SessionRoot(id)| != |Prefix + id|;
  }

  /**
    Every installed pattern stays inside its session's subtree: the root
    pattern is the subtree root, and any pattern with a real segment and no
    `..` segment lands strictly below it.
   */
  lemma NamespaceUnderSessionRoot(id: string, pattern: string)
    requires ValidId(id)
    requires NoDotDot(Split(pattern, '/'))
    requires pattern == "/" || Kept(Split(pattern, '/')) != []
    ensures HasPrefix(Namespace(id, pattern), SessionRoot(id))
    ensures pattern != "/" ==> |Namespace(id, pattern)| > |SessionRoot(id)|
  {  }

  /** Reading the id back from `/pprofweb/<id>` or `/pprofweb/<id>/<rest>` yields `id`. */
  lemma ExtractIdRoundTrip(id: string, rest: string)
    requires '/' !in id
    ensures ExtractId(Prefix + id) == id
    ensures ExtractId(Prefix + id + "/" + rest) == id
  {
    assert HasPrefix(Prefix + id, Prefix);
    assert TrimPrefix(Prefix + id, Prefix) == id;
    SplitNoSep(id, '/');
    var p := Prefix + id + "/" + rest;
    assert p[..|Prefix|] == Prefix;
    assert TrimPrefix(p, Prefix) == id + ['/'] + rest;
    SplitCons(id, rest, '/');
  }

  /**
    Namespacing and id extraction are inverse: every path a session installs
    (for patterns without `..` segments) routes back to that session.
   */
  lemma ExtractNamespaced(id: string, pattern: string)
    requires ValidId(id)
    requires NoDotDot(Split(pattern, '/'))
    ensures ExtractId(Namespace(id, pattern)) == id
  {
    if pattern == "/" {
      ExtractIdRoundTrip(id, "");
      assert SessionRoot(id) == Prefix + id + "/" + "";
    } else {
      var k := Kept(Split(pattern, '/'));
      ExtractIdRoundTrip(id, Join(k, '/'));
    }
  }

  /**
    Routing isolation: for generated ids and loader patterns without `..`
    segments, distinct sessions never share an installed path, so a request
    under one session's namespace cannot reach another's handlers. A `..`
    segment can break this: `path.Join` takes `/pprofweb/a/` plus `../b/x` to
    `/pprofweb/b/x`.
   */
  lemma NamespacesDisjoint(a: string, b: string, p: string, q: string)
    requires ValidId(a) && ValidId(b) && a != b
    requires NoDotDot(Split(p, '/')) && NoDotDot(Split(q, '/'))
    ensures Namespace(a, p) != Namespace(b, q)
  {
    ExtractNamespaced(a, p);
    ExtractNamespaced(b, q);
  }

  /** `path.Join("/pprofweb/", id)` for a generated id is `/pprofweb/<id>`: the trailing `/` of the prefix is not doubled. */
  lemma JoinOntoPrefix(id: string)
    requires ValidId(id)
    ensures Join2(Prefix, id) == Prefix + id
  {
    var t := "pprofweb//" + id;
    RedirectIsClean(id);
    assert Clean("/" + t) == RootedPath(["pprofweb", id] + []) by {
      SplitRedirectTail(id);
      CleanRooted(t);
      assert ["pprofweb", "", id] == ["pprofweb"] + ["", id];
      KeptCons("pprofweb", ["", id]);
      assert ["", id] == [""] + [id] && Kept([""] + [id]) == Kept([id]);
      KeptCons(id, []);
      assert [id] + [] == [id];
      assert ["pprofweb"] + [id] == ["pprofweb", id] + [];
    }
    SessionPathIsRooted(id, []);
  }

  /** `path.Join("/pprofweb/", id)` cleans `/pprofweb//<id>`. */
  lemma RedirectIsClean(id: string)
    ensures Join2(Prefix, id) == Clean("/" + ("pprofweb//" + id))
  {
    var a := Prefix + "/" + id;
    assert Join2(Prefix, id) == Clean(a);
    assert a == "/" + ("pprofweb//" + id) by {
      assert a == "/" + "pprofweb/" + "/" + id;
    }
  }

  /** The pieces of `pprofweb//<id>`. */
  lemma SplitRedirectTail(id: string)
    requires ValidId(id)
    ensures Split("pprofweb//" + id, '/') == ["pprofweb", "", id]
  {
    var x := "" + ['/'] + id;
    assert "pprofweb//" + id == "pprofweb" + ['/'] + x;
    SplitCons("", id, '/');
    SplitCons("pprofweb", x, '/');
    SplitNoSep(id, '/');
    assert ["pprofweb"] + ([""] + [id]) == ["pprofweb", "", id];
  }
}
