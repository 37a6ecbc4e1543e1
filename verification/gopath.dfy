/**
  Go's `path.Clean` and two-argument `path.Join`, which the server uses to
  namespace the loader's URL patterns and to build the redirect target.

  `Clean` is written over the `/`-separated segments of its argument: empty
  and `.` segments are dropped, `..` removes the last kept segment (or, with
  nothing left to remove, is dropped in a rooted path and kept in a relative
  one), and the kept segments are joined again, behind a `/` when the input
  was rooted. An empty result is `.`.
 */
module GoPath {
  import opened Strings

  /** True when no segment of `segs` is `..`. */
  predicate NoDotDot(segs: seq<string>) {
    forall i :: 0 <= i < |segs| ==> segs[i] != ".."
  }

  /** One step of `Clean`: how segment `seg` changes the stack of kept segments. */
  function Push(stack: seq<string>, seg: string, rooted: bool): seq<string>
  {
    if seg == "" || seg == "." then stack
    else if seg == ".." then
      if |stack| > 0 && stack[|stack| - 1] != ".." then stack[..|stack| - 1]
      else if rooted then stack
      else stack + [".."]
    else stack + [seg]
  }

  /** Runs `Push` over `segs`, left to right. */
  function Fold(stack: seq<string>, segs: seq<string>, rooted: bool): seq<string>
    decreases |segs|
  {
    if |segs| == 0 then stack
    else Fold(Push(stack, segs[0], rooted), segs[1..], rooted)
  }

  /** The segments that survive when there is no `..` to act on: neither empty nor `.`. */
  function Kept(segs: seq<string>): (r: seq<string>)
    ensures forall i :: 0 <= i < |r| ==> r[i] != "" && r[i] != "."
    ensures NoDotDot(segs) ==> NoDotDot(r)
    ensures SlashFree(segs) ==> SlashFree(r)
  {
    if |segs| == 0 then []
    else if segs[0] == "" || segs[0] == "." then Kept(segs[1..])
    else [segs[0]] + Kept(segs[1..])
  }

  /** True when no segment of `segs` contains `/` (as is the case for the pieces of a split). */
  predicate SlashFree(segs: seq<string>) {
    forall i :: 0 <= i < |segs| ==> '/' !in segs[i]
  }

  /**
    Go's `path.Clean`. The result is never empty (`.` stands for the empty
    path), and it is rooted exactly when the input is: a relative path never
    becomes absolute, however many `..` segments it has.
   */
  function Clean(p: string): (r: string)
    ensures r != ""
    ensures r[0] == '/' <==> p != "" && p[0] == '/'
  {
    if p == "" then "."
    else
      var rooted := p[0] == '/';
      var stack := Fold([], Split(p, '/'), rooted);
      FoldKeepsSegments([], Split(p, '/'), rooted);
      var body := Join(stack, '/');
      assert stack != [] ==> body[0] == stack[0][0];
      if rooted then "/" + body
      else if body == "" then "."
      else body
  }

  /** True when every segment of `segs` is nonempty and free of `/`. */
  predicate Segments(segs: seq<string>) {
    forall i :: 0 <= i < |segs| ==> segs[i] != "" && '/' !in segs[i]
  }

  /** Folding the pieces of a split only ever stacks nonempty, `/`-free segments. */
  lemma {:induction false} FoldKeepsSegments(stack: seq<string>, segs: seq<string>, rooted: bool)
    requires Segments(stack) && SlashFree(segs)
    ensures Segments(Fold(stack, segs, rooted))
    decreases |segs|
  {
    if |segs| > 0 {
      assert SlashFree(segs[1..]) by {
        forall i | 0 <= i < |segs[1..]| ensures '/' !in segs[1..][i] {
          assert segs[1..][i] == segs[i + 1];
        }
      }
      var next := Push(stack, segs[0], rooted);
      assert Segments(next) by {
        assert '/' !in segs[0];
        assert forall i :: 0 <= i < |next| ==> next[i] == (if i < |stack| then stack[i] else if segs[0] == ".." then ".." else segs[0]);
      }
      FoldKeepsSegments(next, segs[1..], rooted);
    }
  }

  /**
    Go's `path.Join(a, b)`: empty arguments are ignored and the rest are
    joined by `/` and cleaned. The result is empty exactly when both
    arguments are, and it is rooted when the first nonempty argument is.
   */
  function Join2(a: string, b: string): (r: string)
    ensures r == "" <==> a == "" && b == ""
    ensures a != "" ==> (r[0] == '/' <==> a[0] == '/')
    ensures a == "" && b != "" ==> (r[0] == '/' <==> b[0] == '/')
  {
    if a == "" && b == "" then ""
    else if a == "" then Clean(b)
    else Clean(a + "/" + b)
  }

  /** Without `..` segments the stack only grows, by the kept segments in order. */
  lemma {:induction false} FoldNoDotDot(stack: seq<string>, segs: seq<string>, rooted: bool)
    requires NoDotDot(segs)
    ensures Fold(stack, segs, rooted) == stack + Kept(segs)
    decreases |segs|
  {
    if |segs| > 0 {
      assert NoDotDot(segs[1..]) by {
        forall i | 0 <= i < |segs[1..]| ensures segs[1..][i] != ".." {
          assert segs[1..][i] == segs[i + 1];
        }
      }
      FoldNoDotDot(Push(stack, segs[0], rooted), segs[1..], rooted);
      if segs[0] == "" || segs[0] == "." {
      } else {
        assert stack + [segs[0]] + Kept(segs[1..]) == stack + ([segs[0]] + Kept(segs[1..]));
      }
    }
  }

  /** Folding a concatenation folds the first part, then the second. */
  lemma {:induction false} FoldConcat(stack: seq<string>, a: seq<string>, b: seq<string>, rooted: bool)
    ensures Fold(stack, a + b, rooted) == Fold(Fold(stack, a, rooted), b, rooted)
    decreases |a|
  {
    if |a| > 0 {
      assert (a + b)[0] == a[0];
      assert (a + b)[1..] == a[1..] + b;
      FoldConcat(Push(stack, a[0], rooted), a[1..], b, rooted);
    } else {
      assert a + b == b;
    }
  }

  /** The string that `Clean` produces from a rooted stack: `/` followed by the stack's segments. */
  function RootedPath(stack: seq<string>): string
  {
    "/" + Join(stack, '/')
  }

  /**
    Cleaning a rooted path `"/" + t` whose tail has no `..` segment keeps
    exactly the nonempty, non-`.` segments of `t`.
   */
  lemma CleanRooted(t: string)
    requires NoDotDot(Split(t, '/'))
    ensures Clean("/" + t) == RootedPath(Kept(Split(t, '/')))
  {
    var p := "/" + t;
    assert p == "" + ['/'] + t;
    SplitConcat("", t, '/');
    assert Split("", '/') == [""];
    var segs := Split(p, '/');
    assert segs == [""] + Split(t, '/');
    FoldConcat([], [""], Split(t, '/'), true);
    assert Fold([], [""], true) == [];
    FoldNoDotDot([], Split(t, '/'), true);
    assert [] + Kept(Split(t, '/')) == Kept(Split(t, '/'));
  }
}
