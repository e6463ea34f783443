/** POSIX path resolution as the safety classifier uses it: `os.path.join`, `os.path.normpath`, and
    the string test for "inside the repository". */
module Paths {

  /** `path.split("/")` */
  function Split(p: string): (cs: seq<string>)
    ensures |cs| >= 1
    ensures forall i | 0 <= i < |cs| :: '/' !in cs[i]
  {
    if p == "" then [""]
    else
      var rest := Split(p[1..]);
      if p[0] == '/' then [""] + rest else [[p[0]] + rest[0]] + rest[1..]
  }

  /** A component that normalisation keeps. */
  predicate Kept(c: string) {
    c != "" && c != "." && c != ".." && '/' !in c
  }

  predicate AllKept(cs: seq<string>) {
    forall i | 0 <= i < |cs| :: Kept(cs[i])
  }

  /** One step of `normpath` on an absolute path. */
  function Step(done: seq<string>, c: string): seq<string> {
    if c == "" || c == "." then done
    else if c == ".." then (if done == [] then [] else done[..|done| - 1])
    else done + [c]
  }

  function Normalise(done: seq<string>, cs: seq<string>): seq<string>
    decreases cs
  {
    if cs == [] then done else Normalise(Step(done, cs[0]), cs[1..])
  }

  /** "/a/b/c" for [a, b, c] */
  function Body(cs: seq<string>): string {
    if cs == [] then "" else "/" + cs[0] + Body(cs[1..])
  }

  /** A single-rooted absolute path. */
  function Render(cs: seq<string>): string {
    if cs == [] then "/" else Body(cs)
  }

  /** Exactly two leading slashes are kept by `normpath`; any other number is one. */
  predicate DoubleSlash(p: string) {
    "//" <= p && !("///" <= p)
  }

  /** `os.path.normpath` on an absolute path. */
  function NormPath(p: string): string {
    var cs := Normalise([], Split(p));
    if DoubleSlash(p) then "/" + Render(cs) else Render(cs)
  }

  predicate IsAbsolute(p: string) {
    p != "" && p[0] == '/'
  }

  /** `os.path.join(root, p)` for a relative p. */
  function JoinRelative(root: string, p: string): string {
    if root != "" && root[|root| - 1] == '/' then root + p else root + "/" + p
  }

  /** `_resolve(p)`, for a non-empty string. */
  function Resolve(root: string, p: string): string {
    NormPath(if IsAbsolute(p) then p else JoinRelative(root, p))
  }

  /** `_in_repo(p)`: equal to the root, or the root and a separator in front. */
  predicate InRepo(root: string, p: string) {
    p != "" && (Resolve(root, p) == root || root + "/" <= Resolve(root, p))
  }

  // ---- what the string test means ----

  /** The components p denotes, seen from the root directory. */
  function Components(root: seq<string>, p: string): seq<string> {
    if IsAbsolute(p) then Normalise([], Split(p)) else Normalise(root, Split(p))
  }

  lemma {:induction false} NormaliseAppend(done: seq<string>, a: seq<string>, b: seq<string>)
    ensures Normalise(done, a + b) == Normalise(Normalise(done, a), b)
    decreases a
  {
    if a == [] {
      assert a + b == b;
    } else {
      assert (a + b)[1..] == a[1..] + b;
      NormaliseAppend(Step(done, a[0]), a[1..], b);
    }
  }

  lemma {:induction false} NormaliseKept(done: seq<string>, cs: seq<string>)
    requires AllKept(cs)
    ensures Normalise(done, cs) == done + cs
    decreases cs
  {
    if cs == [] {
      assert done + cs == done;
    } else {
      NormaliseKept(done + [cs[0]], cs[1..]);
      assert done + [cs[0]] + cs[1..] == done + cs;
    }
  }

  lemma {:induction false} NormaliseResult(done: seq<string>, cs: seq<string>)
    requires AllKept(done) && forall i | 0 <= i < |cs| :: '/' !in cs[i]
    ensures AllKept(Normalise(done, cs))
    decreases cs
  {
    if cs != [] { NormaliseResult(Step(done, cs[0]), cs[1..]); }
  }

  lemma {:induction false} SplitAtSlash(a: string, b: string)
    ensures Split(a + ("/" + b)) == Split(a) + Split(b)
  {
    if a == "" {
      assert a + ("/" + b) == "/" + b;
      assert ("/" + b)[1..] == b;
    } else {
      var s := a + ("/" + b);
      assert s[1..] == a[1..] + ("/" + b);
      SplitAtSlash(a[1..], b);
    }
  }

  lemma {:induction false} SplitWord(c: string)
    requires '/' !in c
    ensures Split(c) == [c]
  {
    if c != "" {
      SplitWord(c[1..]);
      assert [c[0]] + c[1..] == c;
    }
  }

  lemma {:induction false} SplitBody(cs: seq<string>)
    requires AllKept(cs)
    ensures Split(Body(cs)) == [""] + cs
  {
    if cs != [] {
      var c, rest := cs[0], Body(cs[1..]);
      SplitWord(c);
      SplitBody(cs[1..]);
      if cs[1..] == [] {
        assert "/" + c + rest == "" + ("/" + c);
        SplitAtSlash("", c);
        assert cs == [c];
      } else {
        var tail := rest[1..];
        assert rest == "/" + tail;
        assert "/" + c + rest == "" + ("/" + (c + ("/" + tail)));
        SplitAtSlash("", c + ("/" + tail));
        SplitAtSlash(c, tail);
        SplitAtSlash("", tail);
        assert "" + ("/" + tail) == rest;
        assert [""] + Split(tail) == [""] + cs[1..];
        assert Split(tail) == cs[1..] by { assert ([""] + Split(tail))[1..] == ([""] + cs[1..])[1..]; }
        assert cs == [c] + cs[1..];
      }
    }
  }

  /** Text up to the next separator is determined. */
  lemma {:induction false} HeadUnique(x: string, s: string, y: string, t: string)
    requires '/' !in x && '/' !in y
    requires (s == "" || s[0] == '/') && (t == "" || t[0] == '/')
    requires x + s == y + t
    ensures x == y && s == t
  {
    assert x != "" ==> (x + s)[0] == x[0];
    assert y != "" ==> (y + t)[0] == y[0];
    assert x == "" ==> x + s == s;
    assert y == "" ==> y + t == t;
    if x != "" && y != "" {
      assert (x + s)[1..] == x[1..] + s && (y + t)[1..] == y[1..] + t;
      HeadUnique(x[1..], s, y[1..], t);
    }
  }

  lemma {:induction false} BodyInjective(a: seq<string>, b: seq<string>)
    requires AllKept(a) && AllKept(b)
    ensures Body(a) == Body(b) ==> a == b
  {
    if Body(a) == Body(b) && a != [] && b != [] {
      TailOfBody(a);
      TailOfBody(b);
      HeadUnique(a[0], Body(a[1..]), b[0], Body(b[1..]));
      BodyInjective(a[1..], b[1..]);
      assert a == [a[0]] + a[1..] && b == [b[0]] + b[1..];
    }
  }

  lemma TailOfBody(cs: seq<string>)
    requires cs != []
    ensures Body(cs)[1..] == cs[0] + Body(cs[1..])
  {
  }

  /** A rendered path that begins with the root and a separator lies strictly below the root. */
  lemma {:induction false} PrefixMeansBelow(root: seq<string>, cs: seq<string>, rest: string)
    requires AllKept(root) && AllKept(cs) && Body(cs) == Body(root) + ("/" + rest)
    ensures root < cs
  {
    if root == [] {
      assert Body(cs) != "";
    } else {
      TailOfBody(root);
      TailOfBody(cs);
      var s := Body(root[1..]) + ("/" + rest);
      assert Body(cs)[1..] == root[0] + s;
      assert s[0] == '/';
      HeadUnique(cs[0], Body(cs[1..]), root[0], s);
      PrefixMeansBelow(root[1..], cs[1..], rest);
      assert root == [root[0]] + root[1..] && cs == [cs[0]] + cs[1..];
    }
  }

  lemma BelowMeansPrefix(root: seq<string>, cs: seq<string>)
    requires root < cs
    ensures Body(root) + "/" <= Body(cs)
  {
  }

  lemma ResolveMeaning(root: seq<string>, p: string)
    requires root != [] && AllKept(root) && p != ""
    ensures AllKept(Components(root, p))
    ensures Resolve(Render(root), p) == (if DoubleSlash(p) then "/" else "") + Render(Components(root, p))
  {
    NormaliseResult([], Split(p));
    NormaliseResult(root, Split(p));
    if !IsAbsolute(p) {
      var r := Body(root);
      LastIsKept(root);
      assert JoinRelative(r, p) == r + ("/" + p);
      SplitAtSlash(r, p);
      SplitBody(root);
      NormaliseAppend([], [""] + root, Split(p));
      assert ([""] + root)[1..] == root;
      NormaliseKept([], root);
      assert [] + root == root;
      assert Normalise([], Split(r + ("/" + p))) == Components(root, p);
      NotDoubled(root, p);
    }
  }

  lemma NotDoubled(root: seq<string>, p: string)
    requires root != [] && AllKept(root)
    ensures !DoubleSlash(Body(root) + ("/" + p))
  {
    TailOfBody(root);
    var s := Body(root) + ("/" + p);
    assert s[1] == Body(root)[1..][0] == root[0][0];
    assert root[0][0] in root[0];
    assert s[1] != '/';
  }

  lemma {:induction false} LastIsKept(cs: seq<string>)
    requires cs != [] && AllKept(cs)
    ensures Body(cs) != "" && Body(cs)[|Body(cs)| - 1] != '/'
  {
    if |cs| == 1 {
      assert Body(cs) == "/" + cs[0] + "";
      assert Body(cs)[|Body(cs)| - 1] == cs[0][|cs[0]| - 1];
    } else {
      LastIsKept(cs[1..]);
      assert Body(cs)[|Body(cs)| - 1] == Body(cs[1..])[|Body(cs[1..])| - 1];
    }
  }

  /** The string test on two rendered paths is the prefix test on their components. */
  lemma RenderedBelowExact(root: seq<string>, cs: seq<string>)
    requires root != [] && AllKept(root) && AllKept(cs)
    ensures Render(cs) == Body(root) || Body(root) + "/" <= Render(cs) <==> root <= cs
  {
    RootLongerThanSlash(root);
    if cs != [] {
      BodyInjective(cs, root);
      if Body(root) + "/" <= Body(cs) {
        SplitPrefix(Body(root), Body(cs));
        PrefixMeansBelow(root, cs, Body(cs)[|Body(root)| + 1..]);
      }
      if root < cs { BelowMeansPrefix(root, cs); }
      assert root <= cs <==> root == cs || root < cs;
    }
  }

  lemma SplitPrefix(a: string, s: string)
    requires a + "/" <= s
    ensures s == a + ("/" + s[|a| + 1..])
  {
  }

  lemma RootLongerThanSlash(root: seq<string>)
    requires root != [] && AllKept(root)
    ensures |Body(root)| >= 2 && Body(root)[0] == '/' && Body(root)[1] != '/'
  {
  }

  /** Two leading slashes never match a single-slash root. */
  lemma DoubledIsOutside(root: seq<string>, cs: seq<string>)
    requires root != [] && AllKept(root)
    ensures var r := "/" + Render(cs); r != Body(root) && !(Body(root) + "/" <= r)
  {
    RootLongerThanSlash(root);
    var r := "/" + Render(cs);
    assert r[1] == Render(cs)[0] == '/';
    assert (Body(root) + "/")[1] == Body(root)[1];
  }

  /** The string test accepts exactly the paths whose normalised components extend the root's,
      for absolute and relative paths with any "." and ".."; a path kept under two leading
      slashes is never accepted. */
  lemma InRepoExact(root: seq<string>, p: string)
    requires root != [] && AllKept(root)
    ensures InRepo(Render(root), p) <==> p != "" && !DoubleSlash(p) && root <= Components(root, p)
  {
    if p != "" {
      var cs := Components(root, p);
      ResolveMeaning(root, p);
      if DoubleSlash(p) {
        DoubledIsOutside(root, cs);
      } else {
        assert "" + Render(cs) == Render(cs);
        RenderedBelowExact(root, cs);
      }
    }
  }

  lemma ResolveFromRoot(p: string)
    requires p != ""
    ensures AllKept(Components([], p))
    ensures Resolve("/", p) == (if DoubleSlash(p) then "/" else "") + Render(Components([], p))
  {
    NormaliseResult([], Split(p));
    if !IsAbsolute(p) {
      SplitAtSlash("", p);
      assert "" + ("/" + p) == "/" + p == JoinRelative("/", p);
      assert (Split("") + Split(p))[1..] == Split(p);
      assert ("/" + p)[1] == p[0];
    }
  }

  /** A repository at the file system root: its text already ends in the separator, so the test asks
      for two. It accepts exactly the paths that denote the root itself, and every path written with
      exactly two leading slashes, whatever it denotes. */
  lemma RootRepositoryExact(p: string)
    ensures InRepo(Render([]), p) <==> p != "" && (DoubleSlash(p) || Components([], p) == [])
  {
    if p != "" {
      var cs := Components([], p);
      ResolveFromRoot(p);
      assert "" + Render(cs) == Render(cs);
      if DoubleSlash(p) {
        assert Render(cs)[0] == '/';
      } else if cs != [] {
        RootLongerThanSlash(cs);
        assert ("/" + "/")[1] == '/';
      }
    }
  }

  /** So neither half of "inside means below" holds there: "/foo" is rejected, "//foo" accepted. */
  lemma RootRepositoryExamples()
    ensures !InRepo(Render([]), "/foo") && [] <= Components([], "/foo")
    ensures InRepo(Render([]), "//foo") && Components([], "//foo") == ["foo"]
  {
    RootRepositoryExact("/foo");
    RootRepositoryExact("//foo");
    SplitWord("foo");
    assert "/foo" == "" + ("/" + "foo") && "//foo" == "" + ("/" + "/foo");
    SplitAtSlash("", "foo");
    SplitAtSlash("", "/foo");
    NormaliseFoo(["", "foo"]);
    NormaliseFoo(["", "", "foo"]);
  }

  lemma NormaliseFoo(cs: seq<string>)
    requires cs == ["", "foo"] || cs == ["", "", "foo"]
    ensures Normalise([], cs) == ["foo"]
  {
    var k := |cs| - 1;
    assert cs[..k] + ["foo"] == cs;
    NormaliseAppend([], cs[..k], ["foo"]);
    NormaliseKept([], ["foo"]);
    assert [] + ["foo"] == ["foo"];
  }
}
