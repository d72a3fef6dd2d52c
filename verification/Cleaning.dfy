/** What `filepath.Clean` and `filepath.Join` are documented to do, rule by rule, and what the
    driver's paths come to, written out. */
module Cleaning {
  import opened Text
  import opened Handles
  import opened Paths

  /** The elements of a clean path: plain names, and before them, in a relative path only, "..". */
  predicate IsResolved(rooted: bool, es: seq<string>) {
    && (forall e | e in es :: IsElement(e) || (!rooted && e == ".."))
    && forall i, j | 0 <= i < j < |es| :: es[j] == ".." ==> es[i] == ".."
  }

  /** The path that a clean path's elements spell. */
  function Spelled(rooted: bool, es: seq<string>): string {
    if rooted then "/" + Join(es, '/') else if es == [] then "." else Join(es, '/')
  }

  lemma {:induction false} SplitOfJoin(es: seq<string>)
    requires es != [] && forall e | e in es :: '/' !in e
    ensures Split(Join(es, '/'), '/') == es
  {
    if |es| == 1 {
      SplitSolid(es[0], '/');
    } else {
      var rest := es[1..];
      SplitOfJoin(rest);
      SplitSolid(es[0], '/');
      SplitAppend(es[0], Join(rest, '/'), '/');
      assert es == [es[0]] + rest;
    }
  }

  lemma {:induction false} ReduceResolved(rooted: bool, parts: seq<string>, done: seq<string>)
    requires IsResolved(rooted, done + parts)
    ensures Reduce(rooted, parts, done) == done + parts
    decreases |parts|
  {
    if parts == [] {
      assert done + parts == done;
    } else {
      var e := parts[0];
      assert e in done + parts && (done + parts)[|done|] == e;
      if e == ".." && done != [] { assert (done + parts)[|done| - 1] == done[|done| - 1] == ".."; }
      assert done + [e] + parts[1..] == done + parts;
      ReduceResolved(rooted, parts[1..], done + [e]);
    }
  }

  /** The reverse: what the reduction leaves is always resolved. */
  lemma {:induction false} ReduceResolves(rooted: bool, parts: seq<string>, done: seq<string>)
    requires IsResolved(rooted, done) && forall e | e in parts :: '/' !in e
    ensures IsResolved(rooted, Reduce(rooted, parts, done))
    decreases |parts|
  {
    if parts != [] {
      var e, rest := parts[0], parts[1..];
      if e == "" || e == "." {
        ReduceResolves(rooted, rest, done);
      } else if e != ".." {
        ReduceResolves(rooted, rest, done + [e]);
      } else if done != [] && done[|done| - 1] != ".." {
        ReduceResolves(rooted, rest, done[..|done| - 1]);
      } else if rooted {
        ReduceResolves(rooted, rest, done);
      } else {
        ReduceResolves(rooted, rest, done + [".."]);
      }
    }
  }

  lemma ElementsOfSpelled(rooted: bool, es: seq<string>)
    requires IsResolved(rooted, es)
    ensures Rooted(Spelled(rooted, es)) == rooted && Elements(Spelled(rooted, es)) == es
  {
    assert [] + es == es;
    assert forall e | e in es :: e != "" && '/' !in e;
    if es == [] {
      SplitSolid("", '/');
      SplitSolid(".", '/');
      if rooted { SplitAppend("", "", '/'); }
      assert "/" == "" + "/" + "";
      NothingIn(rooted);
    } else {
      SplitOfJoin(es);
      assert es[0] in es;
      FirstOfJoin(es);
      ReduceResolved(rooted, es, []);
      if rooted {
        SplitSolid("", '/');
        SplitAppend("", Join(es, '/'), '/');
        assert Split("/" + Join(es, '/'), '/') == [""] + es;
        assert ([""] + es)[1..] == es;
      }
    }
  }

  lemma NothingIn(rooted: bool)
    ensures Reduce(rooted, ["", ""], []) == [] && Reduce(rooted, ["."], []) == []
  {
    assert ["", ""][1..] == [""] && [""][1..] == [] && ["."][1..] == [];
    assert Reduce(rooted, [""], []) == Reduce(rooted, [], []);
    assert Reduce(rooted, ["."], []) == Reduce(rooted, [], []);
  }

  lemma FirstOfJoin(es: seq<string>)
    requires es != [] && es[0] != "" && '/' !in es[0]
    ensures Join(es, '/') != "" && Join(es, '/')[0] == es[0][0] != '/'
  {
  }

  /** A clean path is its own cleaning, and every cleaning is a clean path. */
  lemma CleanIsIdentityOnClean(rooted: bool, es: seq<string>)
    requires IsResolved(rooted, es)
    ensures Clean(Spelled(rooted, es)) == Spelled(rooted, es)
  {
    ElementsOfSpelled(rooted, es);
  }

  lemma CleanIsClean(path: string) returns (es: seq<string>)
    ensures IsResolved(path != "" && path[0] == '/', es)
    ensures Clean(path) == Spelled(path != "" && path[0] == '/', es)
  {
    es := Elements(path);
    ReduceResolves(Rooted(path), Split(path, '/'), []);
  }

  // ---- the documented rules ----

  lemma ElementsOfSlash(a: string, b: string)
    ensures Rooted(a + "/" + b) == (a == "" || a[0] == '/')
    ensures Elements(a + "/" + b) ==
              Reduce(a == "" || a[0] == '/', Split(b, '/'), Reduce(a == "" || a[0] == '/', Split(a, '/'), []))
  {
    var path, rooted := a + "/" + b, a == "" || a[0] == '/';
    assert path[0] == (if a == "" then '/' else a[0]);
    SplitAppend(a, b, '/');
    ReduceAppend(rooted, Split(a, '/'), Split(b, '/'), []);
  }

  lemma SkipsEmpty(b: string, rooted: bool, done: seq<string>)
    ensures Reduce(rooted, Split("/" + b, '/'), done) == Reduce(rooted, Split(b, '/'), done)
  {
    SplitSolid("", '/');
    SplitAppend("", b, '/');
    assert "" + "/" + b == "/" + b;
    assert ([""] + Split(b, '/'))[1..] == Split(b, '/');
  }

  /** Doubled slashes are one. */
  lemma DoubledSlash(a: string, b: string)
    ensures Clean(a + "//" + b) == Clean(a + "/" + b)
  {
    assert a + "//" + b == a + "/" + ("/" + b);
    ElementsOfSlash(a, "/" + b);
    ElementsOfSlash(a, b);
    var rooted := a == "" || a[0] == '/';
    SkipsEmpty(b, rooted, Reduce(rooted, Split(a, '/'), []));
  }

  lemma SkipsOne(e: string, b: string, rooted: bool, done: seq<string>)
    requires '/' !in e
    ensures Split(e + "/" + b, '/') == [e] + Split(b, '/')
    ensures e == "." ==> Reduce(rooted, Split(e + "/" + b, '/'), done) == Reduce(rooted, Split(b, '/'), done)
    ensures IsElement(e) ==> Reduce(rooted, Split(e + "/" + b, '/'), done) == Reduce(rooted, Split(b, '/'), done + [e])
    ensures e == ".." && done != [] && done[|done| - 1] != ".." ==>
              Reduce(rooted, Split(e + "/" + b, '/'), done) == Reduce(rooted, Split(b, '/'), done[..|done| - 1])
    ensures e == ".." && done == [] && rooted ==>
              Reduce(rooted, Split(e + "/" + b, '/'), done) == Reduce(rooted, Split(b, '/'), done)
  {
    SplitSolid(e, '/');
    SplitAppend(e, b, '/');
    assert ([e] + Split(b, '/'))[1..] == Split(b, '/');
  }

  /** A "." goes. */
  lemma DotElement(a: string, b: string)
    ensures Clean(a + "/./" + b) == Clean(a + "/" + b)
  {
    assert a + "/./" + b == a + "/" + ("." + "/" + b);
    ElementsOfSlash(a, "." + "/" + b);
    ElementsOfSlash(a, b);
    var rooted := a == "" || a[0] == '/';
    SkipsOne(".", b, rooted, Reduce(rooted, Split(a, '/'), []));
  }

  /** A ".." takes the name before it with it. */
  lemma DotDotElement(a: string, name: string, b: string)
    requires IsElement(name)
    ensures Clean(a + "/" + name + "/../" + b) == Clean(a + "/" + b)
  {
    var up := ".." + "/" + b;
    assert a + "/" + name + "/../" + b == a + "/" + (name + "/" + up);
    ElementsOfSlash(a, name + "/" + up);
    ElementsOfSlash(a, b);
    var rooted := a == "" || a[0] == '/';
    var done := Reduce(rooted, Split(a, '/'), []);
    SkipsOne(name, up, rooted, done);
    SkipsOne("..", b, rooted, done + [name]);
    assert (done + [name])[..|done|] == done;
  }

  /** At the root there is nothing above. */
  lemma DotDotAtRoot(b: string)
    ensures Clean("/../" + b) == Clean("/" + b)
  {
    assert "/../" + b == "" + "/" + (".." + "/" + b) && "/" + b == "" + "/" + b;
    ElementsOfSlash("", ".." + "/" + b);
    ElementsOfSlash("", b);
    assert Reduce(true, [""], []) == Reduce(true, [""][1..], []);
    SkipsOne("..", b, true, []);
  }

  /** A slash at the end goes. */
  lemma TrailingSlash(a: string)
    requires a != ""
    ensures Clean(a + "/") == Clean(a)
  {
    assert a + "/" == a + "/" + "";
    ElementsOfSlash(a, "");
    var done := Elements(a);
    assert Reduce(Rooted(a), [""], done) == Reduce(Rooted(a), [""][1..], done);
  }

  /** At the start of a relative path a "." goes, and so does a name with the ".." behind it. */
  lemma AtTheStart(name: string, b: string)
    requires IsElement(name) && (b != "" ==> b[0] != '/')
    ensures Clean("./" + b) == Clean(b) && Clean(name + "/../" + b) == Clean(b)
  {
    SkipsOne(".", b, false, []);
    var up := ".." + "/" + b;
    assert name + "/../" + b == name + "/" + up && "./" + b == "." + "/" + b;
    SkipsOne(name, up, false, []);
    SkipsOne("..", b, false, [name]);
    assert [] + [name] == [name] && [name][..0] == [];
    assert (name + "/" + up)[0] == name[0];
  }

  // ---- the driver's paths ----

  lemma BelowPrefix(root: string, prefix: string, handle: string)
    requires Prefix(root) == prefix && IsElement(handle)
    ensures CopyPath(root, handle) == prefix + "copies/" + handle
    ensures HoldPath(root, handle) == prefix + "holds/" + handle
  {
    OneElementBelow(root, handle);
    assert prefix + "copies" + "/" == prefix + "copies/" && prefix + "holds" + "/" == prefix + "holds/";
  }

  lemma SlashThen(root: string, directory: string, handle: string)
    ensures root + "/" + directory + handle == root + ("/" + directory) + handle
  {
  }

  lemma BelowItself(root: string, handle: string)
    requires Prefix(root) == root + "/" && IsElement(handle)
    ensures CopyPath(root, handle) == root + "/copies/" + handle
    ensures HoldPath(root, handle) == root + "/holds/" + handle
  {
    BelowPrefix(root, root + "/", handle);
    SlashThen(root, "copies/", handle);
    SlashThen(root, "holds/", handle);
  }

  lemma PrefixOfSpelled(rooted: bool, es: seq<string>)
    requires IsResolved(rooted, es) && es != []
    ensures Prefix(Spelled(rooted, es)) == Spelled(rooted, es) + "/"
  {
    ElementsOfSpelled(rooted, es);
  }

  /** The store's directories below a clean root, to the letter. */
  lemma PathsBelowCleanRoot(rooted: bool, es: seq<string>, handle: string)
    requires IsResolved(rooted, es) && es != [] && IsElement(handle)
    ensures var root := if rooted then "/" + Join(es, '/') else Join(es, '/');
            && CopyPath(root, handle) == root + "/copies/" + handle
            && HoldPath(root, handle) == root + "/holds/" + handle
  {
    PrefixOfSpelled(rooted, es);
    BelowItself(Spelled(rooted, es), handle);
  }

  /** And below the root of the filesystem, and the working directory. */
  lemma PathsBelowBareRoot(handle: string)
    requires IsElement(handle)
    ensures CopyPath("/", handle) == "/copies/" + handle && HoldPath("/", handle) == "/holds/" + handle
    ensures CopyPath("", handle) == "copies/" + handle && HoldPath("", handle) == "holds/" + handle
    ensures CopyPath(".", handle) == "copies/" + handle && HoldPath(".", handle) == "holds/" + handle
  {
    ElementsOfSpelled(true, []);
    ElementsOfSpelled(false, []);
    EmptyElements();
    BelowPrefix("/", "/", handle);
    BelowPrefix("", "", handle);
    BelowPrefix(".", "", handle);
    assert "/" + "copies/" == "/copies/" && "/" + "holds/" == "/holds/";
    assert "" + "copies/" == "copies/" && "" + "holds/" == "holds/";
  }

  /** And any other root is as good as its cleaning, for which the rules above say what it is. */
  lemma RootMayBeCleaned(root: string, handle: string)
    requires root != "" && IsElement(handle)
    ensures CopyPath(root, handle) == CopyPath(Clean(root), handle)
    ensures HoldPath(root, handle) == HoldPath(Clean(root), handle)
  {
    var es := Elements(root);
    ReduceResolves(Rooted(root), Split(root, '/'), []);
    ElementsOfSpelled(Rooted(root), es);
    OneElementBelow(root, handle);
    OneElementBelow(Clean(root), handle);
  }
}
