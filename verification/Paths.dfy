/** store.go's path construction: where a handle's copy and its hold file are, and why the
    rest of this project may treat both as maps keyed by handle. */
module Paths {
  import opened Text
  import opened Handles

  const COPIES_DIRECTORY := "copies"
  const HOLDS_DIRECTORY := "holds"

  /** `filepath.Clean` takes the elements of a path left to right: it skips empty elements
      and ".", and lets ".." take back the element before it. */
  function Reduce(rooted: bool, parts: seq<string>, done: seq<string>): seq<string>
    decreases |parts|
  {
    if parts == [] then done
    else
      var next :=
        if parts[0] == "" || parts[0] == "." then done
        else if parts[0] != ".." then done + [parts[0]]
        else if done != [] && done[|done| - 1] != ".." then done[..|done| - 1]
        else if rooted then done
        else done + [".."];
      Reduce(rooted, parts[1..], next)
  }

  predicate Rooted(path: string) { path != "" && path[0] == '/' }

  function Elements(path: string): seq<string> {
    Reduce(Rooted(path), Split(path, '/'), [])
  }

  function Render(rooted: bool, elements: seq<string>): string {
    if rooted then "/" + Join(elements, '/')
    else if elements == [] then "."
    else Join(elements, '/')
  }

  function Clean(path: string): string {
    Render(Rooted(path), Elements(path))
  }

  /** `filepath.Join`: leading empty elements are dropped, then the rest is cleaned. */
  function JoinPath(elements: seq<string>): string {
    if elements == [] then ""
    else if elements[0] == "" then JoinPath(elements[1..])
    else Clean(Join(elements, '/'))
  }

  function CopyPath(root: string, handle: string): string {
    JoinPath([root, COPIES_DIRECTORY, handle])
  }

  function HoldPath(root: string, handle: string): string {
    JoinPath([root, HOLDS_DIRECTORY, handle])
  }

  /** The path is `top` or lies below it. */
  predicate Under(top: string, path: string) {
    path == top || top + "/" <= path
  }

  /** `os.RemoveAll` on a filesystem keyed by path. */
  function RemoveAll<T>(fs: map<string, T>, top: string): map<string, T> {
    map p | p in fs && !Under(top, p) :: fs[p]
  }

  /** It takes exactly the path itself and what continues it after a slash. */
  lemma RemovalByPrefix<T>(fs: map<string, T>, top: string, path: string)
    ensures path in RemoveAll(fs, top) <==>
              path in fs && path != top && !(|path| > |top| && path[..|top|] == top && path[|top|] == '/')
    ensures path in RemoveAll(fs, top) ==> RemoveAll(fs, top)[path] == fs[path]
  {
    if top + "/" <= path { assert path[..|top|] == top && path[|top|] == '/'; }
    if |path| > |top| && path[..|top|] == top && path[|top|] == '/' {
      assert path[..|top| + 1] == top + "/";
    }
  }

  lemma {:induction false} ReduceAppend(rooted: bool, a: seq<string>, b: seq<string>, done: seq<string>)
    ensures Reduce(rooted, a + b, done) == Reduce(rooted, b, Reduce(rooted, a, done))
    decreases |a|
  {
    if a == [] {
      assert a + b == b;
    } else {
      assert (a + b)[1..] == a[1..] + b && (a + b)[0] == a[0];
      var next :=
        if a[0] == "" || a[0] == "." then done
        else if a[0] != ".." then done + [a[0]]
        else if done != [] && done[|done| - 1] != ".." then done[..|done| - 1]
        else if rooted then done
        else done + [".."];
      ReduceAppend(rooted, a[1..], b, next);
    }
  }

  /** What a cleaned path below the root begins with. */
  function PrefixOf(rooted: bool, base: seq<string>): string {
    var slash := if rooted then "/" else "";
    if base == [] then slash else slash + Join(base, '/') + "/"
  }

  function Prefix(root: string): string { PrefixOf(Rooted(root), Elements(root)) }

  function Directory(root: string, directory: string): string { Prefix(root) + directory + "/" }

  lemma TwoElements(directory: string, name: string)
    requires IsElement(directory) && IsElement(name)
    ensures Split(directory + "/" + name, '/') == [directory, name]
  {
    SplitSolid(directory, '/');
    SplitSolid(name, '/');
    SplitAppend(directory, name, '/');
  }

  /** Cleaning a path that ends in two plain elements keeps both, after what was before. */
  lemma ElementsOfTwoBelow(root: string, directory: string, name: string)
    requires root != "" && IsElement(directory) && IsElement(name)
    ensures Elements(root + "/" + (directory + "/" + name)) == Elements(root) + [directory, name]
  {
    var tail := directory + "/" + name;
    TwoElements(directory, name);
    SplitAppend(root, tail, '/');
    assert (root + "/" + tail)[0] == root[0];
    ReduceAppend(Rooted(root), Split(root, '/'), [directory, name], []);
    ReduceTwo(Rooted(root), directory, name, Elements(root));
  }

  lemma JoinTwo(base: seq<string>, directory: string, name: string)
    requires base != []
    ensures Join(base + [directory, name], '/') == Join(base, '/') + "/" + (directory + "/" + name)
  {
    JoinAppend(base, directory, '/');
    JoinAppend(base + [directory], name, '/');
    assert base + [directory] + [name] == base + [directory, name];
    var head := Join(base, '/');
    assert head + "/" + directory + "/" + name == head + "/" + (directory + "/" + name);
  }

  lemma RenderTwoBelow(rooted: bool, base: seq<string>, directory: string, name: string)
    ensures Render(rooted, base + [directory, name]) == PrefixOf(rooted, base) + (directory + "/" + name)
  {
    if base == [] {
      assert base + [directory, name] == [directory, name];
      assert Join([directory, name], '/') == directory + "/" + name by {
        assert [directory, name][1..] == [name];
      }
    } else {
      JoinTwo(base, directory, name);
      var slash, head, tail := if rooted then "/" else "", Join(base, '/'), directory + "/" + name;
      assert slash + (head + "/" + tail) == slash + head + "/" + tail;
    }
  }

  lemma TwoBelow(root: string, directory: string, name: string)
    requires IsElement(directory) && IsElement(name)
    ensures JoinPath([root, directory, name]) == Prefix(root) + (directory + "/" + name)
  {
    var tail := directory + "/" + name;
    assert Join([directory, name], '/') == tail by { assert [directory, name][1..] == [name]; }
    assert [root, directory, name][1..] == [directory, name];
    if root == "" {
      TwoElements(directory, name);
      ReduceTwo(false, directory, name, []);
      assert [] + [directory, name] == [directory, name];
      assert tail[0] == directory[0];
      RenderTwoBelow(false, [], directory, name);
      assert Clean(tail) == tail;
      EmptyElements();
    } else {
      ElementsOfTwoBelow(root, directory, name);
      RenderTwoBelow(Rooted(root), Elements(root), directory, name);
      assert (root + "/" + tail)[0] == root[0];
      assert Join([root, directory, name], '/') == root + "/" + tail;
    }
  }

  lemma EmptyElements()
    ensures Elements("") == []
  {
    assert Reduce(false, [""], []) == Reduce(false, [""][1..], []);
  }

  lemma ReduceTwo(rooted: bool, a: string, b: string, done: seq<string>)
    requires IsElement(a) && IsElement(b)
    ensures Reduce(rooted, [a, b], done) == done + [a, b]
  {
    assert [a, b][1..] == [b] && [b][1..] == [];
    assert Reduce(rooted, [b], done + [a]) == Reduce(rooted, [], done + [a] + [b]);
    assert done + [a] + [b] == done + [a, b];
  }

  lemma OneBelow(root: string, directory: string)
    requires IsElement(directory)
    ensures JoinPath([root, directory]) == Prefix(root) + directory
  {
    assert [root, directory][1..] == [directory] && [directory][1..] == [];
    SplitSolid(directory, '/');
    assert Join([directory], '/') == directory;
    if root == "" {
      EmptyElements();
      assert Reduce(false, [directory], []) == Reduce(false, [], [directory]);
      assert Clean(directory) == directory;
    } else {
      var base := Elements(root);
      SplitAppend(root, directory, '/');
      assert (root + "/" + directory)[0] == root[0];
      ReduceAppend(Rooted(root), Split(root, '/'), [directory], []);
      assert Reduce(Rooted(root), [directory], base) == Reduce(Rooted(root), [], base + [directory]);
      assert Join([root, directory], '/') == root + "/" + directory;
      RenderOneBelow(Rooted(root), base, directory);
    }
  }

  lemma RenderOneBelow(rooted: bool, base: seq<string>, directory: string)
    ensures Render(rooted, base + [directory]) == PrefixOf(rooted, base) + directory
  {
    if base == [] {
      assert base + [directory] == [directory];
    } else {
      JoinAppend(base, directory, '/');
      var slash, head := if rooted then "/" else "", Join(base, '/');
      assert slash + (head + "/" + directory) == slash + head + "/" + directory;
    }
  }

  lemma ElementBelow(root: string, directory: string, name: string)
    requires IsElement(directory) && IsElement(name)
    ensures JoinPath([root, directory, name]) == JoinPath([root, directory]) + "/" + name
    ensures JoinPath([root, directory, name]) == Directory(root, directory) + name
  {
    OneBelow(root, directory);
    TwoBelow(root, directory, name);
    var prefix := Prefix(root);
    assert prefix + (directory + "/" + name) == prefix + directory + "/" + name;
  }

  /** A copy is one element below the copies directory the sweep lists, a hold one element below
      the holds directory recovery lists, whatever the root is. */
  lemma OneElementBelow(root: string, name: string)
    requires IsElement(name)
    ensures CopyPath(root, name) == JoinPath([root, COPIES_DIRECTORY]) + "/" + name
    ensures HoldPath(root, name) == JoinPath([root, HOLDS_DIRECTORY]) + "/" + name
    ensures CopyPath(root, name) == Directory(root, COPIES_DIRECTORY) + name
    ensures HoldPath(root, name) == Directory(root, HOLDS_DIRECTORY) + name
  {
    ElementBelow(root, COPIES_DIRECTORY, name);
    ElementBelow(root, HOLDS_DIRECTORY, name);
  }

  /** Whatever lies at or below `directory + name` shows `name` as its first element there. */
  lemma FirstElementBelow(directory: string, name: string, path: string)
    requires '/' !in name && Under(directory + name, path)
    ensures directory <= path && Split(path[|directory|..], '/')[0] == name
  {
    SplitSolid(name, '/');
    if path == directory + name {
      assert path[|directory|..] == name;
    } else {
      var below := path[|directory + name + "/"|..];
      assert path == directory + name + "/" + below;
      assert path[|directory|..] == name + "/" + below;
      SplitAppend(name, below, '/');
    }
  }

  /** Paths below the copies directory are not below the holds directory. */
  lemma CopiesApartFromHolds(root: string, a: string, b: string, path: string)
    requires IsElement(a) && IsElement(b)
    ensures !(Under(CopyPath(root, a), path) && Under(HoldPath(root, b), path))
  {
    OneElementBelow(root, a);
    OneElementBelow(root, b);
    var n := |Prefix(root)|;
    if Under(CopyPath(root, a), path) && Under(HoldPath(root, b), path) {
      SharesCharacter(CopyPath(root, a), path, n, 'c');
      SharesCharacter(HoldPath(root, b), path, n, 'h');
    }
  }

  lemma SharesCharacter(top: string, path: string, n: nat, c: char)
    requires Under(top, path) && n < |top| && top[n] == c
    ensures n < |path| && path[n] == c
  {
    if path != top { assert (top + "/")[n] == c; }
  }

  /** Removing one copy takes everything below it and nothing of any other copy or of any
      hold: different names have disjoint trees. */
  lemma RemovalIsContained<T>(fs: map<string, T>, root: string, name: string, other: string, path: string)
    requires IsElement(name) && IsElement(other)
    ensures CopyPath(root, name) == CopyPath(root, other) <==> name == other
    ensures Under(CopyPath(root, name), path) ==> path !in RemoveAll(fs, CopyPath(root, name))
    ensures Under(CopyPath(root, other), path) && other != name ==>
              (path in fs <==> path in RemoveAll(fs, CopyPath(root, name))) &&
              (path in fs ==> RemoveAll(fs, CopyPath(root, name))[path] == fs[path])
    ensures Under(HoldPath(root, other), path) ==>
              (path in fs <==> path in RemoveAll(fs, CopyPath(root, name))) &&
              (path in fs ==> RemoveAll(fs, CopyPath(root, name))[path] == fs[path])
  {
    OneElementBelow(root, name);
    OneElementBelow(root, other);
    var directory := Directory(root, COPIES_DIRECTORY);
    if CopyPath(root, name) == CopyPath(root, other) {
      FirstElementBelow(directory, name, directory + name);
      FirstElementBelow(directory, other, directory + name);
    }
    if Under(CopyPath(root, name), path) { FirstElementBelow(directory, name, path); }
    if Under(CopyPath(root, other), path) { FirstElementBelow(directory, other, path); }
    CopiesApartFromHolds(root, name, other, path);
  }

  /** The same for two handles the driver accepts, which is what its check is for. */
  lemma AcceptedHandlesAreApart(root: string, a: string, b: string, path: string)
    requires CheckHandle(a).Accepted? && CheckHandle(b).Accepted? && a != b
    ensures CopyPath(root, a) != CopyPath(root, b)
    ensures !(Under(CopyPath(root, a), path) && Under(CopyPath(root, b), path))
    ensures !(Under(CopyPath(root, a), path) && Under(HoldPath(root, a), path))
    ensures !(Under(CopyPath(root, a), path) && Under(HoldPath(root, b), path))
  {
    AcceptedIsElement(a);
    AcceptedIsElement(b);
    RemovalIsContained(map[path := 0], root, a, b, path);
    CopiesApartFromHolds(root, a, a, path);
    CopiesApartFromHolds(root, a, b, path);
  }
}
