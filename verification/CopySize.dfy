/** store.go's walk over a copy, and the stats call that reports it. */
module CopySize {
  import opened Wrappers
  import Paths

  type Error = string

  /** A directory tree as `filepath.Walk` meets it. Children stand in name order, the order
      the walk takes. Reading an entry's metadata or listing a directory may fail. */
  datatype Entry =
    | Regular(size: nat)
    | Irregular
    | Directory(children: seq<Entry>, listing: Option<Error>)
    | Missing(error: Error)

  /** What the callback is handed at one entry: bytes to count, or an error to stop on. */
  datatype Visit = Bytes(count: nat) | Fault(error: Error)

  /** The visits of a walk that nothing stops, in order. */
  function Order(e: Entry): seq<Visit>
    decreases e, 1
  {
    match e
    case Regular(size) => [Bytes(size)]
    case Irregular => [Bytes(0)]
    case Missing(error) => [Fault(error)]
    case Directory(children, None) => [Bytes(0)] + OrderAll(children)
    case Directory(_, Some(error)) => [Fault(error)]
  }

  function OrderAll(es: seq<Entry>): seq<Visit>
    decreases es, 0
  {
    if es == [] then [] else Order(es[0]) + OrderAll(es[1..])
  }

  function FirstFault(visits: seq<Visit>): Option<Error> {
    if visits == [] then None
    else if visits[0].Fault? then Some(visits[0].error)
    else FirstFault(visits[1..])
  }

  /** The bytes counted before the first fault. */
  function Counted(visits: seq<Visit>): nat {
    if visits == [] || visits[0].Fault? then 0 else visits[0].count + Counted(visits[1..])
  }

  const TWO63: int := 0x8000_0000_0000_0000

  predicate IsInt64(n: int) { -TWO63 <= n < TWO63 }

  /** `int64` addition wraps around. */
  function Wrap(n: int): (r: int)
    ensures IsInt64(r) && (IsInt64(n) ==> r == n)
  {
    (n + TWO63) % (2 * TWO63) - TWO63
  }

  /** The running total after the visits before the first fault, wrapping at each. */
  function Added(total: int, visits: seq<Visit>): int
    decreases |visits|
  {
    if visits == [] || visits[0].Fault? then total else Added(Wrap(total + visits[0].count), visits[1..])
  }

  /** Wrapping at every addition is wrapping once at the end. */
  lemma {:induction false} AddedIsWrapped(total: int, visits: seq<Visit>)
    requires IsInt64(total)
    ensures Added(total, visits) == Wrap(total + Counted(visits))
    decreases |visits|
  {
    if visits != [] && visits[0].Bytes? {
      var count, rest := visits[0].count, visits[1..];
      AddedIsWrapped(Wrap(total + count), rest);
      WrapTwice(total + count, Counted(rest));
      assert total + count + Counted(rest) == total + Counted(visits);
    }
  }

  lemma WrapTwice(a: int, b: int)
    ensures Wrap(Wrap(a) + b) == Wrap(a + b)
  {
    var m := 2 * TWO63;
    var q := (a + TWO63) / m;
    assert Wrap(a) == a - q * m;
    var r := (a + b + TWO63) / m;
    var x := Wrap(a) + b + TWO63;
    assert x == (r - q) * m + (a + b + TWO63) % m;
    assert x / m == r - q && x % m == (a + b + TWO63) % m by { UniqueQuotient(x, r - q, (a + b + TWO63) % m, m); }
  }

  lemma UniqueQuotient(x: int, q: int, r: int, m: int)
    requires m == 2 * TWO63 && x == q * m + r && 0 <= r < m
    ensures x / m == q && x % m == r
  {
  }

  lemma {:induction false} VisitsAppend(a: seq<Visit>, b: seq<Visit>)
    ensures FirstFault(a + b) == if FirstFault(a).Some? then FirstFault(a) else FirstFault(b)
    ensures Counted(a + b) == if FirstFault(a).Some? then Counted(a) else Counted(a) + Counted(b)
    ensures forall total :: Added(total, a + b) ==
              if FirstFault(a).Some? then Added(total, a) else Added(Added(total, a), b)
  {
    if a == [] {
      assert a + b == b;
    } else {
      VisitsAppend(a[1..], b);
      assert (a + b)[1..] == a[1..] + b;
    }
  }

  lemma {:induction false} OrderAppend(a: seq<Entry>, b: seq<Entry>)
    ensures OrderAll(a + b) == OrderAll(a) + OrderAll(b)
  {
    if a == [] {
      assert a + b == b;
    } else {
      OrderAppend(a[1..], b);
      assert (a + b)[1..] == a[1..] + b && (a + b)[0] == a[0];
      var one, x, y := Order(a[0]), OrderAll(a[1..]), OrderAll(b);
      assert one + (x + y) == one + x + y;
    }
  }

  lemma OrderOfOne(e: Entry)
    ensures OrderAll([e]) == Order(e)
  {
    assert [e][1..] == [];
    assert Order(e) + [] == Order(e);
  }

  /** One more entry of a directory walked. */
  lemma OneMore(es: seq<Entry>, i: nat, start: int)
    requires i < |es| && FirstFault(OrderAll(es[..i])).None?
    ensures FirstFault(OrderAll(es[..i + 1])) == FirstFault(Order(es[i]))
    ensures Added(start, OrderAll(es[..i + 1])) == Added(Added(start, OrderAll(es[..i])), Order(es[i]))
  {
    assert es[..i + 1] == es[..i] + [es[i]];
    OrderAppend(es[..i], [es[i]]);
    OrderOfOne(es[i]);
    VisitsAppend(OrderAll(es[..i]), Order(es[i]));
  }

  /** Nothing after a fault is visited. */
  lemma StopsAtFault(es: seq<Entry>, i: nat, start: int)
    requires i <= |es| && FirstFault(OrderAll(es[..i])).Some?
    ensures FirstFault(OrderAll(es)) == FirstFault(OrderAll(es[..i]))
    ensures Added(start, OrderAll(es)) == Added(start, OrderAll(es[..i]))
  {
    assert es == es[..i] + es[i..];
    OrderAppend(es[..i], es[i..]);
    VisitsAppend(OrderAll(es[..i]), OrderAll(es[i..]));
  }

  lemma OneVisit(visit: Visit, rest: seq<Visit>, start: int)
    requires visit.Bytes?
    ensures FirstFault([visit] + rest) == FirstFault(rest)
    ensures Added(start, [visit] + rest) == Added(Wrap(start + visit.count), rest)
  {
    assert ([visit] + rest)[1..] == rest;
  }

  /** The walk below one entry, adding to the running total the callback keeps. It stops at
      the first fault in walk order and hands that error back. */
  method Walk(e: Entry, start: int) returns (total: int, err: Option<Error>)
    requires IsInt64(start)
    ensures err == FirstFault(Order(e))
    ensures IsInt64(total) && total == Added(start, Order(e))
    decreases e, 1
  {
    total, err := start, None;
    match e
    case Missing(error) => err := Some(error);
    case Irregular => OneVisit(Bytes(0), [], start);
    case Regular(size) =>
      total := Wrap(total + size);
      OneVisit(Bytes(size), [], start);
    case Directory(children, listing) =>
      if listing.Some? { return start, listing; }
      OneVisit(Bytes(0), OrderAll(children), start);
      total, err := WalkAll(children, start);
  }

  method WalkAll(es: seq<Entry>, start: int) returns (total: int, err: Option<Error>)
    requires IsInt64(start)
    ensures err == FirstFault(OrderAll(es))
    ensures IsInt64(total) && total == Added(start, OrderAll(es))
    decreases es, 0
  {
    total, err := start, None;
    var i := 0;
    while i < |es|
      invariant 0 <= i <= |es|
      invariant err == None == FirstFault(OrderAll(es[..i]))
      invariant IsInt64(total) && total == Added(start, OrderAll(es[..i]))
    {
      total, err := Walk(es[i], total);
      OneMore(es, i, start);
      i := i + 1;
      if err.Some? {
        StopsAtFault(es, i, start);
        return;
      }
    }
    assert es[..i] == es;
  }

  /** Nothing in the tree refuses to be read. */
  predicate Sound(e: Entry)
    decreases e
  {
    match e
    case Missing(_) => false
    case Directory(children, listing) => listing.None? && forall i | 0 <= i < |children| :: Sound(children[i])
    case _ => true
  }

  /** The bytes of every regular file at any depth. */
  function Size(e: Entry): nat
    decreases e, 1
  {
    match e
    case Regular(size) => size
    case Directory(children, _) => SizeAll(children)
    case _ => 0
  }

  function SizeAll(es: seq<Entry>): nat
    decreases es, 0
  {
    if es == [] then 0 else Size(es[0]) + SizeAll(es[1..])
  }

  lemma {:induction false} OrderMeetsTheTree(e: Entry)
    ensures FirstFault(Order(e)).None? <==> Sound(e)
    ensures Sound(e) ==> Counted(Order(e)) == Size(e)
    decreases e, 1
  {
    match e
    case Directory(children, None) =>
      OrderMeetsTheTrees(children);
      VisitsAppend([Bytes(0)], OrderAll(children));
      assert [Bytes(0)][1..] == [];
    case Regular(_) => assert Order(e)[1..] == [];
    case Irregular => assert Order(e)[1..] == [];
    case _ =>
  }

  lemma {:induction false} OrderMeetsTheTrees(es: seq<Entry>)
    ensures FirstFault(OrderAll(es)).None? <==> forall i | 0 <= i < |es| :: Sound(es[i])
    ensures FirstFault(OrderAll(es)).None? ==> Counted(OrderAll(es)) == SizeAll(es)
    decreases es, 0
  {
    if es != [] {
      OrderMeetsTheTree(es[0]);
      OrderMeetsTheTrees(es[1..]);
      VisitsAppend(Order(es[0]), OrderAll(es[1..]));
      assert forall i | 1 <= i < |es| :: es[i] == es[1..][i - 1];
    }
  }

  /** Of several entries that cannot be read it is the first, in name order, that the walk stops
      on. */
  lemma {:induction false} FirstUnsoundStops(es: seq<Entry>, i: nat)
    requires i < |es| && !Sound(es[i]) && forall k | 0 <= k < i :: Sound(es[k])
    ensures FirstFault(OrderAll(es)).Some? && FirstFault(OrderAll(es)) == FirstFault(Order(es[i]))
  {
    VisitsAppend(Order(es[0]), OrderAll(es[1..]));
    OrderMeetsTheTree(es[0]);
    if i > 0 { FirstUnsoundStops(es[1..], i - 1); }
  }

  /** Splitting a directory's entries in two splits its size in two. */
  lemma {:induction false} SizeIsAdditive(a: seq<Entry>, b: seq<Entry>)
    ensures SizeAll(a + b) == SizeAll(a) + SizeAll(b)
  {
    if a == [] {
      assert a + b == b;
    } else {
      SizeIsAdditive(a[1..], b);
      assert (a + b)[1..] == a[1..] + b;
    }
  }

  /** copySize: an error exactly when something in the tree cannot be read, and otherwise the
      sum of all regular files, exact as long as it fits in an int64. */
  method CopySize(dir: Entry) returns (total: int, err: Option<Error>)
    ensures err.None? <==> Sound(dir)
    ensures Sound(dir) ==> total == Wrap(Size(dir))
    ensures Sound(dir) && Size(dir) < TWO63 ==> total == Size(dir)
    ensures err.Some? ==> err == FirstFault(Order(dir))
  {
    total, err := Walk(dir, 0);
    AddedIsWrapped(0, Order(dir));
    OrderMeetsTheTree(dir);
  }

  datatype Stats = InvalidArgument | NotFound | Internal | Usage(used: int, available: int, total: int)

  /** What is at a path of the node's filesystem. */
  function EntryAt(files: map<string, Entry>, path: string): Entry {
    if path in files then files[path] else Missing("no such file or directory")
  }

  /** NodeGetVolumeStats for a store at `root`. `space` is what the filesystem answers, None when
      the kernel refuses the reading. The handle's copy is measured before the filesystem is
      asked. */
  method NodeGetVolumeStats(
      handle: string, volumePath: string, root: string, files: map<string, Entry>, space: Option<(int, int)>)
    returns (reply: Stats)
    ensures var copy := EntryAt(files, Paths.CopyPath(root, handle));
            && (reply.InvalidArgument? <==> handle == "" || volumePath == "")
            && (reply.NotFound? <==> handle != "" && volumePath != "" && !Sound(copy))
            && (handle != "" && volumePath != "" && Paths.CopyPath(root, handle) !in files ==> reply.NotFound?)
            && (reply.Usage? ==> Paths.CopyPath(root, handle) in files && copy == files[Paths.CopyPath(root, handle)])
            && (reply.Usage? <==> handle != "" && volumePath != "" && Sound(copy) && space.Some?)
            && (reply.Usage? ==> reply.used == Wrap(Size(copy)) && (reply.available, reply.total) == space.value)
  {
    if handle == "" || volumePath == "" { return InvalidArgument; }
    var used, err := CopySize(EntryAt(files, Paths.CopyPath(root, handle)));
    if err.Some? { return NotFound; }
    if space.None? { return Internal; }
    return Usage(used, space.value.0, space.value.1);
  }
}
