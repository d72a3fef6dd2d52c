/** sweep.go's pass over the copies, run with nothing else in between. */
module Sweeps {
  import opened Wrappers
  import opened States
  import opened Restart
  import opened Nodes

  const DRIVER_NAME := "per-node.liken.sh"

  /** What the informer's cache holds: volumes of any driver, and whatever else. */
  datatype Source = Source(driver: string, handle: Handle)
  datatype Object = Volume(source: Option<Source>) | Other

  predicate Names(o: Object, h: Handle) {
    o.Volume? && o.source == Some(Source("per-node.liken.sh", h))
  }

  /** handlesOf: exactly the handles this driver's volumes name. */
  method HandlesOf(objects: seq<Object>) returns (named: set<Handle>)
    ensures forall h :: h in named <==> exists i | 0 <= i < |objects| :: Names(objects[i], h)
  {
    named := {};
    var i := 0;
    while i < |objects|
      invariant 0 <= i <= |objects|
      invariant forall h :: h in named <==> exists k | 0 <= k < i :: Names(objects[k], h)
    {
      var o := objects[i];
      if o.Volume? && o.source.Some? && o.source.value.driver == DRIVER_NAME {
        named := named + {o.source.value.handle};
        assert Names(o, o.source.value.handle);
      }
      i := i + 1;
    }
  }

  function SweepEach(d: Disk, keep: set<Handle>, order: seq<Handle>, r: Handle -> Removal): Disk
    decreases |order|
  {
    if order == [] then d
    else SweepEach(if order[0] in keep then d else RemoveCopy(d, order[0], r(order[0])).disk, keep, order[1..], r)
  }

  lemma RemovalFrame(d: Disk, e: Handle, r: Removal, h: Handle)
    ensures RemoveCopy(d, e, r).disk.records == d.records
    ensures h != e ==> SameDisk(RemoveCopy(d, e, r).disk, d, h)
  {
  }

  lemma RemovalLocal(a: Disk, b: Disk, h: Handle, r: Removal)
    requires SameDisk(a, b, h)
    ensures SameDisk(RemoveCopy(a, h, r).disk, RemoveCopy(b, h, r).disk, h)
  {
    assert Erased(a, h) == Erased(b, h);
  }

  /** Handle by handle, a pass does to each listed copy it may take what one removal does, and
      nothing to any other. */
  lemma {:induction false} SweepAt(d: Disk, keep: set<Handle>, order: seq<Handle>, r: Handle -> Removal, h: Handle)
    requires NoRepeats(order)
    ensures SweepEach(d, keep, order, r).records == d.records
    ensures h in order && h !in keep ==> SameDisk(SweepEach(d, keep, order, r), RemoveCopy(d, h, r(h)).disk, h)
    ensures h !in order || h in keep ==> SameDisk(SweepEach(d, keep, order, r), d, h)
    decreases |order|
  {
    if order != [] {
      var e, rest := order[0], order[1..];
      var d1 := if e in keep then d else RemoveCopy(d, e, r(e)).disk;
      RemovalFrame(d, e, r(e), h);
      SweepAt(d1, keep, rest, r, h);
      if h == e {
        assert forall i | 0 <= i < |rest| :: rest[i] == order[i + 1] != h;
      } else if h in rest && h !in keep {
        RemovalLocal(d1, d, h, r(h));
      }
    }
  }

  /** A pass keeps every copy that is named or held, exactly as it was, and of the others
      removes exactly those whose removal succeeds. */
  lemma SweepIsExact(d: Disk, keep: set<Handle>, order: seq<Handle>, r: Handle -> Removal)
    requires IsListing(order, d.copies)
    ensures var swept := SweepEach(d, keep, order, r);
            && swept.records == d.records
            && (forall h :: h in swept.copies <==> h in d.copies && (h in keep || r(h).Leaves?))
            && (forall h | h in d.copies && h in keep :: swept.copies[h] == d.copies[h])
  {
    var swept := SweepEach(d, keep, order, r);
    SweepAt(d, keep, order, r, Handle(""));
    forall h: Handle
      ensures h in swept.copies <==> h in d.copies && (h in keep || r(h).Leaves?)
      ensures h in d.copies && h in keep ==> swept.copies[h] == d.copies[h]
    {
      SweepAt(d, keep, order, r, h);
    }
  }

  /** One pass, and the disk it met. The copies directory may not be listed. */
  datatype Round = Round(
    before: Disk, keep: set<Handle>, listing: Option<seq<Handle>>, removals: Handle -> Removal)

  function Result(r: Round): Disk {
    if r.listing.None? then r.before else SweepEach(r.before, r.keep, r.listing.value, r.removals)
  }

  predicate Failed(r: Round, h: Handle) { r.listing.None? || r.removals(h).Leaves? }

  lemma RoundIsExact(r: Round, h: Handle)
    requires h !in r.keep && (r.listing.Some? ==> IsListing(r.listing.value, r.before.copies))
    ensures h in Result(r).copies <==> h in r.before.copies && Failed(r, h)
  {
    if r.listing.Some? { SweepIsExact(r.before, r.keep, r.listing.value, r.removals); }
  }

  /** Passes in sequence, with anything in between but a copy of the handle made or taken. */
  ghost predicate Follow(rounds: seq<Round>, h: Handle) {
    && (forall r | r in rounds :: h !in r.keep && (r.listing.Some? ==> IsListing(r.listing.value, r.before.copies)))
    && (forall i | 0 < i < |rounds| :: h in rounds[i].before.copies <==> h in Result(rounds[i - 1]).copies)
  }

  /** A copy that no volume names and no pod holds, and that is not published again, is there
      after a series of passes if and only if it was there before and every one of them could
      not list the copies or failed to remove it. */
  lemma {:induction false} OrphansGo(rounds: seq<Round>, h: Handle)
    requires Follow(rounds, h) && rounds != []
    ensures h in Result(rounds[|rounds| - 1]).copies <==>
              h in rounds[0].before.copies && forall r | r in rounds :: Failed(r, h)
    decreases |rounds|
  {
    var n := |rounds| - 1;
    var last := rounds[n];
    RoundIsExact(last, h);
    if n == 0 {
      assert rounds == [last];
    } else {
      var earlier := rounds[..n];
      OrphansGo(earlier, h);
      assert rounds == earlier + [last] && earlier[n - 1] == rounds[n - 1];
      assert h in rounds[n].before.copies <==> h in Result(rounds[n - 1]).copies;
      assert forall r :: r in rounds <==> r in earlier || r == last;
    }
  }

  class Sweeping {
    const node: Node

    constructor (node: Node)
      ensures this.node == node
    {
      this.node := node;
    }

    /** sweep over the listing of the copies directory, None when it cannot be listed. The holds
        are looked at once, before the copies. */
    method Sweep(named: set<Handle>, listing: Option<seq<Handle>>, r: Handle -> Removal)
      modifies node.machine
      ensures node.machine.kernel == old(node.machine.kernel)
      ensures node.machine.disk ==
                if listing.None? then old(node.machine.disk)
                else SweepEach(old(node.machine.disk), named + node.holds.Keys, listing.value, r)
    {
      var held := node.HeldHandles();
      var order := if listing.Some? then listing.value else [];
      var i := 0;
      while i < |order|
        invariant 0 <= i <= |order|
        invariant node.machine.kernel == old(node.machine.kernel)
        invariant SweepEach(node.machine.disk, named + held, order[i..], r)
               == SweepEach(old(node.machine.disk), named + held, order, r)
      {
        var h := order[i];
        assert order[i..][1..] == order[i + 1..];
        if !(h in named || h in held) {
          var e := node.machine.RemoveCopyDirectory(h, r(h));
        }
        i := i + 1;
      }
      assert order[i..] == [];
    }
  }
}
