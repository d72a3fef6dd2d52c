/** Where other promises stop: half an unpublish, a recursive delete in its place, and a sweep
    beside a publish of a volume it does not name. */
module Exceptions {
  import opened Wrappers
  import opened States
  import opened Calls
  import opened Restart
  import opened Convergence
  import opened Interleavings
  import opened Systems
  import opened Safety

  const NO_REMOVE: Oracle := pc => if pc == RemovingTarget then Fails else Works

  /** An unpublish that detaches the mount and cannot remove the target leaves the hold, and
      from then on the same publish is acknowledged with nothing mounted. */
  lemma HalfUnpublishedIsAcknowledgedUnmounted(s: State, a: Call, o: Oracle)
    requires a.Publish? && Usable(a.handle, a.target)
    requires Held(s, a)
    ensures var half := Perform(s, Unpublish(a.handle, a.target), NO_REMOVE);
            var again := Perform(half.state, a, o);
            && half.reply == Internal && again == Ended(half.state, Success)
            && Stack(again.state.kernel, a.target) == []
  {
    DetachesAndStops(s, Unpublish(a.handle, a.target));
    StandingAnswers(s.(kernel := s.kernel.(mounts := s.kernel.mounts - {a.target})), a, o);
  }

  lemma StandingAnswers(s: State, c: Call, o: Oracle)
    requires c.Publish? && Usable(c.handle, c.target) && Standing(s, c)
    ensures Perform(s, c, o) == Ended(s, Success)
  {
  }

  lemma DetachesAndStops(s: State, c: Call)
    requires c.Unpublish? && NamesBoth(c) && |Stack(s.kernel, c.target)| <= 1
    ensures Perform(s, c, NO_REMOVE) == Ended(s.(kernel := s.kernel.(mounts := s.kernel.mounts - {c.target})), Internal)
  {
    Detaches(s.kernel, c.target);
    var s1 := s.(kernel := Unmount(s.kernel, c.target, Works).kernel);
    assert Perform(s, c, NO_REMOVE) == Complete(s, c, Unmounting, NO_REMOVE);
    assert Complete(s, c, Unmounting, NO_REMOVE) == Complete(s1, c, RemovingTarget, NO_REMOVE);
    assert Complete(s1, c, RemovingTarget, NO_REMOVE) == Complete(s1, c, Finished(Internal), NO_REMOVE);
  }

  // ---- a recursive delete in place of os.Remove ----

  /** What `os.RemoveAll` would do at a target: through a visible bind it empties the copy and
      then fails on the mount point; with nothing mounted it takes the directory. */
  function RemoveAllTarget(s: State, t: Path): State {
    if Stack(s.kernel, t) != [] then AfterWrite(s, t, Empty) else s.(kernel := WithoutTarget(s.kernel, t))
  }

  /** A writable bind of a live copy with files in it lies under the visible one. */
  predicate DataUnderneath(s: State, t: Path) {
    var binds := Stack(s.kernel, t);
    |binds| > 1 &&
      var b := binds[|binds| - 2];
      && !b.readOnly && b.handle in s.disk.copies
      && s.disk.copies[b.handle].generation == b.generation && !s.disk.copies[b.handle].content.Empty?
  }

  /** After the unpublish's one unmount, a recursive delete would destroy data exactly where a
      writable bind was stacked under the one that came away; what the unpublish does instead
      keeps every copy there, and answers an error. */
  lemma RecursiveDeleteDestroysExactly(s: State, c: Call)
    requires c.Unpublish? && NamesBoth(c)
    ensures var detached := s.(kernel := Unmount(s.kernel, c.target, Works).kernel);
            RemoveAllTarget(detached, c.target).disk.copies != s.disk.copies <==> DataUnderneath(s, c.target)
    ensures DataUnderneath(s, c.target) ==>
              var e := Perform(s, c, ALL_WORK);
              e.reply == Internal && e.state.disk.copies == s.disk.copies && Stack(e.state.kernel, c.target) != []
  {
    var binds := Stack(s.kernel, c.target);
    var detached := s.(kernel := Unmount(s.kernel, c.target, Works).kernel);
    if |binds| > 1 {
      assert Stack(detached.kernel, c.target) == Below(binds);
      var b := binds[|binds| - 2];
      if b.handle in s.disk.copies && s.disk.copies[b.handle] == Copy(b.generation, Empty) {
        assert s.disk.copies[b.handle := Copy(b.generation, Empty)] == s.disk.copies;
      }
      StopsAtTheMountPoint(s, c);
    }
  }

  lemma StopsAtTheMountPoint(s: State, c: Call)
    requires c.Unpublish? && NamesBoth(c) && |Stack(s.kernel, c.target)| > 1
    ensures Perform(s, c, ALL_WORK) == Ended(s.(kernel := Unmount(s.kernel, c.target, Works).kernel), Internal)
  {
    var s1 := s.(kernel := Unmount(s.kernel, c.target, Works).kernel);
    assert Perform(s, c, ALL_WORK) == Complete(s, c, Unmounting, ALL_WORK) == Complete(s1, c, RemovingTarget, ALL_WORK);
    assert Complete(s1, c, RemovingTarget, ALL_WORK) == Complete(s1, c, Finished(Internal), ALL_WORK);
  }

  /** The driver itself never makes such a target, over any run. */
  lemma NothingEverUnderneath(y: System, events: seq<Event>, own: Kubelet, t: Path)
    requires Fresh(y) && IsRun(y, events, own)
    ensures !DataUnderneath(After(y, events).s, t)
  {
    HoldsAreMountedAndBindsNeverStack(y, events, own);
  }

  // ---- the sweep ----

  /** A pass at any quiet moment takes the copy of a handle that no volume names and no pod
      holds, though none may ever have named it: no deletion is needed. */
  lemma UnnamedCopyIsTaken(y: System, own: Kubelet, h: Handle) returns (events: seq<Event>)
    requires y.phase.Serving? && y.pass.Idle?
    requires h in y.s.disk.copies && h !in y.volumes && h !in y.s.holds
    ensures IsRun(y, events, own) && h !in After(y, events).s.disk.copies
    ensures forall e | e in events :: !e.DeleteVolume?
  {
    var names := ListingFrom(y.s.disk.copies, h);
    ThreeEvents(y, ListVolumes, SnapHolds, ListCopies(Some(names)), own);
    events := [ListVolumes, SnapHolds, ListCopies(Some(names))];
    OneMore(y, events, SweepNext(Removes), own);
    events := events + [SweepNext(Removes)];
  }


  /** Some listing of a directory, with a given name first. */
  lemma {:induction false} ListingOf(names: set<Handle>) returns (listing: seq<Handle>)
    ensures NoRepeats(listing)
    ensures forall h :: h in listing <==> h in names
  {
    listing := [];
    if h :| h in names {
      listing := ListingOf(names - {h});
      listing := [h] + listing;
    }
  }

  lemma ListingFrom(copies: map<Handle, Copy>, h: Handle) returns (listing: seq<Handle>)
    requires h in copies
    ensures IsListing(listing, copies) && listing != [] && listing[0] == h
  {
    var rest := ListingOf(copies.Keys - {h});
    listing := [h] + rest;
  }

  /** A fresh machine after the first three events of a publish: the copy is there. */
  lemma ToChmoding(y: System, own: Kubelet, c: Call) returns (events: seq<Event>)
    requires Fresh(y) && c.Publish? && Conforms(c, own) && Usable(c.handle, c.target)
    ensures IsRun(y, events, own)
    ensures var z := After(y, events);
            && z == y.(pool := map[c.handle := Thread(c, ChmodingCopy)], s := z.s)
            && z.s.holds == map[] && z.s.kernel == y.s.kernel && c.handle in z.s.disk.copies
  {
    var go := Advance(c.handle, Works);
    var y1 := Next(y, Begin(c));
    var y2 := Next(y1, go);
    assert y2 == y.(pool := map[c.handle := Thread(c, MakingCopy)]);
    ThreeEvents(y, Begin(c), go, go, own);
    events := [Begin(c), go, go];
  }

  /** The next three: the target is there, and nothing is mounted on it. */
  lemma ToBinding(y: System, own: Kubelet, c: Call) returns (events: seq<Event>)
    requires y.pool == map[c.handle := Thread(c, ChmodingCopy)] && c.Publish?
    requires c.handle in y.s.disk.copies && y.s.kernel == Kernel(map[], map[])
    ensures IsRun(y, events, own)
    ensures var z := After(y, events);
            && z.pool == map[c.handle := Thread(c, Binding)]
            && z.phase == y.phase && z.pass == y.pass && z.volumes == y.volumes
            && z.s == y.s.(kernel := z.s.kernel) && c.target in z.s.kernel.targets
  {
    var go := Advance(c.handle, Works);
    var y1 := Next(y, go);
    var y2 := Next(y1, go);
    assert y1.pool[c.handle].pc == MakingTarget && y1.s == y.s;
    var y3 := Next(y2, go);
    assert y2.pool[c.handle].pc == Detaching && c.target in y2.s.kernel.targets && y2.s == y.s.(kernel := y2.s.kernel);
    assert Stack(y2.s.kernel, c.target) == [];
    assert y3.pool == map[c.handle := Thread(c, Binding)] && y3.s == y2.s;
    ThreeEvents(y, go, go, go, own);
    events := [go, go, go];
  }

  /** One more: the copy is bound. */
  lemma StepBinding(y: System, c: Call)
    requires y.pool == map[c.handle := Thread(c, Binding)] && c.Publish?
    requires c.handle in y.s.disk.copies && c.target in y.s.kernel.targets
    ensures var z := AfterStep(y, c.handle, Works);
            && z.pool == map[c.handle := Thread(c, if c.readOnly then Remounting else KeepingMemory)]
            && z.s == y.s.(kernel := z.s.kernel) && Stack(z.s.kernel, c.target) != []
  {
  }

  /** And for a read-only publish another. */
  lemma StepRemounting(y: System, c: Call)
    requires y.pool == map[c.handle := Thread(c, Remounting)] && c.Publish? && Stack(y.s.kernel, c.target) != []
    ensures var z := AfterStep(y, c.handle, Works);
            z.pool == map[c.handle := Thread(c, KeepingMemory)] && z.s == y.s.(kernel := z.s.kernel)
  {
  }

  lemma FromBinding(y: System, own: Kubelet, c: Call) returns (events: seq<Event>)
    requires y.pool == map[c.handle := Thread(c, Binding)] && c.Publish?
    requires c.handle in y.s.disk.copies && c.target in y.s.kernel.targets
    ensures IsRun(y, events, own)
    ensures var z := After(y, events);
            && z.pool == map[c.handle := Thread(c, KeepingMemory)]
            && z.phase == y.phase && z.pass == y.pass && z.volumes == y.volumes
            && z.s == y.s.(kernel := z.s.kernel)
  {
    var go := Advance(c.handle, Works);
    events := [go];
    OneEvent(y, go, own);
    StepBinding(y, c);
    if c.readOnly {
      StepRemounting(After(y, events), c);
      OneMore(y, events, go, own);
      events := [go] + [go];
    }
  }

  lemma ToUnheld(y: System, own: Kubelet, c: Call) returns (events: seq<Event>)
    requires Fresh(y) && c.Publish? && Conforms(c, own) && Usable(c.handle, c.target)
    ensures IsRun(y, events, own)
    ensures var z := After(y, events);
            && z.phase.Serving? && z.pass.Idle? && z.volumes == y.volumes && z.s.holds == map[]
            && z.pool == map[c.handle := Thread(c, KeepingMemory)] && c.handle in z.s.disk.copies
  {
    var first := ToChmoding(y, own, c);
    var second := ToBinding(After(y, first), own, c);
    Joined(y, first, second, own);
    var third := FromBinding(After(y, first + second), own, c);
    Joined(y, first + second, third, own);
    events := first + second + third;
  }

  /** The rest of the run below, from where the publish has bound and not yet taken its hold. */
  lemma PassOverUnheld(z: System, own: Kubelet, c: Call) returns (events: seq<Event>)
    requires z.phase.Serving? && z.pass.Idle? && c.Publish? && c.handle !in z.volumes && z.s.holds == map[]
    requires z.pool == map[c.handle := Thread(c, KeepingMemory)] && c.handle in z.s.disk.copies
    ensures IsRun(z, events, own)
    ensures c.handle in After(z, events).s.holds && c.handle !in After(z, events).s.disk.copies
  {
    var names := ListingFrom(z.s.disk.copies, c.handle);
    var listing := ListCopies(Some(names));
    ThreeEvents(z, ListVolumes, SnapHolds, listing, own);
    var looked := [ListVolumes, SnapHolds, listing];
    var rest := TakeIt(After(z, looked), own, c);
    Joined(z, looked, rest, own);
    events := looked + rest;
  }

  lemma TakeIt(z: System, own: Kubelet, c: Call) returns (events: seq<Event>)
    requires c.Publish? && z.pool == map[c.handle := Thread(c, KeepingMemory)]
    requires z.pass.Removing? && z.pass.held == {} && c.handle !in z.pass.named
    requires z.pass.todo != [] && z.pass.todo[0] == c.handle
    ensures IsRun(z, events, own)
    ensures c.handle in After(z, events).s.holds && c.handle !in After(z, events).s.disk.copies
  {
    var h := c.handle;
    var z1 := Next(z, Advance(h, Works));
    assert h in z1.s.holds && z1.pass == z.pass;
    OneEvent(z, Advance(h, Works), own);
    OneMore(z, [Advance(h, Works)], SweepNext(Removes), own);
    events := [Advance(h, Works)] + [SweepNext(Removes)];
  }

  /** A pass that looks while an unnamed volume is being published takes the copy from under the
      hold: without the rely condition the sweep is not safe, on any fresh machine. */
  lemma ImpoliteSweepTakesHeldCopy(y: System, own: Kubelet, c: Call) returns (events: seq<Event>)
    requires Fresh(y) && c.Publish? && Conforms(c, own) && Usable(c.handle, c.target) && c.handle !in y.volumes
    ensures IsRun(y, events, own)
    ensures var z := After(y, events); c.handle in z.s.holds && c.handle !in z.s.disk.copies
  {
    var first := ToUnheld(y, own, c);
    var rest := PassOverUnheld(After(y, first), own, c);
    Joined(y, first, rest, own);
    events := first + rest;
  }
}
