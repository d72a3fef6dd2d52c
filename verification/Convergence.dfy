/** What one call does when nothing fails, what it leaves when the process dies in it, and
    that a restart and a retry make up the difference. */
module Convergence {
  import opened Wrappers
  import opened States
  import opened Calls
  import opened Restart

  const ALL_WORK: Oracle := _ => Works

  // ---- publish ----

  /** The state a publish leaves when it has to mount and everything works. */
  function Published(s: State, c: Call): State
    requires c.Publish?
  {
    var disk := WithCopy(s.disk, c.handle);
    var bind := Bind(c.handle, disk.copies[c.handle].generation, c.readOnly);
    State(
      s.holds[c.handle := HoldOf(c)],
      WithRecord(disk, c.handle, Readable(HoldOf(c))),
      WithStack(WithTarget(s.kernel, c.target), c.target, [bind]))
  }

  /** The target shows the live copy in the mode the call asks for. */
  predicate Bound(s: State, c: Call)
    requires c.Publish?
  {
    Shows(s, c.target, c.handle, c.readOnly) && c.target in s.kernel.targets
  }

  /** How far a publish that has to mount has changed what is kept under its handle and target. */
  ghost predicate PublishAt(s0: State, s: State, c: Call, pc: Pc)
    requires c.Publish?
  {
    var h, t := c.handle, c.target;
    && SameKey(s.disk.erased, s0.disk.erased, h)
    && (h in s0.disk.copies ==> h in s.disk.copies)
    && (h in s.disk.copies ==> s.disk.copies[h] == WithCopy(s0.disk, h).copies[h])
    && (t in s0.kernel.targets ==> t in s.kernel.targets)
    && (t in s.kernel.targets ==> s.kernel.targets[t] == WithTarget(s0.kernel, t).targets[t])
    && |Stack(s.kernel, t)| <= 1
    && match pc
       case MakingCopy => Untouched(s0, s, h)
       case ChmodingCopy => Untouched(s0, s, h) && h in s.disk.copies
       case MakingTarget => Untouched(s0, s, h) && h in s.disk.copies
       case Detaching => Untouched(s0, s, h) && h in s.disk.copies && t in s.kernel.targets
       case Binding => Untouched(s0, s, h) && h in s.disk.copies && t in s.kernel.targets && Stack(s.kernel, t) == []
       case Remounting => Untouched(s0, s, h) && t in s.kernel.targets && c.readOnly && Shows(s, t, h, false)
       case Undoing => Untouched(s0, s, h)
       case KeepingMemory => Untouched(s0, s, h) && Bound(s, c)
       case MakingHolds => Held(s, c) && SameKey(s.disk.records, s0.disk.records, h)
       case OpeningRecord => Held(s, c) && SameKey(s.disk.records, s0.disk.records, h)
       case WritingRecord => Held(s, c) && Wrote(s, h, Unreadable)
       case Finished(Success) =>
         && Held(s, c)
         && (|| SameKey(s.disk.records, s0.disk.records, h)
             || Wrote(s, h, Unreadable)
             || Wrote(s, h, Readable(HoldOf(c))))
       case Finished(Internal) => Untouched(s0, s, h)
       case _ => false
  }

  predicate Untouched(s0: State, s: State, h: Handle) {
    SameKey(s.holds, s0.holds, h) && SameKey(s.disk.records, s0.disk.records, h)
  }

  predicate Held(s: State, c: Call)
    requires c.Publish?
  {
    c.handle in s.holds && s.holds[c.handle] == HoldOf(c) && Bound(s, c)
  }

  predicate Wrote(s: State, h: Handle, r: Record) { h in s.disk.records && s.disk.records[h] == r }

  lemma MountAdvances(s0: State, s: State, c: Call, pc: Pc, o: Outcome)
    requires c.Publish? && PublishAt(s0, s, c, pc)
    requires pc.Detaching? || pc.Binding? || pc.Remounting? || pc.Undoing?
    ensures var p := Step(s, c, pc, o); PublishAt(s0, p.state, c, p.pc)
  {
    var binds := Stack(s.kernel, c.target);
    match pc
    case Detaching =>
      if binds != [] { assert Below(binds) == []; }
    case Binding =>
      if o.Works? {
        var made := Bind(c.handle, s.disk.copies[c.handle].generation, false);
        assert binds + [made] == [made];
      }
    case Remounting =>
      if o.Works? { assert ReadOnlyTop(binds) == [Bind(c.handle, s.disk.copies[c.handle].generation, true)]; }
    case Undoing =>
  }

  lemma PublishAdvances(s0: State, s: State, c: Call, pc: Pc, o: Outcome)
    requires c.Publish? && PublishAt(s0, s, c, pc)
    ensures var p := Step(s, c, pc, o); PublishAt(s0, p.state, c, p.pc)
  {
    match pc
    case MakingCopy =>
      if o.Works? { if c.handle in s.disk.copies {} else {} }
    case MakingTarget =>
      if o.Works? { if c.target in s.kernel.targets {} else {} }
    case Detaching => MountAdvances(s0, s, c, pc, o);
    case Binding => MountAdvances(s0, s, c, pc, o);
    case Remounting => MountAdvances(s0, s, c, pc, o);
    case Undoing => MountAdvances(s0, s, c, pc, o);
    case _ =>
  }

  /** Whatever the outcomes and wherever it stops, a publish is at one of those points and has
      changed nothing kept under another handle or target. */
  lemma {:induction false} PublishPartway(s0: State, s: State, c: Call, pc: Pc, outcomes: seq<Outcome>)
    requires c.Publish? && PublishAt(s0, s, c, pc)
    ensures var p := Partway(s, c, pc, outcomes); PublishAt(s0, p.state, c, p.pc)
    decreases |outcomes|
  {
    if outcomes != [] {
      PublishAdvances(s0, s, c, pc, outcomes[0]);
      var p := Step(s, c, pc, outcomes[0]);
      PublishPartway(s0, p.state, c, p.pc, outcomes[1..]);
    }
  }

  /** A call partway through has changed nothing kept under another handle or target. */
  lemma {:induction false} PartwayFrame(s: State, c: Call, pc: Pc, outcomes: seq<Outcome>, h: Handle, t: Path)
    ensures h != c.handle ==> SameHandle(Partway(s, c, pc, outcomes).state, s, h)
    ensures t != c.target ==> SameTarget(Partway(s, c, pc, outcomes).state, s, t)
    decreases |outcomes|
  {
    if outcomes != [] {
      StepFrame(s, c, pc, outcomes[0], h, t);
      var p := Step(s, c, pc, outcomes[0]);
      PartwayFrame(p.state, c, p.pc, outcomes[1..], h, t);
    }
  }

  lemma {:induction false} CompleteFrame(s: State, c: Call, pc: Pc, o: Oracle, h: Handle, t: Path)
    ensures h != c.handle ==> SameHandle(Complete(s, c, pc, o).state, s, h)
    ensures t != c.target ==> SameTarget(Complete(s, c, pc, o).state, s, t)
    decreases Rank(pc)
  {
    if !pc.Finished? {
      StepFrame(s, c, pc, o(pc), h, t);
      var p := Step(s, c, pc, o(pc));
      CompleteFrame(p.state, c, p.pc, o, h, t);
    }
  }

  lemma {:induction false} PublishCompletes(s0: State, s: State, c: Call, pc: Pc, o: Oracle)
    requires c.Publish? && PublishAt(s0, s, c, pc)
    ensures var e := Complete(s, c, pc, o); PublishAt(s0, e.state, c, Finished(e.reply))
    decreases Rank(pc)
  {
    if !pc.Finished? {
      PublishAdvances(s0, s, c, pc, o(pc));
      var p := Step(s, c, pc, o(pc));
      PublishCompletes(s0, p.state, c, p.pc, o);
    }
  }

  /** With no failure a publish that has to mount ends in success, its record written. */
  lemma {:induction false} PublishWorks(s0: State, s: State, c: Call, pc: Pc)
    requires c.Publish? && PublishAt(s0, s, c, pc)
    requires !pc.Finished? && !pc.Undoing?
    ensures var e := Complete(s, c, pc, ALL_WORK);
            e.reply == Success && Wrote(e.state, c.handle, Readable(HoldOf(c)))
    decreases Rank(pc)
  {
    PublishAdvances(s0, s, c, pc, Works);
    var p := Step(s, c, pc, Works);
    if !pc.WritingRecord? { PublishWorks(s0, p.state, c, p.pc); }
  }

  lemma GoodPublish(s: State, c: Call)
    requires c.Publish? && CheckPublish(s, c) == MakingCopy && |Stack(s.kernel, c.target)| <= 1
    ensures Perform(s, c, ALL_WORK) == Ended(Published(s, c), Success)
  {
    var e := Complete(s, c, MakingCopy, ALL_WORK);
    assert Perform(s, c, ALL_WORK) == e;
    PublishWorks(s, s, c, MakingCopy);
    PublishCompletes(s, s, c, MakingCopy, ALL_WORK);
    var want := Published(s, c);
    forall h: Handle ensures SameHandle(e.state, want, h) { CompleteFrame(s, c, MakingCopy, ALL_WORK, h, c.target); }
    forall t: Path ensures SameTarget(e.state, want, t) { CompleteFrame(s, c, MakingCopy, ALL_WORK, c.handle, t); }
    SameEverywhere(e.state, want);
  }

  /** No other handle's claim names this call's target. The kubelet makes one target path per
      pod and volume. */
  ghost predicate Alone(s: State, c: Call) {
    forall h | h in s.holds && h != c.handle :: s.holds[h].target != c.target
  }

  /** The new record stands only once the target shows the copy. */
  lemma WrittenIsHeld(s0: State, s: State, c: Call, pc: Pc)
    requires c.Publish? && Agreed(s0) && CheckPublish(s0, c) == MakingCopy && PublishAt(s0, s, c, pc)
    ensures Wrote(s, c.handle, Readable(HoldOf(c))) ==> Held(s, c)
    ensures !Wrote(s, c.handle, Readable(HoldOf(c))) ==>
              SameKey(s.disk.records, s0.disk.records, c.handle) || Wrote(s, c.handle, Unreadable)
  {
    if c.handle in s0.holds { assert s0.disk.records[c.handle] == Readable(s0.holds[c.handle]); }
    match pc
    case WritingRecord =>
    case Finished(reply) =>
      if reply == Success {} else { assert Untouched(s0, s, c.handle); }
    case _ =>
  }

  /** After a crash partway and a good restart, a publish that had to mount either still has
      to, or holds what it asked for. */
  lemma RestartAfterPublish(s0: State, s: State, c: Call, pc: Pc)
    requires c.Publish? && Agreed(s0) && CheckPublish(s0, c) == MakingCopy && PublishAt(s0, s, c, pc)
    requires SameKernelElsewhere(s0, s, c)
    ensures Wrote(s, c.handle, Readable(HoldOf(c))) ==>
              Held(Restarted(s), c) && CheckPublish(Restarted(s), c) == Finished(Success)
    ensures !Wrote(s, c.handle, Readable(HoldOf(c))) ==> CheckPublish(Restarted(s), c) == MakingCopy
  {
    var h := c.handle;
    WrittenIsHeld(s0, s, c, pc);
    RestartedAt(s, h);
    if Wrote(s, h, Readable(HoldOf(c))) {
      assert Restores(s.disk, s.kernel, h, GOOD);
    } else if Wrote(s, h, Unreadable) {
      assert !Restores(s.disk, s.kernel, h, GOOD);
    } else if h in s0.holds {
      assert SameTarget(s, s0, s0.holds[h].target);
      assert Restarted(s).holds[h] == s0.holds[h];
    }
  }

  ghost predicate SameKernelElsewhere(s0: State, s: State, c: Call) {
    forall t: Path :: t != c.target ==> SameTarget(s, s0, t)
  }

  /** Another handle's claim comes through the crash. */
  lemma RestartElsewhere(s0: State, s: State, c: Call, h: Handle)
    requires Agreed(s0) && Alone(s0, c) && h != c.handle
    requires SameKernelElsewhere(s0, s, c) && SameHandle(s, s0, h)
    ensures SameHandle(Restarted(s), s0, h)
  {
    RestartedAt(s, h);
    if h in s0.holds { assert SameTarget(s, s0, s0.holds[h].target); }
  }

  /** Crash and retry of a publish: whatever the outcomes of its steps, and after whichever of
      them the process dies, a good restart and the same request with nothing failing end
      exactly where the request would have ended undisturbed. */
  lemma PublishConverges(s: State, c: Call, outcomes: seq<Outcome>)
    requires c.Publish? && Agreed(s) && Alone(s, c) && |Stack(s.kernel, c.target)| <= 1
    ensures var r := Restarted(Partway(s, c, Check, outcomes).state);
            Perform(r, c, ALL_WORK) == Perform(s, c, ALL_WORK)
  {
    if outcomes == [] {
      RestartFromAgreement(s);
    } else if CheckPublish(s, c) != MakingCopy {
      StaysFinished(s, c, CheckPublish(s, c), outcomes[1..]);
      RestartFromAgreement(s);
    } else {
      var p := Partway(s, c, MakingCopy, outcomes[1..]);
      PublishPartway(s, s, c, MakingCopy, outcomes[1..]);
      forall t: Path | t != c.target ensures SameTarget(p.state, s, t) {
        PartwayFrame(s, c, MakingCopy, outcomes[1..], c.handle, t);
      }
      RestartAfterPublish(s, p.state, c, p.pc);
      var r := Restarted(p.state);
      GoodPublish(s, c);
      if CheckPublish(r, c) == MakingCopy { GoodPublish(r, c); }
      PublishEndsSame(s, p.state, c, p.pc, outcomes[1..]);
    }
  }

  lemma PublishEndsSame(s0: State, s: State, c: Call, pc: Pc, outcomes: seq<Outcome>)
    requires c.Publish? && Agreed(s0) && Alone(s0, c) && CheckPublish(s0, c) == MakingCopy
    requires Partway(s0, c, MakingCopy, outcomes) == Point(s, pc)
    requires PublishAt(s0, s, c, pc) && SameKernelElsewhere(s0, s, c)
    ensures var r := Restarted(s);
            (if CheckPublish(r, c) == MakingCopy then Published(r, c) else r) == Published(s0, c)
  {
    var r := Restarted(s);
    RestartAfterPublish(s0, s, c, pc);
    var got := if CheckPublish(r, c) == MakingCopy then Published(r, c) else r;
    var want := Published(s0, c);
    forall h: Handle ensures SameHandle(got, want, h) {
      if h == c.handle {
        RestartedAt(s, h);
      } else {
        PartwayFrame(s0, c, MakingCopy, outcomes, h, c.target);
        RestartElsewhere(s0, s, c, h);
      }
    }
    forall t: Path ensures SameTarget(got, want, t) {
      if t != c.target { assert SameTarget(s, s0, t); }
    }
    SameEverywhere(got, want);
  }

  lemma {:induction false} StaysFinished(s: State, c: Call, pc: Pc, outcomes: seq<Outcome>)
    requires pc.Finished?
    ensures Partway(s, c, pc, outcomes) == Point(s, pc)
    decreases |outcomes|
  {
    if outcomes != [] { StaysFinished(s, c, pc, outcomes[1..]); }
  }

  // ---- what an acknowledged publish means ----

  /** The caller's own claim already names this target, so the call answers at once. */
  predicate Standing(s: State, c: Call)
    requires c.Publish?
  {
    c.handle in s.holds && s.holds[c.handle].pod.uid == c.pod.uid && s.holds[c.handle].target == c.target
  }

  /** Whatever fails on the way, an acknowledged publish shows the copy in the mode asked for,
      except where it answered from a standing claim: then exactly if the target already did. */
  lemma AcknowledgedIsMounted(s: State, c: Call, o: Oracle)
    requires c.Publish? && |Stack(s.kernel, c.target)| <= 1
    requires Perform(s, c, o).reply == Success
    ensures var s' := Perform(s, c, o).state;
            && c.handle in s'.holds && s'.holds[c.handle].target == c.target
            && s'.holds[c.handle].pod.uid == c.pod.uid
            && (Shows(s', c.target, c.handle, c.readOnly) <==>
                  (Standing(s, c) ==> Shows(s, c.target, c.handle, c.readOnly)))
  {
    if CheckPublish(s, c) == MakingCopy { PublishCompletes(s, s, c, MakingCopy, o); }
  }

  /** And a publish that is not acknowledged leaves every claim and record as it was. */
  lemma RefusedChangesNoClaim(s: State, c: Call, o: Oracle)
    requires c.Publish? && |Stack(s.kernel, c.target)| <= 1
    ensures var e := Perform(s, c, o);
            e.reply != Success ==> e.state.holds == s.holds && e.state.disk.records == s.disk.records
  {
    var e := Perform(s, c, o);
    if e.reply != Success {
      if CheckPublish(s, c) == MakingCopy { PublishCompletes(s, s, c, MakingCopy, o); }
      forall h: Handle
        ensures SameKey(e.state.holds, s.holds, h) && SameKey(e.state.disk.records, s.disk.records, h)
      {
        CompleteFrame(s, c, Check, o, h, c.target);
      }
      SameMapIsEqual(e.state.holds, s.holds);
      SameMapIsEqual(e.state.disk.records, s.disk.records);
    }
  }

  // ---- unpublish ----

  predicate NamesBoth(c: Call) { c.handle.name != "" && c.target.text != "" }

  /** At most one bind on the target, and nothing was ever written underneath. */
  predicate Tidy(s: State, t: Path) {
    |Stack(s.kernel, t)| <= 1 && (t in s.kernel.targets ==> s.kernel.targets[t].Empty?)
  }

  /** The claim goes only when it names this target. */
  predicate GivesUp(s: State, c: Call) {
    c.handle in s.holds ==> s.holds[c.handle].target == c.target
  }

  function Unpublished(s: State, c: Call): State {
    State(
      if GivesUp(s, c) then s.holds - {c.handle} else s.holds,
      if GivesUp(s, c) then s.disk.(records := s.disk.records - {c.handle}) else s.disk,
      Kernel(s.kernel.targets - {c.target}, s.kernel.mounts - {c.target}))
  }

  lemma Detaches(k: Kernel, t: Path)
    requires |Stack(k, t)| <= 1
    ensures Unmount(k, t, Works).kernel == k.(mounts := k.mounts - {t})
    ensures Detached(Unmount(k, t, Works).errno)
  {
    if Stack(k, t) == [] {
      assert k.mounts - {t} == k.mounts;
    } else {
      assert Below(Stack(k, t)) == [];
    }
  }

  lemma Removes(k: Kernel, t: Path)
    requires t !in k.mounts && (t in k.targets ==> k.targets[t].Empty?)
    ensures RemoveTarget(k, t, Works).kernel == k.(targets := k.targets - {t})
    ensures RemoveTarget(k, t, Works).errno == (if t in k.targets then OK else ENOENT)
  {
    if t !in k.targets { assert k.targets - {t} == k.targets; }
  }

  lemma Releases(s: State, c: Call)
    requires c.Unpublish?
    ensures Complete(s, c, CheckHolder, ALL_WORK) == Ended(Unpublished(s, c).(kernel := s.kernel), Success)
  {
    var s1 := s.(holds := s.holds - {c.handle});
    if GivesUp(s, c) {
      assert Complete(s, c, CheckHolder, ALL_WORK) == Complete(s1, c, RemovingRecord, ALL_WORK) by {
        assert Complete(s, c, CheckHolder, ALL_WORK) == Complete(s, c, DroppingMemory, ALL_WORK);
      }
      if c.handle !in s.disk.records { assert s.disk.records - {c.handle} == s.disk.records; }
    }
  }

  /** With nothing failing, an unpublish succeeds exactly when the target carries at most one
      bind and is empty underneath, and then the target is gone and so is a claim that named it. */
  lemma GoodUnpublish(s: State, c: Call)
    requires c.Unpublish? && NamesBoth(c)
    ensures Perform(s, c, ALL_WORK).reply == Success <==> Tidy(s, c.target)
    ensures Tidy(s, c.target) ==> Perform(s, c, ALL_WORK).state == Unpublished(s, c)
  {
    var t := c.target;
    var a := Unmount(s.kernel, t, Works);
    var s1 := s.(kernel := a.kernel);
    var b := RemoveTarget(a.kernel, t, Works);
    var s2 := s.(kernel := b.kernel);
    assert Perform(s, c, ALL_WORK) == Complete(s, c, Unmounting, ALL_WORK) == Complete(s1, c, RemovingTarget, ALL_WORK);
    if Tidy(s, t) {
      Detaches(s.kernel, t);
      Removes(a.kernel, t);
      assert Complete(s1, c, RemovingTarget, ALL_WORK) == Complete(s2, c, CheckHolder, ALL_WORK);
      Releases(s2, c);
    } else {
      assert b.errno == EBUSY || b.errno == ENOTEMPTY;
      assert Complete(s1, c, RemovingTarget, ALL_WORK) == Complete(s2, c, Finished(Internal), ALL_WORK);
    }
  }

  /** Whatever fails and whatever state it meets, even with mounts stacked, an unpublish changes
      no copy, and a target with anything in it underneath stays with its contents. */
  lemma {:induction false} UnpublishDestroysNothing(s: State, c: Call, pc: Pc, o: Oracle)
    requires c.Unpublish?
    ensures Complete(s, c, pc, o).state.disk.copies == s.disk.copies
    ensures c.target in s.kernel.targets && !s.kernel.targets[c.target].Empty? ==>
              SameKey(Complete(s, c, pc, o).state.kernel.targets, s.kernel.targets, c.target)
    decreases Rank(pc)
  {
    if !pc.Finished? {
      var p := Step(s, c, pc, o(pc));
      assert p.state.disk.copies == s.disk.copies;
      UnpublishDestroysNothing(p.state, c, p.pc, o);
    }
  }

  /** An unpublish never makes its target less tidy, however it goes. */
  lemma UnpublishKeepsTidy(s: State, c: Call, pc: Pc, o: Outcome)
    requires c.Unpublish? && Tidy(s, c.target)
    ensures Tidy(Step(s, c, pc, o).state, c.target)
  {
    match pc
    case Unmounting =>
      if o.Works? { Detaches(s.kernel, c.target); }
    case RemovingTarget =>
      if o.Works? && c.target !in s.kernel.mounts { Removes(s.kernel, c.target); }
    case _ =>
  }

  lemma {:induction false} UnpublishPartwayTidy(s: State, c: Call, pc: Pc, outcomes: seq<Outcome>)
    requires c.Unpublish? && Tidy(s, c.target)
    ensures Tidy(Partway(s, c, pc, outcomes).state, c.target)
    decreases |outcomes|
  {
    if outcomes != [] {
      UnpublishKeepsTidy(s, c, pc, outcomes[0]);
      var p := Step(s, c, pc, outcomes[0]);
      UnpublishPartwayTidy(p.state, c, p.pc, outcomes[1..]);
    }
  }

  /** Calls made one after another, each with its own outcomes. */
  datatype Made = Made(call: Call, oracle: Oracle)

  function PerformAll(s: State, calls: seq<Made>): State
    decreases |calls|
  {
    if calls == [] then s else PerformAll(Perform(s, calls[0].call, calls[0].oracle).state, calls[1..])
  }

  lemma {:induction false} OthersLeaveTarget(s: State, calls: seq<Made>, t: Path)
    requires forall m | m in calls :: m.call.target != t
    ensures SameTarget(PerformAll(s, calls), s, t)
    decreases |calls|
  {
    if calls != [] {
      var m := calls[0];
      CompleteFrame(s, m.call, First(m.call), m.oracle, m.call.handle, t);
      OthersLeaveTarget(Perform(s, m.call, m.oracle).state, calls[1..], t);
    }
  }

  lemma UnpublishedEffect(s: State, c: Call)
    requires c.Unpublish?
    ensures var e := Unpublished(s, c);
            && Stack(e.kernel, c.target) == [] && c.target !in e.kernel.targets
            && (forall t: Path :: t != c.target ==> SameTarget(e, s, t))
            && (forall h: Handle :: h != c.handle ==> SameHandle(e, s, h))
            && (c.handle in s.holds && s.holds[c.handle].target != c.target ==> SameHandle(e, s, c.handle))
            && (c.handle in e.holds ==> e.holds[c.handle].target != c.target)
  {
  }

  /** No recovery touches a target. */
  lemma ResumedKeepsKernel(s: State, listing: Option<seq<Handle>>, luck: Handle -> Luck)
    requires listing.Some? ==> NoRepeats(listing.value)
    ensures Resumed(s, listing, luck).kernel == s.kernel
  {
    if listing.Some? { ResumeIsExact(Crash(s), listing.value, luck, Handle("")); }
  }

  /** Crash and retry of an unpublish: whatever the outcomes of its steps, and after whichever of
      them the process dies, whatever the recovery could list, read and remove, and whatever
      calls at other targets come after it, the retry with nothing failing succeeds; the target
      ends unmounted and gone, nothing else is touched, and a claim taken at another target in
      between still stands, on disk as well. */
  lemma UnpublishConverges(s: State, c: Call, outcomes: seq<Outcome>, listing: Option<seq<Handle>>,
                           luck: Handle -> Luck, others: seq<Made>)
    requires c.Unpublish? && NamesBoth(c) && Tidy(s, c.target)
    requires listing.Some? ==> NoRepeats(listing.value)
    requires forall m | m in others :: m.call.target != c.target
    ensures var died := Partway(s, c, CheckArguments, outcomes).state;
            var between := PerformAll(Resumed(died, listing, luck), others);
            var e := Perform(between, c, ALL_WORK);
            && e == Ended(Unpublished(between, c), Success)
            && Stack(e.state.kernel, c.target) == [] && c.target !in e.state.kernel.targets
            && (forall t: Path :: t != c.target ==> SameTarget(e.state, between, t))
            && (forall h: Handle :: h != c.handle ==> SameHandle(e.state, between, h))
            && (c.handle in between.holds && between.holds[c.handle].target != c.target ==>
                  SameHandle(e.state, between, c.handle))
            && (c.handle in e.state.holds ==> e.state.holds[c.handle].target != c.target)
  {
    var p := Partway(s, c, CheckArguments, outcomes);
    UnpublishPartwayTidy(s, c, CheckArguments, outcomes);
    var r := Resumed(p.state, listing, luck);
    ResumedKeepsKernel(p.state, listing, luck);
    var between := PerformAll(r, others);
    OthersLeaveTarget(r, others, c.target);
    assert SameTarget(between, p.state, c.target);
    assert Stack(between.kernel, c.target) == Stack(p.state.kernel, c.target);
    GoodUnpublish(between, c);
    UnpublishedEffect(between, c);
  }
}
