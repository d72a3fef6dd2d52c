/** What every reachable state keeps, whatever fails and whenever the process dies. */
module Safety {
  import opened States
  import opened Calls
  import opened Restart
  import opened Interleavings
  import opened Systems

  /** A target carries at most one bind, of its owner's volume, and is never written underneath. */
  predicate TargetOk(s: State, own: Kubelet, t: Path) {
    && |Stack(s.kernel, t)| <= 1
    && (Stack(s.kernel, t) != [] ==> t in s.kernel.targets && Stack(s.kernel, t)[0].handle == own(t).handle)
    && (t in s.kernel.targets ==> s.kernel.targets[t].Empty?)
  }

  /** What a call can rely on at each of its steps. */
  predicate At(s: State, c: Call, pc: Pc) {
    var h, binds := c.handle, Stack(s.kernel, c.target);
    match pc
    case Check => c.Publish?
    case MakingCopy => c.Publish? && Elsewhere(s, c)
    case ChmodingCopy => c.Publish? && Elsewhere(s, c)
    case MakingTarget => c.Publish? && Elsewhere(s, c)
    case Detaching => c.Publish? && Elsewhere(s, c) && c.target in s.kernel.targets
    case Binding => c.Publish? && Elsewhere(s, c) && c.target in s.kernel.targets && binds == []
    case Remounting => c.Publish? && Elsewhere(s, c) && c.readOnly && binds != [] && !binds[0].readOnly
    case Undoing => c.Publish? && Elsewhere(s, c)
    case KeepingMemory => c.Publish? && Elsewhere(s, c) && binds != [] && binds[0].readOnly == c.readOnly
    case MakingHolds => c.Publish? && Claims(s, c)
    case OpeningRecord => c.Publish? && Claims(s, c)
    case WritingRecord => c.Publish? && Claims(s, c)
    case CheckArguments => c.Unpublish?
    case Unmounting => c.Unpublish?
    case RemovingTarget => c.Unpublish? && binds == []
    case CheckHolder => c.Unpublish? && binds == []
    case DroppingMemory => c.Unpublish? && binds == [] && (h in s.holds ==> s.holds[h].target == c.target)
    case RemovingRecord => c.Unpublish? && h !in s.holds
    case Finished(_) => true
  }

  /** The call is acceptable, and a claim on the handle, if there is one, is the same pod's, at
      another target. */
  predicate Elsewhere(s: State, c: Call)
    requires c.Publish?
  {
    && Usable(c.handle, c.target)
    && (c.handle in s.holds ==>
      s.holds[c.handle].target != c.target && s.holds[c.handle].pod.uid == c.pod.uid)
  }

  predicate Claims(s: State, c: Call)
    requires c.Publish?
  {
    c.handle in s.holds && s.holds[c.handle] == HoldOf(c) && Stack(s.kernel, c.target) != []
  }

  /** An unpublish of the held target that has detached its mount and not yet ended. */
  predicate PastDetaching(th: Thread, hold: Hold) {
    && th.call.Unpublish? && th.call.target == hold.target
    && (th.pc.RemovingTarget? || th.pc.CheckHolder? || th.pc.DroppingMemory?)
  }

  predicate Owned(hold: Hold, h: Handle, own: Kubelet) {
    own(hold.target) == Owner(hold.pod.uid, h) && Usable(h, hold.target)
  }

  /** A hold's target is mounted, but for an unpublish that is past detaching, or stopped there. */
  predicate HoldOk(y: System, own: Kubelet, h: Handle) {
    h in y.s.holds ==>
      var hold := y.s.holds[h];
      && Owned(hold, h, own)
      && (Mounted(y, hold.target) <==> !(h in y.half || (h in y.pool && PastDetaching(y.pool[h], hold))))
  }

  predicate ThreadOk(y: System, own: Kubelet, h: Handle) {
    h in y.pool ==>
      var th := y.pool[h];
      th.call.handle == h && Conforms(th.call, own) && At(y.s, th.call, th.pc)
  }

  predicate RecordOk(y: System, own: Kubelet, h: Handle) {
    h in y.s.disk.records && y.s.disk.records[h].Readable? ==> Owned(y.s.disk.records[h].hold, h, own)
  }

  predicate HandleOk(y: System, own: Kubelet, h: Handle) {
    HoldOk(y, own, h) && ThreadOk(y, own, h) && RecordOk(y, own, h) && (h in y.half ==> h in y.s.holds)
  }

  /** Outside of serving there are no calls and no pass, and a dead process holds nothing. */
  predicate PhaseOk(y: System) {
    && (!y.phase.Serving? ==> y.pool == map[] && y.pass.Idle? && y.half == {})
    && (y.phase.Down? ==> y.s.holds == map[])
  }

  ghost predicate Inv(y: System, own: Kubelet) {
    && (forall t: Path :: TargetOk(y.s, own, t))
    && (forall h: Handle :: HandleOk(y, own, h))
    && PhaseOk(y)
  }

  lemma FreshIsSafe(y: System, own: Kubelet)
    requires Fresh(y)
    ensures Inv(y, own)
  {
  }

  // ---- one step of one call ----

  /** A step keeps what its call relies on, and its target in order. */
  lemma PublishKeeps(s: State, c: Call, pc: Pc, o: Outcome, own: Kubelet)
    requires c.Publish? && Conforms(c, own) && At(s, c, pc) && TargetOk(s, own, c.target)
    ensures var p := Step(s, c, pc, o); At(p.state, c, p.pc) && TargetOk(p.state, own, c.target)
  {
    var binds := Stack(s.kernel, c.target);
    match pc
    case MakingTarget =>
      if c.target in s.kernel.targets {} else {}
    case Detaching => UnmountKeeps(s, own, c.target, o);
    case Binding =>
      if o.Works? && c.handle in s.disk.copies {
        var made := Bind(c.handle, s.disk.copies[c.handle].generation, false);
        assert binds + [made] == [made];
      }
    case Remounting =>
      if o.Works? { assert ReadOnlyTop(binds) == [binds[0].(readOnly := true)]; }
    case Undoing => UnmountKeeps(s, own, c.target, o);
    case _ =>
  }

  lemma UnmountKeeps(s: State, own: Kubelet, t: Path, o: Outcome)
    requires TargetOk(s, own, t)
    ensures TargetOk(s.(kernel := Unmount(s.kernel, t, o).kernel), own, t)
    ensures o.Works? ==> Stack(Unmount(s.kernel, t, o).kernel, t) == []
  {
    var binds := Stack(s.kernel, t);
    if binds != [] { assert Below(binds) == []; }
  }

  lemma UnpublishKeeps(s: State, c: Call, pc: Pc, o: Outcome, own: Kubelet)
    requires c.Unpublish? && At(s, c, pc) && TargetOk(s, own, c.target)
    ensures var p := Step(s, c, pc, o); At(p.state, c, p.pc) && TargetOk(p.state, own, c.target)
  {
    match pc
    case Unmounting => UnmountKeeps(s, own, c.target, o);
    case _ =>
  }

  /** The claim of a stepping publish's own handle. */
  lemma PublishKeepsHold(y: System, own: Kubelet, h: Handle, o: Outcome)
    requires h in y.pool && y.pool[h].call.Publish? && HandleOk(y, own, h)
    ensures HoldOk(AfterStep(y, h, o), own, h)
    ensures h in AfterStep(y, h, o).half ==> h in AfterStep(y, h, o).s.holds
  {
    var c, pc := y.pool[h].call, y.pool[h].pc;
    var p := Step(y.s, c, pc, o);
    if pc.KeepingMemory? {
      assert p.state.holds[h] == HoldOf(c) && p.state.kernel == y.s.kernel;
    } else {
      PublishHoldsStay(y.s, c, pc, o);
      if h in y.s.holds {
        var t := y.s.holds[h].target;
        if t == c.target {
          assert p.state.kernel == y.s.kernel;
        } else {
          StepFrame(y.s, c, pc, o, h, t);
        }
      }
    }
  }

  lemma PublishHoldsStay(s: State, c: Call, pc: Pc, o: Outcome)
    requires c.Publish? && !pc.KeepingMemory? && At(s, c, pc)
    ensures Step(s, c, pc, o).state.holds == s.holds
    ensures c.handle in s.holds && s.holds[c.handle].target == c.target ==> Step(s, c, pc, o).state.kernel == s.kernel
  {
  }

  /** The claim of a stepping unpublish's own handle: at the call's own target, and at another. */
  lemma UnpublishKeepsOwnHold(y: System, own: Kubelet, h: Handle, o: Outcome)
    requires h in y.pool && y.pool[h].call.Unpublish? && HandleOk(y, own, h)
    requires TargetOk(y.s, own, y.pool[h].call.target)
    requires h in y.s.holds && y.s.holds[h].target == y.pool[h].call.target && !y.pool[h].pc.DroppingMemory?
    ensures HoldOk(AfterStep(y, h, o), own, h)
  {
    if y.pool[h].pc.Unmounting? { UnmountKeeps(y.s, own, y.pool[h].call.target, o); }
  }

  lemma UnpublishKeepsOtherHold(y: System, own: Kubelet, h: Handle, o: Outcome)
    requires h in y.pool && y.pool[h].call.Unpublish? && HandleOk(y, own, h)
    requires h in y.s.holds && y.s.holds[h].target != y.pool[h].call.target
    ensures HoldOk(AfterStep(y, h, o), own, h)
  {
    StepFrame(y.s, y.pool[h].call, y.pool[h].pc, o, h, y.s.holds[h].target);
  }

  lemma UnpublishKeepsHold(y: System, own: Kubelet, h: Handle, o: Outcome)
    requires h in y.pool && y.pool[h].call.Unpublish? && HandleOk(y, own, h)
    requires TargetOk(y.s, own, y.pool[h].call.target)
    ensures HoldOk(AfterStep(y, h, o), own, h)
    ensures h in AfterStep(y, h, o).half ==> h in AfterStep(y, h, o).s.holds
  {
    var c, pc := y.pool[h].call, y.pool[h].pc;
    if pc.DroppingMemory? {
      assert h !in AfterStep(y, h, o).s.holds;
    } else {
      UnpublishHoldsStay(y.s, c, pc, o);
      if h in y.s.holds {
        if y.s.holds[h].target == c.target {
          UnpublishKeepsOwnHold(y, own, h, o);
        } else {
          UnpublishKeepsOtherHold(y, own, h, o);
        }
      }
    }
  }

  lemma UnpublishHoldsStay(s: State, c: Call, pc: Pc, o: Outcome)
    requires c.Unpublish? && !pc.DroppingMemory?
    ensures Step(s, c, pc, o).state.holds == s.holds
  {
  }

  lemma StepKeepsRecord(y: System, own: Kubelet, h: Handle, o: Outcome)
    requires h in y.pool && HandleOk(y, own, h)
    ensures RecordOk(AfterStep(y, h, o), own, h)
  {
    var c, pc := y.pool[h].call, y.pool[h].pc;
    if pc.OpeningRecord? || pc.WritingRecord? || pc.RemovingRecord? {
    } else {
      StepLeavesRecords(y.s, c, pc, o);
    }
  }

  lemma StepLeavesRecords(s: State, c: Call, pc: Pc, o: Outcome)
    requires !pc.OpeningRecord? && !pc.WritingRecord? && !pc.RemovingRecord?
    ensures Step(s, c, pc, o).state.disk.records == s.disk.records
  {
  }

  /** Everything under the stepping call's own handle. */
  lemma StepKeepsOwn(y: System, own: Kubelet, h: Handle, o: Outcome)
    requires h in y.pool && HandleOk(y, own, h) && TargetOk(y.s, own, y.pool[h].call.target)
    ensures HandleOk(AfterStep(y, h, o), own, h)
    ensures TargetOk(AfterStep(y, h, o).s, own, y.pool[h].call.target)
  {
    var c, pc := y.pool[h].call, y.pool[h].pc;
    StepKeepsRecord(y, own, h, o);
    if c.Publish? {
      PublishKeeps(y.s, c, pc, o, own);
      PublishKeepsHold(y, own, h, o);
    } else {
      UnpublishKeeps(y.s, c, pc, o, own);
      UnpublishKeepsHold(y, own, h, o);
    }
  }

  /** And nothing under another handle is disturbed: its targets are other targets. */
  lemma StepKeepsOther(y: System, own: Kubelet, h: Handle, o: Outcome, g: Handle)
    requires h in y.pool && g != h && HandleOk(y, own, h) && HandleOk(y, own, g)
    ensures HandleOk(AfterStep(y, h, o), own, g)
  {
    var c, pc := y.pool[h].call, y.pool[h].pc;
    StepFrame(y.s, c, pc, o, g, c.target);
    if g in y.s.holds { StepFrame(y.s, c, pc, o, g, y.s.holds[g].target); }
    if g in y.pool {
      var d := y.pool[g];
      StepFrame(y.s, c, pc, o, g, d.call.target);
      AtIsLocal(y.s, AfterStep(y, h, o).s, d.call, d.pc);
    }
  }

  lemma AtIsLocal(a: State, b: State, c: Call, pc: Pc)
    requires At(a, c, pc) && SameFor(b, a, c.handle, c.target)
    ensures At(b, c, pc)
  {
    assert Stack(a.kernel, c.target) == Stack(b.kernel, c.target);
  }

  lemma TargetIsLocal(a: State, b: State, own: Kubelet, t: Path)
    requires TargetOk(a, own, t) && SameTarget(b, a, t)
    ensures TargetOk(b, own, t)
  {
    assert Stack(a.kernel, t) == Stack(b.kernel, t);
  }

  lemma AdvanceKeeps(y: System, own: Kubelet, h: Handle, o: Outcome)
    requires Inv(y, own) && h in y.pool
    ensures Inv(AfterStep(y, h, o), own)
  {
    var c, pc := y.pool[h].call, y.pool[h].pc;
    assert HandleOk(y, own, h) && TargetOk(y.s, own, c.target);
    StepKeepsOwn(y, own, h, o);
    var z := AfterStep(y, h, o);
    forall g: Handle ensures HandleOk(z, own, g) {
      assert HandleOk(y, own, g);
      if g != h { StepKeepsOther(y, own, h, o, g); }
    }
    forall t: Path ensures TargetOk(z.s, own, t) {
      assert TargetOk(y.s, own, t);
      if t != c.target {
        StepFrame(y.s, c, pc, o, h, t);
        TargetIsLocal(y.s, z.s, own, t);
      }
    }
  }

  // ---- the other events ----

  lemma RecoverKeeps(y: System, own: Kubelet, luck: Luck)
    requires Inv(y, own) && y.phase.Resuming? && y.phase.todo != []
    ensures Inv(Next(y, Recover(luck)), own)
  {
    var e := y.phase.todo[0];
    var z := Next(y, Recover(luck));
    EntryKeepsDirectories(y.s, e, luck);
    forall g: Handle ensures HandleOk(z, own, g) {
      assert HandleOk(y, own, g);
      if g != e { EntryFrame(y.s, e, luck, g); }
    }
    forall t: Path ensures TargetOk(z.s, own, t) { assert TargetOk(y.s, own, t); }
  }

  /** A change to the copies alone, or to nothing but the bookkeeping of a pass. */
  lemma CopiesDoNotMatter(y: System, z: System, own: Kubelet)
    requires Inv(y, own) && PhaseOk(z)
    requires z.s.holds == y.s.holds && z.s.kernel == y.s.kernel && z.s.disk.records == y.s.disk.records
    requires z.pool == y.pool && z.half == y.half
    ensures Inv(z, own)
  {
    forall g: Handle ensures HandleOk(z, own, g) {
      assert HandleOk(y, own, g);
      if g in y.pool { AtNeedsNoCopy(y.s, z.s, y.pool[g].call, y.pool[g].pc); }
    }
    forall t: Path ensures TargetOk(z.s, own, t) { assert TargetOk(y.s, own, t); }
  }

  lemma AtNeedsNoCopy(a: State, b: State, c: Call, pc: Pc)
    requires At(a, c, pc) && b.holds == a.holds && b.kernel == a.kernel
    ensures At(b, c, pc)
  {
  }

  lemma PoolChangeKeeps(y: System, own: Kubelet, e: Event)
    requires Inv(y, own) && Enabled(y, e, own) && (e.Begin? || e.Return? || e.Die?)
    ensures Inv(Next(y, e), own)
  {
    var z := Next(y, e);
    forall g: Handle ensures HandleOk(z, own, g) { assert HandleOk(y, own, g); }
    forall t: Path ensures TargetOk(z.s, own, t) { assert TargetOk(y.s, own, t); }
  }

  /** Every event keeps the invariant. */
  lemma EventKeeps(y: System, own: Kubelet, e: Event)
    requires Inv(y, own) && Enabled(y, e, own)
    ensures Inv(Next(y, e), own)
  {
    match e
    case Begin(_) => PoolChangeKeeps(y, own, e);
    case Return(_) => PoolChangeKeeps(y, own, e);
    case Die => PoolChangeKeeps(y, own, e);
    case Advance(h, o) => AdvanceKeeps(y, own, h, o);
    case Recover(luck) => RecoverKeeps(y, own, luck);
    case _ => CopiesDoNotMatter(y, Next(y, e), own);
  }

  lemma {:induction false} RunKeeps(y: System, events: seq<Event>, own: Kubelet)
    requires Inv(y, own) && IsRun(y, events, own)
    ensures Inv(After(y, events), own)
    decreases |events|
  {
    if events != [] {
      EventKeeps(y, own, events[0]);
      RunKeeps(Next(y, events[0]), events[1..], own);
    }
  }

  /** Over every run from a fresh machine, with any failures, crashes, recoveries and sweeps:
      binds never stack, and a hold's target carries a bind of the hold's own volume, except
      precisely while an unpublish is past detaching it or after one that stopped there. */
  lemma HoldsAreMountedAndBindsNeverStack(y: System, events: seq<Event>, own: Kubelet)
    requires Fresh(y) && IsRun(y, events, own)
    ensures var z := After(y, events);
            && (forall t: Path :: |Stack(z.s.kernel, t)| <= 1)
            && (forall t: Path | Mounted(z, t) :: Stack(z.s.kernel, t)[0].handle == own(t).handle)
            && (forall h | h in z.s.holds ::
                  (exists gen, ro :: Stack(z.s.kernel, z.s.holds[h].target) == [Bind(h, gen, ro)]) <==>
                  !(h in z.half || (h in z.pool && PastDetaching(z.pool[h], z.s.holds[h]))))
  {
    FreshIsSafe(y, own);
    RunKeeps(y, events, own);
    var z := After(y, events);
    forall t: Path ensures |Stack(z.s.kernel, t)| <= 1 &&
                           (Mounted(z, t) ==> Stack(z.s.kernel, t)[0].handle == own(t).handle) {
      assert TargetOk(z.s, own, t);
    }
    forall h | h in z.s.holds
      ensures Mounted(z, z.s.holds[h].target) <==>
                exists gen, ro :: Stack(z.s.kernel, z.s.holds[h].target) == [Bind(h, gen, ro)]
      ensures Mounted(z, z.s.holds[h].target) <==>
                !(h in z.half || (h in z.pool && PastDetaching(z.pool[h], z.s.holds[h])))
    {
      assert HandleOk(z, own, h) && TargetOk(z.s, own, z.s.holds[h].target);
      var binds := Stack(z.s.kernel, z.s.holds[h].target);
      if binds != [] { assert binds == [Bind(h, binds[0].generation, binds[0].readOnly)]; }
    }
  }
}
