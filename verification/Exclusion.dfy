/** One pod per volume on a node, over whole runs with crashes. */
module Exclusion {
  import opened States
  import opened Calls
  import opened Restart
  import opened Systems
  import opened Safety
  import opened Records

  /** The volume's pods have one target path each, among those the driver accepts. */
  ghost predicate OneTargetOf(own: Kubelet, h: Handle) {
    forall t, u: Path | Usable(h, t) && Usable(h, u) && own(t).handle == h && own(t) == own(u) :: t == u
  }

  /** The luck the driver needs: hold files that get written, and at a restart a holds directory,
      hold files and a mount table that can be read. Everything else may fail. */
  predicate Lucky(y: System, e: Event) {
    && Written(y, e)
    && match e
       case Boot(listing) => listing.Some?
       case Recover(luck) => luck.read.Works? && luck.table.Works?
       case _ => true
  }

  ghost predicate IsLuckyRun(y: System, events: seq<Event>, own: Kubelet)
    decreases |events|
  {
    events != [] ==>
      Enabled(y, events[0], own) && Lucky(y, events[0]) && IsLuckyRun(Next(y, events[0]), events[1..], own)
  }

  /** A publish that has answered success holds its target. */
  predicate Answered(y: System, h: Handle) {
    h in y.pool && Acknowledges(y.pool[h]) ==>
      h in y.s.holds && y.s.holds[h].target == y.pool[h].call.target
  }

  /** An acknowledged publish has a live bind. If its volume's pods have one target each, it is on
      record under its target, and held, or about to be taken back by the recovery in progress. */
  ghost predicate AckOk(y: System, own: Kubelet, t: Path) {
    t in y.acked ==>
      Mounted(y, t) && Usable(own(t).handle, t) && (OneTargetOf(own, own(t).handle) ==> Backed(y, own, t))
  }

  predicate Backed(y: System, own: Kubelet, t: Path) {
    var h := own(t).handle;
    && h in y.s.disk.records && y.s.disk.records[h].Readable? && y.s.disk.records[h].hold.target == t
    && (h in y.pool ==> !Writing(y.pool[h].pc))
    && (y.phase.Serving? ==> Holds(y, h))
    && (y.phase.Resuming? ==> h in y.phase.todo || Holds(y, h))
  }

  predicate Holds(y: System, h: Handle)
    requires h in y.s.disk.records && y.s.disk.records[h].Readable?
  {
    h in y.s.holds && y.s.holds[h] == y.s.disk.records[h].hold
  }

  ghost predicate Exclusive(y: System, own: Kubelet) {
    AllRecorded(y) && Accounted(y, own)
  }

  ghost predicate Accounted(y: System, own: Kubelet) {
    (forall h: Handle :: Answered(y, h)) && (forall t: Path :: AckOk(y, own, t))
  }

  lemma FreshIsExclusive(y: System, own: Kubelet)
    requires Fresh(y)
    ensures Exclusive(y, own)
  {
  }

  /** With one target per pod and volume, a publish that has to mount finds no claim at all. */
  lemma NoClaimBefore(y: System, own: Kubelet, h: Handle)
    requires OneTargetOf(own, h) && HandleOk(y, own, h) && h in y.pool && y.pool[h].call.Publish?
    requires Elsewhere(y.s, y.pool[h].call)
    ensures h !in y.s.holds
  {
  }

  /** A stepping call that has answered holds its target. */
  lemma StepAnswers(y: System, own: Kubelet, h: Handle, o: Outcome)
    requires h in y.pool && HandleOk(y, own, h) && Answered(y, h)
    ensures Answered(AfterStep(y, h, o), h)
  {
    var c, pc := y.pool[h].call, y.pool[h].pc;
    if c.Publish? && !pc.KeepingMemory? && !Writing(pc) { PublishHoldsStay(y.s, c, pc, o); }
  }

  /** An acknowledged target other than the stepping call's stays acknowledged. */
  lemma StepAcksOther(y: System, own: Kubelet, h: Handle, o: Outcome, t: Path)
    requires h in y.pool && HandleOk(y, own, h) && t != y.pool[h].call.target
    requires y.phase.Serving? && Recorded(y, h) && AckOk(y, own, t)
    ensures AckOk(AfterStep(y, h, o), own, t)
  {
    var c, pc := y.pool[h].call, y.pool[h].pc;
    var g := own(t).handle;
    StepFrame(y.s, c, pc, o, g, t);
    if t in y.acked && g == h && OneTargetOf(own, h) {
      if c.Publish? {
        if pc.KeepingMemory? { NoClaimBefore(y, own, h); } else { PublishHoldsStay(y.s, c, pc, o); }
        AckedIsNotWritten(y, own, h, o);
      } else {
        assert y.s.holds[h].target == t;
        UnpublishElsewhere(y.s, c, pc, o);
      }
    }
  }

  lemma AckedIsNotWritten(y: System, own: Kubelet, h: Handle, o: Outcome)
    requires h in y.pool && y.pool[h].call.Publish? && !Writing(y.pool[h].pc) && !y.pool[h].pc.KeepingMemory?
    ensures AfterStep(y, h, o).s.disk.records == y.s.disk.records
    ensures !Writing(AfterStep(y, h, o).pool[h].pc)
  {
  }

  /** An unpublish at a target the hold does not name leaves hold and record alone. */
  lemma UnpublishElsewhere(s: State, c: Call, pc: Pc, o: Outcome)
    requires c.Unpublish? && At(s, c, pc) && c.handle in s.holds && s.holds[c.handle].target != c.target
    ensures Step(s, c, pc, o).state.holds == s.holds
    ensures Step(s, c, pc, o).state.disk.records == s.disk.records
    ensures !Writing(Step(s, c, pc, o).pc)
  {
  }

  /** The stepping call's own target: it stays acknowledged only if the step left it alone. */
  lemma StepAcksOwn(y: System, own: Kubelet, h: Handle, o: Outcome)
    requires h in y.pool && HandleOk(y, own, h) && TargetOk(y.s, own, y.pool[h].call.target)
    requires y.phase.Serving? && AckOk(y, own, y.pool[h].call.target)
    ensures AckOk(AfterStep(y, h, o), own, y.pool[h].call.target)
  {
    var c, pc := y.pool[h].call, y.pool[h].pc;
    if c.target in y.acked && OneTargetOf(own, h) {
      if c.Publish? {
        AckedIsNotWritten(y, own, h, o);
        PublishHoldsStay(y.s, c, pc, o);
      } else if pc.Unmounting? {
        UnmountKeeps(y.s, own, c.target, o);
      }
    }
  }

  lemma AdvanceExcludes(y: System, own: Kubelet, h: Handle, o: Outcome)
    requires Inv(y, own) && Exclusive(y, own) && h in y.pool && Lucky(y, Advance(h, o))
    ensures Accounted(AfterStep(y, h, o), own)
  {
    var z := AfterStep(y, h, o);
    var c, pc := y.pool[h].call, y.pool[h].pc;
    assert HandleOk(y, own, h) && TargetOk(y.s, own, c.target) && Recorded(y, h) && Answered(y, h);
    forall g: Handle ensures Answered(z, g) {
      assert Answered(y, g);
      if g == h { StepAnswers(y, own, h, o); } else { StepFrame(y.s, c, pc, o, g, c.target); }
    }
    forall t: Path ensures AckOk(z, own, t) {
      assert AckOk(y, own, t);
      if t == c.target { StepAcksOwn(y, own, h, o); } else { StepAcksOther(y, own, h, o, t); }
    }
  }

  lemma ReturnExcludes(y: System, own: Kubelet, h: Handle)
    requires Inv(y, own) && Exclusive(y, own) && h in y.pool && y.pool[h].pc.Finished?
    ensures Accounted(AfterReturn(y, h), own)
  {
    var z := AfterReturn(y, h);
    assert HandleOk(y, own, h) && Recorded(y, h) && Answered(y, h);
    forall g: Handle ensures Answered(z, g) { assert Answered(y, g); }
    forall t: Path ensures AckOk(z, own, t) { assert AckOk(y, own, t); }
  }

  lemma RecoverExcludes(y: System, own: Kubelet, luck: Luck)
    requires Inv(y, own) && Exclusive(y, own) && Enabled(y, Recover(luck), own) && Lucky(y, Recover(luck))
    ensures Accounted(Next(y, Recover(luck)), own)
  {
    var e := y.phase.todo[0];
    var z := Next(y, Recover(luck));
    forall g: Handle ensures Answered(z, g) {
      assert Answered(y, g);
      if g != e { EntryFrame(y.s, e, luck, g); }
    }
    forall t: Path ensures AckOk(z, own, t) {
      assert AckOk(y, own, t);
      EntryKeepsDirectories(y.s, e, luck);
      if own(t).handle != e { EntryFrame(y.s, e, luck, own(t).handle); }
    }
  }

  /** Events outside the phases and the calls: volumes, passes and writes. */
  lemma PassExcludes(y: System, z: System, own: Kubelet)
    requires Exclusive(y, own)
    requires z.s.holds == y.s.holds && z.s.disk.records == y.s.disk.records && z.s.kernel == y.s.kernel
    requires z.pool == y.pool && z.phase == y.phase && z.acked == y.acked
    ensures Accounted(z, own)
  {
    forall g: Handle ensures Answered(z, g) { assert Answered(y, g); }
    forall t: Path ensures AckOk(z, own, t) { assert AckOk(y, own, t); }
  }

  lemma PhaseExcludes(y: System, own: Kubelet, e: Event)
    requires Inv(y, own) && Exclusive(y, own) && Enabled(y, e, own) && Lucky(y, e)
    requires e.Begin? || e.Die? || e.Boot? || e.Ready?
    ensures Accounted(Next(y, e), own)
  {
    var z := Next(y, e);
    forall g: Handle ensures Answered(z, g) { assert Answered(y, g); }
    forall t: Path ensures AckOk(z, own, t) { assert AckOk(y, own, t); }
  }

  lemma EventExcludes(y: System, own: Kubelet, e: Event)
    requires Inv(y, own) && Exclusive(y, own) && Enabled(y, e, own) && Lucky(y, e)
    ensures Exclusive(Next(y, e), own)
  {
    EventRecords(y, own, e);
    match e
    case Advance(h, o) => AdvanceExcludes(y, own, h, o);
    case Return(h) => ReturnExcludes(y, own, h);
    case Recover(luck) => RecoverExcludes(y, own, luck);
    case Begin(_) => PhaseExcludes(y, own, e);
    case Die => PhaseExcludes(y, own, e);
    case Boot(_) => PhaseExcludes(y, own, e);
    case Ready => PhaseExcludes(y, own, e);
    case _ => PassExcludes(y, Next(y, e), own);
  }

  lemma {:induction false} RunExcludes(y: System, events: seq<Event>, own: Kubelet)
    requires Inv(y, own) && Exclusive(y, own) && IsLuckyRun(y, events, own)
    ensures Inv(After(y, events), own) && Exclusive(After(y, events), own)
    decreases |events|
  {
    if events != [] {
      EventKeeps(y, own, events[0]);
      EventExcludes(y, own, events[0]);
      RunExcludes(Next(y, events[0]), events[1..], own);
    }
  }

  /** For every volume whose pods have one target each: at most one pod ever has an acknowledged
      publish of it whose bind is still there, over every lucky run from a fresh machine, with
      crashes anywhere; and while the driver serves, the hold names that pod and that target. */
  lemma OnePodPerVolume(y: System, events: seq<Event>, own: Kubelet, h: Handle)
    requires OneTargetOf(own, h) && Fresh(y) && IsLuckyRun(y, events, own)
    ensures var z := After(y, events);
            && (forall t, u | t in z.acked && u in z.acked && own(t).handle == own(u).handle == h :: t == u)
            && (forall t | t in z.acked && own(t).handle == h && z.phase.Serving? ::
                  h in z.s.holds && z.s.holds[h].target == t && z.s.holds[h].pod.uid == own(t).uid)
  {
    FreshIsSafe(y, own);
    FreshIsExclusive(y, own);
    RunExcludes(y, events, own);
    var z := After(y, events);
    forall t | t in z.acked && own(t).handle == h
      ensures h in z.s.disk.records && z.s.disk.records[h].Readable? && z.s.disk.records[h].hold.target == t
      ensures z.phase.Serving? ==>
                h in z.s.holds && z.s.holds[h].target == t && z.s.holds[h].pod.uid == own(t).uid
    {
      assert AckOk(z, own, t) && HandleOk(z, own, h);
    }
  }

  /** No call in flight, and none that begins, unpublishes the target. */
  predicate LeavesAlone(e: Event, t: Path) {
    e.Begin? && e.call.Unpublish? ==> e.call.target != t
  }

  ghost predicate NoneUnpublishing(y: System, t: Path) {
    forall h | h in y.pool && y.pool[h].call.Unpublish? :: y.pool[h].call.target != t
  }

  lemma EventKeepsAck(y: System, own: Kubelet, e: Event, t: Path)
    requires Inv(y, own) && Exclusive(y, own) && Enabled(y, e, own)
    requires OneTargetOf(own, own(t).handle) && t in y.acked && NoneUnpublishing(y, t) && LeavesAlone(e, t)
    ensures t in Next(y, e).acked && NoneUnpublishing(Next(y, e), t)
  {
    if e.Advance? && y.pool[e.handle].call.target == t {
      var h, c, pc := e.handle, y.pool[e.handle].call, y.pool[e.handle].pc;
      assert AckOk(y, own, t) && HandleOk(y, own, h);
      PublishHoldsStay(y.s, c, pc, e.outcome);
    }
  }

  /** An acknowledged publish outlasts every lucky run that does not unpublish its target: its
      bind stays, and whenever the driver serves, the pod still holds the volume there. Refused
      pods, their unpublishes elsewhere, sweeps and crashes do not matter. */
  lemma {:induction false} AcknowledgedUntilUnpublished(y: System, events: seq<Event>, own: Kubelet, t: Path)
    requires Inv(y, own) && Exclusive(y, own) && IsLuckyRun(y, events, own)
    requires OneTargetOf(own, own(t).handle) && t in y.acked && NoneUnpublishing(y, t)
    requires forall e | e in events :: LeavesAlone(e, t)
    ensures var z := After(y, events);
            && Mounted(z, t)
            && (z.phase.Serving? ==> own(t).handle in z.s.holds && z.s.holds[own(t).handle].target == t)
    decreases |events|
  {
    if events == [] {
      assert AckOk(y, own, t);
    } else {
      EventKeeps(y, own, events[0]);
      EventExcludes(y, own, events[0]);
      EventKeepsAck(y, own, events[0], t);
      AcknowledgedUntilUnpublished(Next(y, events[0]), events[1..], own, t);
    }
  }
}
