/** What a volume's pods see is the volume's one copy. */
module LiveCopies {
  import opened States
  import opened Calls
  import opened Restart
  import opened Systems
  import opened Safety
  import opened Records
  import opened SweepSafety

  /** Hold files get written and removed, and passes are polite. */
  ghost predicate Kind(y: System, e: Event, own: Kubelet) {
    Enabled(y, e, own) && Written(y, e) && Tidying(y, e) && Polite(y, e)
  }

  ghost predicate IsKindRun(y: System, events: seq<Event>, own: Kubelet)
    decreases |events|
  {
    events != [] ==> Kind(y, events[0], own) && IsKindRun(Next(y, events[0]), events[1..], own)
  }

  /** If the target is mounted it shows the copy that is in the store now. */
  predicate Live(s: State, h: Handle, t: Path) {
    Stack(s.kernel, t) != [] ==>
      h in s.disk.copies && Stack(s.kernel, t)[0].generation == s.disk.copies[h].generation
  }

  predicate LiveRecord(y: System, h: Handle) {
    h in y.s.disk.records && y.s.disk.records[h].Readable? ==> Live(y.s, h, y.s.disk.records[h].hold.target)
  }

  predicate LiveHold(y: System, h: Handle) {
    h in y.s.holds ==> Live(y.s, h, y.s.holds[h].target)
  }

  /** A file on its way out names a target that is not mounted. */
  predicate Outgoing(y: System, h: Handle) {
    h in y.pool && y.pool[h].pc.RemovingRecord? && h in y.s.disk.records && y.s.disk.records[h].Readable? ==>
      Stack(y.s.kernel, y.s.disk.records[h].hold.target) == []
  }

  /** What a publish has bound is live. */
  predicate LiveThread(y: System, h: Handle) {
    Publishing(y, h) && (y.pool[h].pc.Remounting? || y.pool[h].pc.KeepingMemory?) ==>
      Live(y.s, h, y.pool[h].call.target)
  }

  predicate CopyOk(y: System, h: Handle) {
    LiveRecord(y, h) && LiveHold(y, h) && Outgoing(y, h) && LiveThread(y, h)
  }

  ghost predicate AllLive(y: System) { forall h: Handle :: CopyOk(y, h) }

  lemma FreshIsLive(y: System)
    requires Fresh(y)
    ensures AllLive(y)
  {
  }

  /** No step makes a target of the stepping call's own volume show a copy that is not there. */
  lemma StepStaysLive(y: System, own: Kubelet, h: Handle, o: Outcome, t: Path)
    requires h in y.pool && HandleOk(y, own, h) && TargetOk(y.s, own, y.pool[h].call.target) && Live(y.s, h, t)
    ensures Live(AfterStep(y, h, o).s, h, t)
  {
    var c, pc := y.pool[h].call, y.pool[h].pc;
    if t != c.target {
      StepFrame(y.s, c, pc, o, h, t);
      if h in y.s.disk.copies { StepKeepsCopy(y.s, c, pc, o, h); }
    } else if c.Publish? {
      PublishStaysLive(y.s, c, pc, o);
    } else if pc.Unmounting? {
      UnmountKeeps(y.s, own, t, o);
    }
  }

  lemma PublishStaysLive(s: State, c: Call, pc: Pc, o: Outcome)
    requires c.Publish? && At(s, c, pc) && |Stack(s.kernel, c.target)| <= 1 && Live(s, c.handle, c.target)
    ensures Live(Step(s, c, pc, o).state, c.handle, c.target)
  {
    var h, binds := c.handle, Stack(s.kernel, c.target);
    match pc
    case MakingCopy =>
    case Detaching =>
      if binds != [] { assert Below(binds) == []; }
    case Binding =>
      if h in s.disk.copies { assert binds + [Bind(h, s.disk.copies[h].generation, false)] ==
                                     [Bind(h, s.disk.copies[h].generation, false)]; }
    case Remounting => assert ReadOnlyTop(binds) == [binds[0].(readOnly := true)];
    case Undoing =>
      if binds != [] { assert Below(binds) == []; }
    case _ =>
  }

  /** The bind a publish makes is live. */
  lemma BindIsLive(y: System, own: Kubelet, h: Handle, o: Outcome)
    requires Publishing(y, h) && HandleOk(y, own, h) && TargetOk(y.s, own, y.pool[h].call.target) && LiveThread(y, h)
    ensures LiveThread(AfterStep(y, h, o), h)
  {
    var c, pc := y.pool[h].call, y.pool[h].pc;
    if pc.Binding? {
      assert Stack(y.s.kernel, c.target) == [] && Live(y.s, h, c.target);
    }
    if pc.Binding? || pc.Remounting? { PublishStaysLive(y.s, c, pc, o); }
  }

  lemma PublishKeepsLive(y: System, own: Kubelet, h: Handle, o: Outcome)
    requires Publishing(y, h) && HandleOk(y, own, h) && TargetOk(y.s, own, y.pool[h].call.target)
    requires CopyOk(y, h)
    ensures CopyOk(AfterStep(y, h, o), h)
  {
    var c, pc := y.pool[h].call, y.pool[h].pc;
    BindIsLive(y, own, h, o);
    if pc.KeepingMemory? || Writing(pc) {
      HoldingKeepsLive(y, own, h, o);
    } else {
      StepLeavesRecords(y.s, c, pc, o);
      PublishHoldsStay(y.s, c, pc, o);
      if h in y.s.holds { StepStaysLive(y, own, h, o, y.s.holds[h].target); }
      if h in y.s.disk.records && y.s.disk.records[h].Readable? {
        StepStaysLive(y, own, h, o, y.s.disk.records[h].hold.target);
      }
    }
  }

  /** From the hold in memory to the hold on file. */
  lemma HoldingKeepsLive(y: System, own: Kubelet, h: Handle, o: Outcome)
    requires Publishing(y, h) && HandleOk(y, own, h) && CopyOk(y, h)
    requires y.pool[h].pc.KeepingMemory? || Writing(y.pool[h].pc)
    ensures LiveRecord(AfterStep(y, h, o), h) && LiveHold(AfterStep(y, h, o), h)
    ensures Outgoing(AfterStep(y, h, o), h)
  {
    var c, pc := y.pool[h].call, y.pool[h].pc;
    var p := Step(y.s, c, pc, o);
    assert p.state.kernel == y.s.kernel && p.state.disk.copies == y.s.disk.copies;
    match pc
    case KeepingMemory =>
    case MakingHolds =>
    case OpeningRecord =>
    case WritingRecord =>
  }

  lemma UnpublishKeepsLive(y: System, own: Kubelet, h: Handle, o: Outcome)
    requires h in y.pool && HandleOk(y, own, h) && TargetOk(y.s, own, y.pool[h].call.target)
    requires y.pool[h].call.Unpublish? && y.phase.Serving? && Recorded(y, h) && NoStray(y, h) && CopyOk(y, h)
    requires Tidying(y, Advance(h, o))
    ensures CopyOk(AfterStep(y, h, o), h)
  {
    var c, pc := y.pool[h].call, y.pool[h].pc;
    if pc.Unmounting? {
      if h in y.s.holds { StepStaysLive(y, own, h, o, y.s.holds[h].target); }
      if h in y.s.disk.records && y.s.disk.records[h].Readable? {
        StepStaysLive(y, own, h, o, y.s.disk.records[h].hold.target);
      }
    } else {
      UnpublishElseKeepsMounts(y.s, c, pc, o);
    }
  }

  lemma UnpublishElseKeepsMounts(s: State, c: Call, pc: Pc, o: Outcome)
    requires c.Unpublish? && !pc.Unmounting?
    ensures Step(s, c, pc, o).state.kernel.mounts == s.kernel.mounts
    ensures Step(s, c, pc, o).state.disk.copies == s.disk.copies
    ensures !pc.RemovingRecord? ==> Step(s, c, pc, o).state.disk.records == s.disk.records
    ensures !pc.DroppingMemory? ==> Step(s, c, pc, o).state.holds == s.holds
    ensures Step(s, c, pc, o).pc.RemovingRecord? ==> pc.DroppingMemory?
  {
  }

  /** The holds and files of other volumes, and what their calls have bound. */
  lemma OtherStaysLive(y: System, own: Kubelet, h: Handle, o: Outcome, g: Handle, t: Path)
    requires h in y.pool && g != h && HandleOk(y, own, h) && own(t).handle == g
    ensures SameHandle(AfterStep(y, h, o).s, y.s, g)
    ensures Live(y.s, g, t) <==> Live(AfterStep(y, h, o).s, g, t)
    ensures Stack(y.s.kernel, t) == Stack(AfterStep(y, h, o).s.kernel, t)
  {
    StepFrame(y.s, y.pool[h].call, y.pool[h].pc, o, g, t);
  }

  lemma OtherKeepsLive(y: System, own: Kubelet, h: Handle, o: Outcome, g: Handle)
    requires h in y.pool && g != h && HandleOk(y, own, h) && HandleOk(y, own, g) && CopyOk(y, g)
    ensures CopyOk(AfterStep(y, h, o), g)
  {
    StepFrame(y.s, y.pool[h].call, y.pool[h].pc, o, g, y.pool[h].call.target);
    if g in y.s.holds { OtherStaysLive(y, own, h, o, g, y.s.holds[g].target); }
    if g in y.s.disk.records && y.s.disk.records[g].Readable? {
      OtherStaysLive(y, own, h, o, g, y.s.disk.records[g].hold.target);
    }
    if g in y.pool { OtherStaysLive(y, own, h, o, g, y.pool[g].call.target); }
  }

  /** All that the events of a run keep. */
  ghost predicate InOrder(y: System, own: Kubelet) {
    Inv(y, own) && AllRecorded(y) && NoStrays(y) && Sparing(y) && AllLive(y)
  }

  lemma FreshIsInOrder(y: System, own: Kubelet)
    requires Fresh(y)
    ensures InOrder(y, own)
  {
    FreshIsSafe(y, own);
    FreshIsLive(y);
  }

  lemma AdvanceStaysLive(y: System, own: Kubelet, h: Handle, o: Outcome)
    requires InOrder(y, own) && h in y.pool && Kind(y, Advance(h, o), own)
    ensures AllLive(Next(y, Advance(h, o)))
  {
    var c := y.pool[h].call;
    assert HandleOk(y, own, h) && TargetOk(y.s, own, c.target) && CopyOk(y, h) && Recorded(y, h) && NoStray(y, h);
    forall g: Handle ensures CopyOk(AfterStep(y, h, o), g) {
      assert HandleOk(y, own, g) && CopyOk(y, g);
      if g != h {
        OtherKeepsLive(y, own, h, o, g);
      } else if c.Publish? {
        PublishKeepsLive(y, own, h, o);
      } else {
        UnpublishKeepsLive(y, own, h, o);
      }
    }
  }

  lemma SweepStaysLive(y: System, own: Kubelet, r: Removal)
    requires InOrder(y, own) && Enabled(y, SweepNext(r), own)
    ensures AllLive(Next(y, SweepNext(r)))
  {
    var z := Next(y, SweepNext(r));
    forall g: Handle ensures CopyOk(z, g) {
      assert CopyOk(y, g) && Spared(y, g) && HandleOk(y, own, g) && NoStray(y, g);
    }
  }

  lemma RecoverStaysLive(y: System, own: Kubelet, luck: Luck)
    requires Inv(y, own) && AllLive(y) && Kind(y, Recover(luck), own)
    ensures AllLive(Next(y, Recover(luck)))
  {
    var e, z := y.phase.todo[0], Next(y, Recover(luck));
    EntryKeepsDirectories(y.s, e, luck);
    forall g: Handle ensures CopyOk(z, g) {
      assert CopyOk(y, g);
      if g != e { EntryFrame(y.s, e, luck, g); }
    }
  }

  lemma WriteStaysLive(y: System, own: Kubelet, t: Path, content: Content)
    requires AllLive(y)
    ensures AllLive(Next(y, PodWrites(t, content)))
  {
    var z := Next(y, PodWrites(t, content));
    forall g: Handle ensures CopyOk(z, g) { assert CopyOk(y, g); }
  }

  lemma RestStaysLive(y: System, own: Kubelet, e: Event)
    requires Inv(y, own) && AllLive(y) && Kind(y, e, own)
    requires !e.Advance? && !e.SweepNext? && !e.Recover? && !e.PodWrites?
    ensures AllLive(Next(y, e))
  {
    var z := Next(y, e);
    forall g: Handle ensures CopyOk(z, g) { assert CopyOk(y, g); }
  }

  lemma EventStaysInOrder(y: System, own: Kubelet, e: Event)
    requires InOrder(y, own) && Kind(y, e, own)
    ensures InOrder(Next(y, e), own)
  {
    EventKeeps(y, own, e);
    EventRecords(y, own, e);
    EventLeavesNoStray(y, own, e);
    EventSpares(y, own, e);
    match e
    case Advance(h, o) => AdvanceStaysLive(y, own, h, o);
    case SweepNext(r) => SweepStaysLive(y, own, r);
    case Recover(luck) => RecoverStaysLive(y, own, luck);
    case PodWrites(t, content) => WriteStaysLive(y, own, t, content);
    case _ => RestStaysLive(y, own, e);
  }

  lemma {:induction false} RunStaysInOrder(y: System, events: seq<Event>, own: Kubelet)
    requires InOrder(y, own) && IsKindRun(y, events, own)
    ensures InOrder(After(y, events), own) && IsRun(y, events, own)
    decreases |events|
  {
    if events != [] {
      EventStaysInOrder(y, own, events[0]);
      RunStaysInOrder(Next(y, events[0]), events[1..], own);
    }
  }

  /** Over every kind run, whatever else fails: a held volume's target, when it is mounted,
      shows the copy that is in the store at this moment, and nothing else is mounted there. */
  lemma HoldsShowTheLiveCopy(y: System, events: seq<Event>, own: Kubelet)
    requires Fresh(y) && IsKindRun(y, events, own)
    ensures var z := After(y, events);
            forall h | h in z.s.holds && Mounted(z, z.s.holds[h].target) ::
              exists ro :: Shows(z.s, z.s.holds[h].target, h, ro)
  {
    FreshIsInOrder(y, own);
    RunStaysInOrder(y, events, own);
    var z := After(y, events);
    forall h | h in z.s.holds && Mounted(z, z.s.holds[h].target)
      ensures exists ro :: Shows(z.s, z.s.holds[h].target, h, ro)
    {
      var t := z.s.holds[h].target;
      assert CopyOk(z, h) && HandleOk(z, own, h) && TargetOk(z.s, own, t);
      var b := Stack(z.s.kernel, t)[0];
      assert Stack(z.s.kernel, t) == [Bind(h, z.s.disk.copies[h].generation, b.readOnly)];
      assert Shows(z.s, t, h, b.readOnly);
    }
  }
}
