/** Hold files against memory, over whole runs: every hold is on file, and no file is without its
    hold. */
module Records {
  import opened States
  import opened Calls
  import opened Restart
  import opened Systems
  import opened Safety

  predicate Writing(pc: Pc) { pc.MakingHolds? || pc.OpeningRecord? || pc.WritingRecord? }

  /** Hold files get written. */
  predicate Written(y: System, e: Event) {
    e.Advance? && e.handle in y.pool && Writing(y.pool[e.handle].pc) ==> e.outcome.Works?
  }

  /** Files of dropped holds get removed, and a restart finds the ones there are. */
  predicate Tidying(y: System, e: Event) {
    match e
    case Advance(h, o) => h in y.pool && y.pool[h].pc.RemovingRecord? ==> o.Works?
    case Boot(listing) => listing.Some?
    case Recover(luck) => luck.remove.Works?
    case _ => true
  }

  ghost predicate IsOrderlyRun(y: System, events: seq<Event>, own: Kubelet)
    decreases |events|
  {
    events != [] ==>
      && Enabled(y, events[0], own) && Written(y, events[0]) && Tidying(y, events[0])
      && IsOrderlyRun(Next(y, events[0]), events[1..], own)
  }

  /** Memory and disk agree about a hold, but for a publish that is writing it down. */
  predicate Recorded(y: System, h: Handle) {
    h in y.s.holds ==>
      || (h in y.s.disk.records && y.s.disk.records[h] == Readable(y.s.holds[h]))
      || (h in y.pool && Writing(y.pool[h].pc))
  }

  /** Every file in the holds directory belongs to a hold, or is about to go. */
  predicate NoStray(y: System, h: Handle) {
    h in y.s.disk.records && h !in y.s.holds ==>
      match y.phase
      case Serving => h in y.pool && y.pool[h].pc.RemovingRecord? && y.pool[h].call.Unpublish?
      case Resuming(todo) => h in todo
      case Down => true
  }

  ghost predicate AllRecorded(y: System) { forall h: Handle :: Recorded(y, h) }

  ghost predicate NoStrays(y: System) { forall h: Handle :: NoStray(y, h) }

  /** The claim and the file of the stepping call's own handle. */
  lemma StepRecords(y: System, own: Kubelet, h: Handle, o: Outcome)
    requires h in y.pool && HandleOk(y, own, h) && Recorded(y, h) && Written(y, Advance(h, o))
    ensures Recorded(AfterStep(y, h, o), h)
  {
    var c, pc := y.pool[h].call, y.pool[h].pc;
    if c.Publish? {
      if !pc.KeepingMemory? && !Writing(pc) {
        StepLeavesRecords(y.s, c, pc, o);
        PublishHoldsStay(y.s, c, pc, o);
      }
    } else if !pc.DroppingMemory? && !pc.RemovingRecord? {
      StepLeavesRecords(y.s, c, pc, o);
    }
  }

  lemma EventRecords(y: System, own: Kubelet, e: Event)
    requires Inv(y, own) && AllRecorded(y) && Enabled(y, e, own) && Written(y, e)
    ensures AllRecorded(Next(y, e))
  {
    var z := Next(y, e);
    forall g: Handle ensures Recorded(z, g) {
      assert Recorded(y, g) && HandleOk(y, own, g);
      if e.Advance? {
        if g == e.handle {
          StepRecords(y, own, g, e.outcome);
        } else {
          StepIsElsewhere(y, own, e.handle, e.outcome, g);
        }
      } else if e.Recover? && g != y.phase.todo[0] {
        EntryFrame(y.s, y.phase.todo[0], e.luck, g);
      }
    }
  }

  /** A step leaves the claim, the file and the call of another volume alone. */
  lemma StepIsElsewhere(y: System, own: Kubelet, h: Handle, o: Outcome, g: Handle)
    requires Inv(y, own) && h in y.pool && g != h
    ensures SameHandle(AfterStep(y, h, o).s, y.s, g) && SameKey(AfterStep(y, h, o).pool, y.pool, g)
  {
    assert HandleOk(y, own, h);
    StepFrame(y.s, y.pool[h].call, y.pool[h].pc, o, g, y.pool[h].call.target);
  }

  lemma StepLeavesNoStray(y: System, own: Kubelet, h: Handle, o: Outcome)
    requires h in y.pool && HandleOk(y, own, h) && y.phase.Serving? && NoStray(y, h) && Tidying(y, Advance(h, o))
    ensures NoStray(AfterStep(y, h, o), h)
  {
    var c, pc := y.pool[h].call, y.pool[h].pc;
    if c.Publish? {
      if Writing(pc) {
        assert h in AfterStep(y, h, o).s.holds;
      } else {
        StepLeavesRecords(y.s, c, pc, o);
        if !pc.KeepingMemory? { PublishHoldsStay(y.s, c, pc, o); }
      }
    } else if !pc.RemovingRecord? {
      StepLeavesRecords(y.s, c, pc, o);
    }
  }

  lemma EventLeavesNoStray(y: System, own: Kubelet, e: Event)
    requires Inv(y, own) && NoStrays(y) && Enabled(y, e, own) && Tidying(y, e)
    ensures NoStrays(Next(y, e))
  {
    var z := Next(y, e);
    forall g: Handle ensures NoStray(z, g) {
      assert NoStray(y, g) && HandleOk(y, own, g);
      if e.Advance? {
        if g == e.handle {
          StepLeavesNoStray(y, own, g, e.outcome);
        } else {
          StepIsElsewhere(y, own, e.handle, e.outcome, g);
        }
      } else if e.Recover? && g != y.phase.todo[0] {
        EntryFrame(y.s, y.phase.todo[0], e.luck, g);
      }
    }
  }

  lemma {:induction false} OrderlyRunKeeps(y: System, events: seq<Event>, own: Kubelet)
    requires Inv(y, own) && AllRecorded(y) && NoStrays(y) && IsOrderlyRun(y, events, own)
    ensures IsRun(y, events, own)
    ensures var z := After(y, events); Inv(z, own) && AllRecorded(z) && NoStrays(z)
    decreases |events|
  {
    if events != [] {
      EventKeeps(y, own, events[0]);
      EventRecords(y, own, events[0]);
      EventLeavesNoStray(y, own, events[0]);
      OrderlyRunKeeps(Next(y, events[0]), events[1..], own);
    }
  }
}
