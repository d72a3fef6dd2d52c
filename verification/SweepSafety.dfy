/** The sweep beside the calls: when it takes a copy from under a hold. */
module SweepSafety {
  import opened States
  import opened Calls
  import opened Restart
  import opened Systems
  import opened Safety

  predicate Publishing(y: System, h: Handle) { h in y.pool && y.pool[h].call.Publish? }

  /** What a pass may take once it has looked at the holds: copies of handles neither named nor
      held then. */
  predicate Doomed(y: System, h: Handle) {
    (y.pass.Snapped? || y.pass.Removing?) && h !in y.pass.named && h !in y.pass.held
  }

  /** A pass is about to take, or may take, the copy of a held volume. */
  predicate AtRisk(y: System, h: Handle) { h in y.s.holds && Doomed(y, h) }

  /** A publish takes its hold after the pass has looked past the volume. */
  predicate HoldsLate(y: System, e: Event, h: Handle) {
    && e.Advance? && e.handle == h && h in y.pool
    && y.pool[h].call.Publish? && y.pool[h].pc.KeepingMemory? && Doomed(y, h)
  }

  predicate EverAtRisk(y: System, events: seq<Event>, h: Handle)
    decreases |events|
  {
    AtRisk(y, h) || (events != [] && EverAtRisk(Next(y, events[0]), events[1..], h))
  }

  predicate EverLate(y: System, events: seq<Event>, h: Handle)
    decreases |events|
  {
    events != [] && (HoldsLate(y, events[0], h) || EverLate(Next(y, events[0]), events[1..], h))
  }

  lemma UnpublishAddsNoHold(s: State, c: Call, pc: Pc, o: Outcome)
    requires c.Unpublish?
    ensures Step(s, c, pc, o).state.holds.Keys <= s.holds.Keys
  {
  }

  /** A step makes a hold only where a publish keeps it in memory. */
  lemma StepAddsHold(y: System, own: Kubelet, h: Handle, o: Outcome, g: Handle)
    requires h in y.pool && HandleOk(y, own, h)
    ensures g in AfterStep(y, h, o).s.holds && g !in y.s.holds ==>
              g == h && y.pool[h].call.Publish? && y.pool[h].pc.KeepingMemory?
    ensures h == g && y.pool[h].call.Publish? && y.pool[h].pc.KeepingMemory? ==> g in AfterStep(y, h, o).s.holds
  {
    var c, pc := y.pool[h].call, y.pool[h].pc;
    StepFrame(y.s, c, pc, o, g, c.target);
    if c.Unpublish? {
      UnpublishAddsNoHold(y.s, c, pc, o);
    } else if !pc.KeepingMemory? {
      PublishHoldsStay(y.s, c, pc, o);
    }
  }

  lemma EventRisks(y: System, own: Kubelet, e: Event, h: Handle)
    requires Inv(y, own) && Enabled(y, e, own) && !AtRisk(y, h)
    ensures AtRisk(Next(y, e), h) <==> HoldsLate(y, e, h)
  {
    if e.Advance? {
      assert HandleOk(y, own, e.handle);
      StepAddsHold(y, own, e.handle, e.outcome, h);
    }
  }

  /** Exactly when a sweep is unsafe: over every run, whatever fails and with no rely condition,
      a pass comes to have a held volume's copy before it if and only if a publish takes its hold
      after that pass has looked at the holds and past the volume. */
  lemma {:induction false} AtRiskExactly(y: System, events: seq<Event>, own: Kubelet, h: Handle)
    requires Inv(y, own) && !AtRisk(y, h) && IsRun(y, events, own)
    ensures EverAtRisk(y, events, h) <==> EverLate(y, events, h)
    decreases |events|
  {
    if events != [] {
      EventRisks(y, own, events[0], h);
      EventKeeps(y, own, events[0]);
      if !AtRisk(Next(y, events[0]), h) { AtRiskExactly(Next(y, events[0]), events[1..], own, h); }
    }
  }

  /** And of all events the one that takes a held volume's copy is a removal by a pass it is at
      risk of. */
  lemma HeldCopyTakenExactly(y: System, own: Kubelet, e: Event, h: Handle)
    requires Inv(y, own) && Enabled(y, e, own) && h in y.s.holds && h in y.s.disk.copies
    ensures h !in Next(y, e).s.disk.copies <==>
              e == SweepNext(Removes) && y.pass.todo[0] == h && AtRisk(y, h)
  {
    match e
    case Advance(g, o) => StepKeepsCopy(y.s, y.pool[g].call, y.pool[g].pc, o, h);
    case Recover(luck) => EntryKeepsDirectories(y.s, y.phase.todo[0], luck);
    case _ =>
  }

  lemma StepKeepsCopy(s: State, c: Call, pc: Pc, o: Outcome, h: Handle)
    requires h in s.disk.copies
    ensures h in Step(s, c, pc, o).state.disk.copies
    ensures Step(s, c, pc, o).state.disk.copies[h] == s.disk.copies[h]
  {
    if h != c.handle { StepFrame(s, c, pc, o, h, c.target); }
  }

  // ---- a rely condition that keeps every volume out of it ----

  /** The rely condition of a pass: no publish of a volume it does not name is in flight while
      it runs. */
  ghost predicate Polite(y: System, e: Event) {
    match e
    case Begin(c) => c.Publish? && !y.pass.Idle? ==> c.handle in y.pass.named
    case ListVolumes => forall h | Publishing(y, h) :: h in y.volumes
    case _ => true
  }

  /** A pass names every volume being published, and knows of every hold once it has looked. */
  predicate Spared(y: System, h: Handle) {
    && (!y.pass.Idle? && Publishing(y, h) ==> h in y.pass.named)
    && !AtRisk(y, h)
  }

  ghost predicate Sparing(y: System) { forall h: Handle :: Spared(y, h) }

  lemma EventSpares(y: System, own: Kubelet, e: Event)
    requires Inv(y, own) && Sparing(y) && Enabled(y, e, own) && Polite(y, e)
    ensures Sparing(Next(y, e))
  {
    forall g: Handle ensures Spared(Next(y, e), g) {
      assert Spared(y, g);
      EventRisks(y, own, e, g);
    }
  }

  ghost predicate IsPoliteRun(y: System, events: seq<Event>, own: Kubelet)
    decreases |events|
  {
    events != [] ==>
      Enabled(y, events[0], own) && Polite(y, events[0]) && IsPoliteRun(Next(y, events[0]), events[1..], own)
  }

  lemma {:induction false} RunSpares(y: System, events: seq<Event>, own: Kubelet)
    requires Inv(y, own) && Sparing(y) && IsPoliteRun(y, events, own)
    ensures Inv(After(y, events), own) && Sparing(After(y, events))
    decreases |events|
  {
    if events != [] {
      EventKeeps(y, own, events[0]);
      EventSpares(y, own, events[0]);
      RunSpares(Next(y, events[0]), events[1..], own);
    }
  }

  /** Sweep safety: at every moment of every polite run, whatever fails, no copy the current
      pass may still take belongs to a volume that is held, or is being published. */
  lemma SweepSparesHeld(y: System, events: seq<Event>, own: Kubelet)
    requires Fresh(y) && IsPoliteRun(y, events, own)
    ensures var z := After(y, events);
            forall h | Doomed(z, h) :: h !in z.s.holds && !Publishing(z, h)
  {
    FreshIsSafe(y, own);
    RunSpares(y, events, own);
    var z := After(y, events);
    forall h | Doomed(z, h) ensures h !in z.s.holds && !Publishing(z, h) { assert Spared(z, h); }
  }
}
