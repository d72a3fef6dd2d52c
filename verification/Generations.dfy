/** Copies that come and go under one name: a bind made before a removal never shows a copy made
    after it. */
module Generations {
  import opened States
  import opened Calls
  import opened Restart
  import opened Systems
  import opened SweepSafety

  /** A copy carries the number of removals before it. */
  predicate CopyNumbered(s: State, h: Handle) {
    h in s.disk.copies ==> s.disk.copies[h].generation == Erased(s.disk, h)
  }

  /** A bind was made from a copy that is there or was removed. */
  predicate BindNumbered(s: State, b: Bind) {
    b.generation < Erased(s.disk, b.handle) || (b.handle in s.disk.copies && b.generation == Erased(s.disk, b.handle))
  }

  predicate StackNumbered(s: State, t: Path) {
    forall i | 0 <= i < |Stack(s.kernel, t)| :: BindNumbered(s, Stack(s.kernel, t)[i])
  }

  ghost predicate Numbered(s: State) {
    (forall h: Handle :: CopyNumbered(s, h)) && (forall t: Path :: StackNumbered(s, t))
  }

  lemma FreshIsNumbered(y: System)
    requires Fresh(y)
    ensures Numbered(y.s)
  {
  }

  lemma StepErases(s: State, c: Call, pc: Pc, o: Outcome, h: Handle)
    ensures Step(s, c, pc, o).state.disk.erased == s.disk.erased
    ensures h in s.disk.copies ==> h in Step(s, c, pc, o).state.disk.copies
  {
    if h in s.disk.copies { StepKeepsCopy(s, c, pc, o, h); }
  }

  lemma StepNumbersCopies(s: State, c: Call, pc: Pc, o: Outcome, h: Handle)
    requires CopyNumbered(s, h)
    ensures CopyNumbered(Step(s, c, pc, o).state, h)
  {
    StepErases(s, c, pc, o, h);
    if h in s.disk.copies {
      StepKeepsCopy(s, c, pc, o, h);
    } else if h != c.handle {
      StepFrame(s, c, pc, o, h, c.target);
    }
  }

  lemma StepNumbersStack(s: State, c: Call, pc: Pc, o: Outcome)
    requires Numbered(s)
    ensures StackNumbered(Step(s, c, pc, o).state, c.target)
  {
    var z := Step(s, c, pc, o).state;
    var binds := Stack(s.kernel, c.target);
    assert StackNumbered(s, c.target) && CopyNumbered(s, c.handle);
    forall i | 0 <= i < |binds| ensures BindNumbered(z, binds[i]) {
      assert BindNumbered(s, binds[i]);
      StepErases(s, c, pc, o, binds[i].handle);
    }
    match pc
    case Binding =>
    case Remounting =>
      if c.Publish? && binds != [] {
        var last := binds[|binds| - 1];
        assert BindNumbered(z, last) && BindNumbered(z, last.(readOnly := true));
      }
    case _ =>
  }

  lemma EventNumbers(y: System, own: Kubelet, e: Event)
    requires Numbered(y.s) && Enabled(y, e, own)
    ensures Numbered(Next(y, e).s)
    ensures forall h: Handle :: Erased(y.s.disk, h) <= Erased(Next(y, e).s.disk, h)
  {
    var z := Next(y, e);
    forall h: Handle ensures CopyNumbered(z.s, h) && Erased(y.s.disk, h) <= Erased(z.s.disk, h) {
      assert CopyNumbered(y.s, h);
      if e.Advance? {
        StepNumbersCopies(y.s, y.pool[e.handle].call, y.pool[e.handle].pc, e.outcome, h);
        StepErases(y.s, y.pool[e.handle].call, y.pool[e.handle].pc, e.outcome, h);
      }
    }
    forall t: Path ensures StackNumbered(z.s, t) {
      assert StackNumbered(y.s, t);
      if e.Advance? {
        AdvanceNumbers(y, e.handle, e.outcome, t);
      } else if e.SweepNext? {
        SweepNumbers(y, e.removal, t);
      } else if e.Recover? {
        EntryKeepsDirectories(y.s, y.phase.todo[0], e.luck);
        SameDirectories(y.s, z.s, t);
      } else {
        SameDirectories(y.s, z.s, t);
      }
    }
  }

  lemma AdvanceNumbers(y: System, h: Handle, o: Outcome, t: Path)
    requires Numbered(y.s) && h in y.pool
    ensures StackNumbered(AfterStep(y, h, o).s, t)
  {
    var c, pc := y.pool[h].call, y.pool[h].pc;
    assert StackNumbered(y.s, t);
    if t == c.target {
      StepNumbersStack(y.s, c, pc, o);
    } else {
      StepFrame(y.s, c, pc, o, h, t);
      var binds := Stack(y.s.kernel, t);
      forall i | 0 <= i < |binds| ensures BindNumbered(AfterStep(y, h, o).s, binds[i]) {
        StepErases(y.s, c, pc, o, binds[i].handle);
      }
    }
  }

  lemma SweepNumbers(y: System, r: Removal, t: Path)
    requires Numbered(y.s) && y.pass.Removing? && y.pass.todo != []
    ensures StackNumbered(AfterSweep(y, r).s, t)
  {
    var binds := Stack(y.s.kernel, t);
    assert StackNumbered(y.s, t);
    forall i | 0 <= i < |binds| ensures BindNumbered(AfterSweep(y, r).s, binds[i]) {
      assert BindNumbered(y.s, binds[i]);
    }
  }

  lemma SameDirectories(a: State, b: State, t: Path)
    requires StackNumbered(a, t) && Stack(b.kernel, t) == Stack(a.kernel, t)
    requires b.disk.erased == a.disk.erased && b.disk.copies.Keys == a.disk.copies.Keys
    ensures StackNumbered(b, t)
  {
    forall i | 0 <= i < |Stack(b.kernel, t)| ensures BindNumbered(b, Stack(b.kernel, t)[i]) {
      assert BindNumbered(a, Stack(a.kernel, t)[i]);
    }
  }

  lemma {:induction false} RunNumbers(y: System, events: seq<Event>, own: Kubelet)
    requires Numbered(y.s) && IsRun(y, events, own)
    ensures Numbered(After(y, events).s)
    ensures forall h: Handle :: Erased(y.s.disk, h) <= Erased(After(y, events).s.disk, h)
    decreases |events|
  {
    if events != [] {
      EventNumbers(y, own, events[0]);
      RunNumbers(Next(y, events[0]), events[1..], own);
    }
  }

  /** Over every run, whatever is removed and made again: where a bind is left from a copy that is
      gone, no later copy of the name is shown, and nothing written there reaches one. */
  lemma OldBindNeverShowsNewCopy(y: System, events: seq<Event>, own: Kubelet, t: Path, u: Path, b: Bind)
    requires Numbered(y.s) && IsRun(y, events, own)
    requires b in Stack(y.s.kernel, t) && b.handle !in y.s.disk.copies
    ensures var z := After(y, events);
            Stack(z.s.kernel, u) != [] && Stack(z.s.kernel, u)[|Stack(z.s.kernel, u)| - 1] == b ==>
              && !Shows(z.s, u, b.handle, b.readOnly)
              && forall content :: AfterWrite(z.s, u, content) == z.s
  {
    RunNumbers(y, events, own);
    var z := After(y, events);
    var binds := Stack(y.s.kernel, t);
    assert StackNumbered(y.s, t);
    var i :| 0 <= i < |binds| && binds[i] == b;
    assert BindNumbered(y.s, binds[i]);
    assert b.generation < Erased(z.s.disk, b.handle);
    assert CopyNumbered(z.s, b.handle);
  }
}
