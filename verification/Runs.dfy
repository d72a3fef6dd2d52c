/** The pieces put together: the step programs are runs of the whole system, the system's quiet
    states are those that crash recovery needs, and so retries converge in every such run. */
module Runs {
  import opened Wrappers
  import opened States
  import opened Calls
  import opened Restart
  import opened Convergence
  import opened Systems
  import opened Histories
  import opened Safety
  import opened Records
  import opened SweepSafety
  import opened LiveCopies
  import opened Endurance

  /** A call, a crash partway, and a good recovery, as events. */
  function CrashedCall(c: Call, outcomes: seq<Outcome>, entries: seq<Handle>): seq<Event> {
    [Begin(c)] + Advances(c.handle, outcomes) + DieAndResume(Some(entries), _ => GOOD)
  }

  /** These are a run of the system, and it leaves what Restarted says the crashed step program
      leaves. */
  lemma CrashedCallIsARun(y: System, c: Call, outcomes: seq<Outcome>, entries: seq<Handle>, own: Kubelet)
    requires y.phase.Serving? && c.handle !in y.pool && Conforms(c, own)
    requires IsListing(entries, Partway(y.s, c, First(c), outcomes).state.disk.records)
    ensures IsRun(y, CrashedCall(c, outcomes, entries), own)
    ensures After(y, CrashedCall(c, outcomes, entries)).s == Restarted(Partway(y.s, c, First(c), outcomes).state)
  {
    var luck := (_: Handle) => GOOD;
    var y0 := Next(y, Begin(c));
    OneEvent(y, Begin(c), own);
    AdvancesArePartway(y0, c.handle, outcomes, own);
    var call := [Begin(c)] + Advances(c.handle, outcomes);
    Joined(y, [Begin(c)], Advances(c.handle, outcomes), own);
    var y1 := After(y, call);
    DiesAndResumes(y1, Some(entries), luck, own);
    Joined(y, call, DieAndResume(Some(entries), luck), own);
    ResumeRestarts(y1.s, entries);
  }

  /** Serving, nothing in flight, and no unpublish left half done. */
  predicate Quiet(y: System) {
    y.phase.Serving? && y.pool == map[] && y.half == {}
  }

  /** At the quiet moments of every orderly run, memory and disk agree, every hold is mounted, every
      target is in order, and no two volumes' holds share one. */
  lemma QuietStatesAgree(y: System, events: seq<Event>, own: Kubelet)
    requires Fresh(y) && IsOrderlyRun(y, events, own) && Quiet(After(y, events))
    ensures var s := After(y, events).s;
            && Agreed(s)
            && (forall t: Path :: Tidy(s, t))
            && (forall c | Conforms(c, own) :: Alone(s, c))
  {
    FreshIsSafe(y, own);
    OrderlyRunKeeps(y, events, own);
    var z := After(y, events);
    forall h: Handle
      ensures h in z.s.holds <==> h in z.s.disk.records
      ensures h in z.s.holds ==>
                z.s.disk.records[h] == Readable(z.s.holds[h]) && Stack(z.s.kernel, z.s.holds[h].target) != [] &&
                own(z.s.holds[h].target).handle == h
    {
      assert HandleOk(z, own, h) && Recorded(z, h) && NoStray(z, h);
    }
    forall t: Path ensures Tidy(z.s, t) { assert TargetOk(z.s, own, t); }
  }

  /** Crash and retry in runs: at any quiet moment of an orderly run, begin any publish the kubelet
      may make, let any of its steps fail, and kill the process after any of them. The recovery
      and the same request with nothing failing end where the request alone would have. */
  lemma RetriedPublishConverges(y: System, events: seq<Event>, own: Kubelet, c: Call, outcomes: seq<Outcome>,
                                entries: seq<Handle>)
    requires Fresh(y) && IsOrderlyRun(y, events, own) && Quiet(After(y, events))
    requires c.Publish? && Conforms(c, own)
    requires IsListing(entries, Partway(After(y, events).s, c, First(c), outcomes).state.disk.records)
    ensures IsRun(y, events + CrashedCall(c, outcomes, entries), own)
    ensures Perform(After(y, events + CrashedCall(c, outcomes, entries)).s, c, ALL_WORK)
         == Perform(After(y, events).s, c, ALL_WORK)
  {
    QuietStatesAgree(y, events, own);
    var z := After(y, events);
    FreshIsSafe(y, own);
    OrderlyRunKeeps(y, events, own);
    CrashedCallIsARun(z, c, outcomes, entries, own);
    Joined(y, events, CrashedCall(c, outcomes, entries), own);
    assert Tidy(z.s, c.target);
    PublishConverges(z.s, c, outcomes);
  }

  // ---- what one pod writes the next one reads ----

  /** A pod writes through a writable bind of the live copy. However the run goes on, as long as
      the volume exists and none of its own pods writes, a later publish that is acknowledged,
      from no standing claim, shows whoever asked a copy that holds exactly that. */
  lemma NextPodReadsWhatWasWritten(
      y: System, own: Kubelet, t: Path, h: Handle, content: Content, events: seq<Event>, c: Call, o: Oracle)
    requires Inv(y, own) && Shows(y.s, t, h, false)
    requires h in y.volumes && (!y.pass.Idle? ==> h in y.pass.named)
    requires IsSparingRun(Next(y, PodWrites(t, content)), events, own, h)
    requires c.Publish? && c.handle == h
    ensures var z := After(Next(y, PodWrites(t, content)), events);
            var e := Perform(z.s, c, o);
            e.reply == Success && !Standing(z.s, c) ==>
              Shows(e.state, c.target, h, c.readOnly)
              && e.state.disk.copies[h] == Copy(y.s.disk.copies[h].generation, content)
  {
    var written := Next(y, PodWrites(t, content));
    WritesReachTheCopy(y, t, h, content);
    EventKeeps(y, own, PodWrites(t, content));
    DataSurvives(written, events, own, h, Copy(y.s.disk.copies[h].generation, content));
    var z := After(written, events);
    assert TargetOk(z.s, own, c.target);
    if Perform(z.s, c, o).reply == Success && !Standing(z.s, c) { AcknowledgedIsMounted(z.s, c, o); }
    CallKeepsCopy(z.s, c, First(c), o, h);
  }

  lemma {:induction false} CallKeepsCopy(s: State, c: Call, pc: Pc, o: Oracle, h: Handle)
    requires h in s.disk.copies
    ensures h in Complete(s, c, pc, o).state.disk.copies
    ensures Complete(s, c, pc, o).state.disk.copies[h] == s.disk.copies[h]
    decreases Rank(pc)
  {
    if !pc.Finished? {
      StepKeepsCopy(s, c, pc, o(pc), h);
      var p := Step(s, c, pc, o(pc));
      CallKeepsCopy(p.state, c, p.pc, o, h);
    }
  }

  /** The same inside runs, where calls overlap: from the write on, at every moment of every kind
      run, whoever holds the volume at a mounted target is shown exactly what was written. */
  lemma HoldersReadWhatWasWritten(
      y: System, before: seq<Event>, own: Kubelet, t: Path, h: Handle, content: Content, events: seq<Event>)
    requires Fresh(y) && IsKindRun(y, before + ([PodWrites(t, content)] + events), own)
    requires Shows(After(y, before).s, t, h, false)
    requires var m := After(y, before); h in m.volumes && (!m.pass.Idle? ==> h in m.pass.named)
    requires IsSparingRun(Next(After(y, before), PodWrites(t, content)), events, own, h)
    ensures var z := After(y, before + ([PodWrites(t, content)] + events));
            h in z.s.holds && Mounted(z, z.s.holds[h].target) ==>
              && (exists ro :: Shows(z.s, z.s.holds[h].target, h, ro))
              && z.s.disk.copies[h].content == content
  {
    var e := PodWrites(t, content);
    var all := before + ([e] + events);
    var m, z := After(y, before), After(y, all);
    HoldsShowTheLiveCopy(y, all, own);
    FreshIsInOrder(y, own);
    RunStaysInOrder(y, all, own);
    RunAppend(y, before, [e] + events, own);
    AfterAppend(y, before, [e] + events);
    FreshIsSafe(y, own);
    RunKeeps(y, before, own);
    assert ([e] + events)[1..] == events;
    WritesReachTheCopy(m, t, h, content);
    EventKeeps(m, own, e);
    DataSurvives(Next(m, e), events, own, h, Copy(m.s.disk.copies[h].generation, content));
  }
}
