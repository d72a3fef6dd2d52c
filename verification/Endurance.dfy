/** What stays: a hold until one of three things ends it, and a volume's data until the volume
    is gone. */
module Endurance {
  import opened Wrappers
  import opened States
  import opened Calls
  import opened Restart
  import opened Systems
  import opened Safety
  import opened SweepSafety

  // ---- holds ----

  /** The only calls that can end a claim: an unpublish of its target, and a publish by the same
      pod at another target. */
  predicate Threatens(c: Call, h: Handle, d: Hold) {
    && c.handle == h
    && if c.Unpublish? then c.target == d.target else c.pod.uid == d.pod.uid && c.target != d.target
  }

  predicate Stands(y: System, h: Handle, d: Hold) {
    && y.phase.Serving? && h in y.s.holds && y.s.holds[h] == d
    && (h in y.pool ==> !Threatens(y.pool[h].call, h, d))
  }

  predicate Harmless(e: Event, h: Handle, d: Hold) {
    !e.Die? && (e.Begin? ==> !Threatens(e.call, h, d))
  }

  lemma HarmlessStepKeepsHold(y: System, own: Kubelet, g: Handle, o: Outcome, h: Handle, d: Hold)
    requires g in y.pool && HandleOk(y, own, g) && Stands(y, h, d)
    ensures Stands(AfterStep(y, g, o), h, d)
  {
    var c, pc := y.pool[g].call, y.pool[g].pc;
    if g != h {
      StepFrame(y.s, c, pc, o, h, c.target);
    } else if c.Publish? {
      if !pc.KeepingMemory? { PublishHoldsStay(y.s, c, pc, o); }
    } else {
      assert y.s.holds[h].target != c.target;
    }
  }

  lemma HarmlessEventKeepsHold(y: System, own: Kubelet, e: Event, h: Handle, d: Hold)
    requires Inv(y, own) && Enabled(y, e, own) && Stands(y, h, d) && Harmless(e, h, d)
    ensures Stands(Next(y, e), h, d)
  {
    if e.Advance? {
      assert HandleOk(y, own, e.handle);
      HarmlessStepKeepsHold(y, own, e.handle, e.outcome, h, d);
    }
  }

  /** A claim stands, to the letter, through every run in which the process lives and nobody
      unpublishes its target or moves it to another: any number of refused publishes by other
      pods, their unpublishes at their own targets, failures and sweeps leave it alone. */
  lemma {:induction false} HoldStands(y: System, events: seq<Event>, own: Kubelet, h: Handle, d: Hold)
    requires Inv(y, own) && IsRun(y, events, own) && Stands(y, h, d)
    requires forall e | e in events :: Harmless(e, h, d)
    ensures Stands(After(y, events), h, d)
    decreases |events|
  {
    if events != [] {
      HarmlessEventKeepsHold(y, own, events[0], h, d);
      EventKeeps(y, own, events[0]);
      HoldStands(Next(y, events[0]), events[1..], own, h, d);
    }
  }

  /** The events of a recovery that meets the entries in this order. */
  function Recoveries(entries: seq<Handle>, luck: Handle -> Luck): seq<Event> {
    seq(|entries|, i requires 0 <= i < |entries| => Recover(luck(entries[i])))
  }

  lemma {:induction false} RecoveriesResume(y: System, entries: seq<Handle>, luck: Handle -> Luck, own: Kubelet)
    requires y.phase == Resuming(entries)
    ensures IsRun(y, Recoveries(entries, luck), own)
    ensures After(y, Recoveries(entries, luck)) ==
              y.(s := ResumeEach(y.s, entries, luck), phase := Resuming([]))
    decreases |entries|
  {
    if entries != [] {
      var events := Recoveries(entries, luck);
      assert events[0] == Recover(luck(entries[0])) && events[1..] == Recoveries(entries[1..], luck);
      RecoveriesResume(Next(y, events[0]), entries[1..], luck, own);
    }
  }

  /** A crash, a new process, and its recovery, as events: nothing to recover if the holds
      directory cannot be listed. */
  function DieAndResume(listing: Option<seq<Handle>>, luck: Handle -> Luck): seq<Event> {
    [Die, Boot(listing)] + Recoveries(if listing.Some? then listing.value else [], luck)
  }

  lemma DiesAndResumes(y: System, listing: Option<seq<Handle>>, luck: Handle -> Luck, own: Kubelet)
    requires !y.phase.Down? && (listing.Some? ==> IsListing(listing.value, y.s.disk.records))
    ensures IsRun(y, DieAndResume(listing, luck), own)
    ensures After(y, DieAndResume(listing, luck)) ==
              y.(s := Resumed(y.s, listing, luck), pool := map[], pass := Idle, half := {}, phase := Resuming([]))
  {
    var entries := if listing.Some? then listing.value else [];
    OneEvent(y, Die, own);
    OneMore(y, [Die], Boot(listing), own);
    assert [Die] + [Boot(listing)] == [Die, Boot(listing)];
    var z := After(y, [Die, Boot(listing)]);
    RecoveriesResume(z, entries, luck, own);
    Joined(y, [Die, Boot(listing)], Recoveries(entries, luck), own);
  }

  /** A crash and the recovery after it: a claim is there again exactly when the directory could
      be listed, its file could be read and names it, and its target is still mounted; the file
      stays exactly when it was not listed, is held, or could not be removed. */
  lemma HoldThroughRestart(
      y: System, listing: Option<seq<Handle>>, luck: Handle -> Luck, own: Kubelet, h: Handle, d: Hold)
    requires !y.phase.Down? && (listing.Some? ==> IsListing(listing.value, y.s.disk.records))
    ensures IsRun(y, DieAndResume(listing, luck), own)
    ensures var z := After(y, DieAndResume(listing, luck));
            && z.phase == Resuming([])
            && (h in z.s.holds && z.s.holds[h] == d <==>
                  && listing.Some? && luck(h).read.Works? && luck(h).table.Works?
                  && h in y.s.disk.records && y.s.disk.records[h] == Readable(d)
                  && Stack(y.s.kernel, d.target) != [])
            && (h in z.s.disk.records <==>
                  h in y.s.disk.records && (listing.None? || h in z.s.holds || luck(h).remove.Fails?))
            && (h in z.s.disk.records ==> z.s.disk.records[h] == y.s.disk.records[h])
  {
    DiesAndResumes(y, listing, luck, own);
    if listing.Some? { ResumeIsExact(Crash(y.s), listing.value, luck, h); }
  }

  // ---- data ----

  /** The volume exists, its copy has this directory and these files, and no pass is under way
      that began without it. */
  predicate Kept(y: System, h: Handle, copy: Copy) {
    && h in y.s.disk.copies && y.s.disk.copies[h] == copy
    && h in y.volumes && (!y.pass.Idle? ==> h in y.pass.named)
  }

  /** The volume is not deleted, and none of its own pods writes but through a read-only bind. */
  predicate Spares(y: System, e: Event, h: Handle, own: Kubelet) {
    && (e.DeleteVolume? ==> e.handle != h)
    && (e.PodWrites? && own(e.target).handle == h ==> !Writable(y.s.kernel, e.target))
  }

  ghost predicate IsSparingRun(y: System, events: seq<Event>, own: Kubelet, h: Handle)
    decreases |events|
  {
    events != [] ==>
      && Enabled(y, events[0], own) && Spares(y, events[0], h, own)
      && IsSparingRun(Next(y, events[0]), events[1..], own, h)
  }

  lemma EventKeepsCopy(y: System, own: Kubelet, e: Event, h: Handle, copy: Copy)
    requires Inv(y, own) && Enabled(y, e, own) && Kept(y, h, copy) && Spares(y, e, h, own)
    ensures Kept(Next(y, e), h, copy)
  {
    match e
    case Advance(g, o) => StepKeepsCopy(y.s, y.pool[g].call, y.pool[g].pc, o, h);
    case Recover(luck) => EntryKeepsDirectories(y.s, y.phase.todo[0], luck);
    case PodWrites(t, content) => assert TargetOk(y.s, own, t);
    case _ =>
  }

  /** A copy outlives its pods: as long as its volume exists, every run of publishes, unpublishes,
      failures, crashes, recoveries and sweeps, with its own pods writing at read-only targets and
      other volumes' pods writing what they like, leaves the same directory with the same files. */
  lemma {:induction false} DataSurvives(y: System, events: seq<Event>, own: Kubelet, h: Handle, copy: Copy)
    requires Inv(y, own) && IsSparingRun(y, events, own, h) && Kept(y, h, copy)
    ensures Inv(After(y, events), own) && Kept(After(y, events), h, copy)
    decreases |events|
  {
    if events != [] {
      EventKeepsCopy(y, own, events[0], h, copy);
      EventKeeps(y, own, events[0]);
      DataSurvives(Next(y, events[0]), events[1..], own, h, copy);
    }
  }

  /** What a pod with a writable bind of the live copy writes is what the copy then holds. */
  lemma WritesReachTheCopy(y: System, t: Path, h: Handle, content: Content)
    requires Shows(y.s, t, h, false)
    ensures Next(y, PodWrites(t, content)).s.disk.copies[h] == Copy(y.s.disk.copies[h].generation, content)
    ensures forall g | g in y.s.disk.copies && g != h ::
              Next(y, PodWrites(t, content)).s.disk.copies[g] == y.s.disk.copies[g]
    ensures Shows(Next(y, PodWrites(t, content)).s, t, h, false)
  {
  }
}
