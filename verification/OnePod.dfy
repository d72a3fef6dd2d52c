/** One pod per volume: what it takes beyond the driver. What happens without each part of the
    luck the exclusion results need, exactly when a second pod is refused, and exactly which
    assignments of targets to pods keep one pod per volume. */
module OnePod {
  import opened Wrappers
  import opened States
  import opened Calls
  import opened Restart
  import opened Convergence
  import opened Systems
  import opened Safety
  import opened Exclusion
  import opened Histories

  /** Two publishes of one volume by different pods at different targets, both acceptable. */
  predicate Rivals(a: Call, b: Call) {
    && a.Publish? && b.Publish? && a.handle == b.handle
    && a.pod.uid != b.pod.uid && a.target != b.target
    && Usable(a.handle, a.target) && Usable(b.handle, b.target)
  }

  /** No claim, no record and no mount that could get in the way. */
  predicate Clear(s: State, a: Call) {
    a.handle !in s.holds && a.handle !in s.disk.records && Stack(s.kernel, a.target) == []
  }

  /** The two pods share the live copy. */
  predicate Shared(s: State, a: Call, b: Call)
    requires a.Publish? && b.Publish?
  {
    Shows(s, a.target, a.handle, a.readOnly) && Shows(s, b.target, b.handle, b.readOnly)
  }

  /** After the first pod's claim is lost while its bind stays, the second pod gets in. */
  lemma SecondPodGetsIn(s: State, a: Call, b: Call)
    requires Rivals(a, b) && Shows(s, a.target, a.handle, a.readOnly)
    requires b.handle !in s.holds && Stack(s.kernel, b.target) == []
    ensures Perform(s, b, ALL_WORK).reply == Success && Shared(Perform(s, b, ALL_WORK).state, a, b)
  {
    GoodPublish(s, b);
    CompleteFrame(s, b, Check, ALL_WORK, a.handle, a.target);
  }

  const NO_RECORD: Oracle := pc => if pc == MakingHolds then Fails else Works

  lemma {:induction false} UnrecordedPublish(s0: State, s: State, c: Call, pc: Pc)
    requires c.Publish? && PublishAt(s0, s, c, pc)
    requires !pc.Finished? && !pc.Undoing? && !pc.OpeningRecord? && !pc.WritingRecord?
    ensures var e := Complete(s, c, pc, NO_RECORD);
            e.reply == Success && SameKey(e.state.disk.records, s0.disk.records, c.handle)
    decreases Rank(pc)
  {
    PublishAdvances(s0, s, c, pc, NO_RECORD(pc));
    if !pc.MakingHolds? {
      var p := Step(s, c, pc, Works);
      UnrecordedPublish(s0, p.state, c, p.pc);
    }
  }

  /** A hold file that is not written, then a restart with everything readable: two pods share
      the copy, both acknowledged. */
  lemma LostRecordLetsASecondPodIn(s: State, a: Call, b: Call)
    requires Rivals(a, b) && Clear(s, a) && Stack(s.kernel, b.target) == []
    ensures var first := Perform(s, a, NO_RECORD);
            var second := Perform(Restarted(first.state), b, ALL_WORK);
            first.reply == second.reply == Success && Shared(second.state, a, b)
  {
    assert CheckPublish(s, a) == MakingCopy;
    UnrecordedPublish(s, s, a, MakingCopy);
    PublishCompletes(s, s, a, MakingCopy, NO_RECORD);
    CompleteFrame(s, a, MakingCopy, NO_RECORD, a.handle, b.target);
    var first := Perform(s, a, NO_RECORD);
    assert first == Complete(s, a, MakingCopy, NO_RECORD);
    RestartedAt(first.state, a.handle);
    SecondPodGetsIn(Restarted(first.state), a, b);
  }

  /** A mount table or a hold file that cannot be read at the restart has the same effect. */
  lemma UnreadableRestartLetsASecondPodIn(s: State, a: Call, b: Call, entries: seq<Handle>, luck: Handle -> Luck)
    requires Rivals(a, b) && Clear(s, a) && Stack(s.kernel, b.target) == []
    requires NoRepeats(entries)
    requires luck(a.handle).table.Fails? || luck(a.handle).read.Fails?
    ensures var first := Perform(s, a, ALL_WORK);
            var second := Perform(ResumeEach(Crash(first.state), entries, luck), b, ALL_WORK);
            first.reply == second.reply == Success && Shared(second.state, a, b)
  {
    GoodPublish(s, a);
    var first := Perform(s, a, ALL_WORK).state;
    ResumeIsExact(Crash(first), entries, luck, a.handle);
    SecondPodGetsIn(ResumeEach(Crash(first), entries, luck), a, b);
  }

  /** And so has a holds directory that cannot be listed. */
  lemma UnlistableHoldsLetASecondPodIn(s: State, a: Call, b: Call, luck: Handle -> Luck)
    requires Rivals(a, b) && Clear(s, a) && Stack(s.kernel, b.target) == []
    ensures var first := Perform(s, a, ALL_WORK);
            var second := Perform(Resumed(first.state, None, luck), b, ALL_WORK);
            first.reply == second.reply == Success && Shared(second.state, a, b)
  {
    GoodPublish(s, a);
    SecondPodGetsIn(Crash(Perform(s, a, ALL_WORK).state), a, b);
  }

  /** A publish is refused for a held volume exactly when another pod holds it. */
  lemma RefusedExactly(s: State, b: Call, o: Oracle)
    requires b.Publish? && Usable(b.handle, b.target)
    ensures Perform(s, b, o).reply == FailedPrecondition <==>
              b.handle in s.holds && s.holds[b.handle].pod.uid != b.pod.uid
  {
    if CheckPublish(s, b) == MakingCopy { MountingIsNotRefused(s, b, MakingCopy, o); }
  }

  /** After any recovery another pod's publish is refused exactly when the recovery took the
      hold back: the directory could be listed, the record and the table could be read, and the
      target is mounted. */
  lemma RefusedAfterRestartExactly(
      s: State, b: Call, o: Oracle, listing: Option<seq<Handle>>, luck: Handle -> Luck)
    requires b.Publish? && Usable(b.handle, b.target)
    requires listing.Some? ==> IsListing(listing.value, s.disk.records)
    ensures Perform(Resumed(s, listing, luck), b, o).reply == FailedPrecondition <==>
              listing.Some? && Restores(s.disk, s.kernel, b.handle, luck(b.handle)) &&
              s.disk.records[b.handle].hold.pod.uid != b.pod.uid
  {
    if listing.Some? { ResumeIsExact(Crash(s), listing.value, luck, b.handle); }
    RefusedExactly(Resumed(s, listing, luck), b, o);
  }

  /** After an unpublish that succeeds, another pod's publish is refused exactly when the hold
      names another target: one that named this target is gone, whoever else has a bind. */
  lemma RefusedAfterUnpublishExactly(s: State, t: Path, b: Call, o: Oracle)
    requires Tidy(s, t) && t.text != "" && b.Publish? && Usable(b.handle, b.target)
    ensures var after := Perform(s, Unpublish(b.handle, t), ALL_WORK);
            && after.reply == Success
            && (Perform(after.state, b, o).reply == FailedPrecondition <==>
                  b.handle in s.holds && s.holds[b.handle].target != t && s.holds[b.handle].pod.uid != b.pod.uid)
  {
    HandleIsNotEmpty(b.handle, b.target);
    GoodUnpublish(s, Unpublish(b.handle, t));
    RefusedExactly(Unpublished(s, Unpublish(b.handle, t)), b, o);
  }

  lemma {:induction false} MountingIsNotRefused(s: State, c: Call, pc: Pc, o: Oracle)
    requires c.Publish? && !pc.Check? && pc != Finished(FailedPrecondition)
    ensures Complete(s, c, pc, o).reply != FailedPrecondition
    decreases Rank(pc)
  {
    if !pc.Finished? {
      var p := Step(s, c, pc, o(pc));
      MountingIsNotRefused(p.state, c, p.pc, o);
    }
  }

  /** One pod at two targets: the hold moves, the unpublish of the second target drops it, and
      the first target's bind is still there when another pod takes the volume. */
  lemma TwoTargetsLetASecondPodIn(s: State, a: Call, b: Call, t: Path)
    requires Rivals(a, b) && Clear(s, a) && Tidy(s, t) && Stack(s.kernel, b.target) == []
    requires t.text != "" && t != a.target && t != b.target
    ensures var moved := a.(target := t);
            var s1 := Perform(s, a, ALL_WORK);
            var s2 := Perform(s1.state, moved, ALL_WORK);
            var s3 := Perform(s2.state, Unpublish(a.handle, t), ALL_WORK);
            var s4 := Perform(s3.state, b, ALL_WORK);
            && s1.reply == s2.reply == s3.reply == s4.reply == Success
            && Shared(s4.state, a, b)
  {
    var moved := a.(target := t);
    GoodPublish(s, a);
    var s1 := Published(s, a);
    assert SameTarget(s1, s, t) && SameTarget(s1, s, b.target);
    GoodPublish(s1, moved);
    var s2 := Published(s1, moved);
    HandleIsNotEmpty(a.handle, a.target);
    GoodUnpublish(s2, Unpublish(a.handle, t));
    FirstBindStays(s, a, t);
    SecondPodGetsIn(Unpublished(s2, Unpublish(a.handle, t)), a, b);
  }

  lemma FirstBindStays(s: State, a: Call, t: Path)
    requires a.Publish? && t != a.target && |Stack(s.kernel, a.target)| <= 1
    ensures var s3 := Unpublished(Published(Published(s, a), a.(target := t)), Unpublish(a.handle, t));
            && a.handle !in s3.holds && Shows(s3, a.target, a.handle, a.readOnly)
            && forall u: Path | u != t && u != a.target :: Stack(s3.kernel, u) == Stack(s.kernel, u)
  {
  }

  lemma HandleIsNotEmpty(h: Handle, t: Path)
    requires Usable(h, t)
    ensures h.name != ""
  {
  }

  // ---- which assignments of targets keep one pod per volume ----

  /** The volume has one pod, however many targets. */
  ghost predicate OnePodOf(own: Kubelet, h: Handle) {
    forall t, u: Path | Usable(h, t) && Usable(h, u) && own(t).handle == own(u).handle == h :: own(t).uid == own(u).uid
  }

  /** In no lucky run do two pods both have an acknowledged publish of one volume whose bind is
      still there. */
  ghost predicate Excludes(own: Kubelet) {
    forall y: System, events: seq<Event> | Fresh(y) && IsLuckyRun(y, events, own) ::
      SoleUsers(After(y, events), own)
  }

  ghost predicate SoleUsers(z: System, own: Kubelet) {
    forall t, u | t in z.acked && u in z.acked && own(t).handle == own(u).handle :: own(t).uid == own(u).uid
  }

  /** Nothing but the kubelet's own rule is missing: the driver keeps one pod per volume in every
      lucky run if and only if no volume has both a pod with two targets and a second pod. */
  lemma ExclusionExactly(own: Kubelet)
    ensures Excludes(own) <==> forall h: Handle :: OneTargetOf(own, h) || OnePodOf(own, h)
  {
    if forall h: Handle :: OneTargetOf(own, h) || OnePodOf(own, h) {
      forall y: System, events: seq<Event> | Fresh(y) && IsLuckyRun(y, events, own)
        ensures SoleUsers(After(y, events), own)
      {
        OneOrTheOther(y, events, own);
      }
    }
    if h: Handle :| !OneTargetOf(own, h) && !OnePodOf(own, h) { NeitherBreaks(own, h); }
  }

  lemma NeitherBreaks(own: Kubelet, h: Handle)
    requires !OneTargetOf(own, h) && !OnePodOf(own, h)
    ensures !Excludes(own)
  {
    var t, u: Path :| Usable(h, t) && Usable(h, u) && own(t).handle == h && own(t) == own(u) && t != u;
    var v, w: Path :| Usable(h, v) && Usable(h, w) && own(v).handle == own(w).handle == h && own(v).uid != own(w).uid;
    var y, events := TwoPodsRun(own, h, t, u, if own(v).uid != own(t).uid then v else w);
    assert !SoleUsers(After(y, events), own);
  }

  lemma OneOrTheOther(y: System, events: seq<Event>, own: Kubelet)
    requires Fresh(y) && IsLuckyRun(y, events, own)
    requires forall h: Handle :: OneTargetOf(own, h) || OnePodOf(own, h)
    ensures SoleUsers(After(y, events), own)
  {
    var z := After(y, events);
    forall t, u | t in z.acked && u in z.acked && own(t).handle == own(u).handle ensures own(t).uid == own(u).uid {
      var h := own(t).handle;
      if OneTargetOf(own, h) {
        OnePodPerVolume(y, events, own, h);
      } else {
        AcknowledgedAreUsable(y, events, own);
      }
    }
  }

  lemma AcknowledgedAreUsable(y: System, events: seq<Event>, own: Kubelet)
    requires Fresh(y) && IsLuckyRun(y, events, own)
    ensures forall t | t in After(y, events).acked :: Usable(own(t).handle, t)
  {
    FreshIsSafe(y, own);
    FreshIsExclusive(y, own);
    RunExcludes(y, events, own);
    forall t | t in After(y, events).acked ensures Usable(own(t).handle, t) {
      assert AckOk(After(y, events), own, t);
    }
  }

  /** No step fails, and there is no restart. */
  predicate Untroubled(e: Event) {
    (e.Advance? ==> e.outcome.Works?) && !e.Boot? && !e.Recover?
  }

  lemma {:induction false} UntroubledIsLucky(y: System, events: seq<Event>, own: Kubelet)
    requires IsRun(y, events, own) && forall e | e in events :: Untroubled(e)
    ensures IsLuckyRun(y, events, own)
    decreases |events|
  {
    if events != [] {
      assert Untroubled(events[0]);
      UntroubledIsLucky(Next(y, events[0]), events[1..], own);
    }
  }

  lemma WholeCallIsUntroubled(s: State, c: Call)
    ensures forall e | e in WholeCall(s, c, ALL_WORK) :: Untroubled(e)
  {
    OutcomesComplete(s, c, First(c), ALL_WORK);
    var outcomes := OutcomesOf(s, c, First(c), ALL_WORK);
    forall e | e in Advances(c.handle, outcomes) ensures Untroubled(e) {
      var i :| 0 <= i < |outcomes| && e == Advance(c.handle, outcomes[i]);
      assert outcomes[i] in outcomes;
    }
  }

  /** One more call at the end of an untroubled run between calls. */
  lemma GoOn(y: System, events: seq<Event>, c: Call, own: Kubelet) returns (more: seq<Event>)
    requires IsRun(y, events, own) && forall e | e in events :: Untroubled(e)
    requires var z := After(y, events); z.phase.Serving? && z.pool == map[]
    requires Conforms(c, own)
    ensures IsRun(y, more, own) && forall e | e in more :: Untroubled(e)
    ensures var z, w := After(y, events), After(y, more);
            && w.phase.Serving? && w.pool == map[] && w.s == Perform(z.s, c, ALL_WORK).state
            && (forall x | x != c.target && x in z.acked :: x in w.acked)
            && (c.Publish? && Perform(z.s, c, ALL_WORK).reply == Success && Mounted(w, c.target) ==>
                  c.target in w.acked)
  {
    var z := After(y, events);
    WholeCallIsARun(z, c, ALL_WORK, own);
    WholeCallIsUntroubled(z.s, c);
    Joined(y, events, WholeCall(z.s, c, ALL_WORK), own);
    more := events + WholeCall(z.s, c, ALL_WORK);
  }

  /** A pod takes the volume at two targets and gives up the second; another pod takes it too. */
  lemma TwoPodsRun(own: Kubelet, h: Handle, t: Path, u: Path, v: Path) returns (y: System, events: seq<Event>)
    requires Usable(h, t) && Usable(h, u) && Usable(h, v) && t != u
    requires own(t) == own(u) && own(t).handle == own(v).handle == h && own(t).uid != own(v).uid
    ensures Fresh(y) && IsLuckyRun(y, events, own)
    ensures t in After(y, events).acked && v in After(y, events).acked
  {
    var s := State(map[], Disk(map[], map[], map[]), Kernel(map[], map[]));
    y := System(s, map[], Serving, Idle, {}, {}, {});
    var a := Publish(h, t, Pod(own(t).uid, "", ""), false);
    var b := Publish(h, v, Pod(own(v).uid, "", ""), false);
    TwoTargetsLetASecondPodIn(s, a, b, u);
    GoodPublish(s, a);
    events := GoOn(y, [], a, own);
    events := GoOn(y, events, a.(target := u), own);
    events := GoOn(y, events, Unpublish(h, u), own);
    events := GoOn(y, events, b, own);
    UntroubledIsLucky(y, events, own);
  }
}
