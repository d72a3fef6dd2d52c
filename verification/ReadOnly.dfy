/** When a target that was asked for read-only can be written: in one call, and across a crash. */
module ReadOnly {
  import opened States
  import opened Calls
  import opened Restart
  import opened Convergence
  import opened Records

  predicate WorkUpTo(o: Oracle, pcs: set<Pc>) { forall pc | pc in pcs :: o(pc).Works? }

  const TO_DETACH := {MakingCopy, ChmodingCopy, MakingTarget}

  /** A publish that has to mount, up to the unmount of what was there. */
  lemma UpToDetach(s: State, c: Call, o: Oracle) returns (z: State)
    requires c.Publish? && CheckPublish(s, c) == MakingCopy
    ensures !WorkUpTo(o, TO_DETACH) ==>
              Stack(Perform(s, c, o).state.kernel, c.target) == Stack(s.kernel, c.target)
              && Perform(s, c, o).reply == Internal
    ensures WorkUpTo(o, TO_DETACH) ==>
              Perform(s, c, o) == Complete(z, c, Detaching, o)
              && c.handle in z.disk.copies && c.target in z.kernel.targets
              && Stack(z.kernel, c.target) == Stack(s.kernel, c.target)
  {
    z := s;
    var e := Perform(s, c, o);
    assert e == Complete(s, c, MakingCopy, o);
    if o(MakingCopy).Fails? { assert e == Complete(s, c, Finished(Internal), o); return; }
    var s1 := s.(disk := WithCopy(s.disk, c.handle));
    assert e == Complete(s1, c, ChmodingCopy, o);
    if o(ChmodingCopy).Fails? { assert e == Complete(s1, c, Finished(Internal), o); return; }
    assert e == Complete(s1, c, MakingTarget, o);
    if o(MakingTarget).Fails? { assert e == Complete(s1, c, Finished(Internal), o); return; }
    z := s1.(kernel := WithTarget(s1.kernel, c.target));
  }

  /** From there it stops before the old mount is away, or after that without a bind of its
      own, or it makes the bind. */
  lemma UpToBind(s: State, c: Call, o: Oracle) returns (z: State)
    requires c.Publish? && |Stack(s.kernel, c.target)| <= 1
    requires c.handle in s.disk.copies && c.target in s.kernel.targets
    ensures var e := Complete(s, c, Detaching, o);
            && (o(Detaching).Fails? ==> e == Ended(s, Internal))
            && (o(Detaching).Works? && o(Binding).Fails? ==>
                  Stack(e.state.kernel, c.target) == [] && e.reply == Internal)
            && (o(Detaching).Works? && o(Binding).Works? ==>
                  e == Complete(z, c, if c.readOnly then Remounting else KeepingMemory, o)
                  && Shows(z, c.target, c.handle, false))
  {
    z := s;
    var e := Complete(s, c, Detaching, o);
    if o(Detaching).Fails? { assert e == Complete(s, c, Finished(Internal), o); return; }
    var s1 := s.(kernel := Unmount(s.kernel, c.target, Works).kernel);
    Detaches(s.kernel, c.target);
    assert e == Complete(s1, c, Binding, o);
    if o(Binding).Fails? { assert e == Complete(s1, c, Finished(Internal), o); return; }
    z := s1.(kernel := MountBind(s1.disk, s1.kernel, c.handle, c.target, Works).kernel);
  }

  lemma WritableFromDetach(s: State, c: Call, o: Oracle)
    requires c.Publish? && c.readOnly && |Stack(s.kernel, c.target)| <= 1
    requires c.handle in s.disk.copies && c.target in s.kernel.targets
    ensures var e := Complete(s, c, Detaching, o);
            && (Writable(e.state.kernel, c.target) <==>
                  if o(Detaching).Works? then o(Binding).Works? && o(Remounting).Fails? && o(Undoing).Fails?
                  else Writable(s.kernel, c.target))
            && (Writable(e.state.kernel, c.target) ==> e.reply == Internal)
  {
    var z := UpToBind(s, c, o);
    if o(Detaching).Works? && o(Binding).Works? { AfterBind(z, c, o); }
  }

  /** Whether a target asked for read-only stays writable: once the bind is made, exactly if
      the remount fails and so does the unmount that is to take it back, whose error nobody
      sees; before that, exactly if the old mount was writable and did not come away. */
  lemma WritableByAccidentExactly(s: State, c: Call, o: Oracle)
    requires c.Publish? && c.readOnly && CheckPublish(s, c) == MakingCopy && |Stack(s.kernel, c.target)| <= 1
    ensures var e := Perform(s, c, o);
            && (Writable(e.state.kernel, c.target) <==>
                  if WorkUpTo(o, TO_DETACH) && o(Detaching).Works? then
                    o(Binding).Works? && o(Remounting).Fails? && o(Undoing).Fails?
                  else Writable(s.kernel, c.target))
            && (Writable(e.state.kernel, c.target) ==> e.reply == Internal)
  {
    var s1 := UpToDetach(s, c, o);
    if WorkUpTo(o, TO_DETACH) { WritableFromDetach(s1, c, o); }
  }

  lemma AfterBind(z: State, c: Call, o: Oracle)
    requires c.Publish? && c.readOnly && Shows(z, c.target, c.handle, false)
    ensures var e := Complete(z, c, Remounting, o);
            && (Writable(e.state.kernel, c.target) <==> o(Remounting).Fails? && o(Undoing).Fails?)
            && (Writable(e.state.kernel, c.target) ==> e.reply == Internal)
  {
    var e := Complete(z, c, Remounting, o);
    if o(Remounting).Works? {
      var z1 := z.(kernel := RemountReadOnly(z.kernel, c.target, Works).kernel);
      assert e == Complete(z1, c, KeepingMemory, o);
      KeepingTouchesNoMount(z1, c, KeepingMemory, o);
    } else {
      assert e == Complete(z, c, Undoing, o);
      var z1 := z.(kernel := Unmount(z.kernel, c.target, o(Undoing)).kernel);
      assert e == Complete(z1, c, Finished(Internal), o);
      if o(Undoing).Works? { Detaches(z.kernel, c.target); }
    }
  }

  lemma {:induction false} KeepingTouchesNoMount(s: State, c: Call, pc: Pc, o: Oracle)
    requires c.Publish? && (pc.KeepingMemory? || Writing(pc) || pc.Finished?)
    ensures Complete(s, c, pc, o).state.kernel == s.kernel
    decreases Rank(pc)
  {
    if !pc.Finished? {
      var p := Step(s, c, pc, o(pc));
      KeepingTouchesNoMount(p.state, c, p.pc, o);
    }
  }

  /** Where the process died after the bind, with what outcomes for the remount and the unmount
      that was to take it back. */
  predicate DiesWritable(outcomes: seq<Outcome>) {
    |outcomes| == 0 || (outcomes[0].Fails? && (|outcomes| == 1 || outcomes[1].Fails?))
  }

  /** The first so many outcomes are there, and good. */
  predicate WorkFor(outcomes: seq<Outcome>, n: nat) {
    n <= |outcomes| && forall i | 0 <= i < n :: outcomes[i].Works?
  }

  lemma {:induction false} HeldTouchesNoMount(s: State, c: Call, pc: Pc, outcomes: seq<Outcome>)
    requires c.Publish? && (pc.KeepingMemory? || Writing(pc) || pc.Finished?)
    ensures Partway(s, c, pc, outcomes).state.kernel == s.kernel
    decreases |outcomes|
  {
    if outcomes != [] {
      var p := Step(s, c, pc, outcomes[0]);
      HeldTouchesNoMount(p.state, c, p.pc, outcomes[1..]);
    }
  }

  lemma DiesAfterBind(s: State, c: Call, outcomes: seq<Outcome>)
    requires c.Publish? && c.readOnly && Shows(s, c.target, c.handle, false)
    ensures Writable(Partway(s, c, Remounting, outcomes).state.kernel, c.target) <==> DiesWritable(outcomes)
  {
    if outcomes != [] {
      var p, rest := Step(s, c, Remounting, outcomes[0]), outcomes[1..];
      if outcomes[0].Works? {
        HeldTouchesNoMount(p.state, c, KeepingMemory, rest);
      } else if rest != [] {
        assert p == Point(s, Undoing);
        var q := Step(s, c, Undoing, rest[0]);
        if rest[0].Works? { Detaches(s.kernel, c.target); }
        HeldTouchesNoMount(q.state, c, Finished(Internal), rest[1..]);
      }
    }
  }

  lemma BindsOrNot(s: State, c: Call, outcomes: seq<Outcome>)
    requires c.Publish? && c.readOnly && Stack(s.kernel, c.target) == []
    requires c.handle in s.disk.copies && c.target in s.kernel.targets
    ensures Writable(Partway(s, c, Binding, outcomes).state.kernel, c.target) <==>
              WorkFor(outcomes, 1) && DiesWritable(outcomes[1..])
  {
    if outcomes != [] {
      var p, rest := Step(s, c, Binding, outcomes[0]), outcomes[1..];
      if outcomes[0].Fails? {
        HeldTouchesNoMount(s, c, Finished(Internal), rest);
      } else {
        DiesAfterBind(p.state, c, rest);
      }
    }
  }

  lemma WorkOn(outcomes: seq<Outcome>, n: nat)
    requires outcomes != [] && outcomes[0].Works?
    ensures WorkFor(outcomes, n + 1) <==> WorkFor(outcomes[1..], n)
    ensures n + 1 <= |outcomes| ==> outcomes[1..][n..] == outcomes[n + 1..]
  {
    if WorkFor(outcomes[1..], n) {
      forall i | 0 <= i < n + 1 ensures outcomes[i].Works? {
        if i > 0 { assert outcomes[1..][i - 1].Works?; }
      }
    }
  }

  /** From so many steps before the old mount comes away. */
  lemma {:induction false} DiesBeforeBind(s: State, c: Call, pc: Pc, outcomes: seq<Outcome>)
    requires c.Publish? && c.readOnly && |Stack(s.kernel, c.target)| <= 1
    requires pc.MakingCopy? || pc.ChmodingCopy? || pc.MakingTarget? || pc.Detaching?
    requires !pc.MakingCopy? ==> c.handle in s.disk.copies
    requires pc.Detaching? ==> c.target in s.kernel.targets
    ensures var n := Rank(pc) - Rank(Binding);
            Writable(Partway(s, c, pc, outcomes).state.kernel, c.target) <==>
              if WorkFor(outcomes, n) then WorkFor(outcomes, n + 1) && DiesWritable(outcomes[n + 1..])
              else Writable(s.kernel, c.target)
    decreases |outcomes|
  {
    if outcomes != [] {
      var n := Rank(pc) - Rank(Binding);
      var p, rest := Step(s, c, pc, outcomes[0]), outcomes[1..];
      if outcomes[0].Fails? {
        HeldTouchesNoMount(s, c, Finished(Internal), rest);
      } else {
        WorkOn(outcomes, n - 1);
        WorkOn(outcomes, n);
        if pc.Detaching? {
          Detaches(s.kernel, c.target);
          BindsOrNot(p.state, c, rest);
        } else {
          DiesBeforeBind(p.state, c, p.pc, rest);
        }
      }
    }
  }

  /** The first outcome is that of the check, which makes no system call. */
  function PastCheck(outcomes: seq<Outcome>): seq<Outcome> { if outcomes == [] then [] else outcomes[1..] }

  /** When a read-only publish that has to mount, killed anywhere, leaves the target writable:
      it died between the bind and a remount or unmount that worked, or the target was writable
      before and the old mount did not come away. */
  predicate LeavesWritable(s: State, c: Call, outcomes: seq<Outcome>) {
    var calls := PastCheck(outcomes);
    if WorkFor(calls, 4) then WorkFor(calls, 5) && DiesWritable(calls[5..]) else Writable(s.kernel, c.target)
  }

  /** The disk has a readable record, older than the call, of the very claim it asks for. */
  predicate Recalls(d: Disk, c: Call)
    requires c.Publish?
  {
    && c.handle in d.records && d.records[c.handle].Readable?
    && d.records[c.handle].hold.pod.uid == c.pod.uid && d.records[c.handle].hold.target == c.target
  }

  lemma DiesAnywhere(s: State, c: Call, outcomes: seq<Outcome>)
    requires c.Publish? && c.readOnly && CheckPublish(s, c) == MakingCopy && |Stack(s.kernel, c.target)| <= 1
    ensures var died := Partway(s, c, Check, outcomes);
            && (outcomes != [] ==> PublishAt(s, died.state, c, died.pc))
            && (Writable(died.state.kernel, c.target) <==> LeavesWritable(s, c, outcomes))
  {
    if outcomes != [] {
      DiesBeforeBind(s, c, MakingCopy, outcomes[1..]);
      PublishPartway(s, s, c, MakingCopy, outcomes[1..]);
    }
  }

  /** What the recovery and the retry make of it. */
  lemma RetriedAtPoint(s: State, died: State, c: Call)
    requires c.Publish? && c.readOnly && CheckPublish(s, c) == MakingCopy && |Stack(died.kernel, c.target)| <= 1
    requires Writable(died.kernel, c.target) ==> SameKey(died.disk.records, s.disk.records, c.handle)
    ensures var e := Perform(Restarted(died), c, ALL_WORK);
            e.reply == Success && Writable(e.state.kernel, c.target) <==>
              Writable(died.kernel, c.target) && Recalls(s.disk, c)
  {
    var r := Restarted(died);
    RestartedAt(died, c.handle);
    if CheckPublish(r, c) == MakingCopy { GoodPublish(r, c); }
  }

  /** A target asked for read-only is writable after a crash anywhere in the call, a good restart
      and an acknowledged retry if and only if an older record names the very claim asked for,
      and the crash left the target writable. */
  lemma WritableAfterCrashExactly(s: State, c: Call, outcomes: seq<Outcome>)
    requires c.Publish? && c.readOnly && CheckPublish(s, c) == MakingCopy && |Stack(s.kernel, c.target)| <= 1
    ensures var e := Perform(Restarted(Partway(s, c, Check, outcomes).state), c, ALL_WORK);
            e.reply == Success && Writable(e.state.kernel, c.target) <==>
              Recalls(s.disk, c) && LeavesWritable(s, c, outcomes)
  {
    DiesAnywhere(s, c, outcomes);
    RetriedAtPoint(s, Partway(s, c, Check, outcomes).state, c);
  }

  /** A hold file left over from an earlier claim (its removal failed), a crash between the bind
      and the read-only remount, and a restart: the retry is acknowledged on the strength of the
      old record, and the target the pod asked to have read-only is writable. */
  lemma StaleRecordLeavesTargetWritable(s: State, c: Call, o: Oracle)
    requires c.Publish? && c.readOnly && CheckPublish(s, c) == MakingCopy
    requires c.handle !in s.holds && Wrote(s, c.handle, Readable(HoldOf(c))) && Stack(s.kernel, c.target) == []
    ensures var died := Partway(s, c, Check, [Works, Works, Works, Works, Works, Works]);
            var r := Restarted(died.state);
            && died.pc == Remounting
            && Perform(r, c, o) == Ended(r, Success)
            && Shows(r, c.target, c.handle, false)
  {
    var six := [Works, Works, Works, Works, Works, Works];
    var died := Partway(s, c, Check, six);
    assert six[1..] == [Works] + [Works, Works, Works, Works];
    FiveToRemounting(s, s, c);
    PublishPartway(s, s, c, MakingCopy, six[1..]);
    RestartedAt(died.state, c.handle);
  }

  lemma FiveToRemounting(s0: State, s: State, c: Call)
    requires c.Publish? && c.readOnly && PublishAt(s0, s, c, MakingCopy)
    ensures Partway(s, c, MakingCopy, [Works] + [Works, Works, Works, Works]).pc == Remounting
  {
    var four := [Works, Works, Works, Works];
    assert ([Works] + four)[1..] == four;
    PublishAdvances(s0, s, c, MakingCopy, Works);
    var p := Step(s, c, MakingCopy, Works);
    assert four == [Works] + [Works, Works, Works];
    WorkingStep(s0, p.state, c, ChmodingCopy, [Works, Works, Works]);
    var q := Step(p.state, c, ChmodingCopy, Works);
    assert [Works, Works, Works] == [Works] + [Works, Works];
    WorkingStep(s0, q.state, c, MakingTarget, [Works, Works]);
    var r := Step(q.state, c, MakingTarget, Works);
    assert [Works, Works] == [Works] + [Works];
    WorkingStep(s0, r.state, c, Detaching, [Works]);
    var u := Step(r.state, c, Detaching, Works);
    assert [Works] == [Works] + [];
    WorkingStep(s0, u.state, c, Binding, []);
  }

  /** One step that works, on the way to the remount. */
  lemma WorkingStep(s0: State, s: State, c: Call, pc: Pc, rest: seq<Outcome>)
    requires c.Publish? && c.readOnly && PublishAt(s0, s, c, pc)
    requires pc.ChmodingCopy? || pc.MakingTarget? || pc.Detaching? || pc.Binding?
    ensures var p := Step(s, c, pc, Works);
            && p.pc == (match pc case ChmodingCopy => MakingTarget case MakingTarget => Detaching
                                 case Detaching => Binding case _ => Remounting)
            && PublishAt(s0, p.state, c, p.pc)
            && Partway(s, c, pc, [Works] + rest) == Partway(p.state, c, p.pc, rest)
  {
    PublishAdvances(s0, s, c, pc, Works);
    assert ([Works] + rest)[1..] == rest;
  }
}
