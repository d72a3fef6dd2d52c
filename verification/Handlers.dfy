/** What the two handlers answer and what they leave, for every state and every outcome of every
    system call, written out once more with no step program in it. */
module Handlers {
  import Handles
  import opened States
  import opened Calls
  import Convergence

  // ---- publish ----

  predicate Acceptable(c: Call) {
    Handles.IsDnsName(c.handle.name) && |c.handle.name| <= 253 && c.target.text != ""
  }

  /** Another pod holds the handle; the pod itself holds it at this target. */
  predicate HeldByAnother(s: State, c: Call)
    requires c.Publish?
  {
    c.handle in s.holds && s.holds[c.handle].pod.uid != c.pod.uid
  }

  predicate HeldHere(s: State, c: Call)
    requires c.Publish?
  {
    c.handle in s.holds && s.holds[c.handle].pod.uid == c.pod.uid && s.holds[c.handle].target == c.target
  }

  /** Every call up to the unmount of the target goes through, and so does every call up to the
      bind in the mode asked for. */
  predicate Detaches(o: Oracle) {
    o(MakingCopy).Works? && o(ChmodingCopy).Works? && o(MakingTarget).Works? && o(Detaching).Works?
  }

  predicate Mounts(c: Call, o: Oracle)
    requires c.Publish?
  {
    Detaches(o) && o(Binding).Works? && (c.readOnly ==> o(Remounting).Works?)
  }

  /** The binds left when the visible one, if there is one, has come away. */
  function Uncovered(binds: seq<Bind>): seq<Bind> {
    if binds == [] then [] else binds[..|binds| - 1]
  }

  function CopyAfter(s: State, h: Handle): Copy {
    if h in s.disk.copies then s.disk.copies[h]
    else Copy(if h in s.disk.erased then s.disk.erased[h] else 0, Empty)
  }

  function StackAfter(s: State, c: Call, o: Oracle): seq<Bind>
    requires c.Publish?
  {
    var binds := Stack(s.kernel, c.target);
    var made := Bind(c.handle, CopyAfter(s, c.handle).generation, c.readOnly && o(Remounting).Works?);
    if !Detaches(o) then binds
    else if o(Binding).Fails? || (c.readOnly && o(Remounting).Fails? && o(Undoing).Works?) then Uncovered(binds)
    else Uncovered(binds) + [made]
  }

  function RecordsAfter(s: State, c: Call, o: Oracle): map<Handle, Record>
    requires c.Publish?
  {
    if !Mounts(c, o) || o(MakingHolds).Fails? || o(OpeningRecord).Fails? then s.disk.records
    else s.disk.records[c.handle :=
      if o(WritingRecord).Fails? then Unreadable else Readable(Hold(c.pod, c.target))]
  }

  /** A publish is refused for its arguments, refused for another pod's hold, or acknowledged
      without a system call, exactly when these say, and then nothing changes. */
  lemma PublishAnswersExactly(s: State, c: Call, o: Oracle)
    requires c.Publish?
    ensures Perform(s, c, o).reply ==
              if !Acceptable(c) then InvalidArgument
              else if HeldByAnother(s, c) then FailedPrecondition
              else if HeldHere(s, c) || Mounts(c, o) then Success
              else Internal
    ensures !Acceptable(c) || HeldByAnother(s, c) || HeldHere(s, c) ==> Perform(s, c, o).state == s
  {
    if Acceptable(c) && !HeldByAnother(s, c) && !HeldHere(s, c) { PublishGoesThrough(s, c, o); }
  }

  /** And a publish that goes on leaves, whatever fails on its way: the copy as it was or new and
      empty; the target as it was or new and empty; the binds on it; the hold and its file. */
  lemma PublishLeavesExactly(s: State, c: Call, o: Oracle)
    requires c.Publish? && Acceptable(c) && !HeldByAnother(s, c) && !HeldHere(s, c)
    ensures var z := Perform(s, c, o).state;
            && z.holds == (if Mounts(c, o) then s.holds[c.handle := Hold(c.pod, c.target)] else s.holds)
            && z.disk.records == RecordsAfter(s, c, o)
            && z.disk.erased == s.disk.erased
            && z.disk.copies ==
                 (if o(MakingCopy).Works? then s.disk.copies[c.handle := CopyAfter(s, c.handle)] else s.disk.copies)
            && z.kernel.targets == TargetsAfter(s, c, o)
            && Stack(z.kernel, c.target) == StackAfter(s, c, o)
            && forall t: Path | t != c.target :: Stack(z.kernel, t) == Stack(s.kernel, t)
  {
    PublishGoesThrough(s, c, o);
    forall t: Path | t != c.target ensures Stack(Perform(s, c, o).state.kernel, t) == Stack(s.kernel, t) {
      Convergence.CompleteFrame(s, c, Check, o, c.handle, t);
    }
  }

  function TargetsAfter(s: State, c: Call, o: Oracle): map<Path, Content> {
    if c.target !in s.kernel.targets && o(MakingCopy).Works? && o(ChmodingCopy).Works? && o(MakingTarget).Works?
    then s.kernel.targets[c.target := Empty] else s.kernel.targets
  }

  lemma PublishGoesThrough(s: State, c: Call, o: Oracle)
    requires c.Publish? && CheckPublish(s, c) == MakingCopy
    ensures var e := Perform(s, c, o);
            var z := e.state;
            && e.reply == (if Mounts(c, o) then Success else Internal)
            && z.holds == (if Mounts(c, o) then s.holds[c.handle := Hold(c.pod, c.target)] else s.holds)
            && z.disk.records == RecordsAfter(s, c, o)
            && z.disk.erased == s.disk.erased
            && z.disk.copies ==
                 (if o(MakingCopy).Works? then s.disk.copies[c.handle := CopyAfter(s, c.handle)] else s.disk.copies)
            && z.kernel.targets == TargetsAfter(s, c, o)
            && Stack(z.kernel, c.target) == StackAfter(s, c, o)
  {
    var made := s.disk.copies[c.handle := CopyAfter(s, c.handle)];
    var s1 := s.(disk := s.disk.(copies := made));
    var s2 := s1.(kernel := s.kernel.(targets := TargetsAfter(s, c, o)));
    UpToTarget(s, c, o);
    if o(MakingCopy).Works? && o(ChmodingCopy).Works? && o(MakingTarget).Works? {
      FromDetaching(s2, c, o);
      assert Stack(s2.kernel, c.target) == Stack(s.kernel, c.target);
    }
  }

  lemma UpToTarget(s: State, c: Call, o: Oracle)
    requires c.Publish? && CheckPublish(s, c) == MakingCopy
    ensures var made := s.disk.copies[c.handle := CopyAfter(s, c.handle)];
            var s1 := s.(disk := s.disk.(copies := made));
            var s2 := s1.(kernel := s.kernel.(targets := TargetsAfter(s, c, o)));
            Perform(s, c, o) ==
              if o(MakingCopy).Fails? then Ended(s, Internal)
              else if o(ChmodingCopy).Fails? || o(MakingTarget).Fails? then Ended(s1, Internal)
              else Complete(s2, c, Detaching, o)
  {
    var made := s.disk.copies[c.handle := CopyAfter(s, c.handle)];
    var s1 := s.(disk := s.disk.(copies := made));
    var s2 := s1.(kernel := s.kernel.(targets := TargetsAfter(s, c, o)));
    var e := Perform(s, c, o);
    assert e == Complete(s, c, MakingCopy, o);
    if o(MakingCopy).Fails? { assert e == Complete(s, c, Finished(Internal), o); return; }
    if c.handle in s.disk.copies { assert made == s.disk.copies; }
    assert e == Complete(s1, c, ChmodingCopy, o);
    if o(ChmodingCopy).Fails? { assert e == Complete(s1, c, Finished(Internal), o); return; }
    assert e == Complete(s1, c, MakingTarget, o);
    if o(MakingTarget).Fails? { assert e == Complete(s1, c, Finished(Internal), o); return; }
    assert e == Complete(s2, c, Detaching, o);
  }

  /** A state whose binds at the target are the given ones, and otherwise as before. */
  predicate Rebound(s: State, z: State, t: Path, binds: seq<Bind>) {
    && z == s.(kernel := s.kernel.(mounts := z.kernel.mounts))
    && Stack(z.kernel, t) == binds
  }

  lemma FromDetaching(s: State, c: Call, o: Oracle)
    requires c.Publish? && c.handle in s.disk.copies && c.target in s.kernel.targets
    requires o(MakingCopy).Works? && o(ChmodingCopy).Works? && o(MakingTarget).Works?
    ensures var e := Complete(s, c, Detaching, o);
            && e.reply == (if Mounts(c, o) then Success else Internal)
            && Stack(e.state.kernel, c.target) == StackAfter(s, c, o)
            && e.state == State(
                 if Mounts(c, o) then s.holds[c.handle := Hold(c.pod, c.target)] else s.holds,
                 s.disk.(records := RecordsAfter(s, c, o)),
                 s.kernel.(mounts := e.state.kernel.mounts))
  {
    var e := Complete(s, c, Detaching, o);
    if o(Detaching).Fails? { assert e == Complete(s, c, Finished(Internal), o); return; }
    var s1 := s.(kernel := Unmount(s.kernel, c.target, Works).kernel);
    assert Rebound(s, s1, c.target, Uncovered(Stack(s.kernel, c.target)));
    assert e == Complete(s1, c, Binding, o);
    FromBinding(s1, c, o);
    if o(Binding).Works? { assert RecordsAfter(s1, c, o) == RecordsAfter(s, c, o); }
  }

  lemma FromBinding(s: State, c: Call, o: Oracle)
    requires c.Publish? && c.handle in s.disk.copies && c.target in s.kernel.targets && Detaches(o)
    ensures var e := Complete(s, c, Binding, o);
            var binds := Stack(s.kernel, c.target);
            var made := Bind(c.handle, s.disk.copies[c.handle].generation, c.readOnly && o(Remounting).Works?);
            && e.reply == (if Mounts(c, o) then Success else Internal)
            && Stack(e.state.kernel, c.target) ==
                 (if o(Binding).Fails? || (c.readOnly && o(Remounting).Fails? && o(Undoing).Works?) then binds
                  else binds + [made])
            && e.state == State(
                 if Mounts(c, o) then s.holds[c.handle := Hold(c.pod, c.target)] else s.holds,
                 s.disk.(records := RecordsAfter(s, c, o)),
                 s.kernel.(mounts := e.state.kernel.mounts))
  {
    var e := Complete(s, c, Binding, o);
    if o(Binding).Fails? { assert e == Complete(s, c, Finished(Internal), o); return; }
    var binds := Stack(s.kernel, c.target);
    var made := Bind(c.handle, s.disk.copies[c.handle].generation, false);
    var s1 := s.(kernel := WithStack(s.kernel, c.target, binds + [made]));
    assert Rebound(s, s1, c.target, binds + [made]);
    if !c.readOnly {
      assert e == Complete(s1, c, KeepingMemory, o);
      FromKeeping(s1, c, o);
    } else {
      assert e == Complete(s1, c, Remounting, o);
      FromRemounting(s1, c, binds, made, o);
    }
  }

  lemma FromRemounting(s: State, c: Call, binds: seq<Bind>, made: Bind, o: Oracle)
    requires c.Publish? && c.readOnly && Detaches(o) && o(Binding).Works?
    requires Stack(s.kernel, c.target) == binds + [made] && !made.readOnly
    ensures var e := Complete(s, c, Remounting, o);
            && e.reply == (if Mounts(c, o) then Success else Internal)
            && Stack(e.state.kernel, c.target) ==
                 (if o(Remounting).Works? then binds + [made.(readOnly := true)]
                  else if o(Undoing).Works? then binds else binds + [made])
            && e.state == State(
                 if Mounts(c, o) then s.holds[c.handle := Hold(c.pod, c.target)] else s.holds,
                 s.disk.(records := RecordsAfter(s, c, o)),
                 s.kernel.(mounts := e.state.kernel.mounts))
  {
    var e := Complete(s, c, Remounting, o);
    assert Below(binds + [made]) == binds;
    if o(Remounting).Works? {
      var s1 := s.(kernel := RemountReadOnly(s.kernel, c.target, Works).kernel);
      assert e == Complete(s1, c, KeepingMemory, o);
      FromKeeping(s1, c, o);
    } else {
      assert e == Complete(s, c, Undoing, o);
      var s1 := s.(kernel := Unmount(s.kernel, c.target, o(Undoing)).kernel);
      assert e == Complete(s1, c, Finished(Internal), o);
    }
  }

  lemma FromKeeping(s: State, c: Call, o: Oracle)
    requires c.Publish? && Mounts(c, o)
    ensures var holds := s.holds[c.handle := Hold(c.pod, c.target)];
            var disk := s.disk.(records := RecordsAfter(s, c, o));
            Complete(s, c, KeepingMemory, o) == Ended(State(holds, disk, s.kernel), Success)
  {
    var e := Complete(s, c, KeepingMemory, o);
    var s1 := s.(holds := s.holds[c.handle := Hold(c.pod, c.target)]);
    assert e == Complete(s1, c, MakingHolds, o);
    if o(MakingHolds).Fails? { assert e == Complete(s1, c, Finished(Success), o); return; }
    assert e == Complete(s1, c, OpeningRecord, o);
    if o(OpeningRecord).Fails? { assert e == Complete(s1, c, Finished(Success), o); return; }
    var s2 := s1.(disk := s.disk.(records := s.disk.records[c.handle := Unreadable]));
    assert e == Complete(s2, c, WritingRecord, o);
    if o(WritingRecord).Fails? { assert e == Complete(s2, c, Finished(Success), o); return; }
    var record := Readable(Hold(c.pod, c.target));
    assert s2.disk.records[c.handle := record] == s.disk.records[c.handle := record];
    var s3 := s1.(disk := s.disk.(records := s.disk.records[c.handle := record]));
    assert e == Complete(s3, c, Finished(Success), o);
  }

  // ---- unpublish ----

  /** The one unmount uncovers an empty directory or none, and the directory goes. */
  predicate Clears(s: State, c: Call, o: Oracle) {
    && o(Unmounting).Works? && o(RemovingTarget).Works?
    && |Stack(s.kernel, c.target)| <= 1
    && (c.target in s.kernel.targets ==> s.kernel.targets[c.target] == Empty)
  }

  predicate Releases(s: State, c: Call, o: Oracle) {
    Clears(s, c, o) && (c.handle in s.holds ==> s.holds[c.handle].target == c.target)
  }

  /** An unpublish succeeds exactly when the unmount and the removal go through and nothing lies
      under the mount, and then the target carries no mount and is gone; the hold and its file
      go exactly if it then names this target. In every other case it answers an error and
      leaves every hold, every file and every copy. */
  lemma UnpublishAnswersExactly(s: State, c: Call, o: Oracle)
    requires c.Unpublish?
    ensures var e := Perform(s, c, o);
            var z := e.state;
            && e.reply == (if c.handle.name == "" || c.target.text == "" then InvalidArgument
                           else if Clears(s, c, o) then Success
                           else Internal)
            && (e.reply == InvalidArgument ==> z == s)
            && (e.reply == Success ==> Stack(z.kernel, c.target) == [] && c.target !in z.kernel.targets)
            && (e.reply == Success && c.handle in z.holds ==> z.holds[c.handle].target != c.target)
            && (e.reply != Success ==> z.holds == s.holds && z.disk == s.disk)
  {
    if c.handle.name != "" && c.target.text != "" { UnpublishLeavesExactly(s, c, o); }
  }

  lemma UnpublishLeavesExactly(s: State, c: Call, o: Oracle)
    requires c.Unpublish? && c.handle.name != "" && c.target.text != ""
    ensures var e := Perform(s, c, o);
            var z := e.state;
            && e.reply == (if Clears(s, c, o) then Success else Internal)
            && z.holds == (if Releases(s, c, o) then s.holds - {c.handle} else s.holds)
            && z.disk == s.disk.(records :=
                 if Releases(s, c, o) && o(RemovingRecord).Works? then s.disk.records - {c.handle}
                 else s.disk.records)
            && z.kernel.targets ==
                 (if Clears(s, c, o) then s.kernel.targets - {c.target} else s.kernel.targets)
            && Stack(z.kernel, c.target) ==
                 (if o(Unmounting).Works? then Uncovered(Stack(s.kernel, c.target)) else Stack(s.kernel, c.target))
            && forall t: Path | t != c.target :: Stack(z.kernel, t) == Stack(s.kernel, t)
  {
    var e := Perform(s, c, o);
    forall t: Path | t != c.target ensures Stack(e.state.kernel, t) == Stack(s.kernel, t) {
      Convergence.CompleteFrame(s, c, CheckArguments, o, c.handle, t);
    }
    assert e == Complete(s, c, Unmounting, o);
    if o(Unmounting).Fails? { assert e == Complete(s, c, Finished(Internal), o); return; }
    var s1 := s.(kernel := Unmount(s.kernel, c.target, Works).kernel);
    assert Rebound(s, s1, c.target, Uncovered(Stack(s.kernel, c.target)));
    assert e == Complete(s1, c, RemovingTarget, o);
    FromRemovingTarget(s1, c, o);
  }

  lemma FromRemovingTarget(s: State, c: Call, o: Oracle)
    requires c.Unpublish?
    ensures var e := Complete(s, c, RemovingTarget, o);
            var clears := o(RemovingTarget).Works? && Stack(s.kernel, c.target) == [] &&
                          (c.target in s.kernel.targets ==> s.kernel.targets[c.target] == Empty);
            var releases := clears && (c.handle in s.holds ==> s.holds[c.handle].target == c.target);
            && e.reply == (if clears then Success else Internal)
            && e.state == State(
                 if releases then s.holds - {c.handle} else s.holds,
                 s.disk.(records :=
                   if releases && o(RemovingRecord).Works? then s.disk.records - {c.handle} else s.disk.records),
                 s.kernel.(targets := if clears then s.kernel.targets - {c.target} else s.kernel.targets))
  {
    var e := Complete(s, c, RemovingTarget, o);
    var a := RemoveTarget(s.kernel, c.target, o(RemovingTarget));
    if a.errno != OK && a.errno != ENOENT { assert e == Complete(s, c, Finished(Internal), o); return; }
    var s1 := s.(kernel := s.kernel.(targets := s.kernel.targets - {c.target}));
    if c.target !in s.kernel.targets { assert s.kernel.targets - {c.target} == s.kernel.targets; }
    assert e == Complete(s1, c, CheckHolder, o);
    if c.handle in s.holds && s.holds[c.handle].target != c.target {
      assert e == Complete(s1, c, Finished(Success), o);
      return;
    }
    assert e == Complete(s1, c, DroppingMemory, o);
    var s2 := s1.(holds := s.holds - {c.handle});
    assert e == Complete(s2, c, RemovingRecord, o);
    if c.handle !in s.disk.records { assert s.disk.records - {c.handle} == s.disk.records; }
  }
}
